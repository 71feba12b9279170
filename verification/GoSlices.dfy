/**
 Go slices: a window of a given length onto a backing array.  Appending writes into the array
 behind the window when there is room, so two slices of one array can overwrite each other.
 */
module GoSlices {
  datatype Slice<T> = Slice(backing: array<T>, len: nat) {
    predicate Valid() {
      len <= backing.Length
    }

    /** What the window shows now. */
    function Read(): seq<T>
      requires Valid()
      reads backing
    {
      backing[..len]
    }
  }

  method Nil<T(0)>() returns (s: Slice<T>)
    ensures s.Valid() && s.Read() == [] && fresh(s.backing)
  {
    var none := new T[0];
    s := Slice(none, 0);
  }

  /** A slice literal: length and capacity are the number of elements. */
  method Literal<T(0)>(xs: seq<T>) returns (s: Slice<T>)
    ensures s.Valid() && s.Read() == xs && fresh(s.backing) && s.backing.Length == |xs|
  {
    var a := new T[|xs|](k requires 0 <= k < |xs| => xs[k]);
    s := Slice(a, |xs|);
  }

  /** `append`: in place if the elements fit, otherwise into a larger array of any capacity. */
  method Append<T(0)>(s: Slice<T>, xs: seq<T>) returns (r: Slice<T>)
    requires s.Valid()
    modifies s.backing
    ensures r.Valid() && r.Read() == old(s.Read()) + xs
    ensures s.Read() == old(s.Read())
    ensures if s.len + |xs| <= s.backing.Length
            then r.backing == s.backing && s.backing[r.len..] == old(s.backing[s.len + |xs|..])
            else fresh(r.backing) && s.backing[..] == old(s.backing[..])
  {
    var target := s.backing;
    if s.len + |xs| > s.backing.Length {
      target := Grow(s, s.len + |xs|);
    }
    Store(target, s.len, xs);
    r := Slice(target, s.len + |xs|);
  }

  method Store<T>(a: array<T>, at: nat, xs: seq<T>)
    requires at + |xs| <= a.Length
    modifies a
    ensures a[..] == old(a[..at]) + xs + old(a[at + |xs|..])
  {
    ghost var before := a[..];
    for k := 0 to |xs|
      invariant a[..] == before[..at] + xs[..k] + before[at + k..]
    {
      a[at + k] := xs[k];
    }
  }

  /** A larger array that starts with what the slice shows. */
  method Grow<T(0)>(s: Slice<T>, needed: nat) returns (target: array<T>)
    requires s.Valid() && s.len <= needed
    ensures fresh(target) && target.Length >= needed && target[..s.len] == s.Read()
  {
    var capacity :| capacity >= needed;
    target := new T[capacity];
    for k := 0 to s.len
      invariant target[..k] == s.backing[..k]
    {
      target[k] := s.backing[k];
    }
  }
}
