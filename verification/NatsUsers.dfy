/**
 The NATS user list.  A delete shifts the array it is ranging over: the entry that follows a deleted
 one is skipped, and the tail of the array keeps copies of the last entry.
 */
module NatsUsers {
  import opened Wrappers
  import opened GoSlices

  datatype User = User(name: string, password: string, publish: seq<string>, subscribe: seq<string>)

  function Without(list: seq<User>, name: string): seq<User> {
    if list == [] then []
    else (if list[0].name == name then [] else [list[0]]) + Without(list[1..], name)
  }

  function Count(list: seq<User>, name: string): nat {
    if list == [] then 0 else Count(list[..|list| - 1], name) + (if list[|list| - 1].name == name then 1 else 0)
  }

  /** What the delete loop leaves: an entry right after a deleted one is kept unseen. */
  function Sweep(list: seq<User>, name: string): seq<User> {
    if list == [] then []
    else if list[0].name != name then [list[0]] + Sweep(list[1..], name)
    else if |list| == 1 then []
    else [list[1]] + Sweep(list[2..], name)
  }

  /** The delete loop indexes past the shortened list: it meets a stale copy of the last entry. */
  predicate Panics(list: seq<User>, name: string) {
    list != [] && list[|list| - 1].name == name && Count(list, name) >= 2
  }

  // ---- The loop ----

  /** Before the loop has seen every entry: `a` is the array, `i` the index, `m` entries are gone. */
  ghost predicate Live(o: seq<User>, name: string, a: seq<User>, i: nat, m: nat) {
    && m <= i && i + m <= |o| == |a|
    && a[..|o| - m] == a[..i] + o[i + m..]
    && (forall k :: |o| - m <= k < |o| ==> a[k] == o[|o| - 1])
    && Sweep(o, name) == a[..i] + Sweep(o[i + m..], name)
    && Count(o[..i + m], name) == m + Count(a[..i], name)
    && (m == 0 ==> Count(o[..i], name) == 0)
    && (i > 0 ==> a[i - 1] == o[i + m - 1])
  }

  /** Afterwards: only stale copies of the last entry are left to see. */
  ghost predicate Stale(o: seq<User>, name: string, a: seq<User>, i: nat, m: nat) {
    && 1 <= m <= |o| == |a| && i + m > |o|
    && a[..|o| - m] == Sweep(o, name)
    && (forall k :: |o| - m <= k < |o| ==> a[k] == o[|o| - 1])
    && (o[|o| - 1].name == name ==> i + m == |o| + 1 && Count(o, name) >= m && (m == 1 ==> Count(o, name) == 1))
  }

  lemma LiveStart(o: seq<User>, name: string)
    ensures Live(o, name, o, 0, 0)
  {
    assert o[..|o|] == o && o[0..] == o;
  }

  lemma CountSnoc(list: seq<User>, u: User, name: string)
    ensures Count(list + [u], name) == Count(list, name) + (if u.name == name then 1 else 0)
  {
    assert (list + [u])[..|list|] == list;
  }

  lemma LiveHere(o: seq<User>, name: string, a: seq<User>, i: nat, m: nat)
    requires Live(o, name, a, i, m) && i + m < |o|
    ensures a[i] == o[i + m]
  {
    assert a[..|o| - m][i] == o[i + m..][0];
  }

  lemma LiveKeep(o: seq<User>, name: string, a: seq<User>, i: nat, m: nat)
    requires Live(o, name, a, i, m) && i + m < |o| && a[i].name != name
    ensures Live(o, name, a, i + 1, m)
  {
    hide Count, Sweep;
    LiveHere(o, name, a, i, m);
    var rest := o[i + m..];
    assert rest[1..] == o[i + 1 + m..] && rest[0] == a[i];
    assert a[..i + 1] == a[..i] + [a[i]];
    assert o[..i + 1 + m] == o[..i + m] + [o[i + m]];
    CountSnoc(a[..i], a[i], name);
    CountSnoc(o[..i + m], a[i], name);
    LiveKeepSweep(rest, a[..i], name);
    assert a[..|o| - m] == a[..i + 1] + rest[1..];
  }

  lemma LiveKeepSweep(rest: seq<User>, kept: seq<User>, name: string)
    requires rest != [] && rest[0].name != name
    ensures kept + Sweep(rest, name) == kept + [rest[0]] + Sweep(rest[1..], name)
  {
  }

  /** The array after the entries behind index `i` moved up by one. */
  function Shift(a: seq<User>, i: nat, len: nat): seq<User>
    requires i < len <= |a|
  {
    a[..i] + a[i + 1..len] + a[len - 1..]
  }

  lemma ShiftShape(a: seq<User>, i: nat, len: nat)
    requires i < len <= |a|
    ensures var b := Shift(a, i, len);
            && |b| == |a| && b[..i] == a[..i] && b[..len - 1] == a[..i] + a[..len][i + 1..]
            && forall k :: len - 1 <= k < |a| ==> b[k] == a[k]
  {
    assert a[..len][i + 1..] == a[i + 1..len];
  }

  /** Deleting the entry at hand keeps the one that takes its place. */
  lemma LiveDelete(o: seq<User>, name: string, a: seq<User>, i: nat, m: nat)
    requires Live(o, name, a, i, m) && i + m + 1 < |o| && a[i].name == name
    ensures Live(o, name, Shift(a, i, |o| - m), i + 1, m + 1)
  {
    hide Shift, Count, Sweep;
    LiveHere(o, name, a, i, m);
    ShiftShape(a, i, |o| - m);
    var b, rest := Shift(a, i, |o| - m), o[i + m..];
    Replacement(a[..|o| - m], a[..i], rest, b[..|o| - m - 1]);
    assert b[i] == b[..|o| - m - 1][i] && a[|o| - m - 1] == a[..|o| - m][|o| - m - 1];
    assert b[..i + 1] == a[..i] + [rest[1]];
    assert b[..|o| - m - 1] == b[..i + 1] + rest[2..];
    LiveDeleteSweep(rest, a[..i], name);
    assert rest[2..] == o[i + m + 2..];
    LiveDeleteCount(o[..i + m], a[..i], rest[0], rest[1], name);
    assert o[..i + m + 2] == o[..i + m] + [rest[0]] + [rest[1]];
  }

  lemma LiveDeleteCount(seen: seq<User>, kept: seq<User>, gone: User, next: User, name: string)
    requires gone.name == name
    ensures Count(seen + [gone] + [next], name) - Count(kept + [next], name)
            == Count(seen, name) - Count(kept, name) + 1
  {
    CountSnoc(kept, next, name);
    CountSnoc(seen, gone, name);
    CountSnoc(seen + [gone], next, name);
  }

  lemma Replacement(shown: seq<User>, kept: seq<User>, rest: seq<User>, shorter: seq<User>)
    requires |rest| >= 2 && shown == kept + rest && shorter == kept + shown[|kept| + 1..]
    ensures shorter == kept + [rest[1]] + rest[2..] && shorter[|kept|] == rest[1]
    ensures shown[|shown| - 1] == rest[|rest| - 1]
  {
    assert shown[|kept| + 1..] == rest[1..];
    assert rest[1..] == [rest[1]] + rest[2..];
  }

  lemma LiveDeleteSweep(rest: seq<User>, kept: seq<User>, name: string)
    requires |rest| >= 2 && rest[0].name == name
    ensures kept + Sweep(rest, name) == kept + [rest[1]] + Sweep(rest[2..], name)
  {
  }

  lemma LiveDeleteLast(o: seq<User>, name: string, a: seq<User>, i: nat, m: nat)
    requires Live(o, name, a, i, m) && i + m + 1 == |o| && a[i].name == name
    ensures Stale(o, name, Shift(a, i, |o| - m), i + 1, m + 1)
  {
    hide Shift, Sweep, Count;
    LiveHere(o, name, a, i, m);
    ShiftShape(a, i, |o| - m);
    var rest := o[i + m..];
    assert o[..i + m] + [o[i + m]] == o;
    CountSnoc(o[..i + m], o[i + m], name);
    assert rest == [o[i + m]];
    SweepOfLast(o[i + m], name);
    assert a[..i] + [] == a[..i];
    assert a[..|o| - m][i + 1..] == [];
    if m == 0 {
      assert o[..i + m] == o[..i];
    }
  }

  lemma SweepOfLast(u: User, name: string)
    requires u.name == name
    ensures Sweep([u], name) == []
  {
  }

  lemma LiveOver(o: seq<User>, name: string, a: seq<User>, i: nat, m: nat)
    requires Live(o, name, a, i, m) && i + m == |o| && m >= 1
    ensures i < |o| && a[i] == o[|o| - 1]
    ensures a[i].name == name ==> Panics(o, name)
    ensures a[i].name != name ==> Stale(o, name, a, i + 1, m)
  {
    assert o[..i + m] == o && o[i + m..] == [] && a[..i] + [] == a[..i];
    if a[i].name == name {
      assert a[..i] == a[..i - 1] + [a[i - 1]];
      CountSnoc(a[..i - 1], a[i - 1], name);
    }
  }

  lemma StaleStep(o: seq<User>, name: string, a: seq<User>, i: nat, m: nat)
    requires Stale(o, name, a, i, m) && i < |o|
    ensures a[i].name == name ==> Panics(o, name)
    ensures a[i].name != name ==> Stale(o, name, a, i + 1, m)
  {
  }

  ghost predicate Sweeping(o: seq<User>, name: string, a: seq<User>, i: nat, m: nat) {
    if i + m <= |o| then Live(o, name, a, i, m) else Stale(o, name, a, i, m)
  }

  /** One iteration: a match either shifts the entries behind it or is past the shortened list. */
  lemma SweepStep(o: seq<User>, name: string, a: seq<User>, i: nat, m: nat)
    requires Sweeping(o, name, a, i, m) && i < |o|
    ensures m <= |o| == |a|
    ensures a[i].name != name ==> Sweeping(o, name, a, i + 1, m)
    ensures a[i].name == name && i + 1 > |o| - m ==> Panics(o, name)
    ensures a[i].name == name && i + 1 <= |o| - m ==> Sweeping(o, name, Shift(a, i, |o| - m), i + 1, m + 1)
  {
    hide Live, Stale, Shift;
    LiveSize(o, name, a, i, m);
    if i + m > |o| {
      StaleStep(o, name, a, i, m);
    } else if i + m == |o| {
      LiveOver(o, name, a, i, m);
    } else if a[i].name != name {
      LiveKeep(o, name, a, i, m);
    } else if i + m + 1 < |o| {
      LiveDelete(o, name, a, i, m);
    } else {
      LiveDeleteLast(o, name, a, i, m);
    }
  }

  lemma LiveSize(o: seq<User>, name: string, a: seq<User>, i: nat, m: nat)
    requires Sweeping(o, name, a, i, m)
    ensures m <= |o| == |a| && (i + m == |o| && i < |o| ==> m >= 1)
  {
  }

  lemma LoopEnd(o: seq<User>, name: string, a: seq<User>, m: nat)
    requires Sweeping(o, name, a, |o|, m)
    ensures m <= |o| == |a| && a[..|o| - m] == Sweep(o, name) && !Panics(o, name)
  {
    if m == 0 {
      assert o[|o|..] == [] && o[..|o|] == o && a[..|o|] + [] == a;
    }
  }

  /** `DeleteUser`: `None` stands for an index out of range. */
  method DeleteUser(users: Slice<User>, name: string) returns (r: Option<Slice<User>>)
    requires users.Valid()
    modifies users.backing
    ensures r.None? <==> Panics(old(users.Read()), name)
    ensures r.Some? ==> r.value.Valid() && r.value.Read() == Sweep(old(users.Read()), name)
  {
    hide Sweep, Panics, Sweeping, Shift;
    ghost var o, m := users.Read(), 0;
    var current := users;
    SweepStart(o, name);
    for i := 0 to users.len
      invariant 0 <= m <= users.len && current == Slice(users.backing, users.len - m)
      invariant Sweeping(o, name, users.Read(), i, m)
    {
      ghost var a := users.Read();
      SweepStep(o, name, a, i, m);
      if users.backing[i].name == name {
        if i + 1 > current.len {
          return None;
        }
        current := RemoveAt(users, current, i);
        m := m + 1;
      }
    }
    LoopEnd(o, name, users.Read(), m);
    r := Some(current);
  }

  lemma SweepStart(o: seq<User>, name: string)
    ensures Sweeping(o, name, o, 0, 0)
  {
    LiveStart(o, name);
  }

  /** `append(users[:i], users[i+1:]...)`, which moves entries in the array it shares with `users`. */
  method RemoveAt(users: Slice<User>, current: Slice<User>, i: nat) returns (r: Slice<User>)
    requires users.Valid() && current.backing == users.backing && i < current.len <= users.len
    modifies users.backing
    ensures r == Slice(users.backing, current.len - 1)
    ensures users.Read() == Shift(old(users.Read()), i, current.len)
  {
    ghost var before, n := users.backing[..], users.len;
    ghost var moved := current.Read()[i + 1..];
    r := Append(Slice(users.backing, i), current.Read()[i + 1..]);
    ShiftOfPrefix(before, users.backing[..], n, i, current.len, moved);
  }

  lemma ShiftOfPrefix(before: seq<User>, after: seq<User>, n: nat, i: nat, len: nat, moved: seq<User>)
    requires i < len <= n <= |before| == |after|
    requires moved == before[..len][i + 1..]
    requires after[..len - 1] == before[..i] + moved && after[len - 1..] == before[len - 1..]
    ensures after[..n] == Shift(before[..n], i, len)
  {
    assert moved == before[..n][i + 1..len];
    assert after == after[..len - 1] + after[len - 1..];
    assert before[..n][len - 1..] == before[len - 1..][..n - (len - 1)];
    assert after[..n] == after[..len - 1] + after[len - 1..][..n - (len - 1)];
  }
}
