/**
 The user list as a finite map: what creating, updating and deleting do to it over whole runs, and
 exactly when the delete loop does what a filter would do.
 */
module NatsUserList {
  import opened Wrappers
  import opened GoSlices
  import opened NatsUsers

  // ---- Create or update ----

  predicate Has(list: seq<User>, name: string) {
    exists k :: 0 <= k < |list| && list[k].name == name
  }

  /** Every entry of that name replaced. */
  function Replaced(list: seq<User>, user: User): seq<User> {
    seq(|list|, k requires 0 <= k < |list| => Overwritten(list[k], user))
  }

  function Overwritten(u: User, user: User): User {
    if u.name == user.name then user else u
  }

  function Put(list: seq<User>, user: User): seq<User> {
    if Has(list, user.name) then Replaced(list, user) else list + [user]
  }

  /** The list part of `createOrUpdateUser`: entries are overwritten in place, or one is appended. */
  method CreateOrUpdateUser(users: Slice<User>, user: User) returns (r: Slice<User>)
    requires users.Valid()
    modifies users.backing
    ensures r.Valid() && r.Read() == Put(old(users.Read()), user)
  {
    hide Has;
    var found := false;
    ghost var o := users.Read();
    HasNothing(user.name);
    for i := 0 to users.len
      invariant forall k :: 0 <= k < i ==> users.backing[k] == Overwritten(o[k], user)
      invariant forall k :: i <= k < users.len ==> users.backing[k] == o[k]
      invariant found <==> Has(o[..i], user.name)
    {
      HasSnoc(o[..i], o[i], user.name);
      assert o[..i + 1] == o[..i] + [o[i]];
      if users.backing[i].name == user.name {
        users.backing[i] := user;
        found := true;
      }
    }
    assert o[..users.len] == o;
    assert users.Read() == Replaced(o, user);
    r := users;
    if !found {
      NothingReplaced(o, user);
      r := Append(users, [user]);
    }
  }

  lemma HasNothing(name: string)
    ensures !Has([], name)
  {
  }

  lemma NothingReplaced(list: seq<User>, user: User)
    requires !Has(list, user.name)
    ensures Replaced(list, user) == list
  {
  }

  lemma HasSnoc(list: seq<User>, u: User, name: string)
    ensures Has(list + [u], name) <==> Has(list, name) || u.name == name
  {
    var all := list + [u];
    if Has(list, name) {
      var k :| 0 <= k < |list| && list[k].name == name;
      assert all[k].name == name;
    }
    assert all[|list|] == u;
  }

  // ---- When deleting is filtering ----

  predicate AdjacentPair(list: seq<User>, name: string) {
    exists k :: 0 <= k < |list| - 1 && list[k].name == name && list[k + 1].name == name
  }

  lemma {:induction false} WithoutHasNone(list: seq<User>, name: string)
    ensures forall u :: u in Without(list, name) <==> u in list && u.name != name
  {
    if list != [] {
      WithoutHasNone(list[1..], name);
      assert list == [list[0]] + list[1..];
    }
  }

  lemma {:induction false} SweepKeepsSecond(list: seq<User>, name: string, k: nat)
    requires k < |list| - 1 && list[k].name == name && list[k + 1].name == name
    ensures exists u :: u in Sweep(list, name) && u.name == name
    decreases |list|
  {
    if list[0].name != name {
      SweepKeepsSecond(list[1..], name, k - 1);
      var u :| u in Sweep(list[1..], name) && u.name == name;
      assert u in Sweep(list, name);
    } else if list[1].name == name {
      assert list[1] in Sweep(list, name);
    } else {
      SweepKeepsSecond(list[2..], name, k - 2);
      var u :| u in Sweep(list[2..], name) && u.name == name;
      assert u in Sweep(list, name);
    }
  }

  lemma AdjacentTail(list: seq<User>, name: string, n: nat)
    requires n <= |list| && !AdjacentPair(list, name)
    ensures !AdjacentPair(list[n..], name)
  {
    var tail := list[n..];
    forall k | 0 <= k < |tail| - 1 && tail[k].name == name ensures tail[k + 1].name != name {
      assert list[n + k] == tail[k] && list[n + k + 1] == tail[k + 1];
    }
  }

  lemma {:induction false} SweepIsWithout(list: seq<User>, name: string)
    requires !AdjacentPair(list, name)
    ensures Sweep(list, name) == Without(list, name)
    decreases |list|
  {
    if list == [] {
    } else if list[0].name != name {
      AdjacentTail(list, name, 1);
      SweepIsWithout(list[1..], name);
    } else if |list| > 1 {
      assert list[1].name != name;
      AdjacentTail(list, name, 2);
      SweepIsWithout(list[2..], name);
      assert list[1..][1..] == list[2..];
      assert Without(list[1..], name) == [list[1]] + Without(list[2..], name);
    }
  }

  /** The delete loop neither fails nor leaves an entry exactly when no two entries of that name are
      adjacent and a last entry of that name is the only one. */
  lemma DeleteIsFilterExactlyWhen(list: seq<User>, name: string)
    ensures !Panics(list, name) && Sweep(list, name) == Without(list, name) <==>
            && !AdjacentPair(list, name)
            && (list != [] && list[|list| - 1].name == name ==> Count(list, name) == 1)
  {
    if AdjacentPair(list, name) {
      var k :| 0 <= k < |list| - 1 && list[k].name == name && list[k + 1].name == name;
      SweepKeepsSecond(list, name, k);
      WithoutHasNone(list, name);
    } else {
      SweepIsWithout(list, name);
    }
  }

  /** Two entries of a name side by side: one of them survives. */
  lemma DeleteCanSkip(u: User, v: User)
    requires u.name != v.name
    ensures !Panics([u, u, v], u.name) && Sweep([u, u, v], u.name) == [u, v]
  {
    var list := [u, u, v];
    assert list[2..] == [v] && [v][1..] == [];
    assert Sweep([v], u.name) == [v];
    assert Sweep(list, u.name) == [u] + Sweep([v], u.name);
  }

  /** A second entry of a name at the end: the loop runs into a stale copy of it. */
  lemma DeleteCanPanic(u: User, v: User)
    requires u.name != v.name
    ensures Panics([u, v, u], u.name) && !AdjacentPair([u, v, u], u.name)
  {
    hide Count;
    CountNone(u.name);
    CountSnoc([], u, u.name);
    CountSnoc([u], v, u.name);
    CountSnoc([u, v], u, u.name);
    assert [] + [u] == [u] && [u] + [v] == [u, v] && [u, v] + [u] == [u, v, u];
  }

  lemma CountNone(name: string)
    ensures Count([], name) == 0
  {
  }

  // ---- Unique names ----

  predicate Unique(list: seq<User>) {
    forall j, k :: 0 <= j < k < |list| ==> list[j].name != list[k].name
  }

  lemma {:induction false} UniqueCount(list: seq<User>, name: string)
    requires Unique(list)
    ensures Count(list, name) == if Has(list, name) then 1 else 0
  {
    if list != [] {
      var front, last := list[..|list| - 1], list[|list| - 1];
      assert list == front + [last];
      UniqueCount(front, name);
      HasSnoc(front, last, name);
    }
  }

  /** With unique names the delete loop never fails and is the filter. */
  lemma UniqueDelete(list: seq<User>, name: string)
    requires Unique(list)
    ensures !Panics(list, name) && Sweep(list, name) == Without(list, name)
  {
    UniqueCount(list, name);
    assert !AdjacentPair(list, name);
    DeleteIsFilterExactlyWhen(list, name);
  }

  lemma {:induction false} WithoutUnique(list: seq<User>, name: string)
    requires Unique(list)
    ensures Unique(Without(list, name))
  {
    if list != [] {
      WithoutUnique(list[1..], name);
      WithoutHasNone(list[1..], name);
      var rest := Without(list[1..], name);
      forall k | 0 <= k < |rest| ensures list[0].name != rest[k].name {
        assert rest[k] in list[1..];
      }
    }
  }

  // ---- The list as a map ----

  ghost function AsMap(list: seq<User>): map<string, User>
    requires Unique(list)
  {
    map u | u in list :: u.name := u
  }

  lemma PutIsMapUpdate(list: seq<User>, user: User)
    requires Unique(list)
    ensures Unique(Put(list, user))
    ensures AsMap(Put(list, user)) == AsMap(list)[user.name := user]
  {
    var list' := Put(list, user);
    forall u ensures u in list' <==> u == user || (u in list && u.name != user.name) {
      if u in list && u.name != user.name {
        var k :| 0 <= k < |list| && list[k] == u;
        assert list'[k] == u;
      }
      if Has(list, user.name) {
        var k :| 0 <= k < |list| && list[k].name == user.name;
        assert list'[k] == user;
      } else {
        assert list'[|list|] == user;
      }
    }
    UniqueNames(list);
    UniqueNames(list');
  }

  lemma UniqueNames(list: seq<User>)
    requires Unique(list)
    ensures forall u, v :: u in list && v in list && u.name == v.name ==> u == v
  {
  }

  lemma DeleteIsMapRemoval(list: seq<User>, name: string)
    requires Unique(list)
    ensures Unique(Without(list, name))
    ensures AsMap(Without(list, name)) == AsMap(list) - {name}
  {
    WithoutUnique(list, name);
    WithoutHasNone(list, name);
    MapOfFewer(list, Without(list, name), name);
  }

  lemma MapOfFewer(list: seq<User>, list': seq<User>, name: string)
    requires Unique(list) && Unique(list') && forall u :: u in list' <==> u in list && u.name != name
    ensures AsMap(list') == AsMap(list) - {name}
  {
    hide Unique;
    NamesOfMap(list);
    NamesOfMap(list');
    forall key ensures key in AsMap(list') <==> key in AsMap(list) && key != name {
    }
  }

  lemma NamesOfMap(list: seq<User>)
    requires Unique(list)
    ensures forall key :: key in AsMap(list) ==> AsMap(list)[key] in list && AsMap(list)[key].name == key
    ensures forall u :: u in list ==> u.name in AsMap(list) && AsMap(list)[u.name] == u
  {
    UniqueNames(list);
  }

  // ---- Runs ----

  datatype Change = PutUser(user: User) | RemoveUser(name: string)

  /** The list after one handled request; a request that fails before writing is no change. */
  function Changed(list: seq<User>, c: Change): Option<seq<User>> {
    match c
    case PutUser(user) => Some(Put(list, user))
    case RemoveUser(name) => if Panics(list, name) then None else Some(Sweep(list, name))
  }

  /** The list after a run of changes, or `None` if the process failed on the way. */
  function AfterAll(list: seq<User>, changes: seq<Change>): Option<seq<User>> {
    if changes == [] then Some(list)
    else
      var before := AfterAll(list, changes[..|changes| - 1]);
      if before.None? then None else Changed(before.value, changes[|changes| - 1])
  }

  function MapAfter(m: map<string, User>, changes: seq<Change>): map<string, User> {
    if changes == [] then m
    else
      var before := MapAfter(m, changes[..|changes| - 1]);
      match changes[|changes| - 1]
      case PutUser(user) => before[user.name := user]
      case RemoveUser(name) => before - {name}
  }

  function NameOf(c: Change): string {
    match c
    case PutUser(user) => user.name
    case RemoveUser(name) => name
  }

  /** The entries whose names are not in the set, in order. */
  function Others(list: seq<User>, names: set<string>): seq<User> {
    if list == [] then []
    else Others(list[..|list| - 1], names)
         + (if list[|list| - 1].name in names then [] else [list[|list| - 1]])
  }

  lemma {:induction false} OthersAppend(a: seq<User>, b: seq<User>, names: set<string>)
    ensures Others(a + b, names) == Others(a, names) + Others(b, names)
  {
    if b == [] {
      assert a + b == a;
    } else {
      var front, last := b[..|b| - 1], b[|b| - 1];
      assert (a + b)[..|a + b| - 1] == a + front && (a + b)[|a + b| - 1] == last;
      OthersAppend(a, front, names);
      var kept := if last.name in names then [] else [last];
      assert Others(a, names) + Others(front, names) + kept == Others(a, names) + (Others(front, names) + kept);
    }
  }

  lemma {:induction false} OthersReplaced(list: seq<User>, user: User, names: set<string>)
    requires user.name in names
    ensures Others(Replaced(list, user), names) == Others(list, names)
  {
    if list != [] {
      assert Replaced(list, user)[..|list| - 1] == Replaced(list[..|list| - 1], user);
      OthersReplaced(list[..|list| - 1], user, names);
    }
  }

  lemma OthersOne(u: User, names: set<string>)
    ensures Others([u], names) == if u.name in names then [] else [u]
  {
    assert [u][..0] == [];
  }

  lemma {:induction false} OthersWithout(list: seq<User>, name: string, names: set<string>)
    requires name in names
    ensures Others(Without(list, name), names) == Others(list, names)
  {
    if list != [] {
      var first, rest := list[0], list[1..];
      OthersWithout(rest, name, names);
      assert list == [first] + rest;
      OthersAppend([first], rest, names);
      OthersOne(first, names);
      if first.name == name {
        assert Without(list, name) == Without(rest, name);
        assert [] + Others(rest, names) == Others(rest, names);
      } else {
        OthersAppend([first], Without(rest, name), names);
      }
    }
  }

  lemma OthersUntouched(list: seq<User>, c: Change, names: set<string>)
    requires Unique(list) && NameOf(c) in names
    ensures Changed(list, c).Some? && Others(Changed(list, c).value, names) == Others(list, names)
  {
    match c
    case PutUser(user) =>
      if Has(list, user.name) {
        OthersReplaced(list, user, names);
      } else {
        OthersAppend(list, [user], names);
        OthersOne(user, names);
      }
    case RemoveUser(name) =>
      UniqueDelete(list, name);
      OthersWithout(list, name, names);
  }

  /** From a list with unique names, any run of changes succeeds and keeps names unique; the list
      means what the same changes make of a map, and the entries of all other users are the same in
      the same order. */
  lemma {:induction false} RunsAreMapRuns(list: seq<User>, changes: seq<Change>, names: set<string>)
    requires Unique(list) && forall c :: c in changes ==> NameOf(c) in names
    ensures AfterAll(list, changes).Some? && Unique(AfterAll(list, changes).value)
    ensures AsMap(AfterAll(list, changes).value) == MapAfter(AsMap(list), changes)
    ensures Others(AfterAll(list, changes).value, names) == Others(list, names)
  {
    hide AsMap, Others, Put, Sweep, Panics, Without;
    if changes != [] {
      var front, last := changes[..|changes| - 1], changes[|changes| - 1];
      assert last in changes;
      RunsAreMapRuns(list, front, names);
      var before := AfterAll(list, front).value;
      OthersUntouched(before, last, names);
      match last
      case PutUser(user) => PutIsMapUpdate(before, user);
      case RemoveUser(name) =>
        UniqueDelete(before, name);
        DeleteIsMapRemoval(before, name);
    }
  }
}
