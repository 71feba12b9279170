/**
 The WebSocket registry: user name -> connection id -> client, the filter that selects
 connections from a snapshot of it, and the operations the server's routines run under its lock.
 */
module WsRegistry {

  /** What identifies a client.  `token` is the hashed token that filters compare. */
  datatype Client = Client(id: string, user: string, token: string, public: bool)

  type Users = map<string, map<string, Client>>

  /** The target of a close or push request; an empty list, or access type 0, does not restrict. */
  datatype Query = Query(connIds: seq<string>, tokens: seq<string>, users: seq<string>, accessType: int)

  const PRIVATE_ONLY := 1
  const PUBLIC_ONLY := 2

  ghost predicate WellFormed(users: Users) {
    forall u :: u in users ==>
      users[u] != map[] && forall id :: id in users[u] ==> users[u][id].user == u && users[u][id].id == id
  }

  ghost function Registered(users: Users): set<Client> {
    set u, id | u in users && id in users[u] :: users[u][id]
  }

  /** The declarative meaning of a query.  The access type counts only when users are given. */
  predicate Matches(q: Query, c: Client) {
    && (q.users != [] ==>
          && c.user in q.users
          && (q.accessType == PRIVATE_ONLY ==> !c.public)
          && (q.accessType == PUBLIC_ONLY ==> c.public))
    && (q.tokens != [] ==> c.token in q.tokens)
    && (q.connIds != [] ==> c.id in q.connIds)
  }

  ghost function SelectedIds(users: Users, q: Query): set<string> {
    set c | c in Registered(users) && Matches(q, c) :: c.id
  }

  /** Whom a request for one user, one token or one connection takes.  For a user, type 1 takes the
      connections over private access only and type 2 those over public access; without a user the
      type does not matter. */
  lemma SelectionOfOne(users: Users, name: string, accessType: int)
    ensures SelectedIds(users, Query([], [], [name], accessType)) ==
            set c | c in Registered(users) && c.user == name
                    && (accessType == 1 ==> !c.public) && (accessType == 2 ==> c.public) :: c.id
    ensures SelectedIds(users, Query([], [name], [], accessType)) ==
            set c | c in Registered(users) && c.token == name :: c.id
    ensures SelectedIds(users, Query([name], [], [], accessType)) ==
            set c | c in Registered(users) && c.id == name :: c.id
    ensures SelectedIds(users, Query([], [], [], accessType)) == set c | c in Registered(users) :: c.id
  {
    hide Registered;
  }

  function Added(users: Users, c: Client): Users {
    users[c.user := (if c.user in users then users[c.user] else map[])[c.id := c]]
  }

  /** The given ids taken out of every user; a user left without connections goes too. */
  function Removed(users: Users, ids: set<string>): Users {
    map u | u in users && users[u] - ids != map[] :: users[u] - ids
  }

  lemma RegisteredMeans(users: Users, c: Client)
    requires WellFormed(users)
    ensures c in Registered(users) <==> c.user in users && c.id in users[c.user] && users[c.user][c.id] == c
  {
  }

  lemma AddedRegisters(users: Users, c: Client)
    requires WellFormed(users) && forall d :: d in Registered(users) ==> d.id != c.id
    ensures WellFormed(Added(users, c))
    ensures Registered(Added(users, c)) == Registered(users) + {c}
  {
    var users' := Added(users, c);
    assert c.id in users'[c.user];
    forall d ensures d in Registered(users') <==> d in Registered(users) + {c} {
      RegisteredMeans(users, d);
      RegisteredMeans(users', d);
      if c.user in users && c.id in users[c.user] {
        assert users[c.user][c.id] in Registered(users);
      }
    }
  }

  lemma RemovedUnregisters(users: Users, ids: set<string>)
    requires WellFormed(users)
    ensures WellFormed(Removed(users, ids))
    ensures Registered(Removed(users, ids)) == set c | c in Registered(users) && c.id !in ids
  {
    var users' := Removed(users, ids);
    forall c ensures c in Registered(users') <==> c in Registered(users) && c.id !in ids {
      RegisteredMeans(users, c);
      RegisteredMeans(users', c);
      if c in Registered(users) && c.id !in ids {
        assert c.id in users[c.user] - ids;
      }
    }
  }

  // ---- The filter ----

  datatype Fields = Fields(user: string, token: string, connId: string, public: string, client: Client)

  function ShowBool(b: bool): string {
    if b then "true" else "false"
  }

  function FieldsOf(user: string, connId: string, c: Client): Fields {
    Fields(user, c.token, connId, ShowBool(c.public), c)
  }

  /** The entries whose field is in the list, in order. */
  function Keep(data: seq<Fields>, list: seq<string>, field: Fields -> string): seq<Fields> {
    if data == [] then []
    else (if field(data[0]) in list then [data[0]] else []) + Keep(data[1..], list, field)
  }

  lemma {:induction false} KeepMembers(data: seq<Fields>, list: seq<string>, field: Fields -> string, d: Fields)
    ensures d in Keep(data, list, field) <==> d in data && field(d) in list
  {
    if data != [] {
      KeepMembers(data[1..], list, field, d);
    }
  }

  lemma {:induction false} KeepSnoc(data: seq<Fields>, list: seq<string>, field: Fields -> string, d: Fields)
    ensures Keep(data + [d], list, field) == Keep(data, list, field) + (if field(d) in list then [d] else [])
  {
    var here := if field(d) in list then [d] else [];
    if data == [] {
      assert data + [d] == [d] && [d][1..] == [];
    } else {
      var first := if field(data[0]) in list then [data[0]] else [];
      assert (data + [d])[1..] == data[1..] + [d];
      KeepSnoc(data[1..], list, field, d);
      assert first + (Keep(data[1..], list, field) + here) == first + Keep(data[1..], list, field) + here;
    }
  }

  lemma {:induction false} EmptyListKeepsNothing(data: seq<Fields>, field: Fields -> string)
    ensures Keep(data, [], field) == []
  {
    if data != [] {
      EmptyListKeepsNothing(data[1..], field);
    }
  }

  lemma KeepAll(data: seq<Fields>, list: seq<string>, field: Fields -> string)
    ensures forall d :: d in Keep(data, list, field) <==> d in data && field(d) in list
  {
    forall d ensures d in Keep(data, list, field) <==> d in data && field(d) in list {
      KeepMembers(data, list, field, d);
    }
  }

  /** Snapshot data lists each registered connection, under its own keys. */
  ghost predicate ListsRegistry(data: seq<Fields>, users: Users) {
    forall d :: d in data <==>
      d.user in users && d.connId in users[d.user] && d == FieldsOf(d.user, d.connId, users[d.user][d.connId])
  }

  predicate NoRepeats(data: seq<Fields>) {
    forall i, j :: 0 <= i < j < |data| ==> data[i] != data[j]
  }

  class Filter {
    var data: seq<Fields>

    /** Copies the registry; map iteration order is arbitrary. */
    constructor (users: Users)
      ensures ListsRegistry(data, users)
      ensures NoRepeats(data)
    {
      data := [];
      new;
      var left := users.Keys;
      while left != {}
        modifies this
        invariant left <= users.Keys && NoRepeats(data)
        invariant forall d :: d in data <==>
          d.user in users && d.user !in left && d.connId in users[d.user]
          && d == FieldsOf(d.user, d.connId, users[d.user][d.connId])
        decreases left
      {
        var u :| u in left;
        var ids := users[u].Keys;
        while ids != {}
          modifies this
          invariant u in left && left <= users.Keys && ids <= users[u].Keys && NoRepeats(data)
          invariant forall d :: d in data <==>
            d.user in users && d.connId in users[d.user]
            && (d.user !in left || (d.user == u && d.connId !in ids))
            && d == FieldsOf(d.user, d.connId, users[d.user][d.connId])
          decreases ids
        {
          var id :| id in ids;
          assert FieldsOf(u, id, users[u][id]) !in data;
          data := data + [FieldsOf(u, id, users[u][id])];
          ids := ids - {id};
        }
        left := left - {u};
      }
    }

    method FilterBy(list: seq<string>, field: Fields -> string)
      modifies this
      ensures data == Keep(old(data), list, field)
    {
      var res := [];
      if |list| == 0 {
        assert list == [];
        EmptyListKeepsNothing(data, field);
        data := res;
        return;
      }
      var k := 0;
      while k < |data|
        invariant 0 <= k <= |data|
        invariant data == old(data) && res == Keep(data[..k], list, field)
      {
        KeepSnoc(data[..k], list, field, data[k]);
        assert data[..k + 1] == data[..k] + [data[k]];
        if field(data[k]) in list {
          res := res + [data[k]];
        }
        k := k + 1;
      }
      assert data[..k] == data;
      assert res == Keep(old(data), list, field);
      data := res;
    }

    method FilterByUsers(users: seq<string>)
      modifies this
      ensures forall d :: d in data <==> d in old(data) && d.user in users
    {
      var field := (d: Fields) => d.user;
      FilterBy(users, field);
      KeepAll(old(data), users, field);
    }

    method FilterByUsersPublicsOnly()
      modifies this
      ensures forall d :: d in data <==> d in old(data) && d.public == "true"
    {
      var field := (d: Fields) => d.public;
      FilterBy(["true"], field);
      KeepAll(old(data), ["true"], field);
    }

    method FilterByUsersPrivatesOnly()
      modifies this
      ensures forall d :: d in data <==> d in old(data) && d.public == "false"
    {
      var field := (d: Fields) => d.public;
      FilterBy(["false"], field);
      KeepAll(old(data), ["false"], field);
    }

    method FilterByTokens(tokens: seq<string>)
      modifies this
      ensures forall d :: d in data <==> d in old(data) && d.token in tokens
    {
      var field := (d: Fields) => d.token;
      FilterBy(tokens, field);
      KeepAll(old(data), tokens, field);
    }

    method FilterByConnIds(connIds: seq<string>)
      modifies this
      ensures forall d :: d in data <==> d in old(data) && d.connId in connIds
    {
      var field := (d: Fields) => d.connId;
      FilterBy(connIds, field);
      KeepAll(old(data), connIds, field);
    }

    /** The distinct ids, in no particular order. */
    method Result() returns (ids: set<string>)
      ensures ids == set d | d in data :: d.connId
    {
      ids := {};
      var k := 0;
      while k < |data|
        invariant 0 <= k <= |data|
        invariant ids == set d | d in data[..k] :: d.connId
      {
        assert data[..k + 1] == data[..k] + [data[k]];
        ids := ids + {data[k].connId};
        k := k + 1;
      }
      assert data[..k] == data;
    }
  }

  /** The pipeline shared by close and push: filters are applied only for non-empty criteria. */
  method Select(users: Users, q: Query) returns (ids: set<string>)
    requires WellFormed(users)
    ensures ids == SelectedIds(users, q)
  {
    var filter := new Filter(users);
    if |q.users| > 0 {
      filter.FilterByUsers(q.users);
      if q.accessType == PRIVATE_ONLY {
        filter.FilterByUsersPrivatesOnly();
      } else if q.accessType == PUBLIC_ONLY {
        filter.FilterByUsersPublicsOnly();
      }
    }
    if |q.tokens| > 0 {
      filter.FilterByTokens(q.tokens);
    }
    if |q.connIds| > 0 {
      filter.FilterByConnIds(q.connIds);
    }
    ids := filter.Result();
    FilteredIsSelected(users, q, filter.data);
  }

  lemma FilteredIsSelected(users: Users, q: Query, data: seq<Fields>)
    requires WellFormed(users)
    requires forall d :: d in data <==>
      && d.user in users && d.connId in users[d.user] && d == FieldsOf(d.user, d.connId, users[d.user][d.connId])
      && (q.users != [] ==>
            && d.user in q.users
            && (q.accessType == PRIVATE_ONLY ==> d.public == "false")
            && (q.accessType == PUBLIC_ONLY ==> d.public == "true"))
      && (q.tokens != [] ==> d.token in q.tokens)
      && (q.connIds != [] ==> d.connId in q.connIds)
    ensures (set d | d in data :: d.connId) == SelectedIds(users, q)
  {
    assert "true" != "false" by { assert "true"[0] != "false"[0]; }
    forall id | id in SelectedIds(users, q) ensures exists d :: d in data && d.connId == id {
      var c :| c in Registered(users) && Matches(q, c) && c.id == id;
      RegisteredMeans(users, c);
      assert FieldsOf(c.user, c.id, c) in data;
    }
    forall d | d in data ensures d.connId in SelectedIds(users, q) {
      var c := users[d.user][d.connId];
      assert c in Registered(users) && Matches(q, c);
    }
  }

  // ---- The server's registry operations ----

  /** A frame handed to a client's connection. */
  datatype Delivery = Delivery(client: Client, message: string)

  ghost function DeliveriesTo(clients: set<Client>, message: string): set<Delivery> {
    set c | c in clients :: Delivery(c, message)
  }

  class Server {
    var users: Users
    /** Every call of a client's cancel function. */
    var cancelled: multiset<Client>
    /** Every frame written. */
    var delivered: multiset<Delivery>

    constructor ()
      ensures users == map[] && cancelled == multiset{} && delivered == multiset{}
    {
      users, cancelled, delivered := map[], multiset{}, multiset{};
    }

    method AddClient(c: Client)
      modifies this`users
      ensures users == Added(old(users), c)
    {
      if c.user !in users {
        users := users[c.user := map[c.id := c]];
      } else {
        users := users[c.user := users[c.user][c.id := c]];
      }
    }

    /** Cancels the clients of one user whose ids were selected and returns the others. */
    method CancelIn(conns: map<string, Client>, ids: set<string>) returns (rest: map<string, Client>)
      requires forall id :: id in conns ==> conns[id].id == id
      modifies this`cancelled
      ensures rest == conns - ids
      ensures cancelled == old(cancelled) + multiset(Chosen(conns, ids))
    {
      hide Chosen;
      NothingChosen(conns, map[]);
      rest := conns;
      assert conns - {} == conns;
      var seen := {};
      while seen != ids
        invariant seen <= ids
        invariant rest == conns - seen
        invariant cancelled == old(cancelled) + multiset(Chosen(conns, seen))
        decreases ids - seen
      {
        SomeLeft(seen, ids);
        var id :| id in ids - seen;
        ghost var before := cancelled;
        if id in conns {
          cancelled := cancelled + multiset{conns[id]};
          OneMore(old(cancelled), before, Chosen(conns, seen), conns[id]) by { ChosenStep(conns, seen, id); }
        }
        rest := rest - {id};
        WithoutOneMore(conns, seen, id);
        ChosenStep(conns, seen, id);
        seen := seen + {id};
      }
    }

    /** The part of a close that runs under the write lock. */
    method RemoveConns(ids: set<string>)
      requires WellFormed(users)
      modifies this`users, this`cancelled
      ensures users == Removed(old(users), ids)
      ensures cancelled == old(cancelled) + multiset(set c | c in Registered(old(users)) && c.id in ids)
    {
      hide Chosen, ChosenFrom, Registered;
      NothingChosen(map[], users);
      ghost var users0 := users;
      var removeUsers, done := {}, {};
      while done != users.Keys
        invariant done <= users.Keys == users0.Keys
        invariant forall u :: u in users0 ==> users[u] == if u in done then users0[u] - ids else users0[u]
        invariant forall u :: u in removeUsers <==> u in done && users0[u] - ids == map[]
        invariant cancelled == old(cancelled) + multiset(ChosenFrom(users0, done, ids))
        decreases users0.Keys - done
      {
        SomeLeft(done, users.Keys);
        var u :| u in users.Keys - done;
        ghost var before := cancelled;
        var conns := CancelIn(users[u], ids);
        SomeMoreChosen(users0, done, u, ids, old(cancelled), before);
        users := users[u := conns];
        if conns == map[] {
          removeUsers := removeUsers + {u};
        }
        done := done + {u};
      }
      ChosenFromAll(users0, ids);
      RemovedIs(users0, users, removeUsers, ids);
      users := users - removeUsers;
    }

    /** Writes to the clients of one user whose ids were selected. */
    method DeliverIn(conns: map<string, Client>, ids: set<string>, message: string)
      requires forall id :: id in conns ==> conns[id].id == id
      modifies this`delivered
      ensures delivered == old(delivered) + multiset(DeliveriesTo(Chosen(conns, ids), message))
    {
      hide Chosen, DeliveriesTo;
      NothingChosen(conns, map[]);
      var todo := ids;
      ghost var seen := {};
      while todo != {}
        invariant seen + todo == ids && seen !! todo
        invariant delivered == old(delivered) + multiset(DeliveriesTo(Chosen(conns, seen), message))
        decreases todo
      {
        var id :| id in todo;
        ChosenStep(conns, seen, id);
        if id in conns {
          DeliverToMore(Chosen(conns, seen), {conns[id]}, message);
          delivered := delivered + multiset{Delivery(conns[id], message)};
        }
        todo, seen := todo - {id}, seen + {id};
      }
      assert seen == ids;
    }

    /** The part of a push that runs under the read lock: one write per selected id still present. */
    method Deliver(ids: set<string>, message: string)
      requires WellFormed(users)
      modifies this`delivered
      ensures delivered == old(delivered)
                           + multiset(DeliveriesTo((set c | c in Registered(users) && c.id in ids), message))
    {
      hide Chosen, ChosenFrom, DeliveriesTo, Registered;
      NothingChosen(map[], users);
      ghost var done := {};
      var left := users.Keys;
      while left != {}
        invariant done + left == users.Keys && done !! left
        invariant delivered == old(delivered) + multiset(DeliveriesTo(ChosenFrom(users, done, ids), message))
        decreases left
      {
        var u :| u in left;
        ChosenFromStep(users, done, u, ids);
        DeliverToMore(ChosenFrom(users, done, ids), Chosen(users[u], ids), message);
        DeliverIn(users[u], ids, message);
        left, done := left - {u}, done + {u};
      }
      ChosenFromAll(users, ids);
      assert done == users.Keys;
    }

    /** A close with nothing interleaved between its snapshot and its removal. */
    method CloseConns(q: Query)
      requires WellFormed(users)
      modifies this`users, this`cancelled
      ensures WellFormed(users)
      ensures Registered(users) == set c | c in Registered(old(users)) && c.id !in SelectedIds(old(users), q)
      ensures cancelled ==
              old(cancelled) + multiset(set c | c in Registered(old(users)) && c.id in SelectedIds(old(users), q))
    {
      var ids := Select(users, q);
      RemovedUnregisters(users, ids);
      if ids == {} {
        return;
      }
      RemoveConns(ids);
    }
  }

  ghost function Chosen(conns: map<string, Client>, ids: set<string>): set<Client> {
    set id | id in conns && id in ids :: conns[id]
  }

  ghost function ChosenFrom(users: Users, names: set<string>, ids: set<string>): set<Client> {
    set u, id | u in names && u in users && id in users[u] && id in ids :: users[u][id]
  }

  lemma WithoutOneMore<V>(conns: map<string, V>, seen: set<string>, id: string)
    ensures conns - (seen + {id}) == conns - seen - {id}
    ensures id !in conns ==> conns - (seen + {id}) == conns - seen
  {
  }

  lemma SomeLeft<T>(a: set<T>, b: set<T>)
    requires a <= b && a != b
    ensures exists x :: x in b - a
  {
    var x :| x in b && x !in a;
    assert x in b - a;
  }

  lemma OneMore<T>(start: multiset<T>, before: multiset<T>, a: set<T>, x: T)
    requires x !in a && before == start + multiset(a)
    ensures before + multiset{x} == start + multiset(a + {x})
  {
    SumOfParts(a, {x});
    assert multiset({x}) == multiset{x};
  }

  lemma SomeMore<T>(start: multiset<T>, before: multiset<T>, a: set<T>, b: set<T>)
    requires a !! b && before == start + multiset(a)
    ensures before + multiset(b) == start + multiset(a + b)
  {
    SumOfParts(a, b);
  }

  lemma SumOfParts<T>(a: set<T>, b: set<T>)
    requires a !! b
    ensures multiset(a + b) == multiset(a) + multiset(b)
  {
  }

  lemma DeliverToMore(a: set<Client>, b: set<Client>, message: string)
    requires a !! b
    ensures multiset(DeliveriesTo(a + b, message)) ==
            multiset(DeliveriesTo(a, message)) + multiset(DeliveriesTo(b, message))
    ensures forall c :: b == {c} ==> multiset(DeliveriesTo(b, message)) == multiset{Delivery(c, message)}
  {
    var x, y := DeliveriesTo(a, message), DeliveriesTo(b, message);
    assert DeliveriesTo(a + b, message) == x + y;
    SumOfParts(x, y);
    forall c | b == {c} ensures multiset(y) == multiset{Delivery(c, message)} {
      assert y == {Delivery(c, message)};
    }
  }

  lemma NothingChosen(conns: map<string, Client>, users: Users)
    ensures Chosen(conns, {}) == {}
    ensures forall ids :: ChosenFrom(users, {}, ids) == {}
    ensures forall message :: DeliveriesTo({}, message) == {}
  {
  }

  lemma ChosenStep(conns: map<string, Client>, seen: set<string>, id: string)
    requires id !in seen && forall x :: x in conns ==> conns[x].id == x
    ensures Chosen(conns, seen + {id}) == Chosen(conns, seen) + (if id in conns then {conns[id]} else {})
    ensures id in conns ==> conns[id] !in Chosen(conns, seen)
  {
    if id in conns {
      assert conns[id] in Chosen(conns, seen + {id});
    }
  }

  lemma ChosenFromStep(users: Users, done: set<string>, u: string, ids: set<string>)
    requires WellFormed(users) && u in users && u !in done
    ensures ChosenFrom(users, done + {u}, ids) == ChosenFrom(users, done, ids) + Chosen(users[u], ids)
    ensures ChosenFrom(users, done, ids) !! Chosen(users[u], ids)
  {
    forall c | c in Chosen(users[u], ids) ensures c in ChosenFrom(users, done + {u}, ids) {
      var id :| id in users[u] && id in ids && users[u][id] == c;
    }
  }

  lemma SomeMoreChosen(users: Users, done: set<string>, u: string, ids: set<string>,
                       start: multiset<Client>, before: multiset<Client>)
    requires WellFormed(users) && u in users && u !in done
    requires before == start + multiset(ChosenFrom(users, done, ids))
    ensures before + multiset(Chosen(users[u], ids)) == start + multiset(ChosenFrom(users, done + {u}, ids))
  {
    ChosenFromStep(users, done, u, ids);
    SomeMore(start, before, ChosenFrom(users, done, ids), Chosen(users[u], ids));
  }

  lemma RemovedIs(users: Users, stripped: Users, empty: set<string>, ids: set<string>)
    requires stripped.Keys == users.Keys && forall u :: u in users ==> stripped[u] == users[u] - ids
    requires forall u :: u in empty <==> u in users && users[u] - ids == map[]
    ensures stripped - empty == Removed(users, ids)
  {
  }

  lemma ChosenFromAll(users: Users, ids: set<string>)
    requires WellFormed(users)
    ensures ChosenFrom(users, users.Keys, ids) == set c | c in Registered(users) && c.id in ids
  {
    forall c ensures c in ChosenFrom(users, users.Keys, ids) <==> c in Registered(users) && c.id in ids {
      RegisteredMeans(users, c);
    }
  }
}
