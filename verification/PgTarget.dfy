/**
 The state a PostgreSQL request aims at, written down without calls or loops, and the proof that
 the plan of calls reaches exactly that state from every start state.
 */
module PgTarget {
  import opened Wrappers
  import opened Calls
  import opened PgState
  import opened PgProvisioning

  /** The `j`-th database of the request is created on node `i`. */
  predicate Applies(req: PgRequest, i: nat, j: nat)
    requires j < |req.databases|
  {
    req.databases[j].distributed || i == 0
  }

  function RequestedNames(req: PgRequest, i: nat, k: nat): set<string>
    requires k <= |req.databases|
  {
    set j: nat | j < k && Applies(req, i, j) :: NameOf(req, j)
  }

  ghost predicate DistributedName(req: PgRequest, k: nat, name: string)
    requires k <= |req.databases|
  {
    exists j: nat :: j < k && req.databases[j].distributed && NameOf(req, j) == name
  }

  function MappedExtensions(names: seq<string>): set<string> {
    set k | 0 <= k < |names| :: RealExtension(names[k])
  }

  /** The extensions the first `k` databases ask for in `name` on node `i`. */
  ghost function RequestedExtensions(req: PgRequest, i: nat, k: nat, name: string): set<string>
    requires k <= |req.databases|
  {
    (if DistributedName(req, k, name) then {CITUS} else {})
    + (set j: nat, e | j < k && Applies(req, i, j) && NameOf(req, j) == name
                       && e in MappedExtensions(req.databases[j].extensions) :: e)
  }

  /** An existing database keeps its owner; a new one belongs to the requesting user. */
  function Existing(req: PgRequest, name: string, nd: Node): Database {
    if name in nd.databases then nd.databases[name] else Database(req.user, {}, None, {})
  }

  ghost function TargetDatabase(req: PgRequest, i: nat, k: nat, name: string, nd: Node): Database
    requires k <= |req.databases|
  {
    var d := Existing(req, name, nd);
    d.(extensions := d.extensions + RequestedExtensions(req, i, k, name),
       coordinator := if i == 0 && DistributedName(req, k, name) then Some(0) else d.coordinator)
  }

  ghost function TargetDatabases(req: PgRequest, i: nat, k: nat, nd: Node): map<string, Database>
    requires k <= |req.databases|
  {
    map name | name in nd.databases.Keys + RequestedNames(req, i, k) :: TargetDatabase(req, i, k, name, nd)
  }

  function UserRole(req: PgRequest): Role {
    Role(req.password, Some(CONNECTION_LIMIT), true)
  }

  ghost function TargetNode(req: PgRequest, i: nat, nd: Node): Node {
    Node(nd.roles[req.user := UserRole(req)], TargetDatabases(req, i, |req.databases|, nd))
  }

  /** The cluster after the first `n` nodes were provisioned. */
  ghost function TargetNodes(req: PgRequest, n: nat, c: Cluster): (c': Cluster)
    requires n <= |c|
    ensures |c'| == |c|
  {
    seq(|c|, i requires 0 <= i < |c| => if i < n then TargetNode(req, i, c[i]) else c[i])
  }

  function WorkersBelow(m: nat): (ws: set<nat>)
    ensures forall w: nat :: w in ws <==> 1 <= w < m
  {
    if m <= 1 then {} else WorkersBelow(m - 1) + {m - 1}
  }

  /** Node 0 with the workers `1, ..., m - 1` registered in every distributed database and worker
      `m` in those among the first `k`. */
  ghost function WithWorkers(req: PgRequest, m: nat, k: nat, nd: Node): Node
    requires k <= |req.databases|
  {
    nd.(databases := map name | name in nd.databases ::
      var d := nd.databases[name];
      d.(workers := d.workers
                    + (if DistributedName(req, |req.databases|, name) then WorkersBelow(m) else {})
                    + (if DistributedName(req, k, name) then {m} else {})))
  }

  ghost function Target(req: PgRequest, n: nat, c: Cluster): (c': Cluster)
    requires n <= |c|
    ensures |c'| == |c|
  {
    var c' := TargetNodes(req, n, c);
    if n == 0 then c' else c'[0 := WithWorkers(req, n, 0, c'[0])]
  }

  // ---- The plans, one element at a time ----

  lemma DbsPlanSplit(req: PgRequest, i: nat, k: nat, c: Cluster)
    requires 0 < k <= |req.databases|
    ensures Replay(DbsPlan(req, i, k), c) ==
            Replay(DbPlan(req, i, req.databases[k - 1]), Replay(DbsPlan(req, i, k - 1), c))
  {
    ReplayAppend(DbsPlan(req, i, k - 1), DbPlan(req, i, req.databases[k - 1]), c);
  }

  lemma NodesPlanSplit(req: PgRequest, n: nat, c: Cluster)
    requires n > 0
    ensures Replay(NodesPlan(req, n), c) == Replay(NodePlan(req, n - 1), Replay(NodesPlan(req, n - 1), c))
  {
    ReplayAppend(NodesPlan(req, n - 1), NodePlan(req, n - 1), c);
  }

  lemma WorkerDbsPlanSplit(req: PgRequest, w: nat, k: nat, c: Cluster)
    requires 0 < k <= |req.databases|
    ensures Replay(WorkerDbsPlan(req, w, k), c) ==
            Replay(WorkerPlan(req, w, req.databases[k - 1]), Replay(WorkerDbsPlan(req, w, k - 1), c))
  {
    ReplayAppend(WorkerDbsPlan(req, w, k - 1), WorkerPlan(req, w, req.databases[k - 1]), c);
  }

  // ---- One database on one node ----

  lemma {:induction false} ExtensionStepEffect(ops: seq<Op>, i: nat, db: string, c: Cluster)
    requires ExtensionsOf(ops, i, db) && HasDatabase(c, i, db)
    ensures var d := c[i].databases[db];
            ReplayStep(ops, c) ==
            PutDatabase(c, i, db, d.(extensions :=
              d.extensions + set k | 0 <= k < |ops| && ops[k].AddExtension? :: ops[k].extension))
  {
    var d := c[i].databases[db];
    var added := set k | 0 <= k < |ops| && ops[k].AddExtension? :: ops[k].extension;
    if ops == [] {
      assert d.extensions + added == d.extensions;
      assert c[i].databases[db := d] == c[i].databases;
    } else {
      var d' := d.(extensions := d.extensions + {ops[0].extension});
      var rest := ops[1..];
      var later := set k | 0 <= k < |rest| && rest[k].AddExtension? :: rest[k].extension;
      ExtensionStepEffect(rest, i, db, Apply(ops[0], c));
      assert added == {ops[0].extension} + later by {
        assert forall k :: 1 <= k < |ops| ==> ops[k] == rest[k - 1];
        assert forall k :: 0 <= k < |rest| ==> rest[k] == ops[k + 1];
      }
      assert d.extensions + added == d'.extensions + later;
      PutTwice(c, i, db, d', d.(extensions := d.extensions + added));
    }
  }

  /** What one database entry does to a database. */
  function Upgraded(db: DbSpec, i: nat, d: Database): Database {
    d.(extensions := d.extensions + (if db.distributed then {CITUS} else {}) + MappedExtensions(db.extensions),
       coordinator := if db.distributed && i == 0 then Some(0) else d.coordinator)
  }

  lemma OpenEffect(req: PgRequest, i: nat, name: string, c: Cluster)
    requires HasRole(c, i, req.user)
    ensures Replay(OpenPlan(i, name, req.user), c) == PutDatabase(c, i, name, Existing(req, name, c[i]))
  {
    TwoCalls(CreateDatabase(i, name, req.user), Connect(i, name), c);
    if HasDatabase(c, i, name) {
      assert c[i].databases[name := c[i].databases[name]] == c[i].databases;
    }
  }

  lemma CitusEffect(i: nat, name: string, distributed: bool, c: Cluster)
    requires HasDatabase(c, i, name)
    ensures var d := c[i].databases[name];
            Replay(CitusPlan(i, name, distributed), c) ==
            PutDatabase(c, i, name,
              d.(extensions := d.extensions + (if distributed then {CITUS} else {}),
                 coordinator := if distributed && i == 0 then Some(0) else d.coordinator))
  {
    var d := c[i].databases[name];
    if !distributed {
      assert d.extensions + {} == d.extensions;
      assert c[i].databases[name := d] == c[i].databases;
    } else {
      var d1 := d.(extensions := d.extensions + {CITUS});
      if i == 0 {
        var d2 := d1.(coordinator := Some(0));
        TwoCalls(AddExtension(i, name, CITUS), SetCoordinator(0, name), c);
        assert CitusPlan(i, name, distributed) == [[AddExtension(i, name, CITUS)], [SetCoordinator(0, name)]];
        PutTwice(c, 0, name, d1, d2);
      } else {
        OneCall(AddExtension(i, name, CITUS), c);
        assert CitusPlan(i, name, distributed) == [[AddExtension(i, name, CITUS)]];
      }
    }
  }

  lemma ExtensionsEffect(i: nat, name: string, names: seq<string>, c: Cluster)
    requires HasDatabase(c, i, name)
    ensures var d := c[i].databases[name];
            Replay(ExtrasPlan(i, name, names), c) ==
            PutDatabase(c, i, name, d.(extensions := d.extensions + MappedExtensions(names)))
  {
    var step := ExtensionStep(i, name, names);
    ExtensionStepEffect(step, i, name, c);
    assert (set k | 0 <= k < |step| && step[k].AddExtension? :: step[k].extension) == MappedExtensions(names);
    if |names| > 0 {
      SinglePlan(step, c);
    } else {
      assert step == [];
    }
  }

  lemma ScriptsEffect(i: nat, name: string, scripts: seq<string>, c: Cluster)
    ensures Replay(ScriptsPlan(i, name, scripts), c) == c
  {
    OneCall(RunScript(i, name), c);
  }

  lemma ExtrasEffect(i: nat, name: string, db: DbSpec, c: Cluster)
    requires HasDatabase(c, i, name)
    ensures var d := c[i].databases[name];
            Replay(ExtrasPlan(i, name, db.extensions) + ScriptsPlan(i, name, db.scripts), c) ==
            PutDatabase(c, i, name, d.(extensions := d.extensions + MappedExtensions(db.extensions)))
  {
    hide Replay, ExtrasPlan, ScriptsPlan, MappedExtensions;
    ReplayAppend(ExtrasPlan(i, name, db.extensions), ScriptsPlan(i, name, db.scripts), c);
    ExtensionsEffect(i, name, db.extensions, c);
    ScriptsEffect(i, name, db.scripts, Replay(ExtrasPlan(i, name, db.extensions), c));
  }

  lemma DbPlanEffect(req: PgRequest, i: nat, db: DbSpec, c: Cluster)
    requires HasRole(c, i, req.user)
    ensures var name := RealName(req.appNamespace, db.name);
            Replay(DbPlan(req, i, db), c) ==
            if db.distributed || i == 0 then PutDatabase(c, i, name, Upgraded(db, i, Existing(req, name, c[i]))) else c
  {
    if db.distributed || i == 0 {
      var name := RealName(req.appNamespace, db.name);
      var a, b := OpenPlan(i, name, req.user), CitusPlan(i, name, db.distributed);
      var rest := ExtrasPlan(i, name, db.extensions) + ScriptsPlan(i, name, db.scripts);
      var d0 := Existing(req, name, c[i]);
      var d1 := d0.(extensions := d0.extensions + (if db.distributed then {CITUS} else {}),
                    coordinator := if db.distributed && i == 0 then Some(0) else d0.coordinator);
      OpenEffect(req, i, name, c);
      CitusEffect(i, name, db.distributed, PutDatabase(c, i, name, d0));
      PutTwice(c, i, name, d0, d1);
      ExtrasEffect(i, name, db, PutDatabase(c, i, name, d1));
      PutTwice(c, i, name, d1, Upgraded(db, i, d0));
      ReplayAppend(a, b, c);
      ReplayAppend(a + b, rest, c);
    }
  }

  // ---- All databases of one node ----

  lemma NamesStep(req: PgRequest, i: nat, k: nat)
    requires 0 < k <= |req.databases|
    ensures RequestedNames(req, i, k) ==
            RequestedNames(req, i, k - 1) + (if Applies(req, i, k - 1) then {NameOf(req, k - 1)} else {})
  {
    forall name | name in RequestedNames(req, i, k - 1) + (if Applies(req, i, k - 1) then {NameOf(req, k - 1)} else {})
      ensures name in RequestedNames(req, i, k)
    {
      if name !in RequestedNames(req, i, k - 1) {
        assert NameOf(req, k - 1) in RequestedNames(req, i, k);
      }
    }
  }

  lemma DistributedStep(req: PgRequest, k: nat, name: string)
    requires 0 < k <= |req.databases|
    ensures DistributedName(req, k, name) <==>
            DistributedName(req, k - 1, name) || (req.databases[k - 1].distributed && NameOf(req, k - 1) == name)
  {
  }

  lemma ExtensionsStep(req: PgRequest, i: nat, k: nat, name: string)
    requires 0 < k <= |req.databases|
    ensures var db := req.databases[k - 1];
            RequestedExtensions(req, i, k, name) ==
            RequestedExtensions(req, i, k - 1, name)
            + (if Applies(req, i, k - 1) && NameOf(req, k - 1) == name
               then (if db.distributed then {CITUS} else {}) + MappedExtensions(db.extensions) else {})
  {
    DistributedStep(req, k, name);
    var db := req.databases[k - 1];
    var now := set j: nat, e | j < k && Applies(req, i, j) && NameOf(req, j) == name
                               && e in MappedExtensions(req.databases[j].extensions) :: e;
    var before := set j: nat, e | j < k - 1 && Applies(req, i, j) && NameOf(req, j) == name
                                  && e in MappedExtensions(req.databases[j].extensions) :: e;
    var own := if Applies(req, i, k - 1) && NameOf(req, k - 1) == name then MappedExtensions(db.extensions) else {};
    forall e | e in own ensures e in now {
      assert k - 1 < k && Applies(req, i, k - 1) && NameOf(req, k - 1) == name
             && e in MappedExtensions(req.databases[k - 1].extensions);
    }
    assert now == before + own;
  }

  lemma TargetStepAt(req: PgRequest, i: nat, k: nat, name: string, nd: Node)
    requires 0 < k <= |req.databases|
    ensures var d := TargetDatabase(req, i, k - 1, name, nd);
            TargetDatabase(req, i, k, name, nd) ==
            if Applies(req, i, k - 1) && name == NameOf(req, k - 1) then Upgraded(req.databases[k - 1], i, d) else d
  {
    DistributedStep(req, k, name);
    ExtensionsStep(req, i, k, name);
    var db, d := req.databases[k - 1], TargetDatabase(req, i, k - 1, name, nd);
    var own := (if db.distributed then {CITUS} else {}) + MappedExtensions(db.extensions);
    var e0, e1 := Existing(req, name, nd).extensions, RequestedExtensions(req, i, k - 1, name);
    assert e0 + (e1 + own) == (e0 + e1) + own;
    assert e0 + (e1 + {}) == e0 + e1;
    assert d.extensions + own
        == d.extensions + (if db.distributed then {CITUS} else {}) + MappedExtensions(db.extensions);
  }

  lemma ExistingIsTarget(req: PgRequest, i: nat, k: nat, name: string, nd: Node)
    requires k <= |req.databases|
    ensures Existing(req, name, Node(nd.roles, TargetDatabases(req, i, k, nd))) == TargetDatabase(req, i, k, name, nd)
  {
    if name !in TargetDatabases(req, i, k, nd) {
      NotYetRequested(req, i, k, name);
      assert Existing(req, name, nd).extensions + {} == {};
    }
  }

  lemma KeysStep(req: PgRequest, i: nat, k: nat, nd: Node)
    requires 0 < k <= |req.databases|
    ensures TargetDatabases(req, i, k, nd).Keys ==
            TargetDatabases(req, i, k - 1, nd).Keys + (if Applies(req, i, k - 1) then {NameOf(req, k - 1)} else {})
  {
    NamesStep(req, i, k);
    assert TargetDatabases(req, i, k, nd).Keys == nd.databases.Keys + RequestedNames(req, i, k);
    assert TargetDatabases(req, i, k - 1, nd).Keys == nd.databases.Keys + RequestedNames(req, i, k - 1);
  }

  /** `now` is `before` with one entry put, given what it holds at every key. */
  lemma PutOne(now: map<string, Database>, before: map<string, Database>, name: string, d: Database)
    requires now.Keys == before.Keys + {name} && now[name] == d
    requires forall x :: x in before && x != name ==> now[x] == before[x]
    ensures now == before[name := d]
  {
  }

  lemma TargetStep(req: PgRequest, i: nat, k: nat, nd: Node)
    requires 0 < k <= |req.databases|
    ensures var before := TargetDatabases(req, i, k - 1, nd);
            var name := NameOf(req, k - 1);
            TargetDatabases(req, i, k, nd) ==
            if Applies(req, i, k - 1)
            then before[name := Upgraded(req.databases[k - 1], i, Existing(req, name, Node(nd.roles, before)))]
            else before
  {
    var name := NameOf(req, k - 1);
    var before, now := TargetDatabases(req, i, k - 1, nd), TargetDatabases(req, i, k, nd);
    KeysStep(req, i, k, nd);
    forall x | x in before && (x != name || !Applies(req, i, k - 1)) ensures now[x] == before[x] {
      TargetStepAt(req, i, k, x, nd);
      TargetAt(req, i, k, x, nd);
      TargetAt(req, i, k - 1, x, nd);
    }
    if Applies(req, i, k - 1) {
      ExistingIsTarget(req, i, k - 1, name, nd);
      TargetStepAt(req, i, k, name, nd);
      TargetAt(req, i, k, name, nd);
      PutOne(now, before, name, now[name]);
    } else {
      assert now.Keys == before.Keys;
    }
  }

  lemma TargetAt(req: PgRequest, i: nat, k: nat, name: string, nd: Node)
    requires k <= |req.databases| && name in TargetDatabases(req, i, k, nd)
    ensures TargetDatabases(req, i, k, nd)[name] == TargetDatabase(req, i, k, name, nd)
  {
  }

  lemma NotYetRequested(req: PgRequest, i: nat, k: nat, name: string)
    requires k <= |req.databases| && name !in RequestedNames(req, i, k)
    ensures RequestedExtensions(req, i, k, name) == {} && !DistributedName(req, k, name)
  {
    forall j: nat | j < k && Applies(req, i, j) ensures NameOf(req, j) != name {
      assert NameOf(req, j) in RequestedNames(req, i, k);
    }
    forall j: nat | j < k && req.databases[j].distributed ensures NameOf(req, j) != name {
      assert Applies(req, i, j);
    }
  }

  lemma NoDbsEffect(req: PgRequest, i: nat, c: Cluster)
    requires i < |c|
    ensures Replay(DbsPlan(req, i, 0), c) == c[i := c[i].(databases := TargetDatabases(req, i, 0, c[i]))]
  {
    forall name | name in c[i].databases ensures TargetDatabase(req, i, 0, name, c[i]) == c[i].databases[name] {
      NotYetRequested(req, i, 0, name);
      assert c[i].databases[name].extensions + {} == c[i].databases[name].extensions;
    }
    assert TargetDatabases(req, i, 0, c[i]) == c[i].databases;
  }

  lemma NextDbEffect(req: PgRequest, i: nat, k: nat, c: Cluster)
    requires 0 < k <= |req.databases| && HasRole(c, i, req.user)
    ensures Replay(DbPlan(req, i, req.databases[k - 1]),
                   c[i := c[i].(databases := TargetDatabases(req, i, k - 1, c[i]))]) ==
            c[i := c[i].(databases := TargetDatabases(req, i, k, c[i]))]
  {
    hide Replay, DbPlan, Upgraded, TargetDatabases, Existing, NameOf;
    var c' := c[i := c[i].(databases := TargetDatabases(req, i, k - 1, c[i]))];
    TargetStep(req, i, k, c[i]);
    DbPlanEffect(req, i, req.databases[k - 1], c');
    NameUnfolds(req, k - 1);
  }

  lemma NameUnfolds(req: PgRequest, j: nat)
    requires j < |req.databases|
    ensures NameOf(req, j) == RealName(req.appNamespace, req.databases[j].name)
  {
  }

  lemma {:induction false} DbsPlanEffect(req: PgRequest, i: nat, k: nat, c: Cluster)
    requires k <= |req.databases| && HasRole(c, i, req.user)
    ensures Replay(DbsPlan(req, i, k), c) == c[i := c[i].(databases := TargetDatabases(req, i, k, c[i]))]
  {
    hide Replay, DbPlan, TargetDatabases;
    NoDbsEffect(req, i, c);
    if k > 0 {
      DbsPlanEffect(req, i, k - 1, c);
      DbsPlanSplit(req, i, k, c);
      NextDbEffect(req, i, k, c);
    }
  }

  lemma NodePlanEffect(req: PgRequest, i: nat, c: Cluster)
    requires i < |c| && req.user != ""
    ensures Replay(NodePlan(req, i), c) == c[i := TargetNode(req, i, c[i])]
  {
    var p0: Plan := [[Connect(i, MAINTENANCE_DB)], [ReadPassword]];
    var p1, p2 := UserPlan(req, i), DbsPlan(req, i, |req.databases|);
    var c1 := PutRole(c, i, req.user, UserRole(req));
    TwoCalls(Connect(i, MAINTENANCE_DB), ReadPassword, c);
    UserPlanLegal(req, i, c);
    ReplayAppend(p0, p1, c);
    ReplayAppend(p0 + p1, p2, c);
    assert Replay(NodePlan(req, i), c) == Replay(p2, c1);
    RoleThenDatabases(req, i, c);
  }

  lemma RoleThenDatabases(req: PgRequest, i: nat, c: Cluster)
    requires i < |c|
    ensures Replay(DbsPlan(req, i, |req.databases|), PutRole(c, i, req.user, UserRole(req))) ==
            c[i := TargetNode(req, i, c[i])]
  {
    var c1 := PutRole(c, i, req.user, UserRole(req));
    DbsPlanEffect(req, i, |req.databases|, c1);
    SameDatabases(req, i, c[i], c1[i]);
    assert c1[i].(databases := TargetDatabases(req, i, |req.databases|, c1[i])) == TargetNode(req, i, c[i]);
  }

  lemma SameDatabases(req: PgRequest, i: nat, nd: Node, nd': Node)
    requires nd.databases == nd'.databases
    ensures TargetDatabases(req, i, |req.databases|, nd) == TargetDatabases(req, i, |req.databases|, nd')
  {
    var a, b := TargetDatabases(req, i, |req.databases|, nd), TargetDatabases(req, i, |req.databases|, nd');
    forall x | x in a ensures a[x] == b[x] {
      assert Existing(req, x, nd) == Existing(req, x, nd');
    }
  }

  lemma NextNode(req: PgRequest, n: nat, c: Cluster)
    requires 0 < n <= |c|
    ensures var before := TargetNodes(req, n - 1, c);
            before[n - 1 := TargetNode(req, n - 1, before[n - 1])] == TargetNodes(req, n, c)
  {
  }

  lemma NoNodes(req: PgRequest, c: Cluster)
    ensures Replay(NodesPlan(req, 0), c) == TargetNodes(req, 0, c)
  {
    assert TargetNodes(req, 0, c) == c;
  }

  lemma {:induction false} NodesPlanEffect(req: PgRequest, n: nat, c: Cluster)
    requires n <= |c| && req.user != ""
    ensures Replay(NodesPlan(req, n), c) == TargetNodes(req, n, c)
  {
    hide Replay, NodePlan, TargetNode, TargetNodes;
    NoNodes(req, c);
    if n > 0 {
      NodesPlanEffect(req, n - 1, c);
      NodesPlanSplit(req, n, c);
      NodePlanEffect(req, n - 1, TargetNodes(req, n - 1, c));
      NextNode(req, n, c);
    }
  }

  // ---- Workers ----

  /** The distributed databases exist, with citus, wherever the workers need them. */
  lemma {:induction false} WorkerDbsEffect(req: PgRequest, w: nat, n: nat, k: nat, c: Cluster)
    requires k <= |req.databases| && 0 < w < n <= |c| && AllReady(req, n, c)
    ensures Replay(WorkerDbsPlan(req, w, k), c) == c[0 := JustWorker(req, w, k, c[0])]
  {
    hide WorkerPlan;
    if k == 0 {
      forall name | name in c[0].databases ensures JustWorker(req, w, 0, c[0]).databases[name] == c[0].databases[name] {
        assert c[0].databases[name].workers + {} == c[0].databases[name].workers;
      }
      assert JustWorker(req, w, 0, c[0]).databases == c[0].databases;
    } else {
      WorkerDbsEffect(req, w, n, k - 1, c);
      WorkerDbsPlanSplit(req, w, k, c);
      WorkerPlanEffect(req, w, n, k, c);
    }
  }

  lemma WorkerPlanEffect(req: PgRequest, w: nat, n: nat, k: nat, c: Cluster)
    requires 0 < k <= |req.databases| && 0 < w < n <= |c| && AllReady(req, n, c)
    ensures Replay(WorkerPlan(req, w, req.databases[k - 1]), c[0 := JustWorker(req, w, k - 1, c[0])]) ==
            c[0 := JustWorker(req, w, k, c[0])]
  {
    var db, name := req.databases[k - 1], NameOf(req, k - 1);
    var c' := c[0 := JustWorker(req, w, k - 1, c[0])];
    if db.distributed {
      assert CitusReady(c, 0, name) && CitusReady(c, w, name);
      JustWorkerStep(req, w, k, c[0]);
      TwoCalls(Connect(0, name), AddWorker(name, w), c');
      assert HasExtension(c', w, name, CITUS) && HasExtension(c', 0, name, CITUS);
    } else {
      JustWorkerStep(req, w, k, c[0]);
    }
  }

  lemma JustWorkerStep(req: PgRequest, w: nat, k: nat, nd: Node)
    requires 0 < k <= |req.databases|
    requires req.databases[k - 1].distributed ==> NameOf(req, k - 1) in nd.databases
    ensures var name := NameOf(req, k - 1);
            var before := JustWorker(req, w, k - 1, nd).databases;
            JustWorker(req, w, k, nd).databases ==
            if req.databases[k - 1].distributed
            then before[name := before[name].(workers := before[name].workers + {w})] else before
  {
    var db, name := req.databases[k - 1], NameOf(req, k - 1);
    var before, now := JustWorker(req, w, k - 1, nd).databases, JustWorker(req, w, k, nd).databases;
    forall x | x in nd.databases
      ensures now[x] == if db.distributed && x == name then before[x].(workers := before[x].workers + {w})
                        else before[x]
    {
      DistributedStep(req, k, x);
      var ws := nd.databases[x].workers;
      assert ws + {w} + {w} == ws + {w};
      assert ws + {} + {w} == ws + {w};
    }
    if db.distributed {
      assert now == before[name := before[name].(workers := before[name].workers + {w})];
    } else {
      assert now == before;
    }
  }

  /** Node 0 with worker `w` registered in the distributed databases among the first `k`. */
  ghost function JustWorker(req: PgRequest, w: nat, k: nat, nd: Node): Node
    requires k <= |req.databases|
  {
    nd.(databases := map name | name in nd.databases ::
      var d := nd.databases[name];
      d.(workers := d.workers + (if DistributedName(req, k, name) then {w} else {})))
  }

  lemma {:induction false} WorkersPlanEffect(req: PgRequest, m: nat, n: nat, c: Cluster)
    requires 0 < m <= n <= |c| && AllReady(req, n, c)
    ensures Replay(WorkersPlan(req, m), c) == c[0 := WithWorkers(req, m, 0, c[0])]
  {
    if m == 1 {
      NoWorkerYet(req, c[0]);
    } else {
      var all := |req.databases|;
      WorkersPlanEffect(req, m - 1, n, c);
      var c' := Replay(WorkersPlan(req, m - 1), c);
      PlanGrows(WorkersPlan(req, m - 1), c);
      ReadyGrows(req, n, c, c');
      WorkerDbsEffect(req, m - 1, n, all, c');
      ReplayAppend(WorkersPlan(req, m - 1), WorkerDbsPlan(req, m - 1, all), c);
      OneMoreWorker(req, m, c[0]);
    }
  }

  lemma NoWorkerYet(req: PgRequest, nd: Node)
    ensures WithWorkers(req, 1, 0, nd) == nd
  {
    forall name | name in nd.databases ensures WithWorkers(req, 1, 0, nd).databases[name] == nd.databases[name] {
      assert nd.databases[name].workers + WorkersBelow(1) + {} == nd.databases[name].workers;
    }
    assert WithWorkers(req, 1, 0, nd).databases == nd.databases;
  }

  lemma WorkersOf(req: PgRequest, m: nat, nd: Node, x: string)
    requires x in nd.databases
    ensures WithWorkers(req, m, 0, nd).databases[x] ==
            nd.databases[x].(workers := nd.databases[x].workers
              + if DistributedName(req, |req.databases|, x) then WorkersBelow(m) else {})
  {
    var d := nd.databases[x];
    assert forall ws: set<nat> :: d.workers + ws + {} == d.workers + ws;
  }

  lemma OneMoreWorker(req: PgRequest, m: nat, nd: Node)
    requires m > 1
    ensures JustWorker(req, m - 1, |req.databases|, WithWorkers(req, m - 1, 0, nd)) == WithWorkers(req, m, 0, nd)
  {
    hide DistributedName;
    var before, now := WithWorkers(req, m - 1, 0, nd), WithWorkers(req, m, 0, nd);
    var goal := JustWorker(req, m - 1, |req.databases|, before);
    forall x | x in nd.databases ensures goal.databases[x] == now.databases[x] {
      WorkersOf(req, m - 1, nd, x);
      WorkersOf(req, m, nd, x);
      assert goal.databases[x].workers == now.databases[x].workers;
    }
    assert goal.databases == now.databases;
  }

  /** The failure-free run reaches the target, whatever the cluster held before. */
  lemma CreateReachesTarget(req: PgRequest, n: nat, c: Cluster)
    requires n <= |c| && req.user != ""
    ensures Replay(CreatePlan(req, n), c) == Target(req, n, c)
  {
    var front: Plan := [[FindCluster]] + NodesPlan(req, n);
    var back: Plan := [[FindCluster]] + WorkersPlan(req, n);
    OneCall(FindCluster, c);
    ReplayAppend([[FindCluster]], NodesPlan(req, n), c);
    NodesPlanEffect(req, n, c);
    NodesPlanLegal(req, n, c);
    var c1 := TargetNodes(req, n, c);
    OneCall(FindCluster, c1);
    ReplayAppend([[FindCluster]], WorkersPlan(req, n), c1);
    ReplayAppend(front, back, c);
    if n > 0 {
      WorkersPlanEffect(req, n, n, c1);
    }
  }

  /** Exactly what a request that finally succeeded has left, after any number of failed attempts. */
  lemma SuccessIsTarget(req: PgRequest, n: nat, f: Faults, w: World, tries: nat)
    requires n <= |w.cluster| && req.user != ""
    requires Attempts(CreatePlan(req, n), f, w, tries).ok
    ensures Attempts(CreatePlan(req, n), f, w, tries).world.cluster == Target(req, n, w.cluster)
  {
    RetryEquivalence(req, n, f, w, tries);
    CreateReachesTarget(req, n, w.cluster);
  }

  /** Roles at the target: the user's on the first `n` nodes, everybody else's as before. */
  lemma TargetRoles(req: PgRequest, n: nat, c: Cluster, i: nat, user: string)
    requires n <= |c| && i < |c|
    ensures HasRole(Target(req, n, c), i, user) <==> HasRole(c, i, user) || (i < n && user == req.user)
    ensures HasRole(Target(req, n, c), i, user) ==>
              Target(req, n, c)[i].roles[user] ==
              if i < n && user == req.user then Role(req.password, Some(30), true) else c[i].roles[user]
  {
  }

  /** The `j`-th entry of the request asks for the database `name` on node `i`: distributed entries do
      on every node, the others on node 0. */
  ghost predicate AsksFor(req: PgRequest, i: nat, j: nat, name: string) {
    && j < |req.databases|
    && (req.databases[j].distributed || i == 0)
    && Spells(name, req.appNamespace, req.databases[j].name)
  }

  lemma AsksForMeans(req: PgRequest, i: nat, j: nat, name: string)
    requires j < |req.databases|
    ensures AsksFor(req, i, j, name) <==> Applies(req, i, j) && NameOf(req, j) == name
  {
    RealNameSpells(name, req.appNamespace, req.databases[j].name);
  }

  lemma AskedNames(req: PgRequest, i: nat, name: string)
    ensures name in RequestedNames(req, i, |req.databases|) <==> exists j: nat :: AsksFor(req, i, j, name)
  {
    forall j: nat | j < |req.databases|
      ensures AsksFor(req, i, j, name) <==> Applies(req, i, j) && NameOf(req, j) == name
    {
      AsksForMeans(req, i, j, name);
    }
  }

  /** Databases at the target: what was there, and on node `i` the entries that ask for one there.
      None changes its owner. */
  lemma TargetNames(req: PgRequest, n: nat, c: Cluster, i: nat, name: string)
    requires n <= |c| && i < |c|
    ensures HasDatabase(Target(req, n, c), i, name) <==>
            HasDatabase(c, i, name) || (i < n && exists j: nat :: AsksFor(req, i, j, name))
    ensures HasDatabase(Target(req, n, c), i, name) ==>
              Target(req, n, c)[i].databases[name].owner ==
              if HasDatabase(c, i, name) then c[i].databases[name].owner else req.user
  {
    AskedNames(req, i, name);
    assert HasDatabase(Target(req, n, c), i, name) <==>
           HasDatabase(c, i, name) || (i < n && name in RequestedNames(req, i, |req.databases|));
  }

  /** Asking for the extension `x` installs `e`. */
  predicate Installs(x: string, e: string) {
    || (e == "vector" && (x == "vector" || x == "pgvector"))
    || (e == "vectors" && (x == "vectors" || x == "pgvecto.rs"))
    || (e == x && x != "pgvector" && x != "pgvecto.rs")
  }

  /** The `j`-th entry brings the extension `e`. */
  predicate Brings(req: PgRequest, j: nat, e: string)
    requires j < |req.databases|
  {
    || (req.databases[j].distributed && e == "citus")
    || exists x :: x in req.databases[j].extensions && Installs(x, e)
  }

  lemma BringsMeans(req: PgRequest, j: nat, e: string)
    requires j < |req.databases|
    ensures Brings(req, j, e) <==>
            (req.databases[j].distributed && e == CITUS) || e in MappedExtensions(req.databases[j].extensions)
  {
    var names := req.databases[j].extensions;
    if e in MappedExtensions(names) {
      var k :| 0 <= k < |names| && RealExtension(names[k]) == e;
      assert names[k] in names && Installs(names[k], e);
    }
    if x :| x in names && Installs(x, e) {
      var k :| 0 <= k < |names| && names[k] == x;
      assert RealExtension(names[k]) == e;
    }
  }

  /** Extensions at the target: those from before, and what the entries for the database bring. */
  lemma TargetExtensions(req: PgRequest, n: nat, c: Cluster, i: nat, name: string, e: string)
    requires n <= |c| && i < |c|
    ensures HasExtension(Target(req, n, c), i, name, e) <==>
            HasExtension(c, i, name, e) || (i < n && exists j: nat :: AsksFor(req, i, j, name) && Brings(req, j, e))
  {
    forall j: nat | j < |req.databases|
      ensures AsksFor(req, i, j, name) <==> Applies(req, i, j) && NameOf(req, j) == name
      ensures Brings(req, j, e) <==>
              (req.databases[j].distributed && e == CITUS) || e in MappedExtensions(req.databases[j].extensions)
    {
      AsksForMeans(req, i, j, name);
      BringsMeans(req, j, e);
    }
    TargetNames(req, n, c, i, name);
    RequestedExtensionsMeans(req, i, name, e);
  }

  lemma RequestedExtensionsMeans(req: PgRequest, i: nat, name: string, e: string)
    ensures e in RequestedExtensions(req, i, |req.databases|, name) <==>
            exists j: nat :: j < |req.databases| && Applies(req, i, j) && NameOf(req, j) == name
                        && ((req.databases[j].distributed && e == CITUS)
                            || e in MappedExtensions(req.databases[j].extensions))
  {
  }

  /** Citus metadata at the target: on node 0 a database that a distributed entry asks for has node 0
      as its coordinator and the other nodes as workers; nothing else changes. */
  lemma TargetCoordinators(req: PgRequest, n: nat, c: Cluster, i: nat, name: string)
    requires n <= |c| && HasDatabase(Target(req, n, c), i, name)
    ensures var d := Target(req, n, c)[i].databases[name];
            var asked := i == 0 < n && exists j: nat :: AsksFor(req, 0, j, name) && req.databases[j].distributed;
            && d.coordinator == (if asked then Some(0)
                                 else if HasDatabase(c, i, name) then c[i].databases[name].coordinator else None)
            && forall w: nat :: w in d.workers <==>
                 (HasDatabase(c, i, name) && w in c[i].databases[name].workers) || (asked && 1 <= w < n)
  {
    forall j: nat | j < |req.databases|
      ensures AsksFor(req, 0, j, name) <==> Applies(req, 0, j) && NameOf(req, j) == name
    {
      AsksForMeans(req, 0, j, name);
    }
    assert DistributedName(req, |req.databases|, name) <==>
           exists j: nat :: AsksFor(req, 0, j, name) && req.databases[j].distributed;
    assert !DistributedName(req, 0, name);
  }

  /** No two entries of the request have alike names. */
  ghost predicate NamesDiffer(req: PgRequest) {
    forall j, k :: 0 <= j < k < |req.databases| ==> !Alike(req.databases[j].name, req.databases[k].name)
  }

  lemma {:induction false} AsManyNames(req: PgRequest, k: nat)
    requires k <= |req.databases| && NamesDiffer(req)
    ensures |RequestedNames(req, 0, k)| == k
  {
    if k > 0 {
      AsManyNames(req, k - 1);
      NamesStep(req, 0, k);
      var name := NameOf(req, k - 1);
      forall j: nat | j < k - 1 ensures NameOf(req, j) != name {
        RealNameSpells(name, req.appNamespace, req.databases[k - 1].name);
        RealNameSpells(NameOf(req, j), req.appNamespace, req.databases[j].name);
        SameDatabase(req.appNamespace, req.databases[j].name, req.databases[k - 1].name, NameOf(req, j), name);
      }
    } else {
      assert RequestedNames(req, 0, 0) == {};
    }
  }

  /** One database per entry: if no two names are alike and none of the databases is there yet, node 0
      holds exactly as many more as the request has entries. */
  lemma OneDatabasePerEntry(req: PgRequest, n: nat, c: Cluster)
    requires 0 < n <= |c| && NamesDiffer(req)
    requires forall name, j: nat :: HasDatabase(c, 0, name) ==> !AsksFor(req, 0, j, name)
    ensures |Target(req, n, c)[0].databases| == |c[0].databases| + |req.databases|
  {
    var now, before := Target(req, n, c)[0].databases.Keys, c[0].databases.Keys;
    var names := RequestedNames(req, 0, |req.databases|);
    assert now == before + names;
    forall name | name in before ensures name !in names {
      forall j: nat | j < |req.databases| ensures NameOf(req, j) != name {
        AsksForMeans(req, 0, j, name);
        assert HasDatabase(c, 0, name);
      }
    }
    AsManyNames(req, |req.databases|);
    assert |now| == |before| + |names|;
  }

  /** Every distributed database carries citus on all nodes, and node 0 coordinates all workers. */
  lemma TargetIsDistributed(req: PgRequest, n: nat, c: Cluster, j: nat, name: string)
    requires 0 < n <= |c| && AsksFor(req, 0, j, name) && req.databases[j].distributed
    ensures forall i: nat :: i < n ==> HasExtension(Target(req, n, c), i, name, "citus")
    ensures HasDatabase(Target(req, n, c), 0, name)
    ensures var d := Target(req, n, c)[0].databases[name];
            d.coordinator == Some(0) && forall w: nat :: 1 <= w < n ==> w in d.workers
  {
    forall i: nat | i < n ensures HasExtension(Target(req, n, c), i, name, "citus") {
      assert AsksFor(req, i, j, name) && Brings(req, j, "citus");
      TargetExtensions(req, n, c, i, name, "citus");
    }
    assert HasExtension(Target(req, n, c), 0, name, "citus");
    TargetCoordinators(req, n, c, 0, name);
  }
}
