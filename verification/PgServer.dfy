/**
 The request handler as it runs: clients that hold a current database, loops over nodes and
 databases, and a return at the first error.  Each method leaves exactly what its plan says
 under every pattern of failures.
 */
module PgServer {
  import opened Wrappers
  import opened Calls
  import opened PgState
  import opened PgProvisioning
  import opened PgTarget

  function WithoutDatabase(c: Cluster, i: nat, db: string): Cluster
    requires i < |c|
  {
    c[i := c[i].(databases := c[i].databases - {db})]
  }

  function WithoutRole(c: Cluster, i: nat, user: string): Cluster
    requires i < |c|
  {
    c[i := c[i].(roles := c[i].roles - {user})]
  }

  /** The databases of a node that belong to a user. */
  function Owned(nd: Node, user: string): set<string> {
    set db | db in nd.databases && nd.databases[db].owner == user
  }

  /** The rows of a listing that the program reads. */
  function Read(outcome: Outcome, rows: set<string>): set<string> {
    if outcome.CutShort? then rows * outcome.part else rows
  }

  /** The answer breaks off before this row. */
  predicate CutBefore(outcome: Outcome, row: string) {
    outcome.CutShort? && row !in outcome.part
  }

  /** `dbs` lists `names`, each once, in some order. */
  ghost predicate Lists(dbs: seq<string>, names: set<string>) {
    && (forall db :: db in dbs <==> db in names)
    && (forall j, k :: 0 <= j < k < |dbs| ==> dbs[j] != dbs[k])
  }

  /** The cluster behind the network. */
  class Server {
    const faults: Faults
    var cluster: Cluster
    var clock: nat
    var refused: bool

    function Now(): World
      reads this
    {
      World(cluster, clock, refused)
    }

    constructor (cluster: Cluster, faults: Faults)
      ensures Now() == World(cluster, 0, false) && this.faults == faults
    {
      this.cluster, this.faults, clock, refused := cluster, faults, 0, false;
    }

    /** A statement. */
    method Call(op: Op) returns (ok: bool)
      requires !Looks(op)
      modifies this
      ensures Attempt(Now(), ok) == Issue(op, faults, old(Now()))
    {
      ok := Perform(op);
    }

    method Perform(op: Op) returns (ok: bool)
      modifies this
      ensures Attempt(Now(), ok) == Send(op, faults, old(Now()))
    {
      var outcome := faults(clock);
      clock := clock + 1;
      if outcome == RequestLost {
        return false;
      }
      if !Legal(op, cluster) {
        refused := true;
        return false;
      }
      cluster := Apply(op, cluster);
      return !Fails(outcome);
    }

    /** `create role` or `create database`.  What exists is not touched, and the server refuses the
        request if it arrives; what does not is created if the request arrives and is legal. */
    method Create(op: Op) returns (ok: bool)
      requires Looks(op)
      modifies this
      ensures clock == old(clock) + 1
      ensures Present(op, old(cluster)) ==>
                && !ok && cluster == old(cluster)
                && refused == (old(refused) || faults(old(clock)) != RequestLost)
      ensures !Present(op, old(cluster)) ==>
                && (ok <==> Legal(op, old(cluster)) && !Fails(faults(old(clock))))
                && (cluster != old(cluster) ==> faults(old(clock)) != RequestLost)
                && (faults(old(clock)) != RequestLost ==> cluster == Apply(op, old(cluster)))
                && refused == (old(refused) || (faults(old(clock)) != RequestLost && !Legal(op, old(cluster))))
    {
      if faults(clock) != RequestLost && Present(op, cluster) {
        clock, refused := clock + 1, true;
        return false;
      }
      ok := Perform(op);
    }

    /** A query for one row.  A row that is found is there; none is found if there is none, or if the
        answer is cut short before it. */
    method FindRole(i: nat, user: string) returns (found: Option<bool>)
      modifies this`clock
      ensures clock == old(clock) + 1
      ensures found == None <==> Fails(faults(old(clock)))
      ensures found == Some(true) ==> HasRole(cluster, i, user)
      ensures found == Some(false) <==>
                !Fails(faults(old(clock)))
                && (HasRole(cluster, i, user) ==> CutBefore(faults(old(clock)), user))
    {
      found := Heard(faults(clock), HasRole(cluster, i, user), user);
      clock := clock + 1;
    }

    method FindDatabase(i: nat, db: string) returns (found: Option<bool>)
      modifies this`clock
      ensures clock == old(clock) + 1
      ensures found == None <==> Fails(faults(old(clock)))
      ensures found == Some(true) ==> HasDatabase(cluster, i, db)
      ensures found == Some(false) <==>
                !Fails(faults(old(clock)))
                && (HasDatabase(cluster, i, db) ==> CutBefore(faults(old(clock)), db))
    {
      found := Heard(faults(clock), HasDatabase(cluster, i, db), db);
      clock := clock + 1;
    }

    /** `drop database if exists`. */
    method DropDatabase(i: nat, db: string) returns (ok: bool)
      requires i < |cluster|
      modifies this
      ensures clock == old(clock) + 1 && refused == old(refused)
      ensures ok <==> !Fails(faults(old(clock)))
      ensures cluster == if faults(old(clock)) == RequestLost then old(cluster)
                         else WithoutDatabase(old(cluster), i, db)
    {
      var outcome := faults(clock);
      clock := clock + 1;
      if outcome != RequestLost {
        cluster := WithoutDatabase(cluster, i, db);
      }
      return !Fails(outcome);
    }

    /** The databases a user owns on a node, in the order the server pleases.  The loop over the rows
        does not ask why it ended, so a listing cut short succeeds with what it has read. */
    method ListDatabaseByOwner(i: nat, user: string) returns (ok: bool, dbs: seq<string>)
      requires i < |cluster|
      modifies this`clock
      ensures clock == old(clock) + 1
      ensures ok <==> !Fails(faults(old(clock)))
      ensures ok ==> Lists(dbs, Read(faults(old(clock)), Owned(cluster[i], user)))
    {
      var outcome := faults(clock);
      ok := !Fails(outcome);
      clock := clock + 1;
      dbs := [];
      var all := Read(outcome, Owned(cluster[i], user));
      var left := all;
      while left != {}
        invariant forall db :: db in dbs <==> db in all && db !in left
        invariant forall j, k :: 0 <= j < k < |dbs| ==> dbs[j] != dbs[k]
        invariant left <= all
        decreases left
      {
        var db :| db in left;
        dbs := dbs + [db];
        left := left - {db};
      }
    }

    /** `drop role if exists`, which the server refuses while the role owns a database. */
    method DropRole(i: nat, user: string) returns (ok: bool)
      requires i < |cluster|
      modifies this
      ensures clock == old(clock) + 1
      ensures ok <==> !Fails(faults(old(clock))) && Owned(old(cluster)[i], user) == {}
      ensures refused == (old(refused) || (faults(old(clock)) != RequestLost && Owned(old(cluster)[i], user) != {}))
      ensures cluster == if faults(old(clock)) == RequestLost || Owned(old(cluster)[i], user) != {}
                         then old(cluster) else WithoutRole(old(cluster), i, user)
    {
      var outcome := faults(clock);
      clock := clock + 1;
      if outcome == RequestLost {
        return false;
      }
      if Owned(cluster[i], user) != {} {
        refused := true;
        return false;
      }
      cluster := WithoutRole(cluster, i, user);
      return !Fails(outcome);
    }
  }

  /** A connection to one node; later statements act on its current database. */
  class Client {
    const server: Server
    const node: nat
    var database: string

    constructor (server: Server, node: nat, database: string)
      ensures this.server == server && this.node == node && this.database == database
    {
      this.server, this.node, this.database := server, node, database;
    }

    /** Asks for the role, then alters or creates it. */
    method SetPasswordOf(user: string, password: string) returns (ok: bool)
      modifies server
      ensures Attempt(server.Now(), ok) == Issue(SetPassword(node, user, password), server.faults, old(server.Now()))
      ensures ok ==> HasRole(server.cluster, node, user) && server.cluster[node].roles[user].password == password
    {
      ghost var w := server.Now();
      var found := server.FindRole(node, user);
      match found
      case None => ok := false;
      case Some(true) => ok := server.Perform(SetPassword(node, user, password));
      case Some(false) => ok := server.Create(SetPassword(node, user, password));
      if ok {
        ApplyDone(SetPassword(node, user, password), w.cluster);
      }
    }

    method CreateOrUpdateUser(user: string, password: string) returns (ok: bool)
      modifies server
      ensures Attempt(server.Now(), ok) ==
              Run([[SetPassword(node, user, password)], [LimitConnections(node, user)], [GrantFileAccess(node, user)]],
                  server.faults, old(server.Now()))
    {
      hide Issue, Apply, Legal;
      ghost var w := server.Now();
      ghost var more := [[LimitConnections(node, user)], [GrantFileAccess(node, user)]];
      ok := SetPasswordOf(user, password);
      RunCons([SetPassword(node, user, password)], more, server.faults, w);
      if ok {
        w := server.Now();
        ok := server.Call(LimitConnections(node, user));
        RunCons([LimitConnections(node, user)], [[GrantFileAccess(node, user)]], server.faults, w);
        if ok {
          w := server.Now();
          ok := server.Call(GrantFileAccess(node, user));
          RunOne(GrantFileAccess(node, user), server.faults, w);
        }
      }
    }

    /** Asks for the database and creates it if the answer shows none.  One that is there is left as
        it is, owner included, even if the answer missed it. */
    method CreateDatabaseIfNotExists(db: string, owner: string) returns (ok: bool)
      modifies server
      ensures Attempt(server.Now(), ok) == Issue(CreateDatabase(node, db, owner), server.faults, old(server.Now()))
      ensures HasDatabase(old(server.cluster), node, db) ==> server.cluster == old(server.cluster)
      ensures !HasDatabase(old(server.cluster), node, db) && ok ==>
                node < |old(server.cluster)|
                && server.cluster == PutDatabase(old(server.cluster), node, db, Database(owner, {}, None, {}))
    {
      var found := server.FindDatabase(node, db);
      match found
      case None => ok := false;
      case Some(true) => ok := true;
      case Some(false) => ok := server.Create(CreateDatabase(node, db, owner));
    }

    method SwitchDatabase(db: string) returns (ok: bool)
      requires this as object != server
      modifies server, this
      ensures Attempt(server.Now(), ok) == Issue(Connect(node, db), server.faults, old(server.Now()))
      ensures database == if ok then db else old(database)
    {
      ok := server.Call(Connect(node, db));
      if ok {
        database := db;
      }
    }

    method CreateCitus() returns (ok: bool)
      modifies server
      ensures Attempt(server.Now(), ok) == Issue(AddExtension(node, database, CITUS), server.faults, old(server.Now()))
    {
      ok := server.Call(AddExtension(node, database, CITUS));
    }

    method SetMasterNode() returns (ok: bool)
      modifies server
      ensures Attempt(server.Now(), ok) == Issue(SetCoordinator(node, database), server.faults, old(server.Now()))
    {
      ok := server.Call(SetCoordinator(node, database));
    }

    /** Tries every extension and reports an error if any of them failed. */
    method CreateExtensions(names: seq<string>) returns (ok: bool)
      modifies server
      ensures Attempt(server.Now(), ok) ==
              IssueStep(ExtensionStep(node, database, names), server.faults, old(server.Now()))
    {
      ok := true;
      ghost var w, db := server.Now(), database;
      ghost var ops := ExtensionStep(node, database, names);
      var k := 0;
      while k < |names|
        modifies server
        invariant 0 <= k <= |names|
        invariant Attempt(server.Now(), ok) == IssueStep(ops[..k], server.faults, w)
        invariant database == db
      {
        ghost var before := server.Now();
        var created := server.Call(AddExtension(node, database, RealExtension(names[k])));
        ok := ok && created;
        assert ops[..k + 1] == ops[..k] + [ops[k]];
        IssueStepAppend(ops[..k], [ops[k]], server.faults, w);
        OneIssue(ops[k], server.faults, before);
        k := k + 1;
      }
      assert ops[..k] == ops;
    }

    method ExecuteScript() returns (ok: bool)
      modifies server
      ensures Attempt(server.Now(), ok) == Issue(RunScript(node, database), server.faults, old(server.Now()))
    {
      ok := server.Call(RunScript(node, database));
    }

    method AddWorkerNode(worker: nat) returns (ok: bool)
      modifies server
      ensures Attempt(server.Now(), ok) == Issue(AddWorker(database, worker), server.faults, old(server.Now()))
    {
      ok := server.Call(AddWorker(database, worker));
    }
  }

  lemma RunNothing(f: Faults, w: World)
    ensures Run([], f, w) == Attempt(w, true)
  {
  }

  lemma RunOne(op: Op, f: Faults, w: World)
    ensures Run([[op]], f, w) == Issue(op, f, w)
  {
    OneIssue(op, f, w);
    assert [[op]][1..] == [];
  }

  lemma RunStep(ops: seq<Op>, f: Faults, w: World)
    ensures Run([ops], f, w) == IssueStep(ops, f, w)
  {
    assert [ops][1..] == [];
  }

  lemma RunCons(step: seq<Op>, rest: Plan, f: Faults, w: World)
    ensures Run([step] + rest, f, w) ==
            (var r := IssueStep(step, f, w); if r.ok then Run(rest, f, r.world) else r)
    ensures |step| == 1 ==> IssueStep(step, f, w) == Issue(step[0], f, w)
  {
    assert ([step] + rest)[1..] == rest;
    if |step| == 1 {
      assert step == [step[0]];
      OneIssue(step[0], f, w);
    }
  }

  /** A run that failed within its first databases fails the same way with more of them to do. */
  lemma {:induction false} DbsStop(req: PgRequest, i: nat, k: nat, m: nat, f: Faults, w: World)
    requires k <= m <= |req.databases| && !Run(DbsPlan(req, i, k), f, w).ok
    ensures Run(DbsPlan(req, i, m), f, w) == Run(DbsPlan(req, i, k), f, w)
  {
    hide DbPlan, Run;
    if k < m {
      DbsStop(req, i, k, m - 1, f, w);
      RunAppend(DbsPlan(req, i, m - 1), DbPlan(req, i, req.databases[m - 1]), f, w);
    }
  }

  lemma {:induction false} NodesStop(req: PgRequest, k: nat, m: nat, f: Faults, w: World)
    requires k <= m && !Run(NodesPlan(req, k), f, w).ok
    ensures Run(NodesPlan(req, m), f, w) == Run(NodesPlan(req, k), f, w)
  {
    hide NodePlan, Run;
    if k < m {
      NodesStop(req, k, m - 1, f, w);
      RunAppend(NodesPlan(req, m - 1), NodePlan(req, m - 1), f, w);
    }
  }

  lemma {:induction false} WorkerDbsStop(req: PgRequest, worker: nat, k: nat, m: nat, f: Faults, w: World)
    requires k <= m <= |req.databases| && !Run(WorkerDbsPlan(req, worker, k), f, w).ok
    ensures Run(WorkerDbsPlan(req, worker, m), f, w) == Run(WorkerDbsPlan(req, worker, k), f, w)
  {
    hide WorkerPlan, Run;
    if k < m {
      WorkerDbsStop(req, worker, k, m - 1, f, w);
      RunAppend(WorkerDbsPlan(req, worker, m - 1), WorkerPlan(req, worker, req.databases[m - 1]), f, w);
    }
  }

  lemma {:induction false} WorkersStop(req: PgRequest, k: nat, m: nat, f: Faults, w: World)
    requires k <= m && !Run(WorkersPlan(req, k), f, w).ok
    ensures Run(WorkersPlan(req, m), f, w) == Run(WorkersPlan(req, k), f, w)
  {
    hide WorkerDbsPlan, Run;
    if k < m && m > 1 {
      WorkersStop(req, k, m - 1, f, w);
      RunAppend(WorkersPlan(req, m - 1), WorkerDbsPlan(req, m - 1, |req.databases|), f, w);
    }
  }

  method OpenDatabase(client: Client, dbName: string, owner: string) returns (ok: bool)
    requires client as object != client.server
    modifies client.server, client
    ensures Attempt(client.server.Now(), ok) ==
            Run(OpenPlan(client.node, dbName, owner), client.server.faults, old(client.server.Now()))
    ensures ok ==> client.database == dbName
  {
    ghost var w := client.server.Now();
    ok := client.CreateDatabaseIfNotExists(dbName, owner);
    RunCons([CreateDatabase(client.node, dbName, owner)], [[Connect(client.node, dbName)]], client.server.faults, w);
    if ok {
      w := client.server.Now();
      ok := client.SwitchDatabase(dbName);
      RunOne(Connect(client.node, dbName), client.server.faults, w);
    }
  }

  method EnableCitus(client: Client, distributed: bool) returns (ok: bool)
    modifies client.server
    ensures Attempt(client.server.Now(), ok) ==
            Run(CitusPlan(client.node, client.database, distributed), client.server.faults, old(client.server.Now()))
  {
    ok := true;
    if distributed {
      ghost var w := client.server.Now();
      ok := client.CreateCitus();
      RunCons([AddExtension(client.node, client.database, CITUS)],
              CoordinatorPlan(client.node, client.database), client.server.faults, w);
      if ok && client.node == 0 {
        w := client.server.Now();
        ok := client.SetMasterNode();
        RunOne(SetCoordinator(0, client.database), client.server.faults, w);
      }
    }
  }

  method AddExtras(client: Client, db: DbSpec) returns (ok: bool)
    modifies client.server
    ensures Attempt(client.server.Now(), ok) ==
            Run(ExtrasPlan(client.node, client.database, db.extensions)
                + ScriptsPlan(client.node, client.database, db.scripts),
                client.server.faults, old(client.server.Now()))
  {
    ok := true;
    ghost var w := client.server.Now();
    ghost var a := ExtrasPlan(client.node, client.database, db.extensions);
    ghost var b := ScriptsPlan(client.node, client.database, db.scripts);
    RunAppend(a, b, client.server.faults, w);
    if |db.extensions| > 0 {
      ok := client.CreateExtensions(db.extensions);
      RunStep(ExtensionStep(client.node, client.database, db.extensions), client.server.faults, w);
    }
    if ok && |db.scripts| > 0 {
      w := client.server.Now();
      ok := client.ExecuteScript();
      RunOne(RunScript(client.node, client.database), client.server.faults, w);
    }
  }

  /** The body of the database loop. */
  method ProvisionDatabase(client: Client, req: PgRequest, db: DbSpec) returns (ok: bool)
    requires client as object != client.server
    modifies client.server, client
    ensures Attempt(client.server.Now(), ok) ==
            Run(DbPlan(req, client.node, db), client.server.faults, old(client.server.Now()))
  {
    var dbName := RealName(req.appNamespace, db.name);
    ok := true;
    if db.distributed || client.node == 0 {
      ghost var f, w := client.server.faults, client.server.Now();
      ghost var a, b := OpenPlan(client.node, dbName, req.user), CitusPlan(client.node, dbName, db.distributed);
      ghost var d := ExtrasPlan(client.node, dbName, db.extensions) + ScriptsPlan(client.node, dbName, db.scripts);
      RunAppend(a, b, f, w);
      RunAppend(a + b, d, f, w);
      ok := OpenDatabase(client, dbName, req.user);
      if ok {
        ok := EnableCitus(client, db.distributed);
        if ok {
          ok := AddExtras(client, db);
        }
      }
    }
  }

  /** Connects to a node and creates or updates the user there. */
  method ProvisionUser(server: Server, req: PgRequest, index: nat) returns (ok: bool, client: Client)
    modifies server
    ensures fresh(client) && client.server == server && client.node == index
    ensures Attempt(server.Now(), ok) ==
            Run([[Connect(index, MAINTENANCE_DB)], [ReadPassword]] + UserPlan(req, index),
                server.faults, old(server.Now()))
  {
    ghost var f, w0 := server.faults, server.Now();
    ghost var p0: Plan := [[Connect(index, MAINTENANCE_DB)], [ReadPassword]];
    RunAppend(p0, UserPlan(req, index), f, w0);
    RunCons([Connect(index, MAINTENANCE_DB)], [[ReadPassword]], f, w0);
    client := new Client(server, index, MAINTENANCE_DB);
    ok := server.Call(Connect(index, MAINTENANCE_DB));
    if ok {
      RunOne(ReadPassword, f, server.Now());
      ok := server.Call(ReadPassword);
      if ok {
        ok := client.CreateOrUpdateUser(req.user, req.password);
      }
    }
  }

  /** The database loop on one node. */
  method ProvisionDatabases(client: Client, req: PgRequest) returns (ok: bool)
    requires client as object != client.server
    modifies client.server, client
    ensures Attempt(client.server.Now(), ok) ==
            Run(DbsPlan(req, client.node, |req.databases|), client.server.faults, old(client.server.Now()))
  {
    hide Run, DbPlan;
    ghost var f, w := client.server.faults, client.server.Now();
    RunNothing(f, w);
    ok := true;
    var k := 0;
    while k < |req.databases|
      modifies client.server, client
      invariant 0 <= k <= |req.databases|
      invariant ok && Run(DbsPlan(req, client.node, k), f, w) == Attempt(client.server.Now(), true)
    {
      ghost var before, db := client.server.Now(), req.databases[k];
      RunAppend(DbsPlan(req, client.node, k), DbPlan(req, client.node, db), f, w);
      assert Run(DbsPlan(req, client.node, k + 1), f, w) == Run(DbPlan(req, client.node, db), f, before);
      ok := ProvisionDatabase(client, req, req.databases[k]);
      if !ok {
        DbsStop(req, client.node, k + 1, |req.databases|, f, w);
        return;
      }
      k := k + 1;
    }
  }

  /** Everything one node needs. */
  method ProvisionNode(server: Server, req: PgRequest, index: nat) returns (ok: bool)
    modifies server
    ensures Attempt(server.Now(), ok) == Run(NodePlan(req, index), server.faults, old(server.Now()))
  {
    RunAppend([[Connect(index, MAINTENANCE_DB)], [ReadPassword]] + UserPlan(req, index),
              DbsPlan(req, index, |req.databases|), server.faults, server.Now());
    var client;
    ok, client := ProvisionUser(server, req, index);
    if ok {
      ok := ProvisionDatabases(client, req);
    }
  }

  /** One registration, over a fresh connection to the master's copy of the database. */
  method RegisterWorker(server: Server, req: PgRequest, index: nat, db: DbSpec) returns (ok: bool)
    modifies server
    ensures Attempt(server.Now(), ok) == Run(WorkerPlan(req, index, db), server.faults, old(server.Now()))
  {
    ok := true;
    if db.distributed {
      var dbName := RealName(req.appNamespace, db.name);
      RunCons([Connect(0, dbName)], [[AddWorker(dbName, index)]], server.faults, server.Now());
      ok := server.Call(Connect(0, dbName));
      if ok {
        var master := new Client(server, 0, dbName);
        RunOne(AddWorker(dbName, index), server.faults, server.Now());
        ok := master.AddWorkerNode(index);
      }
    }
  }

  /** Registers one worker in every distributed database. */
  method RegisterInDatabases(server: Server, req: PgRequest, index: nat) returns (ok: bool)
    modifies server
    ensures Attempt(server.Now(), ok) ==
            Run(WorkerDbsPlan(req, index, |req.databases|), server.faults, old(server.Now()))
  {
    hide Run, WorkerPlan;
    ghost var f, w := server.faults, server.Now();
    RunNothing(f, w);
    ok := true;
    var k := 0;
    while k < |req.databases|
      modifies server
      invariant 0 <= k <= |req.databases|
      invariant ok && Run(WorkerDbsPlan(req, index, k), f, w) == Attempt(server.Now(), true)
    {
      ghost var before, db := server.Now(), req.databases[k];
      RunAppend(WorkerDbsPlan(req, index, k), WorkerPlan(req, index, db), f, w);
      assert Run(WorkerDbsPlan(req, index, k + 1), f, w) == Run(WorkerPlan(req, index, db), f, before);
      ok := RegisterWorker(server, req, index, req.databases[k]);
      if !ok {
        WorkerDbsStop(req, index, k + 1, |req.databases|, f, w);
        return;
      }
      k := k + 1;
    }
  }

  /** Registers every worker for every distributed database. */
  method AddWorkerNodes(server: Server, req: PgRequest, replicas: nat) returns (ok: bool)
    modifies server
    ensures Attempt(server.Now(), ok) ==
            Run([[FindCluster]] + WorkersPlan(req, replicas), server.faults, old(server.Now()))
  {
    hide Issue, Run, WorkerDbsPlan;
    ghost var f := server.faults;
    RunCons([FindCluster], WorkersPlan(req, replicas), f, server.Now());
    ok := server.Call(FindCluster);
    if !ok {
      return;
    }

    ghost var w := server.Now();
    RunNothing(f, w);
    var index := 1;
    while index < replicas
      modifies server
      invariant 1 <= index && (index <= replicas || index == 1)
      invariant ok && Run(WorkersPlan(req, index), f, w) == Attempt(server.Now(), true)
    {
      ghost var before, next := server.Now(), WorkerDbsPlan(req, index, |req.databases|);
      RunAppend(WorkersPlan(req, index), next, f, w);
      assert Run(WorkersPlan(req, index + 1), f, w) == Run(next, f, before);
      ok := RegisterInDatabases(server, req, index);
      if !ok {
        WorkersStop(req, index + 1, replicas, f, w);
        return;
      }
      index := index + 1;
    }
    assert WorkersPlan(req, index) == WorkersPlan(req, replicas);
  }

  /** The handler of ADD and the first half of UPDATE.  From any cluster state and under any
      failures it runs its plan; a call is refused only after a query misled it; and when it reports
      success the cluster is exactly at the target. */
  method CreateOrUpdatePGRequest(server: Server, req: PgRequest, replicas: nat) returns (ok: bool)
    requires replicas <= |server.cluster| && req.user != ""
    modifies server
    ensures Attempt(server.Now(), ok) == Run(CreatePlan(req, replicas), server.faults, old(server.Now()))
    ensures server.refused ==
            (old(server.refused) || MisledInRun(CreatePlan(req, replicas), server.faults, old(server.Now())))
    ensures ok ==> server.cluster == Target(req, replicas, old(server.cluster))
    ensures ok ==>
              forall i: nat, name :: i < |server.cluster| ==>
                (HasDatabase(server.cluster, i, name) <==>
                 || HasDatabase(old(server.cluster), i, name)
                 || (i < replicas && exists j: nat :: AsksFor(req, i, j, name)))
    ensures !ok ==> Failing(server.faults, old(server.clock), server.clock)
                    || MisledInRun(CreatePlan(req, replicas), server.faults, old(server.Now()))
    ensures !ok ==> Disturbed(server.faults, old(server.clock), server.clock)
    ensures server.clock > old(server.clock)
    ensures replicas <= |server.cluster|
    ensures Target(req, replicas, server.cluster) == Target(req, replicas, old(server.cluster))
  {
    ok := RunCreate(server, req, replicas);
    ghost var w := old(server.Now());
    var plan := CreatePlan(req, replicas);
    RunKeepsSize(plan, server.faults, w);
    ShapedCreatePlan(req, replicas);
    CreatePlanLegal(req, replicas, w.cluster);
    LegalPlanRefusals(plan, server.faults, w, req.user, req.password);
    RunAbsorbed(plan, server.faults, w, req.user, req.password);
    CreateReachesTarget(req, replicas, w.cluster);
    CreateReachesTarget(req, replicas, server.cluster);
    FailureTakesTime(req, replicas, server.faults, w);
    if ok {
      SuccessIsReplay(plan, server.faults, w);
      forall i: nat, name | i < |w.cluster| {
        TargetNames(req, replicas, w.cluster, i, name);
      }
    } else {
      LegalPlanFails(plan, server.faults, w);
    }
  }

  method RunCreate(server: Server, req: PgRequest, replicas: nat) returns (ok: bool)
    modifies server
    ensures Attempt(server.Now(), ok) == Run(CreatePlan(req, replicas), server.faults, old(server.Now()))
  {
    hide Issue, Run, NodePlan, WorkersPlan;
    ghost var f, w0 := server.faults, server.Now();
    ghost var front: Plan := [[FindCluster]] + NodesPlan(req, replicas);
    RunAppend(front, [[FindCluster]] + WorkersPlan(req, replicas), f, w0);
    RunCons([FindCluster], NodesPlan(req, replicas), f, w0);
    ok := server.Call(FindCluster);
    if !ok {
      return;
    }

    ghost var w1 := server.Now();
    RunNothing(f, w1);
    var index := 0;
    while index < replicas
      modifies server
      invariant 0 <= index <= replicas
      invariant ok && Run(NodesPlan(req, index), f, w1) == Attempt(server.Now(), true)
    {
      RunAppend(NodesPlan(req, index), NodePlan(req, index), f, w1);
      ok := ProvisionNode(server, req, index);
      if !ok {
        NodesStop(req, index + 1, replicas, f, w1);
        return;
      }
      index := index + 1;
    }
    ok := AddWorkerNodes(server, req, replicas);
  }
}
