/**
 What an ADD or UPDATE request asks of the cluster: the plan of calls, the state it aims at, and
 the three promises about it: no call is ever refused, success is exactly the target, and runs
 cut off by failures change nothing about where the request ends up.
 */
module PgProvisioning {
  import opened Wrappers
  import opened Calls
  import opened PgState

  datatype DbSpec = DbSpec(
    name: string, distributed: bool, extensions: seq<string>, scripts: seq<string>)

  datatype PgRequest = PgRequest(
    appNamespace: string, user: string, password: string, databases: seq<DbSpec>)

  function RealName(namespace: string, db: string): string {
    var joined := namespace + "_" + db;
    seq(|joined|, k requires 0 <= k < |joined| => if joined[k] == '-' then '_' else joined[k])
  }

  /** `name` is `namespace`, a '_' and `db`, each character in its place with '-' turned into '_'. */
  ghost predicate Spells(name: string, namespace: string, db: string) {
    && |name| == |namespace| + 1 + |db|
    && name[|namespace|] == '_'
    && (forall k :: 0 <= k < |namespace| ==> name[k] == if namespace[k] == '-' then '_' else namespace[k])
    && (forall k :: 0 <= k < |db| ==> name[|namespace| + 1 + k] == if db[k] == '-' then '_' else db[k])
  }

  /** Two names that differ at most in '-' and '_'. */
  ghost predicate Alike(a: string, b: string) {
    |a| == |b| && forall k :: 0 <= k < |a| ==> a[k] == b[k] || (a[k] in "-_" && b[k] in "-_")
  }

  /** A real name is spelled from its two parts, and nothing else is. */
  lemma RealNameSpells(name: string, namespace: string, db: string)
    ensures name == RealName(namespace, db) <==> Spells(name, namespace, db)
  {
    var actual := RealName(namespace, db);
    assert forall k :: 0 <= k < |db| ==> (namespace + "_" + db)[|namespace| + 1 + k] == db[k];
    if Spells(name, namespace, db) {
      forall k | 0 <= k < |name| ensures name[k] == actual[k] {
        if k > |namespace| {
          assert name[|namespace| + 1 + (k - |namespace| - 1)] == actual[k];
        }
      }
    }
  }

  /** Two entries of one request share a database exactly if their names are alike. */
  lemma SameDatabase(namespace: string, a: string, b: string, x: string, y: string)
    requires Spells(x, namespace, a) && Spells(y, namespace, b)
    ensures x == y <==> Alike(a, b)
  {
    if x == y {
      forall k | 0 <= k < |a| ensures a[k] == b[k] || (a[k] in "-_" && b[k] in "-_") {
        assert x[|namespace| + 1 + k] == y[|namespace| + 1 + k];
      }
    }
    if Alike(a, b) {
      forall k | 0 <= k < |x| ensures x[k] == y[k] {
        if k > |namespace| {
          var m := k - |namespace| - 1;
          assert a[m] == b[m] || (a[m] in "-_" && b[m] in "-_");
        }
      }
    }
  }

  function RealExtension(e: string): string {
    if e == "pgvector" || e == "vector" then "vector"
    else if e == "vectors" || e == "pgvecto.rs" then "vectors"
    else e
  }

  function NameOf(req: PgRequest, j: nat): string
    requires j < |req.databases|
  {
    RealName(req.appNamespace, req.databases[j].name)
  }

  // ---- The plan ----

  function ExtensionStep(i: nat, dbName: string, names: seq<string>): (ops: seq<Op>)
    ensures |ops| == |names|
    ensures forall k :: 0 <= k < |ops| ==> ops[k] == AddExtension(i, dbName, RealExtension(names[k]))
  {
    seq(|names|, k requires 0 <= k < |names| => AddExtension(i, dbName, RealExtension(names[k])))
  }

  function OpenPlan(i: nat, dbName: string, owner: string): Plan {
    [[CreateDatabase(i, dbName, owner)], [Connect(i, dbName)]]
  }

  function CitusPlan(i: nat, dbName: string, distributed: bool): Plan {
    if distributed then [[AddExtension(i, dbName, CITUS)]] + CoordinatorPlan(i, dbName) else []
  }

  function CoordinatorPlan(i: nat, dbName: string): Plan {
    if i == 0 then [[SetCoordinator(0, dbName)]] else []
  }

  function ExtrasPlan(i: nat, dbName: string, names: seq<string>): Plan {
    if |names| > 0 then [ExtensionStep(i, dbName, names)] else []
  }

  function ScriptsPlan(i: nat, dbName: string, scripts: seq<string>): Plan {
    if |scripts| > 0 then [[RunScript(i, dbName)]] else []
  }

  /** What one database of the request needs on node `i`; nothing on workers unless distributed. */
  function DbPlan(req: PgRequest, i: nat, db: DbSpec): Plan {
    var dbName := RealName(req.appNamespace, db.name);
    if !(db.distributed || i == 0) then []
    else
      OpenPlan(i, dbName, req.user) + CitusPlan(i, dbName, db.distributed)
      + (ExtrasPlan(i, dbName, db.extensions) + ScriptsPlan(i, dbName, db.scripts))
  }

  /** The first `k` databases of the request on node `i`. */
  function DbsPlan(req: PgRequest, i: nat, k: nat): Plan
    requires k <= |req.databases|
  {
    if k == 0 then [] else DbsPlan(req, i, k - 1) + DbPlan(req, i, req.databases[k - 1])
  }

  function UserPlan(req: PgRequest, i: nat): Plan {
    [[SetPassword(i, req.user, req.password)], [LimitConnections(i, req.user)], [GrantFileAccess(i, req.user)]]
  }

  function NodePlan(req: PgRequest, i: nat): Plan {
    [[Connect(i, MAINTENANCE_DB)], [ReadPassword]] + UserPlan(req, i) + DbsPlan(req, i, |req.databases|)
  }

  function NodesPlan(req: PgRequest, n: nat): Plan {
    if n == 0 then [] else NodesPlan(req, n - 1) + NodePlan(req, n - 1)
  }

  function WorkerPlan(req: PgRequest, w: nat, db: DbSpec): Plan {
    if !db.distributed then []
    else
      var dbName := RealName(req.appNamespace, db.name);
      [[Connect(0, dbName)], [AddWorker(dbName, w)]]
  }

  function WorkerDbsPlan(req: PgRequest, w: nat, k: nat): Plan
    requires k <= |req.databases|
  {
    if k == 0 then [] else WorkerDbsPlan(req, w, k - 1) + WorkerPlan(req, w, req.databases[k - 1])
  }

  /** Registers the workers 1, ..., n - 1. */
  function WorkersPlan(req: PgRequest, n: nat): Plan {
    if n <= 1 then [] else WorkersPlan(req, n - 1) + WorkerDbsPlan(req, n - 1, |req.databases|)
  }

  function CreatePlan(req: PgRequest, n: nat): Plan {
    [[FindCluster]] + NodesPlan(req, n) + ([[FindCluster]] + WorkersPlan(req, n))
  }

  // ---- Shape of the plan ----

  /** A step is a single call, or adds extensions to one database. */
  ghost predicate StepShape(ops: seq<Op>) {
    |ops| == 1 || exists i, db :: ExtensionsOf(ops, i, db)
  }

  ghost predicate ExtensionsOf(ops: seq<Op>, i: nat, db: string) {
    forall k :: 0 <= k < |ops| ==> ops[k].AddExtension? && ops[k].node == i && ops[k].database == db
  }

  predicate Uses(op: Op, user: string, password: string) {
    op.SetPassword? ==> op.user == user && op.password == password
  }

  ghost predicate StepUses(ops: seq<Op>, user: string, password: string) {
    forall k :: 0 <= k < |ops| ==> Uses(ops[k], user, password)
  }

  /** Every step has the right shape and the plan sets one password for one user. */
  ghost predicate Shaped(plan: Plan, user: string, password: string) {
    forall k :: 0 <= k < |plan| ==> StepShape(plan[k]) && StepUses(plan[k], user, password)
  }

  lemma ShapedAppend(a: Plan, b: Plan, user: string, password: string)
    requires Shaped(a, user, password) && Shaped(b, user, password)
    ensures Shaped(a + b, user, password)
  {
  }

  lemma ShapedEmpty(user: string, password: string)
    ensures Shaped([], user, password)
  {
  }

  lemma ShapedDbPlan(req: PgRequest, i: nat, db: DbSpec)
    ensures Shaped(DbPlan(req, i, db), req.user, req.password)
  {
    var dbName := RealName(req.appNamespace, db.name);
    assert ExtensionsOf(ExtensionStep(i, dbName, db.extensions), i, dbName);
  }

  lemma {:induction false} ShapedDbsPlan(req: PgRequest, i: nat, k: nat)
    requires k <= |req.databases|
    ensures Shaped(DbsPlan(req, i, k), req.user, req.password)
  {
    if k > 0 {
      ShapedDbsPlan(req, i, k - 1);
      ShapedDbPlan(req, i, req.databases[k - 1]);
      ShapedAppend(DbsPlan(req, i, k - 1), DbPlan(req, i, req.databases[k - 1]), req.user, req.password);
    }
  }

  lemma ShapedNodePlan(req: PgRequest, i: nat)
    ensures Shaped(NodePlan(req, i), req.user, req.password)
  {
    var front: Plan := [[Connect(i, MAINTENANCE_DB)], [ReadPassword]] + UserPlan(req, i);
    ShapedDbsPlan(req, i, |req.databases|);
    ShapedAppend(front, DbsPlan(req, i, |req.databases|), req.user, req.password);
  }

  lemma {:induction false} ShapedNodesPlan(req: PgRequest, n: nat)
    ensures Shaped(NodesPlan(req, n), req.user, req.password)
  {
    hide NodePlan, Shaped;
    ShapedEmpty(req.user, req.password);
    if n > 0 {
      ShapedNodesPlan(req, n - 1);
      ShapedNodePlan(req, n - 1);
      ShapedAppend(NodesPlan(req, n - 1), NodePlan(req, n - 1), req.user, req.password);
    }
  }

  lemma {:induction false} ShapedWorkerDbsPlan(req: PgRequest, w: nat, k: nat)
    requires k <= |req.databases|
    ensures Shaped(WorkerDbsPlan(req, w, k), req.user, req.password)
  {
    if k > 0 {
      ShapedWorkerDbsPlan(req, w, k - 1);
      ShapedAppend(WorkerDbsPlan(req, w, k - 1), WorkerPlan(req, w, req.databases[k - 1]), req.user, req.password);
    }
  }

  lemma {:induction false} ShapedWorkersPlan(req: PgRequest, n: nat)
    ensures Shaped(WorkersPlan(req, n), req.user, req.password)
  {
    if n > 1 {
      ShapedWorkersPlan(req, n - 1);
      ShapedWorkerDbsPlan(req, n - 1, |req.databases|);
      ShapedAppend(WorkersPlan(req, n - 1), WorkerDbsPlan(req, n - 1, |req.databases|), req.user, req.password);
    }
  }

  lemma ShapedCreatePlan(req: PgRequest, n: nat)
    ensures Shaped(CreatePlan(req, n), req.user, req.password)
  {
    ShapedNodesPlan(req, n);
    ShapedWorkersPlan(req, n);
    ShapedAppend([[FindCluster]], NodesPlan(req, n), req.user, req.password);
    ShapedAppend([[FindCluster]], WorkersPlan(req, n), req.user, req.password);
    ShapedAppend([[FindCluster]] + NodesPlan(req, n), [[FindCluster]] + WorkersPlan(req, n), req.user, req.password);
  }

  // ---- Retry: a run that was cut off changes nothing about the destination ----

  predicate AllDone(ops: seq<Op>, c: Cluster) {
    forall k :: 0 <= k < |ops| ==> Done(ops[k], c)
  }

  lemma {:induction false} DoneSurvivesStep(op: Op, ops: seq<Op>, f: Faults, w: World, user: string, password: string)
    requires Done(op, w.cluster) && Uses(op, user, password) && StepUses(ops, user, password)
    ensures Done(op, IssueStep(ops, f, w).world.cluster)
  {
    if ops != [] {
      DoneIsStable(op, ops[0], w.cluster);
      DoneSurvivesStep(op, ops[1..], f, Issue(ops[0], f, w).world, user, password);
    }
  }

  lemma {:induction false} DoneSurvivesRun(op: Op, plan: Plan, f: Faults, w: World, user: string, password: string)
    requires Done(op, w.cluster) && Uses(op, user, password) && Shaped(plan, user, password)
    ensures Done(op, Run(plan, f, w).world.cluster)
  {
    if plan != [] {
      DoneSurvivesStep(op, plan[0], f, w, user, password);
      DoneSurvivesRun(op, plan[1..], f, IssueStep(plan[0], f, w).world, user, password);
    }
  }

  lemma {:induction false} StepLeavesDone(ops: seq<Op>, f: Faults, w: World, user: string, password: string)
    requires IssueStep(ops, f, w).ok && StepUses(ops, user, password)
    ensures AllDone(ops, IssueStep(ops, f, w).world.cluster)
  {
    if ops != [] {
      var next := Issue(ops[0], f, w).world;
      ApplyDone(ops[0], w.cluster);
      DoneSurvivesStep(ops[0], ops[1..], f, next, user, password);
      StepLeavesDone(ops[1..], f, next, user, password);
    }
  }

  lemma {:induction false} AllDoneReplaysToItself(ops: seq<Op>, c: Cluster)
    requires AllDone(ops, c)
    ensures ReplayStep(ops, c) == c
  {
    if ops != [] {
      DoneIsNoOp(ops[0], c);
      AllDoneReplaysToItself(ops[1..], c);
    }
  }

  lemma ExtensionsCommute(i: nat, db: string, e: string, e': string, c: Cluster)
    ensures Apply(AddExtension(i, db, e), Apply(AddExtension(i, db, e'), c)) ==
            Apply(AddExtension(i, db, e'), Apply(AddExtension(i, db, e), c))
  {
    if HasDatabase(c, i, db) {
      var d := c[i].databases[db];
      var a, b := d.(extensions := d.extensions + {e}), d.(extensions := d.extensions + {e'});
      var both := d.(extensions := d.extensions + {e, e'});
      assert a.extensions + {e'} == both.extensions == b.extensions + {e};
      PutTwice(c, i, db, a, both);
      PutTwice(c, i, db, b, both);
      assert Apply(AddExtension(i, db, e'), PutDatabase(c, i, db, a))
          == PutDatabase(PutDatabase(c, i, db, a), i, db, both);
      assert Apply(AddExtension(i, db, e), PutDatabase(c, i, db, b))
          == PutDatabase(PutDatabase(c, i, db, b), i, db, both);
    }
  }

  lemma PutTwice(c: Cluster, i: nat, db: string, y: Database, z: Database)
    requires i < |c|
    ensures PutDatabase(PutDatabase(c, i, db, y), i, db, z) == PutDatabase(c, i, db, z)
  {
    assert c[i].databases[db := y][db := z] == c[i].databases[db := z];
  }

  lemma {:induction false} ExtensionMovesPastStep(op: Op, ops: seq<Op>, c: Cluster, i: nat, db: string)
    requires ExtensionsOf([op], i, db) && ExtensionsOf(ops, i, db)
    ensures ReplayStep(ops, Apply(op, c)) == Apply(op, ReplayStep(ops, c))
  {
    assert [op][0] == op;
    if ops != [] {
      ExtensionsCommute(i, db, op.extension, ops[0].extension, c);
      ExtensionMovesPastStep(op, ops[1..], Apply(ops[0], c), i, db);
    }
  }

  lemma {:induction false} ExtensionStepAbsorbed(ops: seq<Op>, f: Faults, w: World, i: nat, db: string,
                                                 user: string, password: string)
    requires ExtensionsOf(ops, i, db) && StepUses(ops, user, password)
    ensures ReplayStep(ops, IssueStep(ops, f, w).world.cluster) == ReplayStep(ops, w.cluster)
  {
    if ops != [] {
      var op, rest := ops[0], ops[1..];
      var first := Issue(op, f, w);
      var last := IssueStep(rest, f, first.world).world.cluster;
      ExtensionStepAbsorbed(rest, f, first.world, i, db, user, password);
      ExtensionMovesPastStep(op, rest, last, i, db);
      ExtensionMovesPastStep(op, rest, w.cluster, i, db);
      if first.world.cluster != w.cluster {
        ApplyDone(op, w.cluster);
        ExtensionMovesPastStep(op, rest, first.world.cluster, i, db);
        DoneIsNoOp(op, first.world.cluster);
      }
    }
  }

  lemma StepAbsorbed(ops: seq<Op>, f: Faults, w: World, user: string, password: string)
    requires StepShape(ops) && StepUses(ops, user, password)
    ensures ReplayStep(ops, IssueStep(ops, f, w).world.cluster) == ReplayStep(ops, w.cluster)
  {
    if |ops| == 1 {
      var op := ops[0];
      var c' := IssueStep(ops, f, w).world.cluster;
      assert IssueStep(ops[1..], f, Issue(op, f, w).world).world == Issue(op, f, w).world;
      assert forall c :: ReplayStep(ops, c) == ReplayStep(ops[1..], Apply(op, c)) == Apply(op, c);
      if c' != w.cluster {
        ApplyDone(op, w.cluster);
        DoneIsNoOp(op, c');
      }
    } else {
      var i, db :| ExtensionsOf(ops, i, db);
      ExtensionStepAbsorbed(ops, f, w, i, db, user, password);
    }
  }

  /** Wherever a run stops, replaying its plan from there ends where replaying it from the start does. */
  lemma {:induction false} RunAbsorbed(plan: Plan, f: Faults, w: World, user: string, password: string)
    requires Shaped(plan, user, password)
    ensures Replay(plan, Run(plan, f, w).world.cluster) == Replay(plan, w.cluster)
  {
    if plan != [] {
      var step, rest := plan[0], plan[1..];
      var s := IssueStep(step, f, w);
      if s.ok {
        var end := Run(rest, f, s.world).world.cluster;
        StepSuccessIsReplay(step, f, w);
        StepLeavesDone(step, f, w, user, password);
        forall k | 0 <= k < |step| ensures Done(step[k], end) {
          DoneSurvivesRun(step[k], rest, f, s.world, user, password);
        }
        AllDoneReplaysToItself(step, end);
        RunAbsorbed(rest, f, s.world, user, password);
      } else {
        StepAbsorbed(step, f, w, user, password);
      }
    }
  }

  /** Up to `tries` attempts of one request, each from where the last one stopped, until one succeeds. */
  function Attempts(plan: Plan, f: Faults, w: World, tries: nat): Attempt
    decreases tries
  {
    if tries == 0 then Attempt(w, false)
    else
      var a := Run(plan, f, w);
      if a.ok then a else Attempts(plan, f, a.world, tries - 1)
  }

  /** Retry equivalence: however often the request is cut off, and at whichever calls, the attempt
      that succeeds leaves what one undisturbed run from the first state leaves. */
  lemma {:induction false} RetryEquivalence(req: PgRequest, n: nat, f: Faults, w: World, tries: nat)
    requires Attempts(CreatePlan(req, n), f, w, tries).ok
    ensures Attempts(CreatePlan(req, n), f, w, tries).world.cluster == Replay(CreatePlan(req, n), w.cluster)
    decreases tries
  {
    var plan := CreatePlan(req, n);
    var a := Run(plan, f, w);
    if a.ok {
      SuccessIsReplay(plan, f, w);
    } else {
      ShapedCreatePlan(req, n);
      RunAbsorbed(plan, f, w, req.user, req.password);
      RetryEquivalence(req, n, f, a.world, tries - 1);
    }
  }

  // ---- Call order: no call is refused ----

  /** `c'` has at least the roles, databases and extensions of `c`, and keeps its coordinators. */
  ghost predicate Grows(c: Cluster, c': Cluster) {
    && |c'| == |c|
    && (forall i: nat, u :: HasRole(c, i, u) ==> HasRole(c', i, u))
    && (forall i: nat, d :: HasDatabase(c, i, d) ==>
          && HasDatabase(c', i, d)
          && c[i].databases[d].extensions <= c'[i].databases[d].extensions
          && (c[i].databases[d].coordinator.Some? ==> c'[i].databases[d].coordinator.Some?))
  }

  predicate LegalStep(ops: seq<Op>, c: Cluster) {
    ops == [] || (Legal(ops[0], c) && LegalStep(ops[1..], Apply(ops[0], c)))
  }

  predicate LegalPlan(plan: Plan, c: Cluster) {
    plan == [] || (LegalStep(plan[0], c) && LegalPlan(plan[1..], ReplayStep(plan[0], c)))
  }

  lemma ApplyGrows(op: Op, c: Cluster)
    ensures Grows(c, Apply(op, c))
  {
  }

  lemma {:induction false} StepGrows(ops: seq<Op>, c: Cluster)
    ensures Grows(c, ReplayStep(ops, c))
  {
    if ops != [] {
      ApplyGrows(ops[0], c);
      StepGrows(ops[1..], Apply(ops[0], c));
    }
  }

  lemma {:induction false} PlanGrows(plan: Plan, c: Cluster)
    ensures Grows(c, Replay(plan, c))
  {
    if plan != [] {
      StepGrows(plan[0], c);
      PlanGrows(plan[1..], ReplayStep(plan[0], c));
    }
  }

  lemma {:induction false} LegalAppend(a: Plan, b: Plan, c: Cluster)
    requires LegalPlan(a, c) && LegalPlan(b, Replay(a, c))
    ensures LegalPlan(a + b, c)
  {
    if a == [] {
      assert a + b == b;
    } else {
      assert (a + b)[1..] == a[1..] + b;
      LegalAppend(a[1..], b, ReplayStep(a[0], c));
    }
  }

  lemma {:induction false} ExtensionsLegal(ops: seq<Op>, i: nat, db: string, c: Cluster)
    requires ExtensionsOf(ops, i, db) && HasDatabase(c, i, db)
    ensures LegalStep(ops, c)
  {
    if ops != [] {
      ExtensionsLegal(ops[1..], i, db, Apply(ops[0], c));
    }
  }

  /** A one-call step. */
  lemma Single(op: Op, c: Cluster)
    ensures LegalStep([op], c) == Legal(op, c)
    ensures ReplayStep([op], c) == Apply(op, c)
  {
    assert [op][1..] == [];
  }

  lemma SinglePlan(ops: seq<Op>, c: Cluster)
    ensures LegalPlan([ops], c) == LegalStep(ops, c)
    ensures Replay([ops], c) == ReplayStep(ops, c)
  {
    assert [ops][1..] == [];
  }

  lemma OneCall(op: Op, c: Cluster)
    ensures LegalPlan([[op]], c) == Legal(op, c)
    ensures Replay([[op]], c) == Apply(op, c)
  {
    Single(op, c);
    SinglePlan([op], c);
  }

  lemma TwoCalls(a: Op, b: Op, c: Cluster)
    ensures LegalPlan([[a], [b]], c) == (Legal(a, c) && Legal(b, Apply(a, c)))
    ensures Replay([[a], [b]], c) == Apply(b, Apply(a, c))
  {
    OneCall(b, Apply(a, c));
    Single(a, c);
    assert [[a], [b]][1..] == [[b]];
  }

  /** The database is ready for its workers on node `i`. */
  predicate CitusReady(c: Cluster, i: nat, dbName: string) {
    HasExtension(c, i, dbName, CITUS) && (i == 0 ==> c[0].databases[dbName].coordinator.Some?)
  }

  lemma ReadyStays(i: nat, dbName: string, c: Cluster, c': Cluster)
    requires CitusReady(c, i, dbName) && Grows(c, c')
    ensures CitusReady(c', i, dbName)
  {
    assert HasDatabase(c, i, dbName);
  }

  lemma Then(a: Plan, b: Plan, c: Cluster)
    requires LegalPlan(a, c) && LegalPlan(b, Replay(a, c))
    ensures LegalPlan(a + b, c) && Replay(a + b, c) == Replay(b, Replay(a, c))
  {
    LegalAppend(a, b, c);
    ReplayAppend(a, b, c);
  }

  lemma OpenPlanLegal(i: nat, dbName: string, owner: string, c: Cluster)
    requires HasRole(c, i, owner)
    ensures LegalPlan(OpenPlan(i, dbName, owner), c)
    ensures HasDatabase(Replay(OpenPlan(i, dbName, owner), c), i, dbName)
  {
    TwoCalls(CreateDatabase(i, dbName, owner), Connect(i, dbName), c);
  }

  lemma CitusPlanLegal(i: nat, dbName: string, distributed: bool, c: Cluster)
    requires HasDatabase(c, i, dbName)
    ensures LegalPlan(CitusPlan(i, dbName, distributed), c)
    ensures distributed ==> CitusReady(Replay(CitusPlan(i, dbName, distributed), c), i, dbName)
  {
    if distributed {
      if i == 0 {
        TwoCalls(AddExtension(i, dbName, CITUS), SetCoordinator(0, dbName), c);
        assert CitusPlan(i, dbName, distributed) == [[AddExtension(i, dbName, CITUS)], [SetCoordinator(0, dbName)]];
      } else {
        OneCall(AddExtension(i, dbName, CITUS), c);
        assert CitusPlan(i, dbName, distributed) == [[AddExtension(i, dbName, CITUS)]];
      }
    }
  }

  lemma ExtrasLegal(i: nat, dbName: string, db: DbSpec, c: Cluster)
    requires HasDatabase(c, i, dbName)
    ensures LegalPlan(ExtrasPlan(i, dbName, db.extensions) + ScriptsPlan(i, dbName, db.scripts), c)
  {
    var a, b := ExtrasPlan(i, dbName, db.extensions), ScriptsPlan(i, dbName, db.scripts);
    ExtensionsLegal(ExtensionStep(i, dbName, db.extensions), i, dbName, c);
    SinglePlan(ExtensionStep(i, dbName, db.extensions), c);
    PlanGrows(a, c);
    OneCall(RunScript(i, dbName), Replay(a, c));
    Then(a, b, c);
  }

  lemma DbPlanLegal(req: PgRequest, i: nat, db: DbSpec, c: Cluster)
    requires HasRole(c, i, req.user)
    ensures LegalPlan(DbPlan(req, i, db), c)
    ensures db.distributed ==> CitusReady(Replay(DbPlan(req, i, db), c), i, RealName(req.appNamespace, db.name))
  {
    if db.distributed || i == 0 {
      var dbName := RealName(req.appNamespace, db.name);
      var a, b := OpenPlan(i, dbName, req.user), CitusPlan(i, dbName, db.distributed);
      var d := ExtrasPlan(i, dbName, db.extensions) + ScriptsPlan(i, dbName, db.scripts);
      OpenPlanLegal(i, dbName, req.user, c);
      PlanGrows(b, Replay(a, c));
      CitusPlanLegal(i, dbName, db.distributed, Replay(a, c));
      Then(a, b, c);
      var c' := Replay(a + b, c);
      ExtrasLegal(i, dbName, db, c');
      PlanGrows(d, c');
      Then(a + b, d, c);
    }
  }

  lemma {:induction false} DbsPlanLegal(req: PgRequest, i: nat, k: nat, c: Cluster)
    requires k <= |req.databases| && HasRole(c, i, req.user)
    ensures LegalPlan(DbsPlan(req, i, k), c)
    ensures forall j :: 0 <= j < k && req.databases[j].distributed ==>
              CitusReady(Replay(DbsPlan(req, i, k), c), i, NameOf(req, j))
  {
    if k > 0 {
      DbsPlanLegal(req, i, k - 1, c);
      var c' := Replay(DbsPlan(req, i, k - 1), c);
      PlanGrows(DbsPlan(req, i, k - 1), c);
      DbPlanLegal(req, i, req.databases[k - 1], c');
      Then(DbsPlan(req, i, k - 1), DbPlan(req, i, req.databases[k - 1]), c);
      var last := Replay(DbPlan(req, i, req.databases[k - 1]), c');
      PlanGrows(DbPlan(req, i, req.databases[k - 1]), c');
      forall j | 0 <= j < k - 1 && req.databases[j].distributed ensures CitusReady(last, i, NameOf(req, j)) {
        ReadyStays(i, NameOf(req, j), c', last);
      }
    }
  }

  lemma UserCalls(req: PgRequest, i: nat, c: Cluster)
    requires i < |c| && req.user != ""
    ensures var c1 := Apply(SetPassword(i, req.user, req.password), c);
            var c2 := Apply(LimitConnections(i, req.user), c1);
            && Legal(SetPassword(i, req.user, req.password), c)
            && Legal(LimitConnections(i, req.user), c1)
            && Legal(GrantFileAccess(i, req.user), c2)
            && Apply(GrantFileAccess(i, req.user), c2) ==
               PutRole(c, i, req.user, Role(req.password, Some(CONNECTION_LIMIT), true))
  {
    var r0 := if HasRole(c, i, req.user) then c[i].roles[req.user] else Role("", None, false);
    var r1 := r0.(password := req.password);
    var r2 := r1.(connectionLimit := Some(CONNECTION_LIMIT));
    var r3 := Role(req.password, Some(CONNECTION_LIMIT), true);
    var c1 := Apply(SetPassword(i, req.user, req.password), c);
    assert c1 == PutRole(c, i, req.user, r1);
    PutRoleTwice(c, i, req.user, r1, r2);
    PutRoleTwice(c, i, req.user, r2, r3);
  }

  lemma PutRoleTwice(c: Cluster, i: nat, user: string, y: Role, z: Role)
    requires i < |c|
    ensures PutRole(PutRole(c, i, user, y), i, user, z) == PutRole(c, i, user, z)
  {
    assert c[i].roles[user := y][user := z] == c[i].roles[user := z];
  }

  lemma UserPlanLegal(req: PgRequest, i: nat, c: Cluster)
    requires i < |c| && req.user != ""
    ensures LegalPlan(UserPlan(req, i), c)
    ensures Replay(UserPlan(req, i), c) ==
            PutRole(c, i, req.user, Role(req.password, Some(CONNECTION_LIMIT), true))
  {
    hide Legal, Apply, PutRole;
    var a, b := SetPassword(i, req.user, req.password), LimitConnections(i, req.user);
    var d := GrantFileAccess(i, req.user);
    UserCalls(req, i, c);
    OneCall(a, c);
    TwoCalls(b, d, Apply(a, c));
    Then([[a]], [[b], [d]], c);
    assert UserPlan(req, i) == [[a]] + [[b], [d]];
  }

  lemma NodePlanLegal(req: PgRequest, i: nat, c: Cluster)
    requires i < |c| && req.user != ""
    ensures LegalPlan(NodePlan(req, i), c)
    ensures forall j :: 0 <= j < |req.databases| && req.databases[j].distributed ==>
              CitusReady(Replay(NodePlan(req, i), c), i, NameOf(req, j))
  {
    var p0: Plan := [[Connect(i, MAINTENANCE_DB)], [ReadPassword]];
    var p1, p2 := UserPlan(req, i), DbsPlan(req, i, |req.databases|);
    TwoCalls(Connect(i, MAINTENANCE_DB), ReadPassword, c);
    UserPlanLegal(req, i, c);
    LegalAppend(p0, p1, c);
    ReplayAppend(p0, p1, c);
    DbsPlanLegal(req, i, |req.databases|, Replay(p0 + p1, c));
    LegalAppend(p0 + p1, p2, c);
    ReplayAppend(p0 + p1, p2, c);
  }

  lemma NoNodesLegal(req: PgRequest, c: Cluster)
    ensures LegalPlan(NodesPlan(req, 0), c) && AllReady(req, 0, Replay(NodesPlan(req, 0), c))
  {
  }

  lemma NodePlanReady(req: PgRequest, n: nat, c: Cluster)
    requires 0 < n <= |c| && req.user != "" && AllReady(req, n - 1, c)
    ensures LegalPlan(NodePlan(req, n - 1), c)
    ensures AllReady(req, n, Replay(NodePlan(req, n - 1), c))
  {
    hide NodePlan, LegalPlan, Replay, CitusReady, NameOf;
    NodePlanLegal(req, n - 1, c);
    PlanGrows(NodePlan(req, n - 1), c);
    ReadyGrows(req, n - 1, c, Replay(NodePlan(req, n - 1), c));
  }

  lemma {:induction false} NodesPlanLegal(req: PgRequest, n: nat, c: Cluster)
    requires n <= |c| && req.user != ""
    ensures LegalPlan(NodesPlan(req, n), c)
    ensures AllReady(req, n, Replay(NodesPlan(req, n), c))
  {
    hide NodePlan, LegalPlan, Replay, AllReady;
    NoNodesLegal(req, c);
    if n > 0 {
      NodesPlanLegal(req, n - 1, c);
      NodePlanReady(req, n, Replay(NodesPlan(req, n - 1), c));
      Then(NodesPlan(req, n - 1), NodePlan(req, n - 1), c);
    }
  }

  /** Every distributed database is ready on the master and on every worker. */
  ghost predicate AllReady(req: PgRequest, n: nat, c: Cluster) {
    forall i, j :: 0 <= i < n && 0 <= j < |req.databases| && req.databases[j].distributed ==>
      CitusReady(c, i, NameOf(req, j))
  }

  lemma ReadyGrows(req: PgRequest, n: nat, c: Cluster, c': Cluster)
    requires AllReady(req, n, c) && Grows(c, c')
    ensures AllReady(req, n, c')
  {
    forall i, j | 0 <= i < n && 0 <= j < |req.databases| && req.databases[j].distributed
      ensures CitusReady(c', i, NameOf(req, j))
    {
      ReadyStays(i, NameOf(req, j), c, c');
    }
  }

  lemma WorkerPlanLegal(req: PgRequest, w: nat, n: nat, k: nat, c: Cluster)
    requires k < |req.databases| && 0 < w < n && AllReady(req, n, c)
    ensures LegalPlan(WorkerPlan(req, w, req.databases[k]), c)
  {
    var name := NameOf(req, k);
    if req.databases[k].distributed {
      assert CitusReady(c, 0, name) && CitusReady(c, w, name);
      TwoCalls(Connect(0, name), AddWorker(name, w), c);
    }
  }

  lemma {:induction false} WorkerDbsPlanLegal(req: PgRequest, w: nat, n: nat, k: nat, c: Cluster)
    requires k <= |req.databases| && 0 < w < n && AllReady(req, n, c)
    ensures LegalPlan(WorkerDbsPlan(req, w, k), c)
  {
    hide WorkerPlan, AllReady, Replay, LegalStep;
    if k > 0 {
      WorkerDbsPlanLegal(req, w, n, k - 1, c);
      var c' := Replay(WorkerDbsPlan(req, w, k - 1), c);
      PlanGrows(WorkerDbsPlan(req, w, k - 1), c);
      ReadyGrows(req, n, c, c');
      WorkerPlanLegal(req, w, n, k - 1, c');
      LegalAppend(WorkerDbsPlan(req, w, k - 1), WorkerPlan(req, w, req.databases[k - 1]), c);
    }
  }

  lemma {:induction false} WorkersPlanLegal(req: PgRequest, m: nat, n: nat, c: Cluster)
    requires m <= n && AllReady(req, n, c)
    ensures LegalPlan(WorkersPlan(req, m), c)
  {
    if m > 1 {
      WorkersPlanLegal(req, m - 1, n, c);
      var c' := Replay(WorkersPlan(req, m - 1), c);
      PlanGrows(WorkersPlan(req, m - 1), c);
      ReadyGrows(req, n, c, c');
      WorkerDbsPlanLegal(req, m - 1, n, |req.databases|, c');
      LegalAppend(WorkersPlan(req, m - 1), WorkerDbsPlan(req, m - 1, |req.databases|), c);
    }
  }

  lemma CreatePlanLegal(req: PgRequest, n: nat, c: Cluster)
    requires n <= |c| && req.user != ""
    ensures LegalPlan(CreatePlan(req, n), c)
  {
    OneCall(FindCluster, c);
    NodesPlanLegal(req, n, c);
    LegalAppend([[FindCluster]], NodesPlan(req, n), c);
    ReplayAppend([[FindCluster]], NodesPlan(req, n), c);
    var c1 := Replay([[FindCluster]] + NodesPlan(req, n), c);
    OneCall(FindCluster, c1);
    WorkersPlanLegal(req, n, n, c1);
    LegalAppend([[FindCluster]], WorkersPlan(req, n), c1);
    LegalAppend([[FindCluster]] + NodesPlan(req, n), [[FindCluster]] + WorkersPlan(req, n), c);
  }

  // ---- Which calls are refused ----

  /** Some query of the step missed an existing object, and a server was asked to create it again. */
  predicate MisledInStep(ops: seq<Op>, f: Faults, w: World) {
    ops != [] && (Misled(ops[0], f, w) || MisledInStep(ops[1..], f, Issue(ops[0], f, w).world))
  }

  predicate MisledInRun(plan: Plan, f: Faults, w: World) {
    plan != [] &&
    (var step := IssueStep(plan[0], f, w);
     MisledInStep(plan[0], f, w) || (step.ok && MisledInRun(plan[1..], f, step.world)))
  }

  predicate MisledInAttempts(plan: Plan, f: Faults, w: World, tries: nat)
    decreases tries
  {
    tries > 0 &&
    (var a := Run(plan, f, w);
     MisledInRun(plan, f, w) || (!a.ok && MisledInAttempts(plan, f, a.world, tries - 1)))
  }

  lemma {:induction false} ExtensionStepNotRefused(ops: seq<Op>, f: Faults, w: World, i: nat, db: string)
    requires ExtensionsOf(ops, i, db) && HasDatabase(w.cluster, i, db)
    ensures IssueStep(ops, f, w).world.refused == w.refused && !MisledInStep(ops, f, w)
  {
    if ops != [] {
      ExtensionStepNotRefused(ops[1..], f, Issue(ops[0], f, w).world, i, db);
    }
  }

  lemma ExtensionsNeedDatabase(ops: seq<Op>, c: Cluster, i: nat, db: string)
    requires ops != [] && ExtensionsOf(ops, i, db) && LegalStep(ops, c)
    ensures HasDatabase(c, i, db)
  {
  }

  lemma OneCallRefused(op: Op, f: Faults, w: World)
    requires Legal(op, w.cluster)
    ensures IssueStep([op], f, w).world.refused == (w.refused || MisledInStep([op], f, w))
  {
    OneIssue(op, f, w);
    RefusedWhenMisled(op, f, w);
    assert [op][1..] == [];
  }

  lemma {:induction false} LegalPlanRefusals(plan: Plan, f: Faults, w: World, user: string, password: string)
    requires Shaped(plan, user, password) && LegalPlan(plan, w.cluster)
    ensures Run(plan, f, w).world.refused == (w.refused || MisledInRun(plan, f, w))
  {
    hide Legal, Apply, Misled, Issue, IssueStep, MisledInStep;
    if plan != [] {
      var step := plan[0];
      if |step| == 1 {
        assert step == [step[0]];
        OneCallRefused(step[0], f, w);
      } else if |step| > 0 {
        var i, db :| ExtensionsOf(step, i, db);
        ExtensionsNeedDatabase(step, w.cluster, i, db);
        ExtensionStepNotRefused(step, f, w, i, db);
      } else {
        NothingRefused(f, w);
      }
      if IssueStep(step, f, w).ok {
        StepSuccessIsReplay(step, f, w);
        LegalPlanRefusals(plan[1..], f, IssueStep(step, f, w).world, user, password);
      }
    }
  }

  lemma NothingRefused(f: Faults, w: World)
    ensures IssueStep([], f, w).world.refused == w.refused && !MisledInStep([], f, w)
  {
  }

  /** Citus call order: from any state of the cluster, under any failures and over all attempts, a
      server refuses a call exactly if a query for a role or database was cut short, read as if
      there were none, and the creation that followed arrived.  No call is refused for coming too
      early: roles exist before they are altered or own a database, databases before anything is
      done in them, and a worker is registered only where both copies carry the citus extension and
      the coordinator is set. */
  lemma {:induction false} RefusedExactlyWhenMisled(req: PgRequest, n: nat, f: Faults, w: World, tries: nat)
    requires n <= |w.cluster| && req.user != ""
    ensures Attempts(CreatePlan(req, n), f, w, tries).world.refused ==
            (w.refused || MisledInAttempts(CreatePlan(req, n), f, w, tries))
    decreases tries
  {
    if tries > 0 {
      var plan := CreatePlan(req, n);
      ShapedCreatePlan(req, n);
      CreatePlanLegal(req, n, w.cluster);
      LegalPlanRefusals(plan, f, w, req.user, req.password);
      RunKeepsSize(plan, f, w);
      RefusedExactlyWhenMisled(req, n, f, Run(plan, f, w).world, tries - 1);
    }
  }

  lemma {:induction false} StepNotMisled(ops: seq<Op>, f: Faults, w: World)
    requires forall t :: !f(t).CutShort?
    ensures !MisledInStep(ops, f, w)
  {
    if ops != [] {
      StepNotMisled(ops[1..], f, Issue(ops[0], f, w).world);
    }
  }

  lemma {:induction false} RunNotMisled(plan: Plan, f: Faults, w: World)
    requires forall t :: !f(t).CutShort?
    ensures !MisledInRun(plan, f, w)
  {
    if plan != [] {
      StepNotMisled(plan[0], f, w);
      RunNotMisled(plan[1..], f, IssueStep(plan[0], f, w).world);
    }
  }

  /** Without answers cut short no call is ever refused. */
  lemma {:induction false} NeverRefused(req: PgRequest, n: nat, f: Faults, w: World, tries: nat)
    requires n <= |w.cluster| && req.user != "" && forall t :: !f(t).CutShort?
    ensures Attempts(CreatePlan(req, n), f, w, tries).world.refused == w.refused
    decreases tries
  {
    if tries > 0 {
      var plan := CreatePlan(req, n);
      RunKeepsSize(plan, f, w);
      NeverRefused(req, n, f, Run(plan, f, w).world, tries - 1);
      RunNotMisled(plan, f, w);
      ShapedCreatePlan(req, n);
      CreatePlanLegal(req, n, w.cluster);
      LegalPlanRefusals(plan, f, w, req.user, req.password);
    }
  }

  /** A query that misleads: the role is there, the answer breaks off before its row, and the server
      is asked to create the role again.  The attempt fails and leaves the cluster as it was. */
  lemma LookupCanMislead(c: Cluster, i: nat, user: string, password: string)
    requires HasRole(c, i, user) && user != ""
    ensures var f: Faults := t => if t == 0 then CutShort({}) else Answered;
            var r := Run([[SetPassword(i, user, password)]], f, World(c, 0, false));
            r == Attempt(World(c, 2, true), false)
  {
    var f: Faults := t => if t == 0 then CutShort({}) else Answered;
    OneIssue(SetPassword(i, user, password), f, World(c, 0, false));
  }

  /** The same for a database. */
  lemma DatabaseLookupCanMislead(c: Cluster, i: nat, db: string, owner: string)
    requires HasDatabase(c, i, db)
    ensures var f: Faults := t => if t == 0 then CutShort({}) else Answered;
            var r := Run([[CreateDatabase(i, db, owner)]], f, World(c, 0, false));
            r == Attempt(World(c, 2, true), false)
  {
    var f: Faults := t => if t == 0 then CutShort({}) else Answered;
    OneIssue(CreateDatabase(i, db, owner), f, World(c, 0, false));
  }

  // ---- Runs that succeed ----

  /** A legal op fails only because one of its calls does, or because its query misled it. */
  lemma LegalIssueFails(op: Op, f: Faults, w: World)
    requires Legal(op, w.cluster) && !Issue(op, f, w).ok
    ensures Misled(op, f, w) || Failing(f, w.clock, Issue(op, f, w).world.clock)
    ensures Disturbed(f, w.clock, Issue(op, f, w).world.clock)
  {
    assert f(w.clock) != Answered || f(w.clock + 1) != Answered;
  }

  lemma {:induction false} StepFails(ops: seq<Op>, f: Faults, w: World)
    requires LegalStep(ops, w.cluster) && !IssueStep(ops, f, w).ok
    ensures MisledInStep(ops, f, w) || Failing(f, w.clock, IssueStep(ops, f, w).world.clock)
    ensures Disturbed(f, w.clock, IssueStep(ops, f, w).world.clock)
  {
    hide Legal, Apply, Misled, Issue;
    var first := Issue(ops[0], f, w);
    StepKeepsSize(ops[1..], f, first.world);
    if first.ok {
      StepFails(ops[1..], f, first.world);
    } else {
      LegalIssueFails(ops[0], f, w);
    }
  }

  /** A run of a legal plan fails only because a call does, or because a query misled it. */
  lemma {:induction false} LegalPlanFails(plan: Plan, f: Faults, w: World)
    requires LegalPlan(plan, w.cluster) && !Run(plan, f, w).ok
    ensures MisledInRun(plan, f, w) || Failing(f, w.clock, Run(plan, f, w).world.clock)
    ensures Disturbed(f, w.clock, Run(plan, f, w).world.clock)
  {
    hide LegalStep, IssueStep, MisledInStep;
    var step := IssueStep(plan[0], f, w);
    StepKeepsSize(plan[0], f, w);
    if step.ok {
      StepSuccessIsReplay(plan[0], f, w);
      LegalPlanFails(plan[1..], f, step.world);
    } else {
      StepFails(plan[0], f, w);
    }
  }

  /** Every call from this time on simply works. */
  ghost predicate Quiet(f: Faults, from: nat) {
    forall t: nat :: from <= t ==> f(t) == Answered
  }

  /** An undisturbed run succeeds, from every state of the cluster, and leaves what the plan says. */
  lemma UndisturbedSucceeds(req: PgRequest, n: nat, f: Faults, w: World)
    requires n <= |w.cluster| && req.user != "" && Quiet(f, w.clock)
    ensures Run(CreatePlan(req, n), f, w).ok
    ensures Run(CreatePlan(req, n), f, w).world.cluster == Replay(CreatePlan(req, n), w.cluster)
  {
    CreatePlanLegal(req, n, w.cluster);
    if !Run(CreatePlan(req, n), f, w).ok {
      LegalPlanFails(CreatePlan(req, n), f, w);
      assert false;
    }
    SuccessIsReplay(CreatePlan(req, n), f, w);
  }

  /** Retry equivalence between runs: what the attempt that succeeds leaves, however often and wherever
      the earlier ones were cut off, is what one undisturbed run from the first state leaves. */
  lemma RetryMatchesUndisturbedRun(req: PgRequest, n: nat, f: Faults, quiet: Faults, w: World, tries: nat)
    requires n <= |w.cluster| && req.user != "" && Quiet(quiet, w.clock)
    requires Attempts(CreatePlan(req, n), f, w, tries).ok
    ensures Run(CreatePlan(req, n), quiet, w).ok
    ensures Attempts(CreatePlan(req, n), f, w, tries).world.cluster ==
            Run(CreatePlan(req, n), quiet, w).world.cluster
  {
    UndisturbedSucceeds(req, n, quiet, w);
    RetryEquivalence(req, n, f, w, tries);
  }

  /** Once the failures end, so do the attempts. */
  lemma {:induction false} EventuallySucceeds(req: PgRequest, n: nat, f: Faults, w: World, horizon: nat, tries: nat)
    requires n <= |w.cluster| && req.user != "" && Quiet(f, horizon)
    requires tries > 0 && w.clock + tries > horizon
    ensures Attempts(CreatePlan(req, n), f, w, tries).ok
    decreases tries
  {
    hide Run, CreatePlan;
    var plan := CreatePlan(req, n);
    var a := Run(plan, f, w);
    if w.clock >= horizon {
      UndisturbedSucceeds(req, n, f, w);
    } else if !a.ok {
      RunKeepsSize(plan, f, w);
      FailureTakesTime(req, n, f, w);
      EventuallySucceeds(req, n, f, a.world, horizon, tries - 1);
    }
  }

  lemma FailureTakesTime(req: PgRequest, n: nat, f: Faults, w: World)
    ensures Run(CreatePlan(req, n), f, w).world.clock > w.clock
  {
    var plan := CreatePlan(req, n);
    var rest := plan[1..];
    assert plan[0] == [FindCluster];
    OneIssue(FindCluster, f, w);
    var step := IssueStep(plan[0], f, w);
    assert step.world.clock > w.clock;
    RunKeepsSize(rest, f, step.world);
  }

  lemma {:induction false} StepKeepsSize(ops: seq<Op>, f: Faults, w: World)
    ensures |IssueStep(ops, f, w).world.cluster| == |w.cluster| && IssueStep(ops, f, w).world.clock >= w.clock
  {
    if ops != [] {
      StepKeepsSize(ops[1..], f, Issue(ops[0], f, w).world);
    }
  }

  lemma {:induction false} RunKeepsSize(plan: Plan, f: Faults, w: World)
    ensures |Run(plan, f, w).world.cluster| == |w.cluster| && Run(plan, f, w).world.clock >= w.clock
  {
    if plan != [] {
      StepKeepsSize(plan[0], f, w);
      RunKeepsSize(plan[1..], f, IssueStep(plan[0], f, w).world);
    }
  }

  /** Without a user name every attempt on a non-empty cluster fails and leaves the cluster alone. */
  lemma NoUserChangesNothing(req: PgRequest, n: nat, f: Faults, w: World)
    requires 0 < n <= |w.cluster| && req.user == ""
    ensures !Run(CreatePlan(req, n), f, w).ok
    ensures Run(CreatePlan(req, n), f, w).world.cluster == w.cluster
  {
    var head: Plan := [[FindCluster], [Connect(0, "postgres")], [ReadPassword], [SetPassword(0, "", req.password)]];
    NodesPlanStartsAtZero(req, n);
    assert head <= CreatePlan(req, n);
    var tail := CreatePlan(req, n)[4..];
    assert CreatePlan(req, n) == head + tail;
    RunAppend(head, tail, f, w);
    FourCallsStop(head, f, w);
  }

  lemma {:induction false} NodesPlanStartsAtZero(req: PgRequest, n: nat)
    requires n > 0
    ensures NodePlan(req, 0) <= NodesPlan(req, n)
  {
    if n == 1 {
      assert NodesPlan(req, 0) == [];
    } else {
      NodesPlanStartsAtZero(req, n - 1);
    }
  }

  lemma FourCallsStop(head: Plan, f: Faults, w: World)
    requires |w.cluster| > 0
    requires exists password ::
               head == [[FindCluster], [Connect(0, "postgres")], [ReadPassword], [SetPassword(0, "", password)]]
    ensures !Run(head, f, w).ok && Run(head, f, w).world.cluster == w.cluster
  {
    var w1 := IssueStep(head[0], f, w);
    OneIssue(head[0][0], f, w);
    if w1.ok {
      OneIssue(head[1][0], f, w1.world);
      var w2 := IssueStep(head[1], f, w1.world);
      if w2.ok {
        OneIssue(head[2][0], f, w2.world);
        var w3 := IssueStep(head[2], f, w2.world);
        if w3.ok {
          OneIssue(head[3][0], f, w3.world);
          assert Run(head[3..], f, w3.world) == IssueStep(head[3], f, w3.world);
        }
        assert head[2..][1..] == head[3..];
        assert Run(head[2..], f, w2.world) == if w3.ok then Run(head[3..], f, w3.world) else w3;
      }
      assert head[1..][1..] == head[2..];
      assert Run(head[1..], f, w1.world) == if w2.ok then Run(head[2..], f, w2.world) else w2;
    }
  }

  lemma OneIssue(op: Op, f: Faults, w: World)
    ensures IssueStep([op], f, w) == Issue(op, f, w)
  {
    assert [op][1..] == [];
  }
}
