/**
 The PostgreSQL/Citus cluster as the operator sees it, the calls it sends to it, and what a
 run of calls does when any call may fail.  A host name is `<set>-<index>.citus-headless.<ns>`,
 so a node is identified with its index.
 */
module PgState {
  import opened Wrappers
  import opened Calls

  datatype Role = Role(password: string, connectionLimit: Option<int>, fileAccess: bool)

  datatype Database = Database(
    owner: string, extensions: set<string>, coordinator: Option<nat>, workers: set<nat>)

  datatype Node = Node(roles: map<string, Role>, databases: map<string, Database>)

  type Cluster = seq<Node>

  const CONNECTION_LIMIT := 30
  const CITUS := "citus"
  const MAINTENANCE_DB := "postgres"

  /** What the handlers ask for.  Setting a password and creating a database are a query for the role
      or database followed by a statement; the others are one call. */
  datatype Op =
    | FindCluster
    | ReadPassword
    | Connect(node: nat, database: string)
    | SetPassword(node: nat, user: string, password: string)
    | LimitConnections(node: nat, user: string)
    | GrantFileAccess(node: nat, user: string)
    | CreateDatabase(node: nat, database: string, owner: string)
    | AddExtension(node: nat, database: string, extension: string)
    | SetCoordinator(node: nat, database: string)
    | RunScript(node: nat, database: string)
    | AddWorker(database: string, worker: nat)

  predicate HasDatabase(c: Cluster, i: nat, db: string) {
    i < |c| && db in c[i].databases
  }

  predicate HasExtension(c: Cluster, i: nat, db: string, e: string) {
    HasDatabase(c, i, db) && e in c[i].databases[db].extensions
  }

  predicate HasRole(c: Cluster, i: nat, user: string) {
    i < |c| && user in c[i].roles
  }

  /** What the servers accept; a refused call changes nothing. */
  predicate Legal(op: Op, c: Cluster) {
    match op
    case FindCluster => true
    case ReadPassword => true
    case Connect(i, db) => i < |c| && (db == MAINTENANCE_DB || HasDatabase(c, i, db))
    case SetPassword(i, user, _) => i < |c| && user != ""
    case LimitConnections(i, user) => HasRole(c, i, user)
    case GrantFileAccess(i, user) => HasRole(c, i, user)
    case CreateDatabase(i, db, owner) => i < |c| && (HasDatabase(c, i, db) || HasRole(c, i, owner))
    case AddExtension(i, db, _) => HasDatabase(c, i, db)
    case SetCoordinator(i, db) => HasExtension(c, i, db, CITUS)
    case RunScript(i, db) => HasDatabase(c, i, db)
    case AddWorker(db, w) =>
      && HasExtension(c, 0, db, CITUS)
      && HasExtension(c, w, db, CITUS)
      && c[0].databases[db].coordinator.Some?
  }

  function PutRole(c: Cluster, i: nat, user: string, role: Role): Cluster
    requires i < |c|
  {
    c[i := c[i].(roles := c[i].roles[user := role])]
  }

  function PutDatabase(c: Cluster, i: nat, db: string, database: Database): Cluster
    requires i < |c|
  {
    c[i := c[i].(databases := c[i].databases[db := database])]
  }

  function Apply(op: Op, c: Cluster): (c': Cluster)
    ensures |c'| == |c|
  {
    if !Legal(op, c) then c
    else
      match op
      case SetPassword(i, user, password) =>
        PutRole(c, i, user,
                if HasRole(c, i, user) then c[i].roles[user].(password := password)
                else Role(password, None, false))
      case LimitConnections(i, user) =>
        PutRole(c, i, user, c[i].roles[user].(connectionLimit := Some(CONNECTION_LIMIT)))
      case GrantFileAccess(i, user) =>
        PutRole(c, i, user, c[i].roles[user].(fileAccess := true))
      case CreateDatabase(i, db, owner) =>
        if HasDatabase(c, i, db) then c else PutDatabase(c, i, db, Database(owner, {}, None, {}))
      case AddExtension(i, db, e) =>
        var d := c[i].databases[db];
        PutDatabase(c, i, db, d.(extensions := d.extensions + {e}))
      case SetCoordinator(i, db) =>
        PutDatabase(c, i, db, c[i].databases[db].(coordinator := Some(i)))
      case AddWorker(db, w) =>
        var d := c[0].databases[db];
        PutDatabase(c, 0, db, d.(workers := d.workers + {w}))
      case _ => c
  }

  /** What holds once a call has taken effect. */
  predicate Done(op: Op, c: Cluster) {
    match op
    case SetPassword(i, user, password) => HasRole(c, i, user) && c[i].roles[user].password == password
    case LimitConnections(i, user) =>
      HasRole(c, i, user) && c[i].roles[user].connectionLimit == Some(CONNECTION_LIMIT)
    case GrantFileAccess(i, user) => HasRole(c, i, user) && c[i].roles[user].fileAccess
    case CreateDatabase(i, db, _) => HasDatabase(c, i, db)
    case AddExtension(i, db, e) => HasExtension(c, i, db, e)
    case SetCoordinator(i, db) => HasDatabase(c, i, db) && c[i].databases[db].coordinator == Some(i)
    case AddWorker(db, w) => HasDatabase(c, 0, db) && w in c[0].databases[db].workers
    case _ => true
  }

  /** Two calls that do not fight over one role's password. */
  predicate Compatible(a: Op, b: Op) {
    a.SetPassword? && b.SetPassword? && a.node == b.node && a.user == b.user ==> a.password == b.password
  }

  lemma ApplyDone(op: Op, c: Cluster)
    requires Legal(op, c)
    ensures Done(op, Apply(op, c))
  {
  }

  lemma DoneIsNoOp(op: Op, c: Cluster)
    requires Done(op, c)
    ensures Apply(op, c) == c
  {
    if Legal(op, c) {
      match op
      case SetPassword(i, user, _) =>
        assert c[i].roles[user := c[i].roles[user]] == c[i].roles;
      case LimitConnections(i, user) =>
        assert c[i].roles[user := c[i].roles[user]] == c[i].roles;
      case GrantFileAccess(i, user) =>
        assert c[i].roles[user := c[i].roles[user]] == c[i].roles;
      case AddExtension(i, db, e) =>
        var d := c[i].databases[db];
        assert d.(extensions := d.extensions + {e}) == d by { assert d.extensions + {e} == d.extensions; }
        assert c[i].databases[db := d] == c[i].databases;
      case SetCoordinator(i, db) =>
        assert c[i].databases[db := c[i].databases[db]] == c[i].databases;
      case AddWorker(db, w) =>
        var d := c[0].databases[db];
        assert d.(workers := d.workers + {w}) == d by { assert d.workers + {w} == d.workers; }
        assert c[0].databases[db := d] == c[0].databases;
      case _ =>
    }
  }

  lemma DoneIsStable(op: Op, other: Op, c: Cluster)
    requires Done(op, c) && Compatible(op, other)
    ensures Done(op, Apply(other, c))
  {
  }

  // ---- Plans, and runs of plans in which calls fail ----

  /** A plan is a list of steps.  The calls of one step are all tried, whatever happens to the
      earlier ones, and the step succeeds when all of them did; a failed step ends the run. */
  type Plan = seq<seq<Op>>

  function ReplayStep(ops: seq<Op>, c: Cluster): (c': Cluster)
    ensures |c'| == |c|
  {
    if ops == [] then c else ReplayStep(ops[1..], Apply(ops[0], c))
  }

  /** The plan with no failure. */
  function Replay(plan: Plan, c: Cluster): (c': Cluster)
    ensures |c'| == |c|
  {
    if plan == [] then c else Replay(plan[1..], ReplayStep(plan[0], c))
  }

  /** The clock counts calls; `refused` records that a server has turned a call down. */
  datatype World = World(cluster: Cluster, clock: nat, refused: bool)

  datatype Attempt = Attempt(world: World, ok: bool)

  /** One statement. */
  function Send(op: Op, f: Faults, w: World): Attempt {
    var tick := w.clock + 1;
    if f(w.clock) == RequestLost then Attempt(w.(clock := tick), false)
    else if !Legal(op, w.cluster) then Attempt(w.(clock := tick, refused := true), false)
    else Attempt(w.(clock := tick, cluster := Apply(op, w.cluster)), !Fails(f(w.clock)))
  }

  /** Ops that look first whether their object is there. */
  predicate Looks(op: Op) {
    op.SetPassword? || op.CreateDatabase?
  }

  /** The role or database the query is for is there. */
  predicate Present(op: Op, c: Cluster)
    requires Looks(op)
  {
    match op
    case SetPassword(i, user, _) => HasRole(c, i, user)
    case CreateDatabase(i, db, _) => HasDatabase(c, i, db)
  }

  function Sought(op: Op): string
    requires Looks(op)
  {
    match op
    case SetPassword(_, user, _) => user
    case CreateDatabase(_, db, _) => db
  }

  /** What the program makes of a query for one row: an answer cut short before the row reads as if
      there were none. */
  function Heard(outcome: Outcome, present: bool, name: string): Option<bool> {
    match outcome
    case Answered => Some(present)
    case CutShort(rows) => Some(present && name in rows)
    case _ => None
  }

  /** `create role` or `create database`, which the server refuses if the object exists. */
  function SendCreate(op: Op, f: Faults, w: World): Attempt
    requires Looks(op)
  {
    if f(w.clock) != RequestLost && Present(op, w.cluster)
    then Attempt(w.(clock := w.clock + 1, refused := true), false)
    else Send(op, f, w)
  }

  /** The query, and then the statement its answer calls for: none for a database that is there,
      `alter role` for a role that is, a creation otherwise. */
  function LookAndSend(op: Op, f: Faults, w: World): Attempt
    requires Looks(op)
  {
    var w1 := w.(clock := w.clock + 1);
    match Heard(f(w.clock), Present(op, w.cluster), Sought(op))
    case None => Attempt(w1, false)
    case Some(found) =>
      if !found then SendCreate(op, f, w1)
      else if op.CreateDatabase? then Attempt(w1, true)
      else Send(op, f, w1)
  }

  /** However it fails, an op has taken effect or not at all, and success means that it has. */
  function Issue(op: Op, f: Faults, w: World): (r: Attempt)
    ensures r.world.cluster == w.cluster || r.world.cluster == Apply(op, w.cluster)
    ensures r.ok ==> Legal(op, w.cluster) && r.world.cluster == Apply(op, w.cluster)
    ensures r.world.clock > w.clock
  {
    if Looks(op) then LookAndSend(op, f, w) else Send(op, f, w)
  }

  /** The query missed an existing object and the creation that follows reaches the server. */
  predicate Misled(op: Op, f: Faults, w: World) {
    && Looks(op) && Present(op, w.cluster)
    && Heard(f(w.clock), true, Sought(op)) == Some(false)
    && f(w.clock + 1) != RequestLost
  }

  /** A legal op is refused exactly when its query misled the program. */
  lemma RefusedWhenMisled(op: Op, f: Faults, w: World)
    requires Legal(op, w.cluster)
    ensures Issue(op, f, w).world.refused == (w.refused || Misled(op, f, w))
    ensures Misled(op, f, w) ==> !Issue(op, f, w).ok && Issue(op, f, w).world.cluster == w.cluster
  {
  }

  /** The call arrives and is turned down. */
  predicate TurnedDown(op: Op, f: Faults, w: World) {
    Issue(op, f, w) == Attempt(w.(clock := w.clock + 1, refused := true), false)
  }

  /** Calls that come too early are refused and change nothing: a role must exist to be altered, a
      database other than postgres to be used, citus and a coordinator before a worker is registered,
      and the owner before a database is created. */
  lemma TooEarlyIsRefused(f: Faults, w: World, i: nat, user: string, db: string, e: string, worker: nat)
    requires f(w.clock) != RequestLost
    ensures !HasRole(w.cluster, i, user) ==>
              TurnedDown(LimitConnections(i, user), f, w) && TurnedDown(GrantFileAccess(i, user), f, w)
    ensures !HasDatabase(w.cluster, i, db) ==>
              && (db != "postgres" ==> TurnedDown(Connect(i, db), f, w))
              && TurnedDown(AddExtension(i, db, e), f, w) && TurnedDown(RunScript(i, db), f, w)
    ensures !HasExtension(w.cluster, i, db, "citus") ==> TurnedDown(SetCoordinator(i, db), f, w)
    ensures !HasExtension(w.cluster, 0, db, "citus") || !HasExtension(w.cluster, worker, db, "citus")
            || w.cluster[0].databases[db].coordinator.None? ==>
              TurnedDown(AddWorker(db, worker), f, w)
    ensures !HasDatabase(w.cluster, i, db) && !HasRole(w.cluster, i, user) ==>
              !Issue(CreateDatabase(i, db, user), f, w).ok
              && Issue(CreateDatabase(i, db, user), f, w).world.cluster == w.cluster
  {
  }

  function IssueStep(ops: seq<Op>, f: Faults, w: World): Attempt {
    if ops == [] then Attempt(w, true)
    else
      var first := Issue(ops[0], f, w);
      var rest := IssueStep(ops[1..], f, first.world);
      rest.(ok := first.ok && rest.ok)
  }

  function Run(plan: Plan, f: Faults, w: World): Attempt {
    if plan == [] then Attempt(w, true)
    else
      var first := IssueStep(plan[0], f, w);
      if first.ok then Run(plan[1..], f, first.world) else first
  }

  /** Running `a + b` is running `a` and then, if it succeeded, `b`. */
  lemma {:induction false} RunAppend(a: Plan, b: Plan, f: Faults, w: World)
    ensures Run(a + b, f, w) ==
            (var r := Run(a, f, w); if r.ok then Run(b, f, r.world) else r)
  {
    if a == [] {
      assert a + b == b;
    } else {
      assert (a + b)[1..] == a[1..] + b;
      RunAppend(a[1..], b, f, IssueStep(a[0], f, w).world);
    }
  }

  lemma {:induction false} ReplayAppend(a: Plan, b: Plan, c: Cluster)
    ensures Replay(a + b, c) == Replay(b, Replay(a, c))
  {
    if a == [] {
      assert a + b == b;
    } else {
      assert (a + b)[1..] == a[1..] + b;
      ReplayAppend(a[1..], b, ReplayStep(a[0], c));
    }
  }

  lemma {:induction false} IssueStepAppend(a: seq<Op>, b: seq<Op>, f: Faults, w: World)
    ensures IssueStep(a + b, f, w) ==
            (var r := IssueStep(a, f, w);
             var s := IssueStep(b, f, r.world);
             Attempt(s.world, r.ok && s.ok))
  {
    if a == [] {
      assert a + b == b;
    } else {
      assert (a + b)[1..] == a[1..] + b;
      IssueStepAppend(a[1..], b, f, Issue(a[0], f, w).world);
    }
  }

  /** A run that reports success left what the failure-free run leaves. */
  lemma {:induction false} SuccessIsReplay(plan: Plan, f: Faults, w: World)
    requires Run(plan, f, w).ok
    ensures Run(plan, f, w).world.cluster == Replay(plan, w.cluster)
  {
    if plan != [] {
      StepSuccessIsReplay(plan[0], f, w);
      SuccessIsReplay(plan[1..], f, IssueStep(plan[0], f, w).world);
    }
  }

  lemma {:induction false} StepSuccessIsReplay(ops: seq<Op>, f: Faults, w: World)
    requires IssueStep(ops, f, w).ok
    ensures IssueStep(ops, f, w).world.cluster == ReplayStep(ops, w.cluster)
  {
    if ops != [] {
      StepSuccessIsReplay(ops[1..], f, Issue(ops[0], f, w).world);
    }
  }
}
