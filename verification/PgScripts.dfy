/**
 When the scripts of a request run: once for every entry that has any, on each node where its
 database is created, and only after everything else the entry asks for is in place.
 */
module PgScripts {
  import opened PgState
  import opened PgProvisioning
  import opened PgTarget

  /** How often a step occurs in a plan. */
  function Times(plan: Plan, step: seq<Op>): nat {
    if plan == [] then 0 else (if plan[0] == step then 1 else 0) + Times(plan[1..], step)
  }

  lemma {:induction false} TimesAppend(a: Plan, b: Plan, step: seq<Op>)
    ensures Times(a + b, step) == Times(a, step) + Times(b, step)
  {
    if a == [] {
      assert a + b == b;
    } else {
      assert (a + b)[1..] == a[1..] + b;
      TimesAppend(a[1..], b, step);
    }
  }

  lemma {:induction false} NotInPlan(plan: Plan, step: seq<Op>)
    requires step !in plan
    ensures Times(plan, step) == 0
  {
    if plan != [] {
      NotInPlan(plan[1..], step);
    }
  }

  /** The entries among the first `k` that have scripts and ask for the database `name` on node `i`. */
  ghost function Scripted(req: PgRequest, i: nat, k: nat, name: string): set<nat>
    requires k <= |req.databases|
  {
    set j: nat | j < k && AsksFor(req, i, j, name) && |req.databases[j].scripts| > 0
  }

  lemma ScriptsInDbPlan(req: PgRequest, i: nat, j: nat, on: nat, name: string)
    requires j < |req.databases|
    ensures Times(DbPlan(req, on, req.databases[j]), [RunScript(i, name)]) ==
            if on == i && AsksFor(req, i, j, name) && |req.databases[j].scripts| > 0 then 1 else 0
  {
    var step, db, dbName := [RunScript(i, name)], req.databases[j], NameOf(req, j);
    AsksForMeans(req, i, j, name);
    if db.distributed || on == 0 {
      var front := OpenPlan(on, dbName, req.user) + CitusPlan(on, dbName, db.distributed);
      var extras, scripts := ExtrasPlan(on, dbName, db.extensions), ScriptsPlan(on, dbName, db.scripts);
      forall op | op in ExtensionStep(on, dbName, db.extensions) ensures op.AddExtension? {
      }
      NotInPlan(front, step);
      NotInPlan(extras, step);
      TimesAppend(front, extras + scripts, step);
      TimesAppend(extras, scripts, step);
      assert scripts == [] || scripts[1..] == [];
    }
  }

  lemma {:induction false} ScriptsInDbsPlan(req: PgRequest, i: nat, k: nat, on: nat, name: string)
    requires k <= |req.databases|
    ensures Times(DbsPlan(req, on, k), [RunScript(i, name)]) == if on == i then |Scripted(req, i, k, name)| else 0
  {
    hide DbPlan, AsksFor;
    if k > 0 {
      var step := [RunScript(i, name)];
      ScriptsInDbsPlan(req, i, k - 1, on, name);
      ScriptsInDbPlan(req, i, k - 1, on, name);
      TimesAppend(DbsPlan(req, on, k - 1), DbPlan(req, on, req.databases[k - 1]), step);
      var before, now := Scripted(req, i, k - 1, name), Scripted(req, i, k, name);
      assert now == before + if k - 1 in now then {k - 1} else {};
    } else {
      assert Scripted(req, i, 0, name) == {};
    }
  }

  lemma {:induction false} ScriptsInNodesPlan(req: PgRequest, n: nat, i: nat, name: string)
    ensures Times(NodesPlan(req, n), [RunScript(i, name)]) ==
            if i < n then |Scripted(req, i, |req.databases|, name)| else 0
  {
    if n > 0 {
      var step, all := [RunScript(i, name)], |req.databases|;
      var front: Plan := [[Connect(n - 1, MAINTENANCE_DB)], [ReadPassword]] + UserPlan(req, n - 1);
      ScriptsInNodesPlan(req, n - 1, i, name);
      ScriptsInDbsPlan(req, i, all, n - 1, name);
      NotInPlan(front, step);
      TimesAppend(front, DbsPlan(req, n - 1, all), step);
      TimesAppend(NodesPlan(req, n - 1), NodePlan(req, n - 1), step);
    }
  }

  predicate NoScripts(plan: Plan) {
    forall k :: 0 <= k < |plan| ==> !(|plan[k]| == 1 && plan[k][0].RunScript?)
  }

  lemma {:induction false} NoneForWorkerDbs(req: PgRequest, w: nat, k: nat)
    requires k <= |req.databases|
    ensures NoScripts(WorkerDbsPlan(req, w, k))
  {
    if k > 0 {
      NoneForWorkerDbs(req, w, k - 1);
    }
  }

  lemma {:induction false} NoneForWorkers(req: PgRequest, n: nat)
    ensures NoScripts(WorkersPlan(req, n))
  {
    if n > 1 {
      NoneForWorkers(req, n - 1);
      NoneForWorkerDbs(req, n - 1, |req.databases|);
    }
  }

  /** The scripts of an entry run exactly once on each node where it asks for its database. */
  lemma ScriptsRunOnce(req: PgRequest, n: nat, i: nat, name: string)
    ensures Times(CreatePlan(req, n), [RunScript(i, name)]) ==
            if i < n
            then |set j: nat | j < |req.databases| && AsksFor(req, i, j, name) && |req.databases[j].scripts| > 0|
            else 0
  {
    var step := [RunScript(i, name)];
    var find: Plan := [[FindCluster]];
    ScriptsInNodesPlan(req, n, i, name);
    NoneForWorkers(req, n);
    NotInPlan(find + WorkersPlan(req, n), step);
    NotInPlan(find, step);
    TimesAppend(find, NodesPlan(req, n), step);
    TimesAppend(find + NodesPlan(req, n), find + WorkersPlan(req, n), step);
    assert Scripted(req, i, |req.databases|, name) ==
           set j: nat | j < |req.databases| && AsksFor(req, i, j, name) && |req.databases[j].scripts| > 0;
  }

  // ---- What is there when a script runs ----

  /** Some entry with scripts asks for this database here, which has all that the entry brings. */
  ghost predicate Ready(req: PgRequest, i: nat, name: string, c: Cluster) {
    exists j: nat ::
      && AsksFor(req, i, j, name) && |req.databases[j].scripts| > 0 && HasDatabase(c, i, name)
      && (forall e :: Brings(req, j, e) ==> HasExtension(c, i, name, e))
      && (i == 0 && req.databases[j].distributed ==> c[0].databases[name].coordinator.Some?)
  }

  /** Every script of the plan finds its database ready. */
  ghost predicate ScriptsFindAll(req: PgRequest, plan: Plan, c: Cluster) {
    plan == []
    || ((|plan[0]| == 1 && plan[0][0].RunScript? ==> Ready(req, plan[0][0].node, plan[0][0].database, c))
        && ScriptsFindAll(req, plan[1..], ReplayStep(plan[0], c)))
  }

  lemma {:induction false} FindAllAppend(req: PgRequest, a: Plan, b: Plan, c: Cluster)
    requires ScriptsFindAll(req, a, c) && ScriptsFindAll(req, b, Replay(a, c))
    ensures ScriptsFindAll(req, a + b, c)
  {
    hide Ready;
    if a == [] {
      assert a + b == b;
    } else {
      assert (a + b)[1..] == a[1..] + b;
      FindAllAppend(req, a[1..], b, ReplayStep(a[0], c));
    }
  }

  lemma {:induction false} NothingToFind(req: PgRequest, plan: Plan, c: Cluster)
    requires NoScripts(plan)
    ensures ScriptsFindAll(req, plan, c)
  {
    if plan != [] {
      NothingToFind(req, plan[1..], ReplayStep(plan[0], c));
    }
  }

  lemma DbScriptsFindAll(req: PgRequest, i: nat, j: nat, c: Cluster)
    requires j < |req.databases| && HasRole(c, i, req.user)
    ensures ScriptsFindAll(req, DbPlan(req, i, req.databases[j]), c)
  {
    var db, name := req.databases[j], NameOf(req, j);
    if db.distributed || i == 0 {
      var open, citus := OpenPlan(i, name, req.user), CitusPlan(i, name, db.distributed);
      var extras, scripts := ExtrasPlan(i, name, db.extensions), ScriptsPlan(i, name, db.scripts);
      forall op | op in ExtensionStep(i, name, db.extensions) ensures op.AddExtension? {
      }
      assert NoScripts(open + citus) && NoScripts(extras);
      NothingToFind(req, open + citus, c);
      BeforeScripts(req, i, j, c);
      var c1 := Replay(open + citus, c);
      NothingToFind(req, extras, c1);
      if |db.scripts| > 0 {
        assert Ready(req, i, name, Replay(extras, c1)) by {
          AsksForMeans(req, i, j, name);
        }
      }
      FindAllAppend(req, extras, scripts, c1);
      FindAllAppend(req, open + citus, extras + scripts, c);
    }
  }

  lemma BeforeScripts(req: PgRequest, i: nat, j: nat, c: Cluster)
    requires j < |req.databases| && HasRole(c, i, req.user) && Applies(req, i, j)
    ensures var db, name := req.databases[j], NameOf(req, j);
            var c1 := Replay(OpenPlan(i, name, req.user) + CitusPlan(i, name, db.distributed), c);
            var c2 := Replay(ExtrasPlan(i, name, db.extensions), c1);
            && HasDatabase(c2, i, name)
            && (forall e :: Brings(req, j, e) ==> HasExtension(c2, i, name, e))
            && (i == 0 && db.distributed ==> c2[0].databases[name].coordinator.Some?)
  {
    hide Replay, OpenPlan, CitusPlan, ExtrasPlan, Brings;
    var db, name := req.databases[j], NameOf(req, j);
    var c0 := Replay(OpenPlan(i, name, req.user), c);
    OpenEffect(req, i, name, c);
    CitusEffect(i, name, db.distributed, c0);
    ReplayAppend(OpenPlan(i, name, req.user), CitusPlan(i, name, db.distributed), c);
    var c1 := Replay(CitusPlan(i, name, db.distributed), c0);
    ExtensionsEffect(i, name, db.extensions, c1);
    forall e | Brings(req, j, e)
      ensures HasExtension(Replay(ExtrasPlan(i, name, db.extensions), c1), i, name, e)
    {
      BringsMeans(req, j, e);
    }
  }

  lemma {:induction false} DbsScriptsFindAll(req: PgRequest, i: nat, k: nat, c: Cluster)
    requires k <= |req.databases| && HasRole(c, i, req.user)
    ensures ScriptsFindAll(req, DbsPlan(req, i, k), c)
  {
    hide ScriptsFindAll, DbPlan;
    if k == 0 {
      NothingToFind(req, [], c);
    } else {
      DbsScriptsFindAll(req, i, k - 1, c);
      PlanGrows(DbsPlan(req, i, k - 1), c);
      DbScriptsFindAll(req, i, k - 1, Replay(DbsPlan(req, i, k - 1), c));
      FindAllAppend(req, DbsPlan(req, i, k - 1), DbPlan(req, i, req.databases[k - 1]), c);
    }
  }

  lemma NodeScriptsFindAll(req: PgRequest, i: nat, c: Cluster)
    requires i < |c| && req.user != ""
    ensures ScriptsFindAll(req, NodePlan(req, i), c)
  {
    hide ScriptsFindAll, Legal, Apply;
    var p0: Plan := [[Connect(i, MAINTENANCE_DB)], [ReadPassword]];
    var p1, p2 := UserPlan(req, i), DbsPlan(req, i, |req.databases|);
    UserPlanLegal(req, i, Replay(p0, c));
    ReplayAppend(p0, p1, c);
    DbsScriptsFindAll(req, i, |req.databases|, Replay(p0 + p1, c));
    NothingToFind(req, p0 + p1, c);
    FindAllAppend(req, p0 + p1, p2, c);
  }

  lemma {:induction false} NodesScriptsFindAll(req: PgRequest, n: nat, c: Cluster)
    requires n <= |c| && req.user != ""
    ensures ScriptsFindAll(req, NodesPlan(req, n), c)
  {
    hide ScriptsFindAll, NodePlan;
    if n == 0 {
      NothingToFind(req, [], c);
    } else {
      NodesScriptsFindAll(req, n - 1, c);
      NodeScriptsFindAll(req, n - 1, Replay(NodesPlan(req, n - 1), c));
      FindAllAppend(req, NodesPlan(req, n - 1), NodePlan(req, n - 1), c);
    }
  }

  lemma NoneInFind(plan: Plan)
    requires plan == [[FindCluster]]
    ensures NoScripts(plan)
  {
  }

  lemma NoneInBoth(a: Plan, b: Plan)
    requires NoScripts(a) && NoScripts(b)
    ensures NoScripts(a + b)
  {
  }

  /** Scripts run last: whatever the cluster held before, at every place of the plan where scripts run
      in a database, some entry with scripts asks for it there, and all the extensions it brings, and
      the coordinator it needs, are in place. */
  lemma ScriptsRunLast(req: PgRequest, n: nat, c: Cluster, k: nat)
    requires n <= |c| && req.user != ""
    requires k < |CreatePlan(req, n)| && |CreatePlan(req, n)[k]| == 1 && CreatePlan(req, n)[k][0].RunScript?
    ensures var op := CreatePlan(req, n)[k][0];
            Ready(req, op.node, op.database, Replay(CreatePlan(req, n)[..k], c))
  {
    hide ScriptsFindAll, Ready, Replay, NodesPlan, WorkersPlan, NoScripts;
    var find: Plan := [[FindCluster]];
    var front, back := find + NodesPlan(req, n), find + WorkersPlan(req, n);
    NodesScriptsFindAll(req, n, Replay(find, c));
    NoneInFind(find);
    NothingToFind(req, find, c);
    FindAllAppend(req, find, NodesPlan(req, n), c);
    NoneForWorkers(req, n);
    NoneInBoth(find, WorkersPlan(req, n));
    NothingToFind(req, back, Replay(front, c));
    FindAllAppend(req, front, back, c);
    FindAllAt(req, CreatePlan(req, n), c, k);
  }

  lemma {:induction false} FindAllAt(req: PgRequest, plan: Plan, c: Cluster, k: nat)
    requires ScriptsFindAll(req, plan, c) && k < |plan| && |plan[k]| == 1 && plan[k][0].RunScript?
    ensures Ready(req, plan[k][0].node, plan[k][0].database, Replay(plan[..k], c))
  {
    hide Ready;
    if k > 0 {
      assert plan[..k][1..] == plan[1..][..k - 1];
      FindAllAt(req, plan[1..], ReplayStep(plan[0], c), k - 1);
    }
  }
}
