/**
 Restoring a KVRocks database: the instance is stopped, the database directory is removed and the
 backup directory is moved into its place.  Every call may fail, before or after its effect and, for
 the removal, in the middle; stopping anywhere is the same as an answer that never arrives.
 */
module KvrocksRestore {
  import opened Calls

  type Files = map<string, string>

  datatype Entry = Absent | File | Dir(files: Files)

  /** The two directories, the requested replicas and the running pods. */
  datatype World = World(backup: Entry, db: Entry, replicas: nat, pods: nat)

  /** Everything the procedure does not control, as functions of time: failures, how many pods run
      while some are requested, how many at most are left while none is, and what a running instance
      writes. */
  datatype Env = Env(faults: Faults, running: nat -> nat, lingering: nat -> nat, writes: nat -> Entry)

  /** One moment passes.  Without requested replicas no pod is added, and without pods nobody writes. */
  function Moment(env: Env, w: World, t: nat): World {
    var limit := env.lingering(t);
    var pods := if w.replicas > 0 then env.running(t) else if w.pods < limit then w.pods else limit;
    w.(pods := pods, db := if w.pods > 0 || pods > 0 then env.writes(t) else w.db)
  }

  lemma MomentWhenDown(env: Env, w: World, t: nat)
    requires Down(w)
    ensures Moment(env, w, t) == w
  {
  }

  /** The directory after a removal with this outcome. */
  function AfterRemoval(e: Entry, outcome: Outcome): Entry {
    match outcome
    case Answered => Absent
    case RequestLost => e
    case AnswerLost => Absent
    case CutShort(left) =>
      if e.Dir? then Dir(map name | name in e.files && name in left :: e.files[name]) else e
  }

  predicate Down(w: World) {
    w.replicas == 0 && w.pods == 0
  }

  // ---- Where the backup is ----

  predicate Held(w: World, b: Files) {
    w.backup == Dir(b) || w.db == Dir(b)
  }

  /** The instance was asked to start, while no pod ran, on a database that is the backup. */
  predicate HandedOver(log: seq<World>, b: Files) {
    exists k :: 0 <= k < |log| && log[k].db == Dir(b) && log[k].replicas == 1 && log[k].pods == 0
  }

  /** At every moment the backup was whole in one of the two places, or had been handed over. */
  predicate NeverLost(log: seq<World>, b: Files) {
    forall k :: 0 <= k < |log| ==> Held(log[k], b) || HandedOver(log[..k], b)
  }

  lemma NeverLostSnoc(log: seq<World>, b: Files, w: World)
    requires NeverLost(log, b) && (Held(w, b) || HandedOver(log, b))
    ensures NeverLost(log + [w], b)
    ensures HandedOver(log, b) || (w.db == Dir(b) && w.replicas == 1 && w.pods == 0) ==> HandedOver(log + [w], b)
  {
    hide Held;
    var all := log + [w];
    assert all[..|log|] == log && all[|log|] == w;
    forall k | 0 <= k < |all| ensures Held(all[k], b) || HandedOver(all[..k], b) {
      if k < |log| {
        assert all[..k] == log[..k] && all[k] == log[k];
      }
    }
    if HandedOver(log, b) {
      var k :| 0 <= k < |log| && log[k].db == Dir(b) && log[k].replicas == 1 && log[k].pods == 0;
      assert all[k] == log[k];
    }
  }

  lemma NeverLostPass(log: seq<World>, b: Files, w: World, w': World)
    requires NeverLost(log, b) && (HandedOver(log, b) || Held(w, b))
    requires HandedOver(log, b) || HandedOver(log + [w], b) || Held(w', b)
    ensures NeverLost(log + [w, w'], b)
    ensures HandedOver(log, b) || HandedOver(log + [w], b) ==> HandedOver(log + [w, w'], b)
  {
    hide Held, NeverLost, HandedOver;
    NeverLostSnoc(log, b, w);
    NeverLostSnoc(log + [w], b, w');
    assert log + [w] + [w'] == log + [w, w'];
  }

  class Host {
    const env: Env
    var world: World
    var clock: nat
    /** Every world passed through since the restore began, and those in which it changed the database
        directory. */
    ghost var log: seq<World>
    ghost var touched: seq<World>

    constructor (env: Env, world: World)
      ensures this.env == env && this.world == world && clock == 0
    {
      this.env, this.world, clock, log, touched := env, world, 0, [], [];
    }

    /** A call leaves the world `w`; then time passes. */
    method Pass(w: World)
      modifies this`world, this`clock, this`log
      ensures world == Moment(env, w, old(clock)) && clock == old(clock) + 1
      ensures log == old(log) + [w, world]
    {
      world := Moment(env, w, clock);
      clock := clock + 1;
      log := log + [w, world];
    }

    ghost predicate Safe(b: Files)
      reads this
    {
      NeverLost(log, b) && forall w :: w in touched ==> Down(w)
    }

    /** The backup is still in its own directory. */
    ghost predicate Untouched(b: Files)
      reads this
    {
      Safe(b) && world.backup == Dir(b)
    }

    /** A call that reads. */
    method Ask(ghost b: Files) returns (answered: bool)
      modifies this`world, this`clock, this`log
      ensures world == Moment(env, old(world), old(clock)) && clock == old(clock) + 1
      ensures answered <==> !Fails(env.faults(old(clock)))
      ensures old(Untouched(b)) ==> Untouched(b)
      ensures old(Safe(b)) && ((Down(old(world)) && Held(old(world), b)) || HandedOver(old(log), b)) ==> Safe(b)
      ensures HandedOver(old(log), b) && old(Safe(b)) ==> HandedOver(log, b)
    {
      answered := !Fails(env.faults(clock));
      if NeverLost(log, b) && (world.backup == Dir(b) || (Down(world) && Held(world, b)) || HandedOver(log, b)) {
        if Down(world) {
          MomentWhenDown(env, world, clock);
        }
        NeverLostPass(log, b, world, Moment(env, world, clock));
      }
      Pass(world);
    }

    method UpdateScale(replicas: nat, ghost b: Files) returns (ok: bool)
      modifies this`world, this`clock, this`log
      ensures clock == old(clock) + 1
      ensures ok <==> !Fails(env.faults(old(clock)))
      ensures world == Moment(env, if env.faults(old(clock)) == RequestLost then old(world)
                                   else old(world).(replicas := replicas), old(clock))
      ensures old(Untouched(b)) ==> Untouched(b)
      ensures old(Safe(b)) && Down(old(world)) && old(world).db == Dir(b) && replicas == 1 ==>
                Safe(b) && (world == old(world) || HandedOver(log, b)) && (ok ==> HandedOver(log, b))
    {
      var outcome := env.faults(clock);
      var w := if outcome == RequestLost then world else world.(replicas := replicas);
      if NeverLost(log, b) && (world.backup == Dir(b) || (Down(world) && world.db == Dir(b) && replicas == 1)) {
        NeverLostSnoc(log, b, w);
        if outcome == RequestLost && Down(world) {
          MomentWhenDown(env, world, clock);
        }
        NeverLostPass(log, b, w, Moment(env, w, clock));
      }
      Pass(w);
      ok := !Fails(outcome);
    }

    /** `wait.PollWithContext` over the list of pods: a failed listing counts as not yet. */
    method WaitForPods(some: bool, ghost b: Files) returns (ok: bool)
      modifies this`world, this`clock, this`log
      ensures old(clock) <= clock <= old(clock) + 300 && (!ok ==> clock == old(clock) + 300)
      ensures old(Untouched(b)) ==> Untouched(b)
      ensures HandedOver(old(log), b) && old(Safe(b)) ==> HandedOver(log, b) && Safe(b)
      ensures world.replicas == old(world).replicas && world.backup == old(world).backup
      ensures ok && !some && old(world).replicas == 0 ==> Down(world)
      ensures Down(old(world)) ==> world == old(world)
      ensures Down(old(world)) && !some && !Fails(env.faults(old(clock))) ==> ok && clock == old(clock) + 1
      ensures SteadyFrom(env, old(clock)) && !old(world).db.Absent? ==> !world.db.Absent?
      ensures !some && old(world).replicas == 0 && Settles(env, old(clock)) ==> ok
      ensures some && old(world).pods > 0 && SteadyFrom(env, old(clock)) ==> ok
    {
      for n := 0 to 300
        invariant clock == old(clock) + n && (n == 0 ==> world == old(world))
        invariant old(Untouched(b)) ==> Untouched(b)
        invariant HandedOver(old(log), b) && old(Safe(b)) ==> HandedOver(log, b) && Safe(b)
        invariant world.replicas == old(world).replicas && world.backup == old(world).backup
        invariant Down(old(world)) ==> world == old(world)
        invariant Down(old(world)) && !some && !Fails(env.faults(old(clock))) ==> n == 0
        invariant SteadyFrom(env, old(clock)) && !old(world).db.Absent? ==> !world.db.Absent?
        invariant world.replicas == 0 && n > 0 ==> world.pods <= env.lingering(clock - 1)
        invariant !some && old(world).replicas == 0 && Settles(env, old(clock)) ==> n < 300
        invariant some && old(world).pods > 0 && SteadyFrom(env, old(clock)) ==> n == 0
      {
        var pods := world.pods;
        var listed := Ask(b);
        if listed && (if some then pods > 0 else pods == 0) {
          return true;
        }
      }
      ok := false;
    }

    /** `os.RemoveAll` of the database directory. */
    method RemoveDb(ghost b: Files) returns (ok: bool)
      requires Down(world)
      modifies this
      ensures clock == old(clock) + 1
      ensures ok <==> env.faults(old(clock)) == Answered
      ensures world == old(world).(db := AfterRemoval(old(world).db, env.faults(old(clock))))
      ensures old(Untouched(b)) ==> Untouched(b)
    {
      var outcome := env.faults(clock);
      touched := touched + [world];
      var w := world.(db := AfterRemoval(world.db, outcome));
      MomentWhenDown(env, w, clock);
      if NeverLost(log, b) && world.backup == Dir(b) {
        NeverLostPass(log, b, w, w);
      }
      Pass(w);
      ok := outcome == Answered;
    }

    /** `os.Rename` of the backup directory to the name of the removed database directory. */
    method MoveBackup(ghost b: Files) returns (ok: bool)
      requires Down(world) && world.db == Absent && world.backup == Dir(b)
      modifies this
      ensures clock == old(clock) + 1
      ensures ok <==> !Fails(env.faults(old(clock)))
      ensures world == if env.faults(old(clock)) == RequestLost then old(world)
                       else old(world).(backup := Absent, db := Dir(b))
      ensures old(Safe(b)) ==> Safe(b)
    {
      var outcome := env.faults(clock);
      var w := if outcome == RequestLost then world else world.(backup := Absent, db := world.backup);
      touched := touched + [world];
      MomentWhenDown(env, w, clock);
      if NeverLost(log, b) {
        NeverLostPass(log, b, w, w);
      }
      Pass(w);
      ok := !Fails(outcome);
    }

    /** Stopping the instance: read the scale, set it to none, wait until no pod is left. */
    method StopInstance(ghost b: Files) returns (ok: bool)
      modifies this`world, this`clock, this`log
      ensures clock >= old(clock)
      ensures old(Untouched(b)) ==> Untouched(b)
      ensures ok ==> Down(world)
      ensures world.backup == old(world).backup
      ensures Down(old(world)) ==> world == old(world)
      ensures SteadyFrom(env, old(clock)) && !old(world).db.Absent? ==> !world.db.Absent?
      ensures Settles(env, old(clock) + 2) && SteadyFrom(env, old(clock)) ==> ok
      ensures Down(old(world)) && (forall t | old(clock) <= t < old(clock) + 3 :: !Fails(env.faults(t))) ==>
                ok && clock == old(clock) + 3
    {
      ok := Ask(b);
      if ok {
        ok := UpdateScale(0, b);
        if ok {
          ok := WaitForPods(false, b);
        }
      }
    }

    /** Starting it again on the moved files. */
    method StartInstance(ghost b: Files) returns (ok: bool)
      requires Down(world) && world.db == Dir(b) && Safe(b)
      modifies this`world, this`clock, this`log
      ensures clock > old(clock)
      ensures Safe(b) && (world == old(world) || HandedOver(log, b))
      ensures world.backup == old(world).backup
      ensures ok ==> HandedOver(log, b) && world.replicas == 1
      ensures SteadyFrom(env, old(clock)) ==> ok
    {
      ok := Ask(b);
      MomentWhenDown(env, old(world), old(clock));
      if ok {
        ok := UpdateScale(1, b);
        if ok {
          ok := WaitForPods(true, b);
        }
      }
    }

    /** Everything before the first change: look for the backup, stop the instance, look for the
        database directory.  `Done` means that all of it is in order. */
    method Prepare(ghost b: Files) returns (stage: Stage)
      modifies this`world, this`clock, this`log
      ensures stage.NoBackup? || stage.NotStopped? || stage.NoDatabase? || stage.Done?
      ensures clock > old(clock) && world.backup == old(world).backup
      ensures old(Untouched(b)) ==> Untouched(b)
      ensures stage.Done? ==> Down(world) && world.backup.Dir? && !world.db.Absent?
      ensures Down(old(world)) ==> world == old(world)
      ensures !Restorable(old(world)) ==> !stage.Done?
      ensures Undisturbed(env, old(clock)) && Restorable(old(world)) ==> stage.Done?
      ensures Down(old(world)) && Restorable(old(world))
              && (forall t | old(clock) <= t < old(clock) + 5 :: !Fails(env.faults(t))) ==>
                stage.Done? && clock == old(clock) + 5
    {
      hide NeverLost, HandedOver, Held, Moment;
      var backup := world.backup;
      AfterAMoment(env, world, clock);
      var ok := Ask(b);
      if !ok || !backup.Dir? {
        return NoBackup;
      }
      ok := StopInstance(b);
      if !ok {
        return NotStopped;
      }
      var db := world.db;
      AfterAMoment(env, world, clock);
      ok := Ask(b);
      stage := if !ok || db.Absent? then NoDatabase else Done;
    }

    /** `RestoreKVRocks`.  For every environment: if the backup is a directory with files `b`, it is
        never lost; the database directory is changed only while the instance is down; success means
        the instance was started on exactly `b`.  From every start, running or not, and undisturbed,
        it succeeds exactly if the start is restorable; and one that is not stays so. */
    method RestoreKVRocks() returns (stage: Stage)
      modifies this
      ensures old(world).backup.Dir? ==> Safe(old(world).backup.files)
      ensures stage.Done? ==> old(world).backup.Dir? && HandedOver(log, old(world).backup.files)
                              && world.replicas == 1 && world.backup == Absent
      ensures Undisturbed(env, old(clock)) ==> (stage.Done? <==> Restorable(old(world)))
      ensures !Restorable(old(world)) ==> !stage.Done? && !Restorable(world)
      ensures !Restorable(old(world)) && Down(old(world)) ==> world == old(world)
      ensures stage.NoBackup? || stage.NotStopped? || stage.NoDatabase? ==> world.backup == old(world).backup
      ensures stage.NotRemoved? ==> Down(world) && world.backup == old(world).backup && clock > old(clock)
                                    && (Restorable(world) <==> env.faults(clock - 1) != AnswerLost)
      ensures stage.NotMoved? ==> Down(world) && !Restorable(world)
                                  && (world.backup == old(world).backup || world.db == old(world).backup)
      ensures stage.NotStarted? ==> old(world).backup.Dir? && world.backup == Absent && !Restorable(world)
                                    && (world.db == old(world).backup
                                        || HandedOver(log, old(world).backup.files))
      ensures Down(old(world)) && Restorable(old(world)) && env.faults(old(clock) + 5) != Answered
              && (forall t | old(clock) <= t < old(clock) + 5 :: !Fails(env.faults(t))) ==>
                stage.NotRemoved? && world == old(world).(db := AfterRemoval(old(world).db, env.faults(old(clock) + 5)))
    {
      hide NeverLost, HandedOver, Held, Moment;
      ghost var b := if world.backup.Dir? then world.backup.files else map[];
      log, touched := [world], [];
      StartsSafe(world, b);
      stage := Prepare(b);
      if !stage.Done? {
        return;
      }
      var ok := RemoveDb(b);
      if !ok {
        return NotRemoved;
      }
      ok := MoveBackup(b);
      if !ok {
        return NotMoved;
      }
      ok := StartInstance(b);
      stage := if ok then Done else NotStarted;
    }
  }

  lemma AfterAMoment(env: Env, w: World, t: nat)
    ensures Moment(env, w, t).backup == w.backup
    ensures Down(w) ==> Moment(env, w, t) == w
    ensures env.running(t) >= 1 && !env.writes(t).Absent? && (!w.db.Absent? || !Down(w)) ==>
              !Moment(env, w, t).db.Absent?
  {
  }

  lemma StartsSafe(w: World, b: Files)
    ensures w.backup == Dir(b) ==> NeverLost([w], b)
  {
  }

  /** Where a restore stopped, as its errors tell. */
  datatype Stage = NoBackup | NotStopped | NoDatabase | NotRemoved | NotMoved | NotStarted | Done

  /** Every call works, pods run whenever some are requested, and an instance writes a directory. */
  ghost predicate SteadyFrom(env: Env, from: nat) {
    forall t: nat :: from <= t ==>
      env.faults(t) == Answered && env.running(t) >= 1 && !env.writes(t).Absent?
  }

  /** No pod is left in time for the last round of a poll that begins now. */
  ghost predicate Settles(env: Env, from: nat) {
    && (forall t: nat :: from <= t ==> env.faults(t) == Answered)
    && (forall t: nat :: from + 298 <= t ==> env.lingering(t) == 0)
  }

  /** Nothing fails from now on, and a stopped instance is gone within 300 rounds. */
  ghost predicate Undisturbed(env: Env, from: nat) {
    SteadyFrom(env, from) && forall t: nat :: from + 300 <= t ==> env.lingering(t) == 0
  }

  /** What a restore needs: a backup, and a database directory or an instance that will write one. */
  predicate Restorable(w: World) {
    w.backup.Dir? && !(w.db.Absent? && Down(w))
  }

  /** A restore that cannot be repeated: the database directory is removed and the answer lost.  The
      backup is whole, but every later restore, in whatever environments and however many, stops
      because there is no database directory. */
  method RestoreCanBecomeImpossible(b: Files, d: Files, later: seq<Env>)
    returns (first: Stage, others: seq<Stage>, world: World)
    ensures first.NotRemoved? && world == World(Dir(b), Absent, 0, 0)
    ensures |others| == |later| && forall k :: 0 <= k < |others| ==> !others[k].Done?
  {
    var env := Env(t => if t == 5 then AnswerLost else Answered, t => 1, t => 0, t => Dir(d));
    var host := new Host(env, World(Dir(b), Dir(d), 0, 0));
    first := host.RestoreKVRocks();
    world := host.world;
    others := [];
    for k := 0 to |later|
      invariant world == World(Dir(b), Absent, 0, 0)
      invariant |others| == k && forall j :: 0 <= j < k ==> !others[j].Done?
    {
      host := new Host(later[k], world);
      var stage := host.RestoreKVRocks();
      others := others + [stage];
      world := host.world;
    }
  }
}
