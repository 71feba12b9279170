/**
 The user event watcher: a cache of the last recorded event per object and type, against which
 repeated events are dropped, and a machine that notices a user finishing the activation wizard.
 Both are proved against definitions that only scan the past events.
 */
module UserWatcher {
  import opened Wrappers

  const COMPLETED := "completed"

  datatype Kind = Added | Modified | Deleted | Other

  /** An event and what the environment does while it is handled: whether its object converts to a
      user, and whether the callbacks, if they are invoked, succeed. */
  datatype Event =
    | UserEvent(uid: string, kind: Kind, version: string, name: string, status: Option<string>,
                converts: bool, callbackOk: bool)
    | RegistryEvent(uid: string, kind: Kind, version: string, subscribesToCreate: bool,
                    users: Option<seq<string>>)

  datatype Call = Created(user: string) | Removed(user: string) | Activated(user: string)

  type Cache = map<string, map<Kind, string>>

  class Watcher {
    var cacheEvent: Cache
    var activingUsers: map<string, string>
    /** The callbacks that were attempted, in order, and those for user events that succeeded. */
    var calls: seq<Call>
    var done: seq<Call>

    constructor ()
      ensures cacheEvent == map[] && activingUsers == map[] && calls == [] && done == []
    {
      cacheEvent, activingUsers, calls, done := map[], map[], [], [];
    }

    ghost predicate Follows(events: seq<Event>)
      reads this
    {
      var past := Scan(events);
      && Indexes(cacheEvent, past.recorded) && Tracks(activingUsers, past.handled)
      && calls == past.calls && done == past.done
    }

    method IsDupEvent(e: Event) returns (dup: bool)
      ensures dup <==> InCache(cacheEvent, e)
    {
      if e.uid in cacheEvent {
        var old_ := cacheEvent[e.uid];
        if e.kind in old_ {
          return old_[e.kind] == e.version;
        }
        return false;
      }
      return false;
    }

    method EventRecord(e: Event)
      modifies this`cacheEvent
      ensures cacheEvent == Recorded(old(cacheEvent), e)
    {
      if e.uid !in cacheEvent {
        cacheEvent := cacheEvent[e.uid := map[]];
      }
      cacheEvent := cacheEvent[e.uid := cacheEvent[e.uid][e.kind := e.version]];
    }

    /** One pass of the event loop. */
    method Handle(e: Event, ghost past: seq<Event>)
      requires Follows(past)
      modifies this
      ensures Follows(past + [e])
    {
      hide Indexes, Tracks, InCache, Recorded, Scan;
      ScanSnoc(past, e);
      ghost var before := Scan(past);
      assert before.calls + [] == before.calls && before.done + [] == before.done;
      CacheAgrees(cacheEvent, before.recorded, e);
      RecordedIndexes(cacheEvent, before.recorded, e);
      var dup := IsDupEvent(e);
      if dup {
        return;
      }
      var ok: bool;
      if e.UserEvent? {
        if !e.converts {
          return;
        }
        ok := HandleUser(e, before.handled);
      } else {
        if !e.subscribesToCreate {
          return;
        }
        ok := HandleRegistry(e);
      }
      if !ok {
        return;
      }
      EventRecord(e);
    }

    method HandleUser(e: Event, ghost handled: seq<Event>) returns (ok: bool)
      requires e.UserEvent? && Tracks(activingUsers, handled)
      modifies this`activingUsers, this`calls, this`done
      ensures Tracks(activingUsers, handled + [e])
      ensures calls == old(calls) + CallsFor(handled, e)
      ensures done == old(done) + if e.callbackOk then CallsFor(handled, e) else []
      ensures ok <==> CallsFor(handled, e) == [] || e.callbackOk
    {
      hide Tracks, PrevStatus;
      ghost var was := activingUsers;
      TracksStep(was, handled, e);
      assert done == done + [];
      ok := true;
      match e.kind
      case Added =>
        ok := Invoke(Created(e.name), e.callbackOk);
      case Deleted =>
        ok := Invoke(Removed(e.name), e.callbackOk);
      case Modified =>
        if e.status.Some? {
          if e.status.value == COMPLETED {
            if e.name in activingUsers {
              if activingUsers[e.name] != COMPLETED {
                activingUsers := activingUsers - {e.name};
                ok := Invoke(Activated(e.name), e.callbackOk);
              }
            }
          } else {
            activingUsers := activingUsers[e.name := e.status.value];
          }
        }
      case Other =>
    }

    /** A callback for a user event. */
    method Invoke(call: Call, works: bool) returns (ok: bool)
      modifies this`calls, this`done
      ensures ok == works
      ensures calls == old(calls) + [call] && done == old(done) + if works then [call] else []
    {
      calls := calls + [call];
      ok := works;
      if ok {
        done := done + [call];
      }
    }

    method HandleRegistry(e: Event) returns (ok: bool)
      requires e.RegistryEvent?
      modifies this`calls
      ensures ok <==> (e.kind == Added ==> e.users.Some?)
      ensures calls == old(calls) + RegistryCalls(e)
    {
      if e.kind != Added {
        return true;
      }
      if e.users.None? {
        return false;
      }
      ghost var all := RegistryCalls(e);
      for k := 0 to |e.users.value|
        invariant calls == old(calls) + all[..k]
      {
        assert all[..k + 1] == all[..k] + [all[k]];
        calls := calls + [Created(e.users.value[k])];
      }
      assert all[..|e.users.value|] == all;
      ok := true;
    }
  }

  method Watch(events: seq<Event>) returns (w: Watcher)
    ensures fresh(w) && w.Follows(events)
  {
    w := new Watcher();
    for k := 0 to |events|
      invariant fresh(w) && w.Follows(events[..k])
    {
      assert events[..k + 1] == events[..k] + [events[k]];
      w.Handle(events[k], events[..k]);
    }
    assert events[..|events|] == events;
  }

  // ---- The past, scanned ----

  /** What a run has recorded, which user events it acted on, the callbacks it attempted, and those for
      user events that succeeded. */
  datatype Past = Past(recorded: seq<Event>, handled: seq<Event>, calls: seq<Call>, done: seq<Call>)

  /** The version of the last event of an object and type. */
  function LastVersion(recorded: seq<Event>, uid: string, kind: Kind): Option<string> {
    if recorded == [] then None
    else
      var last := recorded[|recorded| - 1];
      if last.uid == uid && last.kind == kind then Some(last.version)
      else LastVersion(recorded[..|recorded| - 1], uid, kind)
  }

  /** The last wizard status a modification of the user was annotated with. */
  function PrevStatus(handled: seq<Event>, name: string): Option<string> {
    if handled == [] then None
    else
      var last := handled[|handled| - 1];
      if last.UserEvent? && last.kind == Modified && last.name == name && last.status.Some? then last.status
      else PrevStatus(handled[..|handled| - 1], name)
  }

  /** The user finishes the wizard with this event, having been seen in it before. */
  predicate Activates(handled: seq<Event>, e: Event) {
    && e.UserEvent? && e.kind == Modified && e.status == Some("completed")
    && PrevStatus(handled, e.name).Some? && PrevStatus(handled, e.name).value != "completed"
  }

  function CallsFor(handled: seq<Event>, e: Event): seq<Call>
    requires e.UserEvent?
  {
    match e.kind
    case Added => [Created(e.name)]
    case Deleted => [Removed(e.name)]
    case Modified => if Activates(handled, e) then [Activated(e.name)] else []
    case Other => []
  }

  function RegistryCalls(e: Event): seq<Call>
    requires e.RegistryEvent?
  {
    if e.kind == Added && e.users.Some?
    then seq(|e.users.value|, k requires 0 <= k < |e.users.value| => Created(e.users.value[k]))
    else []
  }

  predicate Duplicate(recorded: seq<Event>, e: Event) {
    LastVersion(recorded, e.uid, e.kind) == Some(e.version)
  }

  /** An event is recorded unless it repeats the recorded one, is not understood, or a call it needs
      fails. */
  function ScanStep(past: Past, e: Event): Past {
    if Duplicate(past.recorded, e) then past
    else
      match e
      case UserEvent(_, _, _, _, _, converts, callbackOk) =>
        if !converts then past
        else
          var calls := CallsFor(past.handled, e);
          Past(if calls == [] || callbackOk then past.recorded + [e] else past.recorded,
               past.handled + [e], past.calls + calls, past.done + if callbackOk then calls else [])
      case RegistryEvent(_, kind, _, subscribes, users) =>
        if !subscribes then past
        else if kind == Added && users.None? then past
        else Past(past.recorded + [e], past.handled, past.calls + RegistryCalls(e), past.done)
  }

  function Scan(events: seq<Event>): Past {
    if events == [] then Past([], [], [], [])
    else ScanStep(Scan(events[..|events| - 1]), events[|events| - 1])
  }

  lemma ScanSnoc(events: seq<Event>, e: Event)
    ensures Scan(events + [e]) == ScanStep(Scan(events), e)
  {
    assert (events + [e])[..|events|] == events;
  }

  // ---- The maps index the past ----

  ghost predicate Indexes(cache: Cache, recorded: seq<Event>) {
    forall uid, kind :: CachedVersion(cache, uid, kind) == LastVersion(recorded, uid, kind)
  }

  function CachedVersion(cache: Cache, uid: string, kind: Kind): Option<string> {
    if uid in cache && kind in cache[uid] then Some(cache[uid][kind]) else None
  }

  predicate InCache(cache: Cache, e: Event) {
    e.uid in cache && e.kind in cache[e.uid] && cache[e.uid][e.kind] == e.version
  }

  function Recorded(cache: Cache, e: Event): Cache {
    cache[e.uid := (if e.uid in cache then cache[e.uid] else map[])[e.kind := e.version]]
  }

  /** `isDupEvent` says what a scan of the recorded events for the last of that object and type says. */
  lemma CacheAgrees(cache: Cache, recorded: seq<Event>, e: Event)
    requires Indexes(cache, recorded)
    ensures InCache(cache, e) <==> Duplicate(recorded, e)
  {
    assert CachedVersion(cache, e.uid, e.kind) == LastVersion(recorded, e.uid, e.kind);
  }

  lemma RecordedIndexes(cache: Cache, recorded: seq<Event>, e: Event)
    requires Indexes(cache, recorded)
    ensures Indexes(Recorded(cache, e), recorded + [e])
  {
    var all := recorded + [e];
    assert all[..|recorded|] == recorded;
    forall uid, kind ensures CachedVersion(Recorded(cache, e), uid, kind) == LastVersion(all, uid, kind) {
      assert CachedVersion(cache, uid, kind) == LastVersion(recorded, uid, kind);
    }
  }

  /** The activation map holds exactly the users whose last status is one other than "completed". */
  ghost predicate Tracks(activing: map<string, string>, handled: seq<Event>) {
    forall name :: TrackedStatus(activing, name) == Unfinished(handled, name)
  }

  function TrackedStatus(activing: map<string, string>, name: string): Option<string> {
    if name in activing then Some(activing[name]) else None
  }

  function Unfinished(handled: seq<Event>, name: string): Option<string> {
    if PrevStatus(handled, name) == Some(COMPLETED) then None else PrevStatus(handled, name)
  }

  function NextActiving(activing: map<string, string>, e: Event): map<string, string> {
    if !e.UserEvent? || e.kind != Modified || e.status.None? then activing
    else if e.status.value == COMPLETED then activing - {e.name}
    else activing[e.name := e.status.value]
  }

  lemma TracksStep(activing: map<string, string>, handled: seq<Event>, e: Event)
    requires Tracks(activing, handled)
    ensures Tracks(NextActiving(activing, e), handled + [e])
    ensures e.UserEvent? && e.status == Some(COMPLETED) && e.kind == Modified ==>
              (Activates(handled, e) <==> e.name in activing) && (e.name in activing ==> activing[e.name] != COMPLETED)
    ensures e.UserEvent? && e.name !in activing ==> activing - {e.name} == activing
  {
    var all := handled + [e];
    assert all[..|handled|] == handled;
    if e.UserEvent? {
      assert TrackedStatus(activing, e.name) == Unfinished(handled, e.name);
    }
    forall name ensures TrackedStatus(NextActiving(activing, e), name) == Unfinished(all, name) {
      assert TrackedStatus(activing, name) == Unfinished(handled, name);
    }
  }

  /** In no run does the activation map hold "completed". */
  lemma NeverStoresCompleted(activing: map<string, string>, handled: seq<Event>)
    requires Tracks(activing, handled)
    ensures COMPLETED !in activing.Values
  {
    forall name | name in activing ensures activing[name] != COMPLETED {
      assert TrackedStatus(activing, name) == Unfinished(handled, name);
    }
  }

  // ---- Activation calls ----

  function CountCalls(calls: seq<Call>, c: Call): nat {
    if calls == [] then 0
    else CountCalls(calls[..|calls| - 1], c) + (if calls[|calls| - 1] == c then 1 else 0)
  }

  lemma {:induction false} CountAppend(a: seq<Call>, b: seq<Call>, c: Call)
    ensures CountCalls(a + b, c) == CountCalls(a, c) + CountCalls(b, c)
  {
    if b == [] {
      assert a + b == a;
    } else {
      assert (a + b)[..|a + b| - 1] == a + b[..|b| - 1];
      CountAppend(a, b[..|b| - 1], c);
    }
  }

  lemma {:induction false} NoActivationAmong(calls: seq<Call>, name: string)
    requires forall c :: c in calls ==> c != Activated(name)
    ensures CountCalls(calls, Activated(name)) == 0
  {
    if calls != [] {
      assert calls[|calls| - 1] in calls;
      var front := calls[..|calls| - 1];
      forall c | c in front ensures c != Activated(name) {
        assert c in calls;
      }
      NoActivationAmong(front, name);
    }
  }

  /** The positions among the handled events at which the user's wizard turns completed. */
  ghost function Turns(handled: seq<Event>, name: string): set<nat> {
    set k: nat | k < |handled| && handled[k].UserEvent? && handled[k].name == name
                 && Activates(handled[..k], handled[k]) :: k
  }

  lemma TurnsSnoc(handled: seq<Event>, e: Event, name: string)
    requires e.UserEvent?
    ensures Turns(handled + [e], name) ==
            Turns(handled, name) + (if e.name == name && Activates(handled, e) then {|handled|} else {})
    ensures |Turns(handled + [e], name)| ==
            |Turns(handled, name)| + (if e.name == name && Activates(handled, e) then 1 else 0)
  {
    hide Activates;
    var all := handled + [e];
    assert forall k: nat :: k < |handled| ==> all[..k] == handled[..k] && all[k] == handled[k];
    assert all[..|handled|] == handled && all[|handled|] == e;
  }

  /** The activation callbacks attempted for a user are as many as the times a handled modification
      reported "completed" right after another status. */
  lemma {:induction false} ActivationsAreTurns(events: seq<Event>, name: string)
    ensures CountCalls(Scan(events).calls, Activated(name)) == |Turns(Scan(events).handled, name)|
  {
    hide Activates, Turns, CountCalls;
    if events == [] {
      NothingYet(name);
    } else {
      var before, e := Scan(events[..|events| - 1]), events[|events| - 1];
      ActivationsAreTurns(events[..|events| - 1], name);
      if e.UserEvent? {
        TurnsSnoc(before.handled, e, name);
        CountAppend(before.calls, CallsFor(before.handled, e), Activated(name));
        CountCallsFor(before.handled, e, name);
      } else {
        CountAppend(before.calls, RegistryCalls(e), Activated(name));
        NoActivationAmong(RegistryCalls(e), name);
      }
    }
  }

  lemma NothingYet(name: string)
    ensures CountCalls([], Activated(name)) == 0 && Turns([], name) == {} && GoodTurns([], name) == {}
  {
  }

  lemma CountCallsFor(handled: seq<Event>, e: Event, name: string)
    requires e.UserEvent?
    ensures CountCalls(CallsFor(handled, e), Activated(name)) ==
            if e.name == name && Activates(handled, e) then 1 else 0
  {
    var calls := CallsFor(handled, e);
    if |calls| == 1 {
      assert calls[..0] == [];
    }
  }

  /** The turns whose callback succeeded. */
  ghost function GoodTurns(handled: seq<Event>, name: string): set<nat> {
    set k | k in Turns(handled, name) && handled[k].callbackOk
  }

  lemma GoodTurnsAre(handled: seq<Event>, e: Event, name: string)
    requires e.UserEvent?
    ensures GoodTurns(handled + [e], name) ==
            GoodTurns(handled, name)
            + if e.name == name && Activates(handled, e) && e.callbackOk then {|handled|} else {}
  {
    hide Activates, Turns;
    TurnsSnoc(handled, e, name);
    TurnsInRange(handled, name);
    var all := handled + [e];
    assert forall k: nat :: k < |handled| ==> all[k] == handled[k];
  }

  lemma GoodTurnsSnoc(handled: seq<Event>, e: Event, name: string)
    requires e.UserEvent?
    ensures |GoodTurns(handled + [e], name)| ==
            |GoodTurns(handled, name)| + if e.name == name && Activates(handled, e) && e.callbackOk then 1 else 0
  {
    hide Activates, Turns;
    GoodTurnsAre(handled, e, name);
    TurnsInRange(handled, name);
    assert |handled| !in GoodTurns(handled, name);
  }

  lemma TurnsInRange(handled: seq<Event>, name: string)
    ensures forall k :: k in Turns(handled, name) ==> k < |handled|
  {
  }

  /** A user is activated, successfully, as often as a handled modification reported "completed" right
      after another status and its own callback succeeded. */
  lemma {:induction false} SuccessesAreGoodTurns(events: seq<Event>, name: string)
    ensures CountCalls(Scan(events).done, Activated(name)) == |GoodTurns(Scan(events).handled, name)|
  {
    hide Activates, Turns, GoodTurns, CountCalls;
    if events == [] {
      NothingYet(name);
    } else {
      var before, e := Scan(events[..|events| - 1]), events[|events| - 1];
      SuccessesAreGoodTurns(events[..|events| - 1], name);
      if e.UserEvent? {
        var calls := CallsFor(before.handled, e);
        GoodTurnsSnoc(before.handled, e, name);
        CountAppend(before.done, if e.callbackOk then calls else [], Activated(name));
        CountCallsFor(before.handled, e, name);
        NothingYet(name);
      }
    }
  }

  // ---- Creation and removal calls ----

  /** How many of these events report this about the user; only those whose callback succeeds, if
      `good`. */
  function Reports(handled: seq<Event>, kind: Kind, name: string, good: bool): nat {
    if handled == [] then 0
    else
      var last := handled[|handled| - 1];
      Reports(handled[..|handled| - 1], kind, name, good)
      + if last.UserEvent? && last.kind == kind && last.name == name && (good ==> last.callbackOk) then 1 else 0
  }

  /** The `k`-th event of a run brings a new subscriber for created users, and the users were listed. */
  predicate Subscribes(events: seq<Event>, k: nat)
    requires k < |events|
  {
    && events[k].RegistryEvent? && events[k].subscribesToCreate && events[k].kind == Added && events[k].users.Some?
    && !Duplicate(Scan(events[..k]).recorded, events[k])
  }

  /** How often the user was in a list sent to a new subscriber. */
  function SentTo(events: seq<Event>, name: string): nat {
    if events == [] then 0
    else
      var n := |events| - 1;
      SentTo(events[..n], name) + if Subscribes(events, n) then multiset(events[n].users.value)[name] else 0
  }

  lemma ReportsSnoc(handled: seq<Event>, e: Event, kind: Kind, name: string, good: bool)
    ensures Reports(handled + [e], kind, name, good) ==
            Reports(handled, kind, name, good)
            + if e.UserEvent? && e.kind == kind && e.name == name && (good ==> e.callbackOk) then 1 else 0
  {
    assert (handled + [e])[..|handled|] == handled;
  }

  lemma OneOrNone(calls: seq<Call>, c: Call)
    requires |calls| <= 1
    ensures CountCalls(calls, c) == if calls == [c] then 1 else 0
  {
    if |calls| == 1 {
      assert calls == [calls[0]] && calls[..0] == [];
    }
  }

  lemma {:induction false} CountSent(calls: seq<Call>, users: seq<string>, name: string)
    requires |calls| == |users| && forall k :: 0 <= k < |users| ==> calls[k] == Created(users[k])
    ensures CountCalls(calls, Created(name)) == multiset(users)[name]
    ensures CountCalls(calls, Removed(name)) == 0
  {
    if users != [] {
      var n := |users| - 1;
      CountSent(calls[..n], users[..n], name);
      assert users == users[..n] + [users[n]];
    }
  }

  lemma AnnouncedStep(past: Past, e: Event, name: string)
    ensures var next := ScanStep(past, e);
            var acts := !Duplicate(past.recorded, e) && e.UserEvent? && e.converts;
            var added := if acts && e.name == name then 1 else 0;
            var sent := if !Duplicate(past.recorded, e) && e.RegistryEvent? && e.subscribesToCreate
                           && e.kind == Added && e.users.Some? then multiset(e.users.value)[name] else 0;
            var good := if e.UserEvent? && e.callbackOk then added else 0;
            && next.handled == (if acts then past.handled + [e] else past.handled)
            && CountCalls(next.calls, Created(name)) ==
               CountCalls(past.calls, Created(name)) + (if e.kind == Added then added else 0) + sent
            && CountCalls(next.calls, Removed(name)) ==
               CountCalls(past.calls, Removed(name)) + (if e.kind == Deleted then added else 0)
            && CountCalls(next.done, Created(name)) ==
               CountCalls(past.done, Created(name)) + (if e.kind == Added then good else 0)
            && CountCalls(next.done, Removed(name)) ==
               CountCalls(past.done, Removed(name)) + (if e.kind == Deleted then good else 0)
  {
    hide Activates, CountCalls, LastVersion;
    if e.UserEvent? {
      var calls := CallsFor(past.handled, e);
      forall c | c == Created(name) || c == Removed(name)
        ensures CountCalls(past.calls + calls, c) == CountCalls(past.calls, c) + if calls == [c] then 1 else 0
        ensures CountCalls(past.done + calls, c) == CountCalls(past.done, c) + if calls == [c] then 1 else 0
        ensures past.done + [] == past.done
      {
        CountAppend(past.calls, calls, c);
        CountAppend(past.done, calls, c);
        OneOrNone(calls, c);
      }
    } else {
      var calls := RegistryCalls(e);
      CountAppend(past.calls, calls, Created(name));
      CountAppend(past.calls, calls, Removed(name));
      CountSent(calls, if e.kind == Added && e.users.Some? then e.users.value else [], name);
    }
  }

  /** Announcements over a run.  A user is announced as created once for every handled event that adds
      it, and once more for every time it was in the list sent to a new subscriber; as removed once for
      every handled event that deletes it.  The successful announcements among those for user events
      are those of the events whose callback succeeds. */
  lemma {:induction false} AnnouncedAsReported(events: seq<Event>, name: string)
    ensures var past := Scan(events);
            && CountCalls(past.calls, Created(name)) ==
               Reports(past.handled, Added, name, false) + SentTo(events, name)
            && CountCalls(past.calls, Removed(name)) == Reports(past.handled, Deleted, name, false)
            && CountCalls(past.done, Created(name)) == Reports(past.handled, Added, name, true)
            && CountCalls(past.done, Removed(name)) == Reports(past.handled, Deleted, name, true)
  {
    hide CountCalls, ScanStep, Duplicate;
    if events != [] {
      var n := |events| - 1;
      var past, e := Scan(events[..n]), events[n];
      AnnouncedAsReported(events[..n], name);
      AnnouncedStep(past, e, name);
      forall kind, good {
        ReportsSnoc(past.handled, e, kind, name, good);
      }
    } else {
      OneOrNone([], Created(name));
      OneOrNone([], Removed(name));
    }
  }

  /** The event reports that the user is in the wizard, not through with it. */
  predicate Restarts(e: Event, name: string) {
    e.UserEvent? && e.kind == Modified && e.name == name && e.status.Some? && e.status.value != COMPLETED
  }

  /** The last status of the user is "completed", or there is none. */
  predicate Settled(handled: seq<Event>, name: string) {
    PrevStatus(handled, name).None? || PrevStatus(handled, name).value == COMPLETED
  }

  lemma SettledStep(handled: seq<Event>, e: Event, name: string)
    requires e.UserEvent? && Settled(handled, name) && !Restarts(e, name)
    ensures Settled(handled + [e], name) && !(e.name == name && Activates(handled, e))
  {
    assert (handled + [e])[..|handled|] == handled;
  }

  /** Once the status is "completed", whether or not the callback for it succeeded, nothing attempts to
      activate the user again, redelivered events included, until another status is reported. */
  lemma {:induction false} NoSecondAttempt(events: seq<Event>, more: seq<Event>, name: string)
    requires Settled(Scan(events).handled, name) && forall e :: e in more ==> !Restarts(e, name)
    ensures Settled(Scan(events + more).handled, name)
    ensures CountCalls(Scan(events + more).calls, Activated(name)) == CountCalls(Scan(events).calls, Activated(name))
    decreases |more|
  {
    hide ScanStep, CountCalls, Settled, Restarts;
    if more == [] {
      assert events + more == events;
    } else {
      var front, e := more[..|more| - 1], more[|more| - 1];
      assert e in more && forall x :: x in front ==> x in more;
      assert events + more == (events + front) + [e];
      NoSecondAttempt(events, front, name);
      ScanSnoc(events + front, e);
      NoAttemptNow(Scan(events + front), e, name);
    }
  }

  lemma NoAttemptNow(past: Past, e: Event, name: string)
    requires Settled(past.handled, name) && !Restarts(e, name)
    ensures Settled(ScanStep(past, e).handled, name)
    ensures CountCalls(ScanStep(past, e).calls, Activated(name)) == CountCalls(past.calls, Activated(name))
  {
    hide Activates, CountCalls, Settled, Restarts;
    if e.UserEvent? {
      SettledStep(past.handled, e, name);
      CountAppend(past.calls, CallsFor(past.handled, e), Activated(name));
      CountCallsFor(past.handled, e, name);
    } else {
      CountAppend(past.calls, RegistryCalls(e), Activated(name));
      NoActivationAmong(RegistryCalls(e), name);
    }
  }

  /** The wizard completes, the callback fails, and the event, which was not recorded, comes again: it
      is handled, but no callback is attempted any more. */
  lemma FailedActivationIsLost(step: Event, failing: Event, again: Event)
    requires step.UserEvent? && step.kind == Modified && step.converts
    requires step.status.Some? && step.status.value != COMPLETED
    requires failing == step.(status := Some(COMPLETED), version := failing.version, callbackOk := false)
    requires again == failing.(callbackOk := true) && again.version != step.version
    ensures Scan([step, failing, again]) ==
            Past([step, again], [step, failing, again], [Activated(step.name)], [])
  {
    hide Scan, ScanStep;
    assert [] + [step] == [step] && [step] + [failing] == [step, failing];
    assert [step, failing] + [again] == [step, failing, again];
    ScanNothing();
    ScanSnoc([], step);
    FirstStep(step);
    ScanSnoc([step], failing);
    FailingTurn(step, failing);
    ScanSnoc([step, failing], again);
    Redelivered(step, failing, again);
  }

  /** An activation that is lost. */
  lemma ActivationCanBeLost()
    ensures var step := UserEvent("uid", Modified, "1", "alice", Some("step"), true, true);
            var failing := step.(version := "2", status := Some(COMPLETED), callbackOk := false);
            var past := Scan([step, failing, failing.(callbackOk := true)]);
            past.calls == [Activated("alice")] && past.done == []
  {
    var step := UserEvent("uid", Modified, "1", "alice", Some("step"), true, true);
    var failing := step.(version := "2", status := Some(COMPLETED), callbackOk := false);
    hide Scan;
    assert |"step"| != |COMPLETED| && "1"[0] != "2"[0];
    FailedActivationIsLost(step, failing, failing.(callbackOk := true));
  }

  lemma LastVersionSnoc(recorded: seq<Event>, e: Event, uid: string, kind: Kind)
    ensures LastVersion(recorded + [e], uid, kind) ==
            if e.uid == uid && e.kind == kind then Some(e.version) else LastVersion(recorded, uid, kind)
  {
    assert (recorded + [e])[..|recorded|] == recorded;
  }

  lemma PrevStatusSnoc(handled: seq<Event>, e: Event, name: string)
    ensures PrevStatus(handled + [e], name) ==
            if e.UserEvent? && e.kind == Modified && e.name == name && e.status.Some? then e.status
            else PrevStatus(handled, name)
  {
    assert (handled + [e])[..|handled|] == handled;
  }

  lemma FirstStep(e: Event)
    requires e.UserEvent? && e.kind == Modified && e.converts && e.status != Some(COMPLETED)
    ensures ScanStep(Past([], [], [], []), e) == Past([e], [e], [], [])
  {
    assert [] + [e] == [e];
  }

  lemma FailingTurn(step: Event, e: Event)
    requires step.UserEvent? && step.kind == Modified && step.status.Some? && step.status.value != COMPLETED
    requires e.UserEvent? && e.kind == Modified && e.name == step.name && e.status == Some(COMPLETED)
    requires e.converts && !e.callbackOk && e.version != step.version && e.uid == step.uid
    ensures ScanStep(Past([step], [step], [], []), e) == Past([step], [step, e], [Activated(e.name)], [])
  {
    hide LastVersion, PrevStatus;
    assert [] + [step] == [step] && [step] + [e] == [step, e];
    LastVersionSnoc([], step, e.uid, e.kind);
    PrevStatusSnoc([], step, e.name);
  }

  lemma Redelivered(step: Event, failing: Event, e: Event)
    requires step.UserEvent? && failing.UserEvent? && e.UserEvent? && e.uid == step.uid && e.converts
    requires step.kind == failing.kind == e.kind == Modified && failing.name == e.name
    requires failing.status == e.status == Some(COMPLETED) && e.version != step.version
    ensures ScanStep(Past([step], [step, failing], [Activated(e.name)], []), e) ==
            Past([step, e], [step, failing, e], [Activated(e.name)], [])
  {
    hide LastVersion, PrevStatus;
    assert [] + [step] == [step] && [step] + [failing] == [step, failing] && [step] + [e] == [step, e];
    assert [step, failing] + [e] == [step, failing, e] && [Activated(e.name)] + [] == [Activated(e.name)];
    LastVersionSnoc([], step, e.uid, e.kind);
    PrevStatusSnoc([step], failing, e.name);
  }

  lemma ScanNothing()
    ensures Scan([]) == Past([], [], [], [])
  {
  }

  /** The `k`-th event of a run is acted on: a user event that is understood and whose version is not
      the one recorded last, by then, for the same object and type. */
  predicate Acts(events: seq<Event>, k: nat)
    requires k < |events|
  {
    events[k].UserEvent? && events[k].converts && !Duplicate(Scan(events[..k]).recorded, events[k])
  }

  lemma ActsEarlier(events: seq<Event>, n: nat, k: nat)
    requires k < n <= |events|
    ensures Acts(events[..n], k) <==> Acts(events, k)
  {
    assert events[..n][..k] == events[..k];
  }

  lemma HandledSnoc(events: seq<Event>)
    requires events != []
    ensures var n: nat := |events| - 1;
            Scan(events).handled == Scan(events[..n]).handled + if Acts(events, n) then [events[n]] else []
  {
  }

  /** The handled events of a run are exactly those it acts on, each once and in their order: `at`
      gives their places in the run. */
  lemma {:induction false} HandledAreFresh(events: seq<Event>) returns (at: seq<nat>)
    ensures |at| == |Scan(events).handled|
    ensures forall i, j :: 0 <= i < j < |at| ==> at[i] < at[j]
    ensures forall j :: 0 <= j < |at| ==> at[j] < |events| && Scan(events).handled[j] == events[at[j]]
    ensures forall k: nat :: k < |events| ==> (k in at <==> Acts(events, k))
  {
    hide ScanStep, Acts;
    at := [];
    if events != [] {
      var n := |events| - 1;
      var front := events[..n];
      at := HandledAreFresh(front);
      HandledSnoc(events);
      forall k: nat | k < n ensures Acts(events, k) <==> Acts(front, k) {
        ActsEarlier(events, n, k);
      }
      if Acts(events, n) {
        at := at + [n];
      }
    }
  }

  /** The watcher after a run, in terms of the run alone. */
  lemma WatcherFollowsRun(w: Watcher, events: seq<Event>, name: string, e: Event)
    requires w.Follows(events)
    ensures COMPLETED !in w.activingUsers.Values
    ensures InCache(w.cacheEvent, e) <==> Duplicate(Scan(events).recorded, e)
    ensures CountCalls(w.calls, Activated(name)) == |Turns(Scan(events).handled, name)|
    ensures CountCalls(w.done, Activated(name)) == |GoodTurns(Scan(events).handled, name)|
  {
    SuccessesAreGoodTurns(events, name);
    NeverStoresCompleted(w.activingUsers, Scan(events).handled);
    CacheAgrees(w.cacheEvent, Scan(events).recorded, e);
    ActivationsAreTurns(events, name);
  }
}
