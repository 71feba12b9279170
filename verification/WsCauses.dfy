/**
 Why a connection is closed and why something is written to it, over runs of any length: nothing
 is cancelled that nobody asked for, a connection that asked to be closed goes, and no more is
 written to a connection than it asked for by pings or was pushed to it.
 */
module WsCauses {
  import opened WsRegistry
  import opened WsSystem

  // ---- Closing ----

  /** The run gives a reason for closing `c`: it asked for it itself, or it was meant by a request. */
  ghost predicate Blamed(run: seq<Step>, c: Client) {
    AskToClose(c) in run || exists q :: RequestClose(q) in run && Matches(q, c)
  }

  /** Where a queued close request comes from. */
  ghost predicate Justified(run: seq<Step>, q: Query) {
    || RequestClose(q) in run
    || exists c :: AskToClose(c) in run && forall d :: Matches(q, d) <==> d.id == c.id
  }

  /** All these ids belong to connections there have been. */
  ghost predicate Known(s: State, ids: set<string>) {
    forall id :: id in ids ==> exists c :: c in s.phases && c.id == id
  }

  ghost predicate ClosesJustified(s: State, run: seq<Step>) {
    && (forall c :: AskToClose(c) in run ==> c in s.phases)
    && (forall q :: q in s.closeQueue ==> Justified(run, q))
    && (s.closer.Removing? ==>
          Known(s, s.closer.ids) && forall c :: c in s.phases && c.id in s.closer.ids ==> Blamed(run, c))
    && (forall c :: c in s.cancelled ==> Blamed(run, c))
  }

  lemma MoreBlame(run: seq<Step>, step: Step)
    ensures forall c :: Blamed(run, c) ==> Blamed(run + [step], c)
    ensures forall q :: Justified(run, q) ==> Justified(run + [step], q)
    ensures forall x :: x in run + [step] <==> x in run || x == step
  {
  }

  lemma OnlyItsId(c: Client, d: Client)
    ensures Matches(OnlyId(c.id), d) <==> d.id == c.id
  {
  }

  lemma AskJustifies(s: State, run: seq<Step>, c: Client)
    requires Enabled(s, AskToClose(c))
    ensures var s' := Next(s, AskToClose(c));
            && Justified(run + [AskToClose(c)], OnlyId(c.id))
            && s'.closeQueue == s.closeQueue + [OnlyId(c.id)] && Matches(OnlyId(c.id), c)
            && s'.users == s.users && s'.closer == s.closer && s'.cancelled == s.cancelled
            && s'.phases.Keys == s.phases.Keys
  {
    assert AskToClose(c) in run + [AskToClose(c)];
    forall d ensures Matches(OnlyId(c.id), d) <==> d.id == c.id {
      OnlyItsId(c, d);
    }
  }

  /** What a snapshot selects is to blame. */
  lemma SnapshotBlames(s: State, run: seq<Step>, c: Client)
    requires Inv(s) && ClosesJustified(s, run) && Enabled(s, CloseSnapshot)
    requires c in s.phases && c.id in SelectedIds(s.users, s.closeQueue[0])
    ensures Blamed(run, c)
  {
    var q := s.closeQueue[0];
    var d :| d in Registered(s.users) && Matches(q, d) && d.id == c.id;
    assert d in s.phases;
    assert q in s.closeQueue;
    if RequestClose(q) !in run {
      var a :| AskToClose(a) in run && forall e :: Matches(q, e) <==> e.id == a.id;
      assert a in s.phases;
    }
  }

  lemma SelectedAreKnown(s: State, q: Query)
    requires Inv(s)
    ensures Known(s, SelectedIds(s.users, q))
  {
    SelectedHaveIds(s, q);
  }

  lemma KnownStep(s: State, step: Step, ids: set<string>)
    requires Known(s, ids) && Enabled(s, step)
    ensures Known(Next(s, step), ids)
    ensures step.Register? ==> step.client.id !in ids
  {
    var s' := Next(s, step);
    forall id | id in ids ensures exists c :: c in s'.phases && c.id == id {
      var c :| c in s.phases && c.id == id;
      assert c in s'.phases;
    }
  }

  lemma RequestJustifies(run: seq<Step>, q: Query)
    ensures Justified(run + [RequestClose(q)], q)
  {
    assert RequestClose(q) in run + [RequestClose(q)];
  }

  lemma SnapshotJustified(s: State, run: seq<Step>)
    requires Inv(s) && ClosesJustified(s, run) && Enabled(s, CloseSnapshot)
    ensures ClosesJustified(Next(s, CloseSnapshot), run + [CloseSnapshot])
  {
    hide Inv, SelectedIds, Justified, Blamed, Known;
    MoreBlame(run, CloseSnapshot);
    var ids := SelectedIds(s.users, s.closeQueue[0]);
    SelectedAreKnown(s, s.closeQueue[0]);
    KnownStep(s, CloseSnapshot, ids);
    forall c | c in s.phases && c.id in ids ensures Blamed(run, c) {
      SnapshotBlames(s, run, c);
    }
  }

  lemma RemovalJustified(s: State, run: seq<Step>)
    requires Inv(s) && ClosesJustified(s, run) && Enabled(s, CloseRemove)
    ensures ClosesJustified(Next(s, CloseRemove), run + [CloseRemove])
  {
    hide Registered, Removed, WellFormed, Justified, Blamed, Known;
    MoreBlame(run, CloseRemove);
    forall c | c in Registered(s.users) && c.id in s.closer.ids ensures Blamed(run, c) {
      assert c in s.phases;
    }
  }

  lemma ClosesJustifiedStep(s: State, run: seq<Step>, step: Step)
    requires Inv(s) && ClosesJustified(s, run) && Enabled(s, step)
    ensures ClosesJustified(Next(s, step), run + [step])
  {
    hide Inv, Registered, Added, Removed, SelectedIds, DeliveriesTo, Matches, Justified, Blamed, WellFormed, Known;
    MoreBlame(run, step);
    if s.closer.Removing? {
      KnownStep(s, step, s.closer.ids);
    }
    match step
    case AskToClose(c) => AskJustifies(s, run, c);
    case RequestClose(q) => RequestJustifies(run, q);
    case CloseSnapshot => SnapshotJustified(s, run);
    case CloseRemove => RemovalJustified(s, run);
    case _ =>
  }

  /** Nobody comes back. */
  lemma StillRegistered(s: State, step: Step, c: Client)
    requires Inv(s) && Enabled(s, step) && c in s.phases && c in Registered(Next(s, step).users)
    ensures c in Registered(s.users)
    ensures step.CloseRemove? ==> c.id !in s.closer.ids
  {
    hide Added, Removed, DeliveriesTo, Matches, WellFormed, Registered, SelectedIds;
    if step.Register? {
      InvRegister(s, step.client);
    } else if step.CloseRemove? {
      InvRemove(s);
    }
  }

  lemma {:induction false} ClosesAlways(run: seq<Step>)
    requires Possible(Init, run)
    ensures ClosesJustified(After(Init, run), run)
    decreases |run|
  {
    hide Inv, Next, ClosesJustified;
    if run == [] {
      NothingToJustify();
    } else {
      ClosesAlways(Front(run));
      InvAlways(Front(run));
      ClosesJustifiedStep(After(Init, Front(run)), Front(run), Last(run));
      assert run == Front(run) + [Last(run)];
    }
  }

  lemma NothingToJustify()
    ensures ClosesJustified(Init, [])
  {
  }

  /** No close without a reason: in every possible run a connection that was cancelled had asked to be
      closed itself, or a request to close connections meant it. */
  lemma CancelledForAReason(run: seq<Step>, c: Client)
    requires Possible(Init, run) && c in After(Init, run).cancelled
    ensures AskToClose(c) in run || exists q :: RequestClose(q) in run && Matches(q, c)
  {
    ClosesAlways(run);
  }

  /** How many close requests a run takes from the queue. */
  function Taken(run: seq<Step>): nat {
    if run == [] then 0 else Taken(Front(run)) + if Last(run).CloseSnapshot? then 1 else 0
  }

  /** `c`'s own request is the one behind `ahead` others, or it is being carried out, or `c` is gone. */
  ghost predicate Served(s: State, c: Client, ahead: int) {
    && Inv(s) && c in s.phases
    && (ahead >= 0 ==> ahead < |s.closeQueue| && Matches(s.closeQueue[ahead], c))
    && (ahead < 0 && c in Registered(s.users) ==> s.closer.Removing? && c.id in s.closer.ids)
  }

  lemma ServedStep(s: State, step: Step, c: Client, ahead: int)
    requires Served(s, c, ahead) && Enabled(s, step)
    ensures Served(Next(s, step), c, ahead - if step.CloseSnapshot? then 1 else 0)
  {
    hide Inv, Added, Removed, DeliveriesTo, Matches, WellFormed, Registered;
    InvStep(s, step);
    if c in Registered(Next(s, step).users) {
      StillRegistered(s, step, c);
      if step.CloseSnapshot? && ahead == 0 {
        assert c.id in SelectedIds(s.users, s.closeQueue[0]);
      }
    }
  }

  lemma {:induction false} ServedRun(s: State, after: seq<Step>, c: Client, ahead: int)
    requires Possible(s, after) && Served(s, c, ahead)
    ensures Served(After(s, after), c, ahead - Taken(after))
    decreases |after|
  {
    hide Served, Next;
    if after != [] {
      ServedRun(s, Front(after), c, ahead);
      ServedStep(After(s, Front(after)), Last(after), c, ahead - Taken(Front(after)));
    }
  }

  /** Who asks goes: once the requests that waited when a connection asked to be closed have been taken,
      and then its own, and the last one taken is carried out, the connection is unregistered and was
      cancelled once. */
  lemma AskersGo(before: seq<Step>, c: Client, after: seq<Step>)
    requires Possible(Init, before) && Enabled(After(Init, before), AskToClose(c))
    requires Possible(Next(After(Init, before), AskToClose(c)), after)
    requires Taken(after) > |After(Init, before).closeQueue|
    requires After(Next(After(Init, before), AskToClose(c)), after).closer.CloserIdle?
    ensures var s := After(Next(After(Init, before), AskToClose(c)), after);
            c !in Registered(s.users) && s.cancelled[c] == 1
  {
    hide Next, Registered, Possible, After, Matches;
    var s0 := After(Init, before);
    InvAlways(before);
    InvStep(s0, AskToClose(c));
    AskJustifies(s0, before, c);
    ServedRun(Next(s0, AskToClose(c)), after, c, |s0.closeQueue|);
  }

  /** What is asked for is done: once the requests that waited before a close request have been taken,
      and then the request itself, and the last one taken is carried out, every connection that was
      registered at the request and is meant by it is unregistered. */
  lemma RequestsAreServed(before: seq<Step>, q: Query, c: Client, after: seq<Step>)
    requires Possible(Init, before) && Enabled(After(Init, before), RequestClose(q))
    requires c in Registered(After(Init, before).users) && Matches(q, c)
    requires Possible(Next(After(Init, before), RequestClose(q)), after)
    requires Taken(after) > |After(Init, before).closeQueue|
    requires After(Next(After(Init, before), RequestClose(q)), after).closer.CloserIdle?
    ensures var s := After(Next(After(Init, before), RequestClose(q)), after);
            c !in Registered(s.users) && s.cancelled[c] == 1
  {
    hide Registered, Possible, After, Matches;
    var s0 := After(Init, before);
    InvAlways(before);
    InvStep(s0, RequestClose(q));
    ServedRun(Next(s0, RequestClose(q)), after, c, |s0.closeQueue|);
  }

  lemma FinishingStep(s: State, step: Step, c: Client)
    requires Enabled(s, step) && InPhase(Next(s, step), c, Finished)
    ensures InPhase(s, c, Finished) || step == AskToClose(c) || c in s.cancelled
    ensures c in s.cancelled ==> c in Next(s, step).cancelled
  {
    hide Registered, Added, Removed, SelectedIds, DeliveriesTo, Matches;
  }

  /** A goroutine ends for a reason: its connection had asked to be closed, or was cancelled. */
  lemma {:induction false} FinishedForAReason(run: seq<Step>, c: Client)
    requires Possible(Init, run) && InPhase(After(Init, run), c, Finished)
    ensures AskToClose(c) in run || c in After(Init, run).cancelled
    decreases |run|
  {
    hide Next, Enabled, InPhase;
    if run == [] {
      NobodyYet(c);
    } else {
      assert run == Front(run) + [Last(run)];
      FinishingStep(After(Init, Front(run)), Last(run), c);
      if InPhase(After(Init, Front(run)), c, Finished) {
        FinishedForAReason(Front(run), c);
      }
    }
  }

  lemma NobodyYet(c: Client)
    ensures !InPhase(Init, c, Finished)
  {
  }

  // ---- Writing ----

  /** The step is a reason to write `message` to `c`: a ping of `c` itself, which is answered, or a
      push that means `c`. */
  predicate Reason(step: Step, c: Client, message: string) {
    || (step == Receive(c, Ping) && message == "{\"event\":\"pong\"}")
    || (step.RequestPush? && step.push.message == message && Matches(step.push.target, c))
  }

  function Reasons(run: seq<Step>, c: Client, message: string): nat {
    if run == [] then 0 else Reasons(Front(run), c, message) + if Reason(Last(run), c, message) then 1 else 0
  }

  /** The queued pushes of `message` that mean `c`. */
  function Waiting(queue: seq<Push>, c: Client, message: string): nat {
    if queue == [] then 0
    else
      (if queue[0].message == message && Matches(queue[0].target, c) then 1 else 0)
      + Waiting(queue[1..], c, message)
  }

  lemma {:induction false} WaitingMore(queue: seq<Push>, p: Push, c: Client, message: string)
    ensures Waiting(queue + [p], c, message) ==
            Waiting(queue, c, message) + if p.message == message && Matches(p.target, c) then 1 else 0
  {
    if queue == [] {
      assert [p][1..] == [];
      assert queue + [p] == [p];
    } else {
      assert (queue + [p])[1..] == queue[1..] + [p];
      WaitingMore(queue[1..], p, c, message);
    }
  }

  /** What has been written to `c`, is about to be, or waits to be. */
  function Written(s: State, c: Client, message: string): nat {
    s.delivered[Delivery(c, message)] + Waiting(s.writeQueue, c, message)
    + if s.writer.Delivering? && s.writer.message == message && c.id in s.writer.ids then 1 else 0
  }

  /** Nothing is written to a connection without a cause of its own. */
  ghost predicate Accounted(s: State, run: seq<Step>, c: Client, message: string) {
    && (s.writer.Delivering? ==> Known(s, s.writer.ids))
    && (c in s.phases || FreshId(s, c.id) ==> Written(s, c, message) <= Reasons(run, c, message))
  }

  lemma ReasonsMore(run: seq<Step>, step: Step, c: Client, message: string)
    ensures Reasons(run + [step], c, message) ==
            Reasons(run, c, message) + if Reason(step, c, message) then 1 else 0
  {
    assert Front(run + [step]) == run;
  }

  /** A ping queues a push of the pong that means its own connection, then and later. */
  lemma PingAnswered(s: State, d: Client, c: Client, message: string)
    requires Inv(s) && Enabled(s, Receive(d, Ping)) && (c in s.phases || FreshId(s, c.id))
    ensures Written(Next(s, Receive(d, Ping)), c, message) ==
            Written(s, c, message) + if Reason(Receive(d, Ping), c, message) then 1 else 0
  {
    var p := Push(OnlyId(d.id), PONG);
    OnlyItsId(d, c);
    assert d in s.phases;
    WaitingMore(s.writeQueue, p, c, message);
  }

  lemma PushQueued(s: State, p: Push, c: Client, message: string)
    requires Enabled(s, RequestPush(p))
    ensures Written(Next(s, RequestPush(p)), c, message) ==
            Written(s, c, message) + if Reason(RequestPush(p), c, message) then 1 else 0
  {
    WaitingMore(s.writeQueue, p, c, message);
  }

  /** Whom a snapshot chooses of one id, it chooses for itself. */
  lemma ChosenForItself(s: State, q: Query, c: Client)
    requires Inv(s) && (c in s.phases || FreshId(s, c.id)) && c.id in SelectedIds(s.users, q)
    ensures Matches(q, c)
  {
    var d :| d in Registered(s.users) && Matches(q, d) && d.id == c.id;
    assert d in s.phases;
  }

  lemma SnapshotMoves(s: State, c: Client, message: string)
    requires Inv(s) && Enabled(s, WriteSnapshot) && (c in s.phases || FreshId(s, c.id))
    ensures Written(Next(s, WriteSnapshot), c, message) <= Written(s, c, message)
  {
    hide Inv, FreshId, Matches, Registered, SelectedIds;
    var q := s.writeQueue[0].target;
    if c.id in SelectedIds(s.users, q) {
      ChosenForItself(s, q, c);
    }
  }

  lemma DeliveryMoves(s: State, c: Client, message: string)
    requires Enabled(s, WriteDeliver)
    ensures Written(Next(s, WriteDeliver), c, message) <= Written(s, c, message)
  {
    hide DeliveriesTo;
    DeliveryCounts((set d | d in Registered(s.users) && d.id in s.writer.ids), c, message, s.writer.message);
  }

  lemma WriterKnown(s: State, step: Step)
    requires Inv(s) && Enabled(s, step) && (s.writer.Delivering? ==> Known(s, s.writer.ids))
    ensures var s' := Next(s, step);
            s'.writer.Delivering? ==> Known(s', s'.writer.ids)
    ensures step.Register? && s.writer.Delivering? ==> step.client.id !in s.writer.ids
  {
    hide Inv, SelectedIds, Known;
    if s.writer.Delivering? {
      KnownStep(s, step, s.writer.ids);
    } else if step.WriteSnapshot? {
      SelectedAreKnown(s, s.writeQueue[0].target);
      KnownStep(s, step, SelectedIds(s.users, s.writeQueue[0].target));
    }
  }

  lemma AccountedStep(s: State, run: seq<Step>, step: Step, c: Client, message: string)
    requires Inv(s) && Accounted(s, run, c, message) && Enabled(s, step)
    ensures Accounted(Next(s, step), run + [step], c, message)
  {
    hide Inv, Registered, Added, Removed, SelectedIds, DeliveriesTo, Matches, Known, Reasons, Reason, Waiting;
    ReasonsMore(run, step, c, message);
    WriterKnown(s, step);
    if c in s.phases || FreshId(s, c.id) {
      match step
      case Receive(d, Ping) => PingAnswered(s, d, c, message);
      case RequestPush(p) => PushQueued(s, p, c, message);
      case WriteSnapshot => SnapshotMoves(s, c, message);
      case WriteDeliver => DeliveryMoves(s, c, message);
      case _ =>
    }
  }

  lemma {:induction false} AccountedAlways(run: seq<Step>, c: Client, message: string)
    requires Possible(Init, run)
    ensures Accounted(After(Init, run), run, c, message)
    decreases |run|
  {
    hide Inv, Next, Accounted;
    if run == [] {
      NothingWritten(c, message);
    } else {
      AccountedAlways(Front(run), c, message);
      InvAlways(Front(run));
      AccountedStep(After(Init, Front(run)), Front(run), Last(run), c, message);
      assert run == Front(run) + [Last(run)];
    }
  }

  lemma NothingWritten(c: Client, message: string)
    ensures Accounted(Init, [], c, message)
  {
  }

  /** Nothing is written without a reason, and not more often than there are reasons: in every possible
      run, for every message and every connection there has been, the writes and what is still queued
      or held for it are at most its own pings, if the message is the pong, and the pushes of this
      message that mean it. */
  lemma WrittenForAReason(run: seq<Step>, c: Client, message: string)
    requires Possible(Init, run) && c in After(Init, run).phases
    ensures After(Init, run).delivered[Delivery(c, message)] <= Reasons(run, c, message)
  {
    AccountedAlways(run, c, message);
  }

  /** The pings a connection has sent. */
  function Pings(run: seq<Step>, c: Client): nat {
    if run == [] then 0 else Pings(Front(run), c) + if Last(run) == Receive(c, Ping) then 1 else 0
  }

  lemma {:induction false} PingsAreReasons(run: seq<Step>, c: Client, message: string)
    requires forall p :: RequestPush(p) !in run
    ensures Reasons(run, c, message) == if message == "{\"event\":\"pong\"}" then Pings(run, c) else 0
  {
    if run != [] {
      assert Last(run) in run;
      PingsAreReasons(Front(run), c, message);
    }
  }

  /** When nobody pushes, a connection is written pongs only, at most one for each of its own pings. */
  lemma OnlyPongs(run: seq<Step>, c: Client, message: string)
    requires Possible(Init, run) && c in After(Init, run).phases && forall p :: RequestPush(p) !in run
    ensures After(Init, run).delivered[Delivery(c, message)]
            <= if message == "{\"event\":\"pong\"}" then Pings(run, c) else 0
  {
    WrittenForAReason(run, c, message);
    PingsAreReasons(run, c, message);
  }

  /** How many pushes a run takes from the queue. */
  function PushesTaken(run: seq<Step>): nat {
    if run == [] then 0 else PushesTaken(Front(run)) + if Last(run).WriteSnapshot? then 1 else 0
  }

  lemma QueueStep(s: State, step: Step)
    requires Enabled(s, step)
    ensures var taken, queue := if step.WriteSnapshot? then 1 else 0, Next(s, step).writeQueue;
            taken <= |s.writeQueue| && s.writeQueue[taken..] <= queue
  {
    hide Registered, Added, Removed, SelectedIds, DeliveriesTo, Matches;
  }

  /** Pushes are taken in the order they were queued: one with `ahead` others before it comes up after
      that many were taken. */
  lemma {:induction false} PushesInOrder(s: State, run: seq<Step>, ahead: nat)
    requires Possible(s, run) && ahead < |s.writeQueue| && PushesTaken(run) <= ahead
    ensures var queue := After(s, run).writeQueue;
            ahead - PushesTaken(run) < |queue| && queue[ahead - PushesTaken(run)] == s.writeQueue[ahead]
    decreases |run|
  {
    hide Next, Enabled;
    if run != [] {
      PushesInOrder(s, Front(run), ahead);
      QueueStep(After(s, Front(run)), Last(run));
    }
  }

  /** A push comes up: when the pushes that waited before it have been taken, it is the next one. */
  lemma PushComesUp(s: State, p: Push, run: seq<Step>)
    requires Enabled(s, RequestPush(p)) && Possible(Next(s, RequestPush(p)), run)
    requires PushesTaken(run) == |s.writeQueue|
    ensures var queue := After(Next(s, RequestPush(p)), run).writeQueue;
            queue != [] && queue[0] == p
  {
    PushesInOrder(Next(s, RequestPush(p)), run, |s.writeQueue|);
  }

  /** A ping queues one push, with the pong, and in every state the server can be in the push selects
      the connection that sent it, as long as it is registered, and nobody else. */
  lemma PingQueuesPong(run: seq<Step>, c: Client, later: seq<Step>)
    requires Possible(Init, run) && Enabled(After(Init, run), Receive(c, Ping))
    requires Possible(Init, later) && c in After(Init, later).phases
    ensures var s, s' := After(Init, run), Next(After(Init, run), Receive(c, Ping));
            && |s'.writeQueue| == |s.writeQueue| + 1 && s.writeQueue <= s'.writeQueue
            && s'.writeQueue[|s.writeQueue|].message == "{\"event\":\"pong\"}"
            && Selected(After(Init, later), s'.writeQueue[|s.writeQueue|].target)
               == {c} * Registered(After(Init, later).users)
  {
    var t := After(Init, later);
    InvAlways(later);
    forall d ensures Matches(OnlyId(c.id), d) <==> d.id == c.id {
      OnlyItsId(c, d);
    }
    assert Selected(t, OnlyId(c.id)) == {c} * Registered(t.users);
  }
}
