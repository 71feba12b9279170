/**
 The WebSocket server as interleaved routines: one goroutine per connection, the routines that
 serve the read, write and close queues, and the expiry sweep.  A run is any sequence of atomic
 steps; the lock makes each registry access one step, and a close or a push is two of them, a
 snapshot and a later update.
 */
module WsSystem {
  import opened WsRegistry

  const QUEUE_SIZE := 500

  datatype Event = Opened | Message(payload: string) | Closed

  /** An entry of the read queue: what the application's handler is called with. */
  datatype ReadEntry = ReadEntry(id: string, event: Event)

  datatype Push = Push(target: Query, message: string)

  datatype Incoming = Ping | Data(payload: string)

  const PONG := "{\"event\":\"pong\"}"

  /** How far a connection's goroutine has come. */
  datatype Phase = Registering | Reading | Failing | Finished

  datatype Closer = CloserIdle | Removing(ids: set<string>)
  datatype Writer = WriterIdle | Delivering(ids: set<string>, message: string)

  datatype State = State(
    users: Users,
    phases: map<Client, Phase>,
    cancelled: multiset<Client>,
    readQueue: seq<ReadEntry>,
    handled: seq<ReadEntry>,
    closeQueue: seq<Query>,
    closer: Closer,
    writeQueue: seq<Push>,
    writer: Writer,
    delivered: multiset<Delivery>)

  datatype Step =
    | Register(client: Client)               // addClient
    | Notice(client: Client)                 // noticeConnected
    | Receive(client: Client, what: Incoming)// a message read by onConnection
    | ReadError(client: Client)              // reading failed: the close event ...
    | AskToClose(client: Client)             // ... and then the request to be closed
    | SeeCancel(client: Client)              // the context was cancelled
    | RequestClose(target: Query)            // Close, or the sweep of expired connections
    | RequestPush(push: Push)                // Push
    | HandleRead                             // routineRead
    | CloseSnapshot | CloseRemove            // routineClose
    | WriteSnapshot | WriteDeliver           // routineWrite

  function OnlyId(id: string): Query {
    Query([id], [], [], 0)
  }

  const Init := State(map[], map[], multiset{}, [], [], [], CloserIdle, [], WriterIdle, multiset{})

  predicate FreshId(s: State, id: string) {
    forall c :: c in s.phases ==> c.id != id
  }

  predicate InPhase(s: State, c: Client, p: Phase) {
    c in s.phases && s.phases[c] == p
  }

  predicate Enabled(s: State, step: Step) {
    match step
    case Register(c) => FreshId(s, c.id)
    case Notice(c) => InPhase(s, c, Registering) && |s.readQueue| < QUEUE_SIZE
    case Receive(c, what) =>
      InPhase(s, c, Reading) && (if what.Ping? then |s.writeQueue| else |s.readQueue|) < QUEUE_SIZE
    case ReadError(c) => InPhase(s, c, Reading) && |s.readQueue| < QUEUE_SIZE
    case AskToClose(c) => InPhase(s, c, Failing) && |s.closeQueue| < QUEUE_SIZE
    case SeeCancel(c) => InPhase(s, c, Reading) && c in s.cancelled
    case RequestClose(_) => |s.closeQueue| < QUEUE_SIZE
    case RequestPush(_) => |s.writeQueue| < QUEUE_SIZE
    case HandleRead => s.readQueue != []
    case CloseSnapshot => s.closer.CloserIdle? && s.closeQueue != []
    case CloseRemove => s.closer.Removing?
    case WriteSnapshot => s.writer.WriterIdle? && s.writeQueue != []
    case WriteDeliver => s.writer.Delivering?
  }

  ghost function Next(s: State, step: Step): State
    requires Enabled(s, step)
  {
    match step
    case Register(c) => s.(users := Added(s.users, c), phases := s.phases[c := Registering])
    case Notice(c) =>
      s.(phases := s.phases[c := Reading], readQueue := s.readQueue + [ReadEntry(c.id, Opened)])
    case Receive(c, what) => (
      match what
      case Ping => s.(writeQueue := s.writeQueue + [Push(OnlyId(c.id), PONG)])
      case Data(payload) => s.(readQueue := s.readQueue + [ReadEntry(c.id, Message(payload))]))
    case ReadError(c) =>
      s.(phases := s.phases[c := Failing], readQueue := s.readQueue + [ReadEntry(c.id, Closed)])
    case AskToClose(c) =>
      s.(phases := s.phases[c := Finished], closeQueue := s.closeQueue + [OnlyId(c.id)])
    case SeeCancel(c) => s.(phases := s.phases[c := Finished])
    case RequestClose(q) => s.(closeQueue := s.closeQueue + [q])
    case RequestPush(p) => s.(writeQueue := s.writeQueue + [p])
    case HandleRead => s.(readQueue := s.readQueue[1..], handled := s.handled + [s.readQueue[0]])
    case CloseSnapshot =>
      var ids := SelectedIds(s.users, s.closeQueue[0]);
      s.(closeQueue := s.closeQueue[1..], closer := if ids == {} then CloserIdle else Removing(ids))
    case CloseRemove =>
      s.(users := Removed(s.users, s.closer.ids), closer := CloserIdle,
         cancelled := s.cancelled + multiset(set c | c in Registered(s.users) && c.id in s.closer.ids))
    case WriteSnapshot =>
      var ids := SelectedIds(s.users, s.writeQueue[0].target);
      s.(writeQueue := s.writeQueue[1..],
         writer := if ids == {} then WriterIdle else Delivering(ids, s.writeQueue[0].message))
    case WriteDeliver =>
      s.(writer := WriterIdle,
         delivered := s.delivered
           + multiset(DeliveriesTo((set c | c in Registered(s.users) && c.id in s.writer.ids), s.writer.message)))
  }

  // ---- Runs ----

  function Front<T>(run: seq<T>): seq<T>
    requires run != []
  {
    run[..|run| - 1]
  }

  function Last<T>(run: seq<T>): T
    requires run != []
  {
    run[|run| - 1]
  }

  /** Every step of the run was enabled when it was taken. */
  ghost predicate Possible(s: State, run: seq<Step>)
    decreases |run|, 0
  {
    run == [] || (Possible(s, Front(run)) && Enabled(After(s, Front(run)), Last(run)))
  }

  ghost function After(s: State, run: seq<Step>): State
    requires Possible(s, run)
    decreases |run|, 1
  {
    if run == [] then s else Next(After(s, Front(run)), Last(run))
  }

  // ---- What every reachable state keeps ----

  /** Connections are registered under their own keys with no empty user left behind; ids are
      never reused; a connection ever added is registered or was cancelled once, never both. */
  ghost predicate Inv(s: State) {
    && WellFormed(s.users)
    && (forall c, d :: c in s.phases && d in s.phases && c.id == d.id ==> c == d)
    && (forall c :: c in Registered(s.users) ==> c in s.phases)
    && (forall c :: c in s.cancelled ==> c in s.phases)
    && (forall c :: c in s.phases ==> s.cancelled[c] == if c in Registered(s.users) then 0 else 1)
    && |s.readQueue| <= 500 && |s.writeQueue| <= 500 && |s.closeQueue| <= 500
  }

  lemma InvRegister(s: State, c: Client)
    requires Inv(s) && FreshId(s, c.id)
    ensures Inv(Next(s, Register(c)))
    ensures Registered(Next(s, Register(c)).users) == Registered(s.users) + {c}
  {
    AddedRegisters(s.users, c);
    assert c !in s.phases;
  }

  lemma InvRemove(s: State)
    requires Inv(s) && s.closer.Removing?
    ensures Inv(Next(s, CloseRemove))
    ensures Registered(Next(s, CloseRemove).users) == set c | c in Registered(s.users) && c.id !in s.closer.ids
  {
    var gone := set c | c in Registered(s.users) && c.id in s.closer.ids;
    RemovedUnregisters(s.users, s.closer.ids);
    var s' := Next(s, CloseRemove);
    forall c | c in s.phases
      ensures s'.cancelled[c] == if c in Registered(s'.users) then 0 else 1
    {
      assert multiset(gone)[c] == if c in gone then 1 else 0;
    }
  }

  lemma InvStep(s: State, step: Step)
    requires Inv(s) && Enabled(s, step)
    ensures Inv(Next(s, step))
  {
    match step
    case Register(c) => InvRegister(s, c);
    case CloseRemove => InvRemove(s);
    case _ =>
  }

  /** Registry invariants and conservation, in every reachable state. */
  lemma {:induction false} InvAlways(run: seq<Step>)
    requires Possible(Init, run)
    ensures Inv(After(Init, run))
    decreases |run|
  {
    if run != [] {
      InvAlways(Front(run));
      InvStep(After(Init, Front(run)), Last(run));
    }
  }

  // ---- A close is atomic at its snapshot ----

  /** The connections a piece of a run adds. */
  ghost function AddedBy(run: seq<Step>): set<Client> {
    set k | 0 <= k < |run| && run[k].Register? :: run[k].client
  }

  lemma AddedBySnoc(run: seq<Step>, step: Step)
    ensures AddedBy(run + [step]) == AddedBy(run) + (if step.Register? then {step.client} else {})
  {
    var all := run + [step];
    forall c | c in AddedBy(run) ensures c in AddedBy(all) {
      var k :| 0 <= k < |run| && run[k].Register? && run[k].client == c;
      assert all[k] == run[k];
    }
    if step.Register? {
      assert all[|run|] == step;
    }
  }

  /** While the closer holds its selection the registry only grows, and by unselected connections. */
  ghost predicate Holding(s: State, start: State, ids: set<string>, added: set<Client>) {
    && Inv(s)
    && s.closer == Removing(ids)
    && s.cancelled == start.cancelled
    && Registered(s.users) == Registered(start.users) + added
    && (forall c :: c in added ==> c.id !in ids)
    && (forall c :: c in start.phases ==> c in s.phases)
  }

  lemma RegisterFields(s: State, c: Client)
    requires FreshId(s, c.id)
    ensures var s' := Next(s, Register(c));
            && s'.closer == s.closer && s'.cancelled == s.cancelled
            && (forall d :: d in s.phases ==> d in s'.phases && d.id != c.id)
  {
    hide Added;
  }

  lemma HoldingRegister(s: State, c: Client, start: State, ids: set<string>, added: set<Client>)
    requires Holding(s, start, ids, added) && FreshId(s, c.id)
    requires forall id :: id in ids ==> exists d :: d in start.phases && d.id == id
    ensures Holding(Next(s, Register(c)), start, ids, added + {c})
  {
    hide Inv, Registered, Added, Next, FreshId;
    InvRegister(s, c);
    RegisterFields(s, c);
    assert forall d :: d in start.phases ==> d in s.phases && d.id != c.id;
    assert c.id !in ids;
    var users := Registered(start.users);
    assert users + added + {c} == users + (added + {c});
  }

  lemma HoldingStep(s: State, step: Step, start: State, ids: set<string>, added: set<Client>)
    requires Holding(s, start, ids, added) && Enabled(s, step) && !step.CloseRemove?
    requires forall id :: id in ids ==> exists c :: c in start.phases && c.id == id
    ensures Holding(Next(s, step), start, ids, added + (if step.Register? then {step.client} else {}))
  {
    hide Inv, Registered, Added, Removed, SelectedIds, DeliveriesTo;
    InvStep(s, step);
    if step.Register? {
      HoldingRegister(s, step.client, start, ids, added);
    } else {
      assert added + {} == added;
    }
  }

  lemma {:induction false} HoldingRun(snap: State, middle: seq<Step>, start: State, ids: set<string>)
    requires Possible(snap, middle) && CloseRemove !in middle
    requires Holding(snap, start, ids, {})
    requires forall id :: id in ids ==> exists c :: c in start.phases && c.id == id
    ensures Holding(After(snap, middle), start, ids, AddedBy(middle))
    decreases |middle|
  {
    if middle != [] {
      var front, step := Front(middle), Last(middle);
      assert middle == front + [step];
      assert step in middle;
      HoldingRun(snap, front, start, ids);
      HoldingStep(After(snap, front), step, start, ids, AddedBy(front));
      AddedBySnoc(front, step);
    } else {
      assert AddedBy(middle) == {};
    }
  }

  ghost function Selected(s: State, q: Query): set<Client> {
    set c | c in Registered(s.users) && Matches(q, c)
  }

  lemma SelectedHaveIds(s: State, q: Query)
    requires Inv(s)
    ensures forall c :: c in Registered(s.users) ==> (c.id in SelectedIds(s.users, q) <==> c in Selected(s, q))
    ensures forall id :: id in SelectedIds(s.users, q) ==>
              exists c :: c in Selected(s, q) && c in s.phases && c.id == id
    ensures SelectedIds(s.users, q) == {} <==> Selected(s, q) == {}
  {
    forall c | c in Registered(s.users) ensures c.id in SelectedIds(s.users, q) <==> c in Selected(s, q) {
      if c.id in SelectedIds(s.users, q) {
        var d :| d in Registered(s.users) && Matches(q, d) && d.id == c.id;
        assert d in s.phases && c in s.phases;
      }
    }
    forall id | id in SelectedIds(s.users, q) ensures exists c :: c in Selected(s, q) && c in s.phases && c.id == id {
      var d :| d in Registered(s.users) && Matches(q, d) && d.id == id;
      assert d in Selected(s, q);
    }
    if c :| c in Selected(s, q) {
      assert c.id in SelectedIds(s.users, q);
    }
  }

  lemma HoldingChosen(s0: State, q: Query, s1: State, added: set<Client>)
    requires Inv(s0) && Holding(s1, s0, SelectedIds(s0.users, q), added)
    ensures (set c | c in Registered(s1.users) && c.id in SelectedIds(s0.users, q)) == Selected(s0, q)
    ensures (set c | c in Registered(s1.users) && c.id !in SelectedIds(s0.users, q))
            == Registered(s0.users) - Selected(s0, q) + added
  {
    hide SelectedIds, Inv, Registered;
    SelectedHaveIds(s0, q);
    SplitByIds(Registered(s0.users), added, Selected(s0, q), SelectedIds(s0.users, q));
  }

  lemma SplitByIds(registered: set<Client>, added: set<Client>, chosen: set<Client>, ids: set<string>)
    requires chosen <= registered && forall c :: c in registered ==> (c.id in ids <==> c in chosen)
    requires forall c :: c in added ==> c.id !in ids
    ensures (set c | c in registered + added && c.id in ids) == chosen
    ensures (set c | c in registered + added && c.id !in ids) == registered - chosen + added
  {
  }

  lemma SnapshotHolds(s: State)
    requires Inv(s) && Enabled(s, CloseSnapshot) && Selected(s, s.closeQueue[0]) != {}
    ensures var ids := SelectedIds(s.users, s.closeQueue[0]);
            && Holding(Next(s, CloseSnapshot), s, ids, {})
            && forall id :: id in ids ==> exists c :: c in s.phases && c.id == id
  {
    hide Inv, Registered, SelectedIds, Selected;
    SelectedHaveIds(s, s.closeQueue[0]);
    InvStep(s, CloseSnapshot);
    assert Registered(s.users) == Registered(s.users) + {};
  }

  lemma HoldingEnds(s0: State, q: Query, s1: State, added: set<Client>)
    requires Inv(s0) && Holding(s1, s0, SelectedIds(s0.users, q), added)
    ensures Enabled(s1, CloseRemove)
    ensures Registered(Next(s1, CloseRemove).users) == Registered(s0.users) - Selected(s0, q) + added
    ensures Next(s1, CloseRemove).cancelled == s0.cancelled + multiset(Selected(s0, q))
  {
    hide Inv, Registered, Removed, SelectedIds, Selected;
    InvRemove(s1);
    HoldingChosen(s0, q, s1, added);
  }

  /** A close takes effect as if at its snapshot.  From any reachable state, whatever happens
      between the snapshot and the removal, the removal leaves the registry of the snapshot without
      the selected connections plus everything added since, and cancels exactly the selected. */
  lemma CloseIsAtomic(before: seq<Step>, middle: seq<Step>)
    requires Possible(Init, before)
    requires Enabled(After(Init, before), CloseSnapshot)
    requires Selected(After(Init, before), After(Init, before).closeQueue[0]) != {}
    requires Possible(Next(After(Init, before), CloseSnapshot), middle) && CloseRemove !in middle
    ensures var s0 := After(Init, before);
            var s1 := After(Next(s0, CloseSnapshot), middle);
            var chosen := Selected(s0, s0.closeQueue[0]);
            && Enabled(s1, CloseRemove)
            && Registered(Next(s1, CloseRemove).users) == Registered(s0.users) - chosen + AddedBy(middle)
            && Next(s1, CloseRemove).cancelled == s0.cancelled + multiset(chosen)
  {
    hide Inv, Registered, SelectedIds, Selected, AddedBy, Possible, After, Holding;
    var s0 := After(Init, before);
    var q := s0.closeQueue[0];
    InvAlways(before);
    SnapshotHolds(s0);
    HoldingRun(Next(s0, CloseSnapshot), middle, s0, SelectedIds(s0.users, q));
    HoldingEnds(s0, q, After(Next(s0, CloseSnapshot), middle), AddedBy(middle));
  }

  // ---- Delivery ----

  /** While the writer holds its selection, a registered connection with a selected id is one
      selected at the snapshot. */
  ghost predicate Aimed(s: State, start: State, ids: set<string>, message: string) {
    && Inv(s)
    && s.writer == Delivering(ids, message)
    && s.delivered == start.delivered
    && (forall c :: c in start.phases ==> c in s.phases)
    && (forall c :: c in Registered(s.users) && c in start.phases ==> c in Registered(start.users))
  }

  lemma AimedStep(s: State, step: Step, start: State, ids: set<string>, message: string)
    requires Aimed(s, start, ids, message) && Enabled(s, step) && !step.WriteDeliver?
    ensures Aimed(Next(s, step), start, ids, message)
  {
    InvStep(s, step);
    if step.Register? {
      InvRegister(s, step.client);
      assert step.client !in s.phases;
    } else if step.CloseRemove? {
      InvRemove(s);
    }
  }

  lemma {:induction false} AimedRun(snap: State, middle: seq<Step>, start: State, ids: set<string>, message: string)
    requires Possible(snap, middle) && WriteDeliver !in middle
    requires Aimed(snap, start, ids, message)
    ensures Aimed(After(snap, middle), start, ids, message)
    decreases |middle|
  {
    if middle != [] {
      assert middle == Front(middle) + [Last(middle)];
      assert Last(middle) in middle;
      AimedRun(snap, Front(middle), start, ids, message);
      AimedStep(After(snap, Front(middle)), Last(middle), start, ids, message);
    }
  }

  lemma AimedChosen(s0: State, q: Query, s1: State, message: string)
    requires Inv(s0) && Aimed(s1, s0, SelectedIds(s0.users, q), message)
    ensures (set c | c in Registered(s1.users) && c.id in SelectedIds(s0.users, q))
            == Selected(s0, q) * Registered(s1.users)
  {
    SelectedHaveIds(s0, q);
    hide SelectedIds, Registered;
    forall c | c in Registered(s1.users) && c.id in SelectedIds(s0.users, q) ensures c in Registered(s0.users) {
      var d :| d in Selected(s0, q) && d in s0.phases && d.id == c.id;
      assert d in s1.phases && c in s1.phases;
    }
  }

  lemma DeliveryCounts(clients: set<Client>, c: Client, message: string, written: string)
    ensures multiset(DeliveriesTo(clients, written))[Delivery(c, message)] ==
            if c in clients && message == written then 1 else 0
  {
    assert Delivery(c, message) in DeliveriesTo(clients, written) <==> c in clients && message == written;
  }

  /** Exact delivery: a push is written once to every connection that matched its target at the
      snapshot and is still registered at delivery, and to nobody else. */
  lemma DeliveryIsExact(before: seq<Step>, middle: seq<Step>)
    requires Possible(Init, before)
    requires Enabled(After(Init, before), WriteSnapshot)
    requires Selected(After(Init, before), After(Init, before).writeQueue[0].target) != {}
    requires Possible(Next(After(Init, before), WriteSnapshot), middle) && WriteDeliver !in middle
    ensures var s0 := After(Init, before);
            var s1 := After(Next(s0, WriteSnapshot), middle);
            var push := s0.writeQueue[0];
            && Enabled(s1, WriteDeliver)
            && forall c, message ::
                 Next(s1, WriteDeliver).delivered[Delivery(c, message)] ==
                 s0.delivered[Delivery(c, message)]
                 + if c in Selected(s0, push.target) && c in Registered(s1.users) && message == push.message
                   then 1 else 0
  {
    hide Inv, Registered, SelectedIds, Selected, Possible, After, DeliveriesTo;
    var s0 := After(Init, before);
    var push := s0.writeQueue[0];
    var ids := SelectedIds(s0.users, push.target);
    InvAlways(before);
    SelectedHaveIds(s0, push.target);
    InvStep(s0, WriteSnapshot);
    AimedRun(Next(s0, WriteSnapshot), middle, s0, ids, push.message);
    var s1 := After(Next(s0, WriteSnapshot), middle);
    AimedChosen(s0, push.target, s1, push.message);
    forall c, message {
      DeliveryCounts(Selected(s0, push.target) * Registered(s1.users), c, message, push.message);
    }
  }

  // ---- Event traces ----

  /** The entries of one connection. */
  function Of(entries: seq<ReadEntry>, id: string): seq<Event> {
    if entries == [] then []
    else Of(Front(entries), id) + (if Last(entries).id == id then [Last(entries).event] else [])
  }

  lemma {:induction false} OfAppend(a: seq<ReadEntry>, b: seq<ReadEntry>, id: string)
    ensures Of(a + b, id) == Of(a, id) + Of(b, id)
    decreases |b|
  {
    if b == [] {
      assert a + b == a;
    } else {
      assert Front(a + b) == a + Front(b) && Last(a + b) == Last(b);
      OfAppend(a, Front(b), id);
      var more := if Last(b).id == id then [Last(b).event] else [];
      assert Of(a, id) + Of(Front(b), id) + more == Of(a, id) + (Of(Front(b), id) + more);
    }
  }

  /** The data messages a connection received in a run, pings left out. */
  function Payloads(run: seq<Step>, c: Client): seq<Event> {
    if run == [] then []
    else Payloads(Front(run), c)
         + (if Last(run).Receive? && Last(run).client == c && Last(run).what.Data?
            then [Message(Last(run).what.payload)] else [])
  }

  /** What the handler has been or will be called with for a connection. */
  function Trace(s: State, c: Client): seq<Event> {
    Of(s.handled + s.readQueue, c.id)
  }

  ghost predicate Traced(s: State, run: seq<Step>, c: Client) {
    var data := Payloads(run, c);
    if c !in s.phases then data == [] && (FreshId(s, c.id) ==> Trace(s, c) == [])
    else
      match s.phases[c]
      case Registering => data == [] && Trace(s, c) == []
      case Reading => Trace(s, c) == [Opened] + data
      case Failing => Trace(s, c) == [Opened] + data + [Closed]
      case Finished => Trace(s, c) == [Opened] + data || Trace(s, c) == [Opened] + data + [Closed]
  }

  /** What a step puts on the read queue for the connection with this id. */
  function Emitted(step: Step, id: string): seq<Event> {
    match step
    case Notice(d) => if d.id == id then [Opened] else []
    case Receive(d, Data(payload)) => if d.id == id then [Message(payload)] else []
    case ReadError(d) => if d.id == id then [Closed] else []
    case _ => []
  }

  lemma TraceStep(s: State, step: Step, c: Client)
    requires Enabled(s, step)
    ensures Trace(Next(s, step), c) == Trace(s, c) + Emitted(step, c.id)
  {
    var s' := Next(s, step);
    var all, all' := s.handled + s.readQueue, s'.handled + s'.readQueue;
    if step.HandleRead? {
      assert all' == all;
    } else if all' != all {
      var entry := Last(s'.readQueue);
      assert all' == all + [entry];
      OfAppend(all, [entry], c.id);
      assert Of([entry], c.id) == if entry.id == c.id then [entry.event] else [] by {
        assert Front([entry]) == [];
      }
    }
  }

  /** The step is taken by the connection's own goroutine. */
  predicate Own(step: Step, c: Client) {
    match step
    case Register(d) => d == c
    case Notice(d) => d == c
    case Receive(d, _) => d == c
    case ReadError(d) => d == c
    case AskToClose(d) => d == c
    case SeeCancel(d) => d == c
    case _ => false
  }

  lemma OthersEmitNothing(s: State, step: Step, c: Client)
    requires Inv(s) && Enabled(s, step) && !Own(step, c)
    requires c in s.phases || FreshId(s, c.id)
    ensures Emitted(step, c.id) == []
  {
    if step.Notice? || step.Receive? || step.ReadError? {
      assert step.client in s.phases;
    }
  }

  lemma PayloadsStep(run: seq<Step>, step: Step, c: Client)
    ensures Payloads(run + [step], c) ==
            Payloads(run, c) + (if step.Receive? && step.client == c && step.what.Data?
                                then [Message(step.what.payload)] else [])
  {
    assert Front(run + [step]) == run;
  }

  lemma TracedByOthers(s: State, run: seq<Step>, step: Step, c: Client)
    requires Inv(s) && Enabled(s, step) && Traced(s, run, c) && !Own(step, c)
    ensures Traced(Next(s, step), run + [step], c)
  {
    hide Inv, Registered, Removed, Added, SelectedIds, DeliveriesTo, Trace, Payloads, Emitted;
    TraceStep(s, step, c);
    PayloadsStep(run, step, c);
    if c in s.phases || FreshId(s, c.id) {
      OthersEmitNothing(s, step, c);
    }
  }

  lemma TracedByOwn(s: State, run: seq<Step>, step: Step, c: Client)
    requires Enabled(s, step) && Traced(s, run, c) && Own(step, c)
    ensures Traced(Next(s, step), run + [step], c)
  {
    hide Registered, Removed, Added, SelectedIds, DeliveriesTo, Trace, Payloads;
    TraceStep(s, step, c);
    PayloadsStep(run, step, c);
    var data := Payloads(run, c);
    match step
    case Notice(_) => assert [Opened] + [] == [Opened];
    case Receive(_, what) =>
      if what.Data? {
        assert [Opened] + data + [Message(what.payload)] == [Opened] + (data + [Message(what.payload)]);
      }
    case _ =>
  }

  lemma TracedStep(s: State, run: seq<Step>, step: Step, c: Client)
    requires Inv(s) && Enabled(s, step) && Traced(s, run, c)
    ensures Traced(Next(s, step), run + [step], c)
  {
    if Own(step, c) {
      TracedByOwn(s, run, step, c);
    } else {
      TracedByOthers(s, run, step, c);
    }
  }

  lemma {:induction false} TracedAlways(run: seq<Step>, c: Client)
    requires Possible(Init, run)
    ensures Traced(After(Init, run), run, c)
    decreases |run|
  {
    if run != [] {
      assert run == Front(run) + [Last(run)];
      TracedAlways(Front(run), c);
      InvAlways(Front(run));
      TracedStep(After(Init, Front(run)), Front(run), Last(run), c);
    }
  }

  lemma {:induction false} OfPrefix(a: seq<ReadEntry>, b: seq<ReadEntry>, id: string)
    ensures Of(a, id) <= Of(a + b, id)
  {
    OfAppend(a, b, id);
  }

  /** The handler calls for one connection are, in every run, a prefix of: one open, the data
      messages the connection sent in the order it sent them, and at most one close, after which
      nothing follows.  Pings are never forwarded. */
  lemma HandlerTrace(run: seq<Step>, c: Client)
    requires Possible(Init, run) && c in After(Init, run).phases
    ensures Of(After(Init, run).handled, c.id) <= [Opened] + Payloads(run, c) + [Closed]
  {
    var s := After(Init, run);
    TracedAlways(run, c);
    OfPrefix(s.handled, s.readQueue, c.id);
    var all := [Opened] + Payloads(run, c) + [Closed];
    assert [Opened] + Payloads(run, c) <= all;
    assert Trace(s, c) <= all;
  }
}
