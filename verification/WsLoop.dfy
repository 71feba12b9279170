/**
 A connection's read loop as its goroutine's steps: what the loop does with the frames it reads is a
 sequence of steps of the interleaved system, and in every run of that system a connection's own
 steps are those of a loop.
 */
module WsLoop {
  import opened WsRegistry
  import opened WsSystem
  import opened WsConnection

  /** What the goroutine does with one frame. */
  function FrameSteps(c: Client, frame: Frame): seq<Step> {
    match frame
    case Cancelled => [SeeCancel(c)]
    case Broken => [ReadError(c), AskToClose(c)]
    case Text(what, _) => [Receive(c, what)]
  }

  function LoopSteps(c: Client, frames: seq<Frame>): seq<Step> {
    if frames == [] then [] else LoopSteps(c, Front(frames)) + FrameSteps(c, Last(frames))
  }

  function AllEmitted(steps: seq<Step>, id: string): seq<Event> {
    if steps == [] then [] else AllEmitted(Front(steps), id) + Emitted(Last(steps), id)
  }

  lemma {:induction false} AllEmittedAppend(a: seq<Step>, b: seq<Step>, id: string)
    ensures AllEmitted(a + b, id) == AllEmitted(a, id) + AllEmitted(b, id)
    decreases |b|
  {
    hide Emitted;
    if b == [] {
      assert a + b == a;
    } else {
      assert Front(a + b) == a + Front(b) && Last(a + b) == Last(b);
      AllEmittedAppend(a, Front(b), id);
      var x, y, z := AllEmitted(a, id), AllEmitted(Front(b), id), Emitted(Last(b), id);
      assert x + y + z == x + (y + z);
    }
  }

  lemma {:induction false} EventsAppend(a: seq<Frame>, b: seq<Frame>)
    ensures EventsOf(a + b) == EventsOf(a) + EventsOf(b)
  {
    if a == [] {
      assert a + b == b;
    } else {
      assert (a + b)[1..] == a[1..] + b;
      EventsAppend(a[1..], b);
    }
  }

  lemma OneFrame(c: Client, frame: Frame)
    ensures AllEmitted(FrameSteps(c, frame), c.id) == EventOf(frame) == EventsOf([frame])
  {
    var steps := FrameSteps(c, frame);
    assert [frame][1..] == [];
    assert Front(steps) == if frame.Broken? then [ReadError(c)] else [];
    assert frame.Broken? ==> Front([ReadError(c)]) == [] && AllEmitted([ReadError(c)], c.id) == [Closed];
  }

  /** The loop's handler calls are what its steps put on the read queue. */
  lemma {:induction false} LoopEmitsItsEvents(c: Client, frames: seq<Frame>)
    ensures AllEmitted(LoopSteps(c, frames), c.id) == EventsOf(frames)
    decreases |frames|
  {
    if frames != [] {
      var front, last := Front(frames), Last(frames);
      assert frames == front + [last];
      LoopEmitsItsEvents(c, front);
      AllEmittedAppend(LoopSteps(c, front), FrameSteps(c, last), c.id);
      OneFrame(c, last);
      EventsAppend(front, [last]);
    }
  }

  /** The goroutine from its start: announce the connection, then loop. */
  method Serve(now: nat, frames: seq<Frame>) returns (conn: Connection)
    ensures conn.events == [Opened] + EventsOf(Seen(frames))
    ensures conn.stamp == StampAfter(Seen(frames), Unix(now))
    ensures conn.pongs == Pings(Seen(frames))
    ensures conn.closeRequests == if Broken in Seen(frames) then 1 else 0
  {
    conn := new Connection(now);
    conn.NoticeConnected();
    conn.OnConnection(frames);
  }

  // ---- Every run contains a loop ----

  function OwnSteps(run: seq<Step>, c: Client): seq<Step> {
    if run == [] then [] else OwnSteps(Front(run), c) + (if Own(Last(run), c) then [Last(run)] else [])
  }

  /** The frame a step is about, if it reads one. */
  function FrameIn(step: Step, c: Client): seq<Frame> {
    if !Own(step, c) then []
    else
      match step
      case Receive(_, what) => [Text(what, 0)]
      case ReadError(_) => [Broken]
      case SeeCancel(_) => [Cancelled]
      case _ => []
  }

  function FramesIn(run: seq<Step>, c: Client): seq<Frame> {
    if run == [] then [] else FramesIn(Front(run), c) + FrameIn(Last(run), c)
  }

  predicate AllText(frames: seq<Frame>) {
    forall k :: 0 <= k < |frames| ==> frames[k].Text?
  }

  lemma {:induction false} SeenToTheEnd(frames: seq<Frame>, frame: Frame)
    requires AllText(frames)
    ensures Seen(frames + [frame]) == frames + [frame]
  {
    if frames == [] {
      assert [] + [frame] == [frame] && [frame][1..] == [];
    } else {
      assert (frames + [frame])[1..] == frames[1..] + [frame];
      SeenToTheEnd(frames[1..], frame);
    }
  }

  lemma {:induction false} SeenAll(frames: seq<Frame>)
    requires AllText(frames)
    ensures Seen(frames) == frames
  {
    if frames != [] {
      SeenAll(frames[1..]);
    }
  }

  lemma LoopStepsSnoc(c: Client, frames: seq<Frame>, frame: Frame)
    ensures LoopSteps(c, frames + [frame]) == LoopSteps(c, frames) + FrameSteps(c, frame)
    ensures EventsOf(frames + [frame]) == EventsOf(frames) + EventOf(frame)
  {
    assert Front(frames + [frame]) == frames;
    EventsAppend(frames, [frame]);
    OneFrame(c, frame);
  }

  /** How far the loop has come, by the phase of its goroutine. */
  ghost predicate Looping(s: State, own: seq<Step>, frames: seq<Frame>, c: Client) {
    if c !in s.phases then own == [] && frames == []
    else
      var loop := [Register(c), Notice(c)] + LoopSteps(c, frames);
      match s.phases[c]
      case Registering => own == [Register(c)] && frames == [] && Trace(s, c) == []
      case Reading => own == loop && AllText(frames) && Trace(s, c) == [Opened] + EventsOf(frames)
      case Failing => own + [AskToClose(c)] == loop && Seen(frames) == frames
                      && Trace(s, c) == [Opened] + EventsOf(frames)
      case Finished => own == loop && Seen(frames) == frames && Trace(s, c) == [Opened] + EventsOf(frames)
  }

  lemma LoopingByOthers(s: State, step: Step, own: seq<Step>, frames: seq<Frame>, c: Client)
    requires Inv(s) && Enabled(s, step) && !Own(step, c) && Looping(s, own, frames, c)
    ensures Looping(Next(s, step), own, frames, c)
  {
    hide Inv, Registered, Removed, Added, SelectedIds, DeliveriesTo, Trace, Emitted, LoopSteps;
    if c in s.phases {
      TraceStep(s, step, c);
      OthersEmitNothing(s, step, c);
      assert Trace(s, c) + [] == Trace(s, c);
    }
  }

  lemma LoopingByOwn(s: State, step: Step, own: seq<Step>, frames: seq<Frame>, c: Client)
    requires Enabled(s, step) && Own(step, c) && Looping(s, own, frames, c)
    requires step.Register? ==> Trace(s, c) == []
    ensures Looping(Next(s, step), own + [step], frames + FrameIn(step, c), c)
  {
    hide Registered, Removed, Added, SelectedIds, DeliveriesTo, Trace, LoopSteps, Seen, EventsOf;
    TraceStep(s, step, c);
    NoFrames(c);
    assert frames + [] == frames && Trace(s, c) + [] == Trace(s, c) && [Opened] + [] == [Opened];
    assert [Register(c)] + [Notice(c)] == [Register(c), Notice(c)] + [];
    if FrameIn(step, c) != [] {
      var frame := FrameIn(step, c)[0];
      var open, loop := [Register(c), Notice(c)], LoopSteps(c, frames);
      LoopStepsSnoc(c, frames, frame);
      SeenToTheEnd(frames, frame);
      assert open + loop + FrameSteps(c, frame) == open + (loop + FrameSteps(c, frame));
      assert [Opened] + EventsOf(frames) + EventOf(frame) == [Opened] + (EventsOf(frames) + EventOf(frame));
      assert step.ReadError? ==> own + [step] + [AskToClose(c)] == own + [ReadError(c), AskToClose(c)];
    }
  }

  lemma NoFrames(c: Client)
    ensures LoopSteps(c, []) == [] && EventsOf([]) == []
  {
  }

  lemma {:induction false} LoopingAlways(run: seq<Step>, c: Client)
    requires Possible(Init, run)
    ensures Looping(After(Init, run), OwnSteps(run, c), FramesIn(run, c), c)
    decreases |run|
  {
    hide Inv, Looping, Trace, Traced;
    if run == [] {
      LoopingStart(c);
    } else {
      var s, step := After(Init, Front(run)), Last(run);
      LoopingAlways(Front(run), c);
      InvAlways(Front(run));
      if Own(step, c) {
        TracedAlways(Front(run), c);
        NewHasNoTrace(s, Front(run), step, c);
        LoopingByOwn(s, step, OwnSteps(Front(run), c), FramesIn(Front(run), c), c);
      } else {
        LoopingByOthers(s, step, OwnSteps(Front(run), c), FramesIn(Front(run), c), c);
        assert OwnSteps(Front(run), c) + [] == OwnSteps(Front(run), c);
        assert FramesIn(Front(run), c) + [] == FramesIn(Front(run), c);
      }
    }
  }

  lemma LoopingStart(c: Client)
    ensures Looping(Init, [], [], c)
  {
  }

  lemma NewHasNoTrace(s: State, run: seq<Step>, step: Step, c: Client)
    requires Traced(s, run, c) && Enabled(s, step) && Own(step, c)
    ensures step.Register? ==> Trace(s, c) == []
  {
    if step.Register? {
      assert c !in s.phases;
    }
  }

  /** In every run a connection's own steps are a registration and then what the goroutine does with
      the frames it read, in full once it has finished; and the handler calls for it are, in order, the
      first ones of those the goroutine makes on these frames. */
  lemma EveryRunIsALoop(run: seq<Step>, c: Client)
    requires Possible(Init, run) && c in After(Init, run).phases
    ensures var frames := FramesIn(run, c);
            var loop := [Register(c), Notice(c)] + LoopSteps(c, frames);
            && Seen(frames) == frames
            && OwnSteps(run, c) <= loop
            && (After(Init, run).phases[c].Finished? ==> OwnSteps(run, c) == loop)
            && Of(After(Init, run).handled, c.id) <= [Opened] + EventsOf(Seen(frames))
  {
    hide LoopSteps, Seen, EventsOf, Of;
    var s, frames := After(Init, run), FramesIn(run, c);
    LoopingAlways(run, c);
    OfPrefix(s.handled, s.readQueue, c.id);
    if AllText(frames) {
      SeenAll(frames);
    }
    assert [Register(c)] <= [Register(c), Notice(c)] + LoopSteps(c, frames);
    assert OwnSteps(run, c) <= OwnSteps(run, c) + [AskToClose(c)];
  }
}
