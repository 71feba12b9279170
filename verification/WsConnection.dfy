/**
 One connection's goroutine, its expiry stamp, and the sweep that looks for expired connections.
 Times are nanoseconds since the epoch; stamps, as in the program, are whole seconds.
 */
module WsConnection {
  import opened WsSystem

  const SECOND: nat := 1_000_000_000
  const EXPIRATION_DURATION := 45
  const EXPIRATION_TICKER: nat := 30

  function Unix(t: nat): nat {
    t / SECOND
  }

  /** What one turn of the read loop finds. */
  datatype Frame = Cancelled | Broken | Text(what: Incoming, at: nat)

  /** The frames the loop gets to see: it ends at a cancellation or a broken read. */
  function Seen(frames: seq<Frame>): seq<Frame> {
    if frames == [] then []
    else if !frames[0].Text? then [frames[0]]
    else [frames[0]] + Seen(frames[1..])
  }

  /** The handler calls a frame causes. */
  function EventOf(frame: Frame): seq<Event> {
    match frame
    case Cancelled => []
    case Broken => [Closed]
    case Text(Ping, _) => []
    case Text(Data(payload), _) => [Message(payload)]
  }

  function EventsOf(frames: seq<Frame>): seq<Event> {
    if frames == [] then [] else EventOf(frames[0]) + EventsOf(frames[1..])
  }

  /** The stamp after the frames: that of the last ping, or else the one before. */
  function StampAfter(frames: seq<Frame>, stamp: nat): nat {
    if frames == [] then stamp
    else
      var first := frames[0];
      StampAfter(frames[1..], if first.Text? && first.what.Ping? then Unix(first.at) else stamp)
  }

  function Pings(frames: seq<Frame>): nat {
    if frames == [] then 0 else (if frames[0].Text? && frames[0].what.Ping? then 1 else 0) + Pings(frames[1..])
  }

  class Connection {
    var stamp: nat
    var events: seq<Event>
    var pongs: nat
    var closeRequests: nat

    constructor (now: nat)
      ensures stamp == Unix(now) && events == [] && pongs == 0 && closeRequests == 0
    {
      stamp, events, pongs, closeRequests := Unix(now), [], 0, 0;
    }

    method NoticeConnected()
      modifies this`events
      ensures events == old(events) + [Opened]
    {
      events := events + [Opened];
    }

    /** The read loop. */
    method OnConnection(frames: seq<Frame>)
      modifies this
      ensures events == old(events) + EventsOf(Seen(frames))
      ensures stamp == StampAfter(Seen(frames), old(stamp))
      ensures pongs == old(pongs) + Pings(Seen(frames))
      ensures closeRequests == old(closeRequests) + if Broken in Seen(frames) then 1 else 0
    {
      var k := 0;
      while k < |frames|
        invariant 0 <= k <= |frames|
        invariant closeRequests == old(closeRequests)
        invariant events + EventsOf(Seen(frames[k..])) == old(events) + EventsOf(Seen(frames))
        invariant StampAfter(Seen(frames[k..]), stamp) == StampAfter(Seen(frames), old(stamp))
        invariant pongs + Pings(Seen(frames[k..])) == old(pongs) + Pings(Seen(frames))
        invariant Broken in Seen(frames[k..]) <==> Broken in Seen(frames)
      {
        var frame := frames[k];
        assert frames[k..][1..] == frames[k + 1..];
        OneSeen(frames[k..]);
        if frame.Cancelled? {
          return;
        }
        if frame.Broken? {
          events := events + [Closed];
          closeRequests := closeRequests + 1;
          return;
        }
        if frame.what.Ping? {
          pongs := pongs + 1;
          stamp := Unix(frame.at);
        } else {
          assert events + [Message(frame.what.payload)] + EventsOf(Seen(frames[k + 1..]))
              == events + ([Message(frame.what.payload)] + EventsOf(Seen(frames[k + 1..])));
          events := events + [Message(frame.what.payload)];
        }
        k := k + 1;
      }
    }
  }

  lemma OneSeen(frames: seq<Frame>)
    requires frames != []
    ensures Seen(frames) == [frames[0]] + (if frames[0].Text? then Seen(frames[1..]) else [])
    ensures EventsOf(Seen(frames)) == EventOf(frames[0]) + (if frames[0].Text? then EventsOf(Seen(frames[1..])) else [])
    ensures !frames[0].Text? ==> EventsOf(Seen(frames)) == EventOf(frames[0])
    ensures forall stamp: nat :: StampAfter(Seen(frames), stamp) ==
              if frames[0] == Cancelled || frames[0] == Broken then stamp
              else StampAfter(Seen(frames[1..]), if frames[0].what.Ping? then Unix(frames[0].at) else stamp)
    ensures Pings(Seen(frames)) == if !frames[0].Text? then 0
                                   else (if frames[0].what.Ping? then 1 else 0) + Pings(Seen(frames[1..]))
  {
    var rest := if frames[0].Text? then Seen(frames[1..]) else [];
    assert Seen(frames)[1..] == rest;
    assert EventOf(frames[0]) + [] == EventOf(frames[0]);
  }

  /** After a connection's open event come its data messages in order and at most one close, last. */
  lemma {:induction false} CloseComesLast(frames: seq<Frame>)
    ensures forall k :: 0 <= k < |EventsOf(Seen(frames))| ==>
              EventsOf(Seen(frames))[k] != Opened
              && (EventsOf(Seen(frames))[k] == Closed ==> k == |EventsOf(Seen(frames))| - 1)
  {
    if frames != [] {
      OneSeen(frames);
      if frames[0].Text? {
        CloseComesLast(frames[1..]);
      }
    }
  }

  /** The loop sees the frames up to the first that is not a message, that one included. */
  lemma {:induction false} SeenMeans(frames: seq<Frame>)
    ensures Seen(frames) <= frames
    ensures forall k :: 0 <= k < |Seen(frames)| - 1 ==> Seen(frames)[k].Text?
    ensures |Seen(frames)| < |frames| ==> Seen(frames) != [] && !Seen(frames)[|Seen(frames)| - 1].Text?
  {
    if frames != [] && frames[0].Text? {
      SeenMeans(frames[1..]);
      assert Seen(frames)[1..] == Seen(frames[1..]);
    }
  }

  predicate IsPing(frame: Frame) {
    frame.Text? && frame.what.Ping?
  }

  /** Only pings are signs of life: the stamp is the second of the last ping, or without one as it was. */
  lemma {:induction false} StampMeans(frames: seq<Frame>, stamp: nat)
    ensures (forall k :: 0 <= k < |frames| ==> !IsPing(frames[k])) ==> StampAfter(frames, stamp) == stamp
    ensures forall k :: 0 <= k < |frames| && IsPing(frames[k])
                        && (forall m :: k < m < |frames| ==> !IsPing(frames[m])) ==>
              StampAfter(frames, stamp) == frames[k].at / 1_000_000_000
  {
    if frames != [] {
      var next := if IsPing(frames[0]) then Unix(frames[0].at) else stamp;
      StampMeans(frames[1..], next);
      forall k | 0 <= k < |frames| && IsPing(frames[k]) && (forall m :: k < m < |frames| ==> !IsPing(frames[m]))
        ensures StampAfter(frames, stamp) == frames[k].at / 1_000_000_000
      {
        if k > 0 {
          assert frames[1..][k - 1] == frames[k];
        }
      }
    }
  }

  /** The handler is called for data messages, with a close for a broken read, and never for a ping. */
  lemma {:induction false} EventsMean(frames: seq<Frame>, e: Event)
    ensures e in EventsOf(frames) <==>
            exists k :: 0 <= k < |frames|
                   && ((e == Closed && frames[k] == Broken)
                       || (frames[k].Text? && frames[k].what.Data? && e == Message(frames[k].what.payload)))
  {
    if frames != [] {
      var rest := frames[1..];
      EventsMean(rest, e);
      assert forall k :: 0 <= k < |rest| ==> rest[k] == frames[k + 1];
      assert forall k :: 1 <= k < |frames| ==> frames[k] == rest[k - 1];
    }
  }

  // ---- Expiry ----

  /** `isExpired` at time `now` for a connection stamped at time `at`. */
  predicate Expired(now: nat, at: nat) {
    Unix(at) == 0 || Unix(now) - Unix(at) > EXPIRATION_DURATION
  }

  /** The `k`-th tick of a server started at `start`. */
  function Tick(start: nat, k: nat): nat {
    start + (k + 1) * EXPIRATION_TICKER * SECOND
  }

  /** The sweep never takes a connection that gave a sign of life in the last 45 seconds. */
  lemma SelectedWasSilent(now: nat, at: nat)
    requires SECOND <= at <= now && Expired(now, at)
    ensures now - at > EXPIRATION_DURATION * SECOND
  {
  }

  /** Because both times are cut to whole seconds, 75 seconds are not always enough: a connection
      stamped at a full second, with ticks 0.9 seconds after one, is found after 75.9 seconds. */
  lemma SeventyFiveIsNotEnough()
    ensures var start, at := 100 * SECOND + 900_000_000, 115 * SECOND;
            forall k: nat :: at <= Tick(start, k) && Expired(Tick(start, k), at) ==>
                               Tick(start, k) - at >= 75 * SECOND + 900_000_000
  {
  }

  /** A silent connection is found less than 76 seconds after its stamp, whatever the phases. */
  lemma SilentIsFound(start: nat, at: nat) returns (k: nat)
    requires SECOND <= at && start <= at
    ensures at <= Tick(start, k) < at + 76 * SECOND - at % SECOND && Expired(Tick(start, k), at)
  {
    var due := (Unix(at) + 46) * SECOND;
    var period := EXPIRATION_TICKER * SECOND;
    k := (due - start - 1) / period;
  }

  /** It is found within 75 seconds exactly when no tick falls after the 45 seconds of silence but
      before the 46th second boundary. */
  lemma FoundWithin75(start: nat, at: nat)
    requires SECOND <= at && start <= at
    ensures (exists k: nat :: at <= Tick(start, k) <= at + 75 * SECOND && Expired(Tick(start, k), at))
            <==> !(exists k: nat :: at + 45 * SECOND < Tick(start, k) < (Unix(at) + 46) * SECOND)
  {
    var period := EXPIRATION_TICKER * SECOND;
    var k: nat := (at + 45 * SECOND - start) / period;
    assert at + 45 * SECOND < Tick(start, k) <= at + 75 * SECOND;
    forall m: nat | at + 45 * SECOND < Tick(start, m) <= at + 75 * SECOND ensures m == k {
    }
    assert forall m: nat :: Expired(Tick(start, m), at) <==> Tick(start, m) >= (Unix(at) + 46) * SECOND;
  }
}
