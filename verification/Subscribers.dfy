/** One bounded thread-event subscription (client_thread_events.go, threadEventSubscriber). */
module Subscribers {
  import opened Basics
  import opened Events
  import Runs

  datatype GapCause = Overflow(buffer: nat) | LostFrame | ParseFailure(verb: string) | MissingIdentity(verb: string) | SourceClosed

  datatype Envelope =
    | Delivery(thread: string, event: ThreadEvent)
    | StreamGap(thread: string, cause: GapCause)

  /** A subscriber as a value; `sent` and `received` log the two ends of its channel. */
  datatype Stream = Stream(capacity: nat, queue: seq<Envelope>, closed: bool, sent: seq<Envelope>, received: seq<Envelope>)

  function NewStream(buffer: nat): Stream {
    Stream(buffer, [], false, [], [])
  }

  function Pushed(s: Stream, e: Envelope): Stream {
    s.(queue := s.queue + [e], sent := s.sent + [e])
  }

  function OverflowGap(s: Stream, e: Envelope): Envelope {
    StreamGap(e.thread, Overflow(s.capacity))
  }

  function Delivered(s: Stream, e: Envelope): Stream {
    if s.closed then s
    else if |s.queue| >= s.capacity then Pushed(s, OverflowGap(s, e)).(closed := true)
    else Pushed(s, e)
  }

  function Failed(s: Stream, gap: Envelope): Stream {
    if s.closed then s else Pushed(s, gap).(closed := true)
  }

  class Subscriber {
    var events: seq<Envelope>  // the channel's contents; its capacity is eventCapacity + 1
    var closed: bool
    const eventCapacity: nat
    ghost var sent: seq<Envelope>
    ghost var received: seq<Envelope>

    ghost predicate Valid()
      reads this
    {
      && |events| <= eventCapacity + 1
      && (!closed ==> |events| <= eventCapacity)
      && sent == received + events
    }

    ghost function View(): Stream
      reads this
    {
      Stream(eventCapacity, events, closed, sent, received)
    }

    constructor (buffer: nat)
      ensures Valid() && View() == NewStream(buffer)
    {
      events, closed, eventCapacity := [], false, buffer;
      sent, received := [], [];
    }

    /** A channel send: it may neither block nor hit a closed channel. */
    method Push(e: Envelope)
      requires Valid() && !closed && |events| < eventCapacity + 1
      modifies this`events, this`sent
      ensures View() == Pushed(old(View()), e) && sent == received + events
    {
      Regroup(received, events, [e]);
      events, sent := events + [e], sent + [e];
    }

    method Deliver(event: Envelope) returns (ok: bool)
      requires Valid()
      modifies this
      ensures Valid() && View() == Delivered(old(View()), event)
      ensures ok == !closed == (!old(closed) && |old(events)| < eventCapacity)
    {
      if closed {
        return false;
      }
      if |events| >= eventCapacity {
        Push(StreamGap(event.thread, Overflow(eventCapacity)));
        closed := true;
        return false;
      }
      Push(event);
      return true;
    }

    method Fail(gap: Envelope) returns (ok: bool)
      requires Valid()
      modifies this
      ensures Valid() && View() == Failed(old(View()), gap)
      ensures ok == !old(closed)
    {
      if closed {
        return false;
      }
      Push(gap);
      closed := true;
      return true;
    }

    method Close()
      requires Valid()
      modifies this`closed
      ensures Valid() && View() == old(View()).(closed := true)
    {
      closed := true;
    }

    /** The consumer's receive; None when nothing is buffered. */
    method Receive() returns (e: Option<Envelope>)
      requires Valid()
      modifies this`events, this`received
      ensures Valid()
      ensures View() == Step(old(View()), Read)
      ensures e == if old(events) == [] then None else Some(old(events)[0])
    {
      if events == [] {
        return None;
      }
      e := Some(events[0]);
      Regroup(received, [events[0]], events[1..]);
      assert events == [events[0]] + events[1..];
      received := received + [events[0]];
      events := events[1..];
    }
  }

  // ------------------------------------------------- histories

  datatype Action = Deliver(e: Envelope) | Fail(gap: Envelope) | Shut | Read

  function Step(s: Stream, a: Action): Stream {
    match a
    case Deliver(e) => Delivered(s, e)
    case Fail(gap) => Failed(s, gap)
    case Shut => s.(closed := true)
    case Read =>
      if s.queue == [] then s else s.(queue := s.queue[1..], received := s.received + [s.queue[0]])
  }

  /** Every envelope the dispatcher tried to deliver, in order. */
  function Offered(acts: seq<Action>): seq<Envelope> {
    if acts == [] then []
    else Offered(acts[..|acts| - 1]) + (if acts[|acts| - 1].Deliver? then [acts[|acts| - 1].e] else [])
  }

  /** What action `a` leaves last in the stream when it closes it in state `s`. */
  ghost predicate ClosesWith(s: Stream, a: Action, last: seq<Envelope>) {
    match a
    case Deliver(e) => |s.queue| == s.capacity && last == [StreamGap(e.thread, Overflow(s.capacity))]
    case Fail(gap) => last == [gap]
    case Shut => last == []
    case Read => false
  }

  /** Action k closed the stream: all that was offered before it, then at most one gap. */
  ghost predicate ClosedAt(buffer: nat, acts: seq<Action>, k: nat, sent: seq<Envelope>)
    requires k < |acts|
  {
    var s := Runs.Exec(Step, NewStream(buffer), acts[..k]);
    !s.closed && exists last :: ClosesWith(s, acts[k], last) && sent == Offered(acts[..k]) + last
  }

  ghost predicate Shape(buffer: nat, acts: seq<Action>) {
    var s := Runs.Exec(Step, NewStream(buffer), acts);
    && s.capacity == buffer
    && |s.queue| <= buffer + 1 && (!s.closed ==> |s.queue| <= buffer)
    && s.sent == s.received + s.queue
    && (!s.closed ==> s.sent == Offered(acts))
    && (s.closed ==> exists k: nat :: k < |acts| && ClosedAt(buffer, acts, k, s.sent))
  }

  /**
   Under any interleaving of deliveries, failures, closing and reads: an open
   queue never exceeds its capacity, so the reserved slot is always free for the
   terminal record; what was sent is everything offered since registration up to
   the point that closed the stream, with at most one gap behind it; and the
   consumer gets it in order without loss.
   */
  lemma {:induction false} StreamShape(buffer: nat, acts: seq<Action>)
    ensures Shape(buffer, acts)
    decreases |acts|
  {
    if acts != [] {
      var n := |acts| - 1;
      var init := acts[..n];
      StreamShape(buffer, init);
      var s := Runs.Exec(Step, NewStream(buffer), init);
      var s' := Runs.Exec(Step, NewStream(buffer), acts);
      StepKeepsFifo(s, acts[n]);
      if s.closed {
        var k: nat :| k < |init| && ClosedAt(buffer, init, k, s.sent);
        assert init[..k] == acts[..k];
        assert ClosedAt(buffer, acts, k, s'.sent);
      } else if s'.closed {
        var last := match acts[n] case Deliver(e) => [OverflowGap(s, e)] case Fail(gap) => [gap] case _ => [];
        assert ClosesWith(s, acts[n], last) && s'.sent == s.sent + last;
        assert ClosedAt(buffer, acts, n, s'.sent);
      }
    }
  }

  lemma StepKeepsFifo(s: Stream, a: Action)
    requires s.sent == s.received + s.queue
    ensures Step(s, a).sent == Step(s, a).received + Step(s, a).queue
  {
    match a
    case Deliver(e) =>
      Regroup(s.received, s.queue, [OverflowGap(s, e)]);
      Regroup(s.received, s.queue, [e]);
    case Fail(gap) =>
      Regroup(s.received, s.queue, [gap]);
    case Shut =>
    case Read =>
      if s.queue != [] {
        Regroup(s.received, [s.queue[0]], s.queue[1..]);
        assert s.queue == [s.queue[0]] + s.queue[1..];
      }
  }

  /** A closed stream never changes again, except by being read. */
  lemma {:induction false} ClosedStaysClosed(s: Stream, acts: seq<Action>)
    requires s.closed
    ensures var t := Runs.Exec(Step, s, acts); t.closed && t.sent == s.sent
  {
    var kept := (t: Stream) => t.closed && t.sent == s.sent;
    Runs.Invariant(Step, kept, s, acts);
  }
}
