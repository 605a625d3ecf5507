/**
 From inbound lines to one subscriber's stream: the read loop, the dispatcher
 and a bounded subscription put together.
 */
module Pipeline {
  import opened Basics
  import opened DemuxLoop
  import opened Events
  import opened Subscribers
  import opened FileApprovals
  import opened Dispatcher
  import Runs

  // ------------------------------------------------- what the messages mean

  /** The message loses events: a malformed run, a failed parse, a missing required identity. */
  predicate Breaks(ps: Parsers, m: Message) {
    match m
    case Gap => true
    case Request(_, _, _) => false
    case Note(verb, body) =>
      match ps.event(verb, body)
      case Unparsable(_) => true
      case Parsed(ev) => ev.thread == "" && (ev.OtherEvent? ==> ev.identityRequired)
  }

  /** The gap that tells of it. */
  function LossGap(ps: Parsers, m: Message): Envelope
    requires Breaks(ps, m)
  {
    match m
    case Gap => StreamGap("", LostFrame)
    case Note(verb, body) =>
      match ps.event(verb, body)
      case Unparsable(thread) => StreamGap(thread, ParseFailure(verb))
      case Parsed(_) => StreamGap("", MissingIdentity(verb))
  }

  /** The thread-scoped event the message carries, if it does. */
  function EventIn(ps: Parsers, m: Message): Option<ThreadEvent> {
    if m.Note? && ps.event(m.verb, m.body).Parsed? && ps.event(m.verb, m.body).ev.thread != "" then
      Some(ps.event(m.verb, m.body).ev)
    else None
  }

  /** The thread-scoped events parsed from the messages, in order. */
  function ThreadEvents(ps: Parsers, ms: seq<Message>): seq<Envelope> {
    if ms == [] then []
    else
      var e := EventIn(ps, ms[|ms| - 1]);
      ThreadEvents(ps, ms[..|ms| - 1]) + (if e.Some? then [Delivery(e.value.thread, e.value)] else [])
  }

  /** What the messages leave in the approval history. */
  function ApprovalLog(ps: Parsers, ms: seq<Message>): seq<Entry> {
    if ms == [] then []
    else
      var m := ms[|ms| - 1];
      ApprovalLog(ps, ms[..|ms| - 1]) +
      (if Breaks(ps, m) then [Cleared] else if EventIn(ps, m).Some? then [Happened(EventIn(ps, m).value)] else [])
  }

  /**
   The dispatcher does what the messages mean: a loss fails every stream with its
   gap and clears the approval context, a thread's event is delivered and
   remembered, and nothing else reaches either.
   */
  lemma MessageMeaning(ps: Parsers, m: Message)
    ensures EffectOn(ps, m) ==
            if Breaks(ps, m) then [Fail(LossGap(ps, m))]
            else if EventIn(ps, m).Some? then [Deliver(Delivery(EventIn(ps, m).value.thread, EventIn(ps, m).value))]
            else []
    ensures EntryOf(ps, m) ==
            if Breaks(ps, m) then [Cleared]
            else if EventIn(ps, m).Some? then [Happened(EventIn(ps, m).value)]
            else []
  {
  }

  lemma {:induction false} HistoryIsLog(ps: Parsers, ms: seq<Message>)
    ensures History(ps, ms) == ApprovalLog(ps, ms)
    decreases |ms|
  {
    if ms != [] {
      HistoryIsLog(ps, ms[..|ms| - 1]);
      MessageMeaning(ps, ms[|ms| - 1]);
    }
  }

  // ------------------------------------------------- lives of subscriptions

  /** What the dispatcher did to a stream, without the consumer's reads and cancellations. */
  function ByDispatcher(acts: seq<Action>): seq<Action> {
    if acts == [] then []
    else ByDispatcher(acts[..|acts| - 1]) +
         (if acts[|acts| - 1].Deliver? || acts[|acts| - 1].Fail? then [acts[|acts| - 1]] else [])
  }

  /** What the dispatcher adds when the source has ended on its own. */
  function AtExit(lost: bool): seq<Action> {
    if lost then [Fail(SOURCE_GAP)] else []
  }

  /**
   `acts` is the life of a subscription made when `r` of the messages had been
   handled and seen until `q` had, and, if `lost`, until the source had run dry
   and the dispatcher had said so. Reads, cancellation and the closing sweeps of
   the dispatcher and of Close, which are Shut, may come in anywhere.
   */
  ghost predicate LifeOf(ps: Parsers, ms: seq<Message>, r: nat, q: nat, lost: bool, acts: seq<Action>) {
    && r <= q <= |ms| && (lost ==> q == |ms|)
    && ByDispatcher(acts) == Effects(ps, ms[r..q]) + AtExit(lost)
  }

  lemma {:induction false} OfferedByDispatcher(acts: seq<Action>)
    ensures Offered(acts) == Offered(ByDispatcher(acts))
  {
    if acts != [] {
      var init, a := acts[..|acts| - 1], acts[|acts| - 1];
      OfferedByDispatcher(init);
      if a.Deliver? || a.Fail? {
        assert (ByDispatcher(init) + [a])[..|ByDispatcher(init)|] == ByDispatcher(init);
      } else {
        assert ByDispatcher(init) + [] == ByDispatcher(init);
      }
    }
  }

  lemma {:induction false} OfferedEffects(ps: Parsers, ms: seq<Message>)
    ensures Offered(Effects(ps, ms)) == ThreadEvents(ps, ms)
  {
    if ms != [] {
      var init, m := ms[..|ms| - 1], ms[|ms| - 1];
      OfferedEffects(ps, init);
      MessageMeaning(ps, m);
      var es, e := Effects(ps, init), EffectOn(ps, m);
      if e == [] {
        assert es + e == es;
      } else {
        assert (es + e)[..|es|] == es && es + e == es + [e[0]];
      }
    }
  }

  lemma {:induction false} ByDispatcherPrefix(acts: seq<Action>, k: nat)
    requires k <= |acts|
    ensures ByDispatcher(acts[..k]) <= ByDispatcher(acts)
    ensures k < |acts| && (acts[k].Deliver? || acts[k].Fail?) ==>
              ByDispatcher(acts[..k]) + [acts[k]] <= ByDispatcher(acts)
    decreases |acts|
  {
    if k == |acts| {
      assert acts[..k] == acts;
    } else {
      var init := acts[..|acts| - 1];
      assert init[..k] == acts[..k];
      ByDispatcherPrefix(init, k);
    }
  }

  /** A prefix of the effects is the effects of a prefix. */
  lemma {:induction false} EffectsCut(ps: Parsers, ms: seq<Message>, es: seq<Action>) returns (m: nat)
    requires es <= Effects(ps, ms)
    ensures m <= |ms| && es == Effects(ps, ms[..m])
    ensures es == Effects(ps, ms) ==> m == |ms|
    ensures es < Effects(ps, ms) ==> m < |ms| && EffectOn(ps, ms[m]) != [] && es + EffectOn(ps, ms[m]) <= Effects(ps, ms)
  {
    if es == Effects(ps, ms) {
      m := |ms|;
      assert ms[..m] == ms;
    } else {
      var n := |ms| - 1;
      var init := ms[..n];
      if es < Effects(ps, init) {
        m := EffectsCut(ps, init, es);
        assert init[..m] == ms[..m];
      } else {
        m := n;
        assert es == Effects(ps, init);
        assert EffectOn(ps, ms[n]) != [] by {
          assert Effects(ps, init) + [] == Effects(ps, init);
        }
      }
    }
  }

  /** An open stream has not been failed, so none of its messages lost anything. */
  lemma {:induction false} OpenMeansUnbroken(buffer: nat, acts: seq<Action>)
    requires !Runs.Exec(Step, NewStream(buffer), acts).closed
    ensures forall a :: a in ByDispatcher(acts) ==> !a.Fail?
    decreases |acts|
  {
    if acts != [] {
      OpenMeansUnbroken(buffer, acts[..|acts| - 1]);
    }
  }

  lemma {:induction false} NoFailNoBreak(ps: Parsers, ms: seq<Message>, k: nat)
    requires forall a :: a in Effects(ps, ms) ==> !a.Fail?
    requires k < |ms|
    ensures !Breaks(ps, ms[k])
    decreases |ms|
  {
    var n := |ms| - 1;
    assert forall a :: a in Effects(ps, ms[..n]) ==> a in Effects(ps, ms);
    if k < n {
      NoFailNoBreak(ps, ms[..n], k);
    } else if EffectOn(ps, ms[n]) != [] {
      assert EffectOn(ps, ms[n])[0] in Effects(ps, ms);
      MessageMeaning(ps, ms[n]);
    } else {
      MessageMeaning(ps, ms[n]);
    }
  }

  lemma OpenStretch(ps: Parsers, ms: seq<Message>, buffer: nat, acts: seq<Action>)
    requires ByDispatcher(acts) == Effects(ps, ms)
    requires !Runs.Exec(Step, NewStream(buffer), acts).closed
    ensures Offered(acts) == ThreadEvents(ps, ms)
    ensures forall k :: 0 <= k < |ms| ==> !Breaks(ps, ms[k])
  {
    OfferedByDispatcher(acts);
    OfferedEffects(ps, ms);
    OpenMeansUnbroken(buffer, acts);
    forall k | 0 <= k < |ms| ensures !Breaks(ps, ms[k]) {
      NoFailNoBreak(ps, ms, k);
    }
  }

  /**
   Action k closed the stream, when it had been through exactly the effects of
   ms[r..m]. It was a Shut, which leaves nothing behind; or the event of message m,
   for which there was no room; or that message's loss; or the end of the source.
   */
  ghost predicate ClosedBy(ps: Parsers, ms: seq<Message>, r: nat, m: nat, buffer: nat, acts: seq<Action>, k: nat,
                           last: seq<Envelope>)
    requires r <= m <= |ms|
  {
    && k < |acts| && !Runs.Exec(Step, NewStream(buffer), acts[..k]).closed
    && ByDispatcher(acts[..k]) == Effects(ps, ms[r..m])
    && match acts[k]
       case Shut => last == []
       case Deliver(e) =>
         && m < |ms| && EventIn(ps, ms[m]) != None
         && e == Delivery(EventIn(ps, ms[m]).value.thread, EventIn(ps, ms[m]).value)
         && last == [StreamGap(e.thread, Overflow(buffer))]
       case Fail(gap) =>
         && last == [gap]
         && (gap == SOURCE_GAP || (m < |ms| && Breaks(ps, ms[m]) && gap == LossGap(ps, ms[m])))
       case Read => false
  }

  /**
   No silent loss: for every sequence of messages, whatever the consumer does, a
   stream is the contiguous run of thread events from its registration up to some
   message, none of the messages before it having lost anything, and then at most
   one terminal gap. A stream that is still open has missed nothing; one that ended
   without a gap was shut, by its context, by Close or by the dispatcher on its way
   out, right there; and the gap for the end of the source comes only after every
   thread event there was.
   */
  lemma ContiguousRun(ps: Parsers, ms: seq<Message>, r: nat, q: nat, lost: bool, buffer: nat, acts: seq<Action>)
    returns (m: nat, last: seq<Envelope>, k: nat)
    requires LifeOf(ps, ms, r, q, lost, acts)
    ensures r <= m <= q && |last| <= 1 && (last != [] ==> last[0].StreamGap?)
    ensures var s := Runs.Exec(Step, NewStream(buffer), acts);
            && s.sent == ThreadEvents(ps, ms[r..m]) + last
            && s.sent == s.received + s.queue
            && (!s.closed ==> m == q && last == [] && !lost)
            && (s.closed ==> ClosedBy(ps, ms, r, m, buffer, acts, k, last))
    ensures last == [SOURCE_GAP] ==> lost && m == |ms|
    ensures forall k :: r <= k < m ==> !Breaks(ps, ms[k])
  {
    var s := Runs.Exec(Step, NewStream(buffer), acts);
    StreamShape(buffer, acts);
    k := 0;
    if s.closed {
      k :| k < |acts| && ClosedAt(buffer, acts, k, s.sent);
      m, last := ClosedStretch(ps, ms, r, q, lost, buffer, acts, k, s.sent);
    } else {
      NotLostWhileOpen(ps, ms[r..q], lost, buffer, acts);
      OpenStretch(ps, ms[r..q], buffer, acts);
      m, last := q, [];
      assert s.sent + [] == s.sent;
      assert forall k :: r <= k < m ==> ms[r..q][k - r] == ms[k];
    }
  }

  lemma NotLostWhileOpen(ps: Parsers, ms: seq<Message>, lost: bool, buffer: nat, acts: seq<Action>)
    requires ByDispatcher(acts) == Effects(ps, ms) + AtExit(lost)
    requires !Runs.Exec(Step, NewStream(buffer), acts).closed
    ensures !lost && ByDispatcher(acts) == Effects(ps, ms)
  {
    var es := Effects(ps, ms);
    if lost {
      assert (es + AtExit(lost))[|es|] == Fail(SOURCE_GAP);
    } else {
      assert es + AtExit(lost) == es;
    }
    assert lost ==> Fail(SOURCE_GAP) in ByDispatcher(acts);
    OpenMeansUnbroken(buffer, acts);
  }

  lemma BeforeExit(es: seq<Action>, done: seq<Action>, lost: bool)
    requires done <= es + AtExit(lost)
    ensures done <= es || Fail(SOURCE_GAP) in done
  {
    if |done| > |es| {
      assert done[|es|] == (es + AtExit(lost))[|es|];
    }
  }

  /** While the stream is open the dispatcher has not got past the effects of messages; its next move is message `cut`'s, or the exit. */
  lemma OpenPrefix(ps: Parsers, ms: seq<Message>, lost: bool, buffer: nat, acts: seq<Action>, k: nat) returns (cut: nat)
    requires ByDispatcher(acts) == Effects(ps, ms) + AtExit(lost) && k < |acts|
    requires !Runs.Exec(Step, NewStream(buffer), acts[..k]).closed
    ensures cut <= |ms| && ByDispatcher(acts[..k]) == Effects(ps, ms[..cut])
    ensures acts[k].Deliver? || acts[k].Fail? ==>
              || (cut < |ms| && EffectOn(ps, ms[cut]) == [acts[k]])
              || (cut == |ms| && lost && acts[k] == Fail(SOURCE_GAP))
  {
    ByDispatcherPrefix(acts, k);
    var done := ByDispatcher(acts[..k]);
    BeforeExit(Effects(ps, ms), done, lost);
    OpenMeansUnbroken(buffer, acts[..k]);
    cut := EffectsCut(ps, ms, done);
    if acts[k].Deliver? || acts[k].Fail? {
      NextMove(ps, ms, lost, done, acts[k], cut);
    }
  }

  lemma NextMove(ps: Parsers, ms: seq<Message>, lost: bool, done: seq<Action>, a: Action, cut: nat)
    requires done <= Effects(ps, ms) && done + [a] <= Effects(ps, ms) + AtExit(lost)
    requires done == Effects(ps, ms) ==> cut == |ms|
    requires done < Effects(ps, ms) ==>
               cut < |ms| && EffectOn(ps, ms[cut]) != [] && done + EffectOn(ps, ms[cut]) <= Effects(ps, ms)
    ensures || (cut < |ms| && EffectOn(ps, ms[cut]) == [a])
            || (cut == |ms| && lost && a == Fail(SOURCE_GAP))
  {
    var es := Effects(ps, ms);
    assert (done + [a])[|done|] == a == (es + AtExit(lost))[|done|];
    if |done| < |es| {
      var e := EffectOn(ps, ms[cut]);
      MessageMeaning(ps, ms[cut]);
      assert (done + e)[|done|] == e[0] == es[|done|];
    }
  }

  lemma ClosedStretch(ps: Parsers, ms: seq<Message>, r: nat, q: nat, lost: bool, buffer: nat, acts: seq<Action>, k: nat,
                      sent: seq<Envelope>)
    returns (m: nat, last: seq<Envelope>)
    requires LifeOf(ps, ms, r, q, lost, acts) && k < |acts| && ClosedAt(buffer, acts, k, sent)
    ensures r <= m <= q && |last| <= 1 && (last != [] ==> last[0].StreamGap?)
    ensures sent == ThreadEvents(ps, ms[r..m]) + last
    ensures ClosedBy(ps, ms, r, m, buffer, acts, k, last)
    ensures last == [SOURCE_GAP] ==> lost && m == |ms|
    ensures forall k :: r <= k < m ==> !Breaks(ps, ms[k])
  {
    var open := Runs.Exec(Step, NewStream(buffer), acts[..k]);
    last :| ClosesWith(open, acts[k], last) && sent == Offered(acts[..k]) + last;
    CapacityStays(buffer, acts[..k]);
    var cut := OpenPrefix(ps, ms[r..q], lost, buffer, acts, k);
    m := r + cut;
    assert ms[r..q][..cut] == ms[r..m];
    assert cut < |ms[r..q]| ==> ms[r..q][cut] == ms[m];
    if m < q {
      MessageMeaning(ps, ms[m]);
    }
    OpenStretch(ps, ms[r..m], buffer, acts[..k]);
    forall j | r <= j < m ensures !Breaks(ps, ms[j]) {
      assert ms[r..m][j - r] == ms[j];
    }
  }

  lemma CapacityStays(buffer: nat, acts: seq<Action>)
    ensures Runs.Exec(Step, NewStream(buffer), acts).capacity == buffer
  {
    StreamShape(buffer, acts);
  }

  /** What Dispatch makes of a stream is such a life, read or not. */
  lemma DispatchIsALife(ps: Parsers, ms: seq<Message>, lost: bool, buffer: nat)
    ensures var acts := Effects(ps, ms) + AtExit(lost) + [Shut];
            && LifeOf(ps, ms, 0, |ms|, lost, acts)
            && Runs.Exec(Step, NewStream(buffer), acts) ==
               Ended(Runs.Exec(Step, NewStream(buffer), Effects(ps, ms)), lost)
  {
    var es, exit := Effects(ps, ms), AtExit(lost);
    assert ms[0..|ms|] == ms;
    ByDispatcherAll(ps, ms);
    if lost {
      assert (es + exit)[..|es|] == es;
    } else {
      assert es + exit == es;
    }
    assert (es + exit + [Shut])[..|es + exit|] == es + exit;
    assert ByDispatcher(es + exit) + [] == ByDispatcher(es + exit);
  }

  lemma {:induction false} ByDispatcherAll(ps: Parsers, ms: seq<Message>)
    ensures ByDispatcher(Effects(ps, ms)) == Effects(ps, ms)
    decreases |ms|
  {
    if ms != [] {
      var n := |ms| - 1;
      ByDispatcherAll(ps, ms[..n]);
      var es, e := Effects(ps, ms[..n]), EffectOn(ps, ms[n]);
      if e == [] {
        assert es + e == es;
      } else {
        assert (es + e)[..|es|] == es && es + e == es + [e[0]];
      }
    }
  }

  /**
   Nothing queued at or after a message that lost something is ever delivered. Once
   the dispatcher has handled that message the stream is closed, with a gap unless
   it was shut before the dispatcher came to it.
   */
  lemma NothingAfterLoss(ps: Parsers, ms: seq<Message>, r: nat, q: nat, lost: bool, buffer: nat, acts: seq<Action>, p: nat)
    returns (m: nat, last: seq<Envelope>, k: nat)
    requires LifeOf(ps, ms, r, q, lost, acts) && r <= p < |ms| && Breaks(ps, ms[p])
    ensures r <= m <= p && |last| <= 1 && (last != [] ==> last[0].StreamGap?)
    ensures last != [SOURCE_GAP]
    ensures var s := Runs.Exec(Step, NewStream(buffer), acts);
            && s.sent == ThreadEvents(ps, ms[r..m]) + last
            && (p < q ==> s.closed)
            && (s.closed ==> ClosedBy(ps, ms, r, m, buffer, acts, k, last))
  {
    m, last, k := ContiguousRun(ps, ms, r, q, lost, buffer, acts);
  }

  lemma EndsWith<T>(a: seq<T>, b: seq<T>)
    requires |b| == 1
    ensures a + b != [] && (a + b)[|a + b| - 1] == b[0]
  {
  }

  /**
   A loss is announced: once the dispatcher is through with it, a stream that nobody
   shut has ended with the gap of the first loss, or of an earlier overflow.
   */
  lemma LossIsAnnounced(ps: Parsers, ms: seq<Message>, r: nat, p: nat, buffer: nat, acts: seq<Action>) returns (m: nat)
    requires r <= p < |ms| && Breaks(ps, ms[p])
    requires ByDispatcher(acts) == Effects(ps, ms[r..p + 1]) && Shut !in acts
    ensures var s := Runs.Exec(Step, NewStream(buffer), acts);
            && s.closed && s.sent != []
            && r <= m <= p
            && (|| (Breaks(ps, ms[m]) && s.sent[|s.sent| - 1] == LossGap(ps, ms[m]))
                || (EventIn(ps, ms[m]).Some?
                    && s.sent[|s.sent| - 1] == StreamGap(EventIn(ps, ms[m]).value.thread, Overflow(buffer))))
  {
    assert LifeOf(ps, ms, r, p + 1, false, acts) by {
      assert Effects(ps, ms[r..p + 1]) + AtExit(false) == Effects(ps, ms[r..p + 1]);
    }
    var last, k;
    m, last, k := NothingAfterLoss(ps, ms, r, p + 1, false, buffer, acts, p);
    assert last != [] by {
      assert acts[k] in acts;
    }
    EndsWith(ThreadEvents(ps, ms[r..m]), last);
  }

  lemma {:induction false} EmittedAt(lines: seq<Line>, s: nat, n: nat)
    requires s < n <= |lines| && EmitAt(lines, s) == [Gap]
    ensures |Emitted(lines, s)| < |Emitted(lines, n)| && Emitted(lines, n)[|Emitted(lines, s)|] == Gap
    ensures Emitted(lines, n)[..|Emitted(lines, s)|] == Emitted(lines, s)
  {
    EmittedMono(lines, s, n);
    EmittedMono(lines, s + 1, n);
    assert Emitted(lines, s + 1) == Emitted(lines, s) + [Gap];
  }

  /**
   In terms of lines: a subscription made before a malformed run's marker was
   handled sees only events of lines before that run; none of the lines after a
   bad one, readable as they may be, reaches it, and it closes with a gap unless it
   was shut before the dispatcher came to the marker.
   */
  lemma NoEventPastMalformedRun(ps: Parsers, lines: seq<Line>, n: nat, i: nat, r: nat, q: nat, lost: bool,
                                buffer: nat, acts: seq<Action>)
    returns (run: nat, m: nat, last: seq<Envelope>, k: nat)
    requires i < n <= |lines| && Bad(lines[i])
    requires LifeOf(ps, Emitted(lines, n), r, q, lost, acts)
    ensures run <= i && OneRun(lines, run, i)
    ensures r <= |Emitted(lines, run)| ==>
              && r <= m <= |Emitted(lines, run)| && |last| <= 1
              && var s := Runs.Exec(Step, NewStream(buffer), acts);
                 && s.sent == ThreadEvents(ps, Emitted(lines, run)[r..m]) + last
                 && (|Emitted(lines, run)| < q ==> s.closed)
                 && (s.closed ==> m <= |Emitted(lines, n)| && ClosedBy(ps, Emitted(lines, n), r, m, buffer, acts, k, last))
  {
    run := RunMarker(lines, i);
    EmittedAt(lines, run, n);
    m, last, k := 0, [], 0;
    if r <= |Emitted(lines, run)| {
      m, last, k := NothingAfterLoss(ps, Emitted(lines, n), r, q, lost, buffer, acts, |Emitted(lines, run)|);
      SamePrefix(Emitted(lines, n), Emitted(lines, run), r, m);
    }
  }

  lemma SamePrefix<T>(all: seq<T>, front: seq<T>, r: nat, m: nat)
    requires r <= m <= |front| <= |all| && all[..|front|] == front
    ensures all[r..m] == front[r..m]
  {
    forall n | 0 <= n < m - r ensures all[r..m][n] == front[r..m][n] {
      assert all[..|front|][r + n] == all[r + n];
    }
  }

  /** The lines up to i, and then a readable notification. */
  function Resumed(lines: seq<Line>, i: nat, verb: string, body: string): seq<Line>
    requires i < |lines|
  {
    lines[..i + 1] + [Decoded(None, Some(verb), body)]
  }

  /** A subscription made after r of the messages is still open after all of them, and heard `ev` last. */
  ghost predicate HearsWithoutGap(ps: Parsers, ms: seq<Message>, r: nat, buffer: nat, ev: ThreadEvent, acts: seq<Action>) {
    && r <= |ms| && LifeOf(ps, ms, r, |ms|, false, acts)
    && var s := Runs.Exec(Step, NewStream(buffer), acts);
       !s.closed && s.sent != [] && s.sent[|s.sent| - 1] == Delivery(ev.thread, ev)
  }

  ghost predicate CanHear(ps: Parsers, ms: seq<Message>, r: nat, buffer: nat, ev: ThreadEvent) {
    exists acts :: HearsWithoutGap(ps, ms, r, buffer, ev, acts)
  }

  lemma {:induction false} EmittedStays(lines: seq<Line>, a: nat, b: nat)
    requires a <= b <= |lines| && forall k :: a <= k < b ==> EmitAt(lines, k) == []
    ensures Emitted(lines, b) == Emitted(lines, a)
    decreases b
  {
    if a < b {
      EmittedStays(lines, a, b - 1);
    }
  }

  /** After a bad line one marker is out, and the notification comes right behind it. */
  lemma AfterTheRun(lines: seq<Line>, i: nat, run: nat, verb: string, body: string)
    requires i < |lines| && run <= i
    requires var all := Resumed(lines, i, verb, body);
             EmitAt(all, run) == [Gap] && forall k :: run < k <= i ==> EmitAt(all, k) == []
    ensures var all := Resumed(lines, i, verb, body);
            && |Emitted(all, i + 1)| == |Emitted(all, run)| + 1
            && Emitted(all, i + 2) == Emitted(all, i + 1) + [Note(verb, body)]
  {
    var all := Resumed(lines, i, verb, body);
    EmittedStays(all, run + 1, i + 1);
    assert all[i + 1] == Decoded(None, Some(verb), body);
  }

  lemma LateLife(ps: Parsers, before: seq<Message>, verb: string, body: string, ev: ThreadEvent, buffer: nat)
    requires ps.event(verb, body) == Parsed(ev) && ev.thread != "" && buffer > 0
    ensures HearsWithoutGap(ps, before + [Note(verb, body)], |before|, buffer, ev, [Deliver(Delivery(ev.thread, ev))])
  {
    var note := Note(verb, body);
    var acts := [Deliver(Delivery(ev.thread, ev))];
    assert (before + [note])[|before|..|before + [note]|] == [note];
    assert [note][..0] == [] && acts[..0] == [] && EffectOn(ps, note) == acts;
  }

  /**
   The marker of a malformed run covers the whole run, so what a subscription learns
   of a bad line depends on its registration: by the time any bad line has been read,
   the next event can reach it with no gap, on a stream that stays open, exactly when
   it was made after the marker of the line's run was handled.
   */
  lemma MissesTailIff(ps: Parsers, lines: seq<Line>, i: nat, r: nat, verb: string, body: string, ev: ThreadEvent, buffer: nat)
    returns (run: nat)
    requires i < |lines| && Bad(lines[i]) && r <= |Emitted(Resumed(lines, i, verb, body), i + 1)|
    requires ps.event(verb, body) == Parsed(ev) && ev.thread != "" && buffer > 0
    ensures var all := Resumed(lines, i, verb, body);
            && run <= i && OneRun(all, run, i) && EmitAt(all, run) == [Gap]
            && (CanHear(ps, Emitted(all, i + 2), r, buffer, ev) <==> r > |Emitted(all, run)|)
  {
    var all := Resumed(lines, i, verb, body);
    assert all[i] == lines[i];
    run := RunMarker(all, i);
    AfterTheRun(lines, i, run, verb, body);
    if r > |Emitted(all, run)| {
      LateLife(ps, Emitted(all, i + 1), verb, body, ev, buffer);
    } else {
      var ms := Emitted(all, i + 2);
      forall acts ensures !HearsWithoutGap(ps, ms, r, buffer, ev, acts) {
        if LifeOf(ps, ms, r, |ms|, false, acts) {
          BeforeMarkerCloses(ps, all, i, run, r, buffer, acts);
        }
      }
    }
  }

  lemma BeforeMarkerCloses(ps: Parsers, all: seq<Line>, i: nat, run: nat, r: nat, buffer: nat, acts: seq<Action>)
    requires i + 2 == |all| && run <= i && EmitAt(all, run) == [Gap] && r <= |Emitted(all, run)|
    requires r <= |Emitted(all, i + 2)| && LifeOf(ps, Emitted(all, i + 2), r, |Emitted(all, i + 2)|, false, acts)
    ensures Runs.Exec(Step, NewStream(buffer), acts).closed
  {
    EmittedAt(all, run, i + 2);
    var m, last, k := NothingAfterLoss(ps, Emitted(all, i + 2), r, |Emitted(all, i + 2)|, false, buffer, acts,
                                       |Emitted(all, run)|);
  }

  /**
   The approval side of the same guarantee: after a message that lost something,
   a file-change key is inactive until its item is started again.
   */
  lemma {:induction false} LossForgetsApprovals(ps: Parsers, ms: seq<Message>, p: nat, key: Key)
    requires p < |ms| && Breaks(ps, ms[p])
    requires forall k :: p < k < |ms| && EventIn(ps, ms[k]).Some? ==> !Starts(Happened(EventIn(ps, ms[k]).value), key)
    ensures !Active(ApprovalLog(ps, ms), key) && key !in CacheAfter(History(ps, ms))
    decreases |ms|
  {
    var n := |ms| - 1;
    if p < n {
      LossForgetsApprovals(ps, ms[..n], p, key);
    }
    var e := if Breaks(ps, ms[n]) then [Cleared]
             else if EventIn(ps, ms[n]).Some? then [Happened(EventIn(ps, ms[n]).value)] else [];
    assert ApprovalLog(ps, ms) == ApprovalLog(ps, ms[..n]) + e;
    EntryKeepsInactive(ApprovalLog(ps, ms[..n]), e, key);
    HistoryIsLog(ps, ms);
    CacheMeansHistory(ApprovalLog(ps, ms), key);
  }

  lemma EntryKeepsInactive(h: seq<Entry>, e: seq<Entry>, key: Key)
    requires |e| <= 1 && (e != [] ==> !Starts(e[0], key))
    requires !Active(h, key) || (e != [] && e[0].Cleared?)
    ensures !Active(h + e, key)
  {
    if e == [] {
      assert h + e == h;
    } else {
      assert h + e == h + [e[0]];
      ActiveStep(h, e[0], key);
    }
  }
}
