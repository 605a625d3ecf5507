/** The per-thread state and its sections (threads.go, threads_commands.go, compact_result.go). */
module Threads {
  import opened Basics
  import opened Events

  const THREAD_INBOX_BUFFER := 256

  /** clearActiveTurnID */
  function ClearedActive(active: string, turn: string): string {
    if active == "" then active
    else if turn == "" || active == turn then ""
    else active
  }

  /** The active turn id once an event has been delivered without interference. */
  function ActiveAfter(active: string, ev: ThreadEvent): string {
    var a := if ev.TurnStarted? then ev.turn else active;
    if IsTurnTerminus(ev, "") then ClearedActive(a, TurnOfTerminus(ev)) else a
  }

  /** What streamLoop expects after forwarding `ev`: the turn id, learnt from turn/started if need be. */
  function ExpectedAfter(expected: string, ev: ThreadEvent): string {
    if expected == "" && ev.TurnStarted? then ev.turn else expected
  }

  /** A one-shot compaction channel: a buffer of one, closed at most once. */
  class CompactChannel {
    var buffer: seq<ThreadEvent>
    var closed: bool

    constructor ()
      ensures buffer == [] && !closed
    {
      buffer, closed := [], false;
    }
  }

  class Thread {
    const id: string
    var activeTurnID: string
    var inbox: seq<ThreadEvent>
    var closed: bool
    var compactSub: CompactChannel?

    ghost predicate Valid()
      reads this, compactSub
    {
      |inbox| <= THREAD_INBOX_BUFFER && (compactSub != null ==> |compactSub.buffer| <= 1 && !compactSub.closed)
    }

    constructor (id: string)
      ensures Valid() && activeTurnID == "" && inbox == [] && !closed && compactSub == null && this.id == id
    {
      this.id, activeTurnID, inbox, closed, compactSub := id, "", [], false, null;
    }

    method ClearActiveTurnID(turn: string)
      modifies this`activeTurnID
      ensures activeTurnID == ClearedActive(old(activeTurnID), turn)
      ensures turn != "" && old(activeTurnID) != turn ==> activeTurnID == old(activeTurnID)
    {
      if activeTurnID == "" {
        return;
      }
      if turn == "" || activeTurnID == turn {
        activeTurnID := "";
      }
    }

    method DeliverEvent(ev: ThreadEvent)
      requires Valid()
      modifies this`activeTurnID, this`inbox, compactSub
      ensures Valid()
      ensures activeTurnID == if closed then old(activeTurnID) else ActiveAfter(old(activeTurnID), ev)
      ensures inbox == if !closed && |old(inbox)| < THREAD_INBOX_BUFFER then old(inbox) + [ev] else old(inbox)
      ensures compactSub != null ==>
                var was := old(compactSub.buffer);
                compactSub.buffer == if !closed && ev.ContextCompacted? && was == [] then [ev] else was
    {
      if closed {
        return;
      }
      if ev.TurnStarted? {
        activeTurnID := ev.turn;
      }
      if IsTurnTerminus(ev, "") {
        ClearActiveTurnID(TurnOfTerminus(ev));
      }
      if ev.ContextCompacted? && compactSub != null && |compactSub.buffer| < 1 {
        compactSub.buffer := compactSub.buffer + [ev];
      }
      if |inbox| < THREAD_INBOX_BUFFER {
        inbox := inbox + [ev];
      }
    }

    method MarkClosed()
      requires Valid()
      modifies this`closed, this`compactSub, compactSub
      ensures Valid() && closed
      ensures old(closed) ==> compactSub == old(compactSub) && (compactSub != null ==> unchanged(compactSub))
      ensures !old(closed) ==> compactSub == null
      ensures !old(closed) && old(compactSub) != null ==>
                old(compactSub).closed && old(compactSub).buffer == old(compactSub.buffer)
    {
      if closed {
        return;
      }
      closed := true;
      if compactSub != null {
        compactSub.closed := true;
        compactSub := null;
      }
    }

    /** Compact's checks and its compare-and-swap; None when it is refused. */
    method InstallCompaction() returns (ch: CompactChannel?)
      requires Valid()
      modifies this`compactSub
      ensures Valid()
      ensures (ch == null) == (closed || old(compactSub) != null)
      ensures ch == null ==> compactSub == old(compactSub)
      ensures ch != null ==> compactSub == ch && fresh(ch) && ch.buffer == []
    {
      if closed || compactSub != null {
        return null;
      }
      ch := new CompactChannel();
      compactSub := ch;
    }

    /** The compare-and-swap to nil of a failed Compact and of CompactResult.detach. */
    method Detach(ch: CompactChannel)
      requires Valid()
      modifies this`compactSub
      ensures Valid()
      ensures compactSub == if old(compactSub) == ch then null else old(compactSub)
    {
      if compactSub == ch {
        compactSub := null;
      }
    }

    /**
     streamLoop over the events the inbox yields. `patience` is how many it
     forwards before its context or the thread ends; None when neither does.
     */
    method StreamLoop(expectedTurnID: string, events: seq<ThreadEvent>, patience: Option<nat>)
      returns (out: seq<ThreadEvent>, atTerminus: bool)
      ensures out <= events
      ensures forall k :: 0 <= k < |out| - 1 ==> !EndsAt(events, expectedTurnID, k)
      ensures atTerminus <==> out != [] && EndsAt(events, expectedTurnID, |out| - 1)
      ensures !atTerminus ==> out == events || patience == Some(|out|)
      ensures expectedTurnID != "" ==>
                && (forall k :: 0 <= k < |out| - 1 ==> !IsTurnTerminus(out[k], expectedTurnID))
                && (atTerminus <==> out != [] && IsTurnTerminus(out[|out| - 1], expectedTurnID))
    {
      var expected := expectedTurnID;
      out := [];
      for i := 0 to |events|
        invariant out == events[..i] && expected == ExpectedAt(events, expectedTurnID, i)
        invariant forall k :: 0 <= k < i ==> !EndsAt(events, expectedTurnID, k)
        invariant expectedTurnID != "" ==> forall k :: 0 <= k < i ==> !IsTurnTerminus(out[k], expectedTurnID)
      {
        if patience == Some(i) {
          return out, false;
        }
        var ev := events[i];
        out := out + [ev];
        expected := ExpectedAfter(expected, ev);
        LearntOnce(events, expectedTurnID, i);
        if IsTurnTerminus(ev, expected) {
          return out, true;
        }
      }
      return out, false;
    }
  }

  /**
   The turn a stream belongs to after n events: the one it was started with, or
   the first one that announced itself with an id.
   */
  function ExpectedAt(events: seq<ThreadEvent>, expected: string, n: nat): string
    requires n <= |events|
  {
    if expected != "" || n == 0 then expected
    else
      var before := ExpectedAt(events, expected, n - 1);
      if before != "" then before
      else if events[n - 1].TurnStarted? then events[n - 1].turn else ""
  }

  /** Event k ends the stream: a terminus of its turn, or any while the turn is unknown. */
  predicate EndsAt(events: seq<ThreadEvent>, expected: string, k: nat)
    requires k < |events|
  {
    IsTurnTerminus(events[k], ExpectedAt(events, expected, k + 1))
  }

  lemma LearntOnce(events: seq<ThreadEvent>, expected: string, i: nat)
    requires i < |events|
    ensures ExpectedAt(events, expected, i + 1) == ExpectedAfter(ExpectedAt(events, expected, i), events[i])
  {
  }

  predicate Announces(ev: ThreadEvent) {
    ev.TurnStarted? && ev.turn != ""
  }

  /**
   Without a known id, any terminus ends the stream until a turn announces itself
   with one; from then on only that turn's does.
   */
  lemma {:induction false} UnknownTurnEnds(events: seq<ThreadEvent>, s: nat, k: nat)
    requires s <= |events| && k < |events|
    requires s < |events| ==> Announces(events[s])
    requires forall j :: 0 <= j < s ==> !Announces(events[j])
    ensures k <= s ==> (EndsAt(events, "", k) <==> events[k].TurnCompleted? || events[k].TurnFailed?)
    ensures k > s ==> (EndsAt(events, "", k) <==> (events[k].TurnCompleted? || events[k].TurnFailed?) && events[k].turn == events[s].turn)
  {
    if k < s {
      NothingLearnt(events, k + 1);
    } else {
      NothingLearnt(events, s);
      if k > s {
        Remembered(events, s, k + 1);
      }
    }
  }

  lemma {:induction false} NothingLearnt(events: seq<ThreadEvent>, s: nat)
    requires s <= |events|
    requires forall j :: 0 <= j < s ==> !Announces(events[j])
    ensures ExpectedAt(events, "", s) == ""
    decreases s
  {
    if s > 0 {
      NothingLearnt(events, s - 1);
    }
  }

  lemma {:induction false} Remembered(events: seq<ThreadEvent>, s: nat, n: nat)
    requires s < n <= |events|
    requires Announces(events[s]) && ExpectedAt(events, "", s) == ""
    ensures ExpectedAt(events, "", n) == events[s].turn
    decreases n
  {
    if n > s + 1 {
      Remembered(events, s, n - 1);
    }
  }

  // ------------------------------------------------- the active turn id

  /** The active turn id after events delivered one by one, without interference. */
  function ActiveAfterAll(events: seq<ThreadEvent>): string {
    if events == [] then "" else ActiveAfter(ActiveAfterAll(events[..|events| - 1]), events[|events| - 1])
  }

  predicate Ends(ev: ThreadEvent, turn: string) {
    (ev.TurnCompleted? || ev.TurnFailed?) && (ev.turn == "" || ev.turn == turn)
  }

  /** Turn `turn` started last, and has not ended since. */
  ghost predicate RunsAt(events: seq<ThreadEvent>, turn: string) {
    exists i :: 0 <= i < |events| && events[i].TurnStarted? && events[i].turn == turn
                && forall j :: i < j < |events| ==> !events[j].TurnStarted? && !Ends(events[j], turn)
  }

  lemma RunsAtSnoc(events: seq<ThreadEvent>, ev: ThreadEvent, turn: string)
    ensures RunsAt(events + [ev], turn) <==>
            if ev.TurnStarted? then ev.turn == turn else RunsAt(events, turn) && !Ends(ev, turn)
  {
    var all := events + [ev];
    assert all[|events|] == ev;
    if RunsAt(events, turn) && !ev.TurnStarted? && !Ends(ev, turn) {
      var i :| 0 <= i < |events| && events[i].TurnStarted? && events[i].turn == turn
               && forall j :: i < j < |events| ==> !events[j].TurnStarted? && !Ends(events[j], turn);
      assert all[i] == events[i];
    }
    if RunsAt(all, turn) && !ev.TurnStarted? {
      var i :| 0 <= i < |all| && all[i].TurnStarted? && all[i].turn == turn
               && forall j :: i < j < |all| ==> !all[j].TurnStarted? && !Ends(all[j], turn);
      assert all[i] == events[i];
      assert forall j :: i < j < |events| ==> events[j] == all[j];
    }
  }

  /**
   The active turn id is t exactly when t is the turn that started last and no
   terminus of t, or of an unnamed turn, came after.
   */
  lemma {:induction false} ActiveMeaning(events: seq<ThreadEvent>, turn: string)
    requires turn != ""
    ensures ActiveAfterAll(events) == turn <==> RunsAt(events, turn)
    decreases |events|
  {
    if events != [] {
      var n := |events| - 1;
      ActiveMeaning(events[..n], turn);
      RunsAtSnoc(events[..n], events[n], turn);
      assert events[..n] + [events[n]] == events;
    }
  }
}
