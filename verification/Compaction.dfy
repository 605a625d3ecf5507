/**
 Compactions on one thread: Compact and Wait callers, the dispatcher's tee and
 Close, interleaved (threads_commands.go, compact_result.go, threads.go, client.go).
 */
module Compaction {
  import opened Basics
  import Runs

  /**
   The channel of one Compact. `closes` counts the closes, `early` says that it was
   installed while the thread was open, and `released` is the Wait whose detach took
   it out of the cell.
   */
  datatype Channel = Channel(buffer: seq<nat>, closes: nat, early: bool, released: Option<nat>)

  datatype Compact =
    | Checked    // the thread was open
    | Installed  // its channel is in the cell; nothing sent yet
    | Sending    // registered with the demux
    | Returned   // the caller has its CompactResult
    | Failing    // about to detach
    | Failed

  datatype Outcome = Event(ev: nat) | ThreadClosed | ContextDone

  datatype Wait = Blocked(c: nat) | Leaving(c: nat, outcome: Outcome) | Ended(c: nat, outcome: Outcome)

  /** How far Client.Close is; inside markClosed it holds eventMu, which keeps it out of a delivery. */
  datatype Stage = Running | DemuxClosed | Marking | Done

  /**
   `notified` counts the notifications, which stand for their events; `teeing` is a
   delivery under way: the cell it loaded and its notification.
   */
  datatype State = State(
    closed: bool,
    cell: Option<nat>,
    channels: map<nat, Channel>,
    compacts: map<nat, Compact>,
    waits: map<nat, Wait>,
    notified: nat,
    teeing: Option<(Option<nat>, nat)>,
    stage: Stage,
    registered: bool)

  datatype Action =
    | Check(c: nat)
    | Install(c: nat)
    | Send(c: nat)
    | Refused(c: nat)    // the client is closed or not connected, or the write failed
    | RpcOk(c: nat)
    | RpcFails(c: nat)
    | Undo(c: nat)
    | StartWait(w: nat, c: nat)
    | TakeEvent(w: nat)
    | SeeClose(w: nat)
    | GiveUp(w: nat)
    | Detach(w: nat)
    | Load         // a delivery begins: the dispatcher loads the cell
    | Tee
    | Unregister
    | CloseDemux
    | CloseThread  // markClosed takes eventMu and swaps `closed`
    | SwapOut      // ... and then swaps the cell, which no mutex guards, and closes its channel

  const FRESH := State(false, None, map[], map[], map[], 0, None, Running, true)

  predicate Is(s: State, c: nat, p: Compact) {
    c in s.compacts && s.compacts[c] == p
  }

  function To(s: State, c: nat, p: Compact): State {
    s.(compacts := s.compacts[c := p])
  }

  predicate IsBlocked(s: State, w: nat) {
    w in s.waits && s.waits[w].Blocked? && s.waits[w].c in s.channels
  }

  predicate ByCompact(a: Action) {
    a.Check? || a.Install? || a.Send? || a.Refused? || a.RpcOk? || a.RpcFails? || a.Undo?
  }

  predicate ByWait(a: Action) {
    a.StartWait? || a.TakeEvent? || a.SeeClose? || a.GiveUp? || a.Detach?
  }

  function CompactStep(s: State, a: Action): State
    requires ByCompact(a)
  {
    match a
    case Check(c) =>
      if c in s.compacts then s else To(s, c, if s.closed then Failed else Checked)
    case Install(c) =>
      if !Is(s, c, Checked) then s
      else if s.cell.Some? then To(s, c, Failed)
      else To(s, c, Installed).(cell := Some(c), channels := s.channels[c := Channel([], 0, !s.closed, None)])
    case Send(c) =>
      if Is(s, c, Installed) then To(s, c, if s.stage.Running? then Sending else Failing) else s
    case Refused(c) =>
      if Is(s, c, Installed) then To(s, c, Failing) else s
    case RpcOk(c) =>
      if Is(s, c, Sending) then To(s, c, Returned) else s
    case RpcFails(c) =>
      if Is(s, c, Sending) then To(s, c, Failing) else s
    case Undo(c) =>
      if Is(s, c, Failing) then To(s, c, Failed).(cell := if s.cell == Some(c) then None else s.cell) else s
  }

  function WaitStep(s: State, a: Action): State
    requires ByWait(a)
  {
    match a
    case StartWait(w, c) =>
      if w !in s.waits && Is(s, c, Returned) then s.(waits := s.waits[w := Blocked(c)]) else s
    case TakeEvent(w) =>
      if IsBlocked(s, w) && s.channels[s.waits[w].c].buffer != [] then
        var c := s.waits[w].c;
        var ch := s.channels[c];
        s.(waits := s.waits[w := Leaving(c, Event(ch.buffer[0]))],
           channels := s.channels[c := ch.(buffer := ch.buffer[1..])])
      else s
    case SeeClose(w) =>
      if IsBlocked(s, w) && s.channels[s.waits[w].c].buffer == [] && s.channels[s.waits[w].c].closes > 0 then
        s.(waits := s.waits[w := Leaving(s.waits[w].c, ThreadClosed)])
      else s
    case GiveUp(w) =>
      if IsBlocked(s, w) then s.(waits := s.waits[w := Leaving(s.waits[w].c, ContextDone)]) else s
    case Detach(w) =>
      if w !in s.waits || !s.waits[w].Leaving? then s
      else
        var c := s.waits[w].c;
        var t := s.(waits := s.waits[w := Ended(c, s.waits[w].outcome)]);
        if s.cell == Some(c) && c in s.channels then
          t.(cell := None, channels := s.channels[c := s.channels[c].(released := Some(w))])
        else t
  }

  function Teed(s: State, target: Option<nat>, ev: nat): State {
    if target.Some? && target.value in s.channels && |s.channels[target.value].buffer| < 1 then
      var ch := s.channels[target.value];
      s.(channels := s.channels[target.value := ch.(buffer := ch.buffer + [ev])])
    else s
  }

  function SwappedOut(s: State): State {
    if s.cell.Some? && s.cell.value in s.channels then
      var ch := s.channels[s.cell.value];
      s.(cell := None, channels := s.channels[s.cell.value := ch.(closes := ch.closes + 1)])
    else s.(cell := None)
  }

  function OtherStep(s: State, a: Action): State
    requires !ByCompact(a) && !ByWait(a)
  {
    match a
    case Load =>
      if s.teeing.None? && !s.closed then s.(teeing := Some((s.cell, s.notified)), notified := s.notified + 1) else s
    case Tee =>
      if s.teeing.Some? then Teed(s, s.teeing.value.0, s.teeing.value.1).(teeing := None) else s
    case Unregister => s.(registered := false)
    case CloseDemux =>
      if s.stage.Running? then s.(stage := DemuxClosed) else s
    case CloseThread =>
      if !s.stage.DemuxClosed? || (s.registered && s.teeing.Some?) then s
      else if s.registered then s.(closed := true, stage := Marking)
      else s.(stage := Done)
    case SwapOut =>
      if s.stage.Marking? then SwappedOut(s).(stage := Done) else s
  }

  function Step(s: State, a: Action): State {
    if ByCompact(a) then CompactStep(s, a)
    else if ByWait(a) then WaitStep(s, a)
    else OtherStep(s, a)
  }

  // ------------------------------------------------- invariant

  predicate Running?(s: State, c: nat) {
    Is(s, c, Installed) || Is(s, c, Sending) || Is(s, c, Returned) || Is(s, c, Failing)
  }

  /** The channel of a compact under way or returned. */
  ghost predicate ChannelSound(s: State, c: nat)
    requires c in s.channels
  {
    var ch := s.channels[c];
    && |ch.buffer| <= 1 && ch.closes <= 1
    && (ch.closes == 1 ==> s.closed)
    && (!s.closed ==> ch.early)
    && (ch.released.Some? ==>
          && ch.released.value in s.waits
          && s.waits[ch.released.value].Ended? && s.waits[ch.released.value].c == c)
    && (ch.closes == 1 ==> ch.released.None?)
    && (Running?(s, c) && ch.early && ch.closes == 0 && ch.released.None? ==> s.cell == Some(c))
    && (s.cell == Some(c) ==> ch.closes == 0 && ch.released.None? && (s.closed && s.stage.Done? ==> !ch.early))
  }

  /** Some Wait on the result of c has come back. */
  ghost predicate Awaited(s: State, c: nat) {
    exists w :: w in s.waits && s.waits[w].Ended? && s.waits[w].c == c
  }

  ghost predicate CellSound(s: State) {
    && (s.cell.Some? ==> Running?(s, s.cell.value))
    && (s.teeing.Some? ==> !s.closed)
    && (s.closed ==> s.stage.Marking? || s.stage.Done?)
    && (s.stage.Marking? ==> s.closed)
    && (s.stage.Done? && s.registered ==> s.closed)
    && (forall w :: w in s.waits ==> Is(s, s.waits[w].c, Returned))
  }

  /** What compact c owns. */
  ghost predicate CompactSound(s: State, c: nat) {
    && (Running?(s, c) ==> c in s.channels)
    && (Is(s, c, Checked) || c !in s.compacts ==> c !in s.channels)
    && (c in s.channels ==> ChannelSound(s, c))
    && (Is(s, c, Sending) || Is(s, c, Returned) ==> s.channels[c].early)
  }

  ghost predicate AwaitSound(s: State, c: nat) {
    !s.closed && Awaited(s, c) ==> c in s.channels && s.channels[c].released.Some?
  }

  ghost predicate Inv(s: State) {
    CellSound(s) && forall c :: CompactSound(s, c) && AwaitSound(s, c)
  }

  lemma CompactKeepsOwn(s: State, a: Action, c: nat)
    requires ByCompact(a) && CellSound(s) && CompactSound(s, c) && CompactSound(s, a.c)
    ensures CompactSound(Step(s, a), c)
  {
  }

  lemma WaitKeepsOwn(s: State, a: Action, c: nat)
    requires CellSound(s) && CompactSound(s, c) && ByWait(a)
    ensures CompactSound(Step(s, a), c)
  {
  }

  lemma OtherKeepsOwn(s: State, a: Action, c: nat)
    requires CellSound(s) && CompactSound(s, c) && !ByCompact(a) && !ByWait(a)
    ensures CompactSound(Step(s, a), c)
  {
    if a.Load? || a.Unregister? || a.CloseDemux? || a.CloseThread? {
      assert (Step(s, a).channels, Step(s, a).compacts, Step(s, a).cell, Step(s, a).waits) ==
             (s.channels, s.compacts, s.cell, s.waits);
    }
  }

  lemma DetachKeepsAwait(s: State, w: nat, c: nat)
    requires CellSound(s) && CompactSound(s, c) && AwaitSound(s, c)
    ensures AwaitSound(Step(s, Detach(w)), c)
  {
    var s' := Step(s, Detach(w));
    if w in s.waits && s.waits[w].c == c {
      assert s.waits[w].Leaving? && !s.closed ==> s'.channels[c].released.Some?;
    } else {
      assert Awaited(s', c) ==> Awaited(s, c);
    }
  }

  /** Only a detach ends a wait. */
  lemma OnlyDetachEnds(s: State, a: Action, w: nat)
    requires !a.Detach? && w in Step(s, a).waits && Step(s, a).waits[w].Ended?
    ensures w in s.waits && s.waits[w] == Step(s, a).waits[w]
  {
  }

  lemma StaysReleased(s: State, a: Action, c: nat)
    requires CompactSound(s, c) && c in s.channels && s.channels[c].released.Some?
    ensures c in Step(s, a).channels && Step(s, a).channels[c].released.Some?
  {
  }

  lemma StepKeepsAwait(s: State, a: Action, c: nat)
    requires !a.Detach? && AwaitSound(s, c) && CompactSound(s, c)
    ensures AwaitSound(Step(s, a), c)
  {
    var s' := Step(s, a);
    if Awaited(s', c) {
      var w :| w in s'.waits && s'.waits[w].Ended? && s'.waits[w].c == c;
      OnlyDetachEnds(s, a, w);
      if s.closed {
        StaysClosed(s, a);
      } else {
        StaysReleased(s, a, c);
      }
    }
  }

  lemma StaysClosed(s: State, a: Action)
    requires s.closed
    ensures Step(s, a).closed
  {
  }

  lemma CompactKeepsCell(s: State, a: Action)
    requires ByCompact(a) && Inv(s)
    ensures CellSound(Step(s, a))
  {
  }

  lemma OtherKeepsCell(s: State, a: Action)
    requires !ByCompact(a) && Inv(s)
    ensures CellSound(Step(s, a))
  {
  }

  lemma StepKeepsInv(s: State, a: Action)
    requires Inv(s)
    ensures Inv(Step(s, a))
  {
    if ByCompact(a) {
      CompactKeepsCell(s, a);
    } else {
      OtherKeepsCell(s, a);
    }
    forall c ensures CompactSound(Step(s, a), c) && AwaitSound(Step(s, a), c) {
      if a.Detach? {
        DetachKeepsAwait(s, a.w, c);
      } else {
        StepKeepsAwait(s, a, c);
      }
      if ByCompact(a) {
        CompactKeepsOwn(s, a, c);
      } else if ByWait(a) {
        WaitKeepsOwn(s, a, c);
      } else {
        OtherKeepsOwn(s, a, c);
      }
    }
  }

  lemma Reachable(acts: seq<Action>)
    ensures Inv(Runs.Exec(Step, FRESH, acts))
  {
    forall s, a | Inv(s) ensures Inv(Step(s, a)) {
      StepKeepsInv(s, a);
    }
    Runs.Invariant(Step, Inv, FRESH, acts);
  }

  // ------------------------------------------------- what callers get

  /**
   In every interleaving at most one subscription is installed, namely that of a
   Compact under way or returned; no channel is closed twice, sent on after its
   close, or filled beyond its one slot.
   */
  lemma ChannelDiscipline(acts: seq<Action>, c: nat)
    ensures var s := Runs.Exec(Step, FRESH, acts);
            && (s.cell == Some(c) ==> Running?(s, c))
            && (c in s.channels ==> s.channels[c].closes <= 1 && |s.channels[c].buffer| <= 1)
            && (c in s.channels && s.teeing.Some? && s.teeing.value.0 == Some(c) ==> s.channels[c].closes == 0)
  {
    Reachable(acts);
    var s := Runs.Exec(Step, FRESH, acts);
    assert CompactSound(s, c) && AwaitSound(s, c);
  }

  /** A Wait on c that started would come back without its context being done. */
  predicate Ready(s: State, c: nat) {
    c in s.channels && (s.channels[c].buffer != [] || s.channels[c].closes > 0)
  }

  /**
   Every CompactResult ever returned was installed while its thread was open. Once
   Close is through with a registered thread, the result's channel is closed unless
   the detach of an earlier Wait on the same result had taken it out, which it has
   exactly when a Wait came back while the thread was open; so a Wait comes back on
   its own exactly when there was no such Wait or an event is left.
   */
  lemma CloseWakes(acts: seq<Action>, c: nat)
    requires Is(Runs.Exec(Step, FRESH, acts), c, Returned)
    ensures var s := Runs.Exec(Step, FRESH, acts);
            && c in s.channels && s.channels[c].early
            && (s.stage.Done? && s.registered ==>
                  && (s.channels[c].closes == 1 <==> s.channels[c].released.None?)
                  && (Ready(s, c) <==> s.channels[c].released.None? || s.channels[c].buffer != []))
            && (s.channels[c].released.Some? ==> Awaited(s, c))
            && (!s.closed && Awaited(s, c) ==> s.channels[c].released.Some?)
  {
    Reachable(acts);
    var s := Runs.Exec(Step, FRESH, acts);
    assert CompactSound(s, c) && AwaitSound(s, c);
  }

  /**
   The notification cannot arrive before the receiver is ready: from the moment the
   request is sent, as long as the thread is open and no Wait on the result has
   come back, a delivery puts the event into the channel or finds one there.
   */
  lemma NotificationNotMissed(acts: seq<Action>, c: nat)
    requires var s := Runs.Exec(Step, FRESH, acts);
             && (Is(s, c, Sending) || Is(s, c, Returned))
             && !s.closed && s.teeing.None?
             && forall w :: w in s.waits && s.waits[w].c == c ==> s.waits[w].Blocked?
    ensures var s := Step(Step(Runs.Exec(Step, FRESH, acts), Load), Tee);
            c in s.channels && s.channels[c].buffer != []
  {
    Reachable(acts);
    var s := Runs.Exec(Step, FRESH, acts);
    assert CompactSound(s, c) && AwaitSound(s, c);
  }

  /** A channel out of the cell, drained, open, and no longer in the dispatcher's hand. */
  predicate Abandoned(s: State, c: nat) {
    && c in s.channels && s.channels[c].buffer == [] && s.channels[c].closes == 0
    && s.cell != Some(c) && Is(s, c, Returned)
    && (s.teeing.Some? ==> s.teeing.value.0 != Some(c))
  }

  lemma WaitKeepsAbandoned(s: State, a: Action, c: nat)
    requires ByWait(a) && Abandoned(s, c)
    ensures Abandoned(Step(s, a), c)
  {
  }

  lemma CompactKeepsAbandoned(s: State, a: Action, c: nat)
    requires ByCompact(a) && Abandoned(s, c)
    ensures Abandoned(Step(s, a), c)
  {
  }

  lemma StepKeepsAbandoned(s: State, a: Action, c: nat)
    requires Abandoned(s, c)
    ensures Abandoned(Step(s, a), c)
  {
    if ByWait(a) {
      WaitKeepsAbandoned(s, a, c);
    } else if ByCompact(a) {
      CompactKeepsAbandoned(s, a, c);
    }
  }

  /** From then on, whatever happens, Close included, a Wait on it ends only by its context. */
  lemma AbandonedForGood(s: State, acts: seq<Action>, c: nat, w: nat)
    requires Abandoned(s, c)
    ensures var t := Runs.Exec(Step, s, acts);
            && Abandoned(t, c)
            && (w in t.waits && t.waits[w] == Blocked(c) ==> Step(t, TakeEvent(w)) == t && Step(t, SeeClose(w)) == t)
  {
    var keeps := (t: State) => Abandoned(t, c);
    forall t, a | keeps(t) ensures keeps(Step(t, a)) {
      StepKeepsAbandoned(t, a, c);
    }
    Runs.Invariant(Step, keeps, s, acts);
  }

  /** Wait w has come back, and not because its context was done. */
  predicate CameBack(s: State, w: nat) {
    w in s.waits && !s.waits[w].Blocked? && s.waits[w].outcome != ContextDone
  }

  ghost predicate StaysOut(s: State, c: nat, w: nat) {
    Abandoned(s, c) && w in s.waits && s.waits[w].c == c && !CameBack(s, w)
  }

  lemma KeepsOut(s: State, a: Action, c: nat, w: nat)
    requires StaysOut(s, c, w)
    ensures StaysOut(Step(s, a), c, w)
  {
    StepKeepsAbandoned(s, a, c);
    if ByWait(a) {
      assert w in Step(s, a).waits && Step(s, a).waits[w].c == c;
    }
  }

  /** The moves that bring a blocked Wait back, when anything can. */
  function WayBack(s: State, c: nat, w: nat): seq<Action>
    requires c in s.channels
  {
    if s.channels[c].buffer != [] then [TakeEvent(w)]
    else if s.channels[c].closes > 0 then [SeeClose(w)]
    else if s.teeing.Some? && s.teeing.value.0 == Some(c) then [Tee, TakeEvent(w)]
    else if s.closed then [SwapOut, SeeClose(w)]
    else [Tee, Load, Tee, TakeEvent(w)]
  }

  lemma EventBringsBack(s: State, c: nat, w: nat)
    requires w in s.waits && s.waits[w] == Blocked(c) && c in s.channels && s.channels[c].buffer != []
    ensures CameBack(Step(s, TakeEvent(w)), w)
  {
  }

  lemma TeeFills(s: State, c: nat)
    requires c in s.channels && s.teeing.Some? && s.teeing.value.0 == Some(c)
    ensures c in Step(s, Tee).channels && Step(s, Tee).channels[c].buffer != [] && Step(s, Tee).waits == s.waits
  {
  }

  lemma DeliveryFills(s: State, c: nat)
    requires c in s.channels && s.cell == Some(c) && !s.closed && (s.teeing.Some? ==> s.teeing.value.0 != Some(c))
    ensures var t := Step(Step(Step(s, Tee), Load), Tee);
            c in t.channels && t.channels[c].buffer != [] && t.waits == s.waits
  {
    var t := Step(Step(s, Tee), Load);
    assert t.teeing.Some? && t.teeing.value.0 == Some(c) && c in t.channels && t.waits == s.waits;
    TeeFills(t, c);
  }

  lemma WayBackWorks(s: State, c: nat, w: nat)
    requires w in s.waits && s.waits[w] == Blocked(c) && c in s.channels && Is(s, c, Returned) && !Abandoned(s, c)
    requires s.closed && s.cell == Some(c) ==> s.stage.Marking?
    requires s.closed ==> s.teeing.None?
    ensures CameBack(Runs.Exec(Step, s, WayBack(s, c, w)), w)
  {
    var way := WayBack(s, c, w);
    Runs.Follow(Step, s, way);
    if s.channels[c].buffer != [] {
      EventBringsBack(s, c, w);
    } else if s.channels[c].closes == 0 {
      Runs.Follow(Step, Step(s, way[0]), way[1..]);
      if s.teeing.Some? && s.teeing.value.0 == Some(c) {
        TeeFills(s, c);
        EventBringsBack(Step(s, Tee), c, w);
      } else if !s.closed {
        DeliveryFills(s, c);
        assert way == [] + way;
        Runs.Four(Step, s, [], Tee, Load, Tee, TakeEvent(w));
        EventBringsBack(Step(Step(Step(s, Tee), Load), Tee), c, w);
      }
    }
  }

  /**
   A blocked Wait, the first on its result or a later one, can come back other than
   by its context exactly when the result's channel is not abandoned.
   */
  lemma WaitReturnsIff(acts: seq<Action>, w: nat, c: nat)
    requires var s := Runs.Exec(Step, FRESH, acts); w in s.waits && s.waits[w] == Blocked(c)
    ensures (exists more :: CameBack(Runs.Exec(Step, FRESH, acts + more), w)) <==>
            !Abandoned(Runs.Exec(Step, FRESH, acts), c)
  {
    var s := Runs.Exec(Step, FRESH, acts);
    Reachable(acts);
    assert CompactSound(s, c);
    if Abandoned(s, c) {
      var out := (t: State) => StaysOut(t, c, w);
      forall t, a | out(t) ensures out(Step(t, a)) {
        KeepsOut(t, a, c, w);
      }
      forall more ensures !CameBack(Runs.Exec(Step, FRESH, acts + more), w) {
        Runs.Invariant(Step, out, s, more);
        Runs.Split(Step, FRESH, acts, more);
      }
    } else {
      WayBackWorks(s, c, w);
      Runs.Split(Step, FRESH, acts, WayBack(s, c, w));
      assert CameBack(Runs.Exec(Step, FRESH, acts + WayBack(s, c, w)), w);
    }
  }

  /**
   In a caller's terms: while the thread is open and nothing is being delivered, the
   channel of a result on which a Wait has come back is abandoned exactly when no
   event is left in it.
   */
  lemma AwaitedIsAbandonedIff(acts: seq<Action>, c: nat)
    requires var s := Runs.Exec(Step, FRESH, acts);
             Is(s, c, Returned) && Awaited(s, c) && !s.closed && s.teeing.None?
    ensures var s := Runs.Exec(Step, FRESH, acts);
            c in s.channels && (Abandoned(s, c) <==> s.channels[c].buffer == [])
  {
    Reachable(acts);
    var s := Runs.Exec(Step, FRESH, acts);
    assert CompactSound(s, c) && AwaitSound(s, c);
  }

  /** Where a notification is: with the dispatcher, in a channel, or returned by a Wait. */
  datatype Place = InHand | Buffered(c: nat) | With(w: nat)

  predicate Lies(s: State, p: Place, e: nat) {
    match p
    case InHand => s.teeing.Some? && s.teeing.value.1 == e
    case Buffered(c) => c in s.channels && e in s.channels[c].buffer
    case With(w) => w in s.waits && !s.waits[w].Blocked? && s.waits[w].outcome == Event(e)
  }

  /** No notification is in two places. */
  ghost predicate Unique(s: State) {
    && (forall p: Place, e: nat :: Lies(s, p, e) ==> e < s.notified)
    && (forall p: Place, q: Place, e: nat :: Lies(s, p, e) && Lies(s, q, e) ==> p == q)
  }

  /** The place that a step fills p from. */
  function From(s: State, a: Action, p: Place): Place {
    if a.Tee? && p.Buffered? && s.teeing.Some? && s.teeing.value.0 == Some(p.c)
       && p.c in s.channels && s.channels[p.c].buffer == [] then InHand
    else if a.TakeEvent? && p == With(a.w) && IsBlocked(s, a.w) then Buffered(s.waits[a.w].c)
    else p
  }

  lemma CompactMovesNone(s: State, a: Action, p: Place, e: nat)
    requires ByCompact(a) && Lies(Step(s, a), p, e)
    ensures Lies(s, p, e) && s.notified == Step(s, a).notified
  {
  }

  lemma WaitMovesOne(s: State, a: Action, p: Place, e: nat)
    requires ByWait(a) && (forall c :: c in s.channels ==> |s.channels[c].buffer| <= 1)
    requires Lies(Step(s, a), p, e)
    ensures Lies(s, From(s, a, p), e) && s.notified == Step(s, a).notified
  {
  }

  lemma OtherMovesOne(s: State, a: Action, p: Place, e: nat)
    requires !ByCompact(a) && !ByWait(a) && Lies(Step(s, a), p, e)
    ensures Lies(s, From(s, a, p), e) || (a.Load? && p.InHand? && e == s.notified && Step(s, a).notified == e + 1)
    ensures s.notified <= Step(s, a).notified
  {
  }

  lemma ComesFrom(s: State, a: Action, p: Place, e: nat)
    requires forall c :: c in s.channels ==> |s.channels[c].buffer| <= 1
    requires Lies(Step(s, a), p, e)
    ensures Lies(s, From(s, a, p), e) || (a.Load? && p.InHand? && e == s.notified && Step(s, a).notified == e + 1)
    ensures s.notified <= Step(s, a).notified
  {
    if ByCompact(a) {
      CompactMovesNone(s, a, p, e);
    } else if ByWait(a) {
      WaitMovesOne(s, a, p, e);
    } else {
      OtherMovesOne(s, a, p, e);
    }
  }

  lemma FromIsInjective(s: State, a: Action, p: Place, q: Place, e: nat)
    requires forall c :: c in s.channels ==> |s.channels[c].buffer| <= 1
    requires Lies(Step(s, a), p, e) && Lies(Step(s, a), q, e) && From(s, a, p) == From(s, a, q)
    ensures p == q
  {
  }

  lemma StepKeepsUnique(s: State, a: Action)
    requires Inv(s) && Unique(s)
    ensures Unique(Step(s, a))
  {
    forall c | c in s.channels ensures |s.channels[c].buffer| <= 1 {
      assert CompactSound(s, c);
    }
    forall p: Place, e: nat | Lies(Step(s, a), p, e) ensures e < Step(s, a).notified {
      ComesFrom(s, a, p, e);
    }
    forall p: Place, q: Place, e: nat | Lies(Step(s, a), p, e) && Lies(Step(s, a), q, e) ensures p == q {
      ComesFrom(s, a, p, e);
      ComesFrom(s, a, q, e);
      if From(s, a, p) == From(s, a, q) {
        FromIsInjective(s, a, p, q, e);
      }
    }
  }

  lemma AllUnique(acts: seq<Action>)
    ensures Unique(Runs.Exec(Step, FRESH, acts))
  {
    var both := (s: State) => Inv(s) && Unique(s);
    forall s, a | both(s) ensures both(Step(s, a)) {
      StepKeepsInv(s, a);
      StepKeepsUnique(s, a);
    }
    Runs.Invariant(Step, both, FRESH, acts);
  }

  /** No two Waits, on one result or on two, ever return the same notification. */
  lemma NeverTheSameEvent(acts: seq<Action>, v: nat, w: nat, e: nat)
    requires var s := Runs.Exec(Step, FRESH, acts);
             v in s.waits && w in s.waits && s.waits[v].Ended? && s.waits[w].Ended?
             && s.waits[v].outcome == Event(e) && s.waits[w].outcome == Event(e)
    ensures v == w
  {
    AllUnique(acts);
    var s := Runs.Exec(Step, FRESH, acts);
    assert Lies(s, With(v), e) && Lies(s, With(w), e);
  }

  // ------------------------------------------------- everyone comes to an end

  /** What the code of a Compact can do next. */
  predicate NextOf(s: State, c: nat, a: Action) {
    || (Is(s, c, Checked) && a == Install(c))
    || (Is(s, c, Installed) && (a == Send(c) || a == Refused(c)))
    || (Is(s, c, Sending) && (a == RpcOk(c) || a == RpcFails(c)))
    || (Is(s, c, Failing) && a == Undo(c))
  }

  function ToGo(p: Compact): nat {
    match p
    case Checked => 4
    case Installed => 3
    case Sending => 2
    case Failing => 1
    case Returned => 0
    case Failed => 0
  }

  /** Every move brings its Compact nearer to its end, and no Compact is ever without one. */
  lemma EveryMoveCounts(s: State, c: nat, a: Action)
    requires c in s.compacts
    ensures NextOf(s, c, a) ==> c in Step(s, a).compacts && ToGo(Step(s, a).compacts[c]) < ToGo(s.compacts[c])
    ensures ToGo(s.compacts[c]) > 0 ==> exists next :: NextOf(s, c, next)
  {
    assert NextOf(s, c, Install(c)) || NextOf(s, c, Refused(c)) || NextOf(s, c, RpcFails(c)) || NextOf(s, c, Undo(c))
           || ToGo(s.compacts[c]) == 0;
  }

  /** Why a Compact ended as it did: it needs its answer to return, and a reason to fail. */
  ghost predicate CompactExplained(acts: seq<Action>, s: State, c: nat) {
    && (Is(s, c, Installed) || Is(s, c, Sending) || Is(s, c, Returned) ==> Install(c) in acts && c in s.channels)
    && (Is(s, c, Sending) || Is(s, c, Returned) ==> Send(c) in acts)
    && (Is(s, c, Returned) ==> RpcOk(c) in acts)
    && (Is(s, c, Failing) || Is(s, c, Failed) ==>
          || Refused(c) in acts || RpcFails(c) in acts
          || s.closed || !s.stage.Running?
          || exists d :: d != c && d in s.channels)
  }

  lemma OnlyGrows(s: State, a: Action)
    ensures var s' := Step(s, a);
            && s.channels.Keys <= s'.channels.Keys
            && (s.closed ==> s'.closed) && (!s.stage.Running? ==> !s'.stage.Running?)
  {
  }

  lemma OthersStay(s: State, a: Action, c: nat)
    requires !ByCompact(a) || a.c != c
    ensures forall p :: Is(Step(s, a), c, p) <==> Is(s, c, p)
  {
    if !ByCompact(a) {
      assert Step(s, a).compacts == s.compacts;
    }
  }

  lemma StaysExplained(acts: seq<Action>, s: State, a: Action, s': State, c: nat)
    requires CompactExplained(acts, s, c) && (forall p :: Is(s', c, p) <==> Is(s, c, p))
    requires s.channels.Keys <= s'.channels.Keys && (s.closed ==> s'.closed) && (!s.stage.Running? ==> !s'.stage.Running?)
    ensures CompactExplained(acts + [a], s', c)
  {
    assert forall x :: x in acts ==> x in acts + [a];
    if d :| d != c && d in s.channels {
      assert d in s'.channels;
    }
  }

  lemma OwnStepExplains(acts: seq<Action>, s: State, a: Action, c: nat)
    requires ByCompact(a) && a.c == c && CompactExplained(acts, s, c)
    requires a.Install? && Is(s, c, Checked) && s.cell.Some? ==> s.cell.value != c && s.cell.value in s.channels
    ensures CompactExplained(acts + [a], CompactStep(s, a), c)
  {
    var after := acts + [a];
    assert a in after && forall x :: x in acts ==> x in after;
    assert s.channels.Keys <= CompactStep(s, a).channels.Keys;
  }

  lemma StepExplains(acts: seq<Action>, s: State, a: Action, c: nat)
    requires Inv(s) && CompactExplained(acts, s, c)
    ensures CompactExplained(acts + [a], Step(s, a), c)
  {
    if ByCompact(a) && a.c == c {
      assert s.cell.Some? ==> CompactSound(s, s.cell.value);
      OwnStepExplains(acts, s, a, c);
    } else {
      OnlyGrows(s, a);
      OthersStay(s, a, c);
      StaysExplained(acts, s, a, Step(s, a), c);
    }
  }

  lemma {:induction false} CompactOutcomes(acts: seq<Action>, c: nat)
    ensures CompactExplained(acts, Runs.Exec(Step, FRESH, acts), c)
    decreases |acts|
  {
    if acts != [] {
      var n := |acts| - 1;
      var s := Runs.Exec(Step, FRESH, acts[..n]);
      CompactOutcomes(acts[..n], c);
      Reachable(acts[..n]);
      StepExplains(acts[..n], s, acts[n], c);
      assert acts == acts[..n] + [acts[n]];
    }
  }

  /** Why a Wait came back: with an event, because the closed channel was empty, or because its context was done. */
  ghost predicate WaitExplained(acts: seq<Action>, s: State, w: nat) {
    w in s.waits && !s.waits[w].Blocked? ==>
      match s.waits[w].outcome
      case Event(e) => e < s.notified
      case ThreadClosed =>
        && s.closed && s.waits[w].c in s.channels
        && s.channels[s.waits[w].c].closes == 1 && s.channels[s.waits[w].c].buffer == []
      case ContextDone => GiveUp(w) in acts
  }

  /** A closed and empty channel stays so. */
  lemma StaysShut(s: State, a: Action, c: nat)
    requires Inv(s) && c in s.channels && s.channels[c].closes == 1 && s.channels[c].buffer == []
    ensures c in Step(s, a).channels && Step(s, a).channels[c] == s.channels[c]
  {
    assert CompactSound(s, c);
    if ByCompact(a) {
      assert CompactSound(s, a.c);
    }
  }

  lemma NewOutcome(s: State, a: Action, w: nat)
    requires Inv(s) && Unique(s) && (w in s.waits ==> s.waits[w].Blocked?)
    ensures var t := Step(s, a);
            w in t.waits && !t.waits[w].Blocked? ==>
              match t.waits[w].outcome
              case Event(e) => e < t.notified
              case ThreadClosed =>
                var c := t.waits[w].c;
                t.closed && c in t.channels && t.channels[c].closes == 1 && t.channels[c].buffer == []
              case ContextDone => a == GiveUp(w)
  {
    if IsBlocked(s, w) {
      var c := s.waits[w].c;
      assert CompactSound(s, c);
      if s.channels[c].buffer != [] {
        assert Lies(s, Buffered(c), s.channels[c].buffer[0]);
      }
    }
  }

  lemma OutcomeStays(s: State, a: Action, w: nat)
    requires w in s.waits && !s.waits[w].Blocked?
    ensures var t := Step(s, a);
            && w in t.waits && !t.waits[w].Blocked? && t.waits[w].c == s.waits[w].c
            && t.waits[w].outcome == s.waits[w].outcome && s.notified <= t.notified
  {
  }

  lemma WaitStaysExplained(acts: seq<Action>, s: State, a: Action, w: nat)
    requires Inv(s) && Unique(s) && WaitExplained(acts, s, w)
    ensures WaitExplained(acts + [a], Step(s, a), w)
  {
    assert a in acts + [a] && forall x :: x in acts ==> x in acts + [a];
    if w in s.waits && !s.waits[w].Blocked? {
      OutcomeStays(s, a, w);
      if s.waits[w].outcome.ThreadClosed? {
        StaysShut(s, a, s.waits[w].c);
        StaysClosed(s, a);
      }
    } else {
      NewOutcome(s, a, w);
    }
  }

  lemma {:induction false} WaitOutcomes(acts: seq<Action>, w: nat)
    ensures WaitExplained(acts, Runs.Exec(Step, FRESH, acts), w)
    decreases |acts|
  {
    if acts != [] {
      var n := |acts| - 1;
      WaitOutcomes(acts[..n], w);
      Reachable(acts[..n]);
      AllUnique(acts[..n]);
      WaitStaysExplained(acts[..n], Runs.Exec(Step, FRESH, acts[..n]), acts[n], w);
      assert acts == acts[..n] + [acts[n]];
    }
  }

  /** A blocked Wait whose context is done returns that. */
  lemma ContextEndsWait(s: State, w: nat)
    requires IsBlocked(s, w)
    ensures var t := Step(Step(s, GiveUp(w)), Detach(w));
            w in t.waits && t.waits[w] == Ended(s.waits[w].c, ContextDone)
  {
  }

  /** Close gets through: the thread, if it is still registered, is closed and its cell emptied. */
  lemma CloseFinishes(acts: seq<Action>)
    ensures var s := Runs.Exec(Step, FRESH, acts);
            var t := Runs.Exec(Step, FRESH, acts + [CloseDemux, Tee, CloseThread, SwapOut]);
            && t.stage.Done? && t.registered == s.registered
            && (s.registered ==> t.closed && (!s.stage.Done? ==> t.cell.None?))
  {
    var s := Runs.Exec(Step, FRESH, acts);
    Reachable(acts);
    var ready := Step(Step(s, CloseDemux), Tee);
    assert ready.teeing.None? && ready.closed == s.closed && ready.registered == s.registered;
    assert ready.stage == if s.stage.Running? then DemuxClosed else s.stage;
    ClosesThread(ready);
    Runs.Four(Step, FRESH, acts, CloseDemux, Tee, CloseThread, SwapOut);
  }

  lemma ClosesThread(s: State)
    requires s.teeing.None? && !s.stage.Running?
    requires (s.stage.Marking? ==> s.closed) && (s.stage.Done? && s.registered ==> s.closed)
    ensures var t := Step(Step(s, CloseThread), SwapOut);
            && t.stage.Done? && t.registered == s.registered
            && (s.registered ==> t.closed && (!s.stage.Done? ==> t.cell.None?))
  {
  }

  /** A thread that was unregistered before Close came to it is never closed by it. */
  lemma UnregisteredIsSpared(acts: seq<Action>, more: seq<Action>)
    ensures var s, t := Runs.Exec(Step, FRESH, acts), Runs.Exec(Step, FRESH, acts + [Unregister] + more);
            t.closed == s.closed
  {
    var s := Runs.Exec(Step, FRESH, acts);
    Runs.Split(Step, FRESH, acts, [Unregister]);
    Runs.Follow(Step, s, [Unregister]);
    forall t, a | Spared(t, s.closed) ensures Spared(Step(t, a), s.closed) {
      StaysSpared(t, a, s.closed);
    }
    Runs.Invariant(Step, t => Spared(t, s.closed), Step(s, Unregister), more);
    Runs.Split(Step, FRESH, acts + [Unregister], more);
  }

  predicate Spared(s: State, closed: bool) {
    !s.registered && s.closed == closed
  }

  lemma StaysSpared(s: State, a: Action, closed: bool)
    requires Spared(s, closed)
    ensures Spared(Step(s, a), closed)
  {
  }

  const RETURNED := FRESH.(
    cell := Some(0), channels := map[0 := Channel([], 0, true, None)], compacts := map[0 := Returned])

  const DRAINED := RETURNED.(
    cell := None, channels := map[0 := Channel([], 0, true, Some(1))], waits := map[1 := Ended(0, Event(0))],
    notified := 1)

  const TO_RETURNED := [] + [Check(0), Install(0), Send(0), RpcOk(0)]
  const TO_TAKEN := TO_RETURNED + [StartWait(1, 0), Load, Tee, TakeEvent(1)]

  lemma FirstReturns()
    ensures Runs.Exec(Step, FRESH, TO_RETURNED) == RETURNED
  {
    Runs.Four(Step, FRESH, [], Check(0), Install(0), Send(0), RpcOk(0));
  }

  function Holding(buffer: seq<nat>): map<nat, Channel> {
    map[0 := Channel(buffer, 0, true, None)]
  }

  lemma FirstWaitBlocks()
    ensures Step(Step(RETURNED, StartWait(1, 0)), Load) ==
            RETURNED.(waits := map[1 := Blocked(0)], teeing := Some((Some(0), 0)), notified := 1)
  {
  }

  lemma FirstIsWoken()
    ensures var s := RETURNED.(waits := map[1 := Blocked(0)], teeing := Some((Some(0), 0)), notified := 1);
            Step(Step(s, Tee), TakeEvent(1)) == RETURNED.(waits := map[1 := Leaving(0, Event(0))], notified := 1)
  {
    var teed := RETURNED.(waits := map[1 := Blocked(0)], channels := Holding([0]), notified := 1);
    assert RETURNED.channels[0].buffer + [0] == [0];
    assert Holding([])[0 := Holding([0])[0]] == Holding([0]) && RETURNED.channels == Holding([]);
    assert Step(RETURNED.(waits := map[1 := Blocked(0)], teeing := Some((Some(0), 0)), notified := 1), Tee) == teed;
    assert [0][1..] == [] && Holding([0])[0 := Holding([])[0]] == Holding([]);
  }

  lemma FirstWaitTakes()
    ensures Runs.Exec(Step, FRESH, TO_TAKEN) == RETURNED.(waits := map[1 := Leaving(0, Event(0))], notified := 1)
  {
    FirstReturns();
    Runs.Four(Step, FRESH, TO_RETURNED, StartWait(1, 0), Load, Tee, TakeEvent(1));
    FirstWaitBlocks();
    FirstIsWoken();
  }

  /**
   A Wait that got its event leaves such a channel behind, so a second Wait on the
   same result, documented to return the event again, returns nothing.
   */
  lemma SecondWaitHangs()
    ensures exists acts :: Runs.Exec(Step, FRESH, acts) == DRAINED
    ensures Abandoned(DRAINED, 0) && DRAINED.waits[1] == Ended(0, Event(0))
    ensures Step(DRAINED, StartWait(2, 0)).waits[2] == Blocked(0) && Abandoned(Step(DRAINED, StartWait(2, 0)), 0)
  {
    FirstWaitTakes();
    Runs.Split(Step, FRESH, TO_TAKEN, [Detach(1)]);
    assert [Detach(1)][..0] == [];
    assert Runs.Exec(Step, FRESH, TO_TAKEN + [Detach(1)]) == DRAINED;
  }
}
