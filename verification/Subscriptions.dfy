/**
 SubscribeThreadEvents racing with the dispatcher's start and exit, subscription
 contexts and Client.Close (client_thread_events.go, client_dispatch.go, client.go).
 */
module Subscriptions {
  import opened Basics
  import Runs

  /** The dispatcher goroutine's life. */
  datatype Dispatcher =
    | NotStarted
    | Allowed                 // startDispatcher has seen `closed` unset
    | Running
    | Disconnected            // the source ended: connected cleared before the gap goes out
    | Exiting                 // deferred: connected cleared
    | Sweeping(taken: set<nat>)  // has taken the table and closes what was in it
    | Exited

  /**
   The SubscribeThreadEvents call that holds c.mu. It loads `closed` and then
   `connected`, atomics that c.mu does not guard, and then inserts.
   */
  datatype Holder = Nobody | SawOpen(id: nat) | SawConnected(id: nat)

  /**
   `returned`: every subscription whose channel a caller was given. `shut`: those
   whose channel is closed. `removing`: taken out of the table by their context's
   goroutine, which has not closed the channel yet.
   */
  datatype State = State(
    closed: bool,
    connected: bool,
    dispatcher: Dispatcher,
    mu: Holder,
    table: set<nat>,
    returned: set<nat>,
    shut: set<nat>,
    removing: set<nat>)

  datatype Action =
    | AllowStart                // under lifecycleMu: load `closed`
    | StartDispatcher           // ... and store `connected`, start the goroutine
    | Lock(id: nat)             // SubscribeThreadEvents takes c.mu and loads `closed`
    | LoadConnected
    | Insert
    | ContextDone(id: nat)      // removeThreadEventSubscriber, under c.mu
    | RemoverCloses(id: nat)    // ... and after it
    | DispatcherCloses(id: nat) // an overflow or a gap closes a channel in the table
    | DispatcherRemoves(id: nat) // under c.mu
    | SourceEnds
    | Exit                      // the deferred function begins (source end or cancellation)
    | TakeTable                 // under c.mu
    | Sweep(id: nat)
    | Finish
    | CloseClient               // Close wins the closed flag
    | CloseSweeps               // Close's own pass over the table, under c.mu
    | CloseDisconnects

  const FRESH := State(false, false, NotStarted, Nobody, {}, {}, {}, {})

  predicate Handling(d: Dispatcher) {
    d.Running? || d.Disconnected?
  }

  function Step(s: State, a: Action): State {
    match a
    case AllowStart =>
      if s.dispatcher.NotStarted? && !s.closed then s.(dispatcher := Allowed) else s
    case StartDispatcher =>
      if s.dispatcher.Allowed? then s.(dispatcher := Running, connected := true) else s
    case Lock(id) =>
      if s.mu.Nobody? && !s.closed && id !in s.returned then s.(mu := SawOpen(id)) else s
    case LoadConnected =>
      if s.mu.SawOpen? then s.(mu := if s.connected then SawConnected(s.mu.id) else Nobody) else s
    case Insert =>
      if s.mu.SawConnected? then
        s.(mu := Nobody, table := s.table + {s.mu.id}, returned := s.returned + {s.mu.id})
      else s
    case ContextDone(id) =>
      if id in s.returned && s.mu.Nobody? then s.(table := s.table - {id}, removing := s.removing + {id}) else s
    case RemoverCloses(id) =>
      if id in s.removing then s.(shut := s.shut + {id}, removing := s.removing - {id}) else s
    case DispatcherCloses(id) =>
      if Handling(s.dispatcher) && id in s.returned then s.(shut := s.shut + {id}) else s
    case DispatcherRemoves(id) =>
      if Handling(s.dispatcher) && id in s.shut && s.mu.Nobody? then s.(table := s.table - {id}) else s
    case SourceEnds =>
      if s.dispatcher.Running? then s.(dispatcher := Disconnected, connected := false) else s
    case Exit =>
      if Handling(s.dispatcher) then s.(dispatcher := Exiting, connected := false) else s
    case TakeTable =>
      if s.dispatcher.Exiting? && s.mu.Nobody? then s.(dispatcher := Sweeping(s.table), table := {}) else s
    case Sweep(id) =>
      if s.dispatcher.Sweeping? && id in s.dispatcher.taken then s.(shut := s.shut + {id}) else s
    case Finish =>
      if s.dispatcher.Sweeping? && s.dispatcher.taken <= s.shut then s.(dispatcher := Exited) else s
    case CloseClient => s.(closed := true)
    case CloseSweeps =>
      if s.closed && s.mu.Nobody? then s.(shut := s.shut + s.table, table := {}) else s
    case CloseDisconnects =>
      if s.closed then s.(connected := false) else s
  }

  /** The part of the old table the dispatcher still has to close. */
  function Taken(s: State): set<nat> {
    if s.dispatcher.Sweeping? then s.dispatcher.taken else {}
  }

  /** The subscription that is past its checks. */
  function Admitted(s: State): set<nat> {
    if s.mu.SawConnected? then {s.mu.id} else {}
  }

  /** ... or may still pass them. */
  function Pending(s: State): set<nat> {
    if s.mu.Nobody? then {} else {s.mu.id}
  }

  ghost predicate Inv(s: State) {
    && s.table <= s.returned && s.removing <= s.returned && s.shut <= s.returned
    && Taken(s) <= s.returned
    && s.returned <= s.table + Taken(s) + s.removing + s.shut
    && (s.connected ==> s.dispatcher.Running?)
    && (s.dispatcher.Sweeping? || s.dispatcher.Exited? ==> s.table == {} && Admitted(s) == {})
  }

  lemma StepKeepsInv(s: State, a: Action)
    requires Inv(s)
    ensures Inv(Step(s, a))
  {
  }

  lemma Reachable(acts: seq<Action>)
    ensures Inv(Runs.Exec(Step, FRESH, acts))
  {
    forall s, a | Inv(s) ensures Inv(Step(s, a)) {
      StepKeepsInv(s, a);
    }
    Runs.Invariant(Step, Inv, FRESH, acts);
  }

  /**
   No subscriber is left on a dead source: once the dispatcher has exited, every
   channel ever returned is closed, but for those a context goroutine has just
   taken out of the table and is about to close itself; so every one is closed
   exactly when all of those are.
   */
  lemma NoneLeftBehind(acts: seq<Action>)
    ensures var s := Runs.Exec(Step, FRESH, acts);
            s.dispatcher.Exited? ==>
              && s.returned <= s.shut + s.removing && s.table == {}
              && (s.returned <= s.shut <==> s.removing <= s.shut)
  {
    Reachable(acts);
  }

  /** So while no subscription's context is done there is no exception. */
  lemma AllShutWithoutRemovals(acts: seq<Action>)
    requires forall i :: 0 <= i < |acts| ==> !acts[i].ContextDone?
    ensures var s := Runs.Exec(Step, FRESH, acts);
            s.dispatcher.Exited? ==> s.returned <= s.shut
  {
    NoneLeftBehind(acts);
    NothingRemoved(acts);
  }

  lemma {:induction false} NothingRemoved(acts: seq<Action>)
    requires forall i :: 0 <= i < |acts| ==> !acts[i].ContextDone?
    ensures Runs.Exec(Step, FRESH, acts).removing == {}
    decreases |acts|
  {
    if acts != [] {
      NothingRemoved(acts[..|acts| - 1]);
    }
  }

  /** The subscriptions that can still succeed once the source is gone or Close has begun. */
  function Latecomers(s: State): set<nat> {
    if s.connected || s.dispatcher.Allowed? then Pending(s) else Admitted(s)
  }

  predicate Over(s: State) {
    s.closed || !(s.dispatcher.NotStarted? || s.dispatcher.Allowed? || s.dispatcher.Running?)
  }

  ghost predicate NothingNew(s: State, t: State) {
    && Over(t) && Inv(t)
    && s.returned <= t.returned && t.returned + Latecomers(t) <= s.returned + Latecomers(s)
  }

  lemma KeepsNothingNew(s: State, t: State, a: Action)
    requires NothingNew(s, t)
    ensures NothingNew(s, Step(t, a))
  {
    StepKeepsInv(t, a);
  }

  /**
   From the moment the source has ended, or Close has begun, the only subscription
   that can still succeed is the one that holds c.mu by then and has passed its
   checks, or may still pass them while the client is connected or about to be.
   Once the dispatcher has taken the table there is none.
   */
  lemma NoLateSubscription(acts: seq<Action>, more: seq<Action>)
    requires Over(Runs.Exec(Step, FRESH, acts))
    ensures var s, t := Runs.Exec(Step, FRESH, acts), Runs.Exec(Step, FRESH, acts + more);
            && t.returned <= s.returned + Latecomers(s)
            && (s.dispatcher.Sweeping? || s.dispatcher.Exited? ==> t.returned == s.returned)
  {
    var s := Runs.Exec(Step, FRESH, acts);
    Reachable(acts);
    var kept := (t: State) => NothingNew(s, t);
    forall t, a | kept(t) ensures kept(Step(t, a)) {
      KeepsNothingNew(s, t, a);
    }
    Runs.Invariant(Step, kept, s, more);
    Runs.Split(Step, FRESH, acts, more);
    if s.dispatcher.Sweeping? || s.dispatcher.Exited? {
      TakenLeavesNone(s);
    }
  }

  lemma TakenLeavesNone(s: State)
    requires Inv(s) && (s.dispatcher.Sweeping? || s.dispatcher.Exited?)
    ensures s.returned + Latecomers(s) == s.returned
  {
  }

  /** And exactly those can. */
  lemma LateSubscriptionIff(acts: seq<Action>, id: nat)
    requires Over(Runs.Exec(Step, FRESH, acts)) && id !in Runs.Exec(Step, FRESH, acts).returned
    ensures (exists more :: id in Runs.Exec(Step, FRESH, acts + more).returned) <==>
            id in Latecomers(Runs.Exec(Step, FRESH, acts))
  {
    var s := Runs.Exec(Step, FRESH, acts);
    forall more | id in Runs.Exec(Step, FRESH, acts + more).returned ensures id in Latecomers(s) {
      NoLateSubscription(acts, more);
    }
    if id in Latecomers(s) {
      var more := [StartDispatcher, LoadConnected, Insert];
      LatecomerGetsIn(s, id);
      Runs.Split(Step, FRESH, acts, more);
      assert id in Runs.Exec(Step, FRESH, acts + more).returned;
    }
  }

  lemma LatecomerGetsIn(s: State, id: nat)
    requires id in Latecomers(s)
    ensures id in Runs.Exec(Step, s, [StartDispatcher, LoadConnected, Insert]).returned
  {
    var all := [StartDispatcher, LoadConnected, Insert];
    Runs.Follow(Step, s, all);
    assert all[1..] == [LoadConnected, Insert];
    Runs.Follow(Step, Step(s, StartDispatcher), [LoadConnected, Insert]);
    assert [LoadConnected, Insert][1..] == [Insert];
    Runs.Follow(Step, Step(Step(s, StartDispatcher), LoadConnected), [Insert]);
  }

  // ------------------------------------------------- what is always possible

  lemma {:induction false} SweepAll(s: State) returns (more: seq<Action>)
    requires s.dispatcher.Sweeping?
    ensures var t := Runs.Exec(Step, s, more);
            t == s.(shut := t.shut) && s.shut + s.dispatcher.taken == t.shut
    decreases |s.dispatcher.taken - s.shut|
  {
    var unswept := s.dispatcher.taken - s.shut;
    if unswept == {} {
      assert forall id :: id in s.dispatcher.taken ==> id in s.shut || id in unswept;
      return [];
    }
    var id :| id in unswept;
    assert unswept == (s.dispatcher.taken - Step(s, Sweep(id)).shut) + {id};
    var rest := SweepAll(Step(s, Sweep(id)));
    assert s.shut + {id} + s.dispatcher.taken == s.shut + s.dispatcher.taken;
    more := [Sweep(id)] + rest;
    assert more[1..] == rest;
    Runs.Follow(Step, s, more);
  }

  /** With c.mu free the dispatcher begins its exit, takes the table, closes what it took and is done. */
  lemma DispatcherExits(s: State) returns (more: seq<Action>)
    requires s.mu.Nobody? && !s.dispatcher.NotStarted? && !s.dispatcher.Allowed?
    ensures var t := Runs.Exec(Step, s, more);
            t.dispatcher.Exited? && t.removing == s.removing && t.returned == s.returned && s.shut <= t.shut
  {
    if s.dispatcher.Exited? {
      return [];
    }
    var a := [Exit, TakeTable];
    Runs.Follow(Step, s, a);
    assert a[1..] == [TakeTable];
    Runs.Follow(Step, Step(s, Exit), [TakeTable]);
    var s1 := Runs.Exec(Step, s, a);
    var b := SweepAll(s1);
    Runs.Split(Step, s, a, b);
    Runs.Split(Step, s, a + b, [Finish]);
    Runs.Follow(Step, Runs.Exec(Step, s1, b), [Finish]);
    more := a + b + [Finish];
  }

  lemma {:induction false} RemoversClose(s: State) returns (more: seq<Action>)
    ensures var t := Runs.Exec(Step, s, more);
            && t.removing == {} && t.shut == s.shut + s.removing
            && t.dispatcher == s.dispatcher && t.returned == s.returned
    decreases |s.removing|
  {
    if s.removing == {} {
      return [];
    }
    var id :| id in s.removing;
    assert s.removing == (s.removing - {id}) + {id};
    var rest := RemoversClose(Step(s, RemoverCloses(id)));
    more := [RemoverCloses(id)] + rest;
    assert more[1..] == rest;
    Runs.Follow(Step, s, more);
  }

  /** Whoever holds c.mu lets go of it: with its subscription if it sees the client connected. */
  lemma HolderLeaves(s: State)
    ensures var t := Runs.Exec(Step, s, [LoadConnected, Insert]);
            && t.mu.Nobody? && t.dispatcher == s.dispatcher
            && t.returned == s.returned + (if s.mu.SawConnected? || (s.mu.SawOpen? && s.connected) then {s.mu.id} else {})
  {
    var both := [LoadConnected, Insert];
    Runs.Follow(Step, s, both);
    assert both[1..] == [Insert];
    Runs.Follow(Step, Step(s, LoadConnected), [Insert]);
  }

  /**
   NoneLeftBehind is never idle: once the dispatcher has started, the moves of the
   calls under way, of the dispatcher and of the removers alone close every channel
   ever returned.
   */
  lemma AllCanBeShut(acts: seq<Action>) returns (more: seq<Action>)
    requires var s := Runs.Exec(Step, FRESH, acts); !s.dispatcher.NotStarted? && !s.dispatcher.Allowed?
    ensures var s, t := Runs.Exec(Step, FRESH, acts), Runs.Exec(Step, FRESH, acts + more);
            t.dispatcher.Exited? && s.returned <= t.returned <= t.shut && t.removing == {}
  {
    var s := Runs.Exec(Step, FRESH, acts);
    HolderLeaves(s);
    var a := [LoadConnected, Insert];
    var s1 := Runs.Exec(Step, s, a);
    var b := DispatcherExits(s1);
    var s2 := Runs.Exec(Step, s1, b);
    var c := RemoversClose(s2);
    Runs.Split(Step, FRESH, acts, a);
    Runs.Split(Step, FRESH, acts + a, b);
    Runs.Split(Step, FRESH, acts + a + b, c);
    NoneLeftBehind(acts + a + b);
    more := a + b + c;
    assert acts + more == acts + a + b + c;
  }

  /** Close's own pass closes every channel but those already in the hands of the dispatcher or of a remover. */
  lemma CloseSweepsAll(acts: seq<Action>)
    requires var s := Runs.Exec(Step, FRESH, acts); s.closed && s.mu.Nobody?
    ensures var t := Runs.Exec(Step, FRESH, acts + [CloseSweeps]);
            t.table == {} && t.returned <= t.shut + t.removing + Taken(t)
  {
    Reachable(acts + [CloseSweeps]);
    Runs.Split(Step, FRESH, acts, [CloseSweeps]);
    Runs.Follow(Step, Runs.Exec(Step, FRESH, acts), [CloseSweeps]);
  }

  /** Once Close has cleared `connected`, with no dispatcher about to start, only a call that had loaded it before succeeds. */
  lemma DisconnectedRefuses(acts: seq<Action>, more: seq<Action>)
    requires var s := Runs.Exec(Step, FRESH, acts); s.closed && !s.dispatcher.Allowed?
    ensures var s, t := Runs.Exec(Step, FRESH, acts), Runs.Exec(Step, FRESH, acts + [CloseDisconnects] + more);
            t.returned <= s.returned + Admitted(s)
  {
    var s := Runs.Exec(Step, FRESH, acts);
    Runs.Split(Step, FRESH, acts, [CloseDisconnects]);
    Runs.Follow(Step, s, [CloseDisconnects]);
    NoLateSubscription(acts + [CloseDisconnects], more);
  }

  /** A channel that the dispatcher closed and took out of the table is closed and out of it for good. */
  lemma ClosedAndGone(acts: seq<Action>, id: nat, more: seq<Action>)
    requires var s := Runs.Exec(Step, FRESH, acts); Handling(s.dispatcher) && s.mu.Nobody? && id in s.returned
    ensures var t := Runs.Exec(Step, FRESH, acts + [DispatcherCloses(id), DispatcherRemoves(id)] + more);
            id in t.shut && id !in t.table
  {
    var s := Runs.Exec(Step, FRESH, acts);
    var both := [DispatcherCloses(id), DispatcherRemoves(id)];
    Runs.Split(Step, FRESH, acts, both);
    Runs.Follow(Step, s, both);
    assert both[1..] == [DispatcherRemoves(id)];
    Runs.Follow(Step, Step(s, DispatcherCloses(id)), [DispatcherRemoves(id)]);
    forall t, a | Gone(t, id) ensures Gone(Step(t, a), id) {
      StaysGone(t, a, id);
    }
    Runs.Invariant(Step, t => Gone(t, id), Step(Step(s, DispatcherCloses(id)), DispatcherRemoves(id)), more);
    Runs.Split(Step, FRESH, acts + both, more);
  }

  predicate Gone(s: State, id: nat) {
    id in s.shut && id in s.returned && id !in s.table && (s.mu.Nobody? || s.mu.id != id)
  }

  lemma StaysGone(s: State, a: Action, id: nat)
    requires Gone(s, id)
    ensures Gone(Step(s, a), id)
  {
  }

  // ------------------------------------------------- the windows

  const SERVING := FRESH.(connected := true, dispatcher := Running)

  const TO_ADMITTED := [] + [AllowStart, StartDispatcher, Lock(0), LoadConnected]

  lemma FirstIsAdmitted()
    ensures Runs.Exec(Step, FRESH, TO_ADMITTED) == SERVING.(mu := SawConnected(0))
  {
    Runs.Four(Step, FRESH, [], AllowStart, StartDispatcher, Lock(0), LoadConnected);
  }

  /** A subscription that had passed its checks succeeds although Close has begun and the source has ended. */
  lemma SubscribedAfterClose()
    ensures exists acts, more ::
              var s, t := Runs.Exec(Step, FRESH, acts), Runs.Exec(Step, FRESH, acts + more);
              s.closed && s.dispatcher.Disconnected? && s.returned == {} && t.returned == {0}
  {
    FirstIsAdmitted();
    var s := SERVING.(mu := SawConnected(0));
    var acts := TO_ADMITTED + [CloseClient, SourceEnds];
    Runs.Split(Step, FRESH, TO_ADMITTED, [CloseClient, SourceEnds]);
    Runs.Follow(Step, s, [CloseClient, SourceEnds]);
    assert [CloseClient, SourceEnds][1..] == [SourceEnds];
    Runs.Follow(Step, Step(s, CloseClient), [SourceEnds]);
    var gone := s.(closed := true, connected := false, dispatcher := Disconnected);
    assert Runs.Exec(Step, FRESH, acts) == gone;
    Runs.Split(Step, FRESH, acts, [Insert]);
    Runs.Follow(Step, gone, [Insert]);
    assert Runs.Exec(Step, FRESH, acts + [Insert]).returned == {0};
  }

  const ORPHANED := State(false, false, Exited, Nobody, {}, {0}, {}, {0})

  lemma RemoverLeavesFirst()
    ensures Step(Step(Step(Step(SERVING.(mu := SawConnected(0)), Insert), ContextDone(0)), Exit), TakeTable) ==
            ORPHANED.(dispatcher := Sweeping({}))
  {
    assert Step(Step(SERVING.(mu := SawConnected(0)), Insert), ContextDone(0)).table == {};
  }

  /** A removal and its close are two steps, and the dispatcher can exit between them. */
  lemma RemoverWindow()
    ensures exists acts :: Runs.Exec(Step, FRESH, acts) == ORPHANED
    ensures ORPHANED.dispatcher.Exited? && 0 in ORPHANED.returned && 0 !in ORPHANED.shut
  {
    FirstIsAdmitted();
    RemoverLeavesFirst();
    Runs.Four(Step, FRESH, TO_ADMITTED, Insert, ContextDone(0), Exit, TakeTable);
    var acts := TO_ADMITTED + [Insert, ContextDone(0), Exit, TakeTable];
    Runs.Split(Step, FRESH, acts, [Finish]);
    Runs.Follow(Step, ORPHANED.(dispatcher := Sweeping({})), [Finish]);
    assert Runs.Exec(Step, FRESH, acts + [Finish]) == ORPHANED;
  }
}
