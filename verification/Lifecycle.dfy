/** Connect racing with Close (client.go): who closes what, in every interleaving. */
module Lifecycle {
  import opened Basics
  import Runs

  /** The client's own fields; transports and dispatchers are named by the Connect that made them. */
  datatype Fields = Fields(
    closed: bool,
    connected: bool,
    connectStarted: bool,
    tr: Option<nat>,
    dispatcherCancel: Option<nat>,
    hookBridge: bool)

  const INITIAL := Fields(false, false, false, None, None, false)

  predicate MayBegin(f: Fields) {
    !f.closed && !f.connected && !f.connectStarted
  }

  function Begun(f: Fields): Fields {
    if MayBegin(f) then f.(connectStarted := true) else f
  }

  function Published(f: Fields, c: nat): Fields {
    if f.closed then f else f.(tr := Some(c))
  }

  function Dispatching(f: Fields, c: nat): Fields {
    if f.closed then f else f.(dispatcherCancel := Some(c), connected := true)
  }

  function Closing(f: Fields): Fields {
    f.(closed := true)
  }

  function BridgeTaken(f: Fields): Fields {
    f.(hookBridge := false)
  }

  function ClosedFields(f: Fields): Fields {
    f.(connected := false, connectStarted := false, tr := None, dispatcherCancel := None)
  }

  /** The client's critical sections. */
  class Client {
    var closed: bool
    var connected: bool
    var connectStarted: bool
    var tr: Option<nat>
    var dispatcherCancel: Option<nat>
    var hookBridge: bool

    ghost function View(): Fields
      reads this
    {
      Fields(closed, connected, connectStarted, tr, dispatcherCancel, hookBridge)
    }

    constructor ()
      ensures View() == INITIAL
    {
      closed, connected, connectStarted, hookBridge := false, false, false, false;
      tr, dispatcherCancel := None, None;
    }

    method BeginConnect() returns (ok: bool)
      modifies this`connectStarted
      ensures ok == MayBegin(old(View())) && View() == Begun(old(View()))
    {
      if closed {
        return false;
      }
      if connected {
        return false;
      }
      if connectStarted {
        return false;
      }
      connectStarted := true;
      return true;
    }

    method PublishConnectingTransport(c: nat) returns (ok: bool)
      modifies this`tr
      ensures ok == !closed && View() == Published(old(View()), c)
    {
      if closed {
        return false;
      }
      tr := Some(c);
      return true;
    }

    method StartDispatcher(c: nat) returns (ok: bool)
      modifies this`dispatcherCancel, this`connected
      ensures ok == !closed && View() == Dispatching(old(View()), c)
    {
      if closed {
        return false;
      }
      dispatcherCancel := Some(c);
      connected := true;
      return true;
    }

    /** The compare-and-swap at the head of Close. */
    method WinClose() returns (won: bool)
      modifies this`closed
      ensures won == !old(closed) && View() == Closing(old(View()))
    {
      won := !closed;
      closed := true;
    }

    method CloseSnapshot() returns (d: Option<nat>, t: Option<nat>)
      ensures d == View().dispatcherCancel && t == View().tr
    {
      return dispatcherCancel, tr;
    }

    /** Close's last locked section. */
    method ClearAfterClose()
      modifies this`connected, this`connectStarted, this`tr, this`dispatcherCancel
      ensures View() == ClosedFields(old(View()))
    {
      connected, connectStarted := false, false;
      tr, dispatcherCancel := None, None;
    }

    method TakeHookBridgeForClose() returns (held: bool)
      modifies this`hookBridge
      ensures held == old(hookBridge) && View() == BridgeTaken(old(View()))
    {
      held := hookBridge;
      hookBridge := false;
    }
  }

  // ------------------------------------------------- interleavings

  /**
   A Connect call, by what it does next. `closed` is an atomic that no mutex
   guards, so every section that loads it under lifecycleMu is two steps: the load,
   and what the call does while it still holds the mutex.
   */
  datatype Connect =
    | Rejected              // turned away by beginConnect
    | Beginning             // holds the mutex; saw `closed` unset
    | Passed                // set up the hook bridge
    | Hooked                // spawn the transport
    | Spawned               // publish it
    | Publishing            // holds the mutex; saw `closed` unset
    | Aborting              // publishing was refused: close the transport itself
    | Handshaking           // initialize / initialized
    | Ready                 // start the dispatcher
    | Starting              // holds the mutex; saw `closed` unset
    | Failing               // closeTransportAfterConnectError: load `closed`
    | ClosingOwn            // ... saw it unset: close the transport
    | Unhooking             // deferred closeHookBridge: take the bridge
    | Teardown(held: bool)  // ... and tear down what it took
    | Returned(ok: bool)

  /** The Close call that won, by what it does next. */
  datatype Closer =
    | NoClose
    | Won                                     // take the snapshot, under the mutex
    | Snapped(d: Option<nat>, t: Option<nat>) // cancel the dispatcher
    | Stopped(t: Option<nat>)                 // close the transport
    | TransportClosed                         // clear the fields, under the mutex
    | Cleared                                 // take the hook bridge
    | Tearing(held: bool)                     // tear it down
    | Closed

  /**
   `mu` is the Connect that holds lifecycleMu. The rest is the outside world:
   transports and dispatchers ever started, and what became of them.
   */
  datatype State = State(
    fields: Fields,
    mu: Option<nat>,
    connects: map<nat, Connect>,
    closer: Closer,
    spawned: set<nat>,
    transportsClosed: set<nat>,
    dispatchers: set<nat>,
    cancelled: set<nat>,
    bridgeUp: bool)

  datatype Action =
    | Begin(c: nat)            // lock and load `closed`
    | BeginSwap(c: nat)        // load `connected`, swap `connectStarted`, unlock
    | SetUpHooks(c: nat) | NoHooks(c: nat) | HooksFail(c: nat)
    | Spawn(c: nat) | SpawnFails(c: nat)
    | Publish(c: nat)          // lock and load `closed`
    | PublishStore(c: nat)     // store the transport, unlock
    | AbortTransport(c: nat)
    | HandshakeDone(c: nat) | HandshakeFails(c: nat)
    | StartDispatcher(c: nat)  // lock and load `closed`
    | StartStore(c: nat)       // store, connect, start the goroutine, unlock
    | CloseFailed(c: nat)
    | CloseOwn(c: nat)
    | TakeBridge(c: nat)
    | DropBridge(c: nat)
    | DispatcherExits(c: nat)  // its deferred connected.Store(false), under no mutex
    | BeginClose               // the compare-and-swap of any caller of Close, under no mutex
    | Snapshot | StopDispatcher | CloseTransport | Clear | CloseTakesBridge | CloseDropsBridge

  const FRESH := State(INITIAL, None, map[], NoClose, {}, {}, {}, {}, false)

  function At(s: State, c: nat): Connect {
    if c in s.connects then s.connects[c] else Rejected
  }

  function To(s: State, c: nat, p: Connect): State {
    s.(connects := s.connects[c := p])
  }

  function SetOf(o: Option<nat>): set<nat> {
    if o.Some? then {o.value} else {}
  }

  /** The first half of a section: take the mutex, load `closed`, leave again if it is set. */
  function Entered(s: State, c: nat, refused: Connect, inside: Connect): State {
    if s.mu.Some? then s
    else if s.fields.closed then To(s, c, refused)
    else To(s, c, inside).(mu := Some(c))
  }

  function Left(s: State, c: nat, p: Connect, f: Fields): State {
    To(s, c, p).(mu := None, fields := f)
  }

  function Step(s: State, a: Action): State {
    if ByClose(a) then CloseStep(s, a) else ConnectStep(s, a)
  }

  predicate ByClose(a: Action) {
    a.BeginClose? || a.Snapshot? || a.StopDispatcher? || a.CloseTransport? || a.Clear?
    || a.CloseTakesBridge? || a.CloseDropsBridge?
  }

  function ConnectStep(s: State, a: Action): State
    requires !ByClose(a)
  {
    var f := s.fields;
    match a
    case Begin(c) => if c in s.connects then s else Entered(s, c, Rejected, Beginning)
    case BeginSwap(c) =>
      // `connected` cannot be set while the mutex is held, so load and swap are one.
      if !At(s, c).Beginning? then s
      else if f.connected || f.connectStarted then Left(s, c, Rejected, f)
      else Left(s, c, Passed, f.(connectStarted := true))
    case SetUpHooks(c) =>
      if At(s, c).Passed? then To(s, c, Hooked).(fields := f.(hookBridge := true), bridgeUp := true) else s
    case NoHooks(c) => if At(s, c).Passed? then To(s, c, Hooked) else s
    case HooksFail(c) => if At(s, c).Passed? then To(s, c, Unhooking) else s
    case Spawn(c) => if At(s, c).Hooked? then To(s, c, Spawned).(spawned := s.spawned + {c}) else s
    case SpawnFails(c) => if At(s, c).Hooked? then To(s, c, Unhooking) else s
    case Publish(c) => if At(s, c).Spawned? then Entered(s, c, Aborting, Publishing) else s
    case PublishStore(c) =>
      if At(s, c).Publishing? then Left(s, c, Handshaking, f.(tr := Some(c))) else s
    case AbortTransport(c) =>
      if At(s, c).Aborting? then To(s, c, Unhooking).(transportsClosed := s.transportsClosed + {c}) else s
    case HandshakeDone(c) => if At(s, c).Handshaking? then To(s, c, Ready) else s
    case HandshakeFails(c) => if At(s, c).Handshaking? then To(s, c, Failing) else s
    case StartDispatcher(c) => if At(s, c).Ready? then Entered(s, c, Failing, Starting) else s
    case StartStore(c) =>
      if At(s, c).Starting? then
        Left(s, c, Returned(true), f.(dispatcherCancel := Some(c), connected := true)).(dispatchers := s.dispatchers + {c})
      else s
    case CloseFailed(c) =>
      // Once the client is closing, the published transport is left to Close.
      if At(s, c).Failing? then To(s, c, if f.closed then Unhooking else ClosingOwn) else s
    case CloseOwn(c) =>
      if At(s, c).ClosingOwn? then To(s, c, Unhooking).(transportsClosed := s.transportsClosed + {c}) else s
    case TakeBridge(c) =>
      if At(s, c).Unhooking? then To(s, c, Teardown(f.hookBridge)).(fields := f.(hookBridge := false)) else s
    case DropBridge(c) =>
      if At(s, c).Teardown? then To(s, c, Returned(false)).(bridgeUp := s.bridgeUp && !At(s, c).held) else s
    case DispatcherExits(c) =>
      if c in s.dispatchers then s.(fields := f.(connected := false)) else s
  }

  function CloseStep(s: State, a: Action): State
    requires ByClose(a)
  {
    var f := s.fields;
    match a
    case BeginClose =>
      if f.closed then s else s.(fields := f.(closed := true), closer := Won)
    case Snapshot =>
      if s.closer.Won? && s.mu.None? then s.(closer := Snapped(f.dispatcherCancel, f.tr)) else s
    case StopDispatcher =>
      if s.closer.Snapped? then s.(closer := Stopped(s.closer.t), cancelled := s.cancelled + SetOf(s.closer.d)) else s
    case CloseTransport =>
      if s.closer.Stopped? then
        s.(closer := TransportClosed, transportsClosed := s.transportsClosed + SetOf(s.closer.t))
      else s
    case Clear =>
      if s.closer.TransportClosed? && s.mu.None? then s.(closer := Cleared, fields := ClosedFields(f)) else s
    case CloseTakesBridge =>
      if s.closer.Cleared? then s.(closer := Tearing(f.hookBridge), fields := f.(hookBridge := false)) else s
    case CloseDropsBridge =>
      if s.closer.Tearing? then s.(closer := Closed, bridgeUp := s.bridgeUp && !s.closer.held) else s
  }

  /** Undisturbed, the two halves of each section do what the client's method does. */
  lemma SectionsAreMethods(s: State, c: nat)
    requires s.mu.None?
    ensures c !in s.connects ==>
              var t := Step(Step(s, Begin(c)), BeginSwap(c));
              t.fields == Begun(s.fields) && t.mu.None? && (At(t, c).Passed? <==> MayBegin(s.fields))
    ensures At(s, c).Spawned? ==>
              var t := Step(Step(s, Publish(c)), PublishStore(c));
              t.fields == Published(s.fields, c) && t.mu.None? && (At(t, c).Handshaking? <==> !s.fields.closed)
    ensures At(s, c).Ready? ==>
              var t := Step(Step(s, StartDispatcher(c)), StartStore(c));
              t.fields == Dispatching(s.fields, c) && t.mu.None? && (At(t, c) == Returned(true) <==> !s.fields.closed)
  {
  }

  /** So do the sections of Close, and both takers of the hook bridge. */
  lemma CloseSectionsAreMethods(s: State, c: nat)
    requires s.mu.None?
    ensures Step(s, BeginClose).fields == Closing(s.fields)
    ensures Step(s, BeginClose).closer == if s.fields.closed then s.closer else Won
    ensures s.closer.Won? ==>
              Step(s, Snapshot) == s.(closer := Snapped(s.fields.dispatcherCancel, s.fields.tr))
    ensures s.closer.TransportClosed? ==> Step(s, Clear) == s.(closer := Cleared, fields := ClosedFields(s.fields))
    ensures s.closer.Cleared? ==>
              Step(s, CloseTakesBridge) == s.(closer := Tearing(s.fields.hookBridge), fields := BridgeTaken(s.fields))
    ensures At(s, c).Unhooking? ==>
              Step(s, TakeBridge(c)) == To(s, c, Teardown(s.fields.hookBridge)).(fields := BridgeTaken(s.fields))
  {
  }

  // ------------------------------------------------- invariants

  predicate Inside(p: Connect) {
    p.Beginning? || p.Publishing? || p.Starting?
  }

  /** Whoever is past its check holds the mutex, and Close has not got it since. */
  ghost predicate MutexSound(s: State) {
    && (forall c: nat :: Inside(At(s, c)) <==> s.mu == Some(c))
    && (s.mu.Some? ==> s.closer.NoClose? || s.closer.Won?)
    && (s.fields.closed <==> !s.closer.NoClose?)
  }

  /** The transport Close will still close: published, or in its snapshot. */
  function TransportInView(s: State): Option<nat> {
    match s.closer
    case NoClose => s.fields.tr
    case Won => s.fields.tr
    case Snapped(_, t) => t
    case Stopped(t) => t
    case _ => None
  }

  function DispatcherInView(s: State): Option<nat> {
    match s.closer
    case NoClose => s.fields.dispatcherCancel
    case Won => s.fields.dispatcherCancel
    case Snapped(d, _) => d
    case _ => None
  }

  /** Not past beginConnect. */
  predicate Outside(p: Connect) {
    p.Rejected? || p.Beginning?
  }

  predicate Unpublished(p: Connect) {
    p.Passed? || p.Hooked? || p.Spawned? || p.Publishing? || p.Aborting?
  }

  /** Its transport is still its own Connect's job. */
  predicate OwnJob(p: Connect) {
    p.Spawned? || p.Publishing? || p.Aborting?
  }

  /** Every transport is closed, in the winning Close's sight, or still its own Connect's job. */
  ghost predicate TransportsCovered(s: State) {
    forall c :: c in s.spawned ==>
      && !Outside(At(s, c)) && !At(s, c).Passed? && !At(s, c).Hooked?
      && (OwnJob(At(s, c)) || c in s.transportsClosed || TransportInView(s) == Some(c))
      && ((At(s, c).Unhooking? || At(s, c).Teardown? || At(s, c) == Returned(false)) && !s.fields.closed ==>
            c in s.transportsClosed)
  }

  ghost predicate DispatchersCovered(s: State) {
    && (forall c :: c in s.dispatchers ==>
          At(s, c) == Returned(true) && (c in s.cancelled || DispatcherInView(s) == Some(c)))
    && (s.closer.Cleared? || s.closer.Tearing? || s.closer.Closed? ==>
          !s.fields.connected && !s.fields.connectStarted && s.fields.tr.None? && s.fields.dispatcherCancel.None?)
    && (s.fields.connected ==> s.dispatchers != {})
  }

  /** One Connect at most is past beginConnect; the flags remember it until Close has the mutex. */
  ghost predicate OnePasses(s: State) {
    && (forall c, d :: !Outside(At(s, c)) && !Outside(At(s, d)) ==> c == d)
    && (forall c :: !Outside(At(s, c)) ==> s.fields.connectStarted || !(s.closer.NoClose? || s.closer.Won?))
  }

  /** A live bridge is in the fields or in the hands of someone tearing it down. */
  ghost predicate BridgeHeld(s: State) {
    s.bridgeUp ==>
      || s.fields.hookBridge
      || (s.closer.Tearing? && s.closer.held)
      || exists c :: At(s, c) == Teardown(true)
  }

  /** A bridge still in the fields belongs to a Connect that is past its setup; one set up too late falls to it. */
  ghost predicate BridgeOwned(s: State) {
    s.fields.hookBridge ==> exists c :: OwnsBridge(s, c)
  }

  ghost predicate OwnsBridge(s: State, c: nat) {
    && PastHooks(At(s, c))
    && (s.closer.Tearing? || s.closer.Closed? ==>
          Unpublished(At(s, c)) || At(s, c).Unhooking?)
  }

  predicate PastHooks(p: Connect) {
    !(Outside(p) || p.Passed? || p.Teardown? || p == Returned(false))
  }

  ghost predicate Inv(s: State) {
    && MutexSound(s) && OnePasses(s)
    && TransportsCovered(s) && DispatchersCovered(s) && BridgeHeld(s) && BridgeOwned(s)
  }

  lemma KeepsMutex(s: State, a: Action)
    requires MutexSound(s)
    ensures MutexSound(Step(s, a))
  {
  }

  lemma KeepsOnePasses(s: State, a: Action)
    requires MutexSound(s) && OnePasses(s)
    ensures OnePasses(Step(s, a))
  {
    var s' := Step(s, a);
    forall c | !Outside(At(s', c))
      ensures !Outside(At(s, c)) || (a == BeginSwap(c) && !s.fields.connectStarted && s'.fields.connectStarted)
    {
    }
  }

  lemma CloseKeepsTransports(s: State, a: Action)
    requires ByClose(a) && MutexSound(s) && TransportsCovered(s)
    ensures TransportsCovered(Step(s, a))
  {
    assert Step(s, a).connects == s.connects && Step(s, a).spawned == s.spawned;
  }

  lemma KeepsTransports(s: State, a: Action)
    requires MutexSound(s) && OnePasses(s) && TransportsCovered(s)
    ensures TransportsCovered(Step(s, a))
  {
    if ByClose(a) {
      CloseKeepsTransports(s, a);
    }
  }

  lemma KeepsDispatchers(s: State, a: Action)
    requires MutexSound(s) && OnePasses(s) && DispatchersCovered(s)
    ensures DispatchersCovered(Step(s, a))
  {
  }

  lemma KeepsBridgeHeld(s: State, a: Action)
    requires MutexSound(s) && BridgeHeld(s)
    ensures BridgeHeld(Step(s, a))
  {
    var s' := Step(s, a);
    if a.TakeBridge? {
      assert At(s', a.c) == Teardown(s.fields.hookBridge) || s' == s;
    }
    if c :| At(s, c) == Teardown(true) {
      assert At(s', c) == Teardown(true) || a == DropBridge(c);
    }
  }

  lemma CloseKeepsBridgeOwned(s: State, a: Action)
    requires ByClose(a) && BridgeOwned(s)
    ensures BridgeOwned(Step(s, a))
  {
    var s' := Step(s, a);
    assert s'.connects == s.connects;
    if c :| s.fields.hookBridge && OwnsBridge(s, c) {
      assert s'.fields.hookBridge ==> OwnsBridge(s', c);
    }
  }

  lemma KeepsBridgeOwned(s: State, a: Action)
    requires MutexSound(s) && BridgeOwned(s)
    ensures BridgeOwned(Step(s, a))
  {
    var s' := Step(s, a);
    if ByClose(a) {
      CloseKeepsBridgeOwned(s, a);
    } else if a.SetUpHooks? && s' != s {
      assert OwnsBridge(s', a.c);
    } else if c :| s.fields.hookBridge && OwnsBridge(s, c) {
      assert s'.fields.hookBridge ==> OwnsBridge(s', c);
    }
  }

  lemma StepKeepsInv(s: State, a: Action)
    requires Inv(s)
    ensures Inv(Step(s, a))
  {
    KeepsMutex(s, a);
    KeepsOnePasses(s, a);
    KeepsTransports(s, a);
    KeepsDispatchers(s, a);
    KeepsBridgeHeld(s, a);
    KeepsBridgeOwned(s, a);
  }

  lemma Reachable(acts: seq<Action>)
    ensures Inv(Runs.Exec(Step, FRESH, acts))
  {
    forall s, a | Inv(s) ensures Inv(Step(s, a)) {
      StepKeepsInv(s, a);
    }
    Runs.Invariant(Step, Inv, FRESH, acts);
  }

  // ------------------------------------------------- results

  /** At most one Connect ever gets past beginConnect. */
  lemma AtMostOneConnect(acts: seq<Action>, c: nat, d: nat)
    ensures var s := Runs.Exec(Step, FRESH, acts);
            !Outside(At(s, c)) && !Outside(At(s, d)) ==> c == d
  {
    Reachable(acts);
  }

  /**
   What closeSnapshot gets is all there is to close: any transport that is neither
   closed nor its own Connect's job, and any dispatcher not cancelled.
   */
  lemma SnapshotSeesAll(acts: seq<Action>, c: nat)
    ensures var s := Runs.Exec(Step, FRESH, acts);
            var t := Step(s, Snapshot);
            s.closer.Won? && t.closer.Snapped? ==>
              && (c in s.spawned && c !in s.transportsClosed && !OwnJob(At(s, c)) ==> t.closer.t == Some(c))
              && (c in s.dispatchers && c !in s.cancelled ==> t.closer.d == Some(c))
  {
    Reachable(acts);
  }

  ghost predicate AllReturned(s: State) {
    forall c :: c in s.connects ==> s.connects[c].Rejected? || s.connects[c].Returned?
  }

  /**
   In every interleaving of any number of Connect and Close callers: once the
   winning Close and every Connect have returned, nothing is left behind.
   */
  lemma NothingOrphaned(acts: seq<Action>)
    ensures var s := Runs.Exec(Step, FRESH, acts);
            s.closer.Closed? && AllReturned(s) ==>
              && s.spawned <= s.transportsClosed
              && s.dispatchers <= s.cancelled
              && !s.bridgeUp && s.fields == Fields(true, false, false, None, None, false)
  {
    Reachable(acts);
  }

  /** Without any Close, a Connect that fails cleans up after itself. */
  lemma FailedConnectCleansUp(acts: seq<Action>)
    ensures var s := Runs.Exec(Step, FRESH, acts);
            s.closer.NoClose? && (exists c :: At(s, c) == Returned(false)) && AllReturned(s) ==>
              && s.spawned <= s.transportsClosed && s.dispatchers == {}
              && !s.bridgeUp && !s.fields.connected
  {
    Reachable(acts);
  }

  /** Connect call c starts its dispatcher, and succeeds, only from here. */
  predicate MaySucceed(p: Connect) {
    p.Starting? || p == Returned(true)
  }

  predicate MayPass(p: Connect) {
    !p.Rejected?
  }

  /** What a later state t of a closed client owes to s, for Connect call c. */
  ghost predicate NothingNew(s: State, t: State, c: nat) {
    && MutexSound(t) && t.fields.closed
    && (MaySucceed(At(t, c)) ==> MaySucceed(At(s, c)))
    && (At(t, c).Starting? ==> At(s, c).Starting?)
    && (MayPass(At(t, c)) ==> MayPass(At(s, c)))
    && (c in t.dispatchers ==> c in s.dispatchers || At(s, c).Starting?)
    && (!(s.closer.NoClose? || s.closer.Won?) ==> !(t.closer.NoClose? || t.closer.Won?))
  }

  lemma KeepsNothingNew(s: State, t: State, c: nat, a: Action)
    requires NothingNew(s, t, c)
    ensures NothingNew(s, Step(t, a), c)
  {
    KeepsMutex(t, a);
  }

  /**
   Once the flag is set, only a call already past its check, in the section under
   the mutex, can still get through: none begins, none succeeds but one that was
   starting its dispatcher, and no other dispatcher starts. Once Close has its
   snapshot there is no such call.
   */
  lemma ClosedForGood(acts: seq<Action>, more: seq<Action>, c: nat)
    requires Runs.Exec(Step, FRESH, acts).fields.closed
    ensures var s, t := Runs.Exec(Step, FRESH, acts), Runs.Exec(Step, FRESH, acts + more);
            && (MayPass(At(t, c)) ==> MayPass(At(s, c)))
            && (At(t, c) == Returned(true) ==> At(s, c) == Returned(true) || At(s, c).Starting?)
            && (c in t.dispatchers ==> c in s.dispatchers || At(s, c).Starting?)
            && (!s.closer.Won? ==> !Inside(At(s, c)) && !Inside(At(t, c)))
  {
    var s := Runs.Exec(Step, FRESH, acts);
    Reachable(acts);
    var kept := (t: State) => NothingNew(s, t, c);
    forall t, a | kept(t) ensures kept(Step(t, a)) {
      KeepsNothingNew(s, t, c, a);
    }
    Runs.Invariant(Step, kept, s, more);
    Runs.Split(Step, FRESH, acts, more);
  }

  /** And exactly such a call can: a closed client's Connect succeeds in some future iff it is starting or has succeeded. */
  lemma LateSuccessIff(acts: seq<Action>, c: nat)
    requires Runs.Exec(Step, FRESH, acts).fields.closed
    ensures (exists more :: At(Runs.Exec(Step, FRESH, acts + more), c) == Returned(true)) <==>
            MaySucceed(At(Runs.Exec(Step, FRESH, acts), c))
  {
    var s := Runs.Exec(Step, FRESH, acts);
    forall more | At(Runs.Exec(Step, FRESH, acts + more), c) == Returned(true) ensures MaySucceed(At(s, c)) {
      ClosedForGood(acts, more, c);
    }
    if At(s, c).Starting? {
      Runs.Split(Step, FRESH, acts, [StartStore(c)]);
      Runs.Follow(Step, s, [StartStore(c)]);
      assert At(Runs.Exec(Step, FRESH, acts + [StartStore(c)]), c) == Returned(true);
    } else if At(s, c) == Returned(true) {
      assert acts + [] == acts;
      assert At(Runs.Exec(Step, FRESH, acts + []), c) == Returned(true);
    }
  }

  const READY := FRESH.(
    fields := INITIAL.(connectStarted := true, tr := Some(0)), connects := map[0 := Ready], spawned := {0})

  const LATE := READY.(
    fields := Fields(true, true, true, Some(0), Some(0), false),
    connects := map[0 := Returned(true)], closer := Won, dispatchers := {0})

  const TO_SPAWNED := [] + [Begin(0), BeginSwap(0), NoHooks(0), Spawn(0)]
  const TO_STARTING := TO_SPAWNED + [Publish(0), PublishStore(0), HandshakeDone(0), StartDispatcher(0)]

  lemma FirstSpawns()
    ensures Runs.Exec(Step, FRESH, TO_SPAWNED) ==
            FRESH.(fields := INITIAL.(connectStarted := true), connects := map[0 := Spawned], spawned := {0})
  {
    Runs.Four(Step, FRESH, [], Begin(0), BeginSwap(0), NoHooks(0), Spawn(0));
  }

  lemma FirstIsStarting()
    ensures Runs.Exec(Step, FRESH, TO_STARTING) == READY.(mu := Some(0), connects := map[0 := Starting])
  {
    FirstSpawns();
    Runs.Four(Step, FRESH, TO_SPAWNED, Publish(0), PublishStore(0), HandshakeDone(0), StartDispatcher(0));
  }

  /** Close sets its flag while a Connect is in its last section: the dispatcher starts and Connect returns nil. */
  lemma DispatcherAfterClose()
    ensures exists acts, more ::
              && Runs.Exec(Step, FRESH, acts).fields.closed && Runs.Exec(Step, FRESH, acts).dispatchers == {}
              && Runs.Exec(Step, FRESH, acts + more) == LATE
    ensures LATE.dispatchers == {0} && At(LATE, 0) == Returned(true)
  {
    FirstIsStarting();
    var s := READY.(mu := Some(0), connects := map[0 := Starting]);
    var acts := TO_STARTING + [BeginClose];
    Runs.Split(Step, FRESH, TO_STARTING, [BeginClose]);
    Runs.Follow(Step, s, [BeginClose]);
    Runs.Split(Step, FRESH, acts, [StartStore(0)]);
    Runs.Follow(Step, Step(s, BeginClose), [StartStore(0)]);
    assert Runs.Exec(Step, FRESH, acts + [StartStore(0)]) == LATE;
  }

  // ------------------------------------------------- everyone returns

  /** What the code of a Connect can do next. */
  predicate NextOf(p: Connect, c: nat, a: Action) {
    match p
    case Rejected => false
    case Beginning => a == BeginSwap(c)
    case Passed => a == SetUpHooks(c) || a == NoHooks(c) || a == HooksFail(c)
    case Hooked => a == Spawn(c) || a == SpawnFails(c)
    case Spawned => a == Publish(c)
    case Publishing => a == PublishStore(c)
    case Aborting => a == AbortTransport(c)
    case Handshaking => a == HandshakeDone(c) || a == HandshakeFails(c)
    case Ready => a == StartDispatcher(c)
    case Starting => a == StartStore(c)
    case Failing => a == CloseFailed(c)
    case ClosingOwn => a == CloseOwn(c)
    case Unhooking => a == TakeBridge(c)
    case Teardown(_) => a == DropBridge(c)
    case Returned(_) => false
  }

  /** How many moves it is at most away from its return. */
  function ToGo(p: Connect): nat {
    match p
    case Rejected => 0
    case Beginning => 11
    case Passed => 10
    case Hooked => 9
    case Spawned => 8
    case Publishing => 7
    case Handshaking => 6
    case Ready => 5
    case Failing => 4
    case Aborting => 3
    case ClosingOwn => 3
    case Unhooking => 2
    case Teardown(_) => 1
    case Starting => 1
    case Returned(_) => 0
  }

  function CloserToGo(p: Closer): nat {
    match p
    case NoClose => 0
    case Won => 6
    case Snapped(_, _) => 5
    case Stopped(_) => 4
    case TransportClosed => 3
    case Cleared => 2
    case Tearing(_) => 1
    case Closed => 0
  }

  /** Every move brings its Connect nearer to its return, unless it waits for another one's mutex. */
  lemma EveryMoveCounts(s: State, c: nat, a: Action)
    requires NextOf(At(s, c), c, a) && MutexSound(s) && (s.mu.None? || s.mu == Some(c))
    ensures ToGo(At(Step(s, a), c)) < ToGo(At(s, c))
    ensures Step(s, a).closer == s.closer && Step(s, a).connects.Keys == s.connects.Keys
    ensures forall d :: d != c ==> At(Step(s, a), d) == At(s, d)
    ensures Step(s, a).mu.None? || Step(s, a).mu == Some(c)
  {
  }

  function SomeMove(p: Connect, c: nat): (a: Action)
    requires ToGo(p) > 0
    ensures NextOf(p, c, a)
  {
    match p
    case Beginning => BeginSwap(c)
    case Passed => NoHooks(c)
    case Hooked => Spawn(c)
    case Spawned => Publish(c)
    case Publishing => PublishStore(c)
    case Aborting => AbortTransport(c)
    case Handshaking => HandshakeDone(c)
    case Ready => StartDispatcher(c)
    case Starting => StartStore(c)
    case Failing => CloseFailed(c)
    case ClosingOwn => CloseOwn(c)
    case Unhooking => TakeBridge(c)
    case Teardown(_) => DropBridge(c)
  }

  /** t is s but for Connect c, which has returned. */
  ghost predicate ReturnedFrom(s: State, t: State, c: nat) {
    && ToGo(At(t, c)) == 0 && t.mu.None? && t.closer == s.closer && t.connects.Keys == s.connects.Keys
    && (forall d :: d != c ==> At(t, d) == At(s, d))
  }

  lemma {:induction false} ConnectReturns(s: State, c: nat) returns (more: seq<Action>)
    requires MutexSound(s) && (s.mu.None? || s.mu == Some(c))
    ensures ReturnedFrom(s, Runs.Exec(Step, s, more), c)
    decreases ToGo(At(s, c))
  {
    if ToGo(At(s, c)) == 0 {
      return [];
    }
    var a := SomeMove(At(s, c), c);
    EveryMoveCounts(s, c, a);
    KeepsMutex(s, a);
    var rest := ConnectReturns(Step(s, a), c);
    more := [a] + rest;
    assert more[1..] == rest;
    Runs.Follow(Step, s, more);
  }

  lemma {:induction false} CloseReturns(s: State) returns (more: seq<Action>)
    requires s.mu.None? && !s.closer.NoClose?
    ensures var t := Runs.Exec(Step, s, more);
            t.closer.Closed? && t.connects == s.connects
    decreases CloserToGo(s.closer)
  {
    if s.closer.Closed? {
      return [];
    }
    var a :=
      match s.closer
      case Won => Snapshot
      case Snapped(_, _) => StopDispatcher
      case Stopped(_) => CloseTransport
      case TransportClosed => Clear
      case Cleared => CloseTakesBridge
      case _ => CloseDropsBridge;
    var rest := CloseReturns(Step(s, a));
    more := [a] + rest;
    assert more[1..] == rest;
    Runs.Follow(Step, s, more);
  }

  /** The Connect in the mutex returns first, and then the one that is past beginConnect. */
  lemma AllConnectsReturn(s: State) returns (more: seq<Action>)
    requires Inv(s)
    ensures var t := Runs.Exec(Step, s, more);
            AllReturned(t) && t.mu.None? && t.closer == s.closer && t.connects.Keys == s.connects.Keys
  {
    var a := ConnectReturns(s, if s.mu.Some? then s.mu.value else 0);
    var s1 := Runs.Exec(Step, s, a);
    forall t, x | Inv(t) ensures Inv(Step(t, x)) {
      StepKeepsInv(t, x);
    }
    Runs.Invariant(Step, Inv, s, a);
    var last := if c: nat :| ToGo(At(s1, c)) != 0 then c else 0;
    var b := ConnectReturns(s1, last);
    Runs.Split(Step, s, a, b);
    OneToGo(s1, last);
    more := a + b;
    var t := Runs.Exec(Step, s, more);
    forall c | c in t.connects ensures t.connects[c].Rejected? || t.connects[c].Returned? {
      assert ToGo(At(t, c)) == 0;
    }
  }

  lemma OneToGo(s: State, c: nat)
    requires Inv(s) && s.mu.None? && (ToGo(At(s, c)) == 0 ==> forall d :: ToGo(At(s, d)) == 0)
    ensures forall d :: d != c ==> ToGo(At(s, d)) == 0
  {
    assert forall d :: ToGo(At(s, d)) != 0 ==> !Outside(At(s, d));
  }

  /**
   NothingOrphaned is never idle: from wherever a run has got to, every Connect can
   return by moves of the calls alone, and so can Close once it has begun.
   */
  lemma EveryoneCanReturn(acts: seq<Action>) returns (more: seq<Action>)
    ensures var s, t := Runs.Exec(Step, FRESH, acts), Runs.Exec(Step, FRESH, acts + more);
            && AllReturned(t) && t.connects.Keys == s.connects.Keys
            && (if s.closer.NoClose? then t.closer.NoClose? else t.closer.Closed?)
  {
    var s := Runs.Exec(Step, FRESH, acts);
    Reachable(acts);
    more := AllConnectsReturn(s);
    if !s.closer.NoClose? {
      var t := Runs.Exec(Step, s, more);
      var rest := CloseReturns(t);
      Runs.Split(Step, s, more, rest);
      assert AllReturned(Runs.Exec(Step, t, rest));
      more := more + rest;
    }
    Runs.Split(Step, FRESH, acts, more);
  }

  // ------------------------------------------------- the bridge is one

  /** A bridge in the fields or in someone's hands is up, and is in one place only. */
  ghost predicate BridgeReal(s: State) {
    && (s.fields.hookBridge || s.closer == Tearing(true) || (exists c :: At(s, c) == Teardown(true)) ==> s.bridgeUp)
    && (s.fields.hookBridge ==> s.closer != Tearing(true))
    && (s.fields.hookBridge || s.closer == Tearing(true) ==> forall c :: At(s, c) != Teardown(true))
    && (s.closer == Tearing(true) ==> exists c :: PastSetup(At(s, c)))
  }

  predicate PastSetup(p: Connect) {
    !Outside(p) && !p.Passed?
  }

  lemma CloseKeepsBridgeReal(s: State, a: Action)
    requires ByClose(a) && BridgeOwned(s) && BridgeReal(s)
    ensures BridgeReal(Step(s, a))
  {
    var s' := Step(s, a);
    assert forall c :: At(s', c) == At(s, c);
    assert forall c :: OwnsBridge(s, c) ==> PastSetup(At(s, c));
    if c :| PastSetup(At(s, c)) {
      assert PastSetup(At(s', c));
    }
  }

  lemma OthersKeepBridgeReal(s: State, a: Action)
    requires !ByClose(a) && !(a.SetUpHooks? || a.TakeBridge? || a.DropBridge?) && BridgeReal(s)
    ensures BridgeReal(Step(s, a))
  {
    var s' := Step(s, a);
    assert forall c :: At(s', c) == Teardown(true) <==> At(s, c) == Teardown(true);
    if c :| s.closer == Tearing(true) && PastSetup(At(s, c)) {
      assert PastSetup(At(s', c));
    }
  }

  lemma KeepsBridgeReal(s: State, a: Action)
    requires OnePasses(s) && BridgeOwned(s) && BridgeReal(s)
    ensures BridgeReal(Step(s, a))
  {
    if ByClose(a) {
      CloseKeepsBridgeReal(s, a);
      return;
    }
    if !(a.SetUpHooks? || a.TakeBridge? || a.DropBridge?) {
      OthersKeepBridgeReal(s, a);
      return;
    }
    var s' := Step(s, a);
    assert forall c :: PastSetup(At(s, c)) ==> PastSetup(At(s', c));
    assert forall c :: OwnsBridge(s, c) ==> PastSetup(At(s, c));
    assert forall c :: At(s, c) == Teardown(true) ==> PastSetup(At(s, c));
    assert forall c :: At(s', c) == Teardown(true) && At(s, c) != Teardown(true) ==>
      a == TakeBridge(c) && s.fields.hookBridge;
  }

  // ------------------------------------------------- why each call came to its end

  predicate HasHooks(p: Connect) {
    p.Hooked? || p.Failing? || p.ClosingOwn? || OwnJob(p) || HasTransport(p)
  }

  predicate HasTransport(p: Connect) {
    p.Handshaking? || p.Ready? || MaySucceed(p)
  }

  predicate GivingUp(p: Connect) {
    p.Aborting? || p.Failing? || p.ClosingOwn? || p.Unhooking? || p.Teardown? || p == Returned(false)
  }

  predicate SomethingFailed(acts: seq<Action>, c: nat) {
    HooksFail(c) in acts || SpawnFails(c) in acts || HandshakeFails(c) in acts
  }

  /** What a run has to show for how far Connect c has got. */
  ghost predicate Earned(acts: seq<Action>, s: State, c: nat) {
    var p := At(s, c);
    && (HasHooks(p) ==> SetUpHooks(c) in acts || NoHooks(c) in acts)
    && (OwnJob(p) || HasTransport(p) ==> Spawn(c) in acts && c in s.spawned)
    && (p.Ready? || MaySucceed(p) ==> HandshakeDone(c) in acts)
    && (p == Returned(true) ==> c in s.dispatchers)
  }

  /** And for its giving up. */
  ghost predicate Blamed(acts: seq<Action>, s: State, c: nat) {
    GivingUp(At(s, c)) ==> SomethingFailed(acts, c) || s.fields.closed
  }

  /** What an open client still has of a Connect that has got so far. */
  ghost predicate Keeps(acts: seq<Action>, s: State, c: nat) {
    !s.fields.closed ==>
      && (HasHooks(At(s, c)) && NoHooks(c) !in acts ==> s.fields.hookBridge && s.bridgeUp)
      && (HasTransport(At(s, c)) ==> s.fields.tr == Some(c))
  }

  /** Only another Connect or Close gets in the way. */
  ghost predicate TurnedAway(s: State) {
    s.fields.connectStarted || s.fields.connected || (exists c :: c in s.connects && At(s, c).Rejected?) ==>
      s.fields.closed || exists d :: !Outside(At(s, d))
  }

  lemma OthersEarn(acts: seq<Action>, s: State, a: Action, c: nat)
    requires Earned(acts, s, c) && (ByClose(a) || a.c != c)
    ensures Earned(acts + [a], Step(s, a), c)
  {
    var s' := Step(s, a);
    assert At(s', c) == At(s, c) && s.spawned <= s'.spawned && s.dispatchers <= s'.dispatchers;
    assert s.fields.closed ==> s'.fields.closed;
    assert forall x :: x in acts ==> x in acts + [a];
  }

  lemma StepEarns(acts: seq<Action>, s: State, a: Action, c: nat)
    requires Earned(acts, s, c)
    ensures Earned(acts + [a], Step(s, a), c)
  {
    if ByClose(a) || a.c != c {
      OthersEarn(acts, s, a, c);
    } else {
      var after := acts + [a];
      assert a in after && forall x :: x in acts ==> x in after;
    }
  }

  lemma OthersBlame(acts: seq<Action>, s: State, a: Action, c: nat)
    requires Blamed(acts, s, c) && (ByClose(a) || a.c != c)
    ensures Blamed(acts + [a], Step(s, a), c)
  {
    assert At(Step(s, a), c) == At(s, c);
    assert forall x :: x in acts ==> x in acts + [a];
  }

  lemma StepBlames(acts: seq<Action>, s: State, a: Action, c: nat)
    requires Blamed(acts, s, c)
    ensures Blamed(acts + [a], Step(s, a), c)
  {
    if ByClose(a) || a.c != c {
      OthersBlame(acts, s, a, c);
    } else {
      var after := acts + [a];
      assert a in after && forall x :: x in acts ==> x in after;
    }
  }

  /** While the client is open, Close and the Connects not past beginConnect leave hooks and transport alone. */
  lemma OthersLeaveAlone(s: State, a: Action)
    requires MutexSound(s) && !Step(s, a).fields.closed && (ByClose(a) || Outside(At(s, a.c)))
    ensures var f, f' := s.fields, Step(s, a).fields;
            f'.hookBridge == f.hookBridge && Step(s, a).bridgeUp == s.bridgeUp && f'.tr == f.tr
  {
  }

  lemma OthersKeep(acts: seq<Action>, s: State, a: Action, c: nat)
    requires MutexSound(s) && OnePasses(s) && Keeps(acts, s, c) && (ByClose(a) || a.c != c)
    ensures Keeps(acts + [a], Step(s, a), c)
  {
    var s' := Step(s, a);
    assert NoHooks(c) !in acts + [a] ==> NoHooks(c) !in acts;
    assert At(s', c) == At(s, c);
    if !s'.fields.closed && !Outside(At(s, c)) {
      OthersLeaveAlone(s, a);
    }
  }

  lemma OwnStepKeeps(acts: seq<Action>, s: State, a: Action, c: nat)
    requires !ByClose(a) && a.c == c && MutexSound(s) && Keeps(acts, s, c)
    ensures Keeps(acts + [a], Step(s, a), c)
  {
    assert a in acts + [a];
    assert NoHooks(c) !in acts + [a] ==> NoHooks(c) !in acts;
    if a.DispatcherExits? {
      assert At(Step(s, a), c) == At(s, c);
    }
  }

  lemma StepKeeps(acts: seq<Action>, s: State, a: Action, c: nat)
    requires MutexSound(s) && OnePasses(s) && Keeps(acts, s, c)
    ensures Keeps(acts + [a], Step(s, a), c)
  {
    if ByClose(a) || a.c != c {
      OthersKeep(acts, s, a, c);
    } else {
      OwnStepKeeps(acts, s, a, c);
    }
  }

  lemma StepTurns(s: State, a: Action)
    requires TurnedAway(s)
    ensures TurnedAway(Step(s, a))
  {
    SomeoneStaysPast(s, a);
    var s' := Step(s, a);
    assert a.BeginSwap? && s'.fields.connectStarted && !s.fields.connectStarted ==> !Outside(At(s', a.c));
    assert a.StartStore? && s'.fields.connected && !s.fields.connected ==> !Outside(At(s', a.c));
    assert forall c :: c in s'.connects && At(s', c).Rejected? ==>
      (c in s.connects && At(s, c).Rejected?) || s.fields.closed || s.fields.connected || s.fields.connectStarted;
  }

  lemma SomeoneStaysPast(s: State, a: Action)
    ensures forall c :: !Outside(At(s, c)) ==> !Outside(At(Step(s, a), c))
  {
  }

  /** All of that. */
  ghost predicate Accounted(acts: seq<Action>, s: State, c: nat) {
    Earned(acts, s, c) && Blamed(acts, s, c) && Keeps(acts, s, c) && TurnedAway(s) && BridgeReal(s)
  }

  lemma StepAccounts(acts: seq<Action>, s: State, a: Action, c: nat)
    requires Inv(s) && Accounted(acts, s, c)
    ensures Accounted(acts + [a], Step(s, a), c)
  {
    KeepsBridgeReal(s, a);
    StepEarns(acts, s, a, c);
    StepBlames(acts, s, a, c);
    StepKeeps(acts, s, a, c);
    StepTurns(s, a);
  }

  lemma {:induction false} AllAccounted(acts: seq<Action>, c: nat)
    ensures Accounted(acts, Runs.Exec(Step, FRESH, acts), c)
    decreases |acts|
  {
    if acts != [] {
      var n := |acts| - 1;
      AllAccounted(acts[..n], c);
      Reachable(acts[..n]);
      StepAccounts(acts[..n], Runs.Exec(Step, FRESH, acts[..n]), acts[n], c);
      assert acts == acts[..n] + [acts[n]];
    }
  }

  /**
   Why a Connect ended as it did. It returned nil only with its hooks set up or not
   wanted, its transport spawned and published, its handshake done and its
   dispatcher started; it failed only because a step of it did or the client was
   closed; and it was turned away only because of that or of another Connect.
   */
  lemma OutcomesExplained(acts: seq<Action>, c: nat)
    ensures var s := Runs.Exec(Step, FRESH, acts);
            && (At(s, c) == Returned(true) ==>
                  && Spawn(c) in acts && HandshakeDone(c) in acts && c in s.spawned && c in s.dispatchers
                  && (NoHooks(c) in acts || (SetUpHooks(c) in acts && (s.fields.closed || (s.fields.hookBridge && s.bridgeUp))))
                  && (s.fields.closed || s.fields.tr == Some(c)))
            && (At(s, c) == Returned(false) ==>
                  HooksFail(c) in acts || SpawnFails(c) in acts || HandshakeFails(c) in acts || s.fields.closed)
            && (c in s.connects && At(s, c).Rejected? ==>
                  s.fields.closed || exists d :: d != c && !Outside(At(s, d)))
  {
    AllAccounted(acts, c);
  }

  /** The bridge is up exactly while it is in the fields or in the hands of someone tearing it down. */
  lemma BridgeUpIff(acts: seq<Action>)
    ensures var s := Runs.Exec(Step, FRESH, acts);
            s.bridgeUp <==> s.fields.hookBridge || s.closer == Tearing(true) || exists c :: At(s, c) == Teardown(true)
  {
    Reachable(acts);
    AllAccounted(acts, 0);
  }

  /** Once the dispatcher has exited the client is disconnected, and stays so: no other Connect ever gets through. */
  lemma NeverReconnects(acts: seq<Action>, c: nat, more: seq<Action>)
    requires c in Runs.Exec(Step, FRESH, acts).dispatchers
    ensures !Runs.Exec(Step, FRESH, acts + [DispatcherExits(c)] + more).fields.connected
  {
    var s := Runs.Exec(Step, FRESH, acts);
    Reachable(acts);
    StepKeepsInv(s, DispatcherExits(c));
    forall t, a | Off(t, c) ensures Off(Step(t, a), c) {
      StaysOff(t, a, c);
    }
    var t := Step(s, DispatcherExits(c));
    Runs.Split(Step, FRESH, acts, [DispatcherExits(c)]);
    Runs.Follow(Step, s, [DispatcherExits(c)]);
    Runs.Invariant(Step, t => Off(t, c), t, more);
    Runs.Split(Step, FRESH, acts + [DispatcherExits(c)], more);
  }

  ghost predicate Off(s: State, c: nat) {
    MutexSound(s) && OnePasses(s) && At(s, c) == Returned(true) && !s.fields.connected
  }

  lemma StaysOff(s: State, a: Action, c: nat)
    requires Off(s, c)
    ensures Off(Step(s, a), c)
  {
    KeepsMutex(s, a);
    KeepsOnePasses(s, a);
    assert forall d :: At(s, d).Starting? ==> d == c;
  }
}
