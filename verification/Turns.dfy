/**
 Turns on one thread: RunStreamed and StartReviewStreamed calls, their stream
 loops, the dispatcher's deliveries and markClosed, interleaved (threads.go,
 threads_commands.go).
 */
module Turns {
  import opened Basics
  import opened Events
  import opened Threads
  import Runs

  /** A RunStreamed or StartReviewStreamed call. */
  datatype Call =
    | Wanting                // past its closed check, wants turnMu
    | Starting               // holds it; turn/start or review/start is in flight
    | Storing(turn: string)  // has its answer; about to store the turn id
    | Streaming(slot: nat)   // its stream loop runs
    | Finished

  datatype End = Open | AtTerminus | Abandoned

  /**
   One stream, by the position of its events in the inbox history. `held` is an
   event taken from the inbox and not forwarded yet, `lost` the one it held when it
   was abandoned.
   */
  datatype Stream = Stream(
    call: nat,
    turn: string,
    expected: string,
    out: seq<nat>,
    held: Option<nat>,
    lost: Option<nat>,
    end: End)

  /**
   The dispatcher inside deliverEvent. Clearing the active turn id is a load and a
   later store; `loaded` is what it loaded.
   */
  datatype Dispatcher =
    | Idle
    | Clearing(ev: ThreadEvent, loaded: string)
    | Pushing(ev: ThreadEvent)

  /** `accepted` is every event the inbox ever took; the first `taken` of them have left it. */
  datatype State = State(
    closed: bool,
    active: string,
    lock: Option<nat>,
    acquired: seq<nat>,
    released: seq<nat>,
    calls: map<nat, Call>,
    streams: seq<Stream>,
    accepted: seq<ThreadEvent>,
    taken: nat,
    dispatcher: Dispatcher)

  datatype Action =
    | Call(c: nat)
    | Lock(c: nat)
    | RpcFails(c: nat)
    | RpcOk(c: nat, turn: string)
    | Store(c: nat)
    | Take(c: nat)
    | Forward(c: nat)
    | Abandon(c: nat)          // its context is done, or the thread is
    | Deliver(ev: ThreadEvent)
    | ClearStore
    | Push
    | MarkClosed

  const FRESH := State(false, "", None, [], [], map[], [], [], 0, Idle)

  function At(s: State, c: nat): Call {
    if c in s.calls then s.calls[c] else Finished
  }

  function To(s: State, c: nat, p: Call): State {
    s.(calls := s.calls[c := p])
  }

  function Unlocked(s: State, c: nat): State {
    To(s, c, Finished).(lock := None, released := s.released + [c])
  }

  function Live(s: State, c: nat): (slot: Option<nat>)
    ensures slot.Some? ==> slot.value < |s.streams|
  {
    if At(s, c).Streaming? && At(s, c).slot < |s.streams| then Some(At(s, c).slot) else None
  }

  function Step(s: State, a: Action): State {
    match a
    case Call(c) =>
      if c in s.calls then s else To(s, c, if s.closed then Finished else Wanting)
    case Lock(c) =>
      if At(s, c).Wanting? && s.lock.None? then
        To(s, c, Starting).(lock := Some(c), acquired := s.acquired + [c])
      else s
    case RpcFails(c) =>
      if At(s, c).Starting? then Unlocked(s, c) else s
    case RpcOk(c, turn) =>
      if At(s, c).Starting? then To(s, c, Storing(turn)) else s
    case Store(c) =>
      if !At(s, c).Storing? then s
      else
        var turn := At(s, c).turn;
        var t := To(s, c, Streaming(|s.streams|)).(streams := s.streams + [Stream(c, turn, turn, [], None, None, Open)]);
        if turn == "" then t else t.(active := turn)
    case Take(c) =>
      if Live(s, c).Some? && s.streams[Live(s, c).value].held.None? && s.taken < |s.accepted| then
        var i := Live(s, c).value;
        s.(taken := s.taken + 1, streams := s.streams[i := s.streams[i].(held := Some(s.taken))])
      else s
    case Forward(c) =>
      if Live(s, c).Some? && s.streams[Live(s, c).value].held.Some?
         && s.streams[Live(s, c).value].held.value < |s.accepted| then
        Forwarded(s, c, Live(s, c).value)
      else s
    case Abandon(c) =>
      if Live(s, c).Some? then
        var i := Live(s, c).value;
        Unlocked(s, c).(streams := s.streams[i := s.streams[i].(held := None, lost := s.streams[i].held, end := Abandoned)])
      else s
    case Deliver(ev) =>
      if !s.dispatcher.Idle? || s.closed then s
      else
        var active := if ev.TurnStarted? then ev.turn else s.active;
        var clears := IsTurnTerminus(ev, "") && active != "" && (ev.turn == "" || active == ev.turn);
        s.(active := active, dispatcher := if clears then Clearing(ev, active) else Pushing(ev))
    case ClearStore =>
      if s.dispatcher.Clearing? then s.(active := "", dispatcher := Pushing(s.dispatcher.ev)) else s
    case Push =>
      // A full inbox drops the event.
      if !s.dispatcher.Pushing? then s
      else if |s.accepted| - s.taken < THREAD_INBOX_BUFFER then
        s.(accepted := s.accepted + [s.dispatcher.ev], dispatcher := Idle)
      else s.(dispatcher := Idle)
    case MarkClosed =>
      // eventMu keeps it out of a delivery.
      if s.dispatcher.Idle? then s.(closed := true) else s
  }

  function Forwarded(s: State, c: nat, i: nat): State
    requires i < |s.streams| && s.streams[i].held.Some? && s.streams[i].held.value < |s.accepted|
  {
    var st := s.streams[i];
    var ev := s.accepted[st.held.value];
    var expected := ExpectedAfter(st.expected, ev);
    var st' := st.(out := st.out + [st.held.value], held := None, expected := expected);
    if IsTurnTerminus(ev, expected) then
      Unlocked(s, c).(streams := s.streams[i := st'.(end := AtTerminus)])
    else s.(streams := s.streams[i := st'])
  }

  // ------------------------------------------------- the turn lock

  predicate Holds(p: Call) {
    p.Starting? || p.Storing? || p.Streaming?
  }

  ghost predicate LockSound(s: State) {
    && (forall c: nat :: Holds(At(s, c)) <==> s.lock == Some(c))
    && s.acquired == s.released + (if s.lock.Some? then [s.lock.value] else [])
    && (forall c: nat :: At(s, c).Streaming? ==>
          At(s, c).slot == |s.streams| - 1 && s.streams[At(s, c).slot].call == c)
    && (forall i :: 0 <= i < |s.streams| ==>
          (s.streams[i].end.Open? <==> At(s, s.streams[i].call) == Streaming(i)))
  }

  lemma StartKeepsLock(s: State, a: Action)
    requires LockSound(s) && (a.Call? || a.Lock? || a.RpcFails? || a.RpcOk?)
    ensures LockSound(Step(s, a))
  {
    assert At(s, a.c).Starting? ==> s.lock == Some(a.c);
  }

  lemma StoreKeepsLock(s: State, c: nat)
    requires LockSound(s)
    ensures LockSound(Step(s, Store(c)))
  {
    assert At(s, c).Storing? ==> s.lock == Some(c);
  }

  lemma StreamKeepsLock(s: State, a: Action)
    requires LockSound(s) && (a.Take? || a.Forward? || a.Abandon?)
    ensures LockSound(Step(s, a))
  {
    var s' := Step(s, a);
    if Live(s, a.c).Some? && s' != s {
      var i := Live(s, a.c).value;
      assert s.lock == Some(a.c) && s'.streams == s.streams[i := s'.streams[i]];
      assert s'.streams[i].call == s.streams[i].call;
      assert s'.calls == if s'.streams[i].end.Open? then s.calls else s.calls[a.c := Finished];
    }
  }

  lemma StepKeepsLock(s: State, a: Action)
    requires LockSound(s)
    ensures LockSound(Step(s, a))
  {
    if a.Call? || a.Lock? || a.RpcFails? || a.RpcOk? {
      StartKeepsLock(s, a);
    } else if a.Store? {
      StoreKeepsLock(s, a.c);
    } else if a.Take? || a.Forward? || a.Abandon? {
      StreamKeepsLock(s, a);
    } else {
      var s' := Step(s, a);
      assert (s'.calls, s'.lock, s'.acquired, s'.released, s'.streams) ==
             (s.calls, s.lock, s.acquired, s.released, s.streams);
    }
  }

  lemma Reachable(acts: seq<Action>)
    ensures LockSound(Runs.Exec(Step, FRESH, acts))
  {
    forall s, a | LockSound(s) ensures LockSound(Step(s, a)) {
      StepKeepsLock(s, a);
    }
    Runs.Invariant(Step, LockSound, FRESH, acts);
  }

  /** A call takes the lock at most once. */
  ghost predicate OncePerCall(s: State) {
    && (forall i, j :: 0 <= i < j < |s.acquired| ==> s.acquired[i] != s.acquired[j])
    && (forall i :: 0 <= i < |s.acquired| ==> s.acquired[i] in s.calls && !s.calls[s.acquired[i]].Wanting?)
  }

  lemma StepKeepsOnce(s: State, a: Action)
    requires OncePerCall(s)
    ensures OncePerCall(Step(s, a))
  {
    if !a.Lock? && !a.Call? {
      var s' := Step(s, a);
      assert s'.acquired == s.acquired;
      assert forall c :: c in s.calls ==> c in s'.calls && (s'.calls[c].Wanting? ==> s.calls[c].Wanting?);
    }
  }

  /**
   At most one stream loop ever reads the inbox, and it holds the turn lock; each
   call acquires the lock at most once, and each acquisition is released exactly
   once, by the call that made it and before the next.
   */
  lemma OneTurnAtATime(acts: seq<Action>, c: nat, d: nat)
    ensures var s := Runs.Exec(Step, FRESH, acts);
            && (Holds(At(s, c)) && Holds(At(s, d)) ==> c == d)
            && (s.acquired == s.released || exists h :: s.acquired == s.released + [h] && Holds(At(s, h)))
            && (forall i, j :: 0 <= i < j < |s.acquired| ==> s.acquired[i] != s.acquired[j])
  {
    Reachable(acts);
    forall s, a | OncePerCall(s) ensures OncePerCall(Step(s, a)) {
      StepKeepsOnce(s, a);
    }
    Runs.Invariant(Step, OncePerCall, FRESH, acts);
  }

  /** markClosed, once the dispatcher is not inside a delivery, closes the thread for good: a call made afterwards is over at once. */
  lemma NoTurnAfterClose(acts: seq<Action>, more: seq<Action>, c: nat)
    requires var s := Runs.Exec(Step, FRESH, acts); s.dispatcher.Idle? && c !in s.calls
    ensures var t := Runs.Exec(Step, FRESH, acts + [MarkClosed] + more); t.closed && At(t, c).Finished?
  {
    var s := Runs.Exec(Step, FRESH, acts);
    Runs.Split(Step, FRESH, acts, [MarkClosed]);
    Runs.Follow(Step, s, [MarkClosed]);
    var over := (t: State) => t.closed && At(t, c).Finished?;
    forall t, a | over(t) ensures over(Step(t, a)) {
      OverStays(t, a, c);
    }
    Runs.Invariant(Step, over, Step(s, MarkClosed), more);
    Runs.Split(Step, FRESH, acts + [MarkClosed], more);
  }

  lemma OverStays(t: State, a: Action, c: nat)
    requires t.closed && At(t, c).Finished?
    ensures Step(t, a).closed && At(Step(t, a), c).Finished?
  {
  }

  // ------------------------------------------------- every call comes to its end

  /** What the code of a call can do next; its stream can be given up at any time. */
  predicate NextOf(s: State, c: nat, a: Action) {
    match At(s, c)
    case Wanting => a == Lock(c) && s.lock.None?
    case Starting => a == RpcFails(c) || (a.RpcOk? && a.c == c)
    case Storing(_) => a == Store(c)
    case Streaming(_) => a == Abandon(c)
    case Finished => false
  }

  function ToGo(p: Call): nat {
    match p
    case Wanting => 4
    case Starting => 3
    case Storing(_) => 2
    case Streaming(_) => 1
    case Finished => 0
  }

  /** Every move brings its call nearer to its end. */
  lemma EveryMoveCounts(s: State, c: nat, a: Action)
    requires LockSound(s) && NextOf(s, c, a)
    ensures ToGo(At(Step(s, a), c)) < ToGo(At(s, c))
  {
  }

  /** Whoever holds the turn lock can let go of it by moves of its own. */
  lemma HolderCanEnd(s: State, h: nat)
    requires LockSound(s) && s.lock == Some(h)
    ensures var t := Step(Step(Step(s, RpcOk(h, "")), Store(h)), Abandon(h));
            t.lock.None? && LockSound(t) && forall c :: c != h ==> At(t, c) == At(s, c)
  {
    StepKeepsLock(s, RpcOk(h, ""));
    var s1 := Step(s, RpcOk(h, ""));
    assert s1.lock == Some(h) && forall c :: c != h ==> At(s1, c) == At(s, c);
    StepKeepsLock(s1, Store(h));
    var s2 := Step(s1, Store(h));
    assert s2.lock == Some(h) && At(s2, h).Streaming? && forall c :: c != h ==> At(s2, c) == At(s1, c);
    StepKeepsLock(s2, Abandon(h));
    assert Live(s2, h).Some?;
  }

  /** So no call can be kept waiting for good: from wherever a run has got to, every call can still come to its end. */
  lemma EveryCallCanEnd(acts: seq<Action>, c: nat) returns (more: seq<Action>)
    ensures At(Runs.Exec(Step, FRESH, acts + more), c).Finished?
  {
    var s := Runs.Exec(Step, FRESH, acts);
    Reachable(acts);
    more := [];
    assert acts + more == acts;
    if s.lock.Some? {
      var h := s.lock.value;
      HolderCanEnd(s, h);
      var tail := [RpcOk(h, ""), Store(h), Abandon(h)];
      Runs.Split(Step, FRESH, acts, tail);
      ThreeMoves(s, tail[0], tail[1], tail[2]);
      more := tail;
    }
    Reachable(acts + more);
    var t := Runs.Exec(Step, FRESH, acts + more);
    if At(t, c).Wanting? {
      var tail := [Lock(c), RpcFails(c)];
      Runs.Split(Step, FRESH, acts + more, tail);
      Runs.Follow(Step, t, tail);
      assert tail[1..] == [RpcFails(c)];
      Runs.Follow(Step, Step(t, Lock(c)), [RpcFails(c)]);
      assert acts + (more + tail) == acts + more + tail;
      more := more + tail;
    }
  }

  lemma ThreeMoves(s: State, a: Action, b: Action, c: Action)
    ensures Runs.Exec(Step, s, [a, b, c]) == Step(Step(Step(s, a), b), c)
  {
    Runs.Follow(Step, s, [a, b, c]);
    assert [a, b, c][1..] == [b, c];
    Runs.Follow(Step, Step(s, a), [b, c]);
    assert [b, c][1..] == [c];
    Runs.Follow(Step, Step(Step(s, a), b), [c]);
  }

  /** The stream of call c belongs to a known turn and has nothing in hand. */
  predicate Reading(s: State, c: nat) {
    && Live(s, c).Some?
    && var st := s.streams[Live(s, c).value];
       st.held.None? && st.turn != "" && st.expected == st.turn
  }

  /** One event through an undisturbed stream loop: taken, forwarded, and the end of the stream if it is its turn's terminus. */
  lemma PassesOn(s: State, c: nat)
    requires Reading(s, c) && s.taken < |s.accepted|
    ensures var i, t := Live(s, c).value, Step(Step(s, Take(c)), Forward(c));
            && |t.streams| == |s.streams| && t.accepted == s.accepted && t.taken == s.taken + 1
            && t.streams[i].out == s.streams[i].out + [s.taken]
            && t.streams[i].turn == s.streams[i].turn
            && if IsTurnTerminus(s.accepted[s.taken], s.streams[i].turn)
               then t.streams[i].end.AtTerminus? && At(t, c).Finished? && t.lock.None?
               else Reading(t, c) && Live(t, c) == Some(i)
  {
  }

  /**
   A stream whose caller keeps reading gets everything up to its turn's terminus:
   all the events that the inbox holds up to the first one of them, which ends it
   and frees the turn lock.
   */
  lemma {:induction false} ReaderReachesTerminus(s: State, c: nat, k: nat) returns (more: seq<Action>)
    requires Reading(s, c) && s.taken <= k < |s.accepted|
    requires var turn := s.streams[Live(s, c).value].turn;
             && IsTurnTerminus(s.accepted[k], turn)
             && forall j :: s.taken <= j < k ==> !IsTurnTerminus(s.accepted[j], turn)
    ensures var i, t := Live(s, c).value, Runs.Exec(Step, s, more);
            && |t.streams| == |s.streams| && t.streams[i].end.AtTerminus? && At(t, c).Finished? && t.lock.None?
            && t.streams[i].out == s.streams[i].out + Stretched(s.taken, k + 1)
    decreases k - s.taken
  {
    var i := Live(s, c).value;
    var t := Step(Step(s, Take(c)), Forward(c));
    PassesOn(s, c);
    var two := [Take(c), Forward(c)];
    Runs.Follow(Step, s, two);
    assert two[1..] == [Forward(c)];
    Runs.Follow(Step, Step(s, Take(c)), [Forward(c)]);
    assert Stretched(s.taken, k + 1) == [s.taken] + Stretched(s.taken + 1, k + 1);
    if k == s.taken {
      assert Stretched(s.taken + 1, k + 1) == [];
      return two;
    }
    var rest := ReaderReachesTerminus(t, c, k);
    Regroup(s.streams[i].out, [s.taken], Stretched(s.taken + 1, k + 1));
    Runs.Split(Step, s, two, rest);
    more := two + rest;
  }

  /** The positions from a up to, but not including, b. */
  function Stretched(a: nat, b: nat): (ns: seq<nat>)
    requires a <= b
    ensures |ns| == b - a && forall k :: 0 <= k < b - a ==> ns[k] == a + k
  {
    seq(b - a, k requires 0 <= k < b - a => a + k)
  }

  // ------------------------------------------------- what the streams carry

  /** One stream: while open it looks for its end; if it ended at a terminus, that was its first. */
  ghost predicate StreamSound(s: State, st: Stream)
    requires s.taken <= |s.accepted|
  {
    && (forall k :: 0 <= k < |st.out| ==> st.out[k] < s.taken)
    && (st.held.Some? ==> st.end.Open? && st.held.value + 1 == s.taken)
    && (st.lost.Some? ==> st.end.Abandoned?)
    && (st.turn != "" ==>
          && st.expected == st.turn
          && (forall k :: 0 <= k < |st.out| ==>
                (IsTurnTerminus(s.accepted[st.out[k]], st.turn) <==> k == |st.out| - 1 && st.end.AtTerminus?)))
    && (st.end.AtTerminus? ==> st.out != [] && IsTurnTerminus(s.accepted[st.out[|st.out| - 1]], ""))
  }

  ghost predicate StreamsSound(s: State) {
    && s.taken <= |s.accepted| <= s.taken + THREAD_INBOX_BUFFER
    && forall i :: 0 <= i < |s.streams| ==> StreamSound(s, s.streams[i])
  }

  /** What a stream took from the inbox: what it forwarded, and then what it holds or lost. */
  function Share(st: Stream): seq<nat> {
    st.out + (if st.held.Some? then [st.held.value] else if st.lost.Some? then [st.lost.value] else [])
  }

  /** What all the streams took, in lock order. */
  function Flow(streams: seq<Stream>): seq<nat> {
    if streams == [] then [] else Flow(streams[..|streams| - 1]) + Share(streams[|streams| - 1])
  }

  function Naturals(n: nat): (ns: seq<nat>)
    ensures |ns| == n && forall k :: 0 <= k < n ==> ns[k] == k
  {
    seq(n, k requires 0 <= k < n => k)
  }

  /** That is everything that has left the inbox, in its order. */
  ghost predicate InOrder(s: State) {
    Flow(s.streams) == Naturals(s.taken)
  }

  ghost predicate Inv(s: State) {
    LockSound(s) && StreamsSound(s) && InOrder(s)
  }

  lemma OnlyLast(s: State, c: nat)
    requires LockSound(s) && Live(s, c).Some?
    ensures s.streams != [] && Live(s, c) == Some(|s.streams| - 1) && s.lock == Some(c)
  {
  }

  function Last(s: State): Stream
    requires s.streams != []
  {
    s.streams[|s.streams| - 1]
  }

  function WithLast(s: State, st: Stream): seq<Stream>
    requires s.streams != []
  {
    s.streams[..|s.streams| - 1] + [st]
  }

  /** `st` once it has passed on the event in hand. */
  function Advanced(s: State, st: Stream): Stream
    requires st.held.Some? && st.held.value < |s.accepted|
  {
    var ev := s.accepted[st.held.value];
    var expected := ExpectedAfter(st.expected, ev);
    st.(out := st.out + [st.held.value], held := None, expected := expected,
        end := if IsTurnTerminus(ev, expected) then AtTerminus else Open)
  }

  /** The four ways in which a step can touch the streams and the inbox. */
  ghost predicate Took(s: State, s': State) {
    && s.streams != [] && Last(s).held.None? && Last(s).end.Open?
    && s'.accepted == s.accepted && s'.taken == s.taken + 1 <= |s.accepted|
    && s'.streams == WithLast(s, Last(s).(held := Some(s.taken)))
  }

  ghost predicate Passed(s: State, s': State) {
    && s.streams != [] && Last(s).held.Some? && Last(s).held.value < |s.accepted|
    && s'.accepted == s.accepted && s'.taken == s.taken
    && s'.streams == WithLast(s, Advanced(s, Last(s)))
  }

  ghost predicate GaveUp(s: State, s': State) {
    && s.streams != [] && Last(s).end.Open?
    && s'.accepted == s.accepted && s'.taken == s.taken
    && s'.streams == WithLast(s, Last(s).(held := None, lost := Last(s).held, end := Abandoned))
  }

  ghost predicate Grew(s: State, s': State) {
    && s.accepted <= s'.accepted && s'.taken == s.taken
    && (|s'.accepted| > |s.accepted| ==> |s'.accepted| <= s.taken + THREAD_INBOX_BUFFER)
    && (s'.streams == s.streams
        || exists c: nat, turn: string :: s'.streams == s.streams + [Stream(c, turn, turn, [], None, None, Open)])
  }

  lemma StreamChanges(s: State, a: Action)
    requires LockSound(s) && StreamsSound(s) && (a.Take? || a.Forward? || a.Abandon?) && Step(s, a) != s
    ensures var s' := Step(s, a); Took(s, s') || Passed(s, s') || GaveUp(s, s')
  {
    OnlyLast(s, a.c);
    assert StreamSound(s, Last(s));
    assert forall st: Stream :: s.streams[|s.streams| - 1 := st] == WithLast(s, st);
  }

  lemma OtherChanges(s: State, a: Action)
    requires StreamsSound(s) && !a.Take? && !a.Forward? && !a.Abandon?
    ensures Grew(s, Step(s, a))
  {
  }

  /** A stream with nothing in hand stays sound as the history grows. */
  lemma StaysSound(s: State, s': State, st: Stream)
    requires s.taken <= |s.accepted| && StreamSound(s, st)
    requires s.accepted <= s'.accepted && s.taken <= s'.taken <= |s'.accepted|
    requires st.held.Some? ==> s'.taken == s.taken
    ensures StreamSound(s', st)
  {
  }

  lemma AdvancedIsSound(s: State, st: Stream)
    requires s.taken <= |s.accepted| && StreamSound(s, st) && st.held.Some?
    ensures StreamSound(s, Advanced(s, st))
  {
    var out := st.out + [st.held.value];
    assert forall k :: 0 <= k < |st.out| ==> out[k] == st.out[k];
  }

  lemma ChangeKeepsStreams(s: State, s': State)
    requires StreamsSound(s)
    requires forall i :: 0 <= i < |s.streams| - 1 ==> !s.streams[i].end.Open?
    requires Took(s, s') || Passed(s, s') || GaveUp(s, s') || Grew(s, s')
    ensures StreamsSound(s')
  {
    forall i | 0 <= i < |s.streams| && (i < |s.streams| - 1 || Grew(s, s'))
      ensures i < |s'.streams| && StreamSound(s', s'.streams[i])
    {
      StaysSound(s, s', s.streams[i]);
    }
    if Passed(s, s') {
      AdvancedIsSound(s, Last(s));
      StaysSound(s, s', Advanced(s, Last(s)));
    }
  }

  lemma FlowWithLast(s: State, st: Stream)
    requires s.streams != []
    ensures Flow(WithLast(s, st)) == Flow(s.streams[..|s.streams| - 1]) + Share(st)
  {
    assert WithLast(s, st)[..|s.streams| - 1] == s.streams[..|s.streams| - 1];
  }

  /** Only taking an event changes what a stream took. */
  lemma ShareOfLast(s: State, s': State)
    requires StreamsSound(s) && (Took(s, s') || Passed(s, s') || GaveUp(s, s'))
    ensures s'.streams == WithLast(s, Last(s'))
    ensures Share(Last(s')) == Share(Last(s)) + (if Took(s, s') then [s.taken] else [])
  {
    assert StreamSound(s, Last(s));
  }

  lemma NaturalsSnoc(n: nat)
    ensures Naturals(n + 1) == Naturals(n) + [n]
  {
  }

  lemma LastKeepsOrder(s: State, s': State)
    requires StreamsSound(s) && InOrder(s)
    requires Took(s, s') || Passed(s, s') || GaveUp(s, s')
    ensures InOrder(s')
  {
    var more := if Took(s, s') then [s.taken] else [];
    ShareOfLast(s, s');
    FlowWithLast(s, Last(s'));
    Regroup(Flow(s.streams[..|s.streams| - 1]), Share(Last(s)), more);
    NaturalsSnoc(s.taken);
    assert Naturals(s.taken) + [] == Naturals(s.taken);
  }

  lemma ChangeKeepsOrder(s: State, s': State)
    requires StreamsSound(s) && InOrder(s)
    requires Took(s, s') || Passed(s, s') || GaveUp(s, s') || Grew(s, s')
    ensures InOrder(s')
  {
    if Took(s, s') || Passed(s, s') || GaveUp(s, s') {
      LastKeepsOrder(s, s');
    } else if s'.streams != s.streams {
      assert s'.streams[..|s.streams|] == s.streams;
      assert Flow(s'.streams) == Flow(s.streams) + [];
    }
  }

  /** Only the last stream can be open. */
  lemma EarlierAreOver(s: State)
    requires LockSound(s)
    ensures forall i :: 0 <= i < |s.streams| - 1 ==> !s.streams[i].end.Open?
  {
  }

  lemma StepKeepsInv(s: State, a: Action)
    requires Inv(s)
    ensures Inv(Step(s, a))
  {
    StepKeepsLock(s, a);
    var s' := Step(s, a);
    if s' != s {
      if a.Take? || a.Forward? || a.Abandon? {
        StreamChanges(s, a);
      } else {
        OtherChanges(s, a);
      }
      EarlierAreOver(s);
      ChangeKeepsStreams(s, s');
      ChangeKeepsOrder(s, s');
    }
  }

  lemma StreamsReachable(acts: seq<Action>)
    ensures Inv(Runs.Exec(Step, FRESH, acts))
  {
    forall s, a | Inv(s) ensures Inv(Step(s, a)) {
      StepKeepsInv(s, a);
    }
    Runs.Invariant(Step, Inv, FRESH, acts);
  }

  /** In a flow that is the naturals, each stream's share begins where the shares before it end. */
  lemma {:induction false} ShareIsStretch(streams: seq<Stream>, i: nat, k: nat)
    requires i < |streams| && k < |Share(streams[i])|
    requires forall n :: 0 <= n < |Flow(streams)| ==> Flow(streams)[n] == n
    ensures Share(streams[i])[k] == |Flow(streams[..i])| + k
    decreases |streams|
  {
    var last := |streams| - 1;
    var before := Flow(streams[..last]);
    if i < last {
      forall n | 0 <= n < |before| ensures before[n] == n {
        assert Flow(streams)[n] == n;
      }
      ShareIsStretch(streams[..last], i, k);
      assert streams[..last][..i] == streams[..i];
    } else {
      assert Flow(streams)[|before| + k] == |before| + k;
    }
  }

  /** Stream i forwarded a contiguous stretch of the inbox; the event it lost, if any, comes right behind. */
  ghost predicate Stretch(s: State, i: nat)
    requires i < |s.streams|
  {
    var st, base := s.streams[i], |Flow(s.streams[..i])|;
    && (forall k :: 0 <= k < |st.out| ==> st.out[k] == base + k)
    && (st.lost.Some? ==> st.end.Abandoned? && st.lost.value == base + |st.out|)
  }

  /** The turn, completed or failed, is the last thing its stream forwards, and only a stream that ended there has it. */
  ghost predicate EndsAtItsTerminus(s: State, st: Stream) {
    st.turn != "" ==>
      forall k :: 0 <= k < |st.out| ==>
        && st.out[k] < |s.accepted|
        && var ev := s.accepted[st.out[k]];
           ((ev.TurnCompleted? || ev.TurnFailed?) && ev.turn == st.turn <==> k == |st.out| - 1 && st.end.AtTerminus?)
  }

  /**
   In every interleaving the streams, in lock order, split what has left the inbox
   into contiguous stretches: nothing is duplicated, reordered, invented or skipped,
   and an event taken and never forwarded is the one an abandoned stream held. A
   stream whose turn id was known and that ended at a terminus ended at the first
   terminus of its turn.
   */
  lemma StreamsInOrder(acts: seq<Action>)
    ensures var s := Runs.Exec(Step, FRESH, acts);
            && s.taken <= |s.accepted| && Flow(s.streams) == Naturals(s.taken)
            && forall i :: 0 <= i < |s.streams| ==> Stretch(s, i) && EndsAtItsTerminus(s, s.streams[i])
  {
    StreamsReachable(acts);
    var s := Runs.Exec(Step, FRESH, acts);
    forall i | 0 <= i < |s.streams| ensures Stretch(s, i) && EndsAtItsTerminus(s, s.streams[i]) {
      StretchOf(s, i);
    }
  }

  lemma StretchOf(s: State, i: nat)
    requires StreamsSound(s) && InOrder(s) && i < |s.streams|
    ensures Stretch(s, i) && EndsAtItsTerminus(s, s.streams[i])
  {
    var st := s.streams[i];
    assert StreamSound(s, st);
    forall k | 0 <= k < |Share(st)| ensures Share(st)[k] == |Flow(s.streams[..i])| + k {
      ShareIsStretch(s.streams, i, k);
    }
    assert forall k :: 0 <= k < |st.out| ==> st.out[k] == Share(st)[k];
    assert st.lost.Some? ==> Share(st)[|st.out|] == st.lost.value;
  }

  // ------------------------------------------------- what the inbox takes

  /** The events delivered to the open thread, in order. */
  ghost function Delivers(acts: seq<Action>): seq<ThreadEvent> {
    if acts == [] then []
    else
      var n := |acts| - 1;
      var s := Runs.Exec(Step, FRESH, acts[..n]);
      Delivers(acts[..n]) + (if acts[n].Deliver? && s.dispatcher.Idle? && !s.closed then [acts[n].ev] else [])
  }

  /** An event offered to the inbox, and whether there was room for it. */
  datatype Offer = Offer(ev: ThreadEvent, room: bool)

  ghost function Offers(acts: seq<Action>): seq<Offer> {
    if acts == [] then []
    else
      var n := |acts| - 1;
      var s := Runs.Exec(Step, FRESH, acts[..n]);
      Offers(acts[..n]) +
      (if acts[n].Push? && s.dispatcher.Pushing? then [Offer(s.dispatcher.ev, |s.accepted| - s.taken < THREAD_INBOX_BUFFER)]
       else [])
  }

  function Offered(os: seq<Offer>): (es: seq<ThreadEvent>)
    ensures |es| == |os| && forall k :: 0 <= k < |es| ==> es[k] == os[k].ev
  {
    seq(|os|, k requires 0 <= k < |os| => os[k].ev)
  }

  function Kept(os: seq<Offer>): seq<ThreadEvent> {
    if os == [] then []
    else Kept(os[..|os| - 1]) + (if os[|os| - 1].room then [os[|os| - 1].ev] else [])
  }

  lemma OfferSnoc(os: seq<Offer>, o: Offer)
    ensures Offered(os + [o]) == Offered(os) + [o.ev]
    ensures Kept(os + [o]) == Kept(os) + (if o.room then [o.ev] else [])
  {
    assert (os + [o])[..|os + [o]| - 1] == os;
  }

  function InHand(d: Dispatcher): seq<ThreadEvent> {
    if d.Idle? then [] else [d.ev]
  }

  /** The inbox and the dispatcher after one more action. */
  lemma InboxStep(s: State, a: Action)
    ensures var s' := Step(s, a);
            && (a.Push? && s.dispatcher.Pushing? ==>
                  && s'.dispatcher.Idle?
                  && s'.accepted == s.accepted +
                                    (if |s.accepted| - s.taken < THREAD_INBOX_BUFFER then [s.dispatcher.ev] else []))
            && (!(a.Push? && s.dispatcher.Pushing?) ==>
                  && s'.accepted == s.accepted
                  && InHand(s'.dispatcher) ==
                     if a.Deliver? && s.dispatcher.Idle? && !s.closed then [a.ev] else InHand(s.dispatcher))
  {
  }

  /**
   Every event delivered to the open thread is offered to the inbox, in order and
   once, but for the one in the dispatcher's hand; and the inbox takes exactly those
   offered while it had room.
   */
  lemma {:induction false} InboxTakesInOrder(acts: seq<Action>)
    ensures var s := Runs.Exec(Step, FRESH, acts);
            && Delivers(acts) == Offered(Offers(acts)) + InHand(s.dispatcher)
            && s.accepted == Kept(Offers(acts))
    decreases |acts|
  {
    if acts != [] {
      var n := |acts| - 1;
      var s := Runs.Exec(Step, FRESH, acts[..n]);
      InboxTakesInOrder(acts[..n]);
      InboxStep(s, acts[n]);
      if acts[n].Push? && s.dispatcher.Pushing? {
        OfferSnoc(Offers(acts[..n]), Offer(s.dispatcher.ev, |s.accepted| - s.taken < THREAD_INBOX_BUFFER));
      } else {
        assert Offers(acts) == Offers(acts[..n]);
      }
    }
  }

  // ------------------------------------------------- the active turn id

  /** Action j begins the delivery that the dispatcher is clearing for. */
  ghost predicate BeganClearing(acts: seq<Action>, j: nat)
    requires j < |acts|
  {
    && acts[j].Deliver? && Runs.Exec(Step, FRESH, acts[..j]).dispatcher.Idle?
    && Step(Runs.Exec(Step, FRESH, acts[..j]), acts[j]).dispatcher.Clearing?
  }

  /** The turn id that an action stores as active, if it is a call that stores one. */
  function Stores(s: State, a: Action): Option<string> {
    if a.Store? && At(s, a.c).Storing? && At(s, a.c).turn != "" then Some(At(s, a.c).turn) else None
  }

  ghost function StoredBy(acts: seq<Action>, j: nat): Option<string>
    requires j < |acts|
  {
    Stores(Runs.Exec(Step, FRESH, acts[..j]), acts[j])
  }

  /** No call has stored an id since action j. */
  ghost predicate NoneStoredSince(acts: seq<Action>, j: nat) {
    forall k :: j < k < |acts| ==> StoredBy(acts, k).None?
  }

  /** Since delivery i began, the active id is what the delivery loaded or what was stored last. */
  ghost predicate ClearHistory(acts: seq<Action>, i: nat) {
    var s := Runs.Exec(Step, FRESH, acts);
    && s.dispatcher.Clearing?
    && i < |acts| && BeganClearing(acts, i) && acts[i].ev == s.dispatcher.ev
    && IsTurnTerminus(s.dispatcher.ev, "") && s.dispatcher.loaded != ""
    && (TurnOfTerminus(s.dispatcher.ev) == "" || s.dispatcher.loaded == TurnOfTerminus(s.dispatcher.ev))
    && (NoneStoredSince(acts, i) ==> s.active == s.dispatcher.loaded)
    && (forall j :: i < j < |acts| && StoredBy(acts, j).Some? && NoneStoredSince(acts, j) ==>
          s.active == StoredBy(acts, j).value)
    && (NoneStoredSince(acts, i) || exists j :: i < j < |acts| && StoredBy(acts, j).Some? && NoneStoredSince(acts, j))
  }

  lemma {:induction false} ClearingHasHistory(acts: seq<Action>) returns (i: nat)
    requires Runs.Exec(Step, FRESH, acts).dispatcher.Clearing?
    ensures ClearHistory(acts, i)
    decreases |acts|
  {
    var n := |acts| - 1;
    var init, a := acts[..n], acts[n];
    var s := Runs.Exec(Step, FRESH, init);
    if s.dispatcher.Clearing? {
      i := ClearingHasHistory(init);
      HistoryGrows(init, a, i);
      assert init + [a] == acts;
    } else {
      i := n;
    }
  }

  lemma StoredByPrefix(init: seq<Action>, a: Action, j: nat)
    requires j < |init|
    ensures StoredBy(init + [a], j) == StoredBy(init, j)
    ensures BeganClearing(init + [a], j) <==> BeganClearing(init, j)
  {
    assert (init + [a])[..j] == init[..j];
  }

  /** While the dispatcher is clearing, only a call that stores an id changes the active one. */
  lemma ActiveWhileClearing(s: State, a: Action)
    requires s.dispatcher.Clearing? && Step(s, a).dispatcher.Clearing?
    ensures Step(s, a).dispatcher == s.dispatcher
    ensures Step(s, a).active == if Stores(s, a).Some? then Stores(s, a).value else s.active
  {
  }

  lemma HistoryGrows(init: seq<Action>, a: Action, i: nat)
    requires Runs.Exec(Step, FRESH, init).dispatcher.Clearing? && ClearHistory(init, i)
    requires Runs.Exec(Step, FRESH, init + [a]).dispatcher.Clearing?
    ensures ClearHistory(init + [a], i)
  {
    var acts := init + [a];
    var n := |init|;
    assert acts[..n] == init;
    ActiveWhileClearing(Runs.Exec(Step, FRESH, init), a);
    forall j | 0 <= j < n
      ensures StoredBy(acts, j) == StoredBy(init, j)
      ensures NoneStoredSince(acts, j) <==> NoneStoredSince(init, j) && StoredBy(acts, n).None?
    {
      StoredByPrefix(init, a, j);
      forall k | j < k < n ensures StoredBy(acts, k) == StoredBy(init, k) {
        StoredByPrefix(init, a, k);
      }
    }
    StoredByPrefix(init, a, i);
    assert NoneStoredSince(acts, n);
  }

  /**
   A terminus for a turn clears the id of another turn exactly when, since its
   delivery began, the last id that a call stored was another turn's. Without such a
   store a terminus for another non-empty turn id never clears the active one.
   */
  lemma ClearsOtherIff(acts: seq<Action>) returns (i: nat)
    requires var s := Runs.Exec(Step, FRESH, acts); s.dispatcher.Clearing? && TurnOfTerminus(s.dispatcher.ev) != ""
    ensures var s := Runs.Exec(Step, FRESH, acts);
            && i < |acts| && BeganClearing(acts, i) && acts[i].ev == s.dispatcher.ev
            && Step(s, ClearStore).active == "" && s.active != ""
            && (s.active != TurnOfTerminus(s.dispatcher.ev) <==>
                  exists j :: i < j < |acts| && NoneStoredSince(acts, j)
                              && StoredBy(acts, j).Some? && StoredBy(acts, j).value != TurnOfTerminus(s.dispatcher.ev))
  {
    i := ClearingHasHistory(acts);
  }

  /** Undisturbed, a delivery leaves the active id as deliverEvent's own contract says. */
  lemma UndisturbedDelivery(s: State, ev: ThreadEvent)
    requires s.dispatcher.Idle? && !s.closed
    ensures Step(Step(Step(s, Deliver(ev)), ClearStore), Push).active == ActiveAfter(s.active, ev)
  {
  }

  const SECOND_STARTING := FRESH.(
    active := "a", lock := Some(2), acquired := [1, 2], released := [1],
    calls := map[1 := Finished, 2 := Starting], streams := [Stream(1, "a", "a", [], None, None, Abandoned)])

  const SECOND_CLEARED := SECOND_STARTING.(
    active := "", calls := map[1 := Finished, 2 := Streaming(1)],
    streams := [Stream(1, "a", "a", [], None, None, Abandoned), Stream(2, "b", "b", [], None, None, Open)],
    dispatcher := Pushing(TurnCompleted("t", "a")))

  const FIRST_STORING := FRESH.(calls := map[1 := Storing("a")], lock := Some(1), acquired := [1])

  const LATE := TurnCompleted("t", "a")
  const TO_STORING := [] + [Call(1), Lock(1), RpcOk(1, "a"), Push]
  const TO_STARTING := TO_STORING + [Store(1), Abandon(1), Call(2), Lock(2)]
  const TO_CLEARED := TO_STARTING + [RpcOk(2, "b"), Deliver(LATE), Store(2), ClearStore]

  lemma FirstStarts()
    ensures Runs.Exec(Step, FRESH, TO_STORING) == FIRST_STORING
  {
    assert Step(Step(Step(Step(FRESH, Call(1)), Lock(1)), RpcOk(1, "a")), Push) == FIRST_STORING;
    Runs.Reach(Step, FRESH, [], FRESH, Call(1), Lock(1), RpcOk(1, "a"), Push, FIRST_STORING);
  }

  lemma FirstIsAbandoned()
    ensures Runs.Exec(Step, FRESH, TO_STARTING) == SECOND_STARTING
  {
    FirstStarts();
    assert Step(Step(Step(Step(FIRST_STORING, Store(1)), Abandon(1)), Call(2)), Lock(2)) == SECOND_STARTING;
    Runs.Reach(Step, FRESH, TO_STORING, FIRST_STORING, Store(1), Abandon(1), Call(2), Lock(2), SECOND_STARTING);
  }

  lemma SecondIsCleared()
    ensures Runs.Exec(Step, FRESH, TO_CLEARED) == SECOND_CLEARED
  {
    FirstIsAbandoned();
    assert Step(Step(Step(Step(SECOND_STARTING, RpcOk(2, "b")), Deliver(LATE)), Store(2)), ClearStore) == SECOND_CLEARED;
    Runs.Reach(Step, FRESH, TO_STARTING, SECOND_STARTING, RpcOk(2, "b"), Deliver(LATE), Store(2), ClearStore, SECOND_CLEARED);
  }

  /**
   The interleaving that does it: turn "a" is abandoned, turn "b" is being
   started, and the late terminus of "a" wipes out "b" while its stream runs and
   no terminus of "b" has arrived.
   */
  lemma LateTerminusClearsNewTurn()
    ensures exists acts :: Runs.Exec(Step, FRESH, acts) == SECOND_CLEARED
    ensures At(SECOND_CLEARED, 2) == Streaming(1) && SECOND_CLEARED.streams[1].turn == "b"
    ensures SECOND_CLEARED.active == "" && SECOND_CLEARED.accepted == []
  {
    SecondIsCleared();
  }
}
