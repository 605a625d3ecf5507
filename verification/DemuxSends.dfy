/**
 Concurrent Send calls, the read loop's reply routing and Close over one pending
 table (internal/jsonrpc/demux.go, ids.go).
 */
module DemuxSends {
  import opened Basics
  import opened DemuxLoop
  import Runs

  /** What d.mu guards: request id -> the Send call whose reply channel waits for it. */
  datatype Table = Table(pending: map<nat, nat>, closed: bool)

  function Registered(t: Table, id: nat, call: nat): Table {
    if t.closed then t else t.(pending := t.pending[id := call])
  }

  function Forgotten(t: Table, id: nat): Table {
    t.(pending := t.pending - {id})
  }

  /** The Send whose reply channel waits for the id. */
  function Found(t: Table, id: nat): Option<nat> {
    if id in t.pending then Some(t.pending[id]) else None
  }

  function ClosedTable(t: Table): Table {
    Table(map[], true)
  }

  class Demux {
    var lastId: nat
    var pending: map<nat, nat>
    var closed: bool
    var stopped: bool

    ghost function View(): Table
      reads this
    {
      Table(pending, closed)
    }

    ghost predicate Valid()
      reads this
    {
      (closed ==> pending == map[]) && (stopped ==> closed)
    }

    constructor ()
      ensures Valid() && View() == Table(map[], false) && lastId == 0 && !stopped
    {
      lastId, pending, closed, stopped := 0, map[], false, false;
    }

    /** IDAllocator.Next: ids start at 1. */
    method NextId() returns (id: nat)
      modifies this`lastId
      ensures id == lastId == old(lastId) + 1
    {
      lastId := lastId + 1;
      id := lastId;
    }

    method Register(id: nat, call: nat) returns (ok: bool)
      requires Valid()
      modifies this`pending
      ensures Valid()
      ensures ok == !closed && View() == Registered(old(View()), id, call)
    {
      if closed {
        return false;
      }
      pending := pending[id := call];
      return true;
    }

    method Forget(id: nat)
      requires Valid()
      modifies this`pending
      ensures Valid() && View() == Forgotten(old(View()), id)
    {
      pending := pending - {id};
    }

    method Lookup(id: nat) returns (call: Option<nat>)
      ensures call == Found(View(), id)
    {
      call := if id in pending then Some(pending[id]) else None;
    }

    /** Close; the second and later calls find `closed` set and do nothing (stopOnce). */
    method Close()
      requires Valid()
      modifies this`pending, this`closed, this`stopped
      ensures Valid() && View() == ClosedTable(old(View()))
      ensures stopped == if old(closed) then old(stopped) else true
    {
      if closed {
        return;
      }
      closed := true;
      var ids := pending.Keys;
      while ids != {}
        invariant ids == pending.Keys && closed
        decreases ids
      {
        var id :| id in ids;
        pending := pending - {id};
        ids := ids - {id};
      }
      assert pending == map[];
      stopped := true;
    }
  }

  // ------------------------------------------------- interleavings

  datatype Outcome = Got(reply: Reply) | ErrClosed | ErrCancelled | ErrWrite | ErrParams

  /** Where a Send call stands. */
  datatype Phase =
    | Allocated(id: nat)                    // has its id
    | Entered(id: nat)                      // in the pending table, writing its frame
    | Waiting(id: nat)                      // in the select
    | Leaving(id: nat, outcome: Outcome)    // about to run the deferred delete
    | Done(id: nat, outcome: Outcome)

  /** The read loop between looking a reply's channel up and sending into it. */
  datatype Router = Ready | Holding(reply: Reply, call: nat)

  /** `buffers` are the one-slot reply channels; `answered` the ids the server has replied to. */
  datatype State = State(
    lastId: nat,
    table: Table,
    stopped: bool,
    calls: map<nat, Phase>,
    buffers: map<nat, seq<Reply>>,
    router: Router,
    answered: set<nat>)

  datatype Action =
    | Begin(call: nat)
    | RejectParams(call: nat)
    | Enter(call: nat)
    | Written(call: nat)
    | WriteFails(call: nat)
    | TakeReply(call: nat)
    | Cancel(call: nat)
    | SeeStopped(call: nat)
    | Leave(call: nat)
    | ReadReply(reply: Reply)  // a response line arrives and is looked up
    | RouteReply               // ch <- resp
    | CloseTable
    | CloseStopped

  const FRESH := State(0, Table(map[], false), false, map[], map[], Ready, {})

  function Buffer(s: State, call: nat): seq<Reply> {
    if call in s.buffers then s.buffers[call] else []
  }

  function Put(s: State, call: nat, p: Phase): State {
    s.(calls := s.calls[call := p])
  }

  function Step(s: State, a: Action): State {
    match a
    case Begin(c) =>
      if c in s.calls then s else Put(s, c, Allocated(s.lastId + 1)).(lastId := s.lastId + 1)
    case RejectParams(c) =>
      if At(s, c).Allocated? then Put(s, c, Done(At(s, c).id, ErrParams)) else s
    case Enter(c) =>
      if !At(s, c).Allocated? then s
      else if s.table.closed then Put(s, c, Done(At(s, c).id, ErrClosed))
      else Put(s, c, Entered(At(s, c).id)).(table := Registered(s.table, At(s, c).id, c))
    case Written(c) =>
      if At(s, c).Entered? then Put(s, c, Waiting(At(s, c).id)) else s
    case WriteFails(c) =>
      if At(s, c).Entered? then Put(s, c, Leaving(At(s, c).id, ErrWrite)) else s
    case TakeReply(c) =>
      if At(s, c).Waiting? && Buffer(s, c) != [] then
        Put(s, c, Leaving(At(s, c).id, Got(Buffer(s, c)[0]))).(buffers := s.buffers[c := Buffer(s, c)[1..]])
      else s
    case Cancel(c) =>
      if At(s, c).Waiting? then Put(s, c, Leaving(At(s, c).id, ErrCancelled)) else s
    case SeeStopped(c) =>
      if At(s, c).Waiting? && s.stopped then Put(s, c, Leaving(At(s, c).id, ErrClosed)) else s
    case Leave(c) =>
      if At(s, c).Leaving? then
        Put(s, c, Done(At(s, c).id, At(s, c).outcome)).(table := Forgotten(s.table, At(s, c).id))
      else s
    case ReadReply(r) =>
      // The server answers each id at most once (JSON-RPC 2.0, section 5).
      if !s.router.Ready? || r.id in s.answered then s
      else if Found(s.table, r.id).Some? then
        s.(router := Holding(r, Found(s.table, r.id).value), answered := s.answered + {r.id})
      else s.(answered := s.answered + {r.id})
    case RouteReply =>
      if s.router.Holding? && |Buffer(s, s.router.call)| < 1 then
        s.(router := Ready, buffers := s.buffers[s.router.call := Buffer(s, s.router.call) + [s.router.reply]])
      else s
    case CloseTable =>
      s.(table := ClosedTable(s.table))
    case CloseStopped =>
      if s.table.closed then s.(stopped := true) else s
  }

  /** The critical sections of the calls, the read loop and Close are the demux's methods. */
  lemma SectionsAreMethods(s: State, c: nat, r: Reply)
    ensures At(s, c).Allocated? ==> Step(s, Enter(c)).table == Registered(s.table, At(s, c).id, c)
    ensures At(s, c).Leaving? ==> Step(s, Leave(c)).table == Forgotten(s.table, At(s, c).id)
    ensures s.router.Ready? && r.id !in s.answered ==>
              Step(s, ReadReply(r)).router ==
              if Found(s.table, r.id).Some? then Holding(r, Found(s.table, r.id).value) else Ready
    ensures Step(s, CloseTable).table == ClosedTable(s.table)
  {
  }

  /** A call that has not begun is nowhere: it counts as Done. */
  function At(s: State, call: nat): Phase {
    if call in s.calls then s.calls[call] else Done(0, ErrClosed)
  }

  predicate InFlight(p: Phase) {
    p.Entered? || p.Waiting? || p.Leaving?
  }

  predicate HasReply(p: Phase) {
    (p.Leaving? || p.Done?) && p.outcome.Got?
  }

  ghost predicate IdsDistinct(s: State) {
    && (forall c :: c in s.calls ==> 1 <= s.calls[c].id <= s.lastId)
    && (forall c, d :: c in s.calls && d in s.calls && s.calls[c].id == s.calls[d].id ==> c == d)
  }

  ghost predicate TableSound(s: State) {
    && (forall id :: id in s.table.pending ==>
          var c := s.table.pending[id]; c in s.calls && s.calls[c].id == id && InFlight(s.calls[c]))
    && (!s.table.closed ==> forall c :: c in s.calls && InFlight(s.calls[c]) ==>
          s.calls[c].id in s.table.pending && s.table.pending[s.calls[c].id] == c)
    && (s.table.closed ==> s.table.pending == map[])
    && (s.stopped ==> s.table.closed)
  }

  ghost predicate RepliesSound(s: State) {
    && (forall c :: c in s.buffers ==>
          && c in s.calls && |s.buffers[c]| <= 1
          && (s.buffers[c] != [] ==> s.buffers[c][0].id == s.calls[c].id && s.calls[c].id in s.answered))
    && (forall c :: c in s.calls && HasReply(s.calls[c]) ==>
          && s.calls[c].outcome.reply.id == s.calls[c].id && s.calls[c].id in s.answered
          && Buffer(s, c) == [])
    && (s.router.Holding? ==>
          && s.router.call in s.calls && s.router.reply.id == s.calls[s.router.call].id
          && s.router.reply.id in s.answered
          && Buffer(s, s.router.call) == [] && !HasReply(s.calls[s.router.call]))
  }

  ghost predicate Inv(s: State) {
    IdsDistinct(s) && TableSound(s) && RepliesSound(s)
  }

  lemma StepKeepsIds(s: State, a: Action)
    requires IdsDistinct(s)
    ensures IdsDistinct(Step(s, a))
  {
    var s' := Step(s, a);
    if !a.Begin? {
      assert s'.lastId == s.lastId;
      forall c | c in s'.calls ensures c in s.calls && s'.calls[c].id == s.calls[c].id {
        IdStays(s, a, c);
      }
    }
  }

  lemma IdStays(s: State, a: Action, c: nat)
    requires !a.Begin? && c in Step(s, a).calls
    ensures c in s.calls && Step(s, a).calls[c].id == s.calls[c].id
  {
  }

  lemma EnterKeepsTable(s: State, call: nat)
    requires IdsDistinct(s) && TableSound(s)
    ensures TableSound(Step(s, Enter(call)))
  {
  }

  lemma LeaveKeepsTable(s: State, call: nat)
    requires IdsDistinct(s) && TableSound(s)
    ensures TableSound(Step(s, Leave(call)))
  {
  }

  /** Entering and leaving aside, a call is in flight after a step exactly if it was before. */
  lemma StaysInFlight(s: State, a: Action, c: nat)
    requires !a.Enter? && !a.Leave?
    ensures InFlight(At(Step(s, a), c)) <==> InFlight(At(s, c))
    ensures c in s.calls ==> c in Step(s, a).calls && Step(s, a).calls[c].id == s.calls[c].id
  {
  }

  lemma RestKeepsTable(s: State, a: Action)
    requires TableSound(s) && !a.Enter? && !a.Leave?
    ensures TableSound(Step(s, a))
  {
    var s' := Step(s, a);
    assert s'.table == s.table || s'.table == Table(map[], true);
    assert s'.stopped ==> s'.table.closed;
    forall c ensures InFlight(At(s', c)) <==> InFlight(At(s, c))
      ensures c in s.calls ==> c in s'.calls && s'.calls[c].id == s.calls[c].id
    {
      StaysInFlight(s, a, c);
    }
    assert forall c :: c in s'.calls && InFlight(s'.calls[c]) ==> InFlight(At(s, c)) && c in s.calls;
  }

  lemma StepKeepsTable(s: State, a: Action)
    requires IdsDistinct(s) && TableSound(s)
    ensures TableSound(Step(s, a))
  {
    if a.Enter? {
      EnterKeepsTable(s, a.call);
    } else if a.Leave? {
      LeaveKeepsTable(s, a.call);
    } else {
      RestKeepsTable(s, a);
    }
  }

  /** A call that keeps its id and gains no reply disturbs no reply. */
  lemma CallMoves(s: State, s': State, call: nat, p: Phase)
    requires RepliesSound(s)
    requires (s'.buffers, s'.router, s'.answered) == (s.buffers, s.router, s.answered)
    requires s'.calls == s.calls[call := p]
    requires call in s.calls ==> p.id == s.calls[call].id
    requires HasReply(p) ==> call in s.calls && HasReply(s.calls[call]) && p.outcome == s.calls[call].outcome
    ensures RepliesSound(s')
  {
  }

  lemma MoveKeepsReplies(s: State, a: Action)
    requires Inv(s) && !a.TakeReply? && !a.ReadReply? && !a.RouteReply?
    ensures RepliesSound(Step(s, a))
  {
    var s' := Step(s, a);
    CallAction(s, a);
    if s'.calls != s.calls {
      CallMoves(s, s', a.call, s'.calls[a.call]);
    }
  }

  /** What a call does on its own, but for taking its reply. */
  lemma CallAction(s: State, a: Action)
    requires !a.TakeReply? && !a.ReadReply? && !a.RouteReply?
    ensures var s' := Step(s, a);
            && (s'.buffers, s'.router, s'.answered) == (s.buffers, s.router, s.answered)
            && (s'.calls == s.calls ||
                (!a.CloseTable? && !a.CloseStopped? && a.call in s'.calls
                 && s'.calls == s.calls[a.call := s'.calls[a.call]]
                 && (a.call in s.calls ==> s'.calls[a.call].id == s.calls[a.call].id)
                 && (HasReply(s'.calls[a.call]) ==>
                       a.call in s.calls && HasReply(s.calls[a.call]) && s'.calls[a.call].outcome == s.calls[a.call].outcome)))
  {
  }

  lemma TakeKeepsReplies(s: State, call: nat)
    requires Inv(s)
    ensures RepliesSound(Step(s, TakeReply(call)))
  {
  }

  lemma ReadKeepsReplies(s: State, reply: Reply)
    requires Inv(s)
    ensures RepliesSound(Step(s, ReadReply(reply)))
  {
    assert Step(s, ReadReply(reply)).buffers == s.buffers && Step(s, ReadReply(reply)).calls == s.calls;
  }

  lemma RouteKeepsReplies(s: State)
    requires Inv(s)
    ensures RepliesSound(Step(s, RouteReply))
  {
  }

  lemma StepKeepsInv(s: State, a: Action)
    requires Inv(s)
    ensures Inv(Step(s, a))
  {
    StepKeepsIds(s, a);
    StepKeepsTable(s, a);
    if a.TakeReply? {
      TakeKeepsReplies(s, a.call);
    } else if a.ReadReply? {
      ReadKeepsReplies(s, a.reply);
    } else if a.RouteReply? {
      RouteKeepsReplies(s);
    } else {
      MoveKeepsReplies(s, a);
    }
  }

  lemma Reachable(acts: seq<Action>)
    ensures Inv(Runs.Exec(Step, FRESH, acts))
  {
    forall s, a | Inv(s) ensures Inv(Step(s, a)) {
      StepKeepsInv(s, a);
    }
    Runs.Invariant(Step, Inv, FRESH, acts);
  }

  /** A Send that returns a response returns the one carrying its own id. */
  lemma OwnReplyOnly(acts: seq<Action>, call: nat)
    ensures var p := At(Runs.Exec(Step, FRESH, acts), call);
            HasReply(p) ==> p.outcome.reply.id == p.id
  {
    Reachable(acts);
  }

  // ------------------------------------------------- every reply reaches its call

  /** The reply that action a has the read loop look up for call c, if it does. */
  function LookedUp(s: State, a: Action, c: nat): seq<Reply> {
    if a.ReadReply? && s.router.Ready? && a.reply.id !in s.answered
       && a.reply.id in s.table.pending && s.table.pending[a.reply.id] == c then [a.reply]
    else []
  }

  /** The replies that arrived for call c while it was pending. */
  ghost function Arrived(acts: seq<Action>, c: nat): seq<Reply> {
    if acts == [] then []
    else
      var n := |acts| - 1;
      Arrived(acts[..n], c) + LookedUp(Runs.Exec(Step, FRESH, acts[..n]), acts[n], c)
  }

  function Routing(s: State, c: nat): seq<Reply> {
    if s.router.Holding? && s.router.call == c then [s.router.reply] else []
  }

  function Taken(s: State, c: nat): seq<Reply> {
    if HasReply(At(s, c)) then [At(s, c).outcome.reply] else []
  }

  lemma ReadMoves(s: State, r: Reply, c: nat)
    ensures var t := Step(s, ReadReply(r));
            && Taken(t, c) == Taken(s, c) && Buffer(t, c) == Buffer(s, c)
            && Routing(t, c) == Routing(s, c) + LookedUp(s, ReadReply(r), c)
  {
    assert Step(s, ReadReply(r)).calls == s.calls && Step(s, ReadReply(r)).buffers == s.buffers;
  }

  lemma RouteMoves(s: State, c: nat)
    ensures var t := Step(s, RouteReply);
            Taken(t, c) == Taken(s, c) && Buffer(t, c) + Routing(t, c) == Buffer(s, c) + Routing(s, c)
  {
    assert Step(s, RouteReply).calls == s.calls;
  }

  lemma TakeMoves(s: State, call: nat, c: nat)
    ensures var t := Step(s, TakeReply(call));
            Taken(t, c) + Buffer(t, c) == Taken(s, c) + Buffer(s, c) && Routing(t, c) == Routing(s, c)
  {
    if At(s, call).Waiting? && Buffer(s, call) != [] && call == c {
      assert Buffer(s, c) == [Buffer(s, c)[0]] + Buffer(s, c)[1..];
    }
  }

  lemma OthersMoveNone(s: State, a: Action, c: nat)
    requires !a.ReadReply? && !a.RouteReply? && !a.TakeReply?
    ensures var t := Step(s, a);
            Taken(t, c) == Taken(s, c) && Buffer(t, c) == Buffer(s, c) && Routing(t, c) == Routing(s, c)
  {
    CallAction(s, a);
  }

  lemma ReplyMoves(s: State, a: Action, c: nat)
    ensures var t := Step(s, a);
            Taken(t, c) + Buffer(t, c) + Routing(t, c) ==
            Taken(s, c) + Buffer(s, c) + Routing(s, c) + LookedUp(s, a, c)
  {
    var t := Step(s, a);
    if a.ReadReply? {
      ReadMoves(s, a.reply, c);
      Regroup(Taken(s, c) + Buffer(s, c), Routing(s, c), LookedUp(s, a, c));
    } else if a.RouteReply? {
      RouteMoves(s, c);
      Regroup(Taken(s, c), Buffer(s, c), Routing(s, c));
      Regroup(Taken(t, c), Buffer(t, c), Routing(t, c));
    } else if a.TakeReply? {
      TakeMoves(s, a.call, c);
    } else {
      OthersMoveNone(s, a, c);
    }
  }

  /** No reply is lost: what arrived for a call is what it returned, or is in its channel, or about to be. */
  lemma {:induction false} NoReplyLost(acts: seq<Action>, c: nat)
    ensures var s := Runs.Exec(Step, FRESH, acts);
            Arrived(acts, c) == Taken(s, c) + Buffer(s, c) + Routing(s, c)
    decreases |acts|
  {
    if acts != [] {
      var n := |acts| - 1;
      NoReplyLost(acts[..n], c);
      ReplyMoves(Runs.Exec(Step, FRESH, acts[..n]), acts[n], c);
    }
  }

  /** A waiting Send whose reply has arrived returns exactly that reply. */
  lemma AnsweredSendReturns(acts: seq<Action>, c: nat)
    requires At(Runs.Exec(Step, FRESH, acts), c).Waiting? && Arrived(acts, c) != []
    ensures var s := Runs.Exec(Step, FRESH, acts);
            && |Arrived(acts, c)| == 1 && Arrived(acts, c)[0].id == At(s, c).id
            && At(Step(Step(s, RouteReply), TakeReply(c)), c) == Leaving(At(s, c).id, Got(Arrived(acts, c)[0]))
  {
    var s := Runs.Exec(Step, FRESH, acts);
    assert RepliesSound(s) by {
      Reachable(acts);
    }
    NoReplyLost(acts, c);
    assert Arrived(acts, c) == Buffer(s, c) + Routing(s, c);
    WaitingTakes(s, c, Arrived(acts, c));
  }

  lemma WaitingTakes(s: State, c: nat, arrived: seq<Reply>)
    requires RepliesSound(s) && At(s, c).Waiting? && arrived == Buffer(s, c) + Routing(s, c) && arrived != []
    ensures |arrived| == 1 && arrived[0].id == At(s, c).id
    ensures At(Step(Step(s, RouteReply), TakeReply(c)), c) == Leaving(At(s, c).id, Got(arrived[0]))
  {
    var t := Step(s, RouteReply);
    RouteMoves(s, c);
    if Routing(s, c) == [] {
      assert arrived == Buffer(s, c) && Buffer(t, c) == Buffer(s, c);
    } else {
      assert Buffer(s, c) == [] && arrived == Routing(s, c) && Buffer(t, c) == arrived;
    }
  }

  /** Why a call ends as it does. */
  ghost predicate Explained(s: State, acts: seq<Action>, c: nat) {
    var p := At(s, c);
    c in s.calls && (p.Leaving? || p.Done?) ==>
      match p.outcome
      case Got(r) => r in Arrived(acts, c)
      case ErrClosed => s.table.closed
      case ErrCancelled => Cancel(c) in acts
      case ErrWrite => WriteFails(c) in acts
      case ErrParams => RejectParams(c) in acts
  }

  /** The outcome a step gives a call that had none. */
  lemma OutcomeOf(s: State, a: Action, c: nat)
    ensures var p, q := At(s, c), At(Step(s, a), c);
            && (c in Step(s, a).calls && c !in s.calls ==> q.Allocated?)
            && (c in s.calls && (p.Leaving? || p.Done?) ==> (q.Leaving? || q.Done?) && q.outcome == p.outcome)
            && (c in s.calls && !p.Leaving? && !p.Done? && (q.Leaving? || q.Done?) ==>
                  || q.outcome.Got?
                  || (q.outcome.ErrClosed? && s.table.closed)
                  || (q.outcome.ErrClosed? && s.stopped)
                  || (q.outcome.ErrCancelled? && a == Cancel(c))
                  || (q.outcome.ErrWrite? && a == WriteFails(c))
                  || (q.outcome.ErrParams? && a == RejectParams(c)))
            && (s.table.closed ==> Step(s, a).table.closed)
            && (c in Step(s, a).calls || c !in s.calls)
  {
  }

  lemma StepExplained(s: State, acts: seq<Action>, a: Action, c: nat)
    requires Explained(s, acts, c) && (s.stopped ==> s.table.closed)
    requires HasReply(At(Step(s, a), c)) ==> At(Step(s, a), c).outcome.reply in Arrived(acts + [a], c)
    ensures Explained(Step(s, a), acts + [a], c)
  {
    OutcomeOf(s, a, c);
    assert a in acts + [a] && forall x :: x in acts ==> x in acts + [a];
  }

  lemma TakenArrived(acts: seq<Action>, c: nat)
    ensures var p := At(Runs.Exec(Step, FRESH, acts), c); HasReply(p) ==> p.outcome.reply in Arrived(acts, c)
  {
    NoReplyLost(acts, c);
    var s := Runs.Exec(Step, FRESH, acts);
    if HasReply(At(s, c)) {
      assert Taken(s, c)[0] == At(s, c).outcome.reply && Arrived(acts, c)[0] == Taken(s, c)[0];
    }
  }

  /**
   A response is one that arrived for this call; and without one, a Send fails
   because the demux is closed, its context is done, its write failed or its
   parameters do not marshal, and says which.
   */
  lemma {:induction false} OutcomesExplained(acts: seq<Action>, c: nat)
    ensures Explained(Runs.Exec(Step, FRESH, acts), acts, c)
    decreases |acts|
  {
    if acts != [] {
      var n := |acts| - 1;
      OutcomesExplained(acts[..n], c);
      Reachable(acts[..n]);
      TakenArrived(acts, c);
      assert acts == acts[..n] + [acts[n]];
      StepExplained(Runs.Exec(Step, FRESH, acts[..n]), acts[..n], acts[n], c);
    }
  }

  const SENT := State(1, Table(map[1 := 0], false), false, map[0 := Waiting(1)], map[], Ready, {})
  const TO_SENT := [Begin(0), Enter(0), Written(0)]

  lemma FirstSends()
    ensures Runs.Exec(Step, FRESH, TO_SENT) == SENT
  {
    assert TO_SENT == [] + [Begin(0), Enter(0), Written(0)];
    Runs.Follow(Step, FRESH, TO_SENT);
    assert TO_SENT[1..] == [Enter(0), Written(0)];
    var s := Step(FRESH, Begin(0));
    Runs.Follow(Step, s, [Enter(0), Written(0)]);
    assert [Enter(0), Written(0)][1..] == [Written(0)];
    Runs.Follow(Step, Step(s, Enter(0)), [Written(0)]);
    assert Step(Step(s, Enter(0)), Written(0)) == SENT;
  }

  lemma FirstIsAnswered()
    ensures Step(Step(Step(Step(SENT, ReadReply(Reply(1, "ok"))), RouteReply), TakeReply(0)), Leave(0)) ==
            State(1, Table(map[], false), false, map[0 := Done(1, Got(Reply(1, "ok")))], map[0 := []], Ready, {1})
  {
    var r := Reply(1, "ok");
    var routed := Step(Step(SENT, ReadReply(r)), RouteReply);
    assert routed.buffers == map[0 := [r]] by {
      assert Buffer(SENT, 0) + [r] == [r];
    }
    assert [r][1..] == [];
    assert map[1 := 0] - {1} == map[];
  }

  /** A run in which a Send gets its response. */
  lemma SendGetsResponse()
    ensures exists acts :: At(Runs.Exec(Step, FRESH, acts), 0) == Done(1, Got(Reply(1, "ok")))
  {
    FirstSends();
    FirstIsAnswered();
    Runs.Four(Step, FRESH, TO_SENT, ReadReply(Reply(1, "ok")), RouteReply, TakeReply(0), Leave(0));
  }

  /** The read loop never blocks on a reply channel, and no channel ever holds two replies. */
  lemma RoutingNeverBlocks(acts: seq<Action>)
    ensures var s := Runs.Exec(Step, FRESH, acts);
            && (s.router.Holding? ==> Step(s, RouteReply).router.Ready?)
            && forall c :: |Buffer(s, c)| <= 1
  {
    Reachable(acts);
  }

  /**
   What the read loop's lookup means: until Close takes the table, an id is pending
   exactly while some Send with that id is in flight, and it is that Send which the
   lookup finds; afterwards it finds none.
   */
  lemma PendingIffInFlight(acts: seq<Action>, id: nat)
    ensures var s := Runs.Exec(Step, FRESH, acts);
            && (id in s.table.pending <==>
                  !s.table.closed && exists c :: c in s.calls && InFlight(s.calls[c]) && s.calls[c].id == id)
            && (forall c :: id in s.table.pending && c in s.calls && s.calls[c].id == id ==> s.table.pending[id] == c)
  {
    Reachable(acts);
  }

  /** Two calls that have begun never share an id, however they interleave. */
  lemma DistinctIds(acts: seq<Action>, c: nat, d: nat)
    ensures var s := Runs.Exec(Step, FRESH, acts);
            c != d && c in s.calls && d in s.calls ==> s.calls[c].id != s.calls[d].id
  {
    Reachable(acts);
  }

  /** Once Close has taken the table, no further Send registers, whatever happens next. */
  lemma NoRegistrationAfterClose(acts: seq<Action>, more: seq<Action>, call: nat)
    requires Runs.Exec(Step, FRESH, acts).table.closed
    ensures var s, t := Runs.Exec(Step, FRESH, acts), Runs.Exec(Step, FRESH, acts + more);
            && t.table == Table(map[], true)
            && (InFlight(At(t, call)) ==> InFlight(At(s, call)))
  {
    var s := Runs.Exec(Step, FRESH, acts);
    Reachable(acts);
    var kept := (t: State) => t.table == Table(map[], true) && (InFlight(At(t, call)) ==> InFlight(At(s, call)));
    forall t, a | kept(t) ensures kept(Step(t, a)) {
      if a.Leave? {
        assert t.table.pending - {At(t, a.call).id} == map[];
      }
    }
    assert kept(s);
    Runs.Invariant(Step, kept, s, more);
    Runs.Split(Step, FRESH, acts, more);
  }

  function Rank(p: Phase): nat {
    match p
    case Allocated(_) => 4
    case Entered(_) => 3
    case Waiting(_) => 2
    case Leaving(_, _) => 1
    case Done(_, _) => 0
  }

  /** The move a call can make on its own once the demux is stopped. */
  function WayOut(s: State, call: nat): Action {
    match At(s, call)
    case Allocated(_) => Enter(call)
    case Entered(_) => WriteFails(call)  // its writer is closed
    case Waiting(_) => SeeStopped(call)
    case _ => Leave(call)
  }

  /**
   After Close no Send stays waiting: every call that has not returned has a move
   of its own, and every move of any party leaves it no further from returning,
   so four moves of its own are always enough.
   */
  lemma StoppedSendsDrain(acts: seq<Action>, call: nat, a: Action)
    requires Runs.Exec(Step, FRESH, acts).stopped && call in Runs.Exec(Step, FRESH, acts).calls
    ensures var s := Runs.Exec(Step, FRESH, acts);
            && (!At(s, call).Done? ==> Rank(At(Step(s, WayOut(s, call)), call)) < Rank(At(s, call)))
            && Rank(At(Step(s, a), call)) <= Rank(At(s, call)) <= 4
            && Step(s, a).stopped
  {
    var s := Runs.Exec(Step, FRESH, acts);
    assert TableSound(s) by {
      Reachable(acts);
    }
    RankFalls(s, call, a);
  }

  lemma RankFalls(s: State, call: nat, a: Action)
    requires s.stopped && s.table.closed && call in s.calls
    ensures !At(s, call).Done? ==> Rank(At(Step(s, WayOut(s, call)), call)) < Rank(At(s, call))
    ensures Rank(At(Step(s, a), call)) <= Rank(At(s, call)) <= 4
    ensures Step(s, a).stopped
  {
  }

  /** What the code of a call can do next; its context may be done at any time while it waits. */
  predicate NextOf(s: State, call: nat, a: Action) {
    match At(s, call)
    case Allocated(_) => a == RejectParams(call) || a == Enter(call)
    case Entered(_) => a == Written(call) || a == WriteFails(call)
    case Waiting(_) =>
      || a == Cancel(call)
      || (a == TakeReply(call) && Buffer(s, call) != [])
      || (a == SeeStopped(call) && s.stopped)
    case Leaving(_, _) => a == Leave(call)
    case Done(_, _) => false
  }

  /** Every one of these moves brings the call nearer to its return. */
  lemma EveryMoveCounts(s: State, call: nat, a: Action)
    requires NextOf(s, call, a)
    ensures Rank(At(Step(s, a), call)) < Rank(At(s, call))
  {
  }

  lemma {:induction false} StoppedCallReturns(s: State, call: nat) returns (more: seq<Action>)
    requires s.stopped && s.table.closed && call in s.calls
    ensures At(Runs.Exec(Step, s, more), call).Done? && Cancel(call) !in more
    decreases Rank(At(s, call))
  {
    if At(s, call).Done? {
      return [];
    }
    var a := WayOut(s, call);
    RankFalls(s, call, a);
    StaysKnown(s, a, call);
    var rest := StoppedCallReturns(Step(s, a), call);
    more := [a] + rest;
    assert more[1..] == rest;
    Runs.Follow(Step, s, more);
  }

  lemma StaysKnown(s: State, a: Action, call: nat)
    requires call in s.calls
    ensures call in Step(s, a).calls && (s.table.closed ==> Step(s, a).table.closed)
  {
  }

  /** Whatever a Send was doing when Close took the table, it can return without its context being done. */
  lemma CloseEndsSends(acts: seq<Action>, call: nat) returns (more: seq<Action>)
    requires var s := Runs.Exec(Step, FRESH, acts); s.table.closed && call in s.calls
    ensures At(Runs.Exec(Step, FRESH, acts + [CloseStopped] + more), call).Done?
    ensures Cancel(call) !in more
  {
    var s := Runs.Exec(Step, FRESH, acts);
    Runs.Split(Step, FRESH, acts, [CloseStopped]);
    Runs.Follow(Step, s, [CloseStopped]);
    more := StoppedCallReturns(Step(s, CloseStopped), call);
    Runs.Split(Step, FRESH, acts + [CloseStopped], more);
  }
}
