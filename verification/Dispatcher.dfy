/**
 The dispatcher (client_dispatch.go): one goroutine that turns queued messages
 into thread state, approval context, approval answers and subscriber streams.
 */
module Dispatcher {
  import opened Basics
  import opened DemuxLoop
  import opened Events
  import opened Subscribers
  import opened FileApprovals
  import Runs

  /** events.ParseEvent: an event, or an error with whatever thread id the payload shows. */
  datatype Parsed = Parsed(ev: ThreadEvent) | Unparsable(thread: string)

  /** events.ParseApprovalRequest */
  datatype ApprovalPrompt =
    | Unreadable
    | FileChange(key: Key, root: Option<string>, inline: FileChangePart, claimed: seq<FileChangePart>)
    | OtherPrompt

  datatype Parsers = Parsers(event: (string, string) -> Parsed, approval: (string, string) -> ApprovalPrompt)

  /** How a server request was answered. */
  datatype Answer =
    | ErrorReply(id: nat)
    | DefaultDeny(id: nat)
    | AskedUser(id: nat, shown: seq<FileChangePart>)

  // ------------------------------------------------- what one message does

  /** Its effect on every live subscription. */
  function EffectOn(ps: Parsers, m: Message): seq<Action> {
    match m
    case Gap => [Fail(StreamGap("", LostFrame))]
    case Request(_, _, _) => []
    case Note(verb, body) =>
      match ps.event(verb, body)
      case Unparsable(thread) => [Fail(StreamGap(thread, ParseFailure(verb)))]
      case Parsed(ev) =>
        if ev.thread != "" then [Deliver(Delivery(ev.thread, ev))]
        else if IdentityRequired(ev) then [Fail(StreamGap("", MissingIdentity(verb)))]
        else []
  }

  /** Its entry in the approval history. */
  function EntryOf(ps: Parsers, m: Message): seq<Entry> {
    var e := EffectOn(ps, m);
    if e == [] then []
    else if e[0].Deliver? && e[0].e.Delivery? then [Happened(e[0].e.event)]
    else [Cleared]
  }

  function AnswerTo(ps: Parsers, cache: Cache, callback: bool, m: Message): seq<Answer> {
    if !m.Request? then []
    else match ps.approval(m.verb, m.body)
      case Unreadable => [ErrorReply(m.id)]
      case FileChange(key, root, inline, _) =>
        if callback && Resolvable(cache, key, root, inline) then [AskedUser(m.id, Shown(cache, key, inline))]
        else [DefaultDeny(m.id)]
      case OtherPrompt => if callback then [AskedUser(m.id, [])] else [DefaultDeny(m.id)]
  }

  /** What an event does to the registered threads: its own thread is handed it. */
  function ThreadsAfter(ts: map<string, seq<ThreadEvent>>, effect: seq<Action>): map<string, seq<ThreadEvent>> {
    if effect != [] && effect[0].Deliver? && effect[0].e.Delivery? && effect[0].e.thread in ts then
      ts[effect[0].e.thread := ts[effect[0].e.thread] + [effect[0].e.event]]
    else ts
  }

  /** The registered threads after all the messages. */
  function HandedAll(ps: Parsers, ts: map<string, seq<ThreadEvent>>, ms: seq<Message>): map<string, seq<ThreadEvent>> {
    if ms == [] then ts else ThreadsAfter(HandedAll(ps, ts, ms[..|ms| - 1]), EffectOn(ps, ms[|ms| - 1]))
  }

  function AfterEntries(m: Cache, es: seq<Entry>): Cache {
    if es == [] then m else AfterEntry(m, es[0])
  }

  function StepAll(s: Stream, effect: seq<Action>): Stream {
    if effect == [] then s else Step(s, effect[0])
  }

  function Effects(ps: Parsers, ms: seq<Message>): seq<Action> {
    if ms == [] then [] else Effects(ps, ms[..|ms| - 1]) + EffectOn(ps, ms[|ms| - 1])
  }

  function History(ps: Parsers, ms: seq<Message>): seq<Entry> {
    if ms == [] then [] else History(ps, ms[..|ms| - 1]) + EntryOf(ps, ms[|ms| - 1])
  }

  /** Each request is answered from the context that the messages before it left. */
  function Answers(ps: Parsers, callback: bool, ms: seq<Message>): seq<Answer> {
    if ms == [] then []
    else Answers(ps, callback, ms[..|ms| - 1]) +
         AnswerTo(ps, CacheAfter(History(ps, ms[..|ms| - 1])), callback, ms[|ms| - 1])
  }

  // ------------------------------------------------- the client

  /** The publish loop over a snapshot of the table; `gone` are those it closed or found closed. */
  method OfferAll(subs: map<nat, Subscriber>, e: Envelope) returns (gone: set<nat>)
    requires forall id :: id in subs ==> subs[id].Valid()
    requires forall i, j :: i in subs && j in subs && i != j ==> subs[i] != subs[j]
    modifies subs.Values
    ensures gone <= subs.Keys
    ensures forall id :: id in subs ==>
              && subs[id].Valid() && subs[id].View() == Delivered(old(subs[id].View()), e)
              && (id in gone <==> subs[id].closed)
  {
    gone := {};
    var todo := subs.Keys;
    while todo != {}
      invariant todo <= subs.Keys
      invariant forall id :: id in subs ==> subs[id].Valid()
      invariant forall id :: id in todo ==> subs[id].View() == old(subs[id].View())
      invariant forall id :: id in subs && id !in todo ==> subs[id].View() == Delivered(old(subs[id].View()), e)
      invariant gone <= subs.Keys - todo
      invariant forall id :: id in subs && id !in todo ==> (id in gone <==> subs[id].closed)
      decreases todo
    {
      var id :| id in todo;
      var ok := subs[id].Deliver(e);
      if !ok {
        gone := gone + {id};
      }
      todo := todo - {id};
    }
  }

  /** The fail loop over a snapshot of the table; `gone` are those it closed. */
  method FailAll(subs: map<nat, Subscriber>, gap: Envelope) returns (gone: set<nat>)
    requires forall id :: id in subs ==> subs[id].Valid()
    requires forall i, j :: i in subs && j in subs && i != j ==> subs[i] != subs[j]
    modifies subs.Values
    ensures gone <= subs.Keys
    ensures forall id :: id in subs ==>
              && subs[id].Valid() && subs[id].View() == Failed(old(subs[id].View()), gap)
              && (id in gone <==> !old(subs[id].closed))
  {
    ghost var open := set id | id in subs && !subs[id].closed;
    gone := {};
    var todo := subs.Keys;
    while todo != {}
      invariant todo <= subs.Keys
      invariant forall id :: id in subs ==> subs[id].Valid()
      invariant forall id :: id in todo ==> subs[id].View() == old(subs[id].View())
      invariant forall id :: id in subs && id !in todo ==> subs[id].View() == Failed(old(subs[id].View()), gap)
      invariant gone == open - todo
      decreases todo
    {
      var id :| id in todo;
      var failed := subs[id].Fail(gap);
      if failed {
        gone := gone + {id};
      }
      todo := todo - {id};
    }
  }

  lemma ExecEffect(was: Stream, done: seq<Action>, ps: Parsers, m: Message)
    ensures Runs.Exec(Step, was, done + EffectOn(ps, m)) == StepAll(Runs.Exec(Step, was, done), EffectOn(ps, m))
  {
    var e := EffectOn(ps, m);
    if e == [] {
      assert done + e == done;
    } else {
      assert (done + e)[..|done + e| - 1] == done;
    }
  }

  /** What an unexpected end of the source puts at the end of every stream. */
  const SOURCE_GAP := StreamGap("", SourceClosed)

  /** A stream once the dispatcher has exited. */
  function Ended(s: Stream, lost: bool): Stream {
    (if lost then Failed(s, SOURCE_GAP) else s).(closed := true)
  }

  /** All that handling `ms` amounts to. */
  ghost predicate Outcome(ps: Parsers, callback: bool, ms: seq<Message>,
                          effects: seq<Action>, answers: seq<Answer>, cache: Cache)
  {
    && effects == Effects(ps, ms)
    && answers == Answers(ps, callback, ms)
    && cache == CacheAfter(History(ps, ms))
  }

  lemma CacheSnoc(h: seq<Entry>, e: seq<Entry>)
    requires |e| <= 1
    ensures CacheAfter(h + e) == AfterEntries(CacheAfter(h), e)
  {
    if e == [] {
      assert h + e == h;
    } else {
      assert (h + e)[..|h + e| - 1] == h;
    }
  }

  lemma OneMore(ps: Parsers, callback: bool, ms: seq<Message>, m: Message)
    ensures Effects(ps, ms + [m]) == Effects(ps, ms) + EffectOn(ps, m)
    ensures History(ps, ms + [m]) == History(ps, ms) + EntryOf(ps, m)
    ensures Answers(ps, callback, ms + [m]) ==
            Answers(ps, callback, ms) + AnswerTo(ps, CacheAfter(History(ps, ms)), callback, m)
  {
    assert (ms + [m])[..|ms + [m]| - 1] == ms;
  }

  lemma HandedOneMore(ps: Parsers, ts: map<string, seq<ThreadEvent>>, ms: seq<Message>, m: Message)
    ensures HandedAll(ps, ts, ms + [m]) == ThreadsAfter(HandedAll(ps, ts, ms), EffectOn(ps, m))
  {
    assert (ms + [m])[..|ms + [m]| - 1] == ms;
  }

  lemma OutcomeStep(ps: Parsers, callback: bool, ms: seq<Message>, m: Message,
                    effects: seq<Action>, answers: seq<Answer>, cache: Cache)
    requires Outcome(ps, callback, ms, effects, answers, cache)
    ensures Outcome(ps, callback, ms + [m], effects + EffectOn(ps, m),
                    answers + AnswerTo(ps, cache, callback, m), AfterEntries(cache, EntryOf(ps, m)))
  {
    OneMore(ps, callback, ms, m);
    CacheSnoc(History(ps, ms), EntryOf(ps, m));
  }

  class Client {
    var threadEventSubscribers: map<nat, Subscriber>
    var nextThreadEventSubscriberID: nat
    var threads: map<string, seq<ThreadEvent>>  // registered threads, with what each was handed
    var routing: bool                           // the table exists: Close has not dropped it
    var latestThreadID: string
    const approvals: FileApprovalCache
    var answers: seq<Answer>
    var connected: bool
    var closed: bool
    const parsers: Parsers
    const callback: bool  // an ApprovalCallback is configured

    ghost predicate Valid()
      reads this, threadEventSubscribers.Values
    {
      && (forall id :: id in threadEventSubscribers ==>
            id <= nextThreadEventSubscriberID && threadEventSubscribers[id].Valid())
      && (forall i, j :: i in threadEventSubscribers && j in threadEventSubscribers && i != j ==>
            threadEventSubscribers[i] != threadEventSubscribers[j])
    }

    constructor (parsers: Parsers, callback: bool)
      ensures Valid() && threadEventSubscribers == map[] && threads == map[] && fresh(approvals)
      ensures approvals.fileApprovals == map[] && answers == [] && !closed && connected && routing
      ensures this.parsers == parsers && this.callback == callback
    {
      threadEventSubscribers, nextThreadEventSubscriberID := map[], 0;
      threads, latestThreadID, answers := map[], "", [];
      connected, closed, routing := true, false, true;
      this.parsers, this.callback := parsers, callback;
      approvals := new FileApprovalCache();
    }

    /** Once Close has dropped the table, nothing is registered any more. */
    method RegisterThread(id: string)
      modifies this`threads, this`latestThreadID
      ensures threads == if routing then old(threads)[id := []] else old(threads)
      ensures latestThreadID == if routing then id else old(latestThreadID)
    {
      if routing {
        threads, latestThreadID := threads[id := []], id;
      }
    }

    method UnregisterThread(id: string)
      modifies this`threads, this`latestThreadID
      ensures threads == old(threads) - {id}
      ensures latestThreadID == if old(latestThreadID) == id then "" else old(latestThreadID)
    {
      threads := threads - {id};
      if latestThreadID == id {
        latestThreadID := "";
      }
    }

    /** SubscribeThreadEvents' critical section; None when it is refused. */
    method Subscribe(buffer: nat) returns (s: Option<Subscriber>)
      requires Valid()
      modifies this`threadEventSubscribers, this`nextThreadEventSubscriberID
      ensures Valid()
      ensures s.Some? <==> !closed && connected && 1 <= buffer <= 4096
      ensures s.None? ==> threadEventSubscribers == old(threadEventSubscribers)
      ensures s.Some? ==> fresh(s.value) && s.value.View() == NewStream(buffer)
      ensures s.Some? ==> nextThreadEventSubscriberID !in old(threadEventSubscribers)
      ensures s.Some? ==> threadEventSubscribers == old(threadEventSubscribers)[nextThreadEventSubscriberID := s.value]
    {
      if buffer < 1 || buffer > 4096 || closed || !connected {
        return None;
      }
      var sub := new Subscriber(buffer);
      nextThreadEventSubscriberID := nextThreadEventSubscriberID + 1;
      threadEventSubscribers := threadEventSubscribers[nextThreadEventSubscriberID := sub];
      s := Some(sub);
    }

    method RemoveSubscriber(id: nat, sub: Subscriber)
      requires sub.Valid()
      modifies this`threadEventSubscribers, sub`closed
      ensures sub.Valid() && sub.View() == old(sub.View()).(closed := true)
      ensures threadEventSubscribers ==
              if id in old(threadEventSubscribers) && old(threadEventSubscribers)[id] == sub
              then old(threadEventSubscribers) - {id} else old(threadEventSubscribers)
    {
      if id in threadEventSubscribers && threadEventSubscribers[id] == sub {
        threadEventSubscribers := threadEventSubscribers - {id};
      }
      sub.Close();
    }

    /** Every subscription is offered the event; those that end on it leave the table. */
    method PublishThreadEvent(e: Envelope)
      requires Valid()
      modifies this`threadEventSubscribers, threadEventSubscribers.Values
      ensures Valid()
      ensures var subs := old(threadEventSubscribers);
              && threadEventSubscribers.Keys <= subs.Keys
              && forall id :: id in subs ==>
                   && subs[id].Valid() && subs[id].View() == Delivered(old(threadEventSubscribers[id].View()), e)
                   && (id in threadEventSubscribers <==> !subs[id].closed)
                   && (id in threadEventSubscribers ==> threadEventSubscribers[id] == subs[id])
    {
      var gone := OfferAll(threadEventSubscribers, e);
      // removeThreadEventSubscriber: their channels are closed already.
      threadEventSubscribers := threadEventSubscribers - gone;
    }

    /** Every open subscription gets the gap and leaves the table. */
    method FailThreadEventSubscriptions(gap: Envelope)
      requires Valid()
      modifies this`threadEventSubscribers, threadEventSubscribers.Values
      ensures Valid()
      ensures var subs := old(threadEventSubscribers);
              && threadEventSubscribers.Keys <= subs.Keys
              && forall id :: id in subs ==>
                   && subs[id].Valid() && subs[id].View() == Failed(old(threadEventSubscribers[id].View()), gap)
                   && (id in threadEventSubscribers <==> old(threadEventSubscribers[id].closed))
                   && (id in threadEventSubscribers ==> threadEventSubscribers[id] == subs[id])
    {
      var gone := FailAll(threadEventSubscribers, gap);
      threadEventSubscribers := threadEventSubscribers - gone;
    }

    method CloseThreadEventSubscriptions()
      requires Valid()
      modifies this`threadEventSubscribers, threadEventSubscribers.Values
      ensures threadEventSubscribers == map[]
      ensures var subs := old(threadEventSubscribers);
              forall id :: id in subs ==>
                subs[id].View() == old(threadEventSubscribers[id].View()).(closed := true)
    {
      var subs := threadEventSubscribers;
      threadEventSubscribers := map[];
      var todo := subs.Keys;
      while todo != {}
        invariant todo <= subs.Keys && threadEventSubscribers == map[]
        invariant forall id :: id in subs ==> subs[id].Valid()
        invariant forall id :: id in subs ==>
            var was := old(threadEventSubscribers[id].View());
            subs[id].View() == if id in todo then was else was.(closed := true)
        decreases todo
      {
        var id :| id in todo;
        subs[id].Close();
        todo := todo - {id};
      }
    }

    /** Close's own pass under c.mu: every stream closes, and both tables are dropped. */
    method DropTables()
      requires Valid()
      modifies this`threadEventSubscribers, this`threads, this`latestThreadID, this`routing
      modifies threadEventSubscribers.Values
      ensures threadEventSubscribers == map[] && threads == map[] && latestThreadID == "" && !routing
      ensures var subs := old(threadEventSubscribers);
              forall id :: id in subs ==>
                subs[id].View() == old(threadEventSubscribers[id].View()).(closed := true)
    {
      CloseThreadEventSubscriptions();
      threads, latestThreadID, routing := map[], "", false;
    }

    /** handleNotification, for a notification or a decode-failure marker. */
    method HandleNotification(m: Message)
      requires Valid() && !m.Request?
      modifies this`threadEventSubscribers, this`threads, approvals, threadEventSubscribers.Values
      ensures Valid()
      ensures approvals.fileApprovals == AfterEntries(old(approvals.fileApprovals), EntryOf(parsers, m))
      ensures threads == ThreadsAfter(old(threads), EffectOn(parsers, m))
      ensures var subs := old(threadEventSubscribers);
              && threadEventSubscribers.Keys <= subs.Keys
              && forall id :: id in subs ==>
                   && subs[id].Valid()
                   && subs[id].View() == StepAll(old(threadEventSubscribers[id].View()), EffectOn(parsers, m))
                   && (id !in threadEventSubscribers ==> subs[id].closed)
                   && (id in threadEventSubscribers ==> threadEventSubscribers[id] == subs[id])
    {
      if m.Gap? {
        Lose(StreamGap("", LostFrame));
        return;
      }
      var parsed := parsers.event(m.verb, m.body);
      if parsed.Unparsable? {
        Lose(StreamGap(parsed.thread, ParseFailure(m.verb)));
        return;
      }
      var ev := parsed.ev;
      if ev.thread != "" {
        Route(ev);
      } else if IdentityRequired(ev) {
        Lose(StreamGap("", MissingIdentity(m.verb)));
      }
    }

    /** The stream is no longer complete: drop the approval context and end every subscription. */
    method Lose(gap: Envelope)
      requires Valid()
      modifies this`threadEventSubscribers, approvals, threadEventSubscribers.Values
      ensures Valid() && approvals.fileApprovals == map[]
      ensures var subs := old(threadEventSubscribers);
              && threadEventSubscribers.Keys <= subs.Keys
              && forall id :: id in subs ==>
                   && subs[id].Valid()
                   && subs[id].View() == Step(old(threadEventSubscribers[id].View()), Fail(gap))
                   && (id !in threadEventSubscribers ==> subs[id].closed)
                   && (id in threadEventSubscribers ==> threadEventSubscribers[id] == subs[id])
    {
      approvals.Clear();
      FailThreadEventSubscriptions(gap);
    }

    /** A thread's event: approval context, then the thread, then the subscribers. */
    method Route(ev: ThreadEvent)
      requires Valid() && ev.thread != ""
      modifies this`threadEventSubscribers, this`threads, approvals, threadEventSubscribers.Values
      ensures Valid()
      ensures approvals.fileApprovals == Remembered(old(approvals.fileApprovals), ev)
      ensures threads == ThreadsAfter(old(threads), [Deliver(Delivery(ev.thread, ev))])
      ensures var subs := old(threadEventSubscribers);
              && threadEventSubscribers.Keys <= subs.Keys
              && forall id :: id in subs ==>
                   && subs[id].Valid()
                   && subs[id].View() == Step(old(threadEventSubscribers[id].View()), Deliver(Delivery(ev.thread, ev)))
                   && (id !in threadEventSubscribers ==> subs[id].closed)
                   && (id in threadEventSubscribers ==> threadEventSubscribers[id] == subs[id])
    {
      approvals.Remember(ev);
      if ev.thread in threads {
        // The thread's own state is updated before any subscriber can see the event.
        threads := threads[ev.thread := threads[ev.thread] + [ev]];
      }
      PublishThreadEvent(Delivery(ev.thread, ev));
    }

    /** handleServerRequest: who answers, and what they are shown. */
    method HandleServerRequest(m: Message)
      requires m.Request?
      modifies this`answers
      ensures answers == old(answers) + AnswerTo(parsers, approvals.fileApprovals, callback, m)
    {
      var prompt := parsers.approval(m.verb, m.body);
      if prompt.Unreadable? {
        answers := answers + [ErrorReply(m.id)];
        return;
      }
      var ask, shown := callback, [];
      if prompt.FileChange? {
        var i := prompt.inline;
        var request :=
          new FileChangeApprovalRequest(prompt.key, prompt.root, i.path, i.operation, i.diff, prompt.claimed);
        var ok := approvals.Resolve(request);
        if !ok {
          ask := false;
        }
        shown := request.changes;
      }
      answers := answers + [if ask then AskedUser(m.id, shown) else DefaultDeny(m.id)];
    }

    /**
     `sub`, if there is one, subscribed as `id` and has gone through `effects` since
     `was`; it is in the table unless it has ended.
     */
    ghost predicate Tracks(id: nat, sub: Subscriber?, was: Stream, effects: seq<Action>)
      reads this`threadEventSubscribers, sub
    {
      sub != null ==>
        && sub.Valid() && sub.View() == Runs.Exec(Step, was, effects)
        && (id in threadEventSubscribers ==> threadEventSubscribers[id] == sub)
        && (id !in threadEventSubscribers ==> sub.closed && sub !in threadEventSubscribers.Values)
    }

    /** One turn of the dispatch loop, as any one subscriber sees it. */
    method HandleServerMessage(m: Message, ghost id: nat, ghost sub: Subscriber?, ghost was: Stream, ghost done: seq<Action>)
      requires Valid() && Tracks(id, sub, was, done)
      modifies this`threadEventSubscribers, this`threads, this`answers, approvals, threadEventSubscribers.Values
      ensures Valid() && threadEventSubscribers.Values <= old(threadEventSubscribers.Values)
      ensures Tracks(id, sub, was, done + EffectOn(parsers, m))
      ensures approvals.fileApprovals == AfterEntries(old(approvals.fileApprovals), EntryOf(parsers, m))
      ensures answers == old(answers) + AnswerTo(parsers, old(approvals.fileApprovals), callback, m)
      ensures threads == ThreadsAfter(old(threads), EffectOn(parsers, m))
    {
      ghost var s := if sub == null then was else sub.View();
      ghost var table := threadEventSubscribers;
      if m.Request? {
        HandleServerRequest(m);
      } else {
        HandleNotification(m);
      }
      ExecEffect(was, done, parsers, m);
      if sub != null {
        assert id !in table ==> sub.View() == s;
        assert sub.View() == StepAll(s, EffectOn(parsers, m));
      }
    }

    /** The dispatch loop over the messages it gets to handle, with or without subscriptions. */
    method HandleAll(messages: seq<Message>, ghost id: nat, ghost sub: Subscriber?, ghost was: Stream)
      requires Valid() && approvals.fileApprovals == map[] && Tracks(id, sub, was, [])
      modifies this`threadEventSubscribers, this`threads, this`answers, approvals, threadEventSubscribers.Values
      ensures Valid() && threadEventSubscribers.Values <= old(threadEventSubscribers.Values)
      ensures Tracks(id, sub, was, Effects(parsers, messages))
      ensures answers == old(answers) + Answers(parsers, callback, messages)
      ensures approvals.fileApprovals == CacheAfter(History(parsers, messages))
      ensures threads == HandedAll(parsers, old(threads), messages)
    {
      ghost var asked, registered := answers, threads;
      ghost var seen, effects, answered, cache: Cache := [], [], [], map[];
      ghost var objects := threadEventSubscribers.Values;
      var i := 0;
      while i < |messages|
        invariant i <= |messages| && Valid()
        invariant threadEventSubscribers.Values <= objects
        invariant Tracks(id, sub, was, effects) && answers == asked + answered && approvals.fileApprovals == cache
        invariant threads == HandedAll(parsers, registered, seen)
        invariant seen == messages[..i] && Outcome(parsers, callback, seen, effects, answered, cache)
      {
        OutcomeStep(parsers, callback, seen, messages[i], effects, answered, cache);
        Regroup(asked, answered, AnswerTo(parsers, cache, callback, messages[i]));
        HandleServerMessage(messages[i], id, sub, was, effects);
        effects := effects + EffectOn(parsers, messages[i]);
        answered := answered + AnswerTo(parsers, cache, callback, messages[i]);
        cache := approvals.fileApprovals;
        TakeOneMore(messages, i);
        HandedOneMore(parsers, registered, seen, messages[i]);
        seen := seen + [messages[i]];
        i := i + 1;
      }
      assert seen == messages;
    }

    /** What dispatch does on its way out; `lost` when the source ended on its own. */
    method Finish(lost: bool, ghost id: nat, ghost sub: Subscriber?, ghost was: Stream, ghost done: seq<Action>)
      requires Valid() && Tracks(id, sub, was, done)
      modifies this`threadEventSubscribers, this`connected, approvals, threadEventSubscribers.Values
      ensures !connected && threadEventSubscribers == map[] && approvals.fileApprovals == map[]
      ensures sub != null ==> sub.View() == Ended(old(sub.View()), lost)
    {
      connected := false;
      ghost var s := if sub == null then was else sub.View();
      if lost {
        FailThreadEventSubscriptions(SOURCE_GAP);
      }
      assert sub != null ==> sub.View() == if lost then Failed(s, SOURCE_GAP) else s;
      assert sub != null && id !in threadEventSubscribers ==> sub.closed;
      CloseThreadEventSubscriptions();
      approvals.Clear();
    }

    /**
     dispatch over the ordered messages. `cancelledAt` is how many were handled
     when the context's cancellation was seen; None when the source ran dry first,
     and then `shutdown` says whether the client was closing. `id` is any
     subscription, in the table when it starts or not.
     */
    method Dispatch(messages: seq<Message>, cancelledAt: Option<nat>, shutdown: bool, ghost id: nat)
      requires Valid() && approvals.fileApprovals == map[]
      requires cancelledAt.Some? ==> cancelledAt.value <= |messages|
      modifies this`threadEventSubscribers, this`threads, this`answers, this`connected, approvals
      modifies threadEventSubscribers.Values
      ensures !connected && threadEventSubscribers == map[] && approvals.fileApprovals == map[]
      ensures var handled := if cancelledAt.Some? then messages[..cancelledAt.value] else messages;
              && answers == old(answers) + Answers(parsers, callback, handled)
              && threads == HandedAll(parsers, old(threads), handled)
              && (id in old(threadEventSubscribers) ==>
                    old(threadEventSubscribers)[id].View() ==
                    Ended(Runs.Exec(Step, old(threadEventSubscribers[id].View()), Effects(parsers, handled)),
                          cancelledAt.None? && !shutdown))
    {
      ghost var sub: Subscriber? := if id in threadEventSubscribers then threadEventSubscribers[id] else null;
      ghost var was := if sub == null then NewStream(0) else sub.View();
      var handled := if cancelledAt.Some? then messages[..cancelledAt.value] else messages;
      HandleAll(handled, id, sub, was);
      Finish(cancelledAt.None? && !shutdown, id, sub, was, Effects(parsers, handled));
    }
  }
}
