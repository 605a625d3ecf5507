/**
 What server requests are answered and what threads are handed, in terms of the
 lines and messages alone (internal/jsonrpc/demux.go, client_dispatch.go,
 client_file_approval.go).
 */
module Requests {
  import opened Basics
  import opened DemuxLoop
  import opened Events
  import opened FileApprovals
  import opened Dispatcher
  import opened Pipeline

  // ------------------------------------------------- every request is answered

  function RequestIdAt(l: Line): seq<nat> {
    if l.Decoded? && l.id.Some? && l.verb.Some? then [l.id.value] else []
  }

  /** The ids of the first n lines' server requests: the lines that carry both an id and a method. */
  function RequestIds(lines: seq<Line>, n: nat): seq<nat>
    requires n <= |lines|
  {
    if n == 0 then [] else RequestIds(lines, n - 1) + RequestIdAt(lines[n - 1])
  }

  function IdsOf(answers: seq<Answer>): seq<nat> {
    if answers == [] then [] else IdsOf(answers[..|answers| - 1]) + [answers[|answers| - 1].id]
  }

  lemma OneAnswer(ps: Parsers, cache: Cache, callback: bool, m: Message)
    ensures var a := AnswerTo(ps, cache, callback, m);
            if m.Request? then |a| == 1 && a[0].id == m.id else a == []
  {
  }

  lemma IdsSnoc(answers: seq<Answer>, a: seq<Answer>)
    requires |a| <= 1
    ensures IdsOf(answers + a) == IdsOf(answers) + (if a == [] then [] else [a[0].id])
  {
    if a == [] {
      assert answers + a == answers;
    } else {
      assert (answers + a)[..|answers + a| - 1] == answers;
    }
  }

  /** At most one more message adds its own id, if it is a request. */
  lemma AnswersGrow(ps: Parsers, callback: bool, ms: seq<Message>, e: seq<Message>)
    requires |e| <= 1
    ensures IdsOf(Answers(ps, callback, ms + e)) ==
            IdsOf(Answers(ps, callback, ms)) + (if e != [] && e[0].Request? then [e[0].id] else [])
  {
    if e == [] {
      assert ms + e == ms;
    } else {
      var a := AnswerTo(ps, CacheAfter(History(ps, ms)), callback, e[0]);
      assert e == [e[0]];
      OneMore(ps, callback, ms, e[0]);
      OneAnswer(ps, CacheAfter(History(ps, ms)), callback, e[0]);
      IdsSnoc(Answers(ps, callback, ms), a);
    }
  }

  lemma EmitsItsRequest(lines: seq<Line>, i: nat)
    requires i < |lines|
    ensures var e := EmitAt(lines, i);
            RequestIdAt(lines[i]) == if e != [] && e[0].Request? then [e[0].id] else []
  {
    LineMeaning(lines, i);
  }

  lemma {:induction false} IdsLineByLine(lines: seq<Line>, n: nat, f: seq<Message> -> seq<nat>)
    requires n <= |lines| && f([]) == []
    requires forall ms, i {:trigger f(ms + EmitAt(lines, i))} :: 0 <= i < |lines| ==>
      f(ms + EmitAt(lines, i)) == f(ms) + RequestIdAt(lines[i])
    ensures f(Emitted(lines, n)) == RequestIds(lines, n)
  {
    if n > 0 {
      IdsLineByLine(lines, n - 1, f);
    }
  }

  /**
   From the lines to the answers: every line with an id and a method is answered
   under its id, once and in order, and nothing else is.
   */
  lemma EveryRequestAnswered(ps: Parsers, callback: bool, lines: seq<Line>, n: nat)
    requires n <= |lines|
    ensures IdsOf(Answers(ps, callback, Emitted(lines, n))) == RequestIds(lines, n)
  {
    var ids := (ms: seq<Message>) => IdsOf(Answers(ps, callback, ms));
    forall ms: seq<Message>, i | 0 <= i < |lines|
      ensures ids(ms + EmitAt(lines, i)) == ids(ms) + RequestIdAt(lines[i])
    {
      EmitsItsRequest(lines, i);
      AnswersGrow(ps, callback, ms, EmitAt(lines, i));
    }
    IdsLineByLine(lines, n, ids);
  }

  // ------------------------------------------------- what the answer is

  /** What a file-change request is about: the latest set of an active key, else its one inline change, else nothing. */
  ghost function ChangesAbout(h: seq<Entry>, key: Key, latest: nat, inline: FileChangePart): seq<FileChangePart>
    requires Active(h, key) ==> latest < |h| && LatestAt(h, key, latest)
  {
    if Active(h, key) then ContextOf(h[latest]).changes
    else if inline.path != "" then [inline]
    else []
  }

  /** When the user may be asked about it. */
  ghost predicate MayAsk(h: seq<Entry>, key: Key, latest: nat, root: Option<string>, inline: FileChangePart)
    requires Active(h, key) ==> latest < |h| && LatestAt(h, key, latest)
  {
    var changes := ChangesAbout(h, key, latest, inline);
    && !(Active(h, key) && ContextOf(h[latest]).invalid)
    && (root.Some? ==> !Blank(root.value) && key.thread != "" && key.turn != "" && key.item != "")
    && (changes == [] ==> root.Some?)
    && (forall c :: c in changes ==>
          !Blank(c.path) && (c.operation == "create" || c.operation == "modify" || c.operation == "delete"))
  }

  /** The one answer that message i adds. */
  ghost predicate AnsweredBy(ps: Parsers, callback: bool, ms: seq<Message>, i: nat, a: Answer)
    requires i < |ms|
  {
    Answers(ps, callback, ms[..i + 1]) == Answers(ps, callback, ms[..i]) + [a]
  }

  /**
   A file-change request is put to the user exactly when a callback is configured
   and the history of the messages before it allows, and then with exactly the
   changes the request is about; otherwise it is denied by default.
   */
  lemma FileChangeAnswer(ps: Parsers, callback: bool, ms: seq<Message>, i: nat) returns (latest: nat)
    requires i < |ms| && ms[i].Request? && ps.approval(ms[i].verb, ms[i].body).FileChange?
    ensures var q := ps.approval(ms[i].verb, ms[i].body);
            var h := ApprovalLog(ps, ms[..i]);
            && (Active(h, q.key) ==> latest < |h| && LatestAt(h, q.key, latest))
            && AnsweredBy(ps, callback, ms, i,
                          if callback && MayAsk(h, q.key, latest, q.root, q.inline)
                          then AskedUser(ms[i].id, ChangesAbout(h, q.key, latest, q.inline))
                          else DefaultDeny(ms[i].id))
  {
    var q := ps.approval(ms[i].verb, ms[i].body);
    var h := ApprovalLog(ps, ms[..i]);
    HistoryIsLog(ps, ms[..i]);
    TakeOneMore(ms, i);
    OneMore(ps, callback, ms[..i], ms[i]);
    latest := LatestOf(h, q.key);
    AskedIff(h, q.key, latest, q.root, q.inline);
  }

  lemma LatestOf(h: seq<Entry>, key: Key) returns (latest: nat)
    ensures key in CacheAfter(h) <==> Active(h, key)
    ensures Active(h, key) ==>
              latest < |h| && LatestAt(h, key, latest) && CacheAfter(h)[key] == ContextOf(h[latest])
  {
    CacheMeansHistory(h, key);
    latest := 0;
    if Active(h, key) {
      latest :| latest < |h| && LatestAt(h, key, latest) && CacheAfter(h)[key] == ContextOf(h[latest]);
    }
  }

  lemma WellFormedMeans(c: FileChangePart)
    ensures WellFormed(c) <==>
            !Blank(c.path) && (c.operation == "create" || c.operation == "modify" || c.operation == "delete")
  {
    var known := ["create", "modify", "delete"];
    assert c.operation in known <==> c.operation == known[0] || c.operation == known[1] || c.operation == known[2];
  }

  lemma ShownIsAbout(h: seq<Entry>, key: Key, latest: nat, inline: FileChangePart)
    requires key in CacheAfter(h) <==> Active(h, key)
    requires Active(h, key) ==>
               latest < |h| && LatestAt(h, key, latest) && CacheAfter(h)[key] == ContextOf(h[latest])
    ensures Shown(CacheAfter(h), key, inline) == ChangesAbout(h, key, latest, inline)
    ensures key in CacheAfter(h) && CacheAfter(h)[key].invalid <==> Active(h, key) && ContextOf(h[latest]).invalid
  {
  }

  lemma AskedIff(h: seq<Entry>, key: Key, latest: nat, root: Option<string>, inline: FileChangePart)
    requires key in CacheAfter(h) <==> Active(h, key)
    requires Active(h, key) ==>
               latest < |h| && LatestAt(h, key, latest) && CacheAfter(h)[key] == ContextOf(h[latest])
    ensures Resolvable(CacheAfter(h), key, root, inline) <==> MayAsk(h, key, latest, root, inline)
    ensures Shown(CacheAfter(h), key, inline) == ChangesAbout(h, key, latest, inline)
  {
    ShownIsAbout(h, key, latest, inline);
    var changes := ChangesAbout(h, key, latest, inline);
    forall c | c in changes
      ensures WellFormed(c) <==>
              !Blank(c.path) && (c.operation == "create" || c.operation == "modify" || c.operation == "delete")
    {
      WellFormedMeans(c);
    }
  }

  /** A request that cannot be read gets an error, any other kind is the callback's, or denied without one. */
  lemma OtherAnswers(ps: Parsers, callback: bool, ms: seq<Message>, i: nat)
    requires i < |ms| && ms[i].Request? && !ps.approval(ms[i].verb, ms[i].body).FileChange?
    ensures AnsweredBy(ps, callback, ms, i,
                       if ps.approval(ms[i].verb, ms[i].body).Unreadable? then ErrorReply(ms[i].id)
                       else if callback then AskedUser(ms[i].id, [])
                       else DefaultDeny(ms[i].id))
  {
    TakeOneMore(ms, i);
    OneMore(ps, callback, ms[..i], ms[i]);
  }

  // ------------------------------------------------- what threads are handed

  /** The events of thread t among those the messages carry. */
  function OwnEvents(ps: Parsers, ms: seq<Message>, t: string): seq<ThreadEvent> {
    if ms == [] then []
    else
      var e := EventIn(ps, ms[|ms| - 1]);
      OwnEvents(ps, ms[..|ms| - 1], t) + (if e.Some? && e.value.thread == t then [e.value] else [])
  }

  /** A registered thread is handed exactly its own events, in order, and no other thread is. */
  lemma {:induction false} ThreadsHandedOwn(ps: Parsers, ts: map<string, seq<ThreadEvent>>, ms: seq<Message>)
    ensures HandedAll(ps, ts, ms).Keys == ts.Keys
    ensures forall t :: t in ts ==> HandedAll(ps, ts, ms)[t] == ts[t] + OwnEvents(ps, ms, t)
    decreases |ms|
  {
    if ms != [] {
      var init, m := ms[..|ms| - 1], ms[|ms| - 1];
      ThreadsHandedOwn(ps, ts, init);
      MessageMeaning(ps, m);
      forall t | t in ts ensures HandedAll(ps, ts, ms)[t] == ts[t] + OwnEvents(ps, ms, t) {
        var e := if EventIn(ps, m).Some? && EventIn(ps, m).value.thread == t then [EventIn(ps, m).value] else [];
        assert HandedAll(ps, ts, ms)[t] == HandedAll(ps, ts, init)[t] + e;
        Regroup(ts[t], OwnEvents(ps, init, t), e);
      }
    }
  }
}
