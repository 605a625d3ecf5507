/** The paged listing of a thread's background terminals (background_terminals.go). */
module Terminals {
  import opened Basics

  const MAX_PAGES := 100

  datatype Terminal = Terminal(processID: string, itemID: string, rest: string)

  /** One answer of the server: an error of any kind, or a page. */
  datatype Response = Failed | Page(rows: seq<Terminal>, nextCursor: Option<string>)

  datatype Error =
    | ThreadIDRequired
    | RequestFailed
    | MalformedRow
    | DuplicateProcess(id: string)
    | CursorCycle(cursor: string)
    | ExceededPages

  datatype Result = Ok(terminals: seq<Terminal>) | Err(error: Error)

  /** Any server: what it answers to the n-th request, which carries a cursor or none. */
  type Server = (nat, Option<string>) -> Response

  predicate HasNext(p: Response) {
    p.Page? && p.nextCursor.Some? && p.nextCursor.value != ""
  }

  predicate WellFormed(t: Terminal) {
    !Blank(t.processID) && !Blank(t.itemID)
  }

  /** Well-formed rows of pairwise distinct processes. */
  predicate Good(ts: seq<Terminal>) {
    && (forall i :: 0 <= i < |ts| ==> WellFormed(ts[i]))
    && (forall i, j :: 0 <= i < j < |ts| ==> ts[i].processID != ts[j].processID)
  }

  /** Request k carries the cursor that the answer to the one before named. */
  predicate Linked(server: Server, sent: seq<Option<string>>, k: nat)
    requires 0 < k < |sent|
  {
    HasNext(server(k - 1, sent[k - 1])) && server(k - 1, sent[k - 1]).nextCursor == sent[k]
  }

  /** `sent` follows the server's cursors from the first page, each cursor once. */
  predicate Follows(server: Server, sent: seq<Option<string>>) {
    && (sent != [] ==> sent[0].None?)
    && (forall k :: 0 < k < |sent| ==> Linked(server, sent, k))
    && (forall j, k :: 0 <= j < k < |sent| ==> sent[j] != sent[k])
  }

  /** The rows of all the pages, in order. */
  function Rows(server: Server, sent: seq<Option<string>>): seq<Terminal>
  {
    if sent == [] then []
    else
      var n := |sent| - 1;
      var page := server(n, sent[n]);
      Rows(server, sent[..n]) + (if page.Page? then page.rows else [])
  }

  /** A whole listing: at most MAX_PAGES pages, each good, the last without a cursor. */
  predicate Complete(server: Server, sent: seq<Option<string>>) {
    && 0 < |sent| <= MAX_PAGES && Follows(server, sent)
    && server(|sent| - 1, sent[|sent| - 1]).Page? && !HasNext(server(|sent| - 1, sent[|sent| - 1]))
    && Good(Rows(server, sent))
  }

  function Processes(ts: seq<Terminal>): set<string> {
    set t | t in ts :: t.processID
  }

  lemma GoodSnoc(ts: seq<Terminal>, t: Terminal)
    ensures Processes(ts + [t]) == Processes(ts) + {t.processID}
    ensures Good(ts + [t]) <==> Good(ts) && WellFormed(t) && t.processID !in Processes(ts)
  {
    var all := ts + [t];
    assert all[|ts|] == t && forall i :: 0 <= i < |ts| ==> all[i] == ts[i];
    if Good(ts) && WellFormed(t) && t.processID !in Processes(ts) {
      assert forall i :: 0 <= i < |ts| ==> ts[i] in ts;
    } else if t.processID in Processes(ts) {
      var i :| 0 <= i < |ts| && ts[i].processID == t.processID;
      assert all[i].processID == all[|ts|].processID;
    }
  }

  lemma GoodPrefix(a: seq<Terminal>, b: seq<Terminal>)
    requires a <= b && Good(b)
    ensures Good(a)
  {
  }

  /** Row i is the first bad one of a page that comes after `before`, and this is the error. */
  ghost predicate BadRow(before: seq<Terminal>, rows: seq<Terminal>, i: nat, e: Error)
    requires i < |rows|
  {
    && Good(before + rows[..i])
    && if !WellFormed(rows[i]) then e == MalformedRow
       else e == DuplicateProcess(rows[i].processID) && rows[i].processID in Processes(before + rows[..i])
  }

  /** After the page `page` the listing cannot go on, and this is the error. */
  ghost predicate StuckAt(before: seq<Terminal>, page: Response, sent: seq<Option<string>>, e: Error) {
    if page.Failed? then e == RequestFailed
    else if !Good(before + page.rows) then exists i: nat :: i < |page.rows| && BadRow(before, page.rows, i, e)
    else
      HasNext(page) && (if page.nextCursor in sent then e == CursorCycle(page.nextCursor.value)
                        else e == ExceededPages && |sent| == MAX_PAGES)
  }

  ghost predicate Stuck(server: Server, sent: seq<Option<string>>, e: Error)
    requires sent != []
  {
    var n := |sent| - 1;
    StuckAt(Rows(server, sent[..n]), server(n, sent[n]), sent, e)
  }

  /** The inner loop: appends a page's rows, or finds its first bad one. */
  method AppendPage(terminals: seq<Terminal>, seenProcesses: set<string>, rows: seq<Terminal>)
    returns (all: seq<Terminal>, seen: set<string>, error: Option<Error>)
    requires Good(terminals) && seenProcesses == Processes(terminals)
    ensures error.None? <==> Good(terminals + rows)
    ensures error.None? ==> all == terminals + rows && seen == Processes(all)
    ensures error.Some? ==> exists i: nat :: i < |rows| && BadRow(terminals, rows, i, error.value)
  {
    all, seen := terminals, seenProcesses;
    for i := 0 to |rows|
      invariant all == terminals + rows[..i] && Good(all) && seen == Processes(all)
    {
      var terminal := rows[i];
      GoodSnoc(all, terminal);
      assert all + [terminal] == terminals + rows[..i + 1];
      if Blank(terminal.processID) || Blank(terminal.itemID) || terminal.processID in seen {
        error := Some(if WellFormed(terminal) then DuplicateProcess(terminal.processID) else MalformedRow);
        assert BadRow(terminals, rows, i, error.value);
        assert all + [terminal] <= terminals + rows;
        assert !Good(terminals + rows) by {
          if Good(terminals + rows) {
            GoodPrefix(all + [terminal], terminals + rows);
          }
        }
        return;
      }
      seen := seen + {terminal.processID};
      all := all + [terminal];
    }
    assert rows[..|rows|] == rows;
    return all, seen, None;
  }

  /**
   ListBackgroundTerminals against any server. `sent` are the cursors of the
   requests it makes: at most MAX_PAGES, none twice, each the one the server named.
   It returns the whole listing exactly when there is one.
   */
  method ListBackgroundTerminals(threadID: string, server: Server) returns (r: Result, sent: seq<Option<string>>)
    ensures Blank(threadID) ==> r == Err(ThreadIDRequired) && sent == []
    ensures !Blank(threadID) ==> 0 < |sent| <= MAX_PAGES && Follows(server, sent)
    ensures r.Ok? ==> Complete(server, sent) && r.terminals == Rows(server, sent)
    ensures !Blank(threadID) && r.Err? ==> Stuck(server, sent, r.error)
    ensures !Blank(threadID) && r.Err? ==> forall whole :: !Complete(server, whole)
  {
    sent := [];
    if Blank(threadID) {
      return Err(ThreadIDRequired), sent;
    }
    var terminals := [];
    var cursor := None;
    var seenCursors: set<string>, seenProcesses: set<string> := {}, {};
    for pageNumber := 0 to MAX_PAGES
      invariant |sent| == pageNumber && Follows(server, sent + [cursor])
      invariant seenCursors == Cursors(sent + [cursor])
      invariant terminals == Rows(server, sent) && Good(terminals) && seenProcesses == Processes(terminals)
      invariant pageNumber == MAX_PAGES ==> Stuck(server, sent, ExceededPages)
    {
      var page := server(pageNumber, cursor);
      ghost var before := terminals;
      RequestSnoc(server, sent, cursor);
      sent := sent + [cursor];
      if page.Failed? {
        assert StuckAt(before, page, sent, RequestFailed);
        StuckIsIncomplete(server, sent, RequestFailed);
        return Err(RequestFailed), sent;
      }
      var error;
      terminals, seenProcesses, error := AppendPage(terminals, seenProcesses, page.rows);
      if error.Some? {
        assert StuckAt(before, page, sent, error.value);
        StuckIsIncomplete(server, sent, error.value);
        return Err(error.value), sent;
      }
      if page.nextCursor.None? || page.nextCursor.value == "" {
        assert Complete(server, sent);
        return Ok(terminals), sent;
      }
      if page.nextCursor.value in seenCursors {
        assert StuckAt(before, page, sent, CursorCycle(page.nextCursor.value));
        StuckIsIncomplete(server, sent, CursorCycle(page.nextCursor.value));
        return Err(CursorCycle(page.nextCursor.value)), sent;
      }
      FollowsSnoc(server, sent, page.nextCursor);
      assert pageNumber + 1 == MAX_PAGES ==> StuckAt(before, page, sent, ExceededPages);
      seenCursors := seenCursors + {page.nextCursor.value};
      cursor := page.nextCursor;
    }
    RequestSnoc(server, sent, cursor);
    FollowsPrefix(server, sent + [cursor], MAX_PAGES);
    StuckIsIncomplete(server, sent, ExceededPages);
    return Err(ExceededPages), sent;
  }

  function Cursors(sent: seq<Option<string>>): (all: set<string>)
    ensures forall c :: c in all <==> Some(c) in sent
  {
    set c | c in sent && c.Some? :: c.value
  }

  lemma RequestSnoc(server: Server, before: seq<Option<string>>, cursor: Option<string>)
    ensures var sent := before + [cursor];
            var page := server(|before|, cursor);
            && sent[..|before|] == before
            && Rows(server, sent) == Rows(server, before) + (if page.Page? then page.rows else [])
  {
    assert (before + [cursor])[..|before|] == before;
  }

  lemma FollowsSnoc(server: Server, sent: seq<Option<string>>, c: Option<string>)
    requires sent != [] && Follows(server, sent) && c !in sent
    requires var page := server(|sent| - 1, sent[|sent| - 1]); HasNext(page) && page.nextCursor == c
    ensures Follows(server, sent + [c]) && Cursors(sent + [c]) == Cursors(sent) + {c.value}
  {
    var all := sent + [c];
    forall k | 0 < k < |all| ensures Linked(server, all, k) {
      if k < |sent| {
        assert Linked(server, sent, k);
      }
    }
  }

  lemma FollowsPrefix(server: Server, sent: seq<Option<string>>, n: nat)
    requires n <= |sent| && Follows(server, sent)
    ensures Follows(server, sent[..n])
  {
    forall k | 0 < k < n ensures Linked(server, sent[..n], k) {
      assert Linked(server, sent, k);
    }
  }

  /** A server's cursors can be followed in one way only. */
  lemma {:induction false} OneWay(server: Server, a: seq<Option<string>>, b: seq<Option<string>>)
    requires Follows(server, a) && Follows(server, b) && |a| <= |b|
    ensures a == b[..|a|]
    decreases |a|
  {
    if a != [] {
      var n := |a| - 1;
      FollowsPrefix(server, a, n);
      OneWay(server, a[..n], b);
      if n > 0 {
        assert Linked(server, a, n) && Linked(server, b, n);
        assert a[n - 1] == a[..n][n - 1] == b[n - 1];
      }
      assert a == a[..n] + [a[n]] && b[..n + 1] == b[..n] + [b[n]];
    }
  }

  lemma {:induction false} RowsGrow(server: Server, sent: seq<Option<string>>, n: nat)
    requires n <= |sent|
    ensures Rows(server, sent[..n]) <= Rows(server, sent)
    decreases |sent|
  {
    if n < |sent| {
      RowsGrow(server, sent[..|sent| - 1], n);
      assert sent[..|sent| - 1][..n] == sent[..n];
    } else {
      assert sent[..n] == sent;
    }
  }

  lemma EarlierGoOn(server: Server, sent: seq<Option<string>>, n: nat)
    requires 0 < n < |sent| && Follows(server, sent)
    ensures HasNext(server(n - 1, sent[..n][n - 1]))
  {
    assert Linked(server, sent, n);
  }

  /** A whole listing goes on from wherever the cursors were followed to. */
  lemma WholeGoesOn(server: Server, sent: seq<Option<string>>, whole: seq<Option<string>>)
    requires sent != [] && Follows(server, sent) && Complete(server, whole)
    ensures sent <= whole && Good(Rows(server, sent))
    ensures |sent| < |whole| <==> HasNext(server(|sent| - 1, sent[|sent| - 1]))
    ensures |sent| < |whole| ==> whole[|sent|] == server(|sent| - 1, sent[|sent| - 1]).nextCursor
  {
    if |whole| < |sent| {
      OneWay(server, whole, sent);
      EarlierGoOn(server, sent, |whole|);
    } else {
      OneWay(server, sent, whole);
      RowsGrow(server, whole, |sent|);
      GoodPrefix(Rows(server, sent), Rows(server, whole));
      assert |sent| < |whole| ==> Linked(server, whole, |sent|);
    }
  }

  /** Where the listing gets stuck there is no whole listing. */
  lemma StuckIsIncomplete(server: Server, sent: seq<Option<string>>, e: Error)
    requires 0 < |sent| <= MAX_PAGES && Follows(server, sent) && Stuck(server, sent, e)
    ensures forall whole :: !Complete(server, whole)
  {
    var n := |sent| - 1;
    RequestSnoc(server, sent[..n], sent[n]);
    assert sent[..n] + [sent[n]] == sent;
    forall whole ensures !Complete(server, whole) {
      if Complete(server, whole) {
        WholeGoesOn(server, sent, whole);
      }
    }
  }

  /** The answer to request k. */
  function AnswerTo(server: Server, sent: seq<Option<string>>, k: nat): Response
    requires k < |sent|
  {
    server(k, sent[k])
  }

  /** What a whole listing is, in the server's own terms. */
  ghost predicate Whole(server: Server, whole: seq<Option<string>>) {
    && 0 < |whole| <= 100 && whole[0] == None
    && (forall k :: 0 <= k < |whole| ==> AnswerTo(server, whole, k).Page?)
    && (forall k :: 0 < k < |whole| ==> whole[k] != None && whole[k] != Some(""))
    && (forall k :: 0 <= k < |whole| - 1 ==> AnswerTo(server, whole, k).nextCursor == whole[k + 1])
    && (forall j, k :: 0 <= j < k < |whole| ==> whole[j] != whole[k])
    && (var last := AnswerTo(server, whole, |whole| - 1).nextCursor; last == None || last == Some(""))
    && (var rows := Rows(server, whole);
        && (forall i :: 0 <= i < |rows| ==> !Blank(rows[i].processID) && !Blank(rows[i].itemID))
        && (forall i, j :: 0 <= i < j < |rows| ==> rows[i].processID != rows[j].processID))
  }

  /**
   At most 100 pages, every one but the last naming the next request's cursor, the
   last naming none, no cursor twice, and rows with both ids and no process twice:
   that is what is returned, and whatever is that is returned.
   */
  lemma WholeMeaning(server: Server, whole: seq<Option<string>>)
    ensures Complete(server, whole) <==> Whole(server, whole)
  {
    if Complete(server, whole) {
      forall k | 0 <= k < |whole|
        ensures AnswerTo(server, whole, k).Page?
        ensures k < |whole| - 1 ==> AnswerTo(server, whole, k).nextCursor == whole[k + 1]
        ensures 0 < k ==> whole[k] != None && whole[k] != Some("")
      {
        assert k < |whole| - 1 ==> Linked(server, whole, k + 1);
        assert 0 < k ==> Linked(server, whole, k);
      }
    }
    if Whole(server, whole) {
      forall k | 0 < k < |whole| ensures Linked(server, whole, k) {
        assert AnswerTo(server, whole, k - 1).Page? && AnswerTo(server, whole, k - 1).nextCursor == whole[k - 1 + 1];
      }
      assert AnswerTo(server, whole, |whole| - 1).Page?;
    }
  }

  /** Its rows are its pages' rows: the first page's, and then each further page's behind those before. */
  lemma RowsMeaning(server: Server, whole: seq<Option<string>>, k: nat)
    requires Complete(server, whole) && k < |whole|
    ensures server(k, whole[k]).Page?
    ensures Rows(server, whole[..k + 1]) == Rows(server, whole[..k]) + server(k, whole[k]).rows
    ensures Rows(server, whole[..0]) == [] && Rows(server, whole[..|whole|]) == Rows(server, whole)
  {
    WholeMeaning(server, whole);
    assert AnswerTo(server, whole, k).Page?;
    TakeOneMore(whole, k);
    RequestSnoc(server, whole[..k], whole[k]);
    assert whole[..|whole|] == whole;
  }

  /** The listing is unique, so the one returned is the only one there is. */
  lemma CompleteIsUnique(server: Server, a: seq<Option<string>>, b: seq<Option<string>>)
    requires Complete(server, a) && Complete(server, b)
    ensures a == b
  {
    WholeGoesOn(server, a, b);
    WholeGoesOn(server, b, a);
  }
}
