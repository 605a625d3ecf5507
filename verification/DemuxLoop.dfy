/**
 The demux read loop (internal/jsonrpc/demux.go, readLoop): what it queues for
 the dispatcher, which replies it routes, and where it stops.
 */
module DemuxLoop {
  import opened Basics

  /** An inbound line; `Decoded` keeps only what classification looks at. */
  datatype Line =
    | Empty
    | Undecodable
    | Decoded(id: Option<nat>, verb: Option<string>, body: string)

  datatype Message =
    | Note(verb: string, body: string)
    | Request(id: nat, verb: string, body: string)
    | Gap

  datatype Reply = Reply(id: nat, body: string)

  datatype Exit = SourceEnd | ReadError | GaveUp | Stopped

  // ------------------------------------------------- what the lines mean

  /** Undecodable, or decoded but neither a request, a notification nor a response. */
  predicate Bad(l: Line) {
    l.Undecodable? || (l.Decoded? && l.id.None? && l.verb.None?)
  }

  predicate IsReply(l: Line) {
    l.Decoded? && l.verb.None? && l.id.Some?
  }

  function MessageOf(l: Line): Message
    requires l.Decoded? && l.verb.Some?
  {
    if l.id.Some? then Request(l.id.value, l.verb.value, l.body) else Note(l.verb.value, l.body)
  }

  /** The lines just before `i`, blank ones aside, end in a bad line. */
  ghost predicate InBadRun(lines: seq<Line>, i: nat)
    requires i <= |lines|
  {
    exists j :: 0 <= j < i && Bad(lines[j]) && forall k :: j < k < i ==> lines[k].Empty?
  }

  /** The messages line `i` adds: a method frame itself, or one marker where a bad run starts. */
  ghost function EmitAt(lines: seq<Line>, i: nat): (m: seq<Message>)
    requires i < |lines|
    ensures |m| <= 1
  {
    if lines[i].Decoded? && lines[i].verb.Some? then [MessageOf(lines[i])]
    else if Bad(lines[i]) && !InBadRun(lines, i) then [Gap]
    else []
  }

  ghost function Emitted(lines: seq<Line>, n: nat): seq<Message>
    requires n <= |lines|
  {
    if n == 0 then [] else Emitted(lines, n - 1) + EmitAt(lines, n - 1)
  }

  function ReplyAt(l: Line): seq<Reply> {
    if IsReply(l) then [Reply(l.id.value, l.body)] else []
  }

  ghost function Replies(lines: seq<Line>, n: nat): seq<Reply>
    requires n <= |lines|
  {
    if n == 0 then []
    else Replies(lines, n - 1) + ReplyAt(lines[n - 1])
  }

  /** How many of lines[j..n] do not decode. */
  ghost function Undecodables(lines: seq<Line>, j: nat, n: nat): nat
    requires j <= n <= |lines|
    decreases n
  {
    if j == n then 0
    else Undecodables(lines, j, n - 1) + (if lines[n - 1].Undecodable? then 1 else 0)
  }

  ghost predicate NoneDecodes(lines: seq<Line>, j: nat, n: nat)
    requires j <= n <= |lines|
  {
    forall k :: j <= k < n ==> !lines[k].Decoded?
  }

  /** `max` undecodable lines, with no decodable one between them, end at line n - 1. */
  ghost predicate GiveUpPoint(lines: seq<Line>, n: nat, max: nat)
    requires n <= |lines|
  {
    && n > 0 && lines[n - 1].Undecodable?
    && exists j: nat :: j <= n && NoneDecodes(lines, j, n) && Undecodables(lines, j, n) >= max
  }

  // ------------------------------------------------- the loop

  /**
   handleDecodeFailure and recordParseFailure, for the `consecutive`-th failure in a
   row. `delivers` says whether a delivery succeeds; `exit` is why the loop ends, if
   so. `giveUp` is whether a marker was queued when give-up fired, if it did: it
   fires before the marker of its own run is delivered.
   */
  method HandleDecodeFailure(consecutive: nat, max: nat, gapQueued: bool, delivers: bool)
    returns (marker: seq<Message>, exit: Option<Exit>, giveUp: Option<bool>)
    ensures giveUp == if consecutive >= max then Some(gapQueued) else None
    ensures marker == if !gapQueued && delivers then [Gap] else []
    ensures exit == if !gapQueued && !delivers then Some(Stopped)
                    else if consecutive >= max then Some(GaveUp) else None
  {
    marker, giveUp := [], None;
    var queued := gapQueued;
    if consecutive >= max {
      giveUp := Some(queued);
    }
    if !queued {
      if !delivers {
        return marker, Some(Stopped), giveUp;
      }
      marker := [Gap];
      queued := true;
    }
    return marker, if giveUp.Some? then Some(GaveUp) else None, giveUp;
  }

  /** classifyAndRoute on a decoded line. */
  method ClassifyAndRoute(line: Line, gapQueued: bool, delivers: bool)
    returns (message: seq<Message>, reply: seq<Reply>, continueLoop: bool, nextGapQueued: bool)
    requires line.Decoded?
    ensures message == if !delivers then []
                       else if line.verb.Some? then [MessageOf(line)]
                       else if Bad(line) && !gapQueued then [Gap] else []
    ensures reply == ReplyAt(line)
    ensures continueLoop <==> delivers || IsReply(line) || (Bad(line) && gapQueued)
    ensures nextGapQueued <==> Bad(line)
  {
    if line.verb.Some? {
      return if delivers then [MessageOf(line)] else [], [], delivers, false;
    }
    if line.id.Some? {
      return [], [Reply(line.id.value, line.body)], true, false;
    }
    if gapQueued {
      return [], [], true, true;
    }
    return if delivers then [Gap] else [], [], delivers, true;
  }

  /** What the loop knows before reading line `read`; line `from` is where the stretch without decodable lines starts. */
  ghost predicate LoopInv(lines: seq<Line>, read: nat, gapQueued: bool, from: nat, consecutive: nat, max: nat) {
    && read <= |lines|
    && (gapQueued <==> InBadRun(lines, read))
    && from <= read && NoneDecodes(lines, from, read) && (from > 0 ==> lines[from - 1].Decoded?)
    && consecutive == Undecodables(lines, from, read) < max
    && NoGiveUpBefore(lines, read + 1, max)
  }

  ghost predicate NoGiveUpBefore(lines: seq<Line>, m: nat, max: nat) {
    m == 0 || (NoGiveUpBefore(lines, m - 1, max) && (m - 1 <= |lines| ==> !GiveUpPoint(lines, m - 1, max)))
  }

  lemma {:induction false} NoGiveUpMeans(lines: seq<Line>, m: nat, max: nat)
    ensures NoGiveUpBefore(lines, m, max) <==> forall n :: 0 <= n < m && n <= |lines| ==> !GiveUpPoint(lines, n, max)
  {
    if m > 0 {
      NoGiveUpMeans(lines, m - 1, max);
    }
  }

  lemma AtStart(lines: seq<Line>, max: nat)
    requires max > 0
    ensures LoopInv(lines, 0, false, 0, 0, max)
  {
    assert NoGiveUpBefore(lines, 0, max) && !GiveUpPoint(lines, 0, max);
    assert NoGiveUpBefore(lines, 1, max);
  }

  lemma AfterEmpty(lines: seq<Line>, read: nat, gapQueued: bool, from: nat, consecutive: nat, max: nat)
    requires LoopInv(lines, read, gapQueued, from, consecutive, max) && read < |lines| && lines[read].Empty?
    ensures LoopInv(lines, read + 1, gapQueued, from, consecutive, max)
    ensures Emitted(lines, read + 1) == Emitted(lines, read) && Replies(lines, read + 1) == Replies(lines, read)
  {
    BadRunStep(lines, read);
  }

  lemma AfterUndecodable(lines: seq<Line>, read: nat, gapQueued: bool, from: nat, consecutive: nat, max: nat)
    requires LoopInv(lines, read, gapQueued, from, consecutive, max) && read < |lines| && lines[read].Undecodable?
    ensures GiveUpPoint(lines, read + 1, max) <==> consecutive + 1 >= max
    ensures consecutive + 1 < max ==> LoopInv(lines, read + 1, true, from, consecutive + 1, max)
    ensures EmitAt(lines, read) == if gapQueued then [] else [Gap]
    ensures Emitted(lines, read + 1) == Emitted(lines, read) + (if gapQueued then [] else [Gap])
    ensures Replies(lines, read + 1) == Replies(lines, read)
  {
    BadRunStep(lines, read);
    GiveUpIff(lines, from, read + 1, max);
  }

  lemma AfterDecoded(lines: seq<Line>, read: nat, gapQueued: bool, from: nat, consecutive: nat, max: nat)
    requires LoopInv(lines, read, gapQueued, from, consecutive, max) && read < |lines| && lines[read].Decoded?
    ensures LoopInv(lines, read + 1, Bad(lines[read]), read + 1, 0, max)
    ensures EmitAt(lines, read) == if lines[read].verb.Some? then [MessageOf(lines[read])]
                                   else if Bad(lines[read]) && !gapQueued then [Gap] else []
    ensures Emitted(lines, read + 1) == Emitted(lines, read) + EmitAt(lines, read)
    ensures Replies(lines, read + 1) == Replies(lines, read) + ReplyAt(lines[read])
    ensures !GiveUpPoint(lines, read + 1, max)
  {
    BadRunStep(lines, read);
  }

  /** What the loop knows when it ends by `exit` after `read` lines. */
  ghost predicate LoopEnded(lines: seq<Line>, read: nat, max: nat, room: Option<nat>,
                        out: seq<Message>, replies: seq<Reply>, exit: Exit, giveUp: Option<bool>) {
    && 0 < read <= |lines|
    && replies == Replies(lines, read)
    && (exit.Stopped? || (exit.GaveUp? && GiveUpPoint(lines, read, max)))
    && (exit.Stopped? ==> room == Some(|out|) && out == Emitted(lines, read - 1) && EmitAt(lines, read - 1) != [])
    && (exit.GaveUp? ==> out == Emitted(lines, read) && Gap in out)
    && NoGiveUpBefore(lines, read, max)
    && giveUp == if GiveUpPoint(lines, read, max) then Some(InBadRun(lines, read - 1)) else None
  }

  /** What a line that does not decode leads to. */
  lemma UndecodableOutcome(lines: seq<Line>, read: nat, out: seq<Message>, consecutive: nat,
                           gapQueued: bool, from: nat, max: nat, room: Option<nat>, marker: seq<Message>)
    requires LoopInv(lines, read, gapQueued, from, consecutive, max)
    requires read < |lines| && lines[read].Undecodable? && out == Emitted(lines, read)
    requires marker == if !gapQueued && room != Some(|out|) then [Gap] else []
    ensures var goesOn := gapQueued || room != Some(|out|);
            var replies := Replies(lines, read);
            && replies == Replies(lines, read + 1)
            && (goesOn && consecutive + 1 < max ==>
                  LoopInv(lines, read + 1, true, from, consecutive + 1, max) && out + marker == Emitted(lines, read + 1))
            && (goesOn && consecutive + 1 >= max ==>
                  LoopEnded(lines, read + 1, max, room, out + marker, replies, GaveUp, Some(gapQueued)))
            && (!goesOn ==>
                  LoopEnded(lines, read + 1, max, room, out + marker, replies, Stopped,
                            if consecutive + 1 >= max then Some(gapQueued) else None))
  {
    AfterUndecodable(lines, read, gapQueued, from, consecutive, max);
    assert marker == [] ==> out + marker == out;
    if consecutive + 1 >= max && (gapQueued || room != Some(|out|)) {
      GiveUpHasMarker(lines, read + 1, max);
    }
  }

  /** What a decoded line leads to. */
  lemma DecodedOutcome(lines: seq<Line>, read: nat, out: seq<Message>, consecutive: nat,
                       gapQueued: bool, from: nat, max: nat, room: Option<nat>, message: seq<Message>, goesOn: bool)
    requires LoopInv(lines, read, gapQueued, from, consecutive, max)
    requires read < |lines| && lines[read].Decoded? && out == Emitted(lines, read)
    requires message == if room == Some(|out|) then []
                        else if lines[read].verb.Some? then [MessageOf(lines[read])]
                        else if Bad(lines[read]) && !gapQueued then [Gap] else []
    requires goesOn <==> room != Some(|out|) || IsReply(lines[read]) || (Bad(lines[read]) && gapQueued)
    ensures var replies := Replies(lines, read) + ReplyAt(lines[read]);
            && replies == Replies(lines, read + 1)
            && (goesOn ==> LoopInv(lines, read + 1, Bad(lines[read]), read + 1, 0, max)
                           && out + message == Emitted(lines, read + 1))
            && (!goesOn ==> LoopEnded(lines, read + 1, max, room, out + message, replies, Stopped, None))
  {
    AfterDecoded(lines, read, gapQueued, from, consecutive, max);
    assert message == [] ==> out + message == out;
  }

  /** The loop body for a line that is not blank. */
  method HandleLine(lines: seq<Line>, read: nat, out: seq<Message>, replies: seq<Reply>, consecutive: nat,
                    gapQueued: bool, ghost from: nat, max: nat, room: Option<nat>)
    returns (out': seq<Message>, replies': seq<Reply>, consecutive': nat, gapQueued': bool, ghost from': nat,
             exit: Option<Exit>, giveUp: Option<bool>)
    requires LoopInv(lines, read, gapQueued, from, consecutive, max)
    requires read < |lines| && !lines[read].Empty?
    requires out == Emitted(lines, read) && replies == Replies(lines, read)
    requires room.Some? ==> |out| <= room.value
    ensures room.Some? ==> |out'| <= room.value
    ensures exit.None? ==> LoopInv(lines, read + 1, gapQueued', from', consecutive', max) && giveUp.None?
    ensures exit.None? ==> out' == Emitted(lines, read + 1) && replies' == Replies(lines, read + 1)
    ensures exit.Some? ==> LoopEnded(lines, read + 1, max, room, out', replies', exit.value, giveUp)
  {
    var line := lines[read];
    var delivers := room != Some(|out|);
    if line.Undecodable? {
      var marker;
      marker, exit, giveUp := HandleDecodeFailure(consecutive + 1, max, gapQueued, delivers);
      UndecodableOutcome(lines, read, out, consecutive, gapQueued, from, max, room, marker);
      out', replies' := out + marker, replies;
      consecutive', gapQueued', from' := consecutive + 1, true, from;
    } else {
      var message, reply, continueLoop;
      message, reply, continueLoop, gapQueued' := ClassifyAndRoute(line, gapQueued, delivers);
      DecodedOutcome(lines, read, out, consecutive, gapQueued, from, max, room, message, continueLoop);
      out', replies' := out + message, replies + reply;
      consecutive', from', giveUp := 0, read + 1, None;
      exit := if continueLoop then None else Some(Stopped);
    }
  }

  /**
   One run of the read loop over `lines`, which end by `end` (end of file or a
   read error). `room` is how many deliveries succeed before the demux is
   stopped; None when it is never stopped. `giveUp` is None when give-up never
   fired, and else whether a marker was queued at that moment.
   */
  method ReadLoop(lines: seq<Line>, end: Exit, max: nat, room: Option<nat>)
    returns (out: seq<Message>, replies: seq<Reply>, exit: Exit, read: nat, giveUp: Option<bool>)
    requires end.SourceEnd? || end.ReadError?
    requires max > 0
    ensures read <= |lines|
    ensures replies == Replies(lines, read)
    ensures exit != Stopped ==> out == Emitted(lines, read)
    ensures exit == Stopped ==> room == Some(|out|)
    ensures exit == Stopped ==> read > 0 && out == Emitted(lines, read - 1) && EmitAt(lines, read - 1) != []
    ensures room.Some? ==> |out| <= room.value
    ensures exit == SourceEnd || exit == ReadError ==> exit == end && read == |lines|
    ensures exit == GaveUp ==> Gap in out && giveUp.Some?
    ensures forall n :: 0 <= n < read ==> !GiveUpPoint(lines, n, max)
    ensures exit != Stopped ==> (exit == GaveUp <==> GiveUpPoint(lines, read, max))
    ensures giveUp == if GiveUpPoint(lines, read, max) then Some(InBadRun(lines, read - 1)) else None
  {
    ghost var gapQueued, from, consecutive;
    out, replies, exit, read, giveUp, gapQueued, from, consecutive := Consume(lines, end, max, room);
    assert NoGiveUpBefore(lines, read, max);
    NoGiveUpMeans(lines, read, max);
  }

  /** Reads until the lines or the loop end. */
  method Consume(lines: seq<Line>, end: Exit, max: nat, room: Option<nat>)
    returns (out: seq<Message>, replies: seq<Reply>, exit: Exit, read: nat, giveUp: Option<bool>,
             ghost open: bool, ghost from: nat, ghost count: nat)
    requires end.SourceEnd? || end.ReadError?
    requires max > 0
    ensures room.Some? ==> |out| <= room.value
    ensures exit == end ==>
              && read == |lines| && giveUp.None? && LoopInv(lines, read, open, from, count, max)
              && out == Emitted(lines, read) && replies == Replies(lines, read)
    ensures exit != end ==> LoopEnded(lines, read, max, room, out, replies, exit, giveUp)
  {
    out, replies, read, giveUp := [], [], 0, None;
    var consecutive := 0;
    var gapQueued := false;
    from, open, count := 0, false, 0;
    AtStart(lines, max);
    while read < |lines|
      invariant LoopInv(lines, read, gapQueued, from, consecutive, max)
      invariant out == Emitted(lines, read) && replies == Replies(lines, read)
      invariant room.Some? ==> |out| <= room.value
      invariant giveUp.None?
    {
      if lines[read].Empty? {
        AfterEmpty(lines, read, gapQueued, from, consecutive, max);
      } else {
        var stop;
        out, replies, consecutive, gapQueued, from, stop, giveUp :=
          HandleLine(lines, read, out, replies, consecutive, gapQueued, from, max, room);
        if stop.Some? {
          return out, replies, stop.value, read + 1, giveUp, gapQueued, from, consecutive;
        }
      }
      read := read + 1;
    }
    return out, replies, end, read, giveUp, gapQueued, from, consecutive;
  }

  lemma BadRunStep(lines: seq<Line>, i: nat)
    requires i < |lines|
    ensures InBadRun(lines, i + 1) <==> Bad(lines[i]) || (lines[i].Empty? && InBadRun(lines, i))
  {
    assert Bad(lines[i]) ==> InBadRun(lines, i + 1);
  }

  lemma {:induction false} UndecodablesShrink(lines: seq<Line>, i: nat, j: nat, n: nat)
    requires i <= j <= n <= |lines|
    ensures Undecodables(lines, j, n) <= Undecodables(lines, i, n)
    decreases n
  {
    if j < n {
      UndecodablesShrink(lines, i, j, n - 1);
    }
  }

  /** The loop's counter decides the give-up point exactly. */
  lemma GiveUpIff(lines: seq<Line>, from: nat, n: nat, max: nat)
    requires 0 < n <= |lines| && lines[n - 1].Undecodable?
    requires from <= n && NoneDecodes(lines, from, n) && (from > 0 ==> lines[from - 1].Decoded?)
    ensures GiveUpPoint(lines, n, max) <==> Undecodables(lines, from, n) >= max
  {
    forall j: nat | j <= n && NoneDecodes(lines, j, n)
      ensures Undecodables(lines, j, n) <= Undecodables(lines, from, n)
    {
      assert from <= j;
      UndecodablesShrink(lines, from, j, n);
    }
  }

  // ------------------------------------------------- what the emission promises

  /**
   Line by line (sections 4, 4.1 and 5 of the JSON-RPC 2.0 specification): a method
   with an id is a request, a method alone a notification, an id alone a response,
   and anything else, or what does not decode, a marker if it opens a malformed run.
   */
  lemma LineMeaning(lines: seq<Line>, i: nat)
    requires i < |lines|
    ensures match lines[i]
            case Decoded(Some(id), Some(verb), body) =>
              EmitAt(lines, i) == [Request(id, verb, body)] && ReplyAt(lines[i]) == []
            case Decoded(None, Some(verb), body) =>
              EmitAt(lines, i) == [Note(verb, body)] && ReplyAt(lines[i]) == []
            case Decoded(Some(id), None, body) =>
              EmitAt(lines, i) == [] && ReplyAt(lines[i]) == [Reply(id, body)]
            case Decoded(None, None, _) =>
              EmitAt(lines, i) == (if InBadRun(lines, i) then [] else [Gap]) && ReplyAt(lines[i]) == []
            case Undecodable =>
              EmitAt(lines, i) == (if InBadRun(lines, i) then [] else [Gap]) && ReplyAt(lines[i]) == []
            case Empty => EmitAt(lines, i) == [] && ReplyAt(lines[i]) == []
  {
  }

  /** What opens a malformed run and what ends it. */
  lemma RunMeaning(lines: seq<Line>, i: nat)
    requires i < |lines|
    ensures match lines[i]
            case Empty => InBadRun(lines, i + 1) <==> InBadRun(lines, i)
            case Undecodable => InBadRun(lines, i + 1)
            case Decoded(id, verb, _) => InBadRun(lines, i + 1) <==> id == None && verb == None
  {
    BadRunStep(lines, i);
  }

  /** Lines `i..j` are bad or blank: one malformed run, seen from `i`. */
  ghost predicate OneRun(lines: seq<Line>, i: nat, j: nat)
    requires i <= j < |lines|
  {
    Bad(lines[i]) && forall k :: i <= k <= j ==> Bad(lines[k]) || lines[k].Empty?
  }

  /** Every bad line belongs to a run whose first line carries the one marker of that run. */
  lemma {:induction false} RunMarker(lines: seq<Line>, i: nat) returns (s: nat)
    requires i < |lines| && Bad(lines[i])
    ensures s <= i && OneRun(lines, s, i) && EmitAt(lines, s) == [Gap]
    ensures forall k :: s < k <= i ==> EmitAt(lines, k) == []
  {
    if !InBadRun(lines, i) {
      s := i;
    } else {
      var j: nat :| j < i && Bad(lines[j]) && forall k :: j < k < i ==> lines[k].Empty?;
      s := RunMarker(lines, j);
    }
  }

  /** Two markers are never queued for one run: something decodable lies between them. */
  lemma MarkersSeparated(lines: seq<Line>, i: nat, j: nat)
    requires i < j < |lines|
    requires EmitAt(lines, i) == [Gap] && EmitAt(lines, j) == [Gap]
    ensures exists k :: i < k < j && lines[k].Decoded? && !Bad(lines[k])
  {
    if forall k :: i < k < j ==> Bad(lines[k]) || lines[k].Empty? {
      var k := LastBad(lines, i, j);
      assert InBadRun(lines, j);
    }
  }

  lemma {:induction false} LastBad(lines: seq<Line>, i: nat, j: nat) returns (k: nat)
    requires i < j <= |lines| && OneRun(lines, i, j - 1)
    ensures i <= k < j && Bad(lines[k]) && forall m :: k < m < j ==> lines[m].Empty?
    decreases j
  {
    if Bad(lines[j - 1]) {
      k := j - 1;
    } else {
      k := LastBad(lines, i, j - 1);
    }
  }

  lemma {:induction false} EmittedMono(lines: seq<Line>, m: nat, n: nat)
    requires m <= n <= |lines|
    ensures Emitted(lines, m) <= Emitted(lines, n)
    decreases n
  {
    if m < n {
      EmittedMono(lines, m, n - 1);
    }
  }

  /** The method frame line `i` is, if it is one. */
  function FrameAt(lines: seq<Line>, i: nat): seq<Message>
    requires i < |lines|
  {
    if lines[i].Decoded? && lines[i].verb.Some? then [MessageOf(lines[i])] else []
  }

  /** The method frames among the first n lines, in arrival order. */
  ghost function MethodFrames(lines: seq<Line>, n: nat): seq<Message>
    requires n <= |lines|
  {
    if n == 0 then [] else MethodFrames(lines, n - 1) + FrameAt(lines, n - 1)
  }

  function WithoutGaps(ms: seq<Message>): seq<Message> {
    if ms == [] then []
    else WithoutGaps(ms[..|ms| - 1]) + (if ms[|ms| - 1].Gap? then [] else [ms[|ms| - 1]])
  }

  lemma WithoutGapsSnoc(ms: seq<Message>, m: seq<Message>)
    requires |m| <= 1
    ensures WithoutGaps(ms + m) == WithoutGaps(ms) + WithoutGaps(m)
  {
    if m == [] {
      assert ms + m == ms;
    } else {
      assert (ms + m)[..|ms + m| - 1] == ms;
      assert m[..|m| - 1] == [];
    }
  }

  lemma EmitAtIsFrameOrGap(lines: seq<Line>, i: nat)
    requires i < |lines|
    ensures WithoutGaps(EmitAt(lines, i)) == FrameAt(lines, i)
  {
    assert WithoutGaps([]) == [];
  }

  /** A function that treats each line's emission separately is determined by them. */
  lemma {:induction false} LineByLine(lines: seq<Line>, n: nat, f: seq<Message> -> seq<Message>)
    requires n <= |lines| && f([]) == []
    requires forall ms, i {:trigger f(ms + EmitAt(lines, i))} :: 0 <= i < |lines| ==>
      f(ms + EmitAt(lines, i)) == f(ms) + FrameAt(lines, i)
    ensures f(Emitted(lines, n)) == MethodFrames(lines, n)
  {
    if n > 0 {
      LineByLine(lines, n - 1, f);
    }
  }

  /** Leaving the markers out, exactly the method frames come out, in arrival order. */
  lemma FramesInOrder(lines: seq<Line>, n: nat)
    requires n <= |lines|
    ensures WithoutGaps(Emitted(lines, n)) == MethodFrames(lines, n)
  {
    forall ms: seq<Message>, i | 0 <= i < |lines|
      ensures WithoutGaps(ms + EmitAt(lines, i)) == WithoutGaps(ms) + FrameAt(lines, i)
    {
      EmitAtIsFrameOrGap(lines, i);
      WithoutGapsSnoc(ms, EmitAt(lines, i));
    }
    LineByLine(lines, n, WithoutGaps);
  }

  /** By the end of a give-up line, a marker has been emitted. */
  lemma GiveUpHasMarker(lines: seq<Line>, n: nat, max: nat)
    requires n <= |lines| && GiveUpPoint(lines, n, max)
    ensures Gap in Emitted(lines, n)
  {
    var s := RunMarker(lines, n - 1);
    EmittedMono(lines, s + 1, n);
    assert Emitted(lines, s + 1)[|Emitted(lines, s)|] == Gap;
  }

  /** Above a threshold of one the run is already open, so its marker was queued before give-up fired. */
  lemma GiveUpAfterMarker(lines: seq<Line>, n: nat, max: nat)
    requires n <= |lines| && GiveUpPoint(lines, n, max) && max > 1
    ensures InBadRun(lines, n - 1) && Gap in Emitted(lines, n - 1)
  {
    var j: nat :| j <= n && NoneDecodes(lines, j, n) && Undecodables(lines, j, n) >= max;
    UndecodableOpensRun(lines, j, n - 1);
    var i: nat :| i < n - 1 && Bad(lines[i]) && forall k :: i < k < n - 1 ==> lines[k].Empty?;
    var s := RunMarker(lines, i);
    EmittedMono(lines, s + 1, n - 1);
    assert Emitted(lines, s + 1)[|Emitted(lines, s)|] == Gap;
  }

  lemma {:induction false} UndecodableOpensRun(lines: seq<Line>, j: nat, m: nat)
    requires j <= m < |lines| && NoneDecodes(lines, j, m) && Undecodables(lines, j, m) > 0
    ensures InBadRun(lines, m)
    decreases m
  {
    BadRunStep(lines, m - 1);
    if !lines[m - 1].Undecodable? {
      UndecodableOpensRun(lines, j, m - 1);
    }
  }

  /**
   With a threshold of one it need not have been: give-up fires on this line before
   anything is queued, and if the marker's delivery is then stopped nothing ever is.
   */
  lemma GiveUpWithoutMarker()
    ensures var lines := [Undecodable];
            GiveUpPoint(lines, 1, 1) && !InBadRun(lines, 0) && Emitted(lines, 0) == [] && EmitAt(lines, 0) == [Gap]
  {
    var lines := [Undecodable];
    assert NoneDecodes(lines, 0, 1) && Undecodables(lines, 0, 1) == 1;
  }
}
