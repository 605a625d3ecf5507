/**
 Newline-delimited frames (internal/jsonrpc/framing.go): concurrent writers over
 one pipe that may accept fewer bytes than offered, and the line reader at the
 other end.
 */
module LineFraming {
  import opened Basics
  import Runs

  type Payload = seq<Byte>

  const LF: Byte := 10
  const CR: Byte := 13

  /** A frame is its payload and the terminating newline. */
  function Frame(p: Payload): (f: seq<Byte>) {
    p + [LF]
  }

  function Frames(ps: seq<Payload>): seq<Byte> {
    if ps == [] then [] else Frames(ps[..|ps| - 1]) + Frame(ps[|ps| - 1])
  }

  // ---------------------------------------------------------------- writing

  /** One call of the pipe's Write: takes up to n bytes, or stops early with an error. */
  datatype Outcome = Took(n: nat) | Broke(n: nat)

  /** The pipe under a LineWriter, and the loop that pushes one frame through it. */
  class LineWriter {
    var wire: seq<Byte>

    constructor ()
      ensures wire == []
    {
      wire := [];
    }

    /** WriteFrame under its mutex. `pipe` is how the pipe answers the k-th Write. */
    method WriteFrame(payload: Payload, pipe: nat -> Outcome) returns (ok: bool)
      requires forall k :: pipe(k).Took? ==> pipe(k).n > 0
      modifies this
      ensures ok ==> wire == old(wire) + Frame(payload)
      ensures !ok ==> exists k :: 0 <= k < |Frame(payload)| && wire == old(wire) + Frame(payload)[..k]
      ensures (forall k :: pipe(k).Took?) ==> ok
    {
      var line := Frame(payload);
      ghost var sent := 0;
      var call := 0;
      while |line| > 0
        invariant sent + |line| == |Frame(payload)|
        invariant line == Frame(payload)[sent..]
        invariant wire == old(wire) + Frame(payload)[..sent]
      {
        var most := if pipe(call).Broke? then |line| - 1 else |line|;
        var n := if pipe(call).n <= most then pipe(call).n else most;
        assert Frame(payload)[..sent + n] == Frame(payload)[..sent] + line[..n];
        wire := wire + line[..n];
        sent := sent + n;
        if pipe(call).Broke? {
          return false;
        }
        line := line[n..];
        call := call + 1;
      }
      return true;
    }
  }

  /** The goroutine inside WriteFrame's critical section. */
  datatype Holder = Holder(payload: Payload, sent: nat)

  /**
   `entered` logs the payloads in the order their writers took the mutex;
   `outcome` says how each finished call returned. `broken` is a pipe whose other
   end is gone.
   */
  datatype Pipe = Pipe(
    wire: seq<Byte>,
    closed: bool,
    broken: bool,
    holder: Option<Holder>,
    entered: seq<Payload>,
    outcome: seq<bool>)

  datatype Action =
    | Enter(p: Payload)  // a writer takes the mutex
    | Push(n: nat)       // the pipe accepts n more bytes of its frame
    | Leave              // the frame is out: return nil
    | Fail               // Write reports an error: return it
    | Close              // closes the pipe without taking the mutex
    | Break              // the process at the other end dies

  const FRESH := Pipe([], false, false, None, [], [])

  /** The pipe takes no more bytes, and never will again. */
  predicate Refuses(s: Pipe) {
    s.closed || s.broken
  }

  function Step(s: Pipe, a: Action): Pipe {
    match a
    case Enter(p) =>
      if s.holder.None? then s.(holder := Some(Holder(p, 0)), entered := s.entered + [p]) else s
    case Push(n) =>
      if s.holder.Some? && !Refuses(s) && s.holder.value.sent + n <= |Frame(s.holder.value.payload)| then
        var h := s.holder.value;
        s.(wire := s.wire + Frame(h.payload)[h.sent..h.sent + n], holder := Some(h.(sent := h.sent + n)))
      else s
    case Leave =>
      if s.holder.Some? && s.holder.value.sent == |Frame(s.holder.value.payload)| then
        s.(holder := None, outcome := s.outcome + [true])
      else s
    case Fail =>
      if s.holder.Some? && Refuses(s) && s.holder.value.sent < |Frame(s.holder.value.payload)| then
        s.(holder := None, outcome := s.outcome + [false])
      else s
    case Close => s.(closed := true)
    case Break => s.(broken := true)
  }

  /** `k` whole frames, in lock order, then the first `t` bytes of the next one. */
  ghost predicate WireShape(s: Pipe, k: nat, t: nat) {
    && k <= |s.entered|
    && (k < |s.entered| ==> t <= |Frame(s.entered[k])|)
    && s.wire == Frames(s.entered[..k]) + (if k < |s.entered| then Frame(s.entered[k])[..t] else [])
    && (if k < |s.entered| then t < |Frame(s.entered[k])| else t == 0)
  }

  ghost predicate Inv(s: Pipe) {
    && |s.outcome| + (if s.holder.Some? then 1 else 0) == |s.entered|
    && (s.holder.Some? ==>
          && s.holder.value.payload == s.entered[|s.entered| - 1]
          && s.holder.value.sent <= |Frame(s.holder.value.payload)|)
    && exists k: nat, t: nat :: Progress(s, k, t)
  }

  /** WireShape, with what the calls have returned or are about to. */
  ghost predicate Progress(s: Pipe, k: nat, t: nat) {
    && WireShape(s, k, t)
    && (forall i :: 0 <= i < |s.outcome| ==> (s.outcome[i] <==> i < k))
    && (if s.holder.None? then k < |s.entered| ==> Refuses(s)
        else if s.holder.value.sent == |Frame(s.holder.value.payload)| then k == |s.entered|
        else k < |s.entered| && (Refuses(s) || k == |s.entered| - 1)
             && (k == |s.entered| - 1 ==> t == s.holder.value.sent)
             && (k < |s.entered| - 1 ==> s.holder.value.sent == 0))
  }

  lemma PushMoves(s: Pipe, n: nat, k: nat, t: nat)
    requires s.holder.Some? && |s.outcome| + 1 == |s.entered| && s.holder.value.payload == s.entered[|s.entered| - 1]
    requires Progress(s, k, t) && Step(s, Push(n)) != s && n > 0
    ensures var h := s.holder.value;
            if h.sent + n < |Frame(h.payload)| then Progress(Step(s, Push(n)), k, h.sent + n)
            else Progress(Step(s, Push(n)), k + 1, 0)
  {
    var h := s.holder.value;
    var f := Frame(h.payload);
    assert f[..h.sent + n] == f[..h.sent] + f[h.sent..h.sent + n];
    if h.sent + n == |f| {
      assert f[..|f|] == f;
      assert s.entered[..k + 1][..k] == s.entered[..k];
    }
  }

  lemma PushKeeps(s: Pipe, n: nat)
    requires Inv(s) && Step(s, Push(n)) != s && n > 0
    ensures Inv(Step(s, Push(n)))
  {
    var k: nat, t: nat :| Progress(s, k, t);
    PushMoves(s, n, k, t);
  }

  lemma EnterKeeps(s: Pipe, p: Payload)
    requires Inv(s)
    ensures Inv(Step(s, Enter(p)))
  {
    var s' := Step(s, Enter(p));
    var k: nat, t: nat :| Progress(s, k, t);
    if s' != s {
      assert s'.entered[..k] == s.entered[..k];
      assert Frame(p)[..0] == [];
      assert Progress(s', k, t);
    }
  }

  lemma StepKeepsInv(s: Pipe, a: Action)
    requires Inv(s)
    ensures Inv(Step(s, a))
  {
    var s' := Step(s, a);
    if a.Push? && s' != s {
      PushKeeps(s, a.n);
    } else if a.Enter? {
      EnterKeeps(s, a.p);
    } else if s' != s {
      var k: nat, t: nat :| Progress(s, k, t);
      assert (s'.wire, s'.entered) == (s.wire, s.entered);
      assert Progress(s', k, t);
    }
  }

  /**
   Under any interleaving of writers, short writes, Close and a breaking pipe, the
   wire is whole frames in lock order followed by at most one truncated frame; a
   frame is truncated for good only once the pipe is closed or broken, and the
   calls that returned nil are exactly those whose frame is whole.
   */
  lemma {:induction false} WholeFramesInLockOrder(acts: seq<Action>)
    ensures var s := Runs.Exec(Step, FRESH, acts);
            exists k: nat, t: nat ::
              && WireShape(s, k, t)
              && (forall i :: 0 <= i < |s.outcome| ==> (s.outcome[i] <==> i < k))
              && (s.holder.None? && k < |s.entered| ==> Refuses(s))
              && (!Refuses(s) && s.holder.Some? ==> k >= |s.entered| - 1)
  {
    assert Inv(FRESH) by {
      assert Progress(FRESH, 0, 0);
    }
    forall s, a | Inv(s) ensures Inv(Step(s, a)) {
      StepKeepsInv(s, a);
    }
    Runs.Invariant(Step, Inv, FRESH, acts);
    var s := Runs.Exec(Step, FRESH, acts);
    var k: nat, t: nat :| Progress(s, k, t);
  }

  lemma Reachable(acts: seq<Action>)
    ensures Inv(Runs.Exec(Step, FRESH, acts))
  {
    assert Inv(FRESH) by {
      assert Progress(FRESH, 0, 0);
    }
    forall s, a | Inv(s) ensures Inv(Step(s, a)) {
      StepKeepsInv(s, a);
    }
    Runs.Invariant(Step, Inv, FRESH, acts);
  }

  /** A writer in the mutex can always leave: with its whole frame written, or with an error once the pipe refuses. */
  lemma WriterCanLeave(acts: seq<Action>) returns (more: seq<Action>)
    ensures var s, t := Runs.Exec(Step, FRESH, acts), Runs.Exec(Step, FRESH, acts + more);
            && t.holder.None? && t.entered == s.entered && Refuses(t) == Refuses(s) && |t.outcome| == |t.entered|
            && (!Refuses(s) ==> forall i :: |s.outcome| <= i < |t.outcome| ==> t.outcome[i])
  {
    Reachable(acts);
    var s := Runs.Exec(Step, FRESH, acts);
    if s.holder.None? {
      assert acts + [] == acts;
      return [];
    }
    var h := s.holder.value;
    var push := Push(|Frame(h.payload)| - h.sent);
    var out := if Refuses(s) && h.sent < |Frame(h.payload)| then Fail else Leave;
    more := [push, out];
    Runs.Split(Step, FRESH, acts, more);
    Runs.Follow(Step, s, more);
    assert more[1..] == [out];
    Runs.Follow(Step, Step(s, push), [out]);
  }

  /** On a pipe that takes bytes, a writer that finds the mutex free adds exactly its frame, in any two short writes, and returns nil. */
  lemma WriteThrough(s: Pipe, p: Payload, n: nat)
    requires s.holder.None? && !Refuses(s) && n <= |p| + 1
    ensures var t := Step(Step(Step(Step(s, Enter(p)), Push(n)), Push(|p| + 1 - n)), Leave);
            t == s.(wire := s.wire + p + [LF], entered := s.entered + [p], outcome := s.outcome + [true])
  {
    var f := p + [LF];
    assert Frame(p) == f;
    assert f[0..n] + f[n..|f|] == f;
    Regroup(s.wire, f[0..n], f[n..|f|]);
    Regroup(s.wire, p, [LF]);
  }

  /** Once the pipe is closed or has broken nothing more is ever written, and no call that takes the mutex from then on returns nil. */
  lemma NothingAfterRefusal(acts: seq<Action>, a: Action, more: seq<Action>)
    requires a.Close? || a.Break?
    ensures var s, t := Runs.Exec(Step, FRESH, acts), Runs.Exec(Step, FRESH, acts + [a] + more);
            && t.wire == s.wire && Refuses(t)
            && (s.holder.None? ==> forall i :: |s.outcome| <= i < |t.outcome| ==> !t.outcome[i])
  {
    var s := Runs.Exec(Step, FRESH, acts);
    Reachable(acts);
    Runs.Split(Step, FRESH, acts, [a]);
    Runs.Follow(Step, s, [a]);
    forall t, x | Refused(s, t) ensures Refused(s, Step(t, x)) {
    }
    Runs.Invariant(Step, t => Refused(s, t), Step(s, a), more);
    Runs.Split(Step, FRESH, acts + [a], more);
  }

  ghost predicate Refused(s: Pipe, t: Pipe) {
    && t.wire == s.wire && Refuses(t)
    && (s.holder.None? ==>
          && |s.outcome| <= |t.outcome|
          && (t.holder.Some? ==> t.holder.value.sent == 0)
          && forall i :: |s.outcome| <= i < |t.outcome| ==> !t.outcome[i])
  }

  // ---------------------------------------------------------------- reading

  datatype ReadResult = Line(line: Payload) | Eof | TooLong

  /** Index of the first newline, or the length when there is none. */
  function LineEnd(s: seq<Byte>): (e: nat)
    ensures e <= |s|
    ensures e < |s| ==> s[e] == LF
    ensures forall i :: 0 <= i < e ==> s[i] != LF
  {
    if s == [] || s[0] == LF then 0 else 1 + LineEnd(s[1..])
  }

  /** A line loses one trailing carriage return. */
  function DropCR(p: Payload): Payload {
    if p != [] && p[|p| - 1] == CR then p[..|p| - 1] else p
  }

  /** One ReadLine on the bytes still to come: its result and what it leaves unread. */
  function ReadSpec(rest: seq<Byte>, maxSize: nat): (ReadResult, seq<Byte>) {
    var e := LineEnd(rest);
    if e >= maxSize then (TooLong, rest)
    else if e < |rest| then (Line(DropCR(rest[..e])), rest[e + 1..])
    else if e > 0 then (Line(DropCR(rest)), [])
    else (Eof, [])
  }

  class LineReader {
    var rest: seq<Byte>
    var failed: bool  // the scanner has met a line that is too long
    const maxSize: nat

    constructor (input: seq<Byte>, maxSize: nat)
      ensures rest == input && !failed
      ensures this.maxSize == if maxSize < 2 * 1024 * 1024 then 2 * 1024 * 1024 else maxSize
    {
      rest, failed := input, false;
      this.maxSize := if maxSize < 2 * 1024 * 1024 then 2 * 1024 * 1024 else maxSize;
    }

    /** Up to and including the first line that is too long; the read loop stops there. */
    method ReadLine() returns (r: ReadResult)
      modifies this
      ensures !old(failed) ==> (r, rest) == ReadSpec(old(rest), maxSize) && (failed <==> r.TooLong?)
    {
      if failed {
        return TooLong;
      }
      var e := 0;
      while e < |rest| && rest[e] != LF && e < maxSize
        invariant e <= |rest| && e <= maxSize
        invariant forall i :: 0 <= i < e ==> rest[i] != LF
      {
        e := e + 1;
      }
      if e >= maxSize {
        failed := true;
        return TooLong;
      }
      if e < |rest| {
        r := Line(DropCR(rest[..e]));
        rest := rest[e + 1..];
      } else if e > 0 {
        assert rest == rest[..e];
        r := Line(DropCR(rest));
        rest := [];
      } else {
        r := Eof;
      }
    }
  }

  /** The lines a reader returns before end of input or a line that is too long. */
  function Lines(s: seq<Byte>, maxSize: nat): seq<Payload>
    decreases |s|
  {
    match ReadSpec(s, maxSize)
    case (Line(p), rest) => [p] + Lines(rest, maxSize)
    case _ => []
  }

  /** What JSON guarantees of a frame, and the reader's size limit. */
  predicate Readable(p: Payload, maxSize: nat) {
    && LF !in p
    && (p == [] || p[|p| - 1] != CR)
    && |p| < maxSize
  }

  lemma LineEndOf(p: Payload, rest: seq<Byte>)
    requires LF !in p
    ensures LineEnd(Frame(p) + rest) == |p|
  {
    var s := Frame(p) + rest;
    assert s[|p|] == LF;
    assert forall i :: 0 <= i < |p| ==> s[i] == p[i] && s[i] in p;
  }

  /**
   What one read makes of what is to come: a piece p up to the next newline, or up
   to the end of input. A piece that fills the reader is too long; otherwise it is
   the line, but for one trailing carriage return; and at the end there is nothing.
   */
  lemma ReadMeaning(p: Payload, rest: seq<Byte>, maxSize: nat)
    requires LF !in p
    ensures ReadSpec(p + [LF] + rest, maxSize) ==
            if |p| >= maxSize then (TooLong, p + [LF] + rest)
            else if p != [] && p[|p| - 1] == CR then (Line(p[..|p| - 1]), rest)
            else (Line(p), rest)
    ensures ReadSpec(p, maxSize) ==
            if |p| >= maxSize then (TooLong, p)
            else if p == [] then (Eof, [])
            else if p[|p| - 1] == CR then (Line(p[..|p| - 1]), [])
            else (Line(p), [])
  {
    var s := p + [LF] + rest;
    assert s == Frame(p) + rest;
    LineEndOf(p, rest);
    assert s[..|p|] == p && s[|p| + 1..] == rest;
    assert LineEnd(p) == |p|;
  }

  /** A framed payload is read back, and nothing after it touched, exactly when it is readable. */
  lemma {:induction false} ReadBack(p: Payload, rest: seq<Byte>, maxSize: nat)
    ensures ReadSpec(Frame(p) + rest, maxSize) == (Line(p), rest) <==> Readable(p, maxSize)
  {
    var s := Frame(p) + rest;
    var e := LineEnd(s);
    assert s[|p|] == LF;
    if LF !in p {
      LineEndOf(p, rest);
      assert s[..|p|] == p && s[|p| + 1..] == rest;
    } else {
      assert e < |p| by {
        var i :| 0 <= i < |p| && p[i] == LF;
        assert s[i] == LF;
      }
      assert |s[e + 1..]| > |rest|;
    }
  }

  lemma LinesCons(p: Payload, tail: seq<Byte>, maxSize: nat)
    requires Readable(p, maxSize)
    ensures Lines(Frame(p) + tail, maxSize) == [p] + Lines(tail, maxSize)
  {
    ReadBack(p, tail, maxSize);
  }

  /** Splitting whole frames into lines gives back the payloads, then reads on. */
  lemma {:induction false} LinesOfFrames(ps: seq<Payload>, rest: seq<Byte>, maxSize: nat)
    requires forall i :: 0 <= i < |ps| ==> Readable(ps[i], maxSize)
    ensures Lines(Frames(ps) + rest, maxSize) == ps + Lines(rest, maxSize)
    decreases |ps|
  {
    if ps == [] {
      assert Frames(ps) + rest == rest;
    } else {
      var init, p := ps[..|ps| - 1], ps[|ps| - 1];
      assert Frames(ps) == Frames(init) + Frame(p);
      var rest' := Frame(p) + rest;
      LinesOfFrames(init, rest', maxSize);
      LinesCons(p, rest, maxSize);
      Regroup(Frames(init), Frame(p), rest);
      Regroup(init, [p], Lines(rest, maxSize));
      assert ps == init + [p];
    }
  }

  /**
   End to end: a reader of the wire sees, in lock order, every payload whose call
   returned nil, and only what is left of one truncated frame after them.
   */
  lemma ReaderSeesAcceptedFrames(acts: seq<Action>, maxSize: nat) returns (k: nat)
    requires var s := Runs.Exec(Step, FRESH, acts);
             forall i :: 0 <= i < |s.entered| ==> Readable(s.entered[i], maxSize)
    ensures var s := Runs.Exec(Step, FRESH, acts);
            && k <= |s.entered|
            && (forall i :: 0 <= i < |s.outcome| ==> (s.outcome[i] <==> i < k))
            && s.entered[..k] <= Lines(s.wire, maxSize)
            && |Lines(s.wire, maxSize)| <= k + 1
  {
    WholeFramesInLockOrder(acts);
    var s := Runs.Exec(Step, FRESH, acts);
    var j: nat, t: nat :|
      && WireShape(s, j, t)
      && (forall i :: 0 <= i < |s.outcome| ==> (s.outcome[i] <==> i < j));
    k := j;
    var tail := if k < |s.entered| then Frame(s.entered[k])[..t] else [];
    LinesOfFrames(s.entered[..k], tail, maxSize);
    TruncatedFrameIsAtMostOneLine(tail, maxSize);
  }

  lemma TruncatedFrameIsAtMostOneLine(tail: seq<Byte>, maxSize: nat)
    requires LF !in tail
    ensures |Lines(tail, maxSize)| <= 1
  {
    assert LineEnd(tail) == |tail|;
    assert Lines([], maxSize) == [];
  }
}
