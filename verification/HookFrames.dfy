/**
 The length-prefixed frames between the SDK's hook listener
 (internal/hookbridge/listener.go) and the hook shim
 (cmd/codex-sdk-hook-shim/main.go), which implement the same codec twice.
 */
module HookFrames {
  import opened Basics

  const MAX_FRAME_SIZE := 16 * 1024 * 1024
  const WRAP := 0x1_0000_0000

  // ------------------------------------------------- the header

  /** binary.BigEndian.PutUint32 */
  function PutUint32(v: nat): (h: seq<Byte>)
    requires v < WRAP
    ensures |h| == 4
  {
    [v / 0x100_0000, v / 0x1_0000 % 256, v / 256 % 256, v % 256]
  }

  /** binary.BigEndian.Uint32 */
  function Uint32(h: seq<Byte>): (v: nat)
    requires |h| == 4
    ensures v < WRAP
  {
    var (a: nat, b: nat, c: nat, d: nat) := (h[0], h[1], h[2], h[3]);
    a * 0x100_0000 + b * 0x1_0000 + c * 256 + d
  }

  /** The two are inverse on every 32-bit value and on every four bytes. */
  lemma HeaderInverse(v: nat, h: seq<Byte>)
    requires v < WRAP && |h| == 4
    ensures Uint32(PutUint32(v)) == v
    ensures PutUint32(Uint32(h)) == h
  {
    var (a: nat, b: nat, c: nat, d: nat) := (h[0], h[1], h[2], h[3]);
    var w := Uint32(h);
    assert w / 256 == a * 0x1_0000 + b * 256 + c;
    assert w / 0x1_0000 == a * 256 + b;
    assert w / 0x100_0000 == a;
  }

  /** uint32(len(payload)) wraps. */
  function Encode(p: seq<Byte>): seq<Byte> {
    PutUint32(|p| % WRAP) + p
  }

  function EncodeAll(ps: seq<seq<Byte>>): seq<Byte> {
    if ps == [] then [] else Encode(ps[0]) + EncodeAll(ps[1..])
  }

  // ------------------------------------------------- reading

  /** How the byte stream ends once its bytes are used up. */
  datatype End = Closed | Reset

  datatype Error = EOF | UnexpectedEOF | ConnectionReset | TooLarge(n: nat)

  datatype Read = Got(payload: seq<Byte>) | Failed(error: Error)

  /** Which implementation reads. */
  datatype Side = Sdk | Shim

  /** io.ReadFull's error when only `got` of the bytes asked for were there. */
  function ShortRead(got: nat, end: End): Error {
    if end.Reset? then ConnectionReset else if got == 0 then EOF else UnexpectedEOF
  }

  /** readFrame as a function of the bytes to come: its result and what is left unread. */
  function ReadFrameOf(side: Side, s: seq<Byte>, end: End): (Read, seq<Byte>) {
    if |s| < 4 then (Failed(ShortRead(|s|, end)), [])
    else
      var n := Uint32(s[..4]);
      if n > MAX_FRAME_SIZE then (Failed(TooLarge(n)), s[4..])
      else if |s| < 4 + n then
        var e := ShortRead(|s| - 4, end);
        (Failed(if side.Sdk? && e.EOF? then UnexpectedEOF else e), [])
      else (Got(s[4..4 + n]), s[4 + n..])
  }

  /** A connection as its reader sees it: the bytes to come and then the end. */
  class Connection {
    var incoming: seq<Byte>
    const end: End

    constructor (bytes: seq<Byte>, end: End)
      ensures incoming == bytes && this.end == end
    {
      incoming, this.end := bytes, end;
    }

    /** io.ReadFull into the whole of `buf`; the k-th Read yields at most `chunk(k)` bytes. */
    method ReadFull(buf: array<Byte>, chunk: nat -> nat) returns (error: Option<Error>)
      requires forall k :: chunk(k) > 0
      modifies this`incoming, buf
      ensures error.None? <==> |old(incoming)| >= buf.Length
      ensures error.None? ==> old(incoming) == buf[..] + incoming
      ensures error.Some? ==> error.value == ShortRead(|old(incoming)|, end) && incoming == []
    {
      var n := 0;
      var call := 0;
      while n < buf.Length
        invariant 0 <= n <= buf.Length
        invariant old(incoming) == buf[..n] + incoming
      {
        if incoming == [] {
          return Some(ShortRead(n, end));
        }
        var room := buf.Length - n;
        var m := if chunk(call) < room then chunk(call) else room;
        m := if |incoming| < m then |incoming| else m;
        ghost var before := incoming;
        Place(buf, n, incoming[..m]);
        incoming := incoming[m..];
        assert before == before[..m] + incoming;
        n := n + m;
        call := call + 1;
      }
      assert buf[..n] == buf[..];
      return None;
    }

    /** Copies `bytes` to `buf` from index n. */
    static method Place(buf: array<Byte>, n: nat, bytes: seq<Byte>)
      requires n + |bytes| <= buf.Length
      modifies buf
      ensures buf[..n + |bytes|] == old(buf[..n]) + bytes
    {
      for i := 0 to |bytes|
        invariant buf[..n + i] == old(buf[..n]) + bytes[..i]
      {
        buf[n + i] := bytes[i];
      }
    }

    /** Both readFrame implementations; they differ in the error they make of a missing body. */
    method ReadFrame(side: Side, chunk: nat -> nat) returns (r: Read)
      requires forall k :: chunk(k) > 0
      modifies this`incoming
      ensures (r, incoming) == ReadFrameOf(side, old(incoming), end)
    {
      var header := new Byte[4](_ => 0);
      var err := ReadFull(header, chunk);
      if err.Some? {
        return Failed(err.value);
      }
      ghost var s := old(incoming);
      assert s[..4] == header[..] && s[4..] == incoming;
      var n := Uint32(header[..]);
      if n > MAX_FRAME_SIZE {
        return Failed(TooLarge(n));
      }
      var buf := new Byte[n](_ => 0);
      err := ReadFull(buf, chunk);
      if err.Some? {
        return Failed(if side.Sdk? && err.value.EOF? then UnexpectedEOF else err.value);
      }
      assert s == header[..] + (buf[..] + incoming);
      assert s[4..4 + n] == buf[..] && s[4 + n..] == incoming;
      return Got(buf[..]);
    }
  }

  /** One Write of the connection: all of it, or an error after some of it. */
  datatype Written = All | Broke(n: nat)

  class Writer {
    var wire: seq<Byte>

    constructor ()
      ensures wire == []
    {
      wire := [];
    }

    method Write(bytes: seq<Byte>, outcome: Written) returns (ok: bool)
      modifies this
      ensures ok <==> outcome.All?
      ensures ok ==> wire == old(wire) + bytes
      ensures exists k :: 0 <= k <= |bytes| && wire == old(wire) + bytes[..k]
    {
      var k := if outcome.All? || outcome.n > |bytes| then |bytes| else outcome.n;
      wire := wire + bytes[..k];
      return outcome.All?;
    }

    /** writeFrame: header, then body. */
    method WriteFrame(payload: seq<Byte>, header: Written, body: Written) returns (ok: bool)
      modifies this
      ensures ok <==> header.All? && body.All?
      ensures ok ==> wire == old(wire) + Encode(payload)
      ensures exists k :: 0 <= k <= |Encode(payload)| && wire == old(wire) + Encode(payload)[..k]
    {
      var h := PutUint32(|payload| % WRAP);
      ok := Write(h, header);
      if !ok {
        ghost var k :| 0 <= k <= |h| && wire == old(wire) + h[..k];
        assert Encode(payload)[..k] == h[..k];
        return;
      }
      label sent:
      ok := Write(payload, body);
      ghost var k :| 0 <= k <= |payload| && wire == old@sent(wire) + payload[..k];
      assert Encode(payload)[..4 + k] == h + payload[..k];
    }
  }

  // ------------------------------------------------- what the codec promises

  /**
   The frame on the wire: four bytes that spell the payload's length modulo 2^32,
   most significant first, and then the payload.
   */
  lemma WireFormat(p: seq<Byte>)
    ensures var f := Encode(p);
            && |f| == 4 + |p| && f[4..] == p
            && var (a: nat, b: nat, c: nat, d: nat) := (f[0], f[1], f[2], f[3]);
               a * 0x100_0000 + b * 0x1_0000 + c * 0x100 + d == |p| % 0x1_0000_0000
  {
    var n := |p| % WRAP;
    HeaderInverse(n, [0, 0, 0, 0]);
    assert Encode(p)[..4] == PutUint32(n);
  }

  /** A written frame reads back, leaving what follows it, exactly when it is at most 16 MiB. */
  lemma FrameRoundTrip(side: Side, p: seq<Byte>, rest: seq<Byte>, end: End)
    ensures ReadFrameOf(side, Encode(p) + rest, end) == (Got(p), rest) <==> |p| <= 16 * 1024 * 1024
  {
    var s := Encode(p) + rest;
    assert s[..4] == PutUint32(|p| % WRAP);
    HeaderInverse(|p| % WRAP, [0, 0, 0, 0]);
    if |p| <= MAX_FRAME_SIZE {
      assert s[4..4 + |p|] == p && s[4 + |p|..] == rest;
    }
  }

  /** Reads one frame after another: the payloads, or the error that stopped it. */
  function ReadFrames(side: Side, n: nat, s: seq<Byte>, end: End): (Option<seq<seq<Byte>>>, seq<Byte>) {
    if n == 0 then (Some([]), s)
    else
      var (r, rest) := ReadFrameOf(side, s, end);
      if r.Failed? then (None, rest)
      else
        var (more, rest') := ReadFrames(side, n - 1, rest, end);
        (if more.None? then None else Some([r.payload] + more.value), rest')
  }

  /** Any list of frames of at most 16 MiB, read by either side, comes back with the rest untouched. */
  lemma {:induction false} RoundTrip(side: Side, ps: seq<seq<Byte>>, rest: seq<Byte>, end: End)
    requires forall p :: p in ps ==> |p| <= MAX_FRAME_SIZE
    ensures ReadFrames(side, |ps|, EncodeAll(ps) + rest, end) == (Some(ps), rest)
    decreases |ps|
  {
    if ps == [] {
      assert EncodeAll(ps) + rest == rest;
    } else {
      var p, qs := ps[0], ps[1..];
      var later := EncodeAll(qs) + rest;
      assert EncodeAll(ps) + rest == Encode(p) + later by {
        Regroup(Encode(p), EncodeAll(qs), rest);
      }
      assert ReadFrames(side, |qs| + 1, Encode(p) + later, end) == (Some([p] + qs), rest) by {
        RoundTrip(side, qs, rest, end);
        ReadFirst(side, p, later, end, |qs|);
      }
      assert [p] + qs == ps;
    }
  }

  lemma ReadFirst(side: Side, p: seq<Byte>, later: seq<Byte>, end: End, n: nat)
    requires |p| <= MAX_FRAME_SIZE
    ensures var (more, rest) := ReadFrames(side, n, later, end);
            ReadFrames(side, n + 1, Encode(p) + later, end) ==
            (if more.None? then None else Some([p] + more.value), rest)
  {
    FrameRoundTrip(side, p, later, end);
  }

  /** Every strict prefix of a frame fails to read; which error it gives depends on side and place. */
  lemma StrictPrefixFails(side: Side, p: seq<Byte>, k: nat, end: End)
    requires |p| <= MAX_FRAME_SIZE && k < |Encode(p)|
    ensures ReadFrameOf(side, Encode(p)[..k], end) ==
            (Failed(if end.Reset? then ConnectionReset
                    else if k == 0 || (k == 4 && side.Shim?) then EOF
                    else UnexpectedEOF), [])
  {
    var s := Encode(p)[..k];
    if k >= 4 {
      HeaderInverse(|p|, [0, 0, 0, 0]);
      assert s[..4] == PutUint32(|p|);
      assert Uint32(s[..4]) == |p| && k < 4 + |p|;
    }
  }

  /**
   The two implementations agree on every byte stream, except that a stream which
   ends right after the header of a non-empty frame is an unexpected end to the SDK
   and a plain end of file to the shim.
   */
  lemma ReadersAgreeIff(s: seq<Byte>, end: End)
    ensures ReadFrameOf(Sdk, s, end).1 == ReadFrameOf(Shim, s, end).1
    ensures ReadFrameOf(Sdk, s, end) == ReadFrameOf(Shim, s, end) <==>
            !(|s| == 4 && end.Closed? && 0 < Uint32(s) <= MAX_FRAME_SIZE)
  {
    if |s| == 4 {
      assert s[..4] == s;
    }
  }
}
