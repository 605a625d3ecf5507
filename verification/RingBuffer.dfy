/**
 The stderr tail buffer (internal/transport/ring_buffer.go): keeps the most
 recent `size` bytes of everything ever written to it.
 */
module RingBuffer {
  import opened Basics

  /** The last `size` elements of `s`, or all of `s` when it is shorter. */
  function Tail<T>(s: seq<T>, size: nat): (t: seq<T>) {
    if |s| <= size then s else s[|s| - size..]
  }

  /** Go's copy: fills `a` from index `at` with a prefix of `p` and returns its length. */
  method Copy(a: array<Byte>, at: nat, p: seq<Byte>) returns (n: nat)
    requires at <= a.Length
    modifies a
    ensures n == if |p| <= a.Length - at then |p| else a.Length - at
    ensures a[..] == old(a[..at]) + p[..n] + old(a[at + n..])
  {
    n := if |p| <= a.Length - at then |p| else a.Length - at;
    forall i | 0 <= i < n {
      a[at + i] := p[i];
    }
  }

  /** Overwriting the oldest bytes of a full ring in place, without wrapping. */
  lemma InPlaceOver(d: seq<Byte>, at: nat, p: seq<Byte>, d': seq<Byte>)
    requires at + |p| <= |d|
    requires d' == d[..at] + p + d[at + |p|..]
    ensures d'[at + |p|..] + d'[..at + |p|] == Tail(d[at..] + d[..at] + p, |d|)
  {
    var e := at + |p|;
    var a, b, c := d[..at], d[at..e], d[e..];
    assert d[at..] == b + c;
    assert (b + c + a + p)[|p|..] == c + a + p;
    assert d'[..e] == a + p && d'[e..] == c;
  }

  /** The same when the write runs past the end of the array and continues at its start. */
  lemma WrappedOver(d: seq<Byte>, at: nat, p: seq<Byte>, d': seq<Byte>)
    requires at <= |d| && |p| < |d| < at + |p|
    requires d' == p[|d| - at..] + (d[..at] + p[..|d| - at])[|p| - (|d| - at)..]
    ensures var pos := |p| - (|d| - at);
            d'[pos..] + d'[..pos] == Tail(d[at..] + d[..at] + p, |d|)
  {
    var n := |d| - at;
    var pos := |p| - n;
    assert d'[..pos] == p[n..];
    assert d'[pos..] == d[pos..at] + p[..n];
    assert (d[at..] + d[..at] + p)[|p|..] == d[pos..at] + p;
    assert p == p[..n] + p[n..];
  }

  /** A write at least as long as the ring leaves its own end. */
  lemma OversizeOver(d: seq<Byte>, at: nat, p: seq<Byte>)
    requires at <= |d| <= |p|
    ensures Tail(d[at..] + d[..at] + p, |d|) == p[|p| - |d|..]
  {
    assert |d[at..] + d[..at]| == |d|;
  }

  /** What the two copies of a wrapping write leave in the array. */
  lemma TwoCopies(d: seq<Byte>, at: nat, p: seq<Byte>, d1: seq<Byte>, d2: seq<Byte>)
    requires at <= |d| && |p| < |d| < at + |p|
    requires var n := |d| - at; d1 == d[..at] + p[..n] + d[at + n..]
    requires var m := |p| - (|d| - at); |d1| == |d| && d2 == d1[..0] + p[|d| - at..][..m] + d1[0 + m..]
    ensures d2 == p[|d| - at..] + (d[..at] + p[..|d| - at])[|p| - (|d| - at)..]
  {
    assert d1 == d[..at] + p[..|d| - at];
  }

  class RingBuffer {
    const size: nat
    const data: array<Byte>  // the slice's backing array; its capacity is `size`
    var used: nat            // len(r.data)
    var full: bool
    var pos: nat

    ghost predicate Valid()
      reads this
    {
      && data.Length == size
      && used <= size
      && (full ==> used == size && (pos < size || (pos == 0 && size == 0)))
      && (!full ==> pos == 0)
      && (used == size && size > 0 ==> full)
    }

    /** The retained bytes in the order they were written. */
    ghost function Contents(): (s: seq<Byte>)
      reads this, data
      requires Valid()
      ensures |s| == used
    {
      if full then data[pos..] + data[..pos] else data[..used]
    }

    constructor (size: nat)
      ensures Valid() && fresh(data) && this.size == size && Contents() == []
    {
      this.size := size;
      data := new Byte[size];
      used, full, pos := 0, false, 0;
    }

    method Write(p: seq<Byte>) returns (written: nat)
      requires Valid()
      modifies this, data
      ensures Valid()
      ensures written == |p|
      ensures Contents() == Tail(old(Contents()) + p, size)
    {
      written := |p|;
      if full {
        Overwrite(p);
        return;
      }
      ghost var all := Contents() + p;
      var room := size - used;
      var n := Copy(data, used, p);
      if n == |p| {
        used := used + |p|;
        if used == size {
          full, pos := true, 0;
        }
        assert Contents() == all;
        return;
      }
      used, full, pos := size, true, 0;
      assert Contents() + p[room..] == all;
      Overwrite(p[room..]);
    }

    /** The full-mode part of Write: from `pos` on, wrapping at most once. */
    method Overwrite(p: seq<Byte>)
      requires Valid() && full
      modifies this, data
      ensures Valid() && full
      ensures Contents() == Tail(old(Contents()) + p, size)
    {
      ghost var d, at := data[..], pos;
      if |p| >= size {
        OversizeOver(d, at, p);
        var n := Copy(data, 0, p[|p| - size..]);
        pos := 0;
        assert data[..] == p[|p| - size..];
        return;
      }
      var n := Copy(data, pos, p);
      ghost var d1 := data[..];
      if n < |p| {
        var m := Copy(data, 0, p[n..]);
        TwoCopies(d, at, p, d1, data[..]);
        WrappedOver(d, at, p, data[..]);
        pos := |p| - n;
      } else {
        assert p[..n] == p;
        InPlaceOver(d, at, p, d1);
        pos := pos + n;
        if pos == size {
          assert d1[pos..] + d1[..pos] == d1 == d1[0..] + d1[..0];
          pos := 0;
        }
      }
    }

    method String() returns (s: seq<Byte>)
      requires Valid()
      ensures s == Contents()
    {
      if !full {
        return data[..used];
      }
      s := data[pos..];
      s := s + data[..pos];
    }
  }

  /** What the buffer holds after a series of writes, by Write's contract. */
  function AfterWrites(size: nat, writes: seq<seq<Byte>>): seq<Byte> {
    if writes == [] then []
    else Tail(AfterWrites(size, writes[..|writes| - 1]) + writes[|writes| - 1], size)
  }

  /** Everything ever written. */
  function Written(writes: seq<seq<Byte>>): seq<Byte> {
    if writes == [] then []
    else Written(writes[..|writes| - 1]) + writes[|writes| - 1]
  }

  /** Dropping old bytes early does not change what is dropped in the end. */
  lemma TailOfTail(h: seq<Byte>, p: seq<Byte>, size: nat)
    ensures Tail(Tail(h, size) + p, size) == Tail(h + p, size)
  {
    if |h| > size {
      assert h == h[..|h| - size] + Tail(h, size);
      Regroup(h[..|h| - size], Tail(h, size), p);
      assert h + p == h[..|h| - size] + (Tail(h, size) + p);
    }
  }

  /** For every series of writes the buffer holds exactly the last min(total, size) bytes. */
  lemma {:induction false} KeepsMostRecent(size: nat, writes: seq<seq<Byte>>)
    ensures AfterWrites(size, writes) == Tail(Written(writes), size)
    ensures var all := Written(writes);
            AfterWrites(size, writes) == if |all| <= size then all else all[|all| - size..]
  {
    if writes != [] {
      KeepsMostRecent(size, writes[..|writes| - 1]);
      TailOfTail(Written(writes[..|writes| - 1]), writes[|writes| - 1], size);
    }
  }
}
