/** The UDP datagram: an 8-byte big-endian sequence number followed by padding
    copied out of a shared random pool. */
module Wire {
  import opened Basics

  const HEADER: nat := 8

  type byte = x: int | 0 <= x < 256
  type Datagram = seq<byte>

  /** A packet to be sent: sequence number and number of padding bytes. */
  datatype Msg = Msg(seqNo: nat, padN: nat)

  /** Records kept by sender and receiver. Times are nanoseconds. */
  datatype MsgSent = MsgSent(seqNo: nat, tsSent: int, len: nat)
  datatype MsgRcvd = MsgRcvd(seqNo: nat, tsRcvd: int, len: nat)

  // ----- Big-endian integers -----

  function BigEndian(v: nat, width: nat): (b: seq<byte>)
    ensures |b| == width
  {
    if width == 0 then [] else BigEndian(v / 256, width - 1) + [v % 256]
  }

  function FromBigEndian(b: seq<byte>): nat {
    if |b| == 0 then 0 else FromBigEndian(b[..|b| - 1]) * 256 + b[|b| - 1]
  }

  function Pow256(n: nat): (p: nat)
    ensures p > 0
  {
    if n == 0 then 1 else 256 * Pow256(n - 1)
  }

  lemma {:induction false} BigEndianRoundTrip(v: nat, width: nat)
    ensures FromBigEndian(BigEndian(v, width)) == v % Pow256(width)
  {
    if width > 0 {
      var b := BigEndian(v, width);
      assert b[..width - 1] == BigEndian(v / 256, width - 1);
      BigEndianRoundTrip(v / 256, width - 1);
      SplitModulus(v, Pow256(width - 1));
    }
  }

  /** The most significant byte comes first. */
  lemma {:induction false} BigEndianAt(v: nat, width: nat, i: nat)
    requires i < width
    ensures BigEndian(v, width)[i] == v / Pow256(width - 1 - i) % 256
  {
    if i < width - 1 {
      BigEndianAt(v / 256, width - 1, i);
      DivideTwice(v, Pow256(width - 2 - i));
    }
  }

  lemma {:induction false} DivideTwice(v: nat, p: nat)
    requires p > 0
    ensures v / 256 / p == v / (256 * p)
  {
    var q, r := v / 256 / p, v / 256 % p;
    assert v == q * (256 * p) + (r * 256 + v % 256) by {
      assert v / 256 == q * p + r;
      assert v == (q * p + r) * 256 + v % 256;
      assert (q * p + r) * 256 == q * (256 * p) + r * 256;
    }
    ModulusUnique(v, 256 * p, q, r * 256 + v % 256);
  }

  lemma {:induction false} SplitModulus(v: nat, p: nat)
    requires p > 0
    ensures v / 256 % p * 256 + v % 256 == v % (256 * p)
  {
    var q, r := v / 256 / p, v / 256 % p;
    var low := r * 256 + v % 256;
    assert v == q * (256 * p) + low by {
      assert v / 256 == q * p + r;
      assert v == (q * p + r) * 256 + v % 256;
      assert (q * p + r) * 256 == q * (256 * p) + r * 256;
    }
    assert 0 <= low < 256 * p;
    ModulusUnique(v, 256 * p, q, low);
  }

  lemma {:induction false} ModulusUnique(v: nat, m: nat, q: nat, r: nat)
    requires m > 0 && r < m && v == q * m + r
    ensures v % m == r && v / m == q
  {
    var q', r' := v / m, v % m;
    assert v == q' * m + r';
    if q' < q {
      ProductMonotone(q' + 1, q, m);
      Distribute(q', 1, m);
    } else if q < q' {
      ProductMonotone(q + 1, q', m);
      Distribute(q, 1, m);
    }
  }

  // ----- Encode and decode -----

  /** The bytes that end up in the buffer. */
  function Encoded(m: Msg, padding: seq<byte>): (d: Datagram)
    requires |padding| == m.padN
  {
    BigEndian(m.seqNo, HEADER) + padding
  }

  predicate BufferHolds(capacity: nat, padN: nat) {
    HEADER <= capacity && padN <= capacity - HEADER
  }

  /** Decode reads the first eight bytes only. */
  function DecodeSeq(d: Datagram): nat
    requires |d| >= HEADER
  {
    FromBigEndian(d[..HEADER])
  }

  /** A datagram names its sequence number modulo 2^64 and is exactly
      8 + padN bytes long, whatever the padding. */
  lemma {:induction false} EncodeDecode(m: Msg, padding: seq<byte>)
    requires |padding| == m.padN
    ensures |Encoded(m, padding)| == HEADER + m.padN
    ensures DecodeSeq(Encoded(m, padding)) == m.seqNo % UINT64
  {
    assert Encoded(m, padding)[..HEADER] == BigEndian(m.seqNo, HEADER);
    BigEndianRoundTrip(m.seqNo, HEADER);
    assert Pow256(HEADER) == UINT64 by {
      assert Pow256(2) == 0x1_0000;
      assert Pow256(4) == 0x1_0000_0000;
      assert Pow256(6) == 0x1_0000_0000_0000;
    }
  }

  /** `n` bytes read cyclically from the pool, starting at `offset`. */
  function Window(pool: seq<byte>, offset: nat, n: nat): (w: seq<byte>)
    requires offset < |pool|
    ensures |w| == n
    decreases n
  {
    if n <= |pool| - offset then pool[offset..offset + n]
    else pool[offset..] + Window(pool, 0, n - (|pool| - offset))
  }

  /** Byte i of a window is the pool's byte at offset + i, modulo its size. */
  lemma {:induction false} WindowAt(pool: seq<byte>, offset: nat, n: nat, i: nat)
    requires offset < |pool| && i < n
    ensures Window(pool, offset, n)[i] == pool[(offset + i) % |pool|]
    decreases n
  {
    var m := |pool|;
    if offset + i < m {
      ModulusUnique(offset + i, m, 0, offset + i);
    } else {
      WindowAt(pool, 0, n - (m - offset), i - (m - offset));
      SameRemainder(offset + i - m, m);
    }
  }

  lemma {:induction false} SameRemainder(x: nat, m: nat)
    requires m > 0
    ensures (x + m) % m == x % m
  {
    assert x + m == (x / m + 1) * m + x % m;
    ModulusUnique(x + m, m, x / m + 1, x % m);
  }

  /** A buffer with bytes at..at+|chunk| replaced. */
  function Patched(buf: seq<byte>, at: nat, chunk: seq<byte>): (b: seq<byte>)
    requires at + |chunk| <= |buf|
    ensures |b| == |buf|
  {
    buf[..at] + chunk + buf[at + |chunk|..]
  }

  /** Filling from..to has reached `at`: outside the slice nothing has changed, and
      what is done together with the window still to come is the whole window. */
  ghost predicate Filling(buf: seq<byte>, orig: seq<byte>, from: nat, at: nat, to: nat, pool: seq<byte>, off: nat,
                          target: seq<byte>) {
    && from <= at <= to <= |buf| == |orig| && off < |pool|
    && buf[..from] == orig[..from] && buf[to..] == orig[to..]
    && buf[from..at] + Window(pool, off, to - at) == target
  }

  /** copyPadding: fills the slice of `buf` from `from` to `to`; wraps to the
      start of the pool as often as the slice is longer than what is left. */
  method CopyPadding(buf: array<byte>, from: nat, to: nat, pool: seq<byte>, offset: nat)
    requires from <= to <= buf.Length
    requires offset < |pool|
    modifies buf
    ensures buf[from..to] == Window(pool, offset, to - from)
    ensures buf[..from] == old(buf[..from]) && buf[to..] == old(buf[to..])
  {
    ghost var orig, target := buf[..], Window(pool, offset, to - from);
    var at, off := from, offset;
    FillingStarts(orig, from, to, pool, offset);
    while at < to
      invariant 0 <= off && from <= at && Filling(buf[..], orig, from, at, to, pool, off, target)
    {
      var n := if |pool| - off < to - at then |pool| - off else to - at;
      FillingStep(buf[..], orig, from, at, to, pool, off, target, n);
      CopyChunk(buf, at, pool[off..off + n]);
      at, off := at + n, 0;
    }
    FillingEnds(buf[..], orig, from, to, pool, off, target);
    assert buf[from..to] == buf[..][from..to];
    assert buf[..from] == buf[..][..from] == orig[..from];
    assert buf[to..] == buf[..][to..] == orig[to..];
  }

  lemma {:induction false} FillingStarts(orig: seq<byte>, from: nat, to: nat, pool: seq<byte>, offset: nat)
    requires from <= to <= |orig| && offset < |pool|
    ensures Filling(orig, orig, from, from, to, pool, offset, Window(pool, offset, to - from))
  {
    assert orig[from..from] == [];
  }

  lemma {:induction false} FillingStep(buf: seq<byte>, orig: seq<byte>, from: nat, at: nat, to: nat, pool: seq<byte>,
                                       off: nat, target: seq<byte>, n: nat)
    requires Filling(buf, orig, from, at, to, pool, off, target) && at < to
    requires n == if |pool| - off < to - at then |pool| - off else to - at
    ensures Filling(Patched(buf, at, pool[off..off + n]), orig, from, at + n, to, pool, 0, target)
  {
    PatchedParts(buf, at, pool[off..off + n], from, to);
    FillingNext(buf, orig, from, at, to, pool, off, target, n, Patched(buf, at, pool[off..off + n]));
  }

  lemma {:induction false} FillingNext(buf: seq<byte>, orig: seq<byte>, from: nat, at: nat, to: nat, pool: seq<byte>,
                                       off: nat, target: seq<byte>, n: nat, next: seq<byte>)
    requires Filling(buf, orig, from, at, to, pool, off, target) && at < to
    requires n == if |pool| - off < to - at then |pool| - off else to - at
    requires |next| == |buf| && next[..from] == buf[..from] && next[to..] == buf[to..]
    requires next[from..at + n] == buf[from..at] + pool[off..off + n]
    ensures Filling(next, orig, from, at + n, to, pool, 0, target)
  {
    WindowStep(buf[from..at], pool, off, to - at, n);
    assert to - (at + n) == to - at - n;
  }

  lemma {:induction false} PatchedParts(buf: seq<byte>, at: nat, chunk: seq<byte>, from: nat, to: nat)
    requires from <= at && at + |chunk| <= to <= |buf|
    ensures var next := Patched(buf, at, chunk);
            && next[..from] == buf[..from] && next[to..] == buf[to..]
            && next[from..at + |chunk|] == buf[from..at] + chunk
  {
  }

  lemma {:induction false} FillingEnds(buf: seq<byte>, orig: seq<byte>, from: nat, to: nat, pool: seq<byte>, off: nat,
                                       target: seq<byte>)
    requires Filling(buf, orig, from, to, to, pool, off, target)
    ensures buf[from..to] == target
  {
    assert Window(pool, off, 0) == [];
  }

  /** Copying the next piece leaves the rest of the window to be copied. */
  lemma {:induction false} WindowStep(done: seq<byte>, pool: seq<byte>, off: nat, left: nat, n: nat)
    requires off < |pool| && n == if |pool| - off < left then |pool| - off else left
    ensures done + pool[off..off + n] + Window(pool, 0, left - n) == done + Window(pool, off, left)
  {
    var piece, rest := pool[off..off + n], Window(pool, 0, left - n);
    assert done + piece + rest == done + (piece + rest);
    assert piece + rest == Window(pool, off, left);
  }

  method CopyChunk(buf: array<byte>, at: nat, chunk: seq<byte>)
    requires at + |chunk| <= buf.Length
    modifies buf
    ensures buf[..] == Patched(old(buf[..]), at, chunk)
  {
    ghost var orig := buf[..];
    for i := 0 to |chunk|
      invariant buf[..] == Patched(orig, at, chunk[..i])
    {
      buf[at + i] := chunk[i];
      PatchedOneMore(orig, at, chunk, i);
    }
    assert chunk[..|chunk|] == chunk;
  }

  lemma {:induction false} PatchedOneMore(buf: seq<byte>, at: nat, chunk: seq<byte>, i: nat)
    requires at + |chunk| <= |buf| && i < |chunk|
    ensures Patched(buf, at, chunk[..i])[at + i := chunk[i]] == Patched(buf, at, chunk[..i + 1])
  {
  }

  /** Encode: refuses a buffer that is too short and writes nothing; otherwise
      the first n bytes of the buffer are the datagram. */
  method Encode(m: Msg, buf: array<byte>, pool: seq<byte>, offset: nat) returns (n: Option<nat>)
    requires offset < |pool|
    modifies buf
    ensures n.Some? <==> BufferHolds(buf.Length, m.padN)
    ensures n.None? ==> buf[..] == old(buf[..])
    ensures n.Some? ==> n.value == HEADER + m.padN <= buf.Length
    ensures n.Some? ==> buf[..n.value] == Encoded(m, Window(pool, offset, m.padN))
    ensures n.Some? ==> buf[n.value..] == old(buf[n.value..])
  {
    if buf.Length < HEADER || m.padN > buf.Length - HEADER {
      return None;
    }
    CopyChunk(buf, 0, BigEndian(m.seqNo, HEADER));
    assert buf[..HEADER] == buf[..][..HEADER] == BigEndian(m.seqNo, HEADER);
    assert buf[HEADER + m.padN..] == buf[..][HEADER + m.padN..] == old(buf[HEADER + m.padN..]);
    CopyPadding(buf, HEADER, HEADER + m.padN, pool, offset);
    n := Some(HEADER + m.padN);
    assert buf[..n.value] == buf[..HEADER] + buf[HEADER..n.value];
  }
}
