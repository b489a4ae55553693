/** The bounds-checked reader over a response buffer: any overrun flips `fail`,
    and from then on nothing moves. */
module NodeReaders {
  import opened Bytes

  datatype Buffer = Buffer(bytes: seq<byte>)

  /** The state of a reader, as a value. */
  datatype Cursor = Cursor(buf: Buffer, pos: nat, fail: bool) {
    predicate Valid() { pos <= |buf.bytes| }

    /** The same reader over the first k bytes only. */
    function Cut(k: nat): Cursor
      requires k <= |buf.bytes|
    {
      Cursor(Buffer(buf.bytes[..k]), pos, fail)
    }

    function Failed(): Cursor { Cursor(buf, pos, true) }

    predicate Has(n: int) { !fail && |buf.bytes| - pos >= n }

    /** The next n bytes as a little-endian number (0 on overrun). */
    function Word(n: nat): (r: (nat, Cursor))
      requires Valid()
      ensures r.0 < Pow256(n)
    {
      if Has(n) then
        assert |buf.bytes[pos..pos + n]| == n;
        LEValBound(buf.bytes[pos..pos + n]);
        (LEVal(buf.bytes[pos..pos + n]), Cursor(buf, pos + n, false))
      else (0, Failed())
    }

    /** The next n bytes (none on overrun). */
    function Take(n: nat): (seq<byte>, Cursor)
      requires Valid()
    {
      if Has(n) then (buf.bytes[pos..pos + n], Cursor(buf, pos + n, false)) else ([], Failed())
    }

    /** A length of w bytes followed by that many bytes. */
    function LenBytes(w: nat): (seq<byte>, Cursor)
      requires Valid()
    {
      var (n, c) := Word(w);
      c.Take(n)
    }
  }

  /** c' is a later state of c: same buffer, no step back, failure is final. */
  predicate Advances(c: Cursor, c': Cursor) {
    c'.buf == c.buf && c.pos <= c'.pos && c'.Valid() && (c.fail ==> c' == c)
  }

  /** What reading on a cut buffer gives, knowing what it gives on the whole one:
      the same when the cut is past the end of the read, failure otherwise. */
  predicate CutAgrees<T(==)>(c': Cursor, t: T, k: nat, cut: (T, Cursor)) {
    && k <= |c'.buf.bytes| && cut.1.buf == Buffer(c'.buf.bytes[..k]) && cut.1.Valid()
    && (if c'.pos <= k then cut == (t, c'.Cut(k)) else cut.1.fail)
  }

  lemma WordCut(c: Cursor, n: nat, k: nat)
    requires c.Valid() && c.pos <= k <= |c.buf.bytes| && !c.Word(n).1.fail
    ensures CutAgrees(c.Word(n).1, c.Word(n).0, k, c.Cut(k).Word(n))
  {
    if c.pos + n <= k {
      assert c.buf.bytes[..k][c.pos..c.pos + n] == c.buf.bytes[c.pos..c.pos + n];
    }
  }

  lemma TakeCut(c: Cursor, n: nat, k: nat)
    requires c.Valid() && c.pos <= k <= |c.buf.bytes| && !c.Take(n).1.fail
    ensures CutAgrees(c.Take(n).1, c.Take(n).0, k, c.Cut(k).Take(n))
  {
    if c.pos + n <= k {
      assert c.buf.bytes[..k][c.pos..c.pos + n] == c.buf.bytes[c.pos..c.pos + n];
    }
  }

  lemma LenBytesCut(c: Cursor, w: nat, k: nat)
    requires c.Valid() && c.pos <= k <= |c.buf.bytes| && !c.LenBytes(w).1.fail
    ensures CutAgrees(c.LenBytes(w).1, c.LenBytes(w).0, k, c.Cut(k).LenBytes(w))
  {
    WordCut(c, w, k);
    var (n, c1) := c.Word(w);
    if c1.pos <= k { TakeCut(c1, n, k); }
  }

  /** An overrun reads zero or nothing, and moves nothing but the failure flag. */
  lemma OverrunReadsNothing(c: Cursor, n: nat)
    requires c.Valid() && (c.fail || c.pos + n > |c.buf.bytes|)
    ensures c.Word(n) == (0, Cursor(c.buf, c.pos, true)) && c.Take(n) == ([], Cursor(c.buf, c.pos, true))
  {}

  // ---- reading back what the append helpers wrote ---------------------------

  /** The bytes s stand at the reader's position. */
  predicate At(c: Cursor, s: seq<byte>) {
    !c.fail && c.pos + |s| <= |c.buf.bytes| && c.buf.bytes[c.pos..c.pos + |s|] == s
  }

  function Past(c: Cursor, s: seq<byte>): Cursor { Cursor(c.buf, c.pos + |s|, false) }

  lemma AtSplit(c: Cursor, s: seq<byte>, t: seq<byte>)
    requires At(c, s + t)
    ensures At(c, s) && At(Past(c, s), t) && Past(Past(c, s), t) == Past(c, s + t)
  {
    assert c.buf.bytes[c.pos..c.pos + |s|] == c.buf.bytes[c.pos..c.pos + |s + t|][..|s|];
    assert c.buf.bytes[c.pos + |s|..c.pos + |s| + |t|] == c.buf.bytes[c.pos..c.pos + |s + t|][|s|..];
  }

  /** What stands before a cut still stands there. */
  lemma CutAt(c: Cursor, s: seq<byte>, k: nat)
    requires At(c, s) && c.pos + |s| <= k <= |c.buf.bytes|
    ensures At(c.Cut(k), s) && Past(c.Cut(k), s) == Past(c, s).Cut(k)
  {
    assert c.buf.bytes[..k][c.pos..c.pos + |s|] == c.buf.bytes[c.pos..c.pos + |s|];
  }

  lemma WordAt(c: Cursor, n: nat, v: nat)
    requires At(c, LE(n, v)) && v < Pow256(n)
    ensures c.Valid() && c.Word(n) == (v, Past(c, LE(n, v)))
  {
    LERoundTrip(n, v);
  }

  lemma TakeAt(c: Cursor, s: seq<byte>)
    requires At(c, s)
    ensures c.Valid() && c.Take(|s|) == (s, Past(c, s))
  {}

  /** A length, truncated to w bytes, and the bytes (appendLenBytes for w = 4). */
  function LenPrefixed(w: nat, s: seq<byte>): seq<byte> { LE(w, |s| % Pow256(w)) + s }

  /** A string survives exactly when its length fits its prefix; otherwise the
      reader stops short of its end. */
  lemma LenBytesAt(c: Cursor, w: nat, s: seq<byte>)
    requires At(c, LenPrefixed(w, s))
    ensures c.Valid()
    ensures |s| < Pow256(w) ==> c.LenBytes(w) == (s, Past(c, LenPrefixed(w, s)))
    ensures |s| >= Pow256(w) ==> c.LenBytes(w).1.pos < Past(c, LenPrefixed(w, s)).pos && c.LenBytes(w).0 != s
  {
    var n := |s| % Pow256(w);
    AtSplit(c, LE(w, n), s);
    WordAt(c, w, n);
    if |s| < Pow256(w) {
      SmallMod(|s|, Pow256(w));
      TakeAt(Past(c, LE(w, n)), s);
    }
  }

  lemma SmallMod(x: nat, n: nat)
    requires x < n
    ensures x % n == x
  {}

  // ---- the reader object ----------------------------------------------------

  class NodeReader {
    const b: seq<byte>
    var pos: nat
    var fail: bool

    constructor (b: seq<byte>)
      ensures Cur() == Cursor(Buffer(b), 0, false)
    {
      this.b := b;
      pos, fail := 0, false;
    }

    function Cur(): Cursor
      reads this
    {
      Cursor(Buffer(b), pos, fail)
    }

    method Need(n: int) returns (ok: bool)
      requires Cur().Valid()
      modifies this`fail
      ensures ok == old(Cur()).Has(n)
      ensures Cur() == if ok then old(Cur()) else old(Cur()).Failed()
    {
      if fail || |b| - pos < n {
        fail := true;
        return false;
      }
      return true;
    }

    /** u8, u16, u32, u64 and f64, by width. */
    method ReadWord(n: nat) returns (v: nat)
      requires Cur().Valid()
      modifies this
      ensures (v, Cur()) == old(Cur()).Word(n)
    {
      var ok := Need(n);
      if !ok { return 0; }
      v := LEVal(b[pos..pos + n]);
      pos := pos + n;
    }

    method ReadBytes(n: int) returns (s: seq<byte>)
      requires Cur().Valid()
      modifies this
      ensures if n < 0 then s == [] && Cur() == old(Cur()) else (s, Cur()) == old(Cur()).Take(n)
    {
      if n < 0 { return []; }
      var ok := Need(n);
      if !ok { return []; }
      s := b[pos..pos + n];
      pos := pos + n;
    }

    method ReadLenBytes(w: nat) returns (s: seq<byte>)
      requires Cur().Valid()
      modifies this
      ensures (s, Cur()) == old(Cur()).LenBytes(w)
    {
      var n := ReadWord(w);
      s := ReadBytes(n);
    }
  }
}
