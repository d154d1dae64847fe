/**
 * read_jpeg of cam-test2.py: pull one JPEG image out of a motion-JPEG byte stream by
 * its markers. The stream is read two bytes at a time; everything before the first
 * Start Of Image pair is dropped, and the image ends with the first End Of Image pair
 * after it. The marker codes are those of Table B.1, Annex B of ITU-T T.81
 * (ISO/IEC 10918-1): SOI = 0xFFD8, EOI = 0xFFD9.
 *
 * The stream is the sequence of bytes still to come; read_jpeg also reports how many
 * of them it consumed, since the next call goes on from there.
 */
module JpegReader {

  import opened Common

  const SOI := 0xFFD8
  const EOI := 0xFFD9

  /** The 16-bit code of two bytes: (c1 << 8) | c2. */
  function Pair(c1: byte, c2: byte): int {
    c1 as int * 256 + c2 as int
  }

  /** The code of the k-th two-byte pair. */
  function Code(s: seq<byte>, k: nat): int
    requires 2 * k + 1 < |s|
  {
    Pair(s[2 * k], s[2 * k + 1])
  }

  /** The first pair at index k or later whose code is c. */
  function FindPair(s: seq<byte>, c: int, k: nat): (r: Option<nat>)
    ensures r.Some? ==> k <= r.value && 2 * r.value + 1 < |s| && Code(s, r.value) == c
    decreases |s| - 2 * k
  {
    if 2 * k + 1 >= |s| then None
    else if Code(s, k) == c then Some(k)
    else FindPair(s, c, k + 1)
  }

  /** FindPair finds the first such pair, and finds none only when there is none. */
  lemma {:induction false} FindPairFirst(s: seq<byte>, c: int, k: nat)
    ensures var r := FindPair(s, c, k);
      (r.Some? ==> forall j :: k <= j < r.value ==> Code(s, j) != c) &&
      (r.None? ==> forall j :: k <= j && 2 * j + 1 < |s| ==> Code(s, j) != c)
    decreases |s| - 2 * k
  {
    if 2 * k + 1 < |s| && Code(s, k) != c {
      FindPairFirst(s, c, k + 1);
    }
  }

  /**
   * What read_jpeg returns. Without an SOI pair: nothing. With one: the bytes from it
   * through the first EOI pair after it; when there is no such EOI, the bytes from the
   * SOI to the end of the stream, or nothing at all if the stream has an odd length
   * (the last read returns a single byte and indexing its second byte raises).
   */
  function Frame(s: seq<byte>): seq<byte> {
    var a := FindPair(s, SOI, 0);
    if a.None? then []
    else
      var e := FindPair(s, EOI, a.value + 1);
      if e.Some? then s[2 * a.value..2 * e.value + 2]
      else if |s| % 2 == 1 then [] else s[2 * a.value..]
  }

  /** How many bytes of the stream read_jpeg consumed. */
  function Consumed(s: seq<byte>): nat {
    var a := FindPair(s, SOI, 0);
    if a.Some? && FindPair(s, EOI, a.value + 1).Some? then 2 * FindPair(s, EOI, a.value + 1).value + 2
    else |s|
  }

  /** No pair with index in [lo, hi) has code c. */
  predicate NoPair(s: seq<byte>, c: int, lo: nat, hi: nat) {
    forall j :: lo <= j < hi && 2 * j + 1 < |s| ==> Code(s, j) != c
  }

  /** Skipping pairs that do not match does not change where the search ends. */
  lemma {:induction false} SkipPairs(s: seq<byte>, c: int, lo: nat, hi: nat)
    requires lo <= hi && NoPair(s, c, lo, hi)
    ensures FindPair(s, c, lo) == FindPair(s, c, hi)
    decreases hi - lo
  {
    if lo < hi {
      SkipPairs(s, c, lo + 1, hi);
    }
  }

  /** read_jpeg */
  method ReadJpeg(stream: seq<byte>) returns (frame: seq<byte>, consumed: nat)
    ensures frame == Frame(stream) && consumed == Consumed(stream)
  {
    var buffer: seq<byte> := [];
    var started := false;
    ghost var first: nat := 0;
    var k := 0;
    while 2 * k < |stream|
      invariant 2 * k <= |stream|
      invariant !started ==> buffer == [] && NoPair(stream, SOI, 0, k)
      invariant started ==>
        first < k && Code(stream, first) == SOI && NoPair(stream, SOI, 0, first) &&
        buffer == stream[2 * first..2 * k] && NoPair(stream, EOI, first + 1, k)
      decreases |stream| - 2 * k
    {
      if 2 * k + 1 == |stream| {
        // the chunk holds a single byte: chunk[1] raises and the result is b''
        Truncated(stream, started, first, k);
        return [], |stream|;
      }
      var code := Code(stream, k);
      var chunk := stream[2 * k..2 * k + 2];
      if started {
        buffer := buffer + chunk;
        assert buffer == stream[2 * first..2 * k + 2];
        if code == EOI {
          Complete(stream, first, k);
          return buffer, 2 * k + 2;
        }
        NoPairExtend(stream, EOI, first + 1, k);
      } else if code == SOI {
        buffer := buffer + chunk;
        started := true;
        first := k;
      } else {
        NoPairExtend(stream, SOI, 0, k);
      }
      k := k + 1;
    }
    Exhausted(stream, started, first, k);
    return buffer, |stream|;
  }

  lemma NoPairExtend(s: seq<byte>, c: int, lo: nat, hi: nat)
    requires NoPair(s, c, lo, hi) && 2 * hi + 1 < |s| && Code(s, hi) != c
    ensures NoPair(s, c, lo, hi + 1)
  {
  }

  /** The scan met a single trailing byte. */
  lemma Truncated(s: seq<byte>, started: bool, first: nat, k: nat)
    requires 2 * k + 1 == |s|
    requires !started ==> NoPair(s, SOI, 0, k)
    requires started ==> first < k && Code(s, first) == SOI && NoPair(s, SOI, 0, first) && NoPair(s, EOI, first + 1, k)
    ensures Frame(s) == [] && Consumed(s) == |s|
  {
    if started {
      SkipPairs(s, SOI, 0, first);
      SkipPairs(s, EOI, first + 1, k);
    } else {
      SkipPairs(s, SOI, 0, k);
    }
  }

  /** The scan stopped at the EOI pair k. */
  lemma Complete(s: seq<byte>, first: nat, k: nat)
    requires first < k && 2 * k + 1 < |s| && Code(s, k) == EOI
    requires Code(s, first) == SOI && NoPair(s, SOI, 0, first) && NoPair(s, EOI, first + 1, k)
    ensures Frame(s) == s[2 * first..2 * k + 2] && Consumed(s) == 2 * k + 2
  {
    SkipPairs(s, SOI, 0, first);
    SkipPairs(s, EOI, first + 1, k);
  }

  /** The scan reached the end of an even-length stream. */
  lemma Exhausted(s: seq<byte>, started: bool, first: nat, k: nat)
    requires 2 * k == |s|
    requires !started ==> NoPair(s, SOI, 0, k)
    requires started ==> first < k && Code(s, first) == SOI && NoPair(s, SOI, 0, first) && NoPair(s, EOI, first + 1, k)
    ensures Frame(s) == (if started then s[2 * first..] else []) && Consumed(s) == |s|
  {
    if started {
      SkipPairs(s, SOI, 0, first);
      SkipPairs(s, EOI, first + 1, k);
    } else {
      SkipPairs(s, SOI, 0, k);
    }
  }

  /** The output is empty or begins with SOI, and always has an even length. */
  lemma FrameShape(s: seq<byte>)
    ensures Frame(s) == [] || (|Frame(s)| >= 2 && Frame(s)[0] == 0xFF && Frame(s)[1] == 0xD8)
    ensures |Frame(s)| % 2 == 0
  {
    var a := FindPair(s, SOI, 0);
    if a.Some? {
      var e := FindPair(s, EOI, a.value + 1);
      if e.Some? {
        FrameStopsAtFirstEoi(s);
      } else if |s| % 2 == 0 {
        OpenFrameShape(s, a.value);
      }
    }
  }

  /** Without an EOI the frame runs from the SOI pair to the end of an even-length stream. */
  lemma OpenFrameShape(s: seq<byte>, i: nat)
    requires FindPair(s, SOI, 0) == Some(i) && FindPair(s, EOI, i + 1).None? && |s| % 2 == 0
    ensures Frame(s) == s[2 * i..] && |Frame(s)| >= 2 && Frame(s)[0] == 0xFF && Frame(s)[1] == 0xD8
    ensures |Frame(s)| % 2 == 0
  {
    PairBytes(s[2 * i], s[2 * i + 1], SOI);
    EvenRest(|s|, i);
  }

  lemma EvenLength(n: int, h: int)
    requires n == 2 * h
    ensures n % 2 == 0
  {
  }

  lemma EvenRest(n: int, i: int)
    requires n % 2 == 0
    ensures (n - 2 * i) % 2 == 0
  {
  }

  /**
   * A complete image at even offsets: it starts with SOI, ends with EOI, and has no
   * EOI pair in between.
   */
  predicate CompleteImage(f: seq<byte>) {
    |f| >= 4 && |f| % 2 == 0 &&
    f[0] == 0xFF && f[1] == 0xD8 && f[|f| - 2] == 0xFF && f[|f| - 1] == 0xD9 &&
    forall k :: 1 <= k < |f| / 2 - 1 ==> Pair(f[2 * k], f[2 * k + 1]) != EOI
  }

  /**
   * When the stream holds an SOI pair with an EOI pair after it, the output is a
   * complete image: it stops at the first EOI.
   */
  lemma FrameStopsAtFirstEoi(s: seq<byte>)
    requires var a := FindPair(s, SOI, 0); a.Some? && FindPair(s, EOI, a.value + 1).Some?
    ensures CompleteImage(Frame(s))
  {
    var a := FindPair(s, SOI, 0).value;
    var e := FindPair(s, EOI, a + 1).value;
    FrameAt(s, a, e);
    FindPairFirst(s, EOI, a + 1);
    SliceIsImage(s, a, e);
  }

  /** The pairs a through e, an SOI, pairs other than EOI, and an EOI, form a complete image. */
  lemma SliceIsImage(s: seq<byte>, a: nat, e: nat)
    requires a < e && 2 * e + 1 < |s| && Code(s, a) == SOI && Code(s, e) == EOI
    requires forall j :: a + 1 <= j < e ==> Code(s, j) != EOI
    ensures CompleteImage(s[2 * a..2 * e + 2])
  {
    var f := s[2 * a..2 * e + 2];
    PairBytes(s[2 * a], s[2 * a + 1], SOI);
    PairBytes(s[2 * e], s[2 * e + 1], EOI);
    EvenLength(|f|, e - a + 1);
    forall k | 1 <= k < e - a
      ensures Pair(f[2 * k], f[2 * k + 1]) != EOI
    {
      assert f[2 * k] == s[2 * (a + k)] && f[2 * k + 1] == s[2 * (a + k) + 1];
      assert Code(s, a + k) != EOI;
    }
  }

  /** The two bytes of a marker code: 0xFF, then the code's low byte. */
  lemma PairBytes(c1: byte, c2: byte, code: int)
    requires Pair(c1, c2) == code && (code == SOI || code == EOI)
    ensures c1 == 0xFF && c2 == code - 0xFF00
  {
  }

  /** Searching a longer stream finds what the shorter one already contains. */
  lemma {:induction false} FindPairExtend(j: seq<byte>, rest: seq<byte>, c: int, k: nat)
    requires |j| % 2 == 0 && FindPair(j, c, k).Some?
    ensures FindPair(j + rest, c, k) == FindPair(j, c, k)
    decreases |j| - 2 * k
  {
    assert Code(j + rest, k) == Code(j, k);
    if Code(j, k) != c {
      FindPairExtend(j, rest, c, k + 1);
    }
  }

  /**
   * The two-byte scan reads back a complete image: it yields exactly that image,
   * whatever follows it, and the next read starts right after it.
   */
  lemma ReadsBackImage(j: seq<byte>, rest: seq<byte>)
    requires CompleteImage(j)
    ensures Frame(j + rest) == j && Consumed(j + rest) == |j|
  {
    var e := |j| / 2 - 1;
    assert Code(j, 0) == SOI;
    assert FindPair(j, SOI, 0) == Some(0);
    assert Code(j, e) == EOI;
    assert forall k :: 1 <= k < e ==> Code(j, k) != EOI;
    SkipPairs(j, EOI, 1, e);
    assert FindPair(j, EOI, 1) == Some(e);
    FindPairExtend(j, rest, SOI, 0);
    FindPairExtend(j, rest, EOI, 1);
    assert (j + rest)[0..|j|] == j;
  }

  /** A search that finds nothing in an even-length stream finds nothing once one byte is appended. */
  lemma {:induction false} FindPairOddByte(s: seq<byte>, b: byte, c: int, k: nat)
    requires |s| % 2 == 0
    ensures FindPair(s + [b], c, k) == FindPair(s, c, k)
    decreases |s| - 2 * k
  {
    if 2 * k + 1 < |s| {
      assert Code(s + [b], k) == Code(s, k);
      FindPairOddByte(s, b, c, k + 1);
    }
  }

  /**
   * A single trailing byte is harmless after a complete image and fatal otherwise:
   * reading it throws away whatever was collected.
   */
  lemma TrailingOddByte(s: seq<byte>, b: byte)
    requires |s| % 2 == 0
    ensures var a := FindPair(s, SOI, 0);
      if a.Some? && FindPair(s, EOI, a.value + 1).Some? then Frame(s + [b]) == Frame(s)
      else Frame(s + [b]) == []
  {
    FindPairOddByte(s, b, SOI, 0);
    var a := FindPair(s, SOI, 0);
    if a.Some? {
      FindPairOddByte(s, b, EOI, a.value + 1);
      var e := FindPair(s, EOI, a.value + 1);
      if e.Some? {
        TrailingAfterImage(s, b, a.value, e.value);
      } else {
        OddUnfinished(s + [b]);
      }
    } else {
      OddUnfinished(s + [b]);
    }
  }

  lemma OddUnfinished(t: seq<byte>)
    requires |t| % 2 == 1
    requires var a := FindPair(t, SOI, 0); a.None? || FindPair(t, EOI, a.value + 1).None?
    ensures Frame(t) == []
  {
  }

  lemma TrailingAfterImage(s: seq<byte>, b: byte, a: nat, e: nat)
    requires FindPair(s + [b], SOI, 0) == FindPair(s, SOI, 0) == Some(a)
    requires FindPair(s + [b], EOI, a + 1) == FindPair(s, EOI, a + 1) == Some(e)
    ensures Frame(s + [b]) == Frame(s)
  {
    var t := s + [b];
    FrameAt(s, a, e);
    FrameAt(t, a, e);
    SlicePrefix(s, [b], 2 * a, 2 * e + 2);
  }

  /** The frame found between a known SOI pair and a known EOI pair. */
  lemma FrameAt(s: seq<byte>, a: nat, e: nat)
    requires FindPair(s, SOI, 0) == Some(a) && FindPair(s, EOI, a + 1) == Some(e)
    ensures 2 * a <= 2 * e + 2 <= |s| && Frame(s) == s[2 * a..2 * e + 2]
  {
  }

  lemma SlicePrefix(s: seq<byte>, tail: seq<byte>, lo: nat, hi: nat)
    requires lo <= hi <= |s|
    ensures (s + tail)[lo..hi] == s[lo..hi]
  {
  }
}
