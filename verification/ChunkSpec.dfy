/**
  What content-defined chunking computes, stated on the whole byte string, and the
  properties that make the chunks useful for deduplication.

  `Chunks` is the recursive reference. `IsSegmentation` says the same thing without
  recursion over the input, and `SegmentationIsUnique` shows the two agree.
 */
module ChunkSpec {
  import opened Basics
  import opened Fingerprint

  predicate IsPowerOfTwo(n: nat) {
    n == 1 || (n > 1 && n % 2 == 0 && IsPowerOfTwo(n / 2))
  }

  /** The mask test of the code: every bit selected by the mask is zero. */
  predicate Hits(f: word, mask: word) {
    Masked(f, mask) == 0
  }

  function Masked(f: word, mask: word): word {
    f & mask
  }

  /** The remainder of a word modulo one of the ten sizes that an average can have. */
  function Remainder(f: word, average: nat): word {
    if average == 0x2000 then f % 0x2000
    else if average == 0x4000 then f % 0x4000
    else if average == 0x8000 then f % 0x8000
    else if average == 0x1_0000 then f % 0x1_0000
    else if average == 0x2_0000 then f % 0x2_0000
    else if average == 0x4_0000 then f % 0x4_0000
    else if average == 0x8_0000 then f % 0x8_0000
    else if average == 0x10_0000 then f % 0x10_0000
    else if average == 0x20_0000 then f % 0x20_0000
    else if average == 0x40_0000 then f % 0x40_0000
    else f
  }

  function ToWord(n: nat): word
    requires n < 0x1_0000_0000_0000_0000
  {
    n as word
  }

  datatype Config = Config(minimumSize: nat, averageSize: nat, maximumSize: nat) {
    predicate IsValid() {
      && minimumSize >= 4 * 1024
      && IsPowerOfTwo(averageSize)
      && minimumSize < averageSize
      && averageSize < maximumSize
      && maximumSize <= 8 * 1024 * 1024
    }

    function Mask(): word
      requires IsValid()
    {
      ToWord(averageSize - 1)
    }

    /**
      A chunk that ends here ends because it is full, or because it is long enough and the
      average size divides its fingerprint; not because input ran out.
     */
    predicate Stops(prefix: seq<byte>)
      requires IsValid()
    {
      || |prefix| == maximumSize
      || (|prefix| >= minimumSize && Remainder(Of(prefix), averageSize) == 0)
    }
  }

  // ------------------------------------------------------ the mask and the average

  predicate IsAverage(n: nat) {
    n in {0x2000, 0x4000, 0x8000, 0x1_0000, 0x2_0000,
          0x4_0000, 0x8_0000, 0x10_0000, 0x20_0000, 0x40_0000}
  }

  lemma Half(n: nat) returns (half: nat)
    requires IsPowerOfTwo(n) && n > 1
    ensures IsPowerOfTwo(half) && n == 2 * half
  {
    half := n / 2;
  }

  lemma SixHalves(n: nat) returns (part: nat)
    requires IsPowerOfTwo(n) && n >= 64
    ensures IsPowerOfTwo(part) && n == 64 * part
  {
    part := Half(n);
    part := Half(part);
    part := Half(part);
    part := Half(part);
    part := Half(part);
    part := Half(part);
  }

  /** The configurations the chunker accepts: one of ten averages, and sizes around it. */
  lemma ValidConfigurations(c: Config)
    ensures c.IsValid() <==>
              && IsAverage(c.averageSize)
              && 0x1000 <= c.minimumSize < c.averageSize < c.maximumSize <= 0x80_0000
  {
    if c.IsValid() {
      var part := SixHalves(c.averageSize);
      part := SixHalves(part);
      AveragePart(part);
    } else if IsAverage(c.averageSize) {
      AverageIsPowerOfTwo(c.averageSize);
    }
  }

  lemma AveragePart(part: nat)
    requires IsPowerOfTwo(part) && 1 < part < 2048
    ensures IsAverage(4096 * part)
  {
    if part > 64 {
      var rest := SixHalves(part);
    }
  }

  lemma AverageIsPowerOfTwo(n: nat)
    requires IsAverage(n)
    ensures IsPowerOfTwo(n)
  {
    assert IsPowerOfTwo(8);
    assert IsPowerOfTwo(64);
    assert IsPowerOfTwo(512);
    assert IsPowerOfTwo(4096);
    assert IsPowerOfTwo(0x8000);
    assert IsPowerOfTwo(0x4_0000);
    assert IsPowerOfTwo(0x20_0000);
  }

  lemma Remainders(f: word)
    ensures Remainder(f, 0x2000) == Masked(f, 0x1fff)
    ensures Remainder(f, 0x4000) == Masked(f, 0x3fff)
    ensures Remainder(f, 0x8000) == Masked(f, 0x7fff)
    ensures Remainder(f, 0x1_0000) == Masked(f, 0xffff)
    ensures Remainder(f, 0x2_0000) == Masked(f, 0x1_ffff)
    ensures Remainder(f, 0x4_0000) == Masked(f, 0x3_ffff)
    ensures Remainder(f, 0x8_0000) == Masked(f, 0x7_ffff)
    ensures Remainder(f, 0x10_0000) == Masked(f, 0xf_ffff)
    ensures Remainder(f, 0x20_0000) == Masked(f, 0x1f_ffff)
    ensures Remainder(f, 0x40_0000) == Masked(f, 0x3f_ffff)
  {
    assert f % 0x2000 == f & 0x1fff;
    assert f % 0x4000 == f & 0x3fff;
    assert f % 0x8000 == f & 0x7fff;
    assert f % 0x1_0000 == f & 0xffff;
    assert f % 0x2_0000 == f & 0x1_ffff;
    assert f % 0x4_0000 == f & 0x3_ffff;
    assert f % 0x8_0000 == f & 0x7_ffff;
    assert f % 0x10_0000 == f & 0xf_ffff;
    assert f % 0x20_0000 == f & 0x1f_ffff;
    assert f % 0x40_0000 == f & 0x3f_ffff;
  }

  lemma Words1()
    ensures ToWord(0x2000) == 0x2000 && ToWord(0x1fff) == 0x1fff
    ensures ToWord(0x4000) == 0x4000 && ToWord(0x3fff) == 0x3fff
    ensures ToWord(0x8000) == 0x8000 && ToWord(0x7fff) == 0x7fff
  {
  }

  lemma Words2()
    ensures ToWord(0x1_0000) == 0x1_0000 && ToWord(0xffff) == 0xffff
    ensures ToWord(0x2_0000) == 0x2_0000 && ToWord(0x1_ffff) == 0x1_ffff
  {
  }

  lemma Words3()
    ensures ToWord(0x4_0000) == 0x4_0000 && ToWord(0x3_ffff) == 0x3_ffff
    ensures ToWord(0x8_0000) == 0x8_0000 && ToWord(0x7_ffff) == 0x7_ffff
  {
  }

  lemma Words4()
    ensures ToWord(0x10_0000) == 0x10_0000 && ToWord(0xf_ffff) == 0xf_ffff
    ensures ToWord(0x20_0000) == 0x20_0000 && ToWord(0x1f_ffff) == 0x1f_ffff
    ensures ToWord(0x40_0000) == 0x40_0000 && ToWord(0x3f_ffff) == 0x3f_ffff
  {
  }

  /** The mask test is a division test: it keeps the remainder modulo the average size. */
  lemma MaskIsRemainder(f: word, n: nat)
    requires IsAverage(n)
    ensures Masked(f, ToWord(n - 1)) == Remainder(f, n)
  {
    hide Remainder, Masked, ToWord;
    Words1();
    Words2();
    Words3();
    Words4();
    Remainders(f);
  }

  /** What the loop tests with the mask is what a stop means. */
  lemma MaskTest(c: Config, f: word)
    requires c.IsValid()
    ensures Hits(f, c.Mask()) <==> Remainder(f, c.averageSize) == 0
  {
    ValidConfigurations(c);
    hide Remainder, Masked, ToWord, IsAverage;
    MaskIsRemainder(f, c.averageSize);
  }

  /** The length of the first chunk, given that no shorter length than `n` stops. */
  function CutFrom(c: Config, s: seq<byte>, n: nat): nat
    requires c.IsValid() && n <= |s|
    decreases |s| - n
  {
    if n == |s| || c.Stops(s[..n]) then n else CutFrom(c, s, n + 1)
  }

  function Cut(c: Config, s: seq<byte>): nat
    requires c.IsValid() && s != []
  {
    CutFrom(c, s, 1)
  }

  /** No proper prefix stops. */
  ghost predicate Unstopped(c: Config, s: seq<byte>)
    requires c.IsValid()
  {
    forall m :: 0 <= m < |s| ==> !c.Stops(s[..m])
  }

  lemma {:induction false} CutFromIsFirstStop(c: Config, s: seq<byte>, n: nat)
    requires c.IsValid() && n <= |s|
    ensures n <= CutFrom(c, s, n) <= |s|
    ensures forall m :: n <= m < CutFrom(c, s, n) ==> !c.Stops(s[..m])
    ensures CutFrom(c, s, n) < |s| ==> c.Stops(s[..CutFrom(c, s, n)])
    decreases |s| - n
  {
    hide Config.Stops;
    if n < |s| && !c.Stops(s[..n]) {
      CutFromIsFirstStop(c, s, n + 1);
    }
  }

  lemma CutIsFirstStop(c: Config, s: seq<byte>)
    requires c.IsValid() && s != []
    ensures 1 <= Cut(c, s) <= |s|
    ensures Unstopped(c, s[..Cut(c, s)])
    ensures Cut(c, s) < |s| ==> c.Stops(s[..Cut(c, s)])
  {
    hide Of, Remainder, ToWord;
    CutFromIsFirstStop(c, s, 1);
    var first := s[..Cut(c, s)];
    forall m | 0 <= m < |first|
      ensures !c.Stops(first[..m])
    {
      assert first[..m] == s[..m];
    }
  }

  /** Only one prefix length can be the first stop. */
  lemma FirstStopIsCut(c: Config, s: seq<byte>, n: nat)
    requires c.IsValid() && 1 <= n <= |s|
    requires Unstopped(c, s[..n])
    requires n == |s| || c.Stops(s[..n])
    ensures Cut(c, s) == n
  {
    hide Config.Stops, Cut;
    CutIsFirstStop(c, s);
    var k := Cut(c, s);
    assert k <= n ==> s[..n][..k] == s[..k];
    assert n <= k ==> s[..k][..n] == s[..n];
  }

  lemma UnstoppedIsBounded(c: Config, s: seq<byte>)
    requires c.IsValid() && Unstopped(c, s)
    ensures |s| <= c.maximumSize
  {
    hide Of, Remainder, ToWord;
    assert c.maximumSize <= |s| ==> c.Stops(s[..c.maximumSize]);
  }

  /** The chunks of a whole byte string. */
  function Chunks(c: Config, s: seq<byte>): seq<seq<byte>>
    requires c.IsValid()
    decreases |s|
  {
    if s == [] then []
    else
      CutIsFirstStop(c, s);
      [s[..Cut(c, s)]] + Chunks(c, s[Cut(c, s)..])
  }

  function Concat(parts: seq<seq<byte>>): seq<byte> {
    if parts == [] then [] else parts[0] + Concat(parts[1..])
  }

  // ------------------------------------------------- the declarative reading

  /** One piece of a segmentation; only the last may end for lack of input. */
  ghost predicate IsChunk(c: Config, chunk: seq<byte>, last: bool)
    requires c.IsValid()
  {
    && chunk != []
    && Unstopped(c, chunk)
    && (last || c.Stops(chunk))
  }

  ghost predicate IsSegmentation(c: Config, s: seq<byte>, parts: seq<seq<byte>>)
    requires c.IsValid()
  {
    && Concat(parts) == s
    && forall i :: 0 <= i < |parts| ==> IsChunk(c, parts[i], i == |parts| - 1)
  }

  lemma {:induction false} ChunksAreSegmentation(c: Config, s: seq<byte>)
    requires c.IsValid()
    ensures IsSegmentation(c, s, Chunks(c, s))
    decreases |s|
  {
    hide Cut, Config.Stops, Unstopped;
    if s != [] {
      CutIsFirstStop(c, s);
      var n := Cut(c, s);
      ChunksAreSegmentation(c, s[n..]);
      var rest := Chunks(c, s[n..]);
      var parts := [s[..n]] + rest;
      assert parts[1..] == rest;
      assert s == s[..n] + s[n..];
      assert rest == [] ==> s[n..] == [];
      forall i | 0 <= i < |parts|
        ensures IsChunk(c, parts[i], i == |parts| - 1)
      {
        if i > 0 {
          assert IsChunk(c, rest[i - 1], i - 1 == |rest| - 1);
        }
      }
    }
  }

  lemma {:induction false} SegmentationIsChunks(c: Config, s: seq<byte>, parts: seq<seq<byte>>)
    requires c.IsValid() && IsSegmentation(c, s, parts)
    ensures parts == Chunks(c, s)
    decreases |parts|
  {
    hide Cut, Config.Stops, Unstopped;
    if parts != [] {
      var n, rest := |parts[0]|, parts[1..];
      assert IsChunk(c, parts[0], 0 == |parts| - 1);
      assert s[..n] == parts[0] && s[n..] == Concat(rest);
      assert |parts| == 1 ==> rest == [] && n == |s|;
      FirstStopIsCut(c, s, n);
      forall i | 0 <= i < |rest|
        ensures IsChunk(c, rest[i], i == |rest| - 1)
      {
        assert IsChunk(c, parts[i + 1], i + 1 == |parts| - 1);
      }
      SegmentationIsChunks(c, s[n..], rest);
      assert parts == [parts[0]] + rest;
    }
  }

  /** The recursive chunks are the one and only segmentation. */
  lemma SegmentationIsUnique(c: Config, s: seq<byte>, parts: seq<seq<byte>>)
    requires c.IsValid()
    ensures IsSegmentation(c, s, parts) <==> parts == Chunks(c, s)
  {
    hide *;
    ChunksAreSegmentation(c, s);
    if IsSegmentation(c, s, parts) {
      SegmentationIsChunks(c, s, parts);
    }
  }

  /** Chunks recombine; every non-final one is within [min, max], the last within [1, max]. */
  lemma ChunkSizes(c: Config, s: seq<byte>)
    requires c.IsValid()
    ensures Concat(Chunks(c, s)) == s
    ensures forall i :: 0 <= i < |Chunks(c, s)| ==> 1 <= |Chunks(c, s)[i]| <= c.maximumSize
    ensures forall i :: 0 <= i < |Chunks(c, s)| - 1 ==> c.minimumSize <= |Chunks(c, s)[i]|
  {
    hide Chunks, Of, Unstopped, Hits, Config.Mask;
    ChunksAreSegmentation(c, s);
    var parts := Chunks(c, s);
    forall i | 0 <= i < |parts|
      ensures 1 <= |parts[i]| <= c.maximumSize
      ensures i < |parts| - 1 ==> c.minimumSize <= |parts[i]|
    {
      assert IsChunk(c, parts[i], i == |parts| - 1);
      UnstoppedIsBounded(c, parts[i]);
    }
  }

  // ---------------------------------------------------------------- locality

  /** Where the first `i` chunks end. */
  function End(parts: seq<seq<byte>>, i: nat): nat
    requires i <= |parts|
  {
    if i == 0 then 0 else |parts[0]| + End(parts[1..], i - 1)
  }

  /** A cut that content forced within a shared prefix is a cut of both inputs. */
  lemma CutIsLocal(c: Config, s: seq<byte>, t: seq<byte>)
    requires c.IsValid() && s != []
    requires Cut(c, s) < |s|
    requires Cut(c, s) <= |t| && s[..Cut(c, s)] == t[..Cut(c, s)]
    ensures t != [] && Cut(c, t) == Cut(c, s)
  {
    hide Cut, Config.Stops, Unstopped;
    CutIsFirstStop(c, s);
    FirstStopIsCut(c, t, Cut(c, s));
  }

  /** Inputs that agree on their first `k` bytes share every non-final chunk that ends by `k`. */
  lemma {:induction false} SharedPrefixSharesChunks(c: Config, s: seq<byte>, t: seq<byte>, k: nat, i: nat)
    requires c.IsValid()
    requires k <= |s| && k <= |t| && s[..k] == t[..k]
    requires i < |Chunks(c, s)| && End(Chunks(c, s), i) <= k
    ensures i <= |Chunks(c, t)| && Chunks(c, t)[..i] == Chunks(c, s)[..i]
    decreases i
  {
    hide Cut, Config.Stops;
    if i > 0 {
      CutIsFirstStop(c, s);
      var n := Cut(c, s);
      var rest := Chunks(c, s[n..]);
      assert Chunks(c, s)[1..] == rest;
      assert n < |s|;
      assert n <= k;
      assert s[..n] == s[..k][..n] == t[..k][..n] == t[..n];
      CutIsLocal(c, s, t);
      assert s[n..][..k - n] == s[..k][n..] == t[..k][n..] == t[n..][..k - n];
      SharedPrefixSharesChunks(c, s[n..], t[n..], k - n, i - 1);
      assert Chunks(c, s)[..i] == [s[..n]] + rest[..i - 1];
      assert Chunks(c, t)[..i] == [t[..n]] + Chunks(c, t[n..])[..i - 1];
    }
  }

  lemma EndStep(parts: seq<seq<byte>>, head: seq<byte>, rest: seq<seq<byte>>, i: nat)
    requires parts == [head] + rest && 0 < i <= |parts|
    ensures End(parts, i) == |head| + End(rest, i - 1)
    ensures parts[i..] == rest[i - 1..]
  {
    assert parts[1..] == rest;
  }

  lemma ChunksStep(c: Config, s: seq<byte>) returns (n: nat)
    requires c.IsValid() && Chunks(c, s) != []
    ensures 1 <= n <= |s| && Chunks(c, s) == [s[..n]] + Chunks(c, s[n..])
  {
    hide Cut, Config.IsValid, Config.Stops, Unstopped;
    CutIsFirstStop(c, s);
    n := Cut(c, s);
  }

  lemma DropDrop(s: seq<byte>, m: nat, n: nat)
    requires m + n <= |s|
    ensures s[m..][n..] == s[m + n..]
  {
  }

  /** From a boundary on, the chunks depend only on what follows it. */
  lemma {:induction false} ChunksAfterBoundary(c: Config, s: seq<byte>, i: nat)
    requires c.IsValid() && i <= |Chunks(c, s)|
    ensures End(Chunks(c, s), i) <= |s|
    ensures Chunks(c, s)[i..] == Chunks(c, s[End(Chunks(c, s), i)..])
    decreases i
  {
    hide *;
    if i > 0 {
      var n := ChunksStep(c, s);
      var rest := Chunks(c, s[n..]);
      EndStep(Chunks(c, s), s[..n], rest, i);
      ChunksAfterBoundary(c, s[n..], i - 1);
      DropDrop(s, n, End(rest, i - 1));
    } else {
      EndOfNone(Chunks(c, s));
      assert s[0..] == s;
    }
  }

  lemma EndOfNone(parts: seq<seq<byte>>)
    ensures End(parts, 0) == 0
    ensures parts[0..] == parts
  {
  }

  /** Two inputs with a common tail that both have a boundary where it begins share all its chunks. */
  lemma ChunksResynchronise(c: Config, p: seq<byte>, q: seq<byte>, s: seq<byte>, i: nat, j: nat)
    requires c.IsValid()
    requires i <= |Chunks(c, p + s)| && End(Chunks(c, p + s), i) == |p|
    requires j <= |Chunks(c, q + s)| && End(Chunks(c, q + s), j) == |q|
    ensures Chunks(c, p + s)[i..] == Chunks(c, q + s)[j..] == Chunks(c, s)
  {
    hide Chunks, End;
    ChunksAfterBoundary(c, p + s, i);
    ChunksAfterBoundary(c, q + s, j);
    assert (p + s)[|p|..] == s == (q + s)[|q|..];
  }

  // --------------------------------------------------------- periodic streams

  /** The first multiple of 128 from the minimum size on. */
  function PeriodicBound(c: Config): nat {
    (c.minimumSize + 127) / 128 * 128
  }

  lemma ZeroHasNoRemainder(average: nat)
    requires IsAverage(average)
    ensures Remainder(0, average) == 0
  {
  }

  /** At a multiple of 128 from the minimum size on, a prefix with period 64 stops. */
  lemma PeriodicStop(c: Config, s: seq<byte>)
    requires c.IsValid() && HasPeriod64(s) && |s| == PeriodicBound(c)
    ensures c.Stops(s)
  {
    ValidConfigurations(c);
    hide Of, IsPowerOfTwo, IsAverage, Remainder;
    PeriodicFingerprintVanishes(s, |s| / 128);
    ZeroHasNoRemainder(c.averageSize);
  }

  /** A stop bounds the cut from above, the minimum size from below. */
  lemma CutBounds(c: Config, s: seq<byte>, n: nat)
    requires c.IsValid() && s != []
    ensures Cut(c, s) == |s| || c.minimumSize <= Cut(c, s)
    ensures n <= |s| && c.Stops(s[..n]) ==> Cut(c, s) <= n
  {
    hide Of, Cut, IsPowerOfTwo, Remainder, ToWord;
    CutIsFirstStop(c, s);
    if n < Cut(c, s) {
      assert s[..Cut(c, s)][..n] == s[..n];
    }
  }

  /**
    A stream with period 64, as every constant stream, is cut at the latest at the first
    multiple of 128 from the minimum size on: content never lets it grow further.
   */
  lemma PeriodicCut(c: Config, s: seq<byte>)
    requires c.IsValid() && HasPeriod64(s) && s != []
    ensures |s| <= c.minimumSize ==> Cut(c, s) == |s|
    ensures |s| > c.minimumSize ==> c.minimumSize <= Cut(c, s) <= PeriodicBound(c)
  {
    hide Cut, Config.Stops, IsPowerOfTwo;
    CutIsFirstStop(c, s);
    CutBounds(c, s, PeriodicBound(c));
    if PeriodicBound(c) <= |s| {
      PeriodicStop(c, s[..PeriodicBound(c)]);
    }
  }

  lemma {:induction false} PeriodicChunks(c: Config, s: seq<byte>, i: nat)
    requires c.IsValid() && HasPeriod64(s) && i < |Chunks(c, s)|
    ensures i < |Chunks(c, s)| - 1 ==> c.minimumSize <= |Chunks(c, s)[i]|
    ensures 1 <= |Chunks(c, s)[i]| <= PeriodicBound(c)
    decreases i
  {
    hide Cut, IsPowerOfTwo;
    PeriodicCut(c, s);
    CutIsFirstStop(c, s);
    var n := Cut(c, s);
    assert HasPeriod64(s[n..]);
    var rest := Chunks(c, s[n..]);
    assert Chunks(c, s) == [s[..n]] + rest;
    if i > 0 {
      PeriodicChunks(c, s[n..], i - 1);
    } else if |rest| > 0 {
      assert n < |s|;
    }
  }

  function Constant(b: byte, length: nat): seq<byte> {
    seq(length, _ => b)
  }

  /** The length at which a constant stream of this byte is cut. */
  function ConstantCut(c: Config, b: byte): nat
    requires c.IsValid()
  {
    Cut(c, Constant(b, PeriodicBound(c) + 1))
  }

  lemma ConstantCutIsLocal(c: Config, b: byte, length: nat)
    requires c.IsValid() && length > 0
    ensures c.minimumSize <= ConstantCut(c, b) <= PeriodicBound(c)
    ensures Cut(c, Constant(b, length)) == if length <= ConstantCut(c, b) then length else ConstantCut(c, b)
  {
    hide Cut, Config.Stops, IsPowerOfTwo;
    var s, t := Constant(b, PeriodicBound(c) + 1), Constant(b, length);
    PeriodicCut(c, s);
    CutIsFirstStop(c, s);
    var n := Cut(c, s);
    if n < length {
      assert s[..n] == t[..n];
      CutIsLocal(c, s, t);
    } else {
      forall m | 0 <= m < length
        ensures !c.Stops(t[..length][..m])
      {
        assert s[..n][..m] == t[..length][..m];
      }
      FirstStopIsCut(c, t, length);
    }
  }

  /** A constant stream of any length has chunks of one size, except for a last one no longer than the others. */
  lemma {:induction false} ConstantStreamChunks(c: Config, b: byte, length: nat, i: nat)
    requires c.IsValid() && i < |Chunks(c, Constant(b, length))|
    ensures c.minimumSize <= ConstantCut(c, b) <= PeriodicBound(c)
    ensures c.minimumSize % 128 == 0 ==> ConstantCut(c, b) == c.minimumSize
    ensures var parts := Chunks(c, Constant(b, length));
            if i < |parts| - 1 then |parts[i]| == ConstantCut(c, b) else 1 <= |parts[i]| <= ConstantCut(c, b)
    decreases i
  {
    hide Cut, ConstantCut, IsPowerOfTwo;
    var s := Constant(b, length);
    ConstantCutIsLocal(c, b, length);
    var n := Cut(c, s);
    assert s[n..] == Constant(b, length - n);
    var rest := Chunks(c, s[n..]);
    assert Chunks(c, s) == [s[..n]] + rest;
    if i > 0 {
      ConstantStreamChunks(c, b, length - n, i - 1);
    }
  }
}
