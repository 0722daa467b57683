/**
  The rolling fingerprint of the content-defined chunker: a rotate/xor hash over
  64-bit words whose per-byte contribution is the output of an integer mixer.

  Rotation and xor are linear over GF(2), which gives the two facts that the
  chunking theorems rest on: the fingerprint of a concatenation is computable
  from the fingerprints of its parts, and two equal 64-byte blocks cancel.
 */
module Fingerprint {
  import opened Basics

  type word = bv64

  /** One left rotation of a 64-bit word. */
  function Rotl(x: word): word {
    (x << 1) | (x >> 63)
  }

  function Xor(x: word, y: word): word {
    x ^ y
  }

  /** `n` left rotations. */
  function RotlBy(x: word, n: nat): word {
    if n == 0 then x else Rotl(RotlBy(x, n - 1))
  }

  /** The 64-bit mixer that follows the additive constant in `Gear`. */
  function Mix(v: word): word {
    XorShift31(ScaleB(XorShift27(ScaleA(XorShift30(v)))))
  }

  function XorShift30(v: word): word {
    v ^ (v >> 30)
  }

  function XorShift27(v: word): word {
    v ^ (v >> 27)
  }

  function XorShift31(v: word): word {
    v ^ (v >> 31)
  }

  function ScaleA(v: word): word {
    v * 0xbf58_476d_1ce4_e5b9
  }

  function ScaleB(v: word): word {
    v * 0x94d0_49bb_1331_11eb
  }

  /** The contribution of one byte; the sum wraps at 64 bits. */
  function Gear(b: byte): word {
    Mix((b as word) + 0x9e37_79b9_7f4a_7c15)
  }

  /** One step of the loop: rotate, then xor in the byte's contribution. */
  function Roll(f: word, b: byte): word {
    Xor(Rotl(f), Gear(b))
  }

  /** The fingerprint after feeding all of `s`, starting from `f`. */
  function RollAll(f: word, s: seq<byte>): word {
    if s == [] then f else Roll(RollAll(f, s[..|s| - 1]), s[|s| - 1])
  }

  /** The fingerprint of a byte string. */
  function Of(s: seq<byte>): word {
    RollAll(0, s)
  }

  // ------------------------------------------------------------ word algebra
  //
  // These proofs apply a function to an operator term written out in full, which
  // the solver normalises at once; congruence then lifts the fact to the names.

  lemma RotlIsLinear(a: word, b: word)
    ensures Rotl(Xor(a, b)) == Xor(Rotl(a), Rotl(b))
  {
    assert Rotl(a ^ b) == Xor((a << 1) | (a >> 63), (b << 1) | (b >> 63));
  }

  lemma XorAssociates(a: word, b: word, c: word)
    ensures Xor(Xor(a, b), c) == Xor(a, Xor(b, c))
  {
    assert Xor(a ^ b, c) == Xor(a, b ^ c);
  }

  lemma ZeroIsNeutral(x: word)
    ensures Xor(x, 0) == x == Xor(0, x)
  {
  }

  lemma XorCancels(x: word, t: word)
    ensures Xor(Xor(x, t), t) == x == Xor(t, Xor(t, x))
    ensures Xor(x, x) == 0
  {
    assert Xor(x ^ t, t) == x == Xor(t, t ^ x);
  }

  lemma XorIsInjective(x: word, y: word, t: word)
    requires x != y
    ensures Xor(x, t) != Xor(y, t) && Xor(t, x) != Xor(t, y)
  {
    hide *;
    XorCancels(x, t);
    XorCancels(y, t);
  }

  function Rotr(x: word): word {
    (x >> 1) | (x << 63)
  }

  lemma RotrUndoesRotl(x: word)
    ensures Rotr(Rotl(x)) == x
  {
    assert Rotr((x << 1) | (x >> 63)) == x;
  }

  // ---------------------------------------------------------------- rotation

  lemma {:induction false} RotlByIsInjective(x: word, y: word, n: nat)
    requires x != y
    ensures RotlBy(x, n) != RotlBy(y, n)
  {
    hide Rotl, Rotr;
    if n > 0 {
      RotlByIsInjective(x, y, n - 1);
      RotrUndoesRotl(RotlBy(x, n - 1));
      RotrUndoesRotl(RotlBy(y, n - 1));
    }
  }

  lemma {:induction false} RotlByAdds(x: word, m: nat, n: nat)
    ensures RotlBy(x, m + n) == RotlBy(RotlBy(x, m), n)
  {
    hide Rotl;
    if n > 0 {
      RotlByAdds(x, m, n - 1);
      assert RotlBy(x, m + n) == Rotl(RotlBy(x, m + n - 1));
    }
  }

  lemma {:induction false} RotlByZero(n: nat)
    ensures RotlBy(0, n) == 0
  {
    if n > 0 {
      RotlByZero(n - 1);
    }
  }

  function Rotl8(x: word): word { (x << 8) | (x >> 56) }
  function Rotl32(x: word): word { (x << 32) | (x >> 32) }

  lemma EightSteps(x: word)
    ensures Rotl(Rotl(Rotl(Rotl(Rotl(Rotl(Rotl(Rotl(x)))))))) == Rotl8(x)
  {
  }

  lemma RotlByEight(x: word)
    ensures RotlBy(x, 8) == Rotl8(x)
  {
    hide Rotl, Rotl8;
    EightSteps(x);
    assert RotlBy(x, 2) == Rotl(Rotl(RotlBy(x, 0)));
    assert RotlBy(x, 4) == Rotl(Rotl(RotlBy(x, 2)));
    assert RotlBy(x, 6) == Rotl(Rotl(RotlBy(x, 4)));
    assert RotlBy(x, 8) == Rotl(Rotl(RotlBy(x, 6)));
  }

  lemma FourOctets(x: word)
    ensures Rotl8(Rotl8(Rotl8(Rotl8(x)))) == Rotl32(x)
  {
  }

  lemma RotlByThirtyTwo(x: word)
    ensures RotlBy(x, 32) == Rotl32(x)
  {
    hide *;
    FourOctets(x);
    RotlByEight(x);
    RotlByEight(Rotl8(x));
    RotlByEight(Rotl8(Rotl8(x)));
    RotlByEight(Rotl8(Rotl8(Rotl8(x))));
    RotlByAdds(x, 8, 8);
    RotlByAdds(x, 16, 8);
    RotlByAdds(x, 24, 8);
  }

  lemma TwoHalves(x: word)
    ensures Rotl32(Rotl32(x)) == x
  {
  }

  /** A full turn is the identity. */
  lemma RotlByWordSize(x: word)
    ensures RotlBy(x, 64) == x
  {
    hide *;
    RotlByAdds(x, 32, 32);
    RotlByThirtyTwo(x);
    RotlByThirtyTwo(Rotl32(x));
    TwoHalves(x);
  }

  // ------------------------------------------------------------ concatenation

  lemma OfAppend(s: seq<byte>, b: byte)
    ensures Of(s + [b]) == Roll(Of(s), b)
  {
    hide Roll;
    assert (s + [b])[..|s|] == s;
  }

  lemma {:induction false} RollAllConcat(f: word, x: seq<byte>, y: seq<byte>)
    ensures RollAll(f, x + y) == RollAll(RollAll(f, x), y)
  {
    hide Roll;
    if y == [] {
      assert x + y == x;
    } else {
      var front := y[..|y| - 1];
      RollAllConcat(f, x, front);
      assert (x + y)[..|x + y| - 1] == x + front;
    }
  }

  /** The start value only ever contributes its rotation. */
  lemma {:induction false} RollAllSplitsStart(f: word, y: seq<byte>)
    ensures RollAll(f, y) == Xor(RotlBy(f, |y|), Of(y))
  {
    hide Gear, Rotl, Xor;
    if y == [] {
      ZeroIsNeutral(f);
    } else {
      var front, last := y[..|y| - 1], y[|y| - 1];
      RollAllSplitsStart(f, front);
      RotlIsLinear(RotlBy(f, |front|), Of(front));
      XorAssociates(Rotl(RotlBy(f, |front|)), Rotl(Of(front)), Gear(last));
    }
  }

  /** F(x ++ y) = rotl(F(x), |y|) xor F(y). */
  lemma OfConcat(x: seq<byte>, y: seq<byte>)
    ensures Of(x + y) == Xor(RotlBy(Of(x), |y|), Of(y))
  {
    hide RollAll, RotlBy, Xor;
    RollAllConcat(0, x, y);
    RollAllSplitsStart(Of(x), y);
  }

  /** Each byte contributes its gear value, rotated once for every byte after it. */
  function GearSum(s: seq<byte>): word {
    if s == [] then 0 else Xor(RotlBy(Gear(s[0]), |s| - 1), GearSum(s[1..]))
  }

  lemma OneByte(b: byte)
    ensures Of([b]) == Gear(b)
  {
    hide Gear, Rotl, Xor;
    OfAppend([], b);
    assert [] + [b] == [b];
    RotlByZero(1);
    assert Rotl(0) == RotlBy(0, 1) == 0;
    ZeroIsNeutral(Gear(b));
  }

  /** The fingerprint in closed form. */
  lemma {:induction false} OfIsGearSum(s: seq<byte>)
    ensures Of(s) == GearSum(s)
  {
    hide Gear, Rotl, Xor, RotlBy;
    if s != [] {
      assert s == [s[0]] + s[1..];
      OneByte(s[0]);
      OfConcat([s[0]], s[1..]);
      OfIsGearSum(s[1..]);
    }
  }

  // --------------------------------------------------------- 64-byte periods

  ghost predicate HasPeriod64(s: seq<byte>) {
    forall i, j :: 0 <= i && j == i + 64 && j < |s| ==> s[i] == s[j]
  }

  lemma EqualBlocksCancel(u: seq<byte>)
    requires |u| == 64
    ensures Of(u + u) == 0
  {
    hide *;
    OfConcat(u, u);
    RotlByWordSize(Of(u));
    XorCancels(Of(u), Of(u));
  }

  /** Any whole number of 128-byte blocks of a stream with period 64 hashes to zero. */
  lemma {:induction false} PeriodicFingerprintVanishes(s: seq<byte>, k: nat)
    requires HasPeriod64(s)
    requires |s| == 128 * k
    ensures Of(s) == 0
    decreases k
  {
    hide RotlBy, Xor, Roll;
    if k > 0 {
      var front, u, v := s[..|s| - 128], s[|s| - 128..|s| - 64], s[|s| - 64..];
      assert u == v;
      assert s == front + (u + v);
      PeriodicFingerprintVanishes(front, k - 1);
      OfConcat(front, u + v);
      RotlByZero(128);
      EqualBlocksCancel(u);
      ZeroIsNeutral(0);
    }
  }

  // ------------------------------------------------------ single-byte changes

  function XorUnshift30(y: word): word {
    y ^ (y >> 30) ^ (y >> 60)
  }

  function XorUnshift27(y: word): word {
    y ^ (y >> 27) ^ (y >> 54)
  }

  function XorUnshift31(y: word): word {
    y ^ (y >> 31) ^ (y >> 62)
  }

  /** Each odd factor has an inverse modulo 2^64; these multiply by it. */
  function UnscaleA(v: word): word {
    v * 0x96de_1b17_3f11_9089
  }

  function UnscaleB(v: word): word {
    v * 0x3196_42b2_d24d_8ec3
  }

  lemma UnshiftUndoesShift(v: word)
    ensures XorUnshift30(XorShift30(v)) == v
    ensures XorUnshift27(XorShift27(v)) == v
    ensures XorUnshift31(XorShift31(v)) == v
  {
    assert XorUnshift30(v ^ (v >> 30)) == v;
    assert XorUnshift27(v ^ (v >> 27)) == v;
    assert XorUnshift31(v ^ (v >> 31)) == v;
  }

  lemma UnscaleUndoesScale(v: word)
    ensures UnscaleA(ScaleA(v)) == v && UnscaleB(ScaleB(v)) == v
  {
    assert UnscaleA(v * 0xbf58_476d_1ce4_e5b9) == v;
    assert UnscaleB(v * 0x94d0_49bb_1331_11eb) == v;
  }

  /** The inverse of the mixer. */
  function Unmix(w: word): word {
    XorUnshift30(UnscaleA(XorUnshift27(UnscaleB(XorUnshift31(w)))))
  }

  /** The mixer loses no information: it is a bijection on 64-bit words. */
  lemma UnmixUndoesMix(v: word)
    ensures Unmix(Mix(v)) == v
  {
    hide XorShift30, ScaleA, XorShift27, ScaleB, XorShift31;
    hide XorUnshift30, UnscaleA, XorUnshift27, UnscaleB, XorUnshift31;
    var a := XorShift30(v);
    var b := ScaleA(a);
    var c := XorShift27(b);
    var d := ScaleB(c);
    UnshiftUndoesShift(v);
    UnscaleUndoesScale(a);
    UnshiftUndoesShift(b);
    UnscaleUndoesScale(c);
    UnshiftUndoesShift(d);
  }

  /** The first output of the SplitMix64 generator from seed zero, and the value of the last byte. */
  lemma GearValues()
    ensures Gear(0) == 0xe220_a839_7b1d_cdaf && Gear(255) == 0x338c_5071_4628_3fb4
  {
  }

  lemma GearIsInjective(b: byte, c: byte)
    requires b != c
    ensures Gear(b) != Gear(c)
  {
    hide Mix, Unmix;
    UnmixUndoesMix((b as word) + 0x9e37_79b9_7f4a_7c15);
    UnmixUndoesMix((c as word) + 0x9e37_79b9_7f4a_7c15);
  }

  /** Replacing one byte anywhere by a different one always changes the fingerprint. */
  lemma ByteChangeIsVisible(x: seq<byte>, b: byte, c: byte, y: seq<byte>)
    requires b != c
    ensures Of(x + [b] + y) != Of(x + [c] + y)
  {
    hide Of, Gear, Rotl, Xor, RotlBy;
    OfAppend(x, b);
    OfAppend(x, c);
    GearIsInjective(b, c);
    XorIsInjective(Gear(b), Gear(c), Rotl(Of(x)));
    OfConcat(x + [b], y);
    OfConcat(x + [c], y);
    RotlByIsInjective(Of(x + [b]), Of(x + [c]), |y|);
    XorIsInjective(RotlBy(Of(x + [b]), |y|), RotlBy(Of(x + [c]), |y|), Of(y));
  }
}
