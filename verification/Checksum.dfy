/**
 The class identity of verify_coverage.py: a reflected CRC held in a 64-bit register.
 A register is the sequence of its bits, least significant first, so the shifts and
 exclusive ors of the source are operations on sequences. The guarantee proved here is
 that a change confined to eight consecutive bytes always changes the identity.
 */
module Checksum {
  type Bytes = seq<bv8>
  type Word = w: seq<bool> | |w| == 64 witness Zeros(64)

  const MAGIC: Bytes := [0xca, 0xfe, 0xba, 0xbe]
  const ZERO: Word := Zeros(64)

  /** The bits of 0xD800000000000000. */
  const POLYNOMIAL: Word := Zeros(56) + [false, false, false, true, true, false, true, true]

  function Zeros(n: nat): (s: seq<bool>)
    ensures |s| == n && forall i :: 0 <= i < n ==> !s[i]
  {
    seq(n, i => false)
  }

  /** The number a sequence of bits stands for, least significant first. */
  function Number(bits: seq<bool>): nat
  {
    if bits == [] then 0 else (if bits[0] then 1 else 0) + 2 * Number(bits[1..])
  }

  /** `k` doubled `n` times. */
  function Doubled(k: nat, n: nat): nat
  {
    if n == 0 then k else 2 * Doubled(k, n - 1)
  }

  lemma {:induction false} NumberAfterZeros(n: nat, bits: seq<bool>)
    ensures Number(Zeros(n) + bits) == Doubled(Number(bits), n)
  {
    if n == 0 {
      assert Zeros(0) + bits == bits;
    } else {
      assert (Zeros(n) + bits)[1..] == Zeros(n - 1) + bits;
      NumberAfterZeros(n - 1, bits);
    }
  }

  lemma {:induction false} DoubledAgain(k: nat, m: nat, n: nat)
    ensures Doubled(k, m + n) == Doubled(Doubled(k, m), n)
  {
    if n > 0 {
      DoubledAgain(k, m, n - 1);
    }
  }

  lemma DoubledSeven(k: nat)
    ensures Doubled(k, 7) == 0x80 * k
  {
    assert Doubled(k, 1) == 2 * k;
    assert Doubled(k, 2) == 4 * k;
    assert Doubled(k, 3) == 8 * k;
    assert Doubled(k, 4) == 0x10 * k;
    assert Doubled(k, 5) == 0x20 * k;
    assert Doubled(k, 6) == 0x40 * k;
  }

  lemma DoubledOften(k: nat)
    ensures Doubled(k, 56) == 0x100000000000000 * k
  {
    DoubledSeven(k);
    DoubledAgain(k, 7, 7);
    DoubledSeven(0x80 * k);
    DoubledAgain(k, 14, 14);
    DoubledAgain(0x4000 * k, 7, 7);
    DoubledSeven(0x4000 * k);
    DoubledSeven(0x200000 * k);
    DoubledAgain(k, 28, 28);
    DoubledAgain(0x10000000 * k, 14, 14);
    DoubledAgain(0x10000000 * k, 7, 7);
    DoubledSeven(0x10000000 * k);
    DoubledSeven(0x800000000 * k);
    DoubledAgain(0x40000000000 * k, 7, 7);
    DoubledSeven(0x40000000000 * k);
    DoubledSeven(0x2000000000000 * k);
  }

  /** The polynomial of the register is the constant of the source. */
  lemma PolynomialIsTheConstant()
    ensures Number(POLYNOMIAL) == 0xD800000000000000
  {
    TopByte();
    NumberAfterZeros(56, [false, false, false, true, true, false, true, true]);
    DoubledOften(0xD8);
  }

  lemma TopByte()
    ensures Number([false, false, false, true, true, false, true, true]) == 0xD8
  {
    var top := [false, false, false, true, true, false, true, true];
    assert top[1..] == [false, false, true, true, false, true, true];
    assert top[1..][1..] == [false, true, true, false, true, true];
    assert top[1..][1..][1..] == [true, true, false, true, true];
    assert Number([true, true, false, true, true]) == 27;
  }

  function Xor(a: Word, b: Word): Word
  {
    seq(64, i requires 0 <= i < 64 => a[i] != b[i])
  }

  function ShiftRight(a: Word): Word
  {
    a[1..] + [false]
  }

  /** One turn of the inner loop: shift, and fold the polynomial in when a one drops out. */
  function Step(a: Word): Word
  {
    Xor(ShiftRight(a), if a[0] then POLYNOMIAL else ZERO)
  }

  function Steps(a: Word, n: nat): Word
  {
    if n == 0 then a else Step(Steps(a, n - 1))
  }

  function Bits(b: bv8): (s: seq<bool>)
    ensures |s| == 8
  {
    [b & 1 != 0, b & 2 != 0, b & 4 != 0, b & 8 != 0, b & 16 != 0, b & 32 != 0, b & 64 != 0, b & 128 != 0]
  }

  /** A number is twice its half, and one more when its lowest bit is set. */
  lemma Halved(b: bv8)
    ensures b as int == 2 * ((b >> 1) as int) + if b & 1 != 0 then 1 else 0
  {
  }

  lemma HalvedMasks(b: bv8, h: bv8)
    requires h == b >> 1
    ensures (h & 1 != 0) == (b & 2 != 0) && (h & 2 != 0) == (b & 4 != 0) && (h & 4 != 0) == (b & 8 != 0) && (h & 8 != 0) == (b & 16 != 0)
    ensures (h & 16 != 0) == (b & 32 != 0) && (h & 32 != 0) == (b & 64 != 0) && (h & 64 != 0) == (b & 128 != 0)
    ensures h & 128 == 0
  {
  }

  /** The bits of a half are the bits of the whole, one place lower. */
  lemma HalvedBits(b: bv8)
    ensures Bits(b >> 1) == Bits(b)[1..] + [false]
  {
    HalvedMasks(b, b >> 1);
  }

  /** The bits below `n` of a byte that has no others are its number. */
  lemma {:induction false} LowBits(b: bv8, bits: seq<bool>, n: nat)
    requires bits == Bits(b) && n <= 8 && forall i :: n <= i < 8 ==> !bits[i]
    ensures Number(bits[..n]) == b as int
  {
    if n == 0 {
      ByteFromBits(b, 0);
      assert Number([]) == 0;
    } else {
      Halved(b);
      HalvedBits(b);
      var half := bits[1..] + [false];
      assert bits[..n][1..] == half[..n - 1];
      LowBits(b >> 1, half, n - 1);
    }
  }

  /** `Bits` lists the bits of a byte's number, least significant first. */
  lemma BitsAreTheNumber(b: bv8)
    ensures Number(Bits(b)) == b as int
  {
    LowBits(b, Bits(b), 8);
    assert Bits(b)[..8] == Bits(b);
  }

  /** Dropping the first bit halves the number, and the bit says whether it was odd. */
  lemma ShiftHalves(a: Word)
    ensures Number(ShiftRight(a)) == Number(a) / 2 && (a[0] <==> Number(a) % 2 == 1)
  {
    NumberOfAppended(a[1..]);
  }

  lemma {:induction false} NumberOfAppended(bits: seq<bool>)
    ensures Number(bits + [false]) == Number(bits)
  {
    if bits == [] {
      assert ([] + [false])[1..] == [];
    } else {
      assert (bits + [false])[1..] == bits[1..] + [false];
      NumberOfAppended(bits[1..]);
    }
  }

  /** A byte widened to a register keeps its number. */
  lemma WidenedByte(b: bv8)
    ensures Number(Widen(Bits(b))) == b as int
  {
    BitsAreTheNumber(b);
    NumberBeforeZeros(Bits(b), 56);
  }

  lemma {:induction false} NumberBeforeZeros(bits: seq<bool>, n: nat)
    ensures Number(bits + Zeros(n)) == Number(bits)
  {
    if n == 0 {
      assert bits + Zeros(0) == bits;
    } else {
      assert bits + Zeros(n) == (bits + Zeros(n - 1)) + [false];
      NumberOfAppended(bits + Zeros(n - 1));
      NumberBeforeZeros(bits, n - 1);
    }
  }

  function Widen(s: seq<bool>): Word
    requires |s| <= 64
  {
    s + Zeros(64 - |s|)
  }

  function Feed(state: Word, b: bv8): Word
  {
    Steps(Xor(state, Widen(Bits(b))), 8)
  }

  function FeedAll(state: Word, data: Bytes): Word
    decreases data
  {
    if data == [] then state else FeedAll(Feed(state, data[0]), data[1..])
  }

  /** Class files of version 53 are hashed as if they were version 52. */
  function Normalised(data: Bytes): Bytes
  {
    if |data| >= 8 && data[..4] == MAGIC && data[7] == 53 then data[7 := 52] else data
  }

  /** A class file of version 53 is one with the magic number whose eighth byte is 53. */
  predicate Version53(data: Bytes)
  {
    |data| >= 8 && data[0] == 0xca && data[1] == 0xfe && data[2] == 0xba && data[3] == 0xbe && data[7] == 53
  }

  /** Only the version byte of a version 53 class file changes, to 52. */
  lemma NormalisedMeans(data: Bytes)
    ensures !Version53(data) ==> Normalised(data) == data
    ensures Version53(data) ==> |Normalised(data)| == |data| && Normalised(data)[7] == 52
    ensures forall i :: 0 <= i < |data| && i != 7 ==> i < |Normalised(data)| && Normalised(data)[i] == data[i]
  {
    if |data| >= 4 {
      assert data[..4] == MAGIC <==> data[0] == 0xca && data[1] == 0xfe && data[2] == 0xba && data[3] == 0xbe by {
        assert data[..4] == [data[0], data[1], data[2], data[3]];
      }
    }
  }

  /** A class file of version 53 has the identity of the same file at version 52. */
  lemma VersionsShareIdentity(data: Bytes)
    requires Version53(data)
    ensures Identity(data) == Identity(data[7 := 52]) && data[7 := 52] != data
  {
    NormalisedMeans(data);
    NormalisedMeans(data[7 := 52]);
    assert data[7 := 52][7] == 52;
    assert Normalised(data) == data[7 := 52];
  }

  function Identity(data: Bytes): Word
  {
    FeedAll(ZERO, Normalised(data))
  }

  /** The loops of `class_id`. */
  method ClassId(input: Bytes) returns (checksum: Word)
    ensures checksum == Identity(input)
  {
    var data := input;
    if |data| >= 8 && data[..4] == MAGIC && data[7] == 53 {
      data := data[..7] + [52] + data[8..];
      assert data == Normalised(input);
    }
    checksum := ZERO;
    for i := 0 to |data|
      invariant FeedAll(checksum, data[i..]) == FeedAll(ZERO, data)
    {
      ghost var before := checksum;
      checksum := Xor(checksum, Widen(Bits(data[i])));
      ghost var mixed := checksum;
      for k := 0 to 8
        invariant checksum == Steps(mixed, k)
      {
        checksum := Xor(ShiftRight(checksum), if checksum[0] then POLYNOMIAL else ZERO);
      }
      assert checksum == Feed(before, data[i]);
      assert data[i..][1..] == data[i + 1..];
    }
  }

  // ----- the bit step is linear and invertible

  lemma XorCancels(a: Word, b: Word, c: Word)
    requires Xor(a, c) == Xor(b, c) || Xor(c, a) == Xor(c, b)
    ensures a == b
  {
    forall i | 0 <= i < 64 ensures a[i] == b[i] {
      assert Xor(a, c)[i] == (a[i] != c[i]) && Xor(b, c)[i] == (b[i] != c[i]);
      assert Xor(c, a)[i] == (a[i] != c[i]) && Xor(c, b)[i] == (b[i] != c[i]);
    }
  }

  lemma XorAssociative(a: Word, b: Word, c: Word)
    ensures Xor(Xor(a, b), c) == Xor(a, Xor(b, c))
  {
  }

  lemma StepLinear(a: Word, b: Word)
    ensures Step(Xor(a, b)) == Xor(Step(a), Step(b))
  {
  }

  lemma StepInjective(a: Word, b: Word)
    requires Step(a) == Step(b)
    ensures a == b
  {
    assert Step(a)[63] == a[0] && Step(b)[63] == b[0];
    XorCancels(ShiftRight(a), ShiftRight(b), if a[0] then POLYNOMIAL else ZERO);
    forall i | 0 <= i < 64 ensures a[i] == b[i] {
      if i > 0 {
        assert a[i] == ShiftRight(a)[i - 1] && b[i] == ShiftRight(b)[i - 1];
      }
    }
  }

  lemma {:induction false} StepsInjective(a: Word, b: Word, n: nat)
    requires Steps(a, n) == Steps(b, n)
    ensures a == b
  {
    if n > 0 {
      StepInjective(Steps(a, n - 1), Steps(b, n - 1));
      StepsInjective(a, b, n - 1);
    }
  }

  lemma {:induction false} StepsLinear(a: Word, b: Word, n: nat)
    ensures Steps(Xor(a, b), n) == Xor(Steps(a, n), Steps(b, n))
  {
    if n > 0 {
      StepsLinear(a, b, n - 1);
      StepLinear(Steps(a, n - 1), Steps(b, n - 1));
    }
  }

  lemma {:induction false} StepsAdd(a: Word, m: nat, n: nat)
    ensures Steps(Steps(a, m), n) == Steps(a, m + n)
  {
    if n > 0 {
      StepsAdd(a, m, n - 1);
    }
  }

  /** Zeros drop out of the register without disturbing what follows them. */
  lemma {:induction false} StepsDropZeros(zeros: seq<bool>, rest: seq<bool>)
    requires |zeros| + |rest| <= 64 && forall i :: 0 <= i < |zeros| ==> !zeros[i]
    ensures Steps(Widen(zeros + rest), |zeros|) == Widen(rest)
  {
    if zeros == [] {
      assert zeros + rest == rest;
    } else {
      var last := |zeros| - 1;
      assert zeros + rest == zeros[..last] + ([false] + rest);
      StepsDropZeros(zeros[..last], [false] + rest);
      assert Step(Widen([false] + rest)) == Widen(rest);
    }
  }

  // ----- at most eight bytes fed one at a time equal one word fed at once

  function BitsOf(data: Bytes): (s: seq<bool>)
    ensures |s| == 8 * |data|
  {
    if data == [] then [] else Bits(data[0]) + BitsOf(data[1..])
  }

  lemma {:induction false} BitsOfInjective(a: Bytes, b: Bytes)
    requires |a| == |b| && BitsOf(a) == BitsOf(b)
    ensures a == b
  {
    if a != [] {
      assert Bits(a[0]) == BitsOf(a)[..8] == Bits(b[0]);
      ByteFromBits(a[0], b[0]);
      assert BitsOf(a[1..]) == BitsOf(a)[8..] == BitsOf(b[1..]);
      BitsOfInjective(a[1..], b[1..]);
      assert a == [a[0]] + a[1..] && b == [b[0]] + b[1..];
    }
  }

  lemma ByteFromBits(x: bv8, y: bv8)
    requires Bits(x) == Bits(y)
    ensures x == y
  {
    assert Bits(x)[0] == Bits(y)[0] && Bits(x)[1] == Bits(y)[1] && Bits(x)[2] == Bits(y)[2] && Bits(x)[3] == Bits(y)[3]
        && Bits(x)[4] == Bits(y)[4] && Bits(x)[5] == Bits(y)[5] && Bits(x)[6] == Bits(y)[6] && Bits(x)[7] == Bits(y)[7];
    BitsInjective(x, y);
  }

  lemma BitsInjective(x: bv8, y: bv8)
    requires (x & 1 != 0) == (y & 1 != 0) && (x & 2 != 0) == (y & 2 != 0) && (x & 4 != 0) == (y & 4 != 0)
    requires (x & 8 != 0) == (y & 8 != 0) && (x & 16 != 0) == (y & 16 != 0) && (x & 32 != 0) == (y & 32 != 0)
    requires (x & 64 != 0) == (y & 64 != 0) && (x & 128 != 0) == (y & 128 != 0)
    ensures x == y
  {
  }

  /** Eight bits and what follows them occupy different places of a register. */
  lemma Overlay(first: seq<bool>, rest: seq<bool>)
    requires |first| == 8 && |rest| <= 56
    ensures Xor(Widen(first), Widen(Zeros(8) + rest)) == Widen(first + rest)
  {
  }

  lemma {:induction false} FeedAllAsWord(state: Word, data: Bytes)
    requires |data| <= 8
    ensures FeedAll(state, data) == Steps(Xor(state, Widen(BitsOf(data))), 8 * |data|)
    decreases data
  {
    if data == [] {
      assert Xor(state, Widen(BitsOf(data))) == state;
    } else {
      var first, rest := Bits(data[0]), BitsOf(data[1..]);
      var zeros := Zeros(8);
      FeedAllAsWord(Feed(state, data[0]), data[1..]);
      StepsDropZeros(zeros, rest);
      StepsLinear(Xor(state, Widen(first)), Widen(zeros + rest), 8);
      XorAssociative(state, Widen(first), Widen(zeros + rest));
      Overlay(first, rest);
      StepsAdd(Xor(state, Widen(BitsOf(data))), 8, 8 * |data[1..]|);
    }
  }

  lemma {:induction false} FeedAllConcat(state: Word, a: Bytes, b: Bytes)
    ensures FeedAll(state, a + b) == FeedAll(FeedAll(state, a), b)
    decreases a
  {
    if a == [] {
      assert a + b == b;
    } else {
      assert (a + b)[1..] == a[1..] + b;
      FeedAllConcat(Feed(state, a[0]), a[1..], b);
    }
  }

  lemma {:induction false} FeedAllInjective(s: Word, t: Word, data: Bytes)
    requires FeedAll(s, data) == FeedAll(t, data)
    ensures s == t
    decreases data
  {
    if data != [] {
      FeedAllInjective(Feed(s, data[0]), Feed(t, data[0]), data[1..]);
      StepsInjective(Xor(s, Widen(Bits(data[0]))), Xor(t, Widen(Bits(data[0]))), 8);
      XorCancels(s, t, Widen(Bits(data[0])));
    }
  }

  // ----- main results

  /** `a` and `b` have one length and agree outside the window of eight bytes at `at`. */
  predicate AgreeOutside(a: Bytes, b: Bytes, at: nat)
  {
    |a| == |b| && forall i :: 0 <= i < |a| && !(at <= i < at + 8) ==> a[i] == b[i]
  }

  /** From one register state, at most eight bytes are fed without loss. */
  lemma ShortInjective(state: Word, a: Bytes, b: Bytes)
    requires |a| == |b| <= 8 && FeedAll(state, a) == FeedAll(state, b)
    ensures a == b
  {
    FeedAllAsWord(state, a);
    FeedAllAsWord(state, b);
    var v, w := Widen(BitsOf(a)), Widen(BitsOf(b));
    StepsInjective(Xor(state, v), Xor(state, w), 8 * |a|);
    XorCancels(v, w, state);
    assert BitsOf(a) == v[..8 * |a|] == w[..8 * |a|] == BitsOf(b);
    BitsOfInjective(a, b);
  }

  lemma FeedSplit(state: Word, a: Bytes, n: nat)
    requires n <= |a|
    ensures a == a[..n] + a[n..] && FeedAll(state, a) == FeedAll(FeedAll(state, a[..n]), a[n..])
  {
    assert a == a[..n] + a[n..];
    FeedAllConcat(state, a[..n], a[n..]);
  }

  /** A window at the beginning. */
  lemma WindowFirst(state: Word, a: Bytes, b: Bytes, n: nat)
    requires |a| == |b| && n <= |a| && n <= 8 && (forall i :: n <= i < |a| ==> a[i] == b[i]) && FeedAll(state, a) == FeedAll(state, b)
    ensures a == b
  {
    assert a[n..] == b[n..];
    FeedSplit(state, a, n);
    FeedSplit(state, b, n);
    FeedAllInjective(FeedAll(state, a[..n]), FeedAll(state, b[..n]), a[n..]);
    ShortInjective(state, a[..n], b[..n]);
  }

  /** Whatever precedes and follows it, a window of eight bytes is hashed without loss. */
  lemma WindowInjective(a: Bytes, b: Bytes, at: nat)
    requires AgreeOutside(a, b, at) && FeedAll(ZERO, a) == FeedAll(ZERO, b)
    ensures a == b
  {
    var lo := if at <= |a| then at else |a|;
    var hi := if at + 8 <= |a| then at + 8 else |a|;
    var s := FeedAll(ZERO, a[..lo]);
    assert a[..lo] == b[..lo];
    FeedSplit(ZERO, a, lo);
    FeedSplit(ZERO, b, lo);
    WindowFirst(s, a[lo..], b[lo..], hi - lo);
  }

  /** Normalising cannot spread a change beyond a window of eight bytes. */
  lemma NormalisedAgreeOutside(a: Bytes, b: Bytes, at: nat)
    requires AgreeOutside(a, b, at)
    ensures AgreeOutside(Normalised(a), Normalised(b), at)
  {
    if |a| >= 8 && at >= 4 {
      assert a[..4] == b[..4];
    }
  }

  /**
   Two inputs that differ only inside eight consecutive bytes share an identity exactly when
   they are the same file up to the version mapping.
   */
  lemma IdentityDetectsWindow(a: Bytes, b: Bytes, at: nat)
    requires AgreeOutside(a, b, at)
    ensures Identity(a) == Identity(b) <==> Normalised(a) == Normalised(b)
  {
    NormalisedAgreeOutside(a, b, at);
    if Identity(a) == Identity(b) {
      WindowInjective(Normalised(a), Normalised(b), at);
    }
  }
}
