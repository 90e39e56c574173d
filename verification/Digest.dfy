/** The FNV-1a digest and the artifacts it guards. */
module Digest {
  import opened Base

  const MODULUS: int := 0x1_0000_0000_0000_0000
  const FNV_OFFSET: u64 := 0xcbf2_9ce4_8422_2325
  // The multiplier as the code has it. It is odd, which is all the algebra below needs; it is not
  // the 64-bit FNV prime 0x100_0000_01b3, which has one zero digit fewer.
  const FNV_PRIME: u64 := 0x1000_0000_01b3
  // The inverse of FNV_PRIME modulo 2^64.
  const FNV_INVERSE: u64 := 0xb46d_d957_aff6_957b

  // Bitwise exclusive or.
  function Xor(a: nat, b: nat): nat
    decreases a + b
  {
    if a == 0 && b == 0 then 0
    else 2 * Xor(a / 2, b / 2) + (a + b) % 2
  }

  lemma XorStep(a: nat, b: nat)
    ensures Xor(a, b) / 2 == Xor(a / 2, b / 2) && Xor(a, b) % 2 == (a + b) % 2
  {
  }

  lemma {:induction false} XorUndoes(a: nat, b: nat)
    ensures Xor(Xor(a, b), b) == a
    decreases a + b
  {
    if a != 0 || b != 0 {
      hide Xor;
      var x := Xor(a, b);
      XorUndoes(a / 2, b / 2);
      XorStep(a, b);
      XorStep(x, b);
      Parity(a, b, x);
    }
  }

  lemma Parity(a: int, b: int, x: int)
    requires x % 2 == (a + b) % 2
    ensures (x + b) % 2 == a % 2
  {
  }

  lemma {:induction false} XorCommutes(a: nat, b: nat)
    ensures Xor(a, b) == Xor(b, a)
    decreases a + b
  {
    if a != 0 || b != 0 { XorCommutes(a / 2, b / 2); }
  }

  function Pow2(n: nat): nat { if n == 0 then 1 else 2 * Pow2(n - 1) }

  lemma {:induction false} XorStaysInRange(a: nat, b: nat, bits: nat)
    requires a < Pow2(bits) && b < Pow2(bits)
    ensures Xor(a, b) < Pow2(bits)
    decreases bits
  {
    if bits != 0 {
      XorStaysInRange(a / 2, b / 2, bits - 1);
    }
  }

  lemma XorFits(a: u64, b: byte)
    ensures Xor(a, b) <= U64_MAX
  {
    assert Pow2(4) == 16;
    Pow2Adds(4, 4);
    Pow2Adds(8, 8);
    Pow2Adds(16, 16);
    Pow2Adds(32, 32);
    assert Pow2(64) == MODULUS;
    XorStaysInRange(a, b, 64);
  }

  lemma {:induction false} Pow2Adds(a: nat, b: nat)
    ensures Pow2(a + b) == Pow2(a) * Pow2(b)
  {
    if a != 0 { Pow2Adds(a - 1, b); }
  }

  // One turn of the digest loop.
  function Step(hash: u64, b: byte): (h: u64) {
    XorFits(hash, b);
    Xor(hash, b) * FNV_PRIME % MODULUS
  }

  function Fold(hash: u64, bytes: Bytes): u64
    decreases |bytes|
  {
    if bytes == [] then hash else Fold(Step(hash, bytes[0]), bytes[1..])
  }

  ghost function DigestOf(bytes: Bytes): u64 { Fold(FNV_OFFSET, bytes) }

  method ComputeDigest(bytes: Bytes) returns (hash: u64)
    ensures hash == DigestOf(bytes)
  {
    hash := FNV_OFFSET;
    for i := 0 to |bytes|
      invariant Fold(hash, bytes[i..]) == DigestOf(bytes)
    {
      assert bytes[i..][1..] == bytes[i + 1..];
      hash := Step(hash, bytes[i]);
    }
  }

  // ---------- the algebra ----------

  // Multiplication by the odd FNV prime is injective modulo 2^64.
  lemma MultiplicationIsInjective(a: u64, b: u64)
    requires a * FNV_PRIME % MODULUS == b * FNV_PRIME % MODULUS
    ensures a == b
  {
    var d := a - b;
    var k := a * FNV_PRIME / MODULUS - b * FNV_PRIME / MODULUS;
    assert d * FNV_PRIME == k * MODULUS;
    var q := 0xb46dd957c32;
    assert 0x1000_0000_01b3 * 0xb46d_d957_aff6_957b == 0xb46dd957c32 * 0x1_0000_0000_0000_0000 + 1;
    var m := k * FNV_INVERSE - d * q;
    assert d == m * MODULUS;
    assert m >= 1 ==> m * MODULUS >= MODULUS;
    assert m <= -1 ==> m * MODULUS <= -MODULUS;
  }

  lemma StepIsInjectiveInHash(g: u64, h: u64, b: byte)
    requires Step(g, b) == Step(h, b)
    ensures g == h
  {
    XorFits(g, b);
    XorFits(h, b);
    MultiplicationIsInjective(Xor(g, b), Xor(h, b));
    XorUndoes(g, b);
    XorUndoes(h, b);
  }

  lemma StepIsInjectiveInByte(h: u64, x: byte, y: byte)
    requires Step(h, x) == Step(h, y)
    ensures x == y
  {
    XorFits(h, x);
    XorFits(h, y);
    MultiplicationIsInjective(Xor(h, x), Xor(h, y));
    XorCommutes(h, x);
    XorCommutes(h, y);
    XorUndoes(x, h);
    XorUndoes(y, h);
  }

  lemma {:induction false} FoldConcat(h: u64, a: Bytes, b: Bytes)
    ensures Fold(h, a + b) == Fold(Fold(h, a), b)
    decreases |a|
  {
    if a == [] {
      assert a + b == b;
    } else {
      assert (a + b)[1..] == a[1..] + b;
      FoldConcat(Step(h, a[0]), a[1..], b);
    }
  }

  lemma {:induction false} FoldIsInjectiveInHash(g: u64, h: u64, bytes: Bytes)
    requires Fold(g, bytes) == Fold(h, bytes)
    ensures g == h
    decreases |bytes|
  {
    hide Step;
    if bytes != [] {
      FoldIsInjectiveInHash(Step(g, bytes[0]), Step(h, bytes[0]), bytes[1..]);
      StepIsInjectiveInHash(g, h, bytes[0]);
    }
  }

  // A common suffix neither hides nor creates a difference.
  lemma SuffixCancels(a: Bytes, b: Bytes, suffix: Bytes)
    ensures DigestOf(a + suffix) == DigestOf(b + suffix) <==> DigestOf(a) == DigestOf(b)
  {
    FoldConcat(FNV_OFFSET, a, suffix);
    FoldConcat(FNV_OFFSET, b, suffix);
    if DigestOf(a + suffix) == DigestOf(b + suffix) {
      FoldIsInjectiveInHash(DigestOf(a), DigestOf(b), suffix);
    }
  }

  // Changing one byte, and only that, always changes the digest.
  lemma OneByteChangesTheDigest(bytes: Bytes, i: nat, x: byte)
    requires i < |bytes|
    ensures DigestOf(bytes[i := x]) == DigestOf(bytes) <==> x == bytes[i]
  {
    var front, back := bytes[..i], bytes[i + 1..];
    assert bytes == front + [bytes[i]] + back;
    assert bytes[i := x] == front + [x] + back;
    SuffixCancels(front + [bytes[i]], front + [x], back);
    FoldConcat(FNV_OFFSET, front, [bytes[i]]);
    FoldConcat(FNV_OFFSET, front, [x]);
    var h := Fold(FNV_OFFSET, front);
    assert Fold(h, [x]) == Step(h, x) && Fold(h, [bytes[i]]) == Step(h, bytes[i]);
    if Step(h, x) == Step(h, bytes[i]) {
      StepIsInjectiveInByte(h, x, bytes[i]);
    }
  }

  // ---------- artifacts ----------

  datatype Artifact = Artifact(bytes: Bytes, digest: u64)

  ghost function NewArtifact(bytes: Bytes): Artifact { Artifact(bytes, DigestOf(bytes)) }

  ghost function Verify(a: Artifact): Option<Bytes> {
    if DigestOf(a.bytes) == a.digest then Some(a.bytes) else None
  }

  // What was sent verifies; the same frame with one byte of the payload changed does not.
  lemma DamageIsCaught(sent: Bytes, i: nat, x: byte)
    requires i < |sent|
    ensures Verify(NewArtifact(sent)) == Some(sent)
    ensures Verify(NewArtifact(sent).(bytes := sent[i := x])) == (if x == sent[i] then Some(sent) else None)
  {
    OneByteChangesTheDigest(sent, i, x);
    assert x == sent[i] ==> sent[i := x] == sent;
  }

  // ---------- two known digests ----------

  lemma {:induction false} XorWithZero(a: nat)
    ensures Xor(a, 0) == a
  {
    if a > 0 { XorWithZero(a / 2); }
  }

  lemma OddXorOne(a: nat)
    requires a % 2 == 1
    ensures Xor(a, 1) == a - 1
  {
    XorWithZero(a / 2);
  }

  // Of nothing, and of a single byte 1: the byte goes in before the multiplication.
  lemma KnownDigests()
    ensures DigestOf([]) == 0xcbf2_9ce4_8422_2325
    ensures DigestOf([1]) == 0xaf72_d84c_8601_b62c
  {
    hide Xor;
    OddXorOne(FNV_OFFSET);
    assert [1][1..] == [];
  }
}
