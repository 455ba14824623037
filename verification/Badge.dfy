/** The sender hash behind an avatar's colour: FNV-1a with the murmur3 finaliser, on wrapping 32-bit words. */
module Badge {

  const WORDS: nat := 0x1_0000_0000

  type u32 = x: nat | x < WORDS
  type u8 = x: nat | x < 256

  const OFFSET: u32 := 0x811c_9dc5
  const PRIME: nat := 0x0100_0193
  const MIX1: nat := 0x85eb_ca6b
  const MIX2: nat := 0xc2b2_ae35

  // ---- Bits of natural numbers ---------------------------------------------------------------------------

  /** Bitwise exclusive or. */
  function Xor(a: nat, b: nat): nat
    decreases a
  {
    if a == 0 then b else if b == 0 then a else (a + b) % 2 + 2 * Xor(a / 2, b / 2)
  }

  /** `a >> k` */
  function Shr(a: nat, k: nat): nat
    decreases k
  {
    if k == 0 then a else Shr(a / 2, k - 1)
  }

  function Pow2(k: nat): nat {
    if k == 0 then 1 else 2 * Pow2(k - 1)
  }

  lemma XorBits(a: nat, b: nat)
    ensures Xor(a, b) / 2 == Xor(a / 2, b / 2)
    ensures Xor(a, b) % 2 == (a + b) % 2
  {
  }

  lemma {:induction false} XorSelf(a: nat)
    ensures Xor(a, a) == 0
  {
    if a > 0 {
      XorSelf(a / 2);
    }
  }

  lemma XorZero(a: nat, b: nat, c: nat)
    ensures a == 0 || b == 0 || c == 0 ==> Xor(Xor(a, b), c) == Xor(a, Xor(b, c))
  {
  }

  lemma {:induction false} XorAssoc(a: nat, b: nat, c: nat)
    ensures Xor(Xor(a, b), c) == Xor(a, Xor(b, c))
    decreases a
  {
    hide Xor;
    XorZero(a, b, c);
    if a > 0 && b > 0 && c > 0 {
      XorBits(a, b);
      XorBits(b, c);
      XorBits(Xor(a, b), c);
      XorBits(a, Xor(b, c));
      XorAssoc(a / 2, b / 2, c / 2);
    }
  }

  lemma XorNothing(a: nat)
    ensures Xor(a, 0) == a && Xor(0, a) == a
  {
  }

  lemma XorUndo(a: nat, b: nat)
    ensures Xor(Xor(a, b), b) == a
  {
    XorAssoc(a, b, b);
    XorSelf(b);
  }

  lemma {:induction false} XorBelow(a: nat, b: nat, k: nat)
    requires a < Pow2(k) && b < Pow2(k)
    ensures Xor(a, b) < Pow2(k)
    decreases k
  {
    if k > 0 {
      XorBits(a, b);
      XorBelow(a / 2, b / 2, k - 1);
    }
  }

  lemma {:induction false} ShrXor(a: nat, b: nat, k: nat)
    ensures Shr(Xor(a, b), k) == Xor(Shr(a, k), Shr(b, k))
    decreases k
  {
    if k > 0 {
      XorBits(a, b);
      ShrXor(a / 2, b / 2, k - 1);
    }
  }

  lemma {:induction false} ShrTwice(a: nat, j: nat, k: nat)
    ensures Shr(Shr(a, j), k) == Shr(a, j + k)
    decreases j
  {
    if j > 0 {
      ShrTwice(a / 2, j - 1, k);
    }
  }

  lemma {:induction false} ShrAll(a: nat, k: nat)
    requires a < Pow2(k)
    ensures Shr(a, k) == 0
    decreases k
  {
    if k > 0 {
      ShrAll(a / 2, k - 1);
    }
  }

  lemma {:induction false} ShrSmaller(a: nat, k: nat)
    ensures Shr(a, k) <= a
    decreases k
  {
    if k > 0 {
      ShrSmaller(a / 2, k - 1);
    }
  }

  lemma WordBits()
    ensures Pow2(32) == WORDS
  {
    assert Pow2(8) == 256;
    assert Pow2(16) == 65536;
    assert Pow2(24) == 16777216;
  }

  // ---- The hash --------------------------------------------------------------------------------------------

  function XorWord(a: u32, b: u32): u32 {
    WordBits();
    XorBelow(a, b, 32);
    Xor(a, b)
  }

  function ShrWord(a: u32, k: nat): u32 {
    ShrSmaller(a, k);
    Shr(a, k)
  }

  /** `wrapping_mul` */
  function MulWord(a: u32, k: nat): u32 {
    a * k % WORDS
  }

  /** `h ^= h >> k` */
  function Mix(h: u32, k: nat): u32 {
    XorWord(h, ShrWord(h, k))
  }

  function FnvStep(h: u32, b: u8): u32 {
    MulWord(XorWord(h, b), PRIME)
  }

  function Fnv(h: u32, bytes: seq<u8>): u32
    decreases |bytes|
  {
    if bytes == [] then h else Fnv(FnvStep(h, bytes[0]), bytes[1..])
  }

  function Finalise(h: u32): u32 {
    Mix(MulWord(Mix(MulWord(Mix(h, 16), MIX1), 13), MIX2), 16)
  }

  /** The bytes that are hashed: an empty seed counts as `?`. */
  function Seed(bytes: seq<u8>): seq<u8> {
    if bytes == [] then [0x3F] else bytes
  }

  function SeedHash(bytes: seq<u8>): u32 {
    Finalise(Fnv(OFFSET, Seed(bytes)))
  }

  /** `seed_hash` on the bytes of a trimmed, lower-cased seed, with its updated `h`. */
  method HashSeed(bytes: seq<u8>) returns (h: u32)
    ensures h == SeedHash(bytes)
  {
    hide XorWord, MulWord, ShrWord;
    var s := if bytes == [] then [0x3F] else bytes;
    h := OFFSET;
    for i := 0 to |s|
      invariant Fnv(h, s[i..]) == Fnv(OFFSET, s)
    {
      assert s[i..][1..] == s[i + 1..];
      h := MulWord(XorWord(h, s[i]), PRIME);
    }
    assert s[|s|..] == [];
    h := XorWord(h, ShrWord(h, 16));
    h := MulWord(h, MIX1);
    h := XorWord(h, ShrWord(h, 13));
    h := MulWord(h, MIX2);
    h := XorWord(h, ShrWord(h, 16));
  }

  // ---- Every step can be undone ------------------------------------------------------------------------

  /** Undoes `Mix`: as many shifted copies as fit into a word. */
  function Unmix(y: u32, k: nat): u32 {
    XorWord(XorWord(y, ShrWord(y, k)), ShrWord(y, 2 * k))
  }

  lemma XorSwap(a: nat, b: nat)
    ensures Xor(a, b) == Xor(b, a)
  {
    XorAssoc(a, b, Xor(a, b));
    XorSelf(Xor(a, b));
    XorAssoc(b, a, b);
    XorUndo(a, b);
    XorUndo(Xor(b, a), b);
    XorAssoc(Xor(b, a), a, b);
    XorUndo(b, a);
    XorSelf(b);
    XorUndo(Xor(a, b), Xor(b, a));
    XorAssoc(Xor(b, a), Xor(a, b), 0);
  }

  /** A right shift by a third of a word or more, folded in, can be taken out again. */
  lemma MixInvertible(x: u32, k: nat)
    requires 3 * k >= 32
    ensures Unmix(Mix(x, k), k) == x
    ensures Mix(Unmix(x, k), k) == x
  {
    hide Xor, Shr, Pow2;
    var s, t := Shr(x, k), Shr(x, 2 * k);
    ShrTwice(x, k, k);
    ShrTwice(x, 2 * k, k);
    ShrBeyond(x, 3 * k);
    var y := Xor(x, s);
    ShrXor(x, s, k);
    ShrXor(x, s, 2 * k);
    ShrTwice(x, k, 2 * k);
    // y >> k is s ^ t and y >> 2k is t
    XorAssoc(y, Xor(s, t), t);
    XorUndo(s, t);
    XorUndo(x, s);
    XorNothing(t);
    XorNothing(s);
    XorNothing(Xor(s, t));
    // x ^ s ^ t, shifted by k, is s ^ t
    var z := Xor(Xor(x, s), t);
    ShrXor(Xor(x, s), t, k);
    ShrTwice(x, 2 * k, k);
    XorAssoc(x, s, t);
    XorUndo(x, Xor(s, t));
  }

  lemma ShrBeyond(x: u32, k: nat)
    requires k >= 32
    ensures Shr(x, k) == 0
  {
    WordBits();
    ShrAll(x, 32);
    ShrTwice(x, 32, k - 32);
    ShrSmaller(0, k - 32);
  }

  /** Multiplying by `k` is undone by multiplying by its inverse modulo the word size. */
  lemma MulBack(x: u32, k: nat, inverse: nat, e: nat)
    requires k * inverse == 1 + e * WORDS
    ensures MulWord(MulWord(x, k), inverse) == x
  {
    var q, r := x * k / WORDS, x * k % WORDS;
    assert r == x * k - q * WORDS;
    var m := x * e - q * inverse;
    calc {
      r * inverse;
      (x * k - q * WORDS) * inverse;
      x * (k * inverse) - q * inverse * WORDS;
      x * (1 + e * WORDS) - q * inverse * WORDS;
      x + m * WORDS;
    }
  }

  lemma MulPrime(x: u32)
    ensures MulWord(MulWord(x, PRIME), 0x359c_449b) == x && MulWord(MulWord(x, 0x359c_449b), PRIME) == x
  {
    MulBack(x, PRIME, 0x359c_449b, 0x35_9c99);
    MulBack(x, 0x359c_449b, PRIME, 0x35_9c99);
  }

  lemma Mul1(x: u32)
    ensures MulWord(MulWord(x, MIX1), 0xa5cb_9243) == x && MulWord(MulWord(x, 0xa5cb_9243), MIX1) == x
  {
    MulBack(x, MIX1, 0xa5cb_9243, 0x56bb_77f4);
    MulBack(x, 0xa5cb_9243, MIX1, 0x56bb_77f4);
  }

  lemma Mul2(x: u32)
    ensures MulWord(MulWord(x, MIX2), 0x7ed1_b41d) == x && MulWord(MulWord(x, 0x7ed1_b41d), MIX2) == x
  {
    MulBack(x, MIX2, 0x7ed1_b41d, 0x6073_6e9a);
    MulBack(x, 0x7ed1_b41d, MIX2, 0x6073_6e9a);
  }

  function UnFinalise(y: u32): u32 {
    Unmix(MulWord(Unmix(MulWord(Unmix(y, 16), 0x7ed1_b41d), 13), 0xa5cb_9243), 16)
  }

  /** The finaliser is a bijection on 32-bit words. */
  lemma FinaliserBijection(h: u32)
    ensures UnFinalise(Finalise(h)) == h
    ensures Finalise(UnFinalise(h)) == h
  {
    hide Mix, Unmix, MulWord;
    var a := Mix(h, 16);
    var b := MulWord(a, MIX1);
    var c := Mix(b, 13);
    MixInvertible(h, 16);
    Mul1(a);
    MixInvertible(b, 13);
    Mul2(c);
    MixInvertible(MulWord(c, MIX2), 16);
    var c' := MulWord(Unmix(h, 16), 0x7ed1_b41d);
    var b' := Unmix(c', 13);
    var a' := MulWord(b', 0xa5cb_9243);
    MixInvertible(h, 16);
    Mul2(Unmix(h, 16));
    MixInvertible(c', 13);
    Mul1(b');
    MixInvertible(a', 16);
  }

  /** A step is injective in the state for a fixed byte, and in the byte for a fixed state. */
  lemma FnvStepInjective(h: u32, g: u32, a: u8, b: u8)
    ensures FnvStep(h, a) == FnvStep(g, a) <==> h == g
    ensures FnvStep(h, a) == FnvStep(h, b) <==> a == b
  {
    MulPrime(XorWord(h, a));
    MulPrime(XorWord(g, a));
    MulPrime(XorWord(h, b));
    hide MulWord;
    XorUndo(h, a);
    XorUndo(g, a);
    XorSwap(h, a);
    XorSwap(h, b);
    XorUndo(a, h);
    XorUndo(b, h);
  }

  /** A common suffix neither makes nor breaks a collision. */
  lemma {:induction false} SuffixCancels(h: u32, g: u32, bytes: seq<u8>)
    ensures Fnv(h, bytes) == Fnv(g, bytes) <==> h == g
    decreases |bytes|
  {
    hide FnvStep;
    if bytes != [] {
      FnvStepInjective(h, g, bytes[0], bytes[0]);
      SuffixCancels(FnvStep(h, bytes[0]), FnvStep(g, bytes[0]), bytes[1..]);
    }
  }

  lemma {:induction false} FnvConcat(h: u32, a: seq<u8>, b: seq<u8>)
    ensures Fnv(h, a + b) == Fnv(Fnv(h, a), b)
    decreases |a|
  {
    hide FnvStep;
    if a == [] {
      assert a + b == b;
    } else {
      assert (a + b)[1..] == a[1..] + b;
      FnvConcat(FnvStep(h, a[0]), a[1..], b);
    }
  }

  /** Two seeds collide exactly when their FNV states do: the finaliser adds no collision. */
  lemma FinaliserAddsNoCollision(a: seq<u8>, b: seq<u8>)
    ensures SeedHash(a) == SeedHash(b) <==> Fnv(OFFSET, Seed(a)) == Fnv(OFFSET, Seed(b))
  {
    hide Finalise, UnFinalise;
    FinaliserBijection(Fnv(OFFSET, Seed(a)));
    FinaliserBijection(Fnv(OFFSET, Seed(b)));
  }

  /** Seeds of equal length that differ in exactly one byte never share a hash. */
  lemma OneByteApart(a: seq<u8>, b: seq<u8>, k: nat)
    requires |a| == |b| && k < |a| && a[k] != b[k]
    requires forall i :: 0 <= i < |a| && i != k ==> a[i] == b[i]
    ensures SeedHash(a) != SeedHash(b)
  {
    hide Finalise, FnvStep;
    var front, back := a[..k], a[k + 1..];
    assert a == front + ([a[k]] + back) && b == front + ([b[k]] + back);
    FnvConcat(OFFSET, front, [a[k]] + back);
    FnvConcat(OFFSET, front, [b[k]] + back);
    var h := Fnv(OFFSET, front);
    assert ([a[k]] + back)[1..] == back && ([b[k]] + back)[1..] == back;
    FnvStepInjective(h, h, a[k], b[k]);
    SuffixCancels(FnvStep(h, a[k]), FnvStep(h, b[k]), back);
    FinaliserAddsNoCollision(a, b);
  }

  // ---- The colour ------------------------------------------------------------------------------------

  /** `color_spec`: hue, tone and saturation index. */
  function ColorSpec(h: nat): (nat, nat, nat) {
    (h % 360, h / 360 % 3, h / 1080 % 2)
  }

  lemma Mod2160(h: nat)
    ensures h % 2160 == h % 360 + 360 * (h / 360 % 3) + 1080 * (h / 1080 % 2)
  {
    var a := h / 360;
    assert h / 1080 == a / 3;
    var b := a / 3;
    assert h == 360 * a + h % 360 && a == 3 * b + a % 3 && b == 2 * (b / 2) + b % 2;
    assert h == 2160 * (b / 2) + (h % 360 + 360 * (a % 3) + 1080 * (b % 2));
  }

  lemma SameSpec(g: nat, h: nat)
    ensures ColorSpec(g) == ColorSpec(h) <==> g % 2160 == h % 2160
  {
    Mod2160(g);
    Mod2160(h);
  }

  /** Two seeds share a colour exactly when their hashes agree modulo 360 * 3 * 2. */
  lemma SameColour(a: seq<u8>, b: seq<u8>)
    ensures ColorSpec(SeedHash(a)) == ColorSpec(SeedHash(b)) <==> SeedHash(a) % 2160 == SeedHash(b) % 2160
  {
    hide SeedHash;
    SameSpec(SeedHash(a), SeedHash(b));
  }

  /** Hue, tone and saturation are the digits of `h % 2160` in bases 360, 3 and 2, the hue the lowest. */
  lemma ColourDigits(h: nat)
    ensures var (hue, tone, saturation) := ColorSpec(h);
            hue < 360 && tone < 3 && saturation < 2 && hue + 360 * tone + 1080 * saturation == h % 2160
  {
    Mod2160(h);
  }

  // ---- The hash from its arithmetic ------------------------------------------------------------------

  lemma QuotientIs(a: nat, d: nat, q: nat)
    requires q * d <= a < q * d + d
    ensures a / d == q
  {
    var n := a / d;
    assert a == n * d + a % d;
    assert n < q ==> (n + 1) * d <= q * d;
    assert n > q ==> (q + 1) * d <= n * d;
  }

  lemma HalfBounds(a: nat, q: nat, d: nat)
    requires q * d <= a / 2 < q * d + d
    ensures q * (2 * d) <= a < q * (2 * d) + 2 * d
  {
    assert q * (2 * d) == 2 * (q * d);
  }

  /** Shifting right is dividing by a power of two. */
  lemma {:induction false} ShrDivides(a: nat, k: nat)
    ensures Pow2(k) > 0 && Shr(a, k) * Pow2(k) <= a < Shr(a, k) * Pow2(k) + Pow2(k)
    ensures Shr(a, k) == a / Pow2(k)
    decreases k
  {
    if k > 0 {
      ShrDivides(a / 2, k - 1);
      HalfBounds(a, Shr(a / 2, k - 1), Pow2(k - 1));
    }
    var d, q := Pow2(k), Shr(a, k);
    hide *;
    QuotientIs(a, d, q);
  }

  /** Exclusive or compares bit by bit. */
  lemma XorMeans(a: nat, b: nat, k: nat)
    ensures Pow2(k) > 0
    ensures Xor(a, b) / Pow2(k) % 2 == (if a / Pow2(k) % 2 == b / Pow2(k) % 2 then 0 else 1)
  {
    hide *;
    ShrDivides(a, k);
    ShrDivides(b, k);
    ShrDivides(Xor(a, b), k);
    ShrXor(a, b, k);
    XorBits(Shr(a, k), Shr(b, k));
    Parity(Shr(a, k), Shr(b, k));
  }

  lemma Parity(x: nat, y: nat)
    ensures (x + y) % 2 == if x % 2 == y % 2 then 0 else 1
  {
  }

  /** The states of FNV-1a, from the offset basis on. */
  ghost predicate FnvStates(bytes: seq<u8>, hs: seq<u32>) {
    && |hs| == |bytes| + 1 && hs[0] == 0x811c_9dc5
    && forall i :: 0 <= i < |bytes| ==> hs[i + 1] == Xor(hs[i], bytes[i]) * 0x0100_0193 % 0x1_0000_0000
  }

  lemma {:induction false} FnvOfStates(bytes: seq<u8>, hs: seq<u32>, i: nat)
    requires FnvStates(bytes, hs) && i <= |bytes|
    ensures Fnv(hs[i], bytes[i..]) == hs[|bytes|]
    decreases |bytes| - i
  {
    hide Xor;
    if i < |bytes| {
      assert bytes[i..][1..] == bytes[i + 1..];
      FnvOfStates(bytes, hs, i + 1);
    }
  }

  lemma ShrConstants(h: nat)
    ensures Shr(h, 16) == h / 65536 && Shr(h, 13) == h / 8192
  {
    assert Pow2(8) == 256;
    assert Pow2(13) == 8192 && Pow2(16) == 65536;
    hide *;
    ShrDivides(h, 16);
    ShrDivides(h, 13);
  }

  /** The hash is FNV-1a's last state mixed down: exclusive or with itself shifted by 16, times a constant, the same by
      13, times a constant, the same by 16. */
  lemma HashIs(bytes: seq<u8>, hs: seq<u32>, a: u32, b: u32, c: u32, d: u32)
    requires FnvStates(if bytes == [] then [0x3F] else bytes, hs)
    requires a == Xor(hs[|hs| - 1], hs[|hs| - 1] / 65536) && b == a * 0x85eb_ca6b % 0x1_0000_0000
    requires c == Xor(b, b / 8192) && d == c * 0xc2b2_ae35 % 0x1_0000_0000
    ensures SeedHash(bytes) == Xor(d, d / 65536)
  {
    hide Xor, Shr, Fnv, Pow2;
    var s := if bytes == [] then [0x3F] else bytes;
    FnvOfStates(s, hs, 0);
    assert s[0..] == s;
    ShrConstants(hs[|hs| - 1]);
    ShrConstants(b);
    ShrConstants(d);
  }
}
