/** The 64-bit FNV-1a hash behind cache keys and directory names (draft-eastlake-fnv, section 2). */
module Fnv {
  import opened Basics
  import opened Utf8

  const TWO_64: int := 0x1_0000_0000_0000_0000
  type u64 = x: int | 0 <= x < TWO_64

  const FNV_OFFSET_BASIS: u64 := 0xcbf2_9ce4_8422_2325
  const FNV_PRIME: u64 := 0x0000_0100_0000_01b3
  /** The multiplicative inverse of `FNV_PRIME` modulo 2^64. */
  const FNV_INVERSE: u64 := 0xce96_5057_aff6_957b

  function Pow2(n: nat): (p: nat)
    ensures p > 0
  {
    if n == 0 then 1 else 2 * Pow2(n - 1)
  }

  /** Bitwise exclusive or of the low `n` bits. */
  function Xor(a: nat, b: nat, n: nat): (r: nat)
    ensures r < Pow2(n)
  {
    if n == 0 then 0 else (a + b) % 2 + 2 * Xor(a / 2, b / 2, n - 1)
  }

  lemma Bits(d: nat, x: nat)
    requires d < 2
    ensures (d + 2 * x) % 2 == d && (d + 2 * x) / 2 == x
  {
  }

  lemma FlipTwice(a: nat, b: nat, r: nat)
    requires r % 2 == (a + b) % 2
    ensures (r + b) % 2 == a % 2
  {
  }

  lemma {:induction false} XorCancels(a: nat, b: nat, n: nat)
    requires a < Pow2(n)
    ensures Xor(Xor(a, b, n), b, n) == a
  {
    if n > 0 {
      XorCancels(a / 2, b / 2, n - 1);
      Bits((a + b) % 2, Xor(a / 2, b / 2, n - 1));
      FlipTwice(a, b, Xor(a, b, n));
    }
  }

  lemma {:induction false} XorCommutes(a: nat, b: nat, n: nat)
    ensures Xor(a, b, n) == Xor(b, a, n)
  {
    if n > 0 { XorCommutes(a / 2, b / 2, n - 1); }
  }

  lemma Pow64()
    ensures Pow2(64) == TWO_64
  {
    assert Pow2(8) == 256;
    assert Pow2(16) == 256 * 256;
    assert Pow2(24) == 256 * 256 * 256;
    assert Pow2(32) == 0x1_0000_0000;
    assert Pow2(40) == 0x100_0000_0000;
    assert Pow2(48) == 0x1_0000_0000_0000;
    assert Pow2(56) == 0x100_0000_0000_0000;
  }

  /** `wrapping_mul`. */
  function WrappingMul(a: u64, b: u64): (r: u64)
  {
    a * b % TWO_64
  }

  function Mix(hash: u64, b: byte): (r: u64)
  {
    Pow64();
    WrappingMul(Xor(hash, b as int, 64), FNV_PRIME)
  }

  function HashFrom(hash: u64, bytes: seq<byte>): (r: u64)
    decreases |bytes|
  {
    if bytes == [] then hash else HashFrom(Mix(hash, bytes[0]), bytes[1..])
  }

  function StableHash(bytes: seq<byte>): (r: u64)
  {
    HashFrom(FNV_OFFSET_BASIS, bytes)
  }

  /** The published hash of the empty string: the offset basis. */
  lemma HashOfNothing()
    ensures StableHash([]) == 0xcbf2_9ce4_8422_2325
  {
  }

  /** The published FNV-1a hash of the letter "a". */
  lemma HashOfLetter(letter: seq<byte>)
    requires |letter| == 1 && letter[0] as int == 0x61
    ensures StableHash(letter) == 0xaf63_dc4c_8601_ec8c
  {
    XorOfLetter();
    HashOne(FNV_OFFSET_BASIS, letter[0]);
    assert letter == [letter[0]];
    MixGives(FNV_OFFSET_BASIS, letter[0], 0xcbf2_9ce4_8422_2344, 0xcbf29ce5de, 0xaf63_dc4c_8601_ec8c);
  }

  lemma MixGives(hash: u64, b: byte, x: u64, q: nat, r: u64)
    requires Xor(hash, b as int, 64) == x && x * FNV_PRIME == q * TWO_64 + r
    ensures Mix(hash, b) == r
  {
    ModOfMultiple(r, q, TWO_64);
  }

  lemma HashOne(hash: u64, b: byte)
    ensures HashFrom(hash, [b]) == Mix(hash, b)
  {
    assert [b][1..] == [];
  }

  lemma {:induction false} XorWithZero(a: nat, n: nat)
    requires a < Pow2(n)
    ensures Xor(a, 0, n) == a
  {
    if n > 0 { XorWithZero(a / 2, n - 1); }
  }

  lemma XorOfLetter()
    ensures Xor(0xcbf2_9ce4_8422_2325, 0x61, 64) == 0xcbf2_9ce4_8422_2344
  {
    Pow64();
    assert Pow2(57) == 2 * Pow2(56) && Pow2(56) == 0x100_0000_0000_0000;
    XorWithZero(0x197_e539_c908_4446, 57);
    assert Xor(0x32f_ca73_9210_888c, 0x1, 58) == 0x32f_ca73_9210_888d;
    assert Xor(0x65f_94e7_2421_1119, 0x3, 59) == 0x65f_94e7_2421_111a;
    assert Xor(0xcbf_29ce_4842_2232, 0x6, 60) == 0xcbf_29ce_4842_2234;
    assert Xor(0x197e_539c_9084_4464, 0xc, 61) == 0x197e_539c_9084_4468;
    assert Xor(0x32fc_a739_2108_88c9, 0x18, 62) == 0x32fc_a739_2108_88d1;
    assert Xor(0x65f9_4e72_4211_1192, 0x30, 63) == 0x65f9_4e72_4211_11a2;
    assert Xor(0xcbf2_9ce4_8422_2325, 0x61, 64) == 0xcbf2_9ce4_8422_2344;
  }

  method StableHashBytes(bytes: seq<byte>) returns (hash: u64)
    ensures hash == StableHash(bytes)
  {
    hash := FNV_OFFSET_BASIS;
    var i := 0;
    while i < |bytes|
      invariant 0 <= i <= |bytes|
      invariant HashFrom(hash, bytes[i..]) == StableHash(bytes)
    {
      Pow64();
      hash := Xor(hash, bytes[i] as int, 64);
      hash := WrappingMul(hash, FNV_PRIME);
      assert bytes[i..][1..] == bytes[i + 1..];
      i := i + 1;
    }
  }

  lemma SmallMultipleIsZero(d: int, m: nat)
    requires 0 - m as int < d * m < m
    ensures d == 0
  {
  }

  lemma ModOfMultiple(x: nat, t: int, m: nat)
    requires x < m
    ensures (x + t * m) % m == x
  {
    var y := x + t * m;
    var q, r := y / m, y % m;
    assert y == q * m + r;
    assert (q - t) * m == q * m - t * m == x - r;
    SmallMultipleIsZero(q - t, m);
  }

  /** A factor with an inverse modulo `m` can be undone modulo `m`. */
  lemma MulUndone(x: nat, p: nat, inv: nat, k: nat, m: nat)
    requires x < m && p * inv == 1 + k * m
    ensures (x * p % m) * inv % m == x
  {
    var q, r := x * p / m, x * p % m;
    assert r == x * p - q * m;
    calc {
      r * inv;
      x * p * inv - q * m * inv;
      { assert x * p * inv == x * (p * inv) && q * m * inv == q * inv * m; }
      x * (1 + k * m) - q * inv * m;
      { assert x * (1 + k * m) == x + x * k * m; }
      x + x * k * m - q * inv * m;
      x + (x * k - q * inv) * m;
    }
    ModOfMultiple(x, x * k - q * inv, m);
  }

  /** Multiplying by the prime loses nothing. */
  lemma MulInvertible(x: u64)
    ensures WrappingMul(WrappingMul(x, FNV_PRIME), FNV_INVERSE) == x
  {
    MulUndone(x, FNV_PRIME, FNV_INVERSE, 0xce9650590f, TWO_64);
  }

  lemma MixInjective(h: u64, g: u64, b: byte, c: byte)
    ensures Mix(h, b) == Mix(g, b) ==> h == g
    ensures Mix(h, b) == Mix(h, c) ==> b == c
  {
    Pow64();
    MulInvertible(Xor(h, b as int, 64));
    MulInvertible(Xor(g, b as int, 64));
    MulInvertible(Xor(h, c as int, 64));
    XorCancels(h, b as int, 64);
    XorCancels(g, b as int, 64);
    XorCommutes(h, b as int, 64);
    XorCommutes(h, c as int, 64);
    XorCancels(b as int, h, 64);
    XorCancels(c as int, h, 64);
  }

  lemma {:induction false} HashFromInjective(h: u64, g: u64, bytes: seq<byte>)
    requires HashFrom(h, bytes) == HashFrom(g, bytes)
    ensures h == g
    decreases |bytes|
  {
    if bytes != [] {
      HashFromInjective(Mix(h, bytes[0]), Mix(g, bytes[0]), bytes[1..]);
      MixInjective(h, g, bytes[0], bytes[0]);
    }
  }

  lemma {:induction false} HashConcat(h: u64, a: seq<byte>, b: seq<byte>)
    ensures HashFrom(h, a + b) == HashFrom(HashFrom(h, a), b)
    decreases |a|
  {
    if a == [] {
      assert a + b == b;
    } else {
      assert (a + b)[1..] == a[1..] + b;
      HashConcat(Mix(h, a[0]), a[1..], b);
    }
  }

  /** `t` differs from `s` in the byte at `i` and nowhere else. */
  predicate EditAt(s: seq<byte>, t: seq<byte>, i: int)
  {
    |s| == |t| && 0 <= i < |s| && s[i] != t[i] && forall j :: 0 <= j < |s| && j != i ==> s[j] == t[j]
  }

  predicate OneByteEdit(s: seq<byte>, t: seq<byte>)
  {
    exists i :: 0 <= i < |s| && EditAt(s, t, i)
  }

  lemma EditChangesHash(before: seq<byte>, b: byte, c: byte, after: seq<byte>)
    requires b != c
    ensures StableHash(before + ([b] + after)) != StableHash(before + ([c] + after))
  {
    var h := HashFrom(FNV_OFFSET_BASIS, before);
    HashAround(before, b, after);
    HashAround(before, c, after);
    MixInjective(h, h, b, c);
    if HashFrom(Mix(h, b), after) == HashFrom(Mix(h, c), after) {
      HashFromInjective(Mix(h, b), Mix(h, c), after);
    }
  }

  /** Changing one byte always changes the hash. */
  lemma OneByteEditChangesHash(s: seq<byte>, t: seq<byte>)
    requires OneByteEdit(s, t)
    ensures StableHash(s) != StableHash(t)
  {
    var i :| 0 <= i < |s| && EditAt(s, t, i);
    var before, after := s[..i], s[i + 1..];
    EditChangesHash(before, s[i], t[i], after);
    assert s == before + ([s[i]] + after);
    assert t == before + ([t[i]] + after);
  }

  lemma HashAround(before: seq<byte>, b: byte, after: seq<byte>)
    ensures StableHash(before + ([b] + after)) == HashFrom(Mix(HashFrom(FNV_OFFSET_BASIS, before), b), after)
  {
    HashConcat(FNV_OFFSET_BASIS, before, [b] + after);
    assert ([b] + after)[1..] == after;
  }
}
