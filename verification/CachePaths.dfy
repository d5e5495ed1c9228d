/** The directory segment a session id is cached under. */
module CachePaths {
  import opened Basics
  import opened Utf8
  import opened Fnv

  const MAX_SANITIZED_LENGTH := 80

  predicate IsAsciiAlphanumeric(c: char)
  {
    '0' <= c <= '9' || 'a' <= c <= 'z' || 'A' <= c <= 'Z'
  }

  /** Digits of `{:x}`: lower case, no leading zeros. */
  function HexDigit(d: nat): (c: char)
    requires d < 16
    ensures IsAsciiAlphanumeric(c)
  {
    if d < 10 then ('0' as int + d) as char else ('a' as int + (d - 10)) as char
  }

  function HexValueOf(c: char): (d: int)
  {
    if '0' <= c <= '9' then c as int - '0' as int else c as int - 'a' as int + 10
  }

  function Hex(n: nat): (s: string)
    ensures |s| >= 1 && forall i :: 0 <= i < |s| ==> IsAsciiAlphanumeric(s[i])
  {
    if n < 16 then [HexDigit(n)] else Hex(n / 16) + [HexDigit(n % 16)]
  }

  function HexValue(s: string): (n: int)
  {
    if s == "" then 0 else HexValue(s[..|s| - 1]) * 16 + HexValueOf(s[|s| - 1])
  }

  lemma {:induction false} HexRoundTrip(n: nat)
    ensures HexValue(Hex(n)) == n
  {
    var s := Hex(n);
    if n < 16 {
      assert s[..|s| - 1] == "";
    } else {
      HexRoundTrip(n / 16);
      assert s[..|s| - 1] == Hex(n / 16);
    }
  }

  lemma {:induction false} LeadingZero(s: string)
    ensures HexValue("0" + s) == HexValue(s)
  {
    var padded := "0" + s;
    if s == "" {
      assert padded[..0] == "";
    } else {
      assert padded[..|padded| - 1] == "0" + s[..|s| - 1];
      LeadingZero(s[..|s| - 1]);
    }
  }

  lemma {:induction false} HexLength(n: nat, k: nat)
    requires k >= 1 && n < Pow2(4 * k)
    ensures |Hex(n)| <= k
  {
    if n >= 16 {
      assert Pow2(4 * k) == 16 * Pow2(4 * (k - 1)) by {
        assert Pow2(4 * k) == 2 * Pow2(4 * k - 1) && Pow2(4 * k - 1) == 2 * Pow2(4 * k - 2);
        assert Pow2(4 * k - 2) == 2 * Pow2(4 * k - 3) && Pow2(4 * k - 3) == 2 * Pow2(4 * k - 4);
      }
      assert k > 1;
      HexLength(n / 16, k - 1);
    }
  }

  function Sanitized(value: string): (s: string)
    ensures |s| == |value|
    ensures forall i :: 0 <= i < |s| ==> s[i] == if IsAsciiAlphanumeric(value[i]) then value[i] else '-'
  {
    seq(|value|, i requires 0 <= i < |value| => if IsAsciiAlphanumeric(value[i]) then value[i] else '-')
  }

  function Suffix(value: string): (s: string)
  {
    "-" + Hex(StableHash(Encode(value)))
  }

  lemma SuffixFits(value: string)
    ensures 2 <= |Suffix(value)| <= 17
  {
    Pow64();
    HexLength(StableHash(Encode(value)), 16);
  }

  function SanitizePathSegment(value: string): (s: string)
  {
    SuffixFits(value);
    if |value| <= MAX_SANITIZED_LENGTH then Sanitized(value)
    else Sanitized(value)[..MAX_SANITIZED_LENGTH - |Suffix(value)|] + Suffix(value)
  }

  predicate SafeChar(c: char)
  {
    IsAsciiAlphanumeric(c) || c == '-'
  }

  /** Every segment is made of letters, digits and dashes; long ids get exactly 80 of them. */
  lemma SegmentIsSafe(value: string)
    ensures forall i :: 0 <= i < |SanitizePathSegment(value)| ==> SafeChar(SanitizePathSegment(value)[i])
    ensures |SanitizePathSegment(value)| == if |value| <= 80 then |value| else 80
  {
    SuffixFits(value);
  }

  /** A segment shows the id itself, with a dash for every other character: all of a short id, and at
      least the first 63 characters of a long one. */
  lemma SegmentShowsTheId(value: string, i: nat)
    requires i < |value| && (|value| <= 80 || i < 63)
    ensures i < |SanitizePathSegment(value)|
    ensures SanitizePathSegment(value)[i] == if IsAsciiAlphanumeric(value[i]) then value[i] else '-'
  {
    SuffixFits(value);
  }

  /** In a long id's segment the last dash is the one before the hash. */
  lemma HashReadsBack(a: string, b: string, x: nat, y: nat)
    requires a + "-" + Hex(x) == b + "-" + Hex(y)
    ensures x == y
  {
    assert '-' !in Hex(x) && '-' !in Hex(y);
    LastDash(a, Hex(x), b, Hex(y));
    HexRoundTrip(x);
    HexRoundTrip(y);
  }

  /** Two long ids share a segment only if their hashes collide. */
  lemma LongSegmentsCarryTheHash(v: string, w: string)
    requires |v| > 80 && |w| > 80 && SanitizePathSegment(v) == SanitizePathSegment(w)
    ensures StableHash(Encode(v)) == StableHash(Encode(w))
  {
    SuffixFits(v);
    SuffixFits(w);
    var a, b := Sanitized(v)[..80 - |Suffix(v)|], Sanitized(w)[..80 - |Suffix(w)|];
    ConcatAssociative(a, "-", Hex(StableHash(Encode(v))));
    ConcatAssociative(b, "-", Hex(StableHash(Encode(w))));
    HashReadsBack(a, b, StableHash(Encode(v)), StableHash(Encode(w)));
  }

  /** Long session ids that differ in one byte are cached under different directories. */
  lemma OneByteEditChangesSegment(v: string, w: string)
    requires |v| > 80 && |w| > 80 && OneByteEdit(Encode(v), Encode(w))
    ensures SanitizePathSegment(v) != SanitizePathSegment(w)
  {
    OneByteEditChangesHash(Encode(v), Encode(w));
    if SanitizePathSegment(v) == SanitizePathSegment(w) {
      LongSegmentsCarryTheHash(v, w);
    }
  }

  /** Short ids carry no hash: they share a segment exactly when they differ only in characters
      that are not letters or digits. */
  lemma ShortSegmentsShared(v: string, w: string)
    requires |v| <= 80 && |w| <= 80
    ensures SanitizePathSegment(v) == SanitizePathSegment(w) <==>
            && |v| == |w|
            && forall i :: 0 <= i < |v| ==>
                 v[i] == w[i] || (!IsAsciiAlphanumeric(v[i]) && !IsAsciiAlphanumeric(w[i]))
  {
  }
}
