/** Strict total orders, sorting and the removal of repeats: what `sort` followed by `dedup` leaves. */
module Ordering {

  ghost predicate StrictTotal<T(!new)>(less: (T, T) -> bool)
  {
    && (forall x :: !less(x, x))
    && (forall x, y :: less(x, y) || x == y || less(y, x))
    && (forall x, y, z :: less(x, y) && less(y, z) ==> less(x, z))
  }

  predicate Sorted<T>(less: (T, T) -> bool, s: seq<T>)
  {
    forall i, j :: 0 <= i < j < |s| ==> !less(s[j], s[i])
  }

  predicate StrictlySorted<T>(less: (T, T) -> bool, s: seq<T>)
  {
    forall i, j :: 0 <= i < j < |s| ==> less(s[i], s[j])
  }

  // ---------------------------------------------------------------- lexicographic order

  predicate Lex<T(==)>(less: (T, T) -> bool, a: seq<T>, b: seq<T>)
  {
    if b == [] then false
    else if a == [] then true
    else if a[0] != b[0] then less(a[0], b[0])
    else Lex(less, a[1..], b[1..])
  }

  lemma {:induction false} LexIrreflexive<T(!new)>(less: (T, T) -> bool, a: seq<T>)
    requires StrictTotal(less)
    ensures !Lex(less, a, a)
  {
    if a != [] { LexIrreflexive(less, a[1..]); }
  }

  lemma {:induction false} LexTrichotomy<T(!new)>(less: (T, T) -> bool, a: seq<T>, b: seq<T>)
    requires StrictTotal(less)
    ensures Lex(less, a, b) || a == b || Lex(less, b, a)
  {
    if a != [] && b != [] {
      LexTrichotomy(less, a[1..], b[1..]);
      assert a == [a[0]] + a[1..] && b == [b[0]] + b[1..];
    }
  }

  lemma {:induction false} LexTransitive<T(!new)>(less: (T, T) -> bool, a: seq<T>, b: seq<T>, c: seq<T>)
    requires StrictTotal(less) && Lex(less, a, b) && Lex(less, b, c)
    ensures Lex(less, a, c)
  {
    if a != [] && a[0] == b[0] == c[0] {
      LexTransitive(less, a[1..], b[1..], c[1..]);
    }
  }

  // ---------------------------------------------------------------- sorting

  function Place<T>(less: (T, T) -> bool, x: T, s: seq<T>): (r: seq<T>)
  {
    if s == [] || less(x, s[0]) then [x] + s else [s[0]] + Place(less, x, s[1..])
  }

  /** The sorted rearrangement of `s`; equal elements keep their order. */
  function Sort<T>(less: (T, T) -> bool, s: seq<T>): (r: seq<T>)
  {
    if s == [] then [] else Place(less, s[|s| - 1], Sort(less, s[..|s| - 1]))
  }

  /** Drops every element equal to the one before it. */
  function Dedup<T(==)>(s: seq<T>): (r: seq<T>)
  {
    if |s| <= 1 then s
    else if s[0] == s[1] then Dedup(s[1..])
    else [s[0]] + Dedup(s[1..])
  }

  lemma {:induction false} PlaceMembers<T(!new)>(less: (T, T) -> bool, x: T, s: seq<T>)
    ensures forall y :: y in Place(less, x, s) <==> y == x || y in s
  {
    if s != [] && !less(x, s[0]) {
      PlaceMembers(less, x, s[1..]);
      assert s == [s[0]] + s[1..];
    }
  }

  /** Sortedness by heads: every later element is no smaller. */
  lemma ConsSorted<T(!new)>(less: (T, T) -> bool, x: T, s: seq<T>)
    requires Sorted(less, s) && forall y :: y in s ==> !less(y, x)
    ensures Sorted(less, [x] + s)
  {
  }

  lemma {:induction false} PlaceSorted<T(!new)>(less: (T, T) -> bool, x: T, s: seq<T>)
    requires StrictTotal(less) && Sorted(less, s)
    ensures Sorted(less, Place(less, x, s))
  {
    if s == [] {
    } else if less(x, s[0]) {
      forall y | y in s ensures !less(y, x) {
        if y != s[0] {
          var k :| 0 < k < |s| && s[k] == y;
        }
      }
      ConsSorted(less, x, s);
    } else {
      PlaceSorted(less, x, s[1..]);
      PlaceMembers(less, x, s[1..]);
      ConsSorted(less, s[0], Place(less, x, s[1..]));
    }
  }

  lemma {:induction false} SortSorts<T(!new)>(less: (T, T) -> bool, s: seq<T>)
    requires StrictTotal(less)
    ensures Sorted(less, Sort(less, s))
    ensures forall y :: y in Sort(less, s) <==> y in s
  {
    if s != [] {
      var init, last := s[..|s| - 1], s[|s| - 1];
      SortSorts(less, init);
      PlaceSorted(less, last, Sort(less, init));
      PlaceMembers(less, last, Sort(less, init));
      assert s == init + [last];
    }
  }

  lemma {:induction false} DedupStrict<T(!new)>(less: (T, T) -> bool, s: seq<T>)
    requires StrictTotal(less) && Sorted(less, s)
    ensures StrictlySorted(less, Dedup(s))
    ensures forall y :: y in Dedup(s) <==> y in s
  {
    if |s| > 1 {
      DedupStrict(less, s[1..]);
      assert s == [s[0]] + s[1..];
      if s[0] != s[1] {
        var rest := Dedup(s[1..]);
        forall y | y in rest ensures less(s[0], y) {
          var k :| 0 < k < |s| && s[k] == y;
          assert less(s[0], s[1]);
        }
      }
    }
  }

  /** `sort` then `dedup`: strictly increasing, same elements. */
  lemma SortDedup<T(!new)>(less: (T, T) -> bool, s: seq<T>)
    requires StrictTotal(less)
    ensures StrictlySorted(less, Dedup(Sort(less, s)))
    ensures forall y :: y in Dedup(Sort(less, s)) <==> y in s
  {
    SortSorts(less, s);
    DedupStrict(less, Sort(less, s));
  }

  lemma TailMembers<T(!new)>(less: (T, T) -> bool, a: seq<T>, y: T)
    requires StrictTotal(less) && StrictlySorted(less, a) && a != []
    ensures y in a[1..] <==> y in a && y != a[0]
  {
    assert a == [a[0]] + a[1..];
  }

  lemma SameHead<T(!new)>(less: (T, T) -> bool, a: seq<T>, b: seq<T>)
    requires StrictTotal(less) && StrictlySorted(less, a) && StrictlySorted(less, b)
    requires a != [] && b != [] && a[0] in b && b[0] in a
    ensures a[0] == b[0]
  {
    var i :| 0 <= i < |b| && b[i] == a[0];
    var j :| 0 <= j < |a| && a[j] == b[0];
  }

  lemma SameEmptiness<T(!new)>(a: seq<T>, b: seq<T>)
    requires forall y :: y in a <==> y in b
    ensures a == [] <==> b == []
  {
    if a != [] { assert a[0] in a; }
    if b != [] { assert b[0] in b; }
  }

  /** A strictly increasing sequence is determined by its elements. */
  lemma {:induction false} Canonical<T(!new)>(less: (T, T) -> bool, a: seq<T>, b: seq<T>)
    requires StrictTotal(less) && StrictlySorted(less, a) && StrictlySorted(less, b)
    requires forall y :: y in a <==> y in b
    ensures a == b
  {
    SameEmptiness(a, b);
    if a != [] {
      assert a[0] in b;
      assert b[0] in a;
      SameHead(less, a, b);
      forall y ensures y in a[1..] <==> y in b[1..] {
        TailMembers(less, a, y);
        TailMembers(less, b, y);
      }
      Canonical(less, a[1..], b[1..]);
      assert a == [a[0]] + a[1..] && b == [b[0]] + b[1..];
    }
  }
}
