/** Branch-lock intents and the collisions between them. */
module BranchLock {
  import opened Basics
  import opened Ordering

  datatype Intent = Intent(laneId: string, branch: string, worktree: Option<string>, modules: seq<string>)

  datatype Collision = Collision(branch: string, scope: string, laneIds: seq<string>)

  // ---------------------------------------------------------------- the orders the sorts use

  predicate CharLess(a: char, b: char) { a < b }

  /** Strings by code point. */
  predicate StringLess(a: string, b: string) { Lex(CharLess, a, b) }

  predicate ListLess(a: seq<string>, b: seq<string>) { Lex(StringLess, a, b) }

  /** Collisions by branch, then module, then lanes. */
  predicate CollisionLess(a: Collision, b: Collision)
  {
    if a.branch != b.branch then StringLess(a.branch, b.branch)
    else if a.scope != b.scope then StringLess(a.scope, b.scope)
    else ListLess(a.laneIds, b.laneIds)
  }

  lemma StringLessTotal()
    ensures StrictTotal(StringLess)
  {
    assert StrictTotal(CharLess);
    forall a: string ensures !StringLess(a, a) { LexIrreflexive(CharLess, a); }
    forall a: string, b: string ensures StringLess(a, b) || a == b || StringLess(b, a) {
      LexTrichotomy(CharLess, a, b);
    }
    forall a: string, b: string, c: string | StringLess(a, b) && StringLess(b, c) ensures StringLess(a, c) {
      LexTransitive(CharLess, a, b, c);
    }
  }

  lemma ListLessTotal()
    ensures StrictTotal(ListLess)
  {
    StringLessTotal();
    forall a: seq<string> ensures !ListLess(a, a) { LexIrreflexive(StringLess, a); }
    forall a: seq<string>, b: seq<string> ensures ListLess(a, b) || a == b || ListLess(b, a) {
      LexTrichotomy(StringLess, a, b);
    }
    forall a: seq<string>, b: seq<string>, c: seq<string> | ListLess(a, b) && ListLess(b, c) ensures ListLess(a, c) {
      LexTransitive(StringLess, a, b, c);
    }
  }

  lemma CollisionLessTotal()
    ensures StrictTotal(CollisionLess)
  {
    StringLessTotal();
    ListLessTotal();
  }

  // ---------------------------------------------------------------- module scopes

  predicate ModulesOverlap(left: string, right: string)
  {
    left == right || StartsWith(left, right + "/") || StartsWith(right, left + "/")
  }

  function SharedScope(left: string, right: string): (s: string)
  {
    if StartsWith(left, right + "/") || left == right then right else left
  }

  /** The '/'-separated components of a module path. */
  function Components(m: string): (cs: seq<string>)
    ensures cs != []
  {
    if m == "" then [""]
    else
      var rest := Components(m[1..]);
      if m[0] == '/' then [""] + rest else [[m[0]] + rest[0]] + rest[1..]
  }

  lemma {:induction false} JoinComponents(m: string)
    ensures Join(Components(m), "/") == m
  {
    if m != "" {
      var rest := Components(m[1..]);
      JoinComponents(m[1..]);
      assert m == [m[0]] + m[1..];
      if m[0] == '/' {
        assert Components(m)[1..] == rest;
      } else {
        assert Components(m)[1..] == rest[1..];
        if |rest| > 1 {
          ConcatAssociative([m[0]], rest[0], "/" + Join(rest[1..], "/"));
        }
      }
    }
  }

  lemma {:induction false} ComponentsConcat(a: string, b: string)
    ensures Components(a + "/" + b) == Components(a) + Components(b)
  {
    var whole := a + "/" + b;
    if a == "" {
      assert whole[1..] == b;
    } else {
      assert whole[1..] == a[1..] + "/" + b && whole[0] == a[0];
      ComponentsConcat(a[1..], b);
      var rest, cs := Components(a[1..]), Components(b);
      if a[0] == '/' {
        ConcatAssociative([""], rest, cs);
      } else {
        assert (rest + cs)[0] == rest[0] && (rest + cs)[1..] == rest[1..] + cs;
        ConcatAssociative([[a[0]] + rest[0]], rest[1..], cs);
      }
    }
  }

  lemma WithinGivesPrefix(inner: string, outer: string)
    requires StartsWith(inner, outer + "/")
    ensures Components(outer) <= Components(inner)
  {
    var rest := inner[|outer| + 1..];
    assert inner == outer + "/" + rest;
    ComponentsConcat(outer, rest);
  }

  lemma PrefixGivesWithin(inner: string, outer: string)
    requires Components(outer) <= Components(inner)
    ensures inner == outer || StartsWith(inner, outer + "/")
  {
    var cs, ds := Components(outer), Components(inner);
    JoinComponents(outer);
    JoinComponents(inner);
    var tail := ds[|cs|..];
    assert ds == cs + tail;
    if tail == [] {
      assert ds == cs;
    } else {
      JoinConcat(cs, tail, "/");
      assert inner == outer + "/" + Join(tail, "/");
    }
  }

  /** One path is within another exactly when its components start with the other's. */
  lemma WithinIsPrefix(inner: string, outer: string)
    ensures Components(outer) <= Components(inner) <==> inner == outer || StartsWith(inner, outer + "/")
  {
    if StartsWith(inner, outer + "/") { WithinGivesPrefix(inner, outer); }
    if Components(outer) <= Components(inner) { PrefixGivesWithin(inner, outer); }
  }

  /** Two modules meet when one's component list is a prefix of the other's. */
  predicate Meet(left: string, right: string)
  {
    Components(left) <= Components(right) || Components(right) <= Components(left)
  }

  function Shorter(left: string, right: string): (s: string)
  {
    if |Components(left)| < |Components(right)| then left else right
  }

  /** String tests and component lists agree, and the reported scope is the shorter of the two. */
  lemma OverlapIsMeeting(left: string, right: string)
    ensures ModulesOverlap(left, right) <==> Meet(left, right)
    ensures ModulesOverlap(left, right) ==> SharedScope(left, right) == Shorter(left, right)
  {
    WithinIsPrefix(left, right);
    WithinIsPrefix(right, left);
    JoinComponents(left);
    JoinComponents(right);
    if ModulesOverlap(left, right) && |Components(left)| == |Components(right)| {
      assert Components(left) == Components(right);
    }
  }

  // ---------------------------------------------------------------- detection

  /** `m` names a scope that a module of `left` and a module of `right` share. */
  predicate Shared(left: seq<string>, right: seq<string>, m: string)
  {
    exists i, j :: 0 <= i < |left| && 0 <= j < |right| && Meet(left[i], right[j]) && m == Shorter(left[i], right[j])
  }

  method OverlappingModules(left: seq<string>, right: seq<string>) returns (overlaps: seq<string>)
    ensures StrictlySorted(StringLess, overlaps)
    ensures forall m :: m in overlaps <==> Shared(left, right, m)
  {
    overlaps := [];
    for i := 0 to |left|
      invariant forall m :: m in overlaps <==> Shared(left[..i], right, m)
    {
      ghost var before := overlaps;
      for j := 0 to |right|
        invariant forall m :: m in overlaps <==> m in before || Shared([left[i]], right[..j], m)
      {
        if ModulesOverlap(left[i], right[j]) {
          overlaps := overlaps + [SharedScope(left[i], right[j])];
        }
        OverlapIsMeeting(left[i], right[j]);
        forall m ensures m in overlaps <==> m in before || Shared([left[i]], right[..j + 1], m) {
          SharedGrowsRight([left[i]], right, j, m);
          SharedOne(left[i], right[j], m);
        }
      }
      assert right[..|right|] == right;
      forall m ensures m in overlaps <==> Shared(left[..i + 1], right, m) {
        SharedGrowsLeft(left, right, i, m);
      }
    }
    assert left[..|left|] == left;
    StringLessTotal();
    SortDedup(StringLess, overlaps);
    overlaps := Dedup(Sort(StringLess, overlaps));
  }

  lemma SharedOne(l: string, r: string, m: string)
    ensures Shared([l], [r], m) <==> Meet(l, r) && m == Shorter(l, r)
  {
    assert [l][0] == l && [r][0] == r;
  }

  lemma SharedGrowsRight(left: seq<string>, right: seq<string>, j: nat, m: string)
    requires j < |right|
    ensures Shared(left, right[..j + 1], m) <==> Shared(left, right[..j], m) || Shared(left, [right[j]], m)
  {
    var more := right[..j + 1];
    assert forall k :: 0 <= k < j ==> more[k] == right[..j][k];
    assert more[j] == right[j] == [right[j]][0];
    if Shared(left, more, m) {
      var i, k :| 0 <= i < |left| && 0 <= k < |more| && Meet(left[i], more[k]) && m == Shorter(left[i], more[k]);
      assert k < j || more[k] == [right[j]][0];
    }
  }

  lemma SharedGrowsLeft(left: seq<string>, right: seq<string>, i: nat, m: string)
    requires i < |left|
    ensures Shared(left[..i + 1], right, m) <==> Shared(left[..i], right, m) || Shared([left[i]], right, m)
  {
    var more := left[..i + 1];
    assert forall k :: 0 <= k < i ==> more[k] == left[..i][k];
    assert more[i] == left[i] == [left[i]][0];
    if Shared(more, right, m) {
      var k, j :| 0 <= k < |more| && 0 <= j < |right| && Meet(more[k], right[j]) && m == Shorter(more[k], right[j]);
      assert k < i || more[k] == [left[i]][0];
    }
  }

  /** `c` is a collision between this pair of intents, the earlier one first. */
  predicate Collides(left: Intent, right: Intent, c: Collision)
  {
    && left.branch == right.branch == c.branch
    && c.laneIds == [left.laneId, right.laneId]
    && Shared(left.modules, right.modules, c.scope)
  }

  predicate IsCollision(intents: seq<Intent>, c: Collision)
  {
    exists i, j :: 0 <= i < j < |intents| && Collides(intents[i], intents[j], c)
  }

  /** A report lists exactly the collisions, in order and without repeats. */
  ghost predicate Reports(intents: seq<Intent>, report: seq<Collision>)
  {
    && StrictlySorted(CollisionLess, report)
    && forall c :: c in report <==> IsCollision(intents, c)
  }

  method DetectBranchLockCollisions(intents: seq<Intent>) returns (collisions: seq<Collision>)
    ensures Reports(intents, collisions)
  {
    collisions := [];
    for i := 0 to |intents|
      invariant forall c :: c in collisions <==> Found(intents, i, i + 1, c)
    {
      for j := i + 1 to |intents|
        invariant forall c :: c in collisions <==> Found(intents, i, j, c)
      {
        if intents[i].branch == intents[j].branch {
          var modules := OverlappingModules(intents[i].modules, intents[j].modules);
          collisions := PushAll(collisions, intents[i], intents[j], modules);
        }
        forall c ensures c in collisions <==> Found(intents, i, j + 1, c) {
          FoundNext(intents, i, j, c);
        }
      }
      forall c ensures c in collisions <==> Found(intents, i + 1, i + 2, c) {
        FoundRow(intents, i, c);
      }
    }
    forall c ensures c in collisions <==> IsCollision(intents, c) { FoundAll(intents, c); }
    CollisionLessTotal();
    SortDedup(CollisionLess, collisions);
    collisions := Dedup(Sort(CollisionLess, collisions));
  }

  method PushAll(collisions: seq<Collision>, left: Intent, right: Intent, modules: seq<string>)
    returns (all: seq<Collision>)
    requires left.branch == right.branch
    requires forall m :: m in modules <==> Shared(left.modules, right.modules, m)
    ensures forall c :: c in all <==> c in collisions || Collides(left, right, c)
  {
    all := collisions;
    for k := 0 to |modules|
      invariant forall c :: c in all <==> c in collisions || (Collides(left, right, c) && c.scope in modules[..k])
    {
      assert modules[k] in modules;
      assert modules[..k + 1] == modules[..k] + [modules[k]];
      all := all + [Collision(left.branch, modules[k], [left.laneId, right.laneId])];
    }
    assert modules[..|modules|] == modules;
  }

  /** Collisions of the pairs visited before the pair `(i, j)`. */
  predicate Found(intents: seq<Intent>, i: nat, j: nat, c: Collision)
  {
    exists k, l :: 0 <= k < l < |intents| && (k < i || (k == i && l < j)) && Collides(intents[k], intents[l], c)
  }

  lemma FoundNext(intents: seq<Intent>, i: nat, j: nat, c: Collision)
    requires i < j < |intents|
    ensures Found(intents, i, j + 1, c) <==> Found(intents, i, j, c) || Collides(intents[i], intents[j], c)
  {
  }

  lemma FoundRow(intents: seq<Intent>, i: nat, c: Collision)
    ensures Found(intents, i, |intents|, c) <==> Found(intents, i + 1, i + 2, c)
  {
  }

  lemma FoundAll(intents: seq<Intent>, c: Collision)
    ensures Found(intents, |intents|, |intents| + 1, c) <==> IsCollision(intents, c)
  {
  }

  /** The report is canonical: there is only one for given intents. */
  lemma ReportIsCanonical(intents: seq<Intent>, a: seq<Collision>, b: seq<Collision>)
    requires Reports(intents, a) && Reports(intents, b)
    ensures a == b
  {
    CollisionLessTotal();
    Canonical(CollisionLess, a, b);
  }

  /** The order of a report: by branch first, then by scope, then by the lanes, each by code point. */
  lemma ReportIsOrdered(intents: seq<Intent>, report: seq<Collision>, i: nat, j: nat)
    requires Reports(intents, report) && i < j < |report|
    ensures |report[i].laneIds| == 2 == |report[j].laneIds|
    ensures
      var a, b := report[i], report[j];
      || StringLess(a.branch, b.branch)
      || (a.branch == b.branch && StringLess(a.scope, b.scope))
      || (a.branch == b.branch && a.scope == b.scope && StringLess(a.laneIds[0], b.laneIds[0]))
      || (a.branch == b.branch && a.scope == b.scope && a.laneIds[0] == b.laneIds[0]
          && StringLess(a.laneIds[1], b.laneIds[1]))
  {
    var a, b := report[i], report[j];
    assert a in report && b in report;
    assert IsCollision(intents, a) && IsCollision(intents, b);
    assert CollisionLess(a, b);
    if a.branch == b.branch && a.scope == b.scope { PairOrder(a.laneIds, b.laneIds); }
  }

  lemma PairOrder(a: seq<string>, b: seq<string>)
    requires |a| == 2 == |b| && ListLess(a, b)
    ensures StringLess(a[0], b[0]) || (a[0] == b[0] && StringLess(a[1], b[1]))
  {
    var s, t := a[1..], b[1..];
    assert s == [a[1]] && t == [b[1]] && s[1..] == [] && t[1..] == [];
    assert !Lex(StringLess, [], []);
    if a[0] == b[0] {
      assert Lex(StringLess, s, t);
      assert s[0] != t[0] ==> StringLess(s[0], t[0]);
    }
  }

  /** Adding an intent, wherever it goes in the list, never removes a collision from the report. */
  lemma AddingKeepsCollisions(before: seq<Intent>, x: Intent, after: seq<Intent>, a: seq<Collision>, b: seq<Collision>)
    requires Reports(before + after, a) && Reports(before + [x] + after, b)
    ensures forall c :: c in a ==> c in b
  {
    var short, long := before + after, before + [x] + after;
    forall c | c in a ensures c in b {
      var i, j :| 0 <= i < j < |short| && Collides(short[i], short[j], c);
      var p := if i < |before| then i else i + 1;
      var q := if j < |before| then j else j + 1;
      assert long[p] == short[i] && long[q] == short[j];
      assert IsCollision(long, c);
    }
  }
}
