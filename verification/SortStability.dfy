/**
  Which elements the exchange sort moves, and when elements of equal rank keep their order.
 */
module SortStability {
  import opened ExchangeSort

  /** The pass moves positions one to one. */
  lemma FromIsInjective<T>(s: seq<T>, key: T -> int, i: nat, x: nat, y: nat)
    requires i < |s| && x < y < |s|
    ensures From(s, key, i, |s|, x) != From(s, key, i, |s|, y)
  {
    LeadIsBest(s, key, i, |s|);
    if i < x {
      LeadIsBest(s, key, i, x);
    }
    if i < y {
      LeadIsBest(s, key, i, y);
    }
  }

  // ------------------------------------------- when a pass keeps the order

  /** Elements of equal key stand in the order in which they stood before the pass. */
  ghost predicate PassKeepsOrder<T>(s: seq<T>, key: T -> int, i: nat)
    requires i < |s|
  {
    forall x, y | 0 <= x < y < |s| ::
      key(s[From(s, key, i, |s|, x)]) == key(s[From(s, key, i, |s|, y)]) ==>
        From(s, key, i, |s|, x) < From(s, key, i, |s|, y)
  }

  /** The element overtaken by the one at q jumps over an equal one at b. */
  ghost predicate JumpsOver<T>(s: seq<T>, key: T -> int, i: nat, q: nat, b: nat) {
    q < |s| && Overtakes(s, key, i, q) && Lead(s, key, i, q) < b < q && key(s[b]) == key(s[Lead(s, key, i, q)])
  }

  lemma NoJumpKeepsPair<T>(s: seq<T>, key: T -> int, i: nat, x: nat, y: nat)
    requires i < |s| && x < y < |s|
    requires !JumpsOver(s, key, i, y, x)
    requires key(s[From(s, key, i, |s|, x)]) == key(s[From(s, key, i, |s|, y)])
    ensures From(s, key, i, |s|, x) < From(s, key, i, |s|, y)
  {
    LeadIsBest(s, key, i, |s|);
    if i < x {
      LeadIsBest(s, key, i, x);
    }
    if i < y {
      LeadIsBest(s, key, i, y);
    }
  }

  lemma JumpBreaksPair<T>(s: seq<T>, key: T -> int, i: nat, q: nat, b: nat)
    requires i < |s| && JumpsOver(s, key, i, q, b)
    ensures !PassKeepsOrder(s, key, i)
  {
    LeadIsBest(s, key, i, b);
    assert From(s, key, i, |s|, b) == b && From(s, key, i, |s|, q) == Lead(s, key, i, q);
  }

  /**
    A pass keeps the order of equals exactly when no element equal to an overtaken one lies
    between it and the element that overtakes it.
   */
  lemma PassKeepsOrderIff<T>(s: seq<T>, key: T -> int, i: nat)
    requires i < |s|
    ensures PassKeepsOrder(s, key, i) <==> forall q: nat, b: nat :: !JumpsOver(s, key, i, q, b)
  {
    if q: nat, b: nat :| JumpsOver(s, key, i, q, b) {
      JumpBreaksPair(s, key, i, q, b);
    } else {
      forall x, y | 0 <= x < y < |s| && key(s[From(s, key, i, |s|, x)]) == key(s[From(s, key, i, |s|, y)])
        ensures From(s, key, i, |s|, x) < From(s, key, i, |s|, y)
      {
        NoJumpKeepsPair(s, key, i, x, y);
      }
    }
  }

  // --------------------------------------------------------- the whole sort

  /** Where the element at q of the ranking comes from. */
  ghost function RankFrom<T>(s: seq<T>, key: T -> int, i: nat, q: nat): (p: nat)
    requires i <= |s| && q < |s|
    ensures p < |s|
    decreases |s| - i
  {
    if i == |s| then q
    else From(s, key, i, |s|, RankFrom(InnerPass(s, key, i, i + 1), key, i + 1, q))
  }

  lemma PassTakesFrom<T>(s: seq<T>, key: T -> int, i: nat, q: nat)
    requires i < |s| && q < |s|
    ensures InnerPass(s, key, i, i + 1)[q] == s[From(s, key, i, |s|, q)]
  {
    PassIs(s, key, i);
  }

  lemma {:induction false} RankTakesFrom<T>(s: seq<T>, key: T -> int, i: nat, q: nat)
    requires i <= |s| && q < |s|
    ensures Rank(s, key, i)[q] == s[RankFrom(s, key, i, q)]
    decreases |s| - i
  {
    if i < |s| {
      var r := InnerPass(s, key, i, i + 1);
      RankTakesFrom(r, key, i + 1, q);
      PassTakesFrom(s, key, i, RankFrom(r, key, i + 1, q));
    }
  }

  /** Nothing that follows two equals outranks them. */
  ghost predicate TiesComeLast<T>(s: seq<T>, key: T -> int, i: nat) {
    forall a, b, q | i <= a < b < q < |s| :: key(s[a]) == key(s[b]) ==> key(s[q]) <= key(s[a])
  }

  lemma TiesKeepOrder<T>(s: seq<T>, key: T -> int, i: nat)
    requires i < |s| && TiesComeLast(s, key, i)
    ensures PassKeepsOrder(s, key, i)
  {
    PassKeepsOrderIff(s, key, i);
  }

  lemma FromIsBelow<T>(s: seq<T>, key: T -> int, i: nat, q: nat)
    requires i < q < |s|
    ensures i <= From(s, key, i, |s|, q) <= q
    ensures key(s[From(s, key, i, |s|, q)]) <= key(s[q])
  {
  }

  lemma TiesStillComeLast<T>(s: seq<T>, key: T -> int, i: nat)
    requires i < |s| && TiesComeLast(s, key, i)
    ensures TiesComeLast(InnerPass(s, key, i, i + 1), key, i + 1)
  {
    PassIs(s, key, i);
    TiesKeepOrder(s, key, i);
    var r := Shifted(s, key, i, |s|);
    forall a, b, q | i + 1 <= a < b < q < |s| && key(r[a]) == key(r[b]) ensures key(r[q]) <= key(r[a]) {
      FromIsBelow(s, key, i, a);
      FromIsBelow(s, key, i, b);
      FromIsBelow(s, key, i, q);
      assert From(s, key, i, |s|, a) < From(s, key, i, |s|, b);
    }
  }

  lemma PassKeepsPair<T>(s: seq<T>, key: T -> int, i: nat, x: nat, y: nat)
    requires i < |s| && TiesComeLast(s, key, i) && x < y < |s|
    requires key(InnerPass(s, key, i, i + 1)[x]) == key(InnerPass(s, key, i, i + 1)[y])
    ensures From(s, key, i, |s|, x) < From(s, key, i, |s|, y)
  {
    PassIs(s, key, i);
    TiesKeepOrder(s, key, i);
  }

  /** If nothing that follows two equals outranks them, the sort keeps the order of all equals. */
  lemma {:induction false} RankKeepsOrder<T>(s: seq<T>, key: T -> int, i: nat, x: nat, y: nat)
    requires i <= |s| && TiesComeLast(s, key, i) && x < y < |s|
    requires key(Rank(s, key, i)[x]) == key(Rank(s, key, i)[y])
    ensures RankFrom(s, key, i, x) < RankFrom(s, key, i, y)
    decreases |s| - i
  {
    if i < |s| {
      var r := InnerPass(s, key, i, i + 1);
      TiesStillComeLast(s, key, i);
      RankKeepsOrder(r, key, i + 1, x, y);
      RankTakesFrom(r, key, i + 1, x);
      RankTakesFrom(r, key, i + 1, y);
      PassKeepsPair(s, key, i, RankFrom(r, key, i + 1, x), RankFrom(r, key, i + 1, y));
    }
  }

  // ----------------------------------------------------- the second element

  lemma {:induction false} SettledPlaces<T>(s: seq<T>, key: T -> int, i: nat, q: nat)
    requires q < i <= |s|
    ensures RankFrom(s, key, i, q) == q
    decreases |s| - i
  {
    if i < |s| {
      SettledPlaces(InnerPass(s, key, i, i + 1), key, i + 1, q);
    }
  }

  /** The list after the first pass, and where its second pass finds the leftmost best of the rest. */
  function AfterFirst<T>(s: seq<T>, key: T -> int): (r: seq<T>)
    requires |s| >= 2
    ensures |r| == |s|
  {
    Shifted(s, key, 0, |s|)
  }

  function SecondAt<T>(s: seq<T>, key: T -> int): (l: nat)
    requires |s| >= 2
    ensures 1 <= l < |s|
  {
    Lead(AfterFirst(s, key), key, 1, |s|)
  }

  lemma SecondComesFrom<T>(s: seq<T>, key: T -> int)
    requires |s| >= 2
    ensures RankFrom(s, key, 0, 1) == From(s, key, 0, |s|, SecondAt(s, key))
  {
    var r := InnerPass(s, key, 0, 1);
    PassIs(s, key, 0);
    SettledPlaces(InnerPass(r, key, 1, 2), key, 2, 1);
    assert RankFrom(r, key, 1, 1) == Lead(r, key, 1, |r|);
  }

  /** p is the leftmost of the positions other than m with the highest key among them. */
  ghost predicate NextBest<T>(s: seq<T>, key: T -> int, m: nat, p: nat) {
    && p < |s| && p != m
    && (forall k :: 0 <= k < |s| && k != m ==> key(s[k]) <= key(s[p]))
    && (forall k :: 0 <= k < p && k != m ==> key(s[k]) < key(s[p]))
  }

  /** At least two elements before m have the key of the one at p. */
  ghost predicate TwoBefore<T>(s: seq<T>, key: T -> int, m: nat, p: nat)
    requires m <= |s| && p < |s|
  {
    exists a, b :: 0 <= a < b < m && key(s[a]) == key(s[p]) && key(s[b]) == key(s[p])
  }

  /** Where the first pass puts the next best element. */
  lemma NextBestMoves<T>(s: seq<T>, key: T -> int, p: nat) returns (x: nat)
    requires |s| >= 2 && NextBest(s, key, Lead(s, key, 0, |s|), p)
    ensures x == if p < Lead(s, key, 0, |s|) then Lead(s, key, 0, |s|) else p
    ensures 1 <= x < |s| && From(s, key, 0, |s|, x) == p
  {
    var m := Lead(s, key, 0, |s|);
    LeadIsBest(s, key, 0, |s|);
    x := if p < m then m else p;
    LeadIsBest(s, key, 0, x);
  }

  /** After the first pass nothing but the head outranks the next best element. */
  lemma KeysAfterFirst<T>(s: seq<T>, key: T -> int, p: nat, q: nat)
    requires |s| >= 2 && NextBest(s, key, Lead(s, key, 0, |s|), p) && 1 <= q < |s|
    ensures key(AfterFirst(s, key)[q]) <= key(s[p])
  {
    FromIsInjective(s, key, 0, 0, q);
  }

  /** An equal element that the next best one jumped over stands before it. */
  lemma JumpedOverStands<T>(s: seq<T>, key: T -> int, p: nat, b: nat)
    requires |s| >= 2 && NextBest(s, key, Lead(s, key, 0, |s|), p)
    requires p < b < Lead(s, key, 0, |s|) && key(s[b]) == key(s[p])
    ensures AfterFirst(s, key)[b] == s[b]
  {
    LeadIsBest(s, key, 0, b);
  }

  lemma NextBestStaysFirst<T>(s: seq<T>, key: T -> int, p: nat, x: nat, q: nat)
    requires |s| >= 2
    requires NextBest(s, key, Lead(s, key, 0, |s|), p) && !TwoBefore(s, key, Lead(s, key, 0, |s|), p)
    requires x == if p < Lead(s, key, 0, |s|) then Lead(s, key, 0, |s|) else p
    requires 1 <= q < x
    ensures key(AfterFirst(s, key)[q]) < key(s[p])
  {
    LeadIsBest(s, key, 0, |s|);
    LeadIsBest(s, key, 0, q);
    FromIsInjective(s, key, 0, 0, q);
    var _ := NextBestMoves(s, key, p);
    FromIsInjective(s, key, 0, q, x);
  }

  /** The second pass picks the place of the next best element, unless that one jumped over an equal. */
  lemma SecondAtIff<T>(s: seq<T>, key: T -> int, p: nat, x: nat)
    requires |s| >= 2 && NextBest(s, key, Lead(s, key, 0, |s|), p)
    requires x == if p < Lead(s, key, 0, |s|) then Lead(s, key, 0, |s|) else p
    requires 1 <= x < |s| && AfterFirst(s, key)[x] == s[p]
    ensures SecondAt(s, key) == x <==> !TwoBefore(s, key, Lead(s, key, 0, |s|), p)
  {
    var m, r, l := Lead(s, key, 0, |s|), AfterFirst(s, key), SecondAt(s, key);
    LeadIsBest(r, key, 1, |s|);
    if TwoBefore(s, key, m, p) {
      var a, b :| 0 <= a < b < m && key(s[a]) == key(s[p]) && key(s[b]) == key(s[p]);
      JumpedOverStands(s, key, p, b);
    } else {
      KeysAfterFirst(s, key, p, l);
      if l < x {
        NextBestStaysFirst(s, key, p, x, l);
      }
    }
  }

  /**
    The second element of the ranking is the leftmost of the next best ones exactly when fewer
    than two elements of that rank precede the best one.
   */
  lemma SecondIsLeftmostIff<T>(s: seq<T>, key: T -> int, p: nat)
    requires |s| >= 2 && NextBest(s, key, Lead(s, key, 0, |s|), p)
    ensures RankFrom(s, key, 0, 1) == p <==> !TwoBefore(s, key, Lead(s, key, 0, |s|), p)
  {
    SecondComesFrom(s, key);
    var x := NextBestMoves(s, key, p);
    var l := SecondAt(s, key);
    SecondAtIff(s, key, p, x);
    if l < x {
      FromIsInjective(s, key, 0, l, x);
    } else if x < l {
      FromIsInjective(s, key, 0, x, l);
    }
  }

  /** Equal keys may change places: the sort is not stable. */
  lemma NotStable()
    ensures Rank([(1, 'a'), (1, 'b'), (2, 'c')], (p: (int, char)) => p.0, 0)
         == [(2, 'c'), (1, 'b'), (1, 'a')]
  {
    var key := (p: (int, char)) => p.0;
    var s := [(1, 'a'), (1, 'b'), (2, 'c')];
    var r := [(2, 'c'), (1, 'b'), (1, 'a')];
    assert InnerPass(s, key, 0, 1) == InnerPass(s, key, 0, 2) == InnerPass(r, key, 0, 3) == r;
    assert InnerPass(r, key, 1, 2) == r;
    assert InnerPass(r, key, 2, 3) == r;
    assert Rank(s, key, 0) == Rank(r, key, 1) == Rank(r, key, 2) == Rank(r, key, 3) == r;
  }

  /** The condition is not needed: a later pass can undo an earlier jump. */
  lemma OrderCanReturn()
    ensures
      var key, s := (p: (int, char)) => p.0, [(1, 'a'), (1, 'b'), (2, 'c'), (3, 'd')];
      !TiesComeLast(s, key, 0) && Rank(s, key, 0) == [(3, 'd'), (2, 'c'), (1, 'a'), (1, 'b')]
  {
    var key := (p: (int, char)) => p.0;
    var s := [(1, 'a'), (1, 'b'), (2, 'c'), (3, 'd')];
    var t := [(2, 'c'), (1, 'b'), (1, 'a'), (3, 'd')];
    var u := [(3, 'd'), (1, 'b'), (1, 'a'), (2, 'c')];
    var r := [(3, 'd'), (2, 'c'), (1, 'a'), (1, 'b')];
    assert key(s[0]) == key(s[1]) && key(s[2]) > key(s[0]);
    assert InnerPass(s, key, 0, 1) == InnerPass(s, key, 0, 2) == InnerPass(t, key, 0, 3) == InnerPass(u, key, 0, 4) == u;
    assert InnerPass(u, key, 1, 2) == InnerPass(u, key, 1, 3) == InnerPass(r, key, 1, 4) == r;
    assert InnerPass(r, key, 2, 3) == InnerPass(r, key, 2, 4) == r;
    assert InnerPass(r, key, 3, 4) == r;
    assert Rank(s, key, 0) == Rank(u, key, 1) == Rank(r, key, 2) == Rank(r, key, 3) == Rank(r, key, 4) == r;
  }
}
