/**
  The in-place exchange sort used to rank jobs by age and contact links by score: position i
  is compared with every later position j, and the two are swapped when j ranks strictly
  higher.
 */
module ExchangeSort {
  import opened Sequences

  function Swap<T>(s: seq<T>, i: nat, j: nat): seq<T>
    requires i < |s| && j < |s|
  {
    s[i := s[j]][j := s[i]]
  }

  /** One comparison of the inner loop. */
  function Exchange<T>(s: seq<T>, key: T -> int, i: nat, j: nat): (r: seq<T>)
    requires i < j < |s|
    ensures |r| == |s|
  {
    if key(s[i]) < key(s[j]) then Swap(s, i, j) else s
  }

  /** The inner loop: bring the best of s[i..] to position i, starting at j. */
  function InnerPass<T>(s: seq<T>, key: T -> int, i: nat, j: nat): (r: seq<T>)
    requires i < j <= |s|
    ensures |r| == |s|
    decreases |s| - j
  {
    if j == |s| then s
    else InnerPass(Exchange(s, key, i, j), key, i, j + 1)
  }

  /** The outer loop from position i on. */
  function Rank<T>(s: seq<T>, key: T -> int, i: nat): (r: seq<T>)
    requires i <= |s|
    ensures |r| == |s|
    decreases |s| - i
  {
    if i == |s| then s else Rank(InnerPass(s, key, i, i + 1), key, i + 1)
  }

  ghost predicate Descending<T>(s: seq<T>, key: T -> int) {
    forall i, j :: 0 <= i < j < |s| ==> key(s[i]) >= key(s[j])
  }

  /** m is the leftmost position of s[lo..hi] with the highest key. */
  ghost predicate BestBefore<T>(s: seq<T>, key: T -> int, lo: nat, hi: nat, m: nat) {
    && lo <= m < hi <= |s|
    && (forall k :: lo <= k < hi ==> key(s[k]) <= key(s[m]))
    && (forall k :: lo <= k < m ==> key(s[k]) < key(s[m]))
  }

  /** m is the leftmost position of s[lo..] with the highest key. */
  ghost predicate LeftmostBest<T>(s: seq<T>, key: T -> int, lo: nat, m: nat) {
    BestBefore(s, key, lo, |s|, m)
  }

  lemma SwapPermutes<T>(s: seq<T>, i: nat, j: nat)
    requires i < j < |s|
    ensures multiset(Swap(s, i, j)) == multiset(s)
  {
    assert s == s[..i] + [s[i]] + s[i + 1..j] + [s[j]] + s[j + 1..];
    assert Swap(s, i, j) == s[..i] + [s[j]] + s[i + 1..j] + [s[i]] + s[j + 1..];
  }

  lemma ExchangePermutes<T>(s: seq<T>, key: T -> int, i: nat, j: nat)
    requires i < j < |s|
    ensures multiset(Exchange(s, key, i, j)) == multiset(s)
    ensures Exchange(s, key, i, j)[..i] == s[..i]
  {
    SwapPermutes(s, i, j);
  }

  lemma {:induction false} InnerPassPermutes<T>(s: seq<T>, key: T -> int, i: nat, j: nat)
    requires i < j <= |s|
    ensures multiset(InnerPass(s, key, i, j)) == multiset(s)
    ensures InnerPass(s, key, i, j)[..i] == s[..i]
    decreases |s| - j
  {
    if j < |s| {
      ExchangePermutes(s, key, i, j);
      InnerPassPermutes(Exchange(s, key, i, j), key, i, j + 1);
    }
  }

  // ------------------------------------------------------------- one pass

  /** The leftmost position of s[i..j] with the highest key. */
  function Lead<T>(s: seq<T>, key: T -> int, i: nat, j: nat): (m: nat)
    requires i < j <= |s|
    ensures i <= m < j
  {
    if j == i + 1 then i
    else
      var m := Lead(s, key, i, j - 1);
      if key(s[m]) < key(s[j - 1]) then j - 1 else m
  }

  lemma BestExtends<T>(s: seq<T>, key: T -> int, lo: nat, hi: nat, m: nat)
    requires BestBefore(s, key, lo, hi, m) && hi < |s|
    ensures BestBefore(s, key, lo, hi + 1, if key(s[m]) < key(s[hi]) then hi else m)
  {
  }

  lemma {:induction false} LeadIsBest<T>(s: seq<T>, key: T -> int, i: nat, j: nat)
    requires i < j <= |s|
    ensures BestBefore(s, key, i, j, Lead(s, key, i, j))
    decreases j
  {
    if j > i + 1 {
      LeadIsBest(s, key, i, j - 1);
      BestExtends(s, key, i, j - 1, Lead(s, key, i, j - 1));
    }
  }

  /** The element at q outranks everything from position i up to it. */
  predicate Overtakes<T>(s: seq<T>, key: T -> int, i: nat, q: nat)
    requires q < |s|
  {
    i < q && key(s[Lead(s, key, i, q)]) < key(s[q])
  }

  /** Where the element comes from that stands at q once the pass has reached j. */
  function From<T>(s: seq<T>, key: T -> int, i: nat, j: nat, q: nat): (p: nat)
    requires i < j <= |s| && q < |s|
    ensures p < |s|
  {
    if q == i then Lead(s, key, i, j)
    else if q < j && Overtakes(s, key, i, q) then Lead(s, key, i, q)
    else q
  }

  function Shifted<T>(s: seq<T>, key: T -> int, i: nat, j: nat): (r: seq<T>)
    requires i < j <= |s|
    ensures |r| == |s| && forall q :: 0 <= q < |s| ==> r[q] == s[From(s, key, i, j, q)]
  {
    seq(|s|, q requires 0 <= q < |s| => s[From(s, key, i, j, q)])
  }

  lemma ExchangeShifts<T>(s: seq<T>, key: T -> int, i: nat, j: nat)
    requires i < j < |s|
    ensures Exchange(Shifted(s, key, i, j), key, i, j) == Shifted(s, key, i, j + 1)
  {
    var a, b := Shifted(s, key, i, j), Shifted(s, key, i, j + 1);
    assert a[i] == s[Lead(s, key, i, j)] && a[j] == s[j];
    forall q | 0 <= q < |s| ensures Exchange(a, key, i, j)[q] == b[q] {
    }
  }

  lemma {:induction false} PassShifts<T>(s: seq<T>, key: T -> int, i: nat, j: nat)
    requires i < j <= |s|
    ensures InnerPass(Shifted(s, key, i, j), key, i, j) == Shifted(s, key, i, |s|)
    decreases |s| - j
  {
    if j < |s| {
      ExchangeShifts(s, key, i, j);
      PassShifts(s, key, i, j + 1);
    }
  }

  /**
    One pass in closed form: each element that outranks all before it moves the previous such
    element to its own place, the last one goes to the front, and everything else stays.
   */
  lemma PassIs<T>(s: seq<T>, key: T -> int, i: nat)
    requires i < |s|
    ensures InnerPass(s, key, i, i + 1) == Shifted(s, key, i, |s|)
  {
    assert Shifted(s, key, i, i + 1) == s;
    PassShifts(s, key, i, i + 1);
  }

  lemma InnerPassBest<T>(s: seq<T>, key: T -> int, i: nat)
    requires i < |s|
    ensures exists b: nat :: LeftmostBest(s, key, i, b) && InnerPass(s, key, i, i + 1)[i] == s[b]
  {
    PassIs(s, key, i);
    LeadIsBest(s, key, i, |s|);
  }

  /** A bound on the keys from position i on survives the inner pass. */
  lemma {:induction false} InnerPassBound<T>(s: seq<T>, key: T -> int, i: nat, j: nat, bound: int)
    requires i < j <= |s|
    requires forall k :: i <= k < |s| ==> key(s[k]) <= bound
    ensures forall k :: i <= k < |s| ==> key(InnerPass(s, key, i, j)[k]) <= bound
    decreases |s| - j
  {
    if j < |s| {
      InnerPassBound(Exchange(s, key, i, j), key, i, j + 1, bound);
    }
  }

  /** s[..i] is sorted and nothing from position i on outranks it. */
  ghost predicate Settled<T>(s: seq<T>, key: T -> int, i: nat) {
    forall a, b :: 0 <= a < i && a < b < |s| ==> key(s[a]) >= key(s[b])
  }

  lemma InnerPassSettles<T>(s: seq<T>, key: T -> int, i: nat)
    requires i < |s| && Settled(s, key, i)
    ensures Settled(InnerPass(s, key, i, i + 1), key, i + 1)
  {
    var r := InnerPass(s, key, i, i + 1);
    InnerPassPermutes(s, key, i, i + 1);
    assert forall a :: 0 <= a < i ==> r[a] == r[..i][a] == s[a];
    InnerPassBest(s, key, i);
    InnerPassBound(s, key, i, i + 1, key(r[i]));
    forall a, b | 0 <= a < i && a < b < |r| ensures key(r[a]) >= key(r[b]) {
      InnerPassBound(s, key, i, i + 1, key(s[a]));
    }
  }

  lemma {:induction false} RankSorts<T>(s: seq<T>, key: T -> int, i: nat)
    requires i <= |s| && Settled(s, key, i)
    ensures Descending(Rank(s, key, i), key)
    ensures multiset(Rank(s, key, i)) == multiset(s)
    ensures Rank(s, key, i)[..i] == s[..i]
    decreases |s| - i
  {
    if i < |s| {
      var r := InnerPass(s, key, i, i + 1);
      InnerPassSettles(s, key, i);
      InnerPassPermutes(s, key, i, i + 1);
      RankSorts(r, key, i + 1);
      assert Rank(s, key, i)[..i] == Rank(r, key, i + 1)[..i + 1][..i] == r[..i + 1][..i] == r[..i];
    }
  }

  /** The first pass settles the head for good. */
  lemma RankHead<T>(s: seq<T>, key: T -> int)
    requires s != []
    ensures Rank(s, key, 0)[0] == InnerPass(s, key, 0, 1)[0]
  {
    var r := InnerPass(s, key, 0, 1);
    InnerPassSettles(s, key, 0);
    RankSorts(r, key, 1);
    assert Rank(r, key, 1)[..1][0] == r[..1][0];
  }

  /** The whole sort: a descending permutation whose head is the leftmost best element. */
  lemma RankIsSortedPermutation<T>(s: seq<T>, key: T -> int)
    ensures Descending(Rank(s, key, 0), key)
    ensures multiset(Rank(s, key, 0)) == multiset(s)
    ensures s != [] ==> exists b: nat :: LeftmostBest(s, key, 0, b) && Rank(s, key, 0)[0] == s[b]
  {
    RankSorts(s, key, 0);
    if s != [] {
      RankHead(s, key);
      InnerPassBest(s, key, 0);
    }
  }

  /** No element cut off a ranked list outranks one that is kept. */
  lemma CutKeepsTheBest<T>(s: seq<T>, key: T -> int, n: nat, kept: T, left: T)
    requires n <= |s| && kept in Rank(s, key, 0)[..n] && left in s && left !in Rank(s, key, 0)[..n]
    ensures key(left) <= key(kept)
  {
    var ranked := Rank(s, key, 0);
    RankIsSortedPermutation(s, key);
    PermutationKeepsElements(s, ranked);
    var p :| 0 <= p < n && ranked[p] == kept;
    var q :| 0 <= q < |ranked| && ranked[q] == left;
    assert forall k :: 0 <= k < n ==> ranked[..n][k] == ranked[k];
    assert key(ranked[p]) >= key(ranked[q]);
  }

  method Sort<T>(a: array<T>, key: T -> int)
    modifies a
    ensures a[..] == Rank(old(a[..]), key, 0)
  {
    var i := 0;
    while i < a.Length
      invariant 0 <= i <= a.Length
      invariant Rank(a[..], key, i) == Rank(old(a[..]), key, 0)
    {
      ghost var before := a[..];
      var j := i + 1;
      while j < a.Length
        invariant i < j <= a.Length
        invariant InnerPass(a[..], key, i, j) == InnerPass(before, key, i, i + 1)
      {
        ghost var s := a[..];
        if key(a[i]) < key(a[j]) {
          a[i], a[j] := a[j], a[i];
          assert a[..] == Swap(s, i, j);
        }
        j := j + 1;
      }
      i := i + 1;
    }
  }
}
