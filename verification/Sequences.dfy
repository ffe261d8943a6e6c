/** Facts about sequences and finite sets that several components share. */
module Sequences {

  datatype Option<T> = None | Some(value: T)

  function GetOr<T>(o: Option<T>, default: T): T {
    if o.Some? then o.value else default
  }

  /** The last n elements of s. */
  function LastN<T>(s: seq<T>, n: nat): seq<T> {
    if |s| > n then s[|s| - n..] else s
  }

  lemma Associative<T>(x: seq<T>, y: seq<T>, z: seq<T>)
    ensures x + (y + z) == x + y + z
  {
  }

  ghost predicate Distinct<T>(s: seq<T>) {
    forall i, j :: 0 <= i < j < |s| ==> s[i] != s[j]
  }

  lemma {:induction false} OccursOnce<T>(s: seq<T>, x: T)
    requires Distinct(s)
    ensures multiset(s)[x] <= 1
  {
    if s != [] {
      OccursOnce(s[1..], x);
      assert s == [s[0]] + s[1..];
      assert s[0] !in s[1..];
      assert s[0] !in multiset(s[1..]);
    }
  }

  lemma {:induction false} DistinctSize<T>(s: seq<T>)
    requires Distinct(s)
    ensures |set x | x in s| == |s|
  {
    if s != [] {
      var init, last := s[..|s| - 1], s[|s| - 1];
      DistinctSize(init);
      assert s == init + [last];
      assert (set x | x in s) == (set x | x in init) + {last};
    }
  }

  lemma PermutationKeepsElements<T>(s: seq<T>, r: seq<T>)
    requires multiset(s) == multiset(r)
    ensures |s| == |r|
    ensures forall x :: x in s <==> x in r
  {
    assert |s| == |multiset(s)| == |multiset(r)| == |r|;
    forall x ensures x in s <==> x in r {
      assert x in s <==> x in multiset(s);
      assert x in r <==> x in multiset(r);
    }
  }

  lemma PermutationKeepsDistinct<T>(s: seq<T>, r: seq<T>)
    requires Distinct(s) && multiset(s) == multiset(r)
    ensures Distinct(r)
  {
    forall i, j | 0 <= i < j < |r| ensures r[i] != r[j] {
      if r[i] == r[j] {
        assert r == r[..i] + [r[i]] + r[i + 1..j] + [r[j]] + r[j + 1..];
        assert multiset(r)[r[i]] >= 2;
        OccursOnce(s, r[i]);
      }
    }
  }

  lemma SplitSize<T>(whole: set<T>, a: set<T>, b: set<T>)
    requires forall x :: (x in whole <==> x in a || x in b) && (x in b ==> x !in a)
    ensures |whole| == |a| + |b|
  {
    assert whole == a + b && a !! b;
  }

  lemma SubsetSize<T>(a: set<T>, b: set<T>)
    requires a <= b
    ensures |a| <= |b|
    ensures |a| == |b| ==> a == b
  {
    assert b == a + (b - a);
    assert |b| == |a| + |b - a|;
  }

  lemma {:induction false} FreshNat(used: set<nat>) returns (n: nat)
    ensures n !in used && forall x :: x in used ==> x < n
    decreases |used|
  {
    if used == {} {
      n := 0;
    } else {
      var x :| x in used;
      var rest := used - {x};
      var y := FreshNat(rest);
      assert used == rest + {x};
      n := if x < y then y else x + 1;
    }
  }

  /** A finite set can be listed, each member once. */
  lemma {:induction false} Listed<T>(a: set<T>) returns (s: seq<T>)
    ensures Distinct(s) && forall x :: x in s <==> x in a
    decreases |a|
  {
    if a == {} {
      s := [];
    } else {
      var x :| x in a;
      var rest := a - {x};
      var others := Listed(rest);
      s := others + [x];
      assert a == rest + {x};
    }
  }

  /** The positions at which a mask is set. */
  ghost function TruePositions(mask: seq<bool>): set<int> {
    set i | 0 <= i < |mask| && mask[i]
  }

  function CountTrue(mask: seq<bool>): nat {
    if mask == [] then 0 else (if mask[0] then 1 else 0) + CountTrue(mask[1..])
  }

  lemma {:induction false} CountOneMore(mask: seq<bool>, b: bool)
    ensures CountTrue(mask + [b]) == CountTrue(mask) + if b then 1 else 0
  {
    var longer := mask + [b];
    if mask == [] {
      assert longer == [b];
    } else {
      CountOneMore(mask[1..], b);
      assert longer[0] == mask[0] && longer[1..] == mask[1..] + [b];
    }
  }

  lemma {:induction false} CountIsSize(mask: seq<bool>)
    ensures CountTrue(mask) == |TruePositions(mask)|
  {
    if mask == [] {
      assert TruePositions(mask) == {};
    } else {
      var n := |mask| - 1;
      var init := mask[..n];
      CountIsSize(init);
      assert mask == init + [mask[n]];
      CountOneMore(init, mask[n]);
      assert TruePositions(mask) == TruePositions(init) + if mask[n] then {n} else {};
    }
  }
}
