/** The lexicographic order of strings and strictly increasing string lists. */
module StringOrder {

  predicate Less(a: string, b: string) {
    if b == [] then false
    else if a == [] then true
    else a[0] < b[0] || (a[0] == b[0] && Less(a[1..], b[1..]))
  }

  /** a comes first: it is a proper beginning of b, or smaller where the two first differ. */
  ghost predicate ComesFirst(a: string, b: string, n: nat) {
    && n <= |a| && n < |b| && a[..n] == b[..n]
    && (n == |a| || a[n] < b[n])
  }

  lemma {:induction false} LessMeans(a: string, b: string)
    ensures Less(a, b) <==> exists n: nat :: ComesFirst(a, b, n)
  {
    if a == [] || b == [] {
      assert b != [] ==> ComesFirst(a, b, 0);
    } else {
      LessMeans(a[1..], b[1..]);
      if Less(a, b) {
        if a[0] < b[0] {
          assert ComesFirst(a, b, 0);
        } else {
          var n: nat :| ComesFirst(a[1..], b[1..], n);
          assert a[..n + 1] == [a[0]] + a[1..][..n] && b[..n + 1] == [b[0]] + b[1..][..n];
          assert ComesFirst(a, b, n + 1);
        }
      }
      if n: nat :| ComesFirst(a, b, n) {
        if n > 0 {
          assert a[0] == a[..n][0] && b[0] == b[..n][0];
          assert a[1..][..n - 1] == a[..n][1..] && b[1..][..n - 1] == b[..n][1..];
          assert ComesFirst(a[1..], b[1..], n - 1);
        }
      }
    }
  }

  lemma {:induction false} LessIsIrreflexive(a: string)
    ensures !Less(a, a)
  {
    if a != [] {
      LessIsIrreflexive(a[1..]);
    }
  }

  lemma {:induction false} LessIsTotal(a: string, b: string)
    ensures Less(a, b) || a == b || Less(b, a)
    ensures !(Less(a, b) && Less(b, a))
  {
    if a != [] && b != [] {
      LessIsTotal(a[1..], b[1..]);
      assert a == [a[0]] + a[1..] && b == [b[0]] + b[1..];
    }
  }

  lemma {:induction false} LessIsTransitive(a: string, b: string, c: string)
    requires Less(a, b) && Less(b, c)
    ensures Less(a, c)
  {
    if a != [] && a[0] == b[0] == c[0] {
      LessIsTransitive(a[1..], b[1..], c[1..]);
    }
  }

  ghost predicate Increasing(s: seq<string>) {
    forall i, j :: 0 <= i < j < |s| ==> Less(s[i], s[j])
  }

  /** Insert x in front of the first element that is not smaller; an element present stays single. */
  function Insert(s: seq<string>, x: string): seq<string> {
    if s == [] then [x]
    else if Less(s[0], x) then [s[0]] + Insert(s[1..], x)
    else if s[0] == x then s
    else [x] + s
  }

  lemma {:induction false} InsertAddsOne(s: seq<string>, x: string)
    ensures forall y :: y in Insert(s, x) <==> y in s || y == x
    ensures x !in s ==> |Insert(s, x)| == |s| + 1
  {
    if s != [] && Less(s[0], x) {
      InsertAddsOne(s[1..], x);
      assert s == [s[0]] + s[1..];
    }
  }

  lemma {:induction false} InsertKeepsIncreasing(s: seq<string>, x: string)
    requires Increasing(s)
    ensures Increasing(Insert(s, x))
  {
    if s != [] {
      LessIsTotal(s[0], x);
      if Less(s[0], x) {
        InsertKeepsIncreasing(s[1..], x);
        InsertAddsOne(s[1..], x);
        var rest := Insert(s[1..], x);
        assert forall k :: 0 <= k < |rest| ==> rest[k] in rest;
        assert forall y :: y in s[1..] ==> Less(s[0], y);
      } else if s[0] != x {
        forall k | 0 <= k < |s| ensures Less(x, s[k]) {
          if k > 0 {
            LessIsTransitive(x, s[0], s[k]);
          }
        }
      }
    }
  }

  /** An increasing list is determined by its elements. */
  lemma {:induction false} IncreasingIsUnique(s: seq<string>, t: seq<string>)
    requires Increasing(s) && Increasing(t) && forall x :: x in s <==> x in t
    ensures s == t
  {
    assert |t| > 0 ==> t[0] in t;
    if s != [] {
      assert s[0] in s;
      LessIsTotal(s[0], t[0]);
      assert s[0] == t[0];
      forall x ensures x in s[1..] <==> x in t[1..] {
        TailElements(s, x);
        TailElements(t, x);
      }
      IncreasingIsUnique(s[1..], t[1..]);
      assert s == [s[0]] + s[1..] && t == [t[0]] + t[1..];
    }
  }

  lemma TailElements(s: seq<string>, x: string)
    requires Increasing(s) && s != []
    ensures x in s[1..] <==> x in s && x != s[0]
  {
    LessIsIrreflexive(s[0]);
    assert s == [s[0]] + s[1..];
  }
}
