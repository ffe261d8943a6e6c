/** Substring search. */
module Text {

  predicate OccursAt(s: string, sub: string, i: int) {
    0 <= i <= |s| - |sub| && forall k :: 0 <= k < |sub| ==> s[i + k] == sub[k]
  }

  predicate Contains(s: string, sub: string) {
    exists i :: 0 <= i <= |s| && OccursAt(s, sub, i)
  }

  /** An occurrence cuts the string into what is before it, itself, and what is after it. */
  lemma OccursAtMeans(s: string, sub: string, i: int)
    ensures OccursAt(s, sub, i) <==> 0 <= i <= |s| - |sub| && s == s[..i] + sub + s[i + |sub|..]
  {
    if 0 <= i <= |s| - |sub| {
      var whole := s[..i] + sub + s[i + |sub|..];
      if OccursAt(s, sub, i) {
        assert forall k :: 0 <= k < |s| ==> whole[k] == if i <= k < i + |sub| then sub[k - i] else s[k];
        forall k | i <= k < i + |sub| ensures s[k] == sub[k - i] {
          assert s[i + (k - i)] == sub[k - i];
        }
      }
      if s == whole {
        assert forall k :: 0 <= k < |sub| ==> whole[i + k] == sub[k];
      }
    }
  }

  lemma ContainsMeans(s: string, sub: string)
    ensures Contains(s, sub) <==> exists a, b :: s == a + sub + b
  {
    if i :| 0 <= i <= |s| && OccursAt(s, sub, i) {
      OccursAtMeans(s, sub, i);
    }
    if a, b :| s == a + sub + b {
      assert s[..|a|] == a && s[|a| + |sub|..] == b;
      OccursAtMeans(s, sub, |a|);
    }
  }

  lemma ContainsChar(s: string, c: char)
    ensures Contains(s, [c]) <==> c in s
  {
    if i :| 0 <= i <= |s| && OccursAt(s, [c], i) {
      assert s[i + 0] == [c][0];
    }
    if i :| 0 <= i < |s| && s[i] == c {
      assert OccursAt(s, [c], i);
    }
  }

  predicate ContainsAny(s: string, words: seq<string>) {
    exists k :: 0 <= k < |words| && Contains(s, words[k])
  }

  lemma ContainsAnyMeans(s: string, words: seq<string>)
    ensures ContainsAny(s, words) <==> exists w, a, b :: w in words && s == a + w + b
  {
    if k :| 0 <= k < |words| && Contains(s, words[k]) {
      ContainsMeans(s, words[k]);
    }
    if w, a, b :| w in words && s == a + w + b {
      ContainsMeans(s, w);
    }
  }

  datatype Position = Absent | Found(at: nat)

  /** The first occurrence of sub in s at or after position from. */
  function IndexFrom(s: string, sub: string, from: nat): (p: Position)
    requires from <= |s|
    ensures p.Found? ==> from <= p.at && p.at + |sub| <= |s|
    decreases |s| - from
  {
    if OccursAt(s, sub, from) then Found(from)
    else if from == |s| then Absent
    else IndexFrom(s, sub, from + 1)
  }

  lemma {:induction false} IndexFromIsFirst(s: string, sub: string, from: nat)
    requires from <= |s|
    ensures
      var p := IndexFrom(s, sub, from);
      && (p.Found? ==> OccursAt(s, sub, p.at) && forall i :: from <= i < p.at ==> !OccursAt(s, sub, i))
      && (p.Absent? ==> forall i :: from <= i <= |s| ==> !OccursAt(s, sub, i))
    decreases |s| - from
  {
    if !OccursAt(s, sub, from) && from < |s| {
      IndexFromIsFirst(s, sub, from + 1);
    }
  }
}
