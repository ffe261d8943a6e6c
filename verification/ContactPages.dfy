/**
  The choice of contact pages from the links of a page. Link extraction and URL resolution
  are inputs; scoring, de-duplication, ranking and the cut are modelled.
 */
module ContactPages {
  import opened Text
  import opened Sequences
  import ES = ExchangeSort
  import SS = SortStability

  const MAX_CONTACT_PAGES: nat := 2

  datatype Target = Unresolvable | Resolved(host: string, url: string)

  /** One anchor: its trimmed href, the same in lower case, its text, and where it leads. */
  datatype Link = Link(href: string, hrefLower: string, text: string, target: Target)

  datatype Candidate = Candidate(href: string, score: int)

  const BY_SCORE: Candidate -> int := (c: Candidate) => c.score

  const KEYWORDS: seq<string> := [
    "contact", "kontak", "hubungi", "tentang", "about", "team", "staff", "author", "profil", "profile",
    "get in touch", "reach us", "write to us", "customer service", "support", "help",
    "redaksi", "kotak pos", "kotakpos"]

  const FRAGMENTS: seq<string> := [
    "/contact", "/kontak", "/hubungi", "/tentang", "/about", "/team", "/staff", "/author", "/profile",
    "/customer-service", "/support", "/help", "contact-us", "contact.php", "contact.html",
    "kontak-kami", "hubungi-kami", "tentang-kami", "/redaksi", "/kotak-pos", "/kotakpos", "/karir"]

  predicate Followable(href: string) {
    "http://" <= href || "https://" <= href || "/" <= href || "./" <= href || "../" <= href
  }

  function Score(l: Link): int {
    (if ContainsAny(l.text, KEYWORDS) then 2 else 0) + (if ContainsAny(l.hrefLower, FRAGMENTS) then 5 else 0)
  }

  predicate Eligible(l: Link, base: string) {
    Followable(l.href) && Score(l) != 0 && l.target.Resolved? && l.target.host == base
  }

  predicate Seen(cs: seq<Candidate>, url: string) {
    exists k :: 0 <= k < |cs| && cs[k].href == url
  }

  /** The candidates after one more link. */
  function Offer(cs: seq<Candidate>, l: Link, base: string): seq<Candidate> {
    if Eligible(l, base) && !Seen(cs, l.target.url) then cs + [Candidate(l.target.url, Score(l))] else cs
  }

  /** The candidates of the first n links. */
  function Candidates(links: seq<Link>, base: string, n: nat): seq<Candidate>
    requires n <= |links|
  {
    if n == 0 then [] else Offer(Candidates(links, base, n - 1), links[n - 1], base)
  }

  /** The ranked candidates, cut to the two best. */
  function Best(cs: seq<Candidate>): seq<Candidate> {
    var ranked := ES.Rank(cs, BY_SCORE, 0);
    if |ranked| > MAX_CONTACT_PAGES then ranked[..MAX_CONTACT_PAGES] else ranked
  }

  function TopPages(links: seq<Link>, base: string): seq<Candidate> {
    Best(Candidates(links, base, |links|))
  }

  method FindContactPages(links: seq<Link>, base: string) returns (out: seq<string>)
    ensures |out| == |TopPages(links, base)|
    ensures forall k :: 0 <= k < |out| ==> out[k] == TopPages(links, base)[k].href
  {
    var seen: set<string> := {};
    var candidates: seq<Candidate> := [];
    var i := 0;
    while i < |links|
      invariant 0 <= i <= |links|
      invariant candidates == Candidates(links, base, i)
      invariant forall u :: u in seen <==> Seen(candidates, u)
    {
      var l := links[i];
      var before := candidates;
      if Followable(l.href) {
        var score := 0;
        if ContainsAny(l.text, KEYWORDS) {
          score := score + 2;
        }
        if ContainsAny(l.hrefLower, FRAGMENTS) {
          score := score + 5;
        }
        if score != 0 && l.target.Resolved? && l.target.host == base && l.target.url !in seen {
          seen := seen + {l.target.url};
          candidates := candidates + [Candidate(l.target.url, score)];
          SeenAfterAppend(before, Candidate(l.target.url, score));
        }
      }
      i := i + 1;
    }
    var top := RankAndCut(candidates);
    out := seq(|top|, k requires 0 <= k < |top| => top[k].href);
  }

  lemma SeenAfterAppend(cs: seq<Candidate>, c: Candidate)
    ensures forall u :: Seen(cs + [c], u) <==> Seen(cs, u) || u == c.href
  {
    var cs' := cs + [c];
    forall u ensures Seen(cs', u) <==> Seen(cs, u) || u == c.href {
      assert cs'[|cs|] == c;
      if k :| 0 <= k < |cs| && cs[k].href == u {
        assert cs'[k].href == u;
      }
    }
  }

  method RankAndCut(candidates: seq<Candidate>) returns (top: seq<Candidate>)
    ensures top == Best(candidates)
  {
    var a := new Candidate[|candidates|](i requires 0 <= i < |candidates| => candidates[i]);
    assert a[..] == candidates;
    ES.Sort(a, BY_SCORE);
    top := a[..];
    if |top| > MAX_CONTACT_PAGES {
      top := top[..MAX_CONTACT_PAGES];
    }
  }

  // -------------------------------------------------------------- properties

  ghost predicate DistinctHrefs(cs: seq<Candidate>) {
    forall i, j :: 0 <= i < j < |cs| ==> cs[i].href != cs[j].href
  }

  /** c was made from link k, the first eligible link that leads to its URL. */
  ghost predicate FirstSource(links: seq<Link>, base: string, c: Candidate, k: int) {
    && 0 <= k < |links| && Eligible(links[k], base) && links[k].target.url == c.href && Score(links[k]) == c.score
    && forall j :: 0 <= j < k && Eligible(links[j], base) ==> links[j].target.url != c.href
  }

  ghost predicate HasSource(links: seq<Link>, base: string, c: Candidate) {
    exists k :: FirstSource(links, base, c, k)
  }

  lemma {:induction false} CandidatesAreDistinct(links: seq<Link>, base: string, n: nat)
    requires n <= |links|
    ensures DistinctHrefs(Candidates(links, base, n))
  {
    if n > 0 {
      CandidatesAreDistinct(links, base, n - 1);
    }
  }

  lemma {:induction false} NoLinkIsMissed(links: seq<Link>, base: string, n: nat)
    requires n <= |links|
    ensures forall j :: 0 <= j < n && Eligible(links[j], base) ==> Seen(Candidates(links, base, n), links[j].target.url)
  {
    if n > 0 {
      NoLinkIsMissed(links, base, n - 1);
      var cs, l := Candidates(links, base, n - 1), links[n - 1];
      if Eligible(l, base) && !Seen(cs, l.target.url) {
        SeenAfterAppend(cs, Candidate(l.target.url, Score(l)));
      }
    }
  }

  /** The candidates are distinct, each stems from its first eligible link, and none is missed. */
  lemma {:induction false} CandidatesAre(links: seq<Link>, base: string, n: nat)
    requires n <= |links|
    ensures DistinctHrefs(Candidates(links, base, n))
    ensures forall i :: 0 <= i < |Candidates(links, base, n)| ==> HasSource(links, base, Candidates(links, base, n)[i])
    ensures forall j :: 0 <= j < n && Eligible(links[j], base) ==> Seen(Candidates(links, base, n), links[j].target.url)
  {
    CandidatesAreDistinct(links, base, n);
    NoLinkIsMissed(links, base, n);
    if n > 0 {
      CandidatesAre(links, base, n - 1);
      var cs, l := Candidates(links, base, n - 1), links[n - 1];
      if Eligible(l, base) && !Seen(cs, l.target.url) {
        assert FirstSource(links, base, Candidate(l.target.url, Score(l)), n - 1);
      }
    }
  }

  lemma PermutationKeepsDistinctHrefs(cs: seq<Candidate>, r: seq<Candidate>)
    requires DistinctHrefs(cs) && multiset(cs) == multiset(r)
    ensures DistinctHrefs(r)
  {
    assert Distinct(cs);
    PermutationKeepsDistinct(cs, r);
    PermutationKeepsElements(cs, r);
    forall i, j | 0 <= i < j < |r| ensures r[i].href != r[j].href {
      assert r[i] in cs && r[j] in cs;
    }
  }

  lemma BestComesFromCandidates(cs: seq<Candidate>)
    requires DistinctHrefs(cs)
    ensures |Best(cs)| <= MAX_CONTACT_PAGES && (|Best(cs)| < MAX_CONTACT_PAGES ==> |Best(cs)| == |cs|)
    ensures DistinctHrefs(Best(cs))
    ensures forall c :: c in Best(cs) ==> c in cs
  {
    var ranked := ES.Rank(cs, BY_SCORE, 0);
    ES.RankSorts(cs, BY_SCORE, 0);
    PermutationKeepsDistinctHrefs(cs, ranked);
    PermutationKeepsElements(cs, ranked);
  }

  lemma BestIsBest(cs: seq<Candidate>, c: Candidate, d: Candidate)
    requires c in Best(cs) && d in cs && d !in Best(cs)
    ensures d.score <= c.score
  {
    assert Best(cs) == ES.Rank(cs, BY_SCORE, 0)[..|Best(cs)|];
    ES.CutKeepsTheBest(cs, BY_SCORE, |Best(cs)|, c, d);
  }

  lemma BestStartsWithLeftmost(cs: seq<Candidate>)
    requires cs != []
    ensures exists b: nat :: ES.LeftmostBest(cs, BY_SCORE, 0, b) && Best(cs)[0] == cs[b]
  {
    ES.RankIsSortedPermutation(cs, BY_SCORE);
  }

  /**
    At most two distinct same-host pages are returned, each from its first eligible link; the
    first is the leftmost candidate with the highest score, and no candidate left out outranks
    one that is returned.
   */
  lemma TopPagesAreTheBest(links: seq<Link>, base: string)
    ensures
      var cs, top := Candidates(links, base, |links|), TopPages(links, base);
      && |top| <= 2 && (|top| < 2 ==> |top| == |cs|)
      && DistinctHrefs(top)
      && (forall c :: c in top ==> c in cs && HasSource(links, base, c))
      && (cs != [] ==> exists b: nat :: ES.LeftmostBest(cs, BY_SCORE, 0, b) && top[0] == cs[b])
      && (forall c, d :: c in top && d in cs && d !in top ==> d.score <= c.score)
  {
    var cs, top := Candidates(links, base, |links|), TopPages(links, base);
    CandidatesAre(links, base, |links|);
    BestComesFromCandidates(cs);
    if cs != [] {
      BestStartsWithLeftmost(cs);
    }
    forall c, d | c in top && d in cs && d !in top ensures d.score <= c.score {
      BestIsBest(cs, c, d);
    }
  }

  // ------------------------------------------------ scores in plain terms

  /** Some word of the list stands in the text. */
  ghost predicate Mentions(text: string, words: seq<string>) {
    exists w, a, b :: w in words && text == a + w + b
  }

  /** A keyword in the link's text is worth 2 points, a path fragment in its address 5. */
  lemma ScoreMeans(l: Link)
    ensures Score(l) == (if Mentions(l.text, KEYWORDS) then 2 else 0) + (if Mentions(l.hrefLower, FRAGMENTS) then 5 else 0)
  {
    ContainsAnyMeans(l.text, KEYWORDS);
    ContainsAnyMeans(l.hrefLower, FRAGMENTS);
  }

  /** A link counts if it can be followed, stays on the host, and mentions a keyword or a fragment. */
  lemma EligibleMeans(l: Link, base: string)
    ensures Eligible(l, base) <==>
              && (exists p, rest :: p in ["http://", "https://", "/", "./", "../"] && l.href == p + rest)
              && l.target.Resolved? && l.target.host == base
              && (Mentions(l.text, KEYWORDS) || Mentions(l.hrefLower, FRAGMENTS))
  {
    ScoreMeans(l);
    FollowableMeans(l.href);
  }

  lemma FollowableMeans(href: string)
    ensures Followable(href) <==> exists p, rest :: p in ["http://", "https://", "/", "./", "../"] && href == p + rest
  {
    if Followable(href) {
      var p := if "http://" <= href then "http://" else if "https://" <= href then "https://"
               else if "/" <= href then "/" else if "./" <= href then "./" else "../";
      assert p in ["http://", "https://", "/", "./", "../"] && href == p + href[|p|..];
    }
  }

  /**
    An address match outranks a text match: if a candidate whose link mentions a fragment in its
    address is left out, every page returned comes from such a link.
   */
  lemma AddressOutranksText(links: seq<Link>, base: string, c: Candidate, i: int, d: Candidate, j: int)
    requires c in TopPages(links, base) && FirstSource(links, base, c, i)
    requires d in Candidates(links, base, |links|) && d !in TopPages(links, base) && FirstSource(links, base, d, j)
    ensures Mentions(links[j].hrefLower, FRAGMENTS) ==> Mentions(links[i].hrefLower, FRAGMENTS)
  {
    TopPagesAreTheBest(links, base);
    ScoreMeans(links[i]);
    ScoreMeans(links[j]);
  }

  /**
    The second page is the leftmost candidate of the next best score exactly when fewer than two
    candidates of that score precede the first page's.
   */
  lemma SecondPageIsLeftmostIff(links: seq<Link>, base: string, p: nat)
    requires
      var cs := Candidates(links, base, |links|);
      |cs| >= 2 && SS.NextBest(cs, BY_SCORE, ES.Lead(cs, BY_SCORE, 0, |cs|), p)
    ensures |TopPages(links, base)| == 2
    ensures
      var cs := Candidates(links, base, |links|);
      TopPages(links, base)[1] == cs[p] <==> !SS.TwoBefore(cs, BY_SCORE, ES.Lead(cs, BY_SCORE, 0, |cs|), p)
  {
    var cs := Candidates(links, base, |links|);
    CandidatesAreDistinct(links, base, |links|);
    SS.SecondIsLeftmostIff(cs, BY_SCORE, p);
    SS.RankTakesFrom(cs, BY_SCORE, 0, 1);
  }
}
