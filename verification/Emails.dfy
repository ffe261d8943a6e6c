/**
  Contact e-mail extraction: the walk over JSON documents, and the filtered, sorted,
  de-duplicated and capped result. What the regular expressions match is an input. Strings are
  byte strings, a char standing for a byte.
 */
module Emails {
  import opened Text
  import opened StringOrder
  import opened Sequences

  // --------------------------------------------------------------- JSON walk

  /**
    An object's fields are listed in the order in which the program iterates over them, with
    their names in lower case.
   */
  datatype Json = JNull | JBool(b: bool) | JNumber(n: real) | JString(s: string)
                | JArray(items: seq<Json>) | JObject(fields: seq<Field>)
  datatype Field = Field(key: string, value: Json)

  predicate IsEmailKey(key: string) {
    key == "email"
  }

  function DirectItem(v: Json): seq<string> {
    if v.JString? && Contains(v.s, "@") then [v.s] else []
  }

  function DirectItems(items: seq<Json>): seq<string> {
    if items == [] then [] else DirectItem(items[0]) + DirectItems(items[1..])
  }

  /** The strings taken from the value of an e-mail field: itself, or the items of its array. */
  function Direct(v: Json): seq<string> {
    if v.JArray? then DirectItems(v.items) else DirectItem(v)
  }

  function Walk(v: Json): seq<string>
    decreases v, 0
  {
    match v
    case JObject(fields) => WalkFields(fields)
    case JArray(items) => WalkItems(items)
    case _ => []
  }

  function WalkField(f: Field): seq<string>
    decreases f, 2
  {
    if IsEmailKey(f.key) then Direct(f.value) else Walk(f.value)
  }

  function WalkFields(fields: seq<Field>): seq<string>
    decreases fields, 1
  {
    if fields == [] then [] else WalkField(fields[0]) + WalkFields(fields[1..])
  }

  function WalkItems(items: seq<Json>): seq<string>
    decreases items, 1
  {
    if items == [] then [] else Walk(items[0]) + WalkItems(items[1..])
  }

  /** The strings of an e-mail field's value. */
  method CollectDirect(v: Json) returns (out: seq<string>)
    ensures out == Direct(v)
  {
    if v.JArray? {
      out := [];
      for i := 0 to |v.items|
        invariant out + DirectItems(v.items[i..]) == DirectItems(v.items)
      {
        var rest := v.items[i..];
        assert rest[0] == v.items[i] && rest[1..] == v.items[i + 1..];
        Associative(out, DirectItem(v.items[i]), DirectItems(v.items[i + 1..]));
        out := out + DirectItem(v.items[i]);
      }
    } else {
      out := DirectItem(v);
    }
  }

  method WalkJsonForEmails(v: Json) returns (out: seq<string>)
    ensures out == Walk(v)
    decreases v
  {
    out := [];
    match v
    case JObject(fields) =>
      for i := 0 to |fields|
        invariant out + WalkFields(fields[i..]) == WalkFields(fields)
      {
        var rest := fields[i..];
        assert rest[0] == fields[i] && rest[1..] == fields[i + 1..];
        var found: seq<string>;
        if IsEmailKey(fields[i].key) {
          found := CollectDirect(fields[i].value);
        } else {
          found := WalkJsonForEmails(fields[i].value);
        }
        assert found == WalkField(fields[i]);
        Associative(out, found, WalkFields(fields[i + 1..]));
        out := out + found;
      }
    case JArray(items) =>
      for i := 0 to |items|
        invariant out + WalkItems(items[i..]) == WalkItems(items)
      {
        var rest := items[i..];
        assert rest[0] == items[i] && rest[1..] == items[i + 1..];
        var found := WalkJsonForEmails(items[i]);
        Associative(out, found, WalkItems(items[i + 1..]));
        out := out + found;
      }
    case _ =>
  }

  /** s is the value of an e-mail field, or an item of its array. */
  ghost predicate Named(v: Json, s: string) {
    && '@' in s
    && (v == JString(s) || (v.JArray? && JString(s) in v.items))
  }

  /** s stands under an e-mail key that is not itself below another e-mail key. */
  ghost predicate Holds(v: Json, s: string)
    decreases v
  {
    match v
    case JObject(fields) =>
      exists i :: 0 <= i < |fields| &&
        if fields[i].key == "email" then Named(fields[i].value, s) else Holds(fields[i].value, s)
    case JArray(items) => exists i :: 0 <= i < |items| && Holds(items[i], s)
    case _ => false
  }

  lemma {:induction false} DirectItemsAre(items: seq<Json>, s: string)
    ensures s in DirectItems(items) <==> JString(s) in items && '@' in s
  {
    ContainsChar(s, '@');
    if items != [] {
      DirectItemsAre(items[1..], s);
      assert items == [items[0]] + items[1..];
    }
  }

  lemma DirectIsNamed(v: Json, s: string)
    ensures s in Direct(v) <==> Named(v, s)
  {
    ContainsChar(s, '@');
    if v.JArray? {
      DirectItemsAre(v.items, s);
    }
  }

  ghost predicate FieldHolds(f: Field, s: string) {
    if IsEmailKey(f.key) then Named(f.value, s) else Holds(f.value, s)
  }

  lemma {:induction false} WalkFieldsYield(fields: seq<Field>, s: string)
    ensures s in WalkFields(fields) <==> exists i :: 0 <= i < |fields| && FieldHolds(fields[i], s)
    decreases fields, 1
  {
    if fields != [] {
      var f, rest := fields[0], fields[1..];
      WalkFieldsYield(rest, s);
      DirectIsNamed(f.value, s);
      WalkYields(f.value, s);
      if i :| 0 <= i < |fields| && FieldHolds(fields[i], s) {
        assert i > 0 ==> rest[i - 1] == fields[i];
      }
      if i :| 0 <= i < |rest| && FieldHolds(rest[i], s) {
        assert fields[i + 1] == rest[i];
      }
      assert FieldHolds(f, s) ==> FieldHolds(fields[0], s);
    }
  }

  lemma {:induction false} WalkItemsYield(items: seq<Json>, s: string)
    ensures s in WalkItems(items) <==> exists i :: 0 <= i < |items| && Holds(items[i], s)
    decreases items, 1
  {
    if items != [] {
      var rest := items[1..];
      WalkItemsYield(rest, s);
      WalkYields(items[0], s);
      if i :| 0 <= i < |items| && Holds(items[i], s) {
        assert i > 0 ==> rest[i - 1] == items[i];
      }
      if i :| 0 <= i < |rest| && Holds(rest[i], s) {
        assert items[i + 1] == rest[i];
      }
    }
  }

  /** The walk yields exactly the '@'-bearing strings that the document holds under e-mail keys. */
  lemma {:induction false} WalkYields(v: Json, s: string)
    ensures s in Walk(v) <==> Holds(v, s)
    decreases v, 0
  {
    match v
    case JObject(fields) =>
      WalkFieldsYield(fields, s);
      assert forall i :: 0 <= i < |fields| ==>
        (FieldHolds(fields[i], s) <==>
         (if IsEmailKey(fields[i].key) then Named(fields[i].value, s) else Holds(fields[i].value, s)));
    case JArray(items) => WalkItemsYield(items, s);
    case _ =>
  }

  /** Every field of v occurs, up to field order below it, in w. */
  ghost predicate Within(v: Json, w: Json)
    decreases v
  {
    match v
    case JObject(fields) => w.JObject? && forall i :: 0 <= i < |fields| ==>
      exists j :: 0 <= j < |w.fields| && w.fields[j].key == fields[i].key && Within(fields[i].value, w.fields[j].value)
    case JArray(items) => w.JArray? && |w.items| == |items| && forall i :: 0 <= i < |items| ==> Within(items[i], w.items[i])
    case _ => v == w
  }

  lemma WithinKeepsNamed(v: Json, w: Json, s: string)
    requires Within(v, w) && Named(v, s)
    ensures Named(w, s)
  {
    if v.JArray? {
      var i :| 0 <= i < |v.items| && v.items[i] == JString(s);
      assert w.items[i] == JString(s);
    }
  }

  lemma {:induction false} WithinKeepsHolds(v: Json, w: Json, s: string)
    requires Within(v, w) && Holds(v, s)
    ensures Holds(w, s)
    decreases v
  {
    match v
    case JObject(fields) =>
      var i :| 0 <= i < |fields| &&
        if IsEmailKey(fields[i].key) then Named(fields[i].value, s) else Holds(fields[i].value, s);
      var j :| 0 <= j < |w.fields| && w.fields[j].key == fields[i].key && Within(fields[i].value, w.fields[j].value);
      if IsEmailKey(fields[i].key) {
        WithinKeepsNamed(fields[i].value, w.fields[j].value, s);
      } else {
        WithinKeepsHolds(fields[i].value, w.fields[j].value, s);
      }
    case JArray(items) =>
      var i :| 0 <= i < |items| && Holds(items[i], s);
      WithinKeepsHolds(items[i], w.items[i], s);
  }

  /** The set of strings found does not depend on the iteration order of any object. */
  lemma WalkIgnoresFieldOrder(v: Json, w: Json)
    requires Within(v, w) && Within(w, v)
    ensures forall s :: s in Walk(v) <==> s in Walk(w)
  {
    forall s ensures s in Walk(v) <==> s in Walk(w) {
      WalkYields(v, s);
      WalkYields(w, s);
      if Holds(v, s) {
        WithinKeepsHolds(v, w, s);
      }
      if Holds(w, s) {
        WithinKeepsHolds(w, v, s);
      }
    }
  }

  // ------------------------------------------------------ filter, sort, cap

  const MAX_EMAILS: nat := 20

  const NOISE: seq<string> := [
    "@2x.png", "@3x.png", "@1x.png", "@1x.jpg", "@2x.jpg", "@3x.jpg", "@1x.webp", "@2x.webp", "@1x.gif", "@2x.gif",
    "example.com", "example.org", "example.net", "yourdomain.com", "domain.com", "company.com",
    "email.com", "wixpress.com", "sentry.io", "cloudflare.com", "schema.org"]

  const IMAGE_SUFFIXES: seq<string> := [".png", ".jpg", ".gif", ".webp", ".svg"]

  /** How the program lowers and trims text; nothing is assumed about it. */
  datatype Normal = Normal(lower: string -> string, trim: string -> string)

  function Normalized(n: Normal, e: string): string {
    n.lower(n.trim(e))
  }

  predicate IsValid(e: string) {
    var at := IndexFrom(e, "@", 0);
    5 <= |e| <= 254 && at.Found? && 0 < at.at < |e| - 1 && Contains(e[at.at + 1..], ".")
  }

  predicate IsNoise(n: Normal, e: string) {
    var at := IndexFrom(e, "@", 0);
    ContainsAny(n.lower(e), NOISE) || ContainsAny(if at.Found? && at.at < |e| then e[at.at + 1..] else e, IMAGE_SUFFIXES)
  }

  predicate Acceptable(n: Normal, e: string) {
    IsValid(e) && !IsNoise(n, e)
  }

  /** The addresses that the extractors' finds amount to. */
  function Accepted(n: Normal, finds: seq<string>): set<string> {
    set e | e in finds && Acceptable(n, Normalized(n, e)) :: Normalized(n, e)
  }

  /** The first at sign of e stands at i. */
  ghost predicate FirstAt(e: string, i: int) {
    0 <= i < |e| && e[i] == '@' && '@' !in e[..i]
  }

  lemma FirstAtIs(e: string)
    ensures
      var at := IndexFrom(e, "@", 0);
      if at.Found? then FirstAt(e, at.at) else '@' !in e
  {
    IndexFromIsFirst(e, "@", 0);
    var at := IndexFrom(e, "@", 0);
    forall i | 0 <= i < |e| && e[i] == '@' ensures OccursAt(e, "@", i) {
    }
    if at.Found? {
      assert e[at.at + 0] == "@"[0];
    }
  }

  lemma FirstAtIsUnique(e: string, i: int, j: int)
    requires FirstAt(e, i) && FirstAt(e, j)
    ensures i == j
  {
  }

  /** An address in plain terms: of sensible length, with something before its first at sign and a dot after it. */
  lemma ValidMeans(e: string)
    ensures IsValid(e) <==> 5 <= |e| <= 254 && exists i :: FirstAt(e, i) && 0 < i < |e| - 1 && '.' in e[i + 1..]
  {
    FirstAtIs(e);
    var at := IndexFrom(e, "@", 0);
    if at.Found? && at.at < |e| {
      ContainsChar(e[at.at + 1..], '.');
    }
    if i :| FirstAt(e, i) {
      assert e[i] in e;
      FirstAtIsUnique(e, i, at.at);
    }
  }

  /** Noise in plain terms: a listed word anywhere, or an image suffix after the first at sign. */
  lemma NoiseMeans(n: Normal, e: string, i: int)
    requires FirstAt(e, i)
    ensures IsNoise(n, e) <==>
              || (exists w, a, b :: w in NOISE && n.lower(e) == a + w + b)
              || (exists w, a, b :: w in [".png", ".jpg", ".gif", ".webp", ".svg"] && e[i + 1..] == a + w + b)
  {
    FirstAtIs(e);
    var at := IndexFrom(e, "@", 0);
    assert e[i] in e;
    FirstAtIsUnique(e, i, at.at);
    ContainsAnyMeans(n.lower(e), NOISE);
    ContainsAnyMeans(e[i + 1..], IMAGE_SUFFIXES);
  }

  /** What is accepted: the finds, lowered and trimmed, that are valid and no noise. */
  lemma AcceptedMeans(n: Normal, finds: seq<string>, x: string)
    ensures x in Accepted(n, finds) <==>
              exists f :: f in finds && x == n.lower(n.trim(f)) && IsValid(x) && !IsNoise(n, x)
  {
  }

  /** out lists the smallest members of all, in increasing order, up to the cap. */
  ghost predicate Smallest(all: set<string>, out: seq<string>) {
    && Increasing(out)
    && |out| <= 20
    && (forall e :: e in out ==> e in all)
    && (forall x :: x in all && x !in out ==> |out| == 20 && forall e :: e in out ==> Less(e, x))
  }

  method SortSet(all: set<string>) returns (sorted: seq<string>)
    ensures Increasing(sorted) && |sorted| == |all|
    ensures forall e :: e in sorted <==> e in all
  {
    sorted := [];
    var rest := all;
    while rest != {}
      invariant rest <= all && Increasing(sorted)
      invariant |sorted| + |rest| == |all|
      invariant forall e :: e in sorted <==> e in all && e !in rest
      decreases rest
    {
      var e :| e in rest;
      InsertKeepsIncreasing(sorted, e);
      InsertAddsOne(sorted, e);
      sorted := Insert(sorted, e);
      rest := rest - {e};
    }
  }

  lemma CutIsSmallest(all: set<string>, sorted: seq<string>)
    requires Increasing(sorted) && forall e :: e in sorted <==> e in all
    ensures Smallest(all, if |sorted| > MAX_EMAILS then sorted[..MAX_EMAILS] else sorted)
  {
    if |sorted| > MAX_EMAILS {
      var out := sorted[..MAX_EMAILS];
      forall x | x in all && x !in out ensures forall e :: e in out ==> Less(e, x) {
        var p :| 0 <= p < |sorted| && sorted[p] == x;
        assert forall k :: 0 <= k < MAX_EMAILS ==> out[k] == sorted[k];
      }
    }
  }

  /** Collect, normalize, filter, sort and cap what the extractors found. */
  method ExtractEmails(n: Normal, finds: seq<string>) returns (out: seq<string>)
    ensures Smallest(Accepted(n, finds), out)
  {
    var seen: set<string> := {};
    var i := 0;
    while i < |finds|
      invariant 0 <= i <= |finds|
      invariant seen == Accepted(n, finds[..i])
    {
      var e := Normalized(n, finds[i]);
      assert finds[..i + 1] == finds[..i] + [finds[i]];
      if IsValid(e) && !IsNoise(n, e) {
        seen := seen + {e};
      }
      i := i + 1;
    }
    assert finds[..i] == finds;
    var sorted := SortSet(seen);
    CutIsSmallest(seen, sorted);
    out := sorted;
    if |out| > MAX_EMAILS {
      out := out[..MAX_EMAILS];
    }
  }

  /** If two lists are both the smallest members, neither has a member the other lacks. */
  lemma SmallestHasNoMore(all: set<string>, a: seq<string>, b: seq<string>, x: string)
    requires Smallest(all, a) && Smallest(all, b) && x in a
    ensures x in b
  {
    if x !in b {
      assert |b| == MAX_EMAILS && forall e :: e in b ==> Less(e, x);
      forall e | e in b ensures e in a {
        assert e in all && (e !in a ==> Less(x, e));
        LessIsTotal(e, x);
      }
      ProperPartIsShorter(a, b, x);
    }
  }

  lemma ProperPartIsShorter(a: seq<string>, b: seq<string>, x: string)
    requires Increasing(a) && Increasing(b) && (forall e :: e in b ==> e in a) && x in a && x !in b
    ensures |b| < |a|
  {
    IncreasingIsDistinct(a);
    IncreasingIsDistinct(b);
    DistinctSize(a);
    DistinctSize(b);
    var sa, sb := set e | e in a, set e | e in b;
    assert sb <= sa && x in sa - sb;
    assert sa == sb + (sa - sb);
    assert |sa| == |sb| + |sa - sb|;
  }

  lemma IncreasingIsDistinct(s: seq<string>)
    requires Increasing(s)
    ensures Distinct(s)
  {
    forall i, j | 0 <= i < j < |s| ensures s[i] != s[j] {
      LessIsIrreflexive(s[i]);
    }
  }

  /** The result is a function of the accepted addresses alone. */
  lemma ResultIsDetermined(all: set<string>, a: seq<string>, b: seq<string>)
    requires Smallest(all, a) && Smallest(all, b)
    ensures a == b
  {
    forall x ensures x in a <==> x in b {
      if x in a {
        SmallestHasNoMore(all, a, b, x);
      }
      if x in b {
        SmallestHasNoMore(all, b, a, x);
      }
    }
    IncreasingIsUnique(a, b);
  }

  /**
    ExtractEmails does not depend on map iteration order: pages whose documents differ only in
    field order contribute the same accepted addresses, and these determine the result.
   */
  lemma ExtractionIgnoresFieldOrder(
      n: Normal, other: seq<string>, vs: seq<Json>, ws: seq<Json>, a: seq<string>, b: seq<string>)
    requires |vs| == |ws| && forall k :: 0 <= k < |vs| ==> Within(vs[k], ws[k]) && Within(ws[k], vs[k])
    requires Smallest(Accepted(n, other + WalkItems(vs)), a) && Smallest(Accepted(n, other + WalkItems(ws)), b)
    ensures a == b
  {
    assert Within(JArray(vs), JArray(ws)) && Within(JArray(ws), JArray(vs));
    WalkIgnoresFieldOrder(JArray(vs), JArray(ws));
    assert Walk(JArray(vs)) == WalkItems(vs) && Walk(JArray(ws)) == WalkItems(ws);
    assert Accepted(n, other + WalkItems(vs)) == Accepted(n, other + WalkItems(ws));
    ResultIsDetermined(Accepted(n, other + WalkItems(vs)), a, b);
  }
}
