/** Inline and external script accounting over a page in lower case. */
module ScriptScan {
  import opened Text
  import opened Sequences

  datatype Tags = Tags(open: string, close: string)

  const SCRIPT := Tags("<script", "</script>")

  /** An element, from its opening tag up to its closing tag, and whether it has a source of its own. */
  datatype Block = Block(open: nat, close: nat, external: bool)

  predicate External(block: string) {
    Contains(block, " src=")
  }

  datatype Next = Nothing | Element(block: Block)

  /** The first opening tag from a position on, and the first closing tag after it. */
  function NextElement(s: string, t: Tags, from: nat): (n: Next)
    requires from <= |s|
    ensures n.Element? ==> from <= n.block.open <= n.block.close && n.block.close + |t.close| <= |s|
  {
    var o := IndexFrom(s, t.open, from);
    if o.Absent? then Nothing
    else
      var c := IndexFrom(s, t.close, o.at);
      if c.Absent? then Nothing else Element(Block(o.at, c.at, External(s[o.at..c.at])))
  }

  /** The successive elements from a position on. */
  function Blocks(s: string, t: Tags, from: nat): seq<Block>
    requires from <= |s| && |t.close| > 0
    decreases |s| - from
  {
    var n := NextElement(s, t, from);
    if n.Nothing? then [] else [n.block] + Blocks(s, t, n.block.close + |t.close|)
  }

  function Size(b: Block): int {
    b.close - b.open
  }

  /** Bytes of the blocks whose class is the given one. */
  function Bytes(bs: seq<Block>, external: bool): int {
    if bs == [] then 0
    else (if bs[0].external == external then Size(bs[0]) else 0) + Bytes(bs[1..], external)
  }

  // ------------------------------------------------------- what the blocks are

  /** The text " src=" occurs in the page inside b. */
  ghost predicate HasSource(s: string, b: Block) {
    exists i :: b.open <= i && i + 5 <= b.close && OccursAt(s, " src=", i)
  }

  lemma ExternalMeansSource(s: string, b: Block)
    requires b.open <= b.close <= |s|
    ensures External(s[b.open..b.close]) <==> HasSource(s, b)
  {
    var block, src := s[b.open..b.close], " src=";
    if i :| 0 <= i <= |block| && OccursAt(block, src, i) {
      forall k | 0 <= k < |src| ensures s[b.open + i + k] == src[k] {
        assert block[i + k] == src[k];
      }
      assert OccursAt(s, src, b.open + i);
    }
    if i :| b.open <= i && i + 5 <= b.close && OccursAt(s, src, i) {
      forall k | 0 <= k < |src| ensures block[i - b.open + k] == src[k] {
        assert s[i + k] == src[k];
      }
      assert OccursAt(block, src, i - b.open);
    }
  }

  /** b is the earliest opening tag at or after from, and the earliest closing tag after it. */
  ghost predicate EarliestElement(s: string, t: Tags, from: nat, b: Block) {
    && from <= b.open && OccursAt(s, t.open, b.open) && b.open <= b.close && OccursAt(s, t.close, b.close)
    && (forall i :: from <= i < b.open ==> !OccursAt(s, t.open, i))
    && (forall i :: b.open <= i < b.close ==> !OccursAt(s, t.close, i))
    && (b.external <==> HasSource(s, b))
  }

  /** No complete element starts at or after from. */
  ghost predicate NoElement(s: string, t: Tags, from: nat) {
    forall i, j :: from <= i <= j && OccursAt(s, t.open, i) ==> !OccursAt(s, t.close, j)
  }

  /** bs are all the elements from a position on, each one sought after the end of the one before. */
  ghost predicate Elements(s: string, t: Tags, from: nat, bs: seq<Block>)
    decreases bs
  {
    if bs == [] then NoElement(s, t, from)
    else EarliestElement(s, t, from, bs[0]) && Elements(s, t, bs[0].close + |t.close|, bs[1..])
  }

  lemma NextIsEarliest(s: string, t: Tags, from: nat)
    requires from <= |s|
    ensures
      var n := NextElement(s, t, from);
      if n.Nothing? then NoElement(s, t, from) else EarliestElement(s, t, from, n.block)
  {
    IndexFromIsFirst(s, t.open, from);
    var o := IndexFrom(s, t.open, from);
    if o.Found? {
      IndexFromIsFirst(s, t.close, o.at);
      var c := IndexFrom(s, t.close, o.at);
      if c.Found? {
        ExternalMeansSource(s, Block(o.at, c.at, false));
        ExternalMeansSource(s, Block(o.at, c.at, true));
      }
    }
  }

  /** The blocks are exactly the successive elements of the page, and none is left after the last. */
  lemma {:induction false} BlocksAreTheElements(s: string, t: Tags, from: nat)
    requires from <= |s| && |t.close| > 0
    ensures Elements(s, t, from, Blocks(s, t, from))
    decreases |s| - from
  {
    var n, bs := NextElement(s, t, from), Blocks(s, t, from);
    NextIsEarliest(s, t, from);
    if n.Element? {
      var end := n.block.close + |t.close|;
      BlocksAreTheElements(s, t, end);
      assert bs[0] == n.block && bs[1..] == Blocks(s, t, end);
      ElementsBegin(s, t, from, bs);
    }
  }

  lemma ElementsBegin(s: string, t: Tags, from: nat, bs: seq<Block>)
    requires bs != [] && EarliestElement(s, t, from, bs[0]) && Elements(s, t, bs[0].close + |t.close|, bs[1..])
    ensures Elements(s, t, from, bs)
  {
  }

  lemma EarliestIsUnique(s: string, t: Tags, from: nat, a: Block, b: Block)
    requires EarliestElement(s, t, from, a) && EarliestElement(s, t, from, b)
    ensures a == b
  {
  }

  /** A page has only one list of elements. */
  lemma {:induction false} ElementsAreUnique(s: string, t: Tags, from: nat, xs: seq<Block>, bs: seq<Block>)
    requires Elements(s, t, from, xs) && Elements(s, t, from, bs)
    ensures xs == bs
    decreases xs
  {
    if xs != [] && bs != [] {
      EarliestIsUnique(s, t, from, xs[0], bs[0]);
      ElementsAreUnique(s, t, bs[0].close + |t.close|, xs[1..], bs[1..]);
      assert xs == [xs[0]] + xs[1..] && bs == [bs[0]] + bs[1..];
    }
  }

  // ------------------------------------------------------------- sizes

  /** The elements and their closing tags fit between from and the end of the page. */
  lemma {:induction false} ElementsFit(s: string, t: Tags, from: nat, bs: seq<Block>)
    requires Elements(s, t, from, bs) && from <= |s|
    ensures from + Bytes(bs, false) + Bytes(bs, true) + |t.close| * |bs| <= |s|
    decreases bs
  {
    if bs != [] {
      ElementsFit(s, t, bs[0].close + |t.close|, bs[1..]);
      assert |t.close| * |bs| == |t.close| * |bs[1..]| + |t.close|;
    }
  }

  /** The positions of the page inside elements with a source, or inside elements without one. */
  ghost function Inside(s: string, bs: seq<Block>, source: bool): set<int> {
    set p | 0 <= p < |s| && InSome(s, bs, p, source)
  }

  ghost predicate InSome(s: string, bs: seq<Block>, p: int, source: bool) {
    exists k :: 0 <= k < |bs| && InBlock(s, bs[k], p, source)
  }

  ghost predicate InBlock(s: string, b: Block, p: int, source: bool) {
    b.open <= p < b.close && (HasSource(s, b) <==> source)
  }

  ghost function Range(a: int, b: int): (r: set<int>)
    ensures forall p :: p in r <==> a <= p < b
    ensures a <= b ==> |r| == b - a
    decreases b - a
  {
    if a < b then Range(a, b - 1) + {b - 1} else {}
  }

  lemma {:induction false} ElementsStartLater(s: string, t: Tags, from: nat, bs: seq<Block>, k: nat)
    requires Elements(s, t, from, bs) && k < |bs|
    ensures from <= bs[k].open <= bs[k].close <= |s|
    decreases bs
  {
    if k > 0 {
      ElementsStartLater(s, t, bs[0].close + |t.close|, bs[1..], k - 1);
    }
  }

  lemma InSomeSplits(s: string, t: Tags, from: nat, bs: seq<Block>, p: int, source: bool)
    requires Elements(s, t, from, bs) && bs != []
    ensures InSome(s, bs, p, source) <==> InBlock(s, bs[0], p, source) || InSome(s, bs[1..], p, source)
    ensures InSome(s, bs[1..], p, source) ==> bs[0].close <= p
  {
    var rest := bs[1..];
    if k :| 0 <= k < |bs| && InBlock(s, bs[k], p, source) {
      assert k > 0 ==> rest[k - 1] == bs[k];
    }
    if k :| 0 <= k < |rest| && InBlock(s, rest[k], p, source) {
      assert bs[k + 1] == rest[k];
      ElementsStartLater(s, t, bs[0].close + |t.close|, rest, k);
    }
  }

  /** The positions inside the first element. */
  ghost function HeadPositions(bs: seq<Block>, source: bool): set<int>
    requires bs != []
  {
    if bs[0].external == source then Range(bs[0].open, bs[0].close) else {}
  }

  lemma InsideHeadAt(s: string, t: Tags, from: nat, bs: seq<Block>, source: bool, p: int)
    requires Elements(s, t, from, bs) && bs != []
    ensures p in Inside(s, bs, source) <==> p in HeadPositions(bs, source) || p in Inside(s, bs[1..], source)
    ensures p in Inside(s, bs[1..], source) ==> p !in HeadPositions(bs, source)
  {
    InSomeSplits(s, t, from, bs, p, source);
  }

  /** The sizes added up are the number of positions inside such elements. */
  lemma {:induction false} BytesArePositions(s: string, t: Tags, from: nat, bs: seq<Block>, source: bool)
    requires Elements(s, t, from, bs)
    ensures Bytes(bs, source) == |Inside(s, bs, source)|
    decreases bs
  {
    if bs == [] {
      assert Inside(s, bs, source) == {};
    } else {
      BytesArePositions(s, t, bs[0].close + |t.close|, bs[1..], source);
      forall p
        ensures p in Inside(s, bs, source) <==> p in HeadPositions(bs, source) || p in Inside(s, bs[1..], source)
        ensures p in Inside(s, bs[1..], source) ==> p !in HeadPositions(bs, source)
      {
        InsideHeadAt(s, t, from, bs, source, p);
      }
      SplitSize(Inside(s, bs, source), HeadPositions(bs, source), Inside(s, bs[1..], source));
      assert bs[0].open <= bs[0].close;
    }
  }

  lemma TagsDoNotMeet(s: string, i: nat, j: nat, k: nat)
    requires OccursAt(s, SCRIPT.open, i) && OccursAt(s, SCRIPT.close, j) && k < 7
    ensures i + k != j
  {
    assert s[i + k] == SCRIPT.open[k] && s[i + 1] == SCRIPT.open[1];
    assert s[j + 0] == SCRIPT.close[0] && s[j + 1] == SCRIPT.close[1];
  }

  /** An opening tag and a closing tag cannot overlap, so the closing one is at least seven further. */
  lemma CloseIsBeyondOpen(s: string, i: nat, j: nat)
    requires OccursAt(s, SCRIPT.open, i) && OccursAt(s, SCRIPT.close, j) && i <= j
    ensures i + 7 <= j
  {
    if j < i + 7 {
      TagsDoNotMeet(s, i, j, j - i);
    }
  }

  /** Each turn of the scan moves on by at least sixteen characters, and stays in the page. */
  lemma TurnAdvances(s: string, from: nat)
    requires from <= |s| && NextElement(s, Tags("<script", "</script>"), from).Element?
    ensures from + 16 <= NextElement(s, Tags("<script", "</script>"), from).block.close + 9 <= |s|
  {
    var b := NextElement(s, SCRIPT, from).block;
    NextIsEarliest(s, SCRIPT, from);
    CloseIsBeyondOpen(s, b.open, b.close);
  }

  lemma BlocksUnfold(s: string, t: Tags, from: nat)
    requires from <= |s| && |t.close| > 0
    ensures
      var bs, n := Blocks(s, t, from), NextElement(s, t, from);
      if n.Nothing? then bs == []
      else bs != [] && bs[0] == n.block && bs[1..] == Blocks(s, t, n.block.close + |t.close|)
  {
  }

  /** The counters so far, together with what the remaining blocks will add, give the whole. */
  ghost predicate Counted(all: seq<Block>, left: seq<Block>, inline: int, external: int) {
    && inline + Bytes(left, false) == Bytes(all, false)
    && external + Bytes(left, true) == Bytes(all, true)
  }

  /** One turn of the scan. */
  lemma Turn(s: string, t: Tags, all: seq<Block>, from: nat, inline: int, external: int)
    requires from <= |s| && |t.close| > 0 && Counted(all, Blocks(s, t, from), inline, external)
    ensures
      var n := NextElement(s, t, from);
      if n.Nothing? then Counted(all, [], inline, external)
      else
        var left := Blocks(s, t, n.block.close + |t.close|);
        if n.block.external then Counted(all, left, inline, external + Size(n.block))
        else Counted(all, left, inline + Size(n.block), external)
  {
    BlocksUnfold(s, t, from);
  }

  /** The two searches of one turn. */
  method Search(s: string, t: Tags, start: nat) returns (n: Next)
    requires start <= |s|
    ensures n == NextElement(s, t, start)
  {
    var o := IndexFrom(s, t.open, start);
    if o.Absent? {
      return Nothing;
    }
    var c := IndexFrom(s, t.close, o.at);
    if c.Absent? {
      return Nothing;
    }
    n := Element(Block(o.at, c.at, External(s[o.at..c.at])));
  }

  /** The scan loop: its two counters are the bytes of the inline and of the external blocks. */
  method Count(s: string, t: Tags) returns (inline: int, external: int)
    requires |t.close| > 0
    ensures inline == Bytes(Blocks(s, t, 0), false)
    ensures external == Bytes(Blocks(s, t, 0), true)
  {
    inline, external := 0, 0;
    var start := 0;
    ghost var all := Blocks(s, t, 0);
    while true
      invariant 0 <= start <= |s|
      invariant Counted(all, Blocks(s, t, start), inline, external)
      decreases |s| - start
    {
      Turn(s, t, all, start, inline, external);
      var n := Search(s, t, start);
      if n.Nothing? {
        break;
      }
      if n.block.external {
        external := external + Size(n.block);
      } else {
        inline := inline + Size(n.block);
      }
      start := n.block.close + |t.close|;
    }
  }

  /**
    Both counters of a page: the numbers of its positions inside script elements without and with
    a source; with nine characters a closing tag they fit in the page.
   */
  method ScriptBytes(lower: string) returns (inline: int, external: int)
    ensures
      var bs := Blocks(lower, Tags("<script", "</script>"), 0);
      && Elements(lower, Tags("<script", "</script>"), 0, bs)
      && inline == |Inside(lower, bs, false)| && external == |Inside(lower, bs, true)|
      && inline + external + 9 * |bs| <= |lower|
  {
    BlocksAreTheElements(lower, SCRIPT, 0);
    ElementsFit(lower, SCRIPT, 0, Blocks(lower, SCRIPT, 0));
    BytesArePositions(lower, SCRIPT, 0, Blocks(lower, SCRIPT, 0), false);
    BytesArePositions(lower, SCRIPT, 0, Blocks(lower, SCRIPT, 0), true);
    inline, external := Count(lower, SCRIPT);
  }
}
