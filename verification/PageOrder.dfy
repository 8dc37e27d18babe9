/** Reading order of one page's text blocks, with or without two columns. */
module PageOrder {
  import opened Sequences
  import opened StableSort

  datatype Block = Block(x0: real, y0: real, x1: real, y1: real, text: string, page: int, width: real, height: real)

  predicate ByTop(a: Block, b: Block) { a.y0 <= b.y0 }

  predicate ByTopThenLeft(a: Block, b: Block) { a.y0 < b.y0 || (a.y0 == b.y0 && a.x0 <= b.x0) }

  function MinTop(s: seq<Block>): (top: real)
    requires s != []
    ensures (exists i :: 0 <= i < |s| && s[i].y0 == top) && forall i :: 0 <= i < |s| ==> top <= s[i].y0
  {
    if |s| == 1 then s[0].y0
    else
      var rest := MinTop(s[1..]);
      assert forall i :: 0 < i < |s| ==> s[i] == s[1..][i - 1];
      if s[0].y0 <= rest then s[0].y0 else rest
  }

  function MaxBottom(s: seq<Block>): (bottom: real)
    requires s != []
    ensures (exists i :: 0 <= i < |s| && s[i].y1 == bottom) && forall i :: 0 <= i < |s| ==> s[i].y1 <= bottom
  {
    if |s| == 1 then s[0].y1
    else
      var rest := MaxBottom(s[1..]);
      assert forall i :: 0 < i < |s| ==> s[i] == s[1..][i - 1];
      if s[0].y1 >= rest then s[0].y1 else rest
  }

  function Min(a: real, b: real): real { if b < a then b else a }

  function Max(a: real, b: real): real { if b > a then b else a }

  /** The page's measurements: the middle, and the vertical extent of the text columns if there are two. */
  datatype Layout = OneColumn | TwoColumns(mid: real, top: real, bottom: real)

  function LeftBodies(blocks: seq<Block>, pageWidth: real, words: string -> nat): seq<Block> {
    Filter(blocks, (b: Block) =>
      words(b.text) >= 10 && b.x1 <= pageWidth * 0.5 + 15.0 && b.x1 - b.x0 < pageWidth * 0.55)
  }

  function RightBodies(blocks: seq<Block>, pageWidth: real, words: string -> nat): seq<Block> {
    Filter(blocks, (b: Block) =>
      words(b.text) >= 10 && b.x0 >= pageWidth * 0.5 - 15.0 && b.x1 - b.x0 < pageWidth * 0.55)
  }

  function LayoutOf(blocks: seq<Block>, pageWidth: real, words: string -> nat): Layout {
    var left := LeftBodies(blocks, pageWidth, words);
    var right := RightBodies(blocks, pageWidth, words);
    if left == [] || right == [] then OneColumn
    else TwoColumns(pageWidth * 0.5, Min(MinTop(left), MinTop(right)), Max(MaxBottom(left), MaxBottom(right)))
  }

  function AboveColumns(l: Layout): Block -> bool
    requires l.TwoColumns?
  {
    (b: Block) => b.y1 <= l.top + 5.0
  }

  function OnTheLeft(l: Layout, spansTop: seq<Block>): Block -> bool
    requires l.TwoColumns?
  {
    (b: Block) => b !in spansTop && b.x1 <= l.mid + 15.0 && b.y0 < l.bottom + 5.0
  }

  function OnTheRight(l: Layout, spansTop: seq<Block>): Block -> bool
    requires l.TwoColumns?
  {
    (b: Block) => b !in spansTop && b.x0 >= l.mid - 15.0 && b.y0 < l.bottom + 5.0
  }

  function BelowColumns(l: Layout, spansTop: seq<Block>, left: seq<Block>, right: seq<Block>): Block -> bool
    requires l.TwoColumns?
  {
    (b: Block) => b.y0 >= l.bottom - 5.0 && b !in spansTop && b !in left && b !in right
  }

  function NotAmong(handled: seq<Block>): Block -> bool {
    (b: Block) => b !in handled
  }

  function SpansTop(blocks: seq<Block>, l: Layout): seq<Block>
    requires l.TwoColumns?
  {
    Sorted(Filter(blocks, AboveColumns(l)), ByTop)
  }

  function LeftColumn(blocks: seq<Block>, l: Layout): seq<Block>
    requires l.TwoColumns?
  {
    var spansTop := SpansTop(blocks, l);
    Sorted(Filter(blocks, OnTheLeft(l, spansTop)), ByTop)
  }

  function RightColumn(blocks: seq<Block>, l: Layout): seq<Block>
    requires l.TwoColumns?
  {
    var spansTop := SpansTop(blocks, l);
    Sorted(Filter(blocks, OnTheRight(l, spansTop)), ByTop)
  }

  function SpansBottom(blocks: seq<Block>, l: Layout): seq<Block>
    requires l.TwoColumns?
  {
    var spansTop, left, right := SpansTop(blocks, l), LeftColumn(blocks, l), RightColumn(blocks, l);
    Sorted(Filter(blocks, BelowColumns(l, spansTop, left, right)), ByTop)
  }

  function Others(blocks: seq<Block>, l: Layout): seq<Block>
    requires l.TwoColumns?
  {
    var handled := SpansTop(blocks, l) + LeftColumn(blocks, l) + RightColumn(blocks, l) + SpansBottom(blocks, l);
    Sorted(Filter(blocks, NotAmong(handled)), ByTop)
  }

  function OrderPageBlocks(blocks: seq<Block>, pageWidth: real, words: string -> nat): seq<Block> {
    var l := LayoutOf(blocks, pageWidth, words);
    if l.OneColumn? then Sorted(blocks, ByTopThenLeft)
    else
      SpansTop(blocks, l) + LeftColumn(blocks, l) + RightColumn(blocks, l) + SpansBottom(blocks, l) + Others(blocks, l)
  }

  // ---- How often each block is read ---------------------------------------------------------------

  /**
   The block sits below the top spans, starts above the foot of the columns, and lies wholly within
   15 points of the middle of the page, so that both column tests accept it.
  */
  predicate Straddles(b: Block, l: Layout) {
    && l.TwoColumns?
    && b.y1 > l.top + 5.0
    && b.y0 < l.bottom + 5.0
    && l.mid - 15.0 <= b.x0 && b.x1 <= l.mid + 15.0
  }

  lemma {:induction false} FilterCount<T>(s: seq<T>, p: T -> bool, x: T)
    ensures multiset(Filter(s, p))[x] == if p(x) then multiset(s)[x] else 0
  {
    if s != [] {
      assert s == [s[0]] + s[1..];
      FilterCount(s[1..], p, x);
    }
  }

  lemma PickedCount(blocks: seq<Block>, p: Block -> bool, b: Block)
    ensures multiset(Sorted(Filter(blocks, p), ByTop))[b] == if p(b) then multiset(blocks)[b] else 0
    ensures b in Sorted(Filter(blocks, p), ByTop) <==> p(b) && b in blocks
  {
    SortedPermutes(Filter(blocks, p), ByTop);
    FilterCount(blocks, p, b);
    var picked := Sorted(Filter(blocks, p), ByTop);
    assert b in picked <==> multiset(picked)[b] > 0;
    assert b in blocks <==> multiset(blocks)[b] > 0;
  }

  lemma CountTop(blocks: seq<Block>, l: Layout, b: Block)
    requires l.TwoColumns?
    ensures multiset(SpansTop(blocks, l))[b] == if b.y1 <= l.top + 5.0 then multiset(blocks)[b] else 0
    ensures b in SpansTop(blocks, l) <==> b.y1 <= l.top + 5.0 && b in blocks
  {
    PickedCount(blocks, AboveColumns(l), b);
  }

  lemma CountLeft(blocks: seq<Block>, l: Layout, b: Block)
    requires l.TwoColumns? && b in blocks
    ensures var picked := b.y1 > l.top + 5.0 && b.x1 <= l.mid + 15.0 && b.y0 < l.bottom + 5.0;
            && multiset(LeftColumn(blocks, l))[b] == (if picked then multiset(blocks)[b] else 0)
            && (b in LeftColumn(blocks, l) <==> picked)
  {
    CountTop(blocks, l, b);
    var spansTop := SpansTop(blocks, l);
    PickedCount(blocks, OnTheLeft(l, spansTop), b);
  }

  lemma CountRight(blocks: seq<Block>, l: Layout, b: Block)
    requires l.TwoColumns? && b in blocks
    ensures var picked := b.y1 > l.top + 5.0 && b.x0 >= l.mid - 15.0 && b.y0 < l.bottom + 5.0;
            && multiset(RightColumn(blocks, l))[b] == (if picked then multiset(blocks)[b] else 0)
            && (b in RightColumn(blocks, l) <==> picked)
  {
    CountTop(blocks, l, b);
    var spansTop := SpansTop(blocks, l);
    PickedCount(blocks, OnTheRight(l, spansTop), b);
  }

  predicate Placed(blocks: seq<Block>, l: Layout, b: Block)
    requires l.TwoColumns?
  {
    b in SpansTop(blocks, l) || b in LeftColumn(blocks, l) || b in RightColumn(blocks, l)
  }

  lemma CountRest(blocks: seq<Block>, l: Layout, b: Block)
    requires l.TwoColumns? && b in blocks
    ensures multiset(SpansBottom(blocks, l))[b] + multiset(Others(blocks, l))[b] ==
            if Placed(blocks, l, b) then 0 else multiset(blocks)[b]
  {
    var spansTop, left, right := SpansTop(blocks, l), LeftColumn(blocks, l), RightColumn(blocks, l);
    PickedCount(blocks, BelowColumns(l, spansTop, left, right), b);
    var foot := SpansBottom(blocks, l);
    var handled := spansTop + left + right + foot;
    PickedCount(blocks, NotAmong(handled), b);
    assert b in handled <==> Placed(blocks, l, b) || b in foot;
  }

  lemma CountForeign(blocks: seq<Block>, l: Layout, b: Block)
    requires l.TwoColumns? && b !in blocks
    ensures b !in SpansTop(blocks, l) + LeftColumn(blocks, l) + RightColumn(blocks, l) + SpansBottom(blocks, l) +
                  Others(blocks, l)
  {
    var spansTop, left, right := SpansTop(blocks, l), LeftColumn(blocks, l), RightColumn(blocks, l);
    var foot := SpansBottom(blocks, l);
    var handled := spansTop + left + right + foot;
    CountTop(blocks, l, b);
    PickedCount(blocks, OnTheLeft(l, spansTop), b);
    PickedCount(blocks, OnTheRight(l, spansTop), b);
    PickedCount(blocks, BelowColumns(l, spansTop, left, right), b);
    PickedCount(blocks, NotAmong(handled), b);
  }

  /**
   Every block is read, and none is invented: a block comes out as often as it went in, except that
   a straddling one comes out twice as often.
  */
  lemma EachBlockReadOnceOrTwice(blocks: seq<Block>, pageWidth: real, words: string -> nat, b: Block)
    ensures multiset(OrderPageBlocks(blocks, pageWidth, words))[b] ==
            multiset(blocks)[b] * if Straddles(b, LayoutOf(blocks, pageWidth, words)) then 2 else 1
  {
    var l := LayoutOf(blocks, pageWidth, words);
    if l.OneColumn? {
      SortedPermutes(blocks, ByTopThenLeft);
    } else if b !in blocks {
      CountForeign(blocks, l, b);
      assert multiset(blocks)[b] == 0;
    } else {
      var t, le, r := SpansTop(blocks, l), LeftColumn(blocks, l), RightColumn(blocks, l);
      var foot, others := SpansBottom(blocks, l), Others(blocks, l);
      CountTop(blocks, l, b);
      CountLeft(blocks, l, b);
      CountRight(blocks, l, b);
      CountRest(blocks, l, b);
      assert multiset(t + le + r + foot + others) ==
             multiset(t) + multiset(le) + multiset(r) + multiset(foot) + multiset(others);
    }
  }

  function Straddlers(blocks: seq<Block>, l: Layout): seq<Block> {
    Filter(blocks, b => Straddles(b, l))
  }

  lemma StraddlersCount(blocks: seq<Block>, l: Layout, b: Block)
    ensures multiset(Straddlers(blocks, l))[b] == if Straddles(b, l) then multiset(blocks)[b] else 0
    ensures b in Straddlers(blocks, l) <==> b in blocks && Straddles(b, l)
  {
    FilterCount(blocks, b => Straddles(b, l), b);
    assert b in multiset(blocks) <==> b in blocks;
    assert b in multiset(Straddlers(blocks, l)) <==> b in Straddlers(blocks, l);
  }

  /** The page as read is the page and, once more, its straddling blocks. */
  lemma OrderedIsPageAndStraddlers(blocks: seq<Block>, pageWidth: real, words: string -> nat)
    ensures multiset(OrderPageBlocks(blocks, pageWidth, words)) ==
            multiset(blocks + Straddlers(blocks, LayoutOf(blocks, pageWidth, words)))
  {
    var l := LayoutOf(blocks, pageWidth, words);
    forall b
      ensures multiset(OrderPageBlocks(blocks, pageWidth, words))[b] == multiset(blocks + Straddlers(blocks, l))[b]
    {
      EachBlockReadOnceOrTwice(blocks, pageWidth, words, b);
      StraddlersCount(blocks, l, b);
    }
  }

  /** The reading order is a permutation of the page exactly when no block of the page straddles the middle. */
  lemma PermutationIffNothingStraddles(blocks: seq<Block>, pageWidth: real, words: string -> nat)
    ensures multiset(OrderPageBlocks(blocks, pageWidth, words)) == multiset(blocks) <==>
            forall b :: b in blocks ==> !Straddles(b, LayoutOf(blocks, pageWidth, words))
  {
    var twice := Straddlers(blocks, LayoutOf(blocks, pageWidth, words));
    OrderedIsPageAndStraddlers(blocks, pageWidth, words);
    NothingAdded(blocks, twice);
    forall b
      ensures b in twice <==> b in blocks && Straddles(b, LayoutOf(blocks, pageWidth, words))
    {
      StraddlersCount(blocks, LayoutOf(blocks, pageWidth, words), b);
    }
    assert twice != [] ==> twice[0] in twice;
  }

  /** A page of two columns, and a narrow block between them. */
  function ColumnsAndMark(text: string, mark: string, page: int): seq<Block> {
    [Block(0.0, 0.0, 190.0, 100.0, text, page, 400.0, 100.0),
     Block(210.0, 0.0, 400.0, 100.0, text, page, 400.0, 100.0),
     Block(195.0, 40.0, 205.0, 60.0, mark, page, 400.0, 100.0)]
  }

  lemma TwoColumnsIf(blocks: seq<Block>, pageWidth: real, words: string -> nat, left: Block, right: Block)
    requires left in LeftBodies(blocks, pageWidth, words) && right in RightBodies(blocks, pageWidth, words)
    ensures var l := LayoutOf(blocks, pageWidth, words);
            l.TwoColumns? && l.mid == pageWidth * 0.5 && l.top <= left.y0 && l.bottom >= left.y1
  {
  }

  lemma InFilter(s: seq<Block>, p: Block -> bool, b: Block)
    ensures b in Filter(s, p) <==> p(b) && b in s
  {
    FilterCount(s, p, b);
    assert b in multiset(Filter(s, p)) <==> b in Filter(s, p);
    assert b in multiset(s) <==> b in s;
  }

  /** Whatever the texts, with ten words in a column the mark between the columns is read twice. */
  lemma MarkReadTwice(text: string, mark: string, page: int, words: string -> nat)
    requires words(text) >= 10
    ensures var blocks := ColumnsAndMark(text, mark, page);
            Straddles(blocks[2], LayoutOf(blocks, 400.0, words)) &&
            multiset(OrderPageBlocks(blocks, 400.0, words)) != multiset(blocks)
  {
    var blocks := ColumnsAndMark(text, mark, page);
    var left, right := blocks[0], blocks[1];
    assert left in blocks && right in blocks && blocks[2] in blocks;
    InFilter(blocks, (b: Block) => words(b.text) >= 10 && b.x1 <= 400.0 * 0.5 + 15.0
        && b.x1 - b.x0 < 400.0 * 0.55, left);
    InFilter(blocks, (b: Block) => words(b.text) >= 10 && b.x0 >= 400.0 * 0.5 - 15.0
        && b.x1 - b.x0 < 400.0 * 0.55, right);
    assert left in LeftBodies(blocks, 400.0, words);
    assert right in RightBodies(blocks, 400.0, words);
    TwoColumnsIf(blocks, 400.0, words, left, right);
    PermutationIffNothingStraddles(blocks, 400.0, words);
  }

  // ---- In which order they are read ---------------------------------------------------------------

  predicate AtTop(b: Block, l: Layout) { l.TwoColumns? && b.y1 <= l.top + 5.0 }

  /** Below the top spans, starting above the foot of the columns, and ending left of the middle. */
  predicate InLeft(b: Block, l: Layout) {
    l.TwoColumns? && b.y1 > l.top + 5.0 && b.y0 < l.bottom + 5.0 && b.x1 <= l.mid + 15.0
  }

  predicate InRight(b: Block, l: Layout) {
    l.TwoColumns? && b.y1 > l.top + 5.0 && b.y0 < l.bottom + 5.0 && b.x0 >= l.mid - 15.0
  }

  /** The first run that a block is read in: top spans, left column, right column, foot, the rest. */
  function FirstRun(b: Block, l: Layout): nat
    requires l.TwoColumns?
  {
    if AtTop(b, l) then 0
    else if InLeft(b, l) then 1
    else if InRight(b, l) then 2
    else if b.y0 >= l.bottom - 5.0 then 3
    else 4
  }

  /** The last run that a block is read in, which differs for straddling blocks alone. */
  function LastRun(b: Block, l: Layout): nat
    requires l.TwoColumns?
  {
    if InRight(b, l) then 2 else FirstRun(b, l)
  }

  ghost predicate ReadInRun(s: seq<Block>, l: Layout, k: nat)
    requires l.TwoColumns?
  {
    Ascending(s, ByTop) && forall i :: 0 <= i < |s| ==> FirstRun(s[i], l) <= k <= LastRun(s[i], l)
  }

  /**
   Blocks p and q places into the answer, p first, are in the order of their runs, and within one
   run in that of their tops.
   */
  ghost predicate InReadingOrder(s: seq<Block>, l: Layout)
    requires l.TwoColumns?
  {
    forall p, q :: 0 <= p < q < |s| ==>
      && FirstRun(s[p], l) <= LastRun(s[q], l)
      && (FirstRun(s[p], l) == LastRun(s[q], l) && LastRun(s[p], l) == FirstRun(s[q], l) ==> s[p].y0 <= s[q].y0)
  }

  lemma RunAfterRun(a: seq<Block>, b: seq<Block>, l: Layout, k: nat)
    requires l.TwoColumns? && InReadingOrder(a, l) && ReadInRun(b, l, k)
    requires forall i :: 0 <= i < |a| ==> FirstRun(a[i], l) < k
    ensures InReadingOrder(a + b, l)
  {
    forall p, q | 0 <= p < q < |a + b|
      ensures var s := a + b;
              && FirstRun(s[p], l) <= LastRun(s[q], l)
              && (FirstRun(s[p], l) == LastRun(s[q], l) && LastRun(s[p], l) == FirstRun(s[q], l) ==> s[p].y0 <= s[q].y0)
    {
      if p >= |a| {
        assert ByTop(b[p - |a|], b[q - |a|]);
      }
    }
  }

  lemma PickedAscends(blocks: seq<Block>, p: Block -> bool)
    ensures var run := Sorted(Filter(blocks, p), ByTop);
            Ascending(run, ByTop) && forall i :: 0 <= i < |run| ==> p(run[i]) && run[i] in blocks
  {
    var run := Sorted(Filter(blocks, p), ByTop);
    SortedAscends(Filter(blocks, p), ByTop);
    forall i | 0 <= i < |run|
      ensures p(run[i]) && run[i] in blocks
    {
      PickedCount(blocks, p, run[i]);
      assert run[i] in run;
    }
  }

  lemma TopRead(blocks: seq<Block>, l: Layout)
    requires l.TwoColumns?
    ensures ReadInRun(SpansTop(blocks, l), l, 0)
  {
    PickedAscends(blocks, AboveColumns(l));
  }

  lemma LeftRead(blocks: seq<Block>, l: Layout)
    requires l.TwoColumns?
    ensures ReadInRun(LeftColumn(blocks, l), l, 1)
  {
    var left := LeftColumn(blocks, l);
    PickedAscends(blocks, OnTheLeft(l, SpansTop(blocks, l)));
    forall i | 0 <= i < |left|
      ensures FirstRun(left[i], l) <= 1 <= LastRun(left[i], l)
    {
      CountTop(blocks, l, left[i]);
    }
  }

  lemma RightRead(blocks: seq<Block>, l: Layout)
    requires l.TwoColumns?
    ensures ReadInRun(RightColumn(blocks, l), l, 2)
  {
    var right := RightColumn(blocks, l);
    PickedAscends(blocks, OnTheRight(l, SpansTop(blocks, l)));
    forall i | 0 <= i < |right|
      ensures FirstRun(right[i], l) <= 2 <= LastRun(right[i], l)
    {
      CountTop(blocks, l, right[i]);
    }
  }

  /** What is left for the last two runs is in neither column and not at the top. */
  lemma RestRead(blocks: seq<Block>, l: Layout)
    requires l.TwoColumns?
    ensures ReadInRun(SpansBottom(blocks, l), l, 3)
    ensures ReadInRun(Others(blocks, l), l, 4)
  {
    var top, left, right := SpansTop(blocks, l), LeftColumn(blocks, l), RightColumn(blocks, l);
    var foot, others := SpansBottom(blocks, l), Others(blocks, l);
    PickedAscends(blocks, BelowColumns(l, top, left, right));
    PickedAscends(blocks, NotAmong(top + left + right + foot));
    forall i | 0 <= i < |foot|
      ensures FirstRun(foot[i], l) == LastRun(foot[i], l) == 3
    {
      CountTop(blocks, l, foot[i]);
      CountLeft(blocks, l, foot[i]);
      CountRight(blocks, l, foot[i]);
    }
    forall i | 0 <= i < |others|
      ensures FirstRun(others[i], l) == LastRun(others[i], l) == 4
    {
      NotHandled(blocks, l, others[i]);
    }
  }

  lemma NotHandled(blocks: seq<Block>, l: Layout, b: Block)
    requires l.TwoColumns? && b in blocks
    requires b !in SpansTop(blocks, l) + LeftColumn(blocks, l) + RightColumn(blocks, l) + SpansBottom(blocks, l)
    ensures FirstRun(b, l) == LastRun(b, l) == 4
  {
    var top, left, right := SpansTop(blocks, l), LeftColumn(blocks, l), RightColumn(blocks, l);
    CountTop(blocks, l, b);
    CountLeft(blocks, l, b);
    CountRight(blocks, l, b);
    PickedCount(blocks, BelowColumns(l, top, left, right), b);
  }

  /** A page of two columns is read run by run: top spans, left column, right column, foot, the rest, each downwards. */
  lemma ReadInOrder(blocks: seq<Block>, pageWidth: real, words: string -> nat)
    requires LayoutOf(blocks, pageWidth, words).TwoColumns?
    ensures InReadingOrder(OrderPageBlocks(blocks, pageWidth, words), LayoutOf(blocks, pageWidth, words))
  {
    var l := LayoutOf(blocks, pageWidth, words);
    var top, left, right := SpansTop(blocks, l), LeftColumn(blocks, l), RightColumn(blocks, l);
    TopRead(blocks, l);
    LeftRead(blocks, l);
    RightRead(blocks, l);
    RestRead(blocks, l);
    FiveRuns(top, left, right, SpansBottom(blocks, l), Others(blocks, l), l);
  }

  lemma FiveRuns(top: seq<Block>, left: seq<Block>, right: seq<Block>, foot: seq<Block>, others: seq<Block>, l: Layout)
    requires l.TwoColumns? && ReadInRun(top, l, 0) && ReadInRun(left, l, 1) && ReadInRun(right, l, 2)
    requires ReadInRun(foot, l, 3) && ReadInRun(others, l, 4)
    ensures InReadingOrder(top + left + right + foot + others, l)
  {
    TopInOrder(top, l);
    RunAfterRun(top, left, l, 1);
    RunAfterRun(top + left, right, l, 2);
    RunAfterRun(top + left + right, foot, l, 3);
    RunAfterRun(top + left + right + foot, others, l, 4);
  }

  lemma TopInOrder(top: seq<Block>, l: Layout)
    requires l.TwoColumns? && ReadInRun(top, l, 0)
    ensures InReadingOrder(top, l)
  {
    assert forall p, q :: 0 <= p < q < |top| ==> ByTop(top[p], top[q]);
  }

  /**
   By coordinates: what ends at the top of the columns comes before all else; of the other blocks
   that start above their foot, those ending left of the middle come before those starting right of
   it, unless they straddle; and what is in neither column comes last.
  */
  lemma ColumnsReadInTurn(blocks: seq<Block>, pageWidth: real, words: string -> nat, p: nat, q: nat)
    requires LayoutOf(blocks, pageWidth, words).TwoColumns?
    requires p < |OrderPageBlocks(blocks, pageWidth, words)| && q < |OrderPageBlocks(blocks, pageWidth, words)|
    requires var l := LayoutOf(blocks, pageWidth, words);
             var b, c := OrderPageBlocks(blocks, pageWidth, words)[p], OrderPageBlocks(blocks, pageWidth, words)[q];
             || (b.y1 <= l.top + 5.0 < c.y1)
             || (&& b.y1 > l.top + 5.0 && b.y0 < l.bottom + 5.0 && c.y1 > l.top + 5.0 && c.y0 < l.bottom + 5.0
                 && b.x1 <= l.mid + 15.0 && c.x0 >= l.mid - 15.0 && !Straddles(b, l) && !Straddles(c, l))
             || (&& b.y1 > l.top + 5.0 && b.y0 < l.bottom + 5.0 && (b.x1 <= l.mid + 15.0 || b.x0 >= l.mid - 15.0)
                 && c.y1 > l.top + 5.0
                 && !(c.y0 < l.bottom + 5.0 && (c.x1 <= l.mid + 15.0 || c.x0 >= l.mid - 15.0)))
    ensures p < q
  {
    ReadInOrder(blocks, pageWidth, words);
    EarlierRun(OrderPageBlocks(blocks, pageWidth, words), LayoutOf(blocks, pageWidth, words), p, q);
  }

  lemma EarlierRun(s: seq<Block>, l: Layout, p: nat, q: nat)
    requires l.TwoColumns? && InReadingOrder(s, l) && p < |s| && q < |s|
    requires LastRun(s[p], l) < FirstRun(s[q], l)
    ensures p < q
  {
    assert FirstRun(s[p], l) <= LastRun(s[p], l);
  }

  /** A block of ten words or more, narrower than a column may be, that ends left of the middle. */
  predicate LeftBody(b: Block, pageWidth: real, words: string -> nat) {
    words(b.text) >= 10 && b.x1 - b.x0 < pageWidth * 0.55 && b.x1 <= pageWidth * 0.5 + 15.0
  }

  predicate RightBody(b: Block, pageWidth: real, words: string -> nat) {
    words(b.text) >= 10 && b.x1 - b.x0 < pageWidth * 0.55 && b.x0 >= pageWidth * 0.5 - 15.0
  }

  lemma BodiesAre(blocks: seq<Block>, pageWidth: real, words: string -> nat, b: Block)
    ensures b in LeftBodies(blocks, pageWidth, words) <==> b in blocks && LeftBody(b, pageWidth, words)
    ensures b in RightBodies(blocks, pageWidth, words) <==> b in blocks && RightBody(b, pageWidth, words)
  {
    InFilter(blocks, (c: Block) =>
      words(c.text) >= 10 && c.x1 <= pageWidth * 0.5 + 15.0 && c.x1 - c.x0 < pageWidth * 0.55, b);
    InFilter(blocks, (c: Block) =>
      words(c.text) >= 10 && c.x0 >= pageWidth * 0.5 - 15.0 && c.x1 - c.x0 < pageWidth * 0.55, b);
  }

  /**
   Two columns are seen exactly if a substantial block lies on either side of the middle, and they
   reach from the highest to the lowest point of those blocks.
  */
  lemma LayoutIs(blocks: seq<Block>, pageWidth: real, words: string -> nat)
    ensures var l := LayoutOf(blocks, pageWidth, words);
            && (l.TwoColumns? <==> (exists b :: b in blocks && LeftBody(b, pageWidth, words)) &&
                                   (exists b :: b in blocks && RightBody(b, pageWidth, words)))
            && (l.TwoColumns? ==>
                  && l.mid == pageWidth * 0.5
                  && (forall b :: b in blocks && (LeftBody(b, pageWidth, words) || RightBody(b, pageWidth, words)) ==>
                        l.top <= b.y0 && b.y1 <= l.bottom)
                  && (exists b :: b in blocks && (LeftBody(b, pageWidth, words) || RightBody(b, pageWidth, words)) &&
                                  b.y0 == l.top)
                  && (exists b :: b in blocks && (LeftBody(b, pageWidth, words) || RightBody(b, pageWidth, words)) &&
                                  b.y1 == l.bottom))
  {
    var left, right := LeftBodies(blocks, pageWidth, words), RightBodies(blocks, pageWidth, words);
    forall b
      ensures b in left <==> b in blocks && LeftBody(b, pageWidth, words)
      ensures b in right <==> b in blocks && RightBody(b, pageWidth, words)
    {
      BodiesAre(blocks, pageWidth, words, b);
    }
    assert left != [] ==> left[0] in left;
    assert right != [] ==> right[0] in right;
    if left != [] && right != [] {
      Extent(left, right);
    }
  }

  lemma Extent(left: seq<Block>, right: seq<Block>)
    requires left != [] && right != []
    ensures var top, bottom := Min(MinTop(left), MinTop(right)), Max(MaxBottom(left), MaxBottom(right));
            && (forall b :: b in left || b in right ==> top <= b.y0 && b.y1 <= bottom)
            && (exists b :: (b in left || b in right) && b.y0 == top)
            && (exists b :: (b in left || b in right) && b.y1 == bottom)
  {
    var i :| 0 <= i < |left| && left[i].y0 == MinTop(left);
    var j :| 0 <= j < |right| && right[j].y0 == MinTop(right);
    var k :| 0 <= k < |left| && left[k].y1 == MaxBottom(left);
    var m :| 0 <= m < |right| && right[m].y1 == MaxBottom(right);
    assert left[i] in left && right[j] in right && left[k] in left && right[m] in right;
  }

  /** In one column the page reads by top edge, then left edge; in two columns each of the five runs reads downwards. */
  lemma RunsReadDownwards(blocks: seq<Block>, pageWidth: real, words: string -> nat)
    ensures var l := LayoutOf(blocks, pageWidth, words);
            if l.OneColumn? then Ascending(OrderPageBlocks(blocks, pageWidth, words), ByTopThenLeft)
            else
              && Ascending(SpansTop(blocks, l), ByTop) && Ascending(LeftColumn(blocks, l), ByTop)
              && Ascending(RightColumn(blocks, l), ByTop) && Ascending(SpansBottom(blocks, l), ByTop)
              && Ascending(Others(blocks, l), ByTop)
  {
    var l := LayoutOf(blocks, pageWidth, words);
    if l.OneColumn? {
      SortedAscends(blocks, ByTopThenLeft);
    } else {
      forall s: seq<Block>
        ensures Ascending(Sorted(s, ByTop), ByTop)
      {
        SortedAscends(s, ByTop);
      }
    }
  }

  /** In one column the page is read from top to bottom, and from left to right at one height. */
  lemma OneColumnRead(blocks: seq<Block>, pageWidth: real, words: string -> nat, p: nat, q: nat)
    requires LayoutOf(blocks, pageWidth, words).OneColumn? && p < q < |OrderPageBlocks(blocks, pageWidth, words)|
    ensures var b, c := OrderPageBlocks(blocks, pageWidth, words)[p], OrderPageBlocks(blocks, pageWidth, words)[q];
            b.y0 < c.y0 || (b.y0 == c.y0 && b.x0 <= c.x0)
  {
    RunsReadDownwards(blocks, pageWidth, words);
    assert ByTopThenLeft(OrderPageBlocks(blocks, pageWidth, words)[p], OrderPageBlocks(blocks, pageWidth, words)[q]);
  }
}
