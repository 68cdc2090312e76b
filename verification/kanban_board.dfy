/** The triage board: a fixed list of three columns, each showing the plan's
    items whose status is that column's, in plan order. */
module KanbanBoard {
  import opened Types
  import opened Common

  /** The board's columns in display order; Skip has no column. */
  function BoardColumns(): (r: seq<Status>)
    ensures |r| == 3 && Skip !in r
    ensures Now in r && Next in r && Later in r
    ensures forall i, j :: 0 <= i < j < |r| ==> r[i] != r[j]
  {
    [Now, Next, Later]
  }

  /** `items.filter(item => item.status === s)`. */
  function Column(items: seq<ActionItem>, s: Status): (r: seq<ActionItem>)
    ensures forall x :: x in r <==> x in items && x.status == s
    ensures |r| <= |items|
  {
    if items == [] then []
    else
      var last := items[|items| - 1];
      var init := Column(items[..|items| - 1], s);
      if last.status == s then init + [last] else init
  }

  /** The items that appear on the board at all. */
  function NonSkip(items: seq<ActionItem>): (r: seq<ActionItem>)
    ensures forall x :: x in r <==> x in items && x.status != Skip
    ensures |r| <= |items|
  {
    if items == [] then []
    else
      var last := items[|items| - 1];
      var init := NonSkip(items[..|items| - 1]);
      if last.status != Skip then init + [last] else init
  }

  /** What the board renders: one item list per column of BoardColumns(). */
  function Board(items: seq<ActionItem>): (r: seq<seq<ActionItem>>)
    ensures |r| == |BoardColumns()|
    ensures forall k, x :: 0 <= k < |r| && x in r[k] ==> x in items && x.status == BoardColumns()[k]
    ensures forall k, x :: 0 <= k < |r| && x in r[k] ==> x.status != Skip
    ensures forall x :: x in items && x.status != Skip ==> exists k :: 0 <= k < |r| && x in r[k]
  {
    var cols := BoardColumns();
    seq(|cols|, k requires 0 <= k < |cols| => Column(items, cols[k]))
  }

  /** Within a column, items keep their relative order from the plan. */
  lemma {:induction false} ColumnKeepsOrder(items: seq<ActionItem>, s: Status)
    ensures IsSubsequence(Column(items, s), items)
    decreases |items|
  {
    if items != [] {
      var init := items[..|items| - 1];
      ColumnKeepsOrder(init, s);
      var c := Column(init, s);
      assert items[..|items| - 1] == init;
      if items[|items| - 1].status == s {
        assert (c + [items[|items| - 1]])[..|c|] == c;
      }
    }
  }

  /** Every non-Skip item lands in exactly one column, with its multiplicity:
      the three columns together are a rearrangement of the non-Skip items. */
  lemma {:induction false} ColumnsPartitionNonSkip(items: seq<ActionItem>)
    ensures multiset(Column(items, Now)) + multiset(Column(items, Next)) + multiset(Column(items, Later))
         == multiset(NonSkip(items))
    decreases |items|
  {
    if items != [] {
      ColumnsPartitionNonSkip(items[..|items| - 1]);
    }
  }

  /** The column sizes add up to the number of items that are not skipped. */
  lemma ColumnSizesSum(items: seq<ActionItem>)
    ensures |Column(items, Now)| + |Column(items, Next)| + |Column(items, Later)| == |NonSkip(items)|
  {
    ColumnsPartitionNonSkip(items);
    assert |multiset(NonSkip(items))| == |NonSkip(items)|;
  }
}
