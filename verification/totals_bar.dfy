/** Per-column totals shown under the board: item count, summed cost and
    summed effort weight, for Now, Next and Later; Skip items count nowhere. */
module TotalsBar {
  import opened Types
  import opened KanbanBoard

  /** The effortWeight table: L = 1, M = 2, H = 3. */
  function EffortWeight(e: Effort): (w: int)
    ensures 1 <= w <= 3
    ensures (w == 1) == (e == Low) && (w == 2) == (e == Medium) && (w == 3) == (e == High)
  {
    match e
    case Low => 1
    case Medium => 2
    case High => 3
  }

  datatype Tally = Tally(count: int, cost: int, effort: int)

  const Zero := Tally(0, 0, 0)

  function Plus(a: Tally, b: Tally): Tally {
    Tally(a.count + b.count, a.cost + b.cost, a.effort + b.effort)
  }

  /** What one item adds to its own column. */
  function Contribution(item: ActionItem): Tally {
    Tally(1, item.cost, EffortWeight(item.effort))
  }

  /** Sum of the contributions of every item of `xs`, whatever its status. */
  function SumOf(xs: seq<ActionItem>): (t: Tally)
    ensures t.count == |xs|
  {
    if xs == [] then Zero else Plus(SumOf(xs[..|xs| - 1]), Contribution(xs[|xs| - 1]))
  }

  /** Specification of one column's totals: the contributions of the items
      with status `s`, accumulated in list order. */
  function ColumnTally(items: seq<ActionItem>, s: Status): Tally {
    if items == [] then Zero
    else
      var t := ColumnTally(items[..|items| - 1], s);
      var last := items[|items| - 1];
      if last.status == s then Plus(t, Contribution(last)) else t
  }

  /** The `reduce` of the totals bar: one pass over the items that updates the
      accumulator table entry of each non-Skip item's status in place. */
  method ComputeTotals(items: seq<ActionItem>) returns (totals: map<Status, Tally>)
    ensures totals.Keys == {Now, Next, Later}
    ensures forall s :: s in totals ==> totals[s] == ColumnTally(items, s)
  {
    totals := map[Now := Zero, Next := Zero, Later := Zero];
    for i := 0 to |items|
      invariant totals.Keys == {Now, Next, Later}
      invariant forall s :: s in totals ==> totals[s] == ColumnTally(items[..i], s)
    {
      assert items[..i + 1][..i] == items[..i];
      var item := items[i];
      if item.status != Skip {
        var acc := totals[item.status];
        totals := totals[item.status := Tally(acc.count + 1, acc.cost + item.cost, acc.effort + EffortWeight(item.effort))];
      }
    }
    assert items[..|items|] == items;
  }

  // ---------------------------------------------------------------------------
  // Properties of the totals
  // ---------------------------------------------------------------------------

  /** A column's totals are the plain sums over the items the board shows in
      that column: count = number of items, cost = sum of costs, effort = sum
      of weights. */
  lemma {:induction false} ColumnTallyIsSumOverColumn(items: seq<ActionItem>, s: Status)
    ensures ColumnTally(items, s) == SumOf(Column(items, s))
    decreases |items|
  {
    if items != [] {
      var init := items[..|items| - 1];
      ColumnTallyIsSumOverColumn(init, s);
      var c := Column(init, s);
      if items[|items| - 1].status == s {
        assert (c + [items[|items| - 1]])[..|c|] == c;
      }
    }
  }

  /** A column's count equals the number of items with that status. */
  lemma ColumnCountIsColumnSize(items: seq<ActionItem>, s: Status)
    ensures ColumnTally(items, s).count == |Column(items, s)|
  {
    ColumnTallyIsSumOverColumn(items, s);
  }

  /** Skip items contribute nothing: dropping them leaves every column's totals unchanged. */
  lemma {:induction false} SkipContributesNothing(items: seq<ActionItem>, s: Status)
    requires s != Skip
    ensures ColumnTally(NonSkip(items), s) == ColumnTally(items, s)
    decreases |items|
  {
    if items != [] {
      var init := items[..|items| - 1];
      SkipContributesNothing(init, s);
      var n := NonSkip(init);
      if items[|items| - 1].status != Skip {
        assert (n + [items[|items| - 1]])[..|n|] == n;
      }
    }
  }

  /** The three counts add up to the number of non-Skip items. */
  lemma CountsSumToNonSkip(items: seq<ActionItem>)
    ensures ColumnTally(items, Now).count + ColumnTally(items, Next).count + ColumnTally(items, Later).count
         == |NonSkip(items)|
  {
    ColumnCountIsColumnSize(items, Now);
    ColumnCountIsColumnSize(items, Next);
    ColumnCountIsColumnSize(items, Later);
    ColumnSizesSum(items);
  }

  lemma {:induction false} ColumnTallyAppend(a: seq<ActionItem>, b: seq<ActionItem>, s: Status)
    ensures ColumnTally(a + b, s) == Plus(ColumnTally(a, s), ColumnTally(b, s))
    decreases |b|
  {
    if b == [] {
      assert a + b == a;
    } else {
      var b' := b[..|b| - 1];
      assert (a + b)[..|a + b| - 1] == a + b';
      ColumnTallyAppend(a, b', s);
    }
  }

  lemma MultisetRemoveAt(b: seq<ActionItem>, k: nat)
    requires k < |b|
    ensures multiset(b[..k] + b[k + 1..]) == multiset(b) - multiset{b[k]}
  {
    assert b == b[..k] + [b[k]] + b[k + 1..];
  }

  lemma TallyRemoveAt(b: seq<ActionItem>, k: nat, s: Status)
    requires k < |b|
    ensures ColumnTally(b, s) == Plus(ColumnTally(b[..k] + b[k + 1..], s), ColumnTally([b[k]], s))
  {
    var left, right := b[..k], b[k + 1..];
    assert b == (left + [b[k]]) + right;
    ColumnTallyAppend(left + [b[k]], right, s);
    ColumnTallyAppend(left, [b[k]], s);
    ColumnTallyAppend(left, right, s);
  }

  /** Totals do not depend on item order: a permuted list gives the same totals. */
  lemma {:induction false} TotalsIgnoreOrder(a: seq<ActionItem>, b: seq<ActionItem>, s: Status)
    requires multiset(a) == multiset(b)
    ensures ColumnTally(a, s) == ColumnTally(b, s)
    decreases |a|
  {
    if a == [] {
      assert |b| == |multiset(b)| == 0;
    } else {
      var x := a[|a| - 1];
      var a' := a[..|a| - 1];
      assert a == a' + [x];
      assert multiset(a') == multiset(a) - multiset{x};
      assert x in multiset(b);
      var k :| 0 <= k < |b| && b[k] == x;
      MultisetRemoveAt(b, k);
      TotalsIgnoreOrder(a', b[..k] + b[k + 1..], s);
      TallyRemoveAt(b, k, s);
      ColumnTallyAppend(a', [x], s);
    }
  }
}
