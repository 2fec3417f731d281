/** `AssetCheckIconsOrdered.filter((a) => byIconType[a.type])`: the priority
    table cut down to the categories with a non-zero count, in table order,
    each shown with its count. */
module IconOrder {
  import opened CheckIcons
  import opened Aggregator

  /** JavaScript truthiness of `byIconType[t]`: the key exists and its value
      is not zero. */
  predicate Shown(counts: Counts, t: IconType) {
    t in counts && counts[t] != 0
  }

  /** Strictly increasing priority, hence also free of repetitions. */
  ghost predicate RankSorted(ts: seq<IconType>) {
    forall i, j :: 0 <= i < j < |ts| ==> Rank(ts[i]) < Rank(ts[j])
  }

  /** `a` is `b` with some entries dropped and the rest kept in order. */
  ghost predicate IsSubsequence(a: seq<IconType>, b: seq<IconType>)
    decreases |b|
  {
    if |a| == 0 then true
    else if |b| == 0 then false
    else (a[0] == b[0] && IsSubsequence(a[1..], b[1..])) || IsSubsequence(a, b[1..])
  }

  /** The entries of `table` whose count is truthy, in table order. */
  function FilterShown(table: seq<IconType>, counts: Counts): (r: seq<IconType>)
    ensures forall t :: t in r <==> t in table && Shown(counts, t)
    ensures IsSubsequence(r, table)
    ensures RankSorted(table) ==> RankSorted(r)
    decreases |table|
  {
    if |table| == 0 then []
    else if Shown(counts, table[0]) then
      var rest := FilterShown(table[1..], counts);
      RankSortedCons(table, rest);
      [table[0]] + rest
    else FilterShown(table[1..], counts)
  }

  /** A table's head outranks, in a sorted table, everything taken from its tail. */
  lemma RankSortedCons(table: seq<IconType>, rest: seq<IconType>)
    requires |table| > 0
    requires RankSorted(table) ==> RankSorted(rest)
    requires forall t :: t in rest ==> t in table[1..]
    ensures RankSorted(table) ==> RankSorted([table[0]] + rest)
  {
    if RankSorted(table) {
      var s := [table[0]] + rest;
      forall i, j | 0 <= i < j < |s|
        ensures Rank(s[i]) < Rank(s[j])
      {
        if i == 0 {
          assert s[j] == rest[j - 1] && rest[j - 1] in rest;
          var m :| 0 <= m < |table[1..]| && table[1..][m] == s[j];
          assert table[m + 1] == s[j];
        } else {
          assert s[i] == rest[i - 1] && s[j] == rest[j - 1];
        }
      }
    }
  }

  /** One rendered icon: its category and the number printed beside it. */
  datatype IconCount = IconCount(icon: IconType, count: nat)

  /** The rendered icon row for the given counts: the shown categories of the
      priority table, each paired with its count. */
  function OrderedIcons(counts: Counts): (r: seq<IconCount>)
    ensures |r| <= |IconsOrdered|
    ensures forall k :: 0 <= k < |r| ==> Shown(counts, r[k].icon) && r[k].count == counts[r[k].icon]
    ensures forall t :: t in IconsOf(r) <==> Shown(counts, t)
    ensures RankSorted(IconsOf(r))
    ensures IsSubsequence(IconsOf(r), IconsOrdered)
  {
    IconsOrderedIsRanking();
    var shown := FilterShown(IconsOrdered, counts);
    var r := WithCounts(shown, counts);
    assert IconsOf(r) == shown;
    assert |shown| <= |IconsOrdered| by {
      SubsequenceLength(shown, IconsOrdered);
    }
    r
  }

  /** The categories of a rendered row, left to right. */
  function IconsOf(r: seq<IconCount>): (ts: seq<IconType>)
    ensures |ts| == |r| && forall k :: 0 <= k < |r| ==> ts[k] == r[k].icon
  {
    seq(|r|, k requires 0 <= k < |r| => r[k].icon)
  }

  lemma {:induction false} SubsequenceLength(a: seq<IconType>, b: seq<IconType>)
    requires IsSubsequence(a, b)
    ensures |a| <= |b|
    decreases |b|
  {
    if |a| > 0 {
      if a[0] == b[0] && IsSubsequence(a[1..], b[1..]) {
        SubsequenceLength(a[1..], b[1..]);
      } else {
        SubsequenceLength(a, b[1..]);
      }
    }
  }

  /** A list with no members is empty. */
  lemma NoMembersEmpty(b: seq<IconType>)
    requires forall t :: t !in b
    ensures b == []
  {
    if |b| > 0 {
      HeadIsMember(b);
    }
  }

  /** Names the term `b[0] in b` outside the caller's context, where stating
      it inline would be flagged as proved from contradictory facts. */
  lemma HeadIsMember(b: seq<IconType>)
    requires |b| > 0
    ensures b[0] in b
  {
  }

  /** Two rank-sorted lists with the same categories are the same list. */
  lemma {:induction false} RankSortedUnique(a: seq<IconType>, b: seq<IconType>)
    requires RankSorted(a) && RankSorted(b)
    requires forall t :: t in a <==> t in b
    ensures a == b
    decreases |a|
  {
    if |a| == 0 {
      NoMembersEmpty(b);
    } else {
      assert a[0] in b;
      assert |b| > 0;
      assert b[0] in a;
      assert a[0] == b[0];
      forall t
        ensures t in a[1..] <==> t in b[1..]
      {
        if t in a[1..] {
          var i :| 0 <= i < |a[1..]| && a[1..][i] == t;
          assert a[i + 1] == t && Rank(a[0]) < Rank(t);
          assert t in b && t != b[0];
        }
        if t in b[1..] {
          var j :| 0 <= j < |b[1..]| && b[1..][j] == t;
          assert b[j + 1] == t && Rank(b[0]) < Rank(t);
          assert t in a && t != a[0];
        }
      }
      RankSortedUnique(a[1..], b[1..]);
    }
  }

  /** The rendered order is forced: any rank-sorted list of exactly the shown
      categories is the rendered row's list. */
  lemma OrderedIconsIsTheSortedShownSet(counts: Counts, q: seq<IconType>)
    requires RankSorted(q)
    requires forall t :: t in q <==> Shown(counts, t)
    ensures IconsOf(OrderedIcons(counts)) == q
  {
    RankSortedUnique(IconsOf(OrderedIcons(counts)), q);
  }

  /** Sum of the counts printed in a rendered row. */
  function SumShown(r: seq<IconCount>): nat
    decreases |r|
  {
    if |r| == 0 then 0 else r[0].count + SumShown(r[1..])
  }

  lemma {:induction false} SumShownAppend(p: seq<IconCount>, q: seq<IconCount>)
    ensures SumShown(p + q) == SumShown(p) + SumShown(q)
    decreases |p|
  {
    if |p| == 0 {
      assert p + q == q;
    } else {
      assert (p + q)[1..] == p[1..] + q;
      SumShownAppend(p[1..], q);
    }
  }

  /** `.map((icon) => ... byIconType[icon.type])`: each category with its count. */
  function WithCounts(ts: seq<IconType>, counts: Counts): (r: seq<IconCount>)
    requires forall t :: t in ts ==> t in counts
    ensures |r| == |ts| && forall k :: 0 <= k < |ts| ==> r[k] == IconCount(ts[k], counts[ts[k]])
  {
    seq(|ts|, k requires 0 <= k < |ts| => IconCount(ts[k], counts[ts[k]]))
  }

  /** Dropping the categories with no count loses nothing from the sum. */
  lemma {:induction false} FilterKeepsSum(table: seq<IconType>, counts: Counts)
    ensures SumShown(WithCounts(FilterShown(table, counts), counts)) == SumLookup(table, counts)
    decreases |table|
  {
    if |table| > 0 {
      var rest := FilterShown(table[1..], counts);
      FilterKeepsSum(table[1..], counts);
      if Shown(counts, table[0]) {
        var t := table[0];
        assert WithCounts([t] + rest, counts) == [IconCount(t, counts[t])] + WithCounts(rest, counts);
        SumShownAppend([IconCount(t, counts[t])], WithCounts(rest, counts));
      }
    }
  }

  /** The numbers printed beside the icons add up to the total count. */
  lemma OrderedIconsKeepTotal(counts: Counts)
    ensures SumShown(OrderedIcons(counts)) == Total(counts)
  {
    var shown := FilterShown(IconsOrdered, counts);
    assert OrderedIcons(counts) == WithCounts(shown, counts);
    FilterKeepsSum(IconsOrdered, counts);
  }
}
