/** `AssetNodeChecksRow` and the guard in `AssetNode` that decides whether it
    is rendered: classify every check, count per category, and show the
    shown categories in priority order with their counts. */
module ChecksRow {
  import opened Wrappers
  import opened AssetChecks
  import opened CheckIcons
  import opened Classifier
  import opened Aggregator
  import opened IconOrder

  /** `(liveData?.assetChecks || []).length > 0` in `AssetNode`. */
  predicate ShowsChecksRow(liveData: Option<LiveData>) {
    |(if liveData.Some? then liveData.value.assetChecks else [])| > 0
  }

  /** The icons `AssetNodeChecksRow` renders; `None` stands for the empty
      `<span />` it returns when there is no live data or no check. A row
      exists exactly when `AssetNode` asks for one, holds at least one icon,
      and its printed numbers add up to the number of checks. */
  function RenderChecksRow(liveData: Option<LiveData>): (r: Option<seq<IconCount>>)
    ensures r.Some? <==> ShowsChecksRow(liveData)
    ensures r.Some? ==> 0 < |r.value| && SumShown(r.value) == |liveData.value.assetChecks|
  {
    if liveData.None? || |liveData.value.assetChecks| == 0 then None
    else
      var checks := liveData.value.assetChecks;
      var byIconType := CountBy(checks);
      var icons := OrderedIcons(byIconType);
      CountsSumToLength(checks);
      OrderedIconsKeepTotal(byIconType);
      Some(icons)
  }

  /** The rendered icons are exactly the categories some check falls into, in
      priority order, each with the number of checks in it. */
  lemma RenderedIconsAreTheOccurringCategories(checks: seq<AssetCheck>)
    requires |checks| > 0
    ensures var r := RenderChecksRow(Some(LiveData(checks))).value;
            && (forall t :: t in IconsOf(r) <==> exists c :: c in checks && Classify(c) == t)
            && (forall k :: 0 <= k < |r| ==> r[k].count == CountOf(checks, r[k].icon))
            && RankSorted(IconsOf(r))
            && IsSubsequence(IconsOf(r), IconsOrdered)
  {
    forall t
      ensures CountOf(checks, t) > 0 <==> exists c :: c in checks && Classify(c) == t
    {
      CountOfPositive(checks, t);
    }
  }

  /** A category has a positive count exactly when some check falls into it. */
  lemma {:induction false} CountOfPositive(checks: seq<AssetCheck>, t: IconType)
    ensures CountOf(checks, t) > 0 <==> exists c :: c in checks && Classify(c) == t
    decreases |checks|
  {
    if |checks| > 0 {
      var prefix := checks[..|checks| - 1];
      var last := checks[|checks| - 1];
      CountOfPositive(prefix, t);
      assert checks == prefix + [last];
      if exists c :: c in checks && Classify(c) == t {
        var c :| c in checks && Classify(c) == t;
        assert c in prefix || c == last;
      }
    }
  }

  /** No live data, or an empty check list, renders no icons. */
  lemma NoChecksNoIcons(liveData: Option<LiveData>)
    requires liveData.None? || liveData.value.assetChecks == []
    ensures RenderChecksRow(liveData) == None
    ensures !ShowsChecksRow(liveData)
  {
  }

  /** The order in which the checks arrive does not change the row. */
  lemma RenderChecksRowPermutation(a: seq<AssetCheck>, b: seq<AssetCheck>)
    requires multiset(a) == multiset(b)
    ensures CountBy(a) == CountBy(b)
    ensures RenderChecksRow(Some(LiveData(a))) == RenderChecksRow(Some(LiveData(b)))
  {
    CountByPermutation(a, b);
    assert |a| == |multiset(a)| == |multiset(b)| == |b|;
  }

  /** One SUCCEEDED check (whose WARN evaluation is ignored, since it did not
      fail), one FAILED check of severity WARN and one FAILED
      check without evaluation render ERROR, WARN, SUCCEEDED, one each. */
  lemma MixedChecksExample()
    ensures
      var checks := MixedChecks();
      && CountBy(checks) == map[SucceededIcon := 1, WarnIcon := 1, ErrorIcon := 1]
      && RenderChecksRow(Some(LiveData(checks)))
         == Some([IconCount(ErrorIcon, 1), IconCount(WarnIcon, 1), IconCount(SucceededIcon, 1)])
  {
    var counts := map[SucceededIcon := 1, WarnIcon := 1, ErrorIcon := 1];
    MixedChecksCounts();
    MixedCountsRendered();
    assert RenderChecksRow(Some(LiveData(MixedChecks()))) == Some(OrderedIcons(counts));
  }

  /** The checks of `MixedChecksExample`, in arrival order. */
  function MixedChecks(): seq<AssetCheck> {
    [ AssetCheck(Some(Execution(Succeeded, Some(Evaluation(Warn))))),
      AssetCheck(Some(Execution(Failed, Some(Evaluation(Warn))))),
      AssetCheck(Some(Execution(Failed, None)))]
  }

  /** `countBy` over the mixed checks, one check at a time. */
  lemma MixedChecksCounts()
    ensures CountBy(MixedChecks()) == map[SucceededIcon := 1, WarnIcon := 1, ErrorIcon := 1]
  {
    var checks := MixedChecks();
    assert Classify(checks[0]) == SucceededIcon;
    assert Classify(checks[1]) == WarnIcon;
    assert Classify(checks[2]) == ErrorIcon;
    assert checks[..2][..1] == [checks[0]];
    assert checks[..2][..1][..0] == [];
    var c1 := CountBy(checks[..2][..1]);
    assert c1 == Bump(map[], SucceededIcon) == map[SucceededIcon := 1];
    var c2 := CountBy(checks[..2]);
    assert c2 == Bump(c1, WarnIcon) == map[SucceededIcon := 1, WarnIcon := 1];
    assert CountBy(checks) == Bump(c2, ErrorIcon);
  }

  /** Counts of one ERROR, one WARN and one SUCCEEDED render in that order. */
  lemma MixedCountsRendered()
    ensures OrderedIcons(map[SucceededIcon := 1, WarnIcon := 1, ErrorIcon := 1])
            == [IconCount(ErrorIcon, 1), IconCount(WarnIcon, 1), IconCount(SucceededIcon, 1)]
  {
    var counts := map[SucceededIcon := 1, WarnIcon := 1, ErrorIcon := 1];
    var expected := [ErrorIcon, WarnIcon, SucceededIcon];
    assert RankSorted(expected);
    OrderedIconsIsTheSortedShownSet(counts, expected);
    var icons := OrderedIcons(counts);
    assert |icons| == 3;
  }

  /** Two checks that never ran count as NOT_EVALUATED twice. */
  lemma UnevaluatedChecksExample()
    ensures CountBy([AssetCheck(None), AssetCheck(None)]) == map[NotEvaluated := 2]
  {
    var checks := [AssetCheck(None), AssetCheck(None)];
    assert checks[..1] == [AssetCheck(None)];
  }
}
