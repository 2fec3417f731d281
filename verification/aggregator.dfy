/** `countBy(liveData.assetChecks, classify)`: the number of checks per
    display category. As in lodash, a category gets a key only when some check
    falls into it; a missing key reads as zero. */
module Aggregator {
  import opened AssetChecks
  import opened CheckIcons
  import opened Classifier

  type Counts = map<IconType, nat>

  /** How many checks of the list the classifier puts into category `t`. */
  function CountOf(checks: seq<AssetCheck>, t: IconType): nat
    decreases |checks|
  {
    if |checks| == 0 then 0
    else CountOf(checks[..|checks| - 1], t) + (if Classify(checks[|checks| - 1]) == t then 1 else 0)
  }

  /** The value a consumer reads for `t`: `counts[t]`, or zero for no key. */
  function Lookup(counts: Counts, t: IconType): nat {
    if t in counts then counts[t] else 0
  }

  /** One step of lodash's aggregator: increment an existing key, or create it with 1. */
  function Bump(counts: Counts, t: IconType): (r: Counts)
    ensures r.Keys == counts.Keys + {t}
    ensures r[t] == Lookup(counts, t) + 1
    ensures forall u :: u in counts && u != t ==> r[u] == counts[u]
  {
    if t in counts then counts[t := counts[t] + 1] else counts[t := 1]
  }

  /** Counts per category, folding over the checks from first to last. A key
      exists exactly for the categories that occur, and holds how many
      checks fall into it. */
  function CountBy(checks: seq<AssetCheck>): (r: Counts)
    ensures forall t :: t in r <==> CountOf(checks, t) > 0
    ensures forall t :: t in r ==> r[t] == CountOf(checks, t)
    decreases |checks|
  {
    if |checks| == 0 then map[]
    else Bump(CountBy(checks[..|checks| - 1]), Classify(checks[|checks| - 1]))
  }

  /** Reading a category from the counts gives the number of checks in it,
      zero included. */
  lemma LookupIsCount(checks: seq<AssetCheck>, t: IconType)
    ensures Lookup(CountBy(checks), t) == CountOf(checks, t)
  {
  }

  /** No checks, no keys. */
  lemma CountByEmpty()
    ensures CountBy([]) == map[]
  {
  }

  /** Counting a concatenation adds the counts of its parts. */
  lemma {:induction false} CountOfAppend(p: seq<AssetCheck>, q: seq<AssetCheck>, t: IconType)
    ensures CountOf(p + q, t) == CountOf(p, t) + CountOf(q, t)
    decreases |q|
  {
    if |q| == 0 {
      assert p + q == p;
    } else {
      var q' := q[..|q| - 1];
      assert (p + q)[..|p + q| - 1] == p + q';
      CountOfAppend(p, q', t);
    }
  }

  /** Taking one check out of the list lowers exactly its own category's count. */
  lemma CountOfRemove(b: seq<AssetCheck>, i: nat, t: IconType)
    requires i < |b|
    ensures CountOf(b, t) == CountOf(b[..i] + b[i + 1..], t) + (if Classify(b[i]) == t then 1 else 0)
  {
    assert b == (b[..i] + [b[i]]) + b[i + 1..];
    CountOfAppend(b[..i] + [b[i]], b[i + 1..], t);
    CountOfAppend(b[..i], [b[i]], t);
    CountOfAppend(b[..i], b[i + 1..], t);
    assert [b[i]][..0] == [];
  }

  /** The list without one occurrence of `x`, keeping the rest in order;
      the count of `x`'s category drops by one and no other changes. */
  function RemoveFirst(b: seq<AssetCheck>, x: AssetCheck): (r: seq<AssetCheck>)
    requires x in multiset(b)
    ensures multiset(r) == multiset(b) - multiset{x}
    ensures forall t :: CountOf(b, t) == CountOf(r, t) + (if Classify(x) == t then 1 else 0)
  {
    var i := IndexOf(b, x);
    assert b == b[..i] + ([b[i]] + b[i + 1..]);
    assert multiset(b) == multiset(b[..i]) + multiset{b[i]} + multiset(b[i + 1..]);
    CountOfRemoveAll(b, i);
    b[..i] + b[i + 1..]
  }

  /** A position at which `x` occurs in `b`. */
  function IndexOf(b: seq<AssetCheck>, x: AssetCheck): (i: nat)
    requires x in b
    ensures i < |b| && b[i] == x
  {
    if b[0] == x then 0 else 1 + IndexOf(b[1..], x)
  }

  /** `CountOfRemove` for every category at once. */
  lemma CountOfRemoveAll(b: seq<AssetCheck>, i: nat)
    requires i < |b|
    ensures forall t :: CountOf(b, t) == CountOf(b[..i] + b[i + 1..], t) + (if Classify(b[i]) == t then 1 else 0)
  {
    forall t {
      CountOfRemove(b, i, t);
    }
  }

  /** The count of a category depends only on the multiset of checks, not on
      their order. */
  lemma {:induction false} CountOfPermutation(a: seq<AssetCheck>, b: seq<AssetCheck>, t: IconType)
    requires multiset(a) == multiset(b)
    ensures CountOf(a, t) == CountOf(b, t)
    decreases |a|
  {
    if |a| == 0 {
      assert |b| == |multiset(b)| == 0;
    } else {
      var a' := a[..|a| - 1];
      var x := a[|a| - 1];
      var b' := RemoveFirst(b, x);
      assert multiset(a') == multiset(b') by {
        assert a == a' + [x];
        assert multiset(a') == multiset(a) - multiset{x};
      }
      CountOfPermutation(a', b', t);
      assert CountOf(a, t) == CountOf(a', t) + (if Classify(x) == t then 1 else 0);
    }
  }

  /** Permuting the checks leaves the counts unchanged. */
  lemma CountByPermutation(a: seq<AssetCheck>, b: seq<AssetCheck>)
    requires multiset(a) == multiset(b)
    ensures CountBy(a) == CountBy(b)
  {
    forall t
      ensures CountOf(a, t) == CountOf(b, t)
    {
      CountOfPermutation(a, b, t);
    }
    assert CountBy(a).Keys == CountBy(b).Keys;
  }

  /** Sum of `Lookup(counts, t)` over a list of categories. */
  function SumLookup(ts: seq<IconType>, counts: Counts): nat
    decreases |ts|
  {
    if |ts| == 0 then 0 else Lookup(counts, ts[0]) + SumLookup(ts[1..], counts)
  }

  /** Sum of the counts over all six categories; absent keys read as zero. */
  function Total(counts: Counts): nat {
    SumLookup(IconsOrdered, counts)
  }

  /** How often `t` is listed in `ts`. */
  function Occurrences(ts: seq<IconType>, t: IconType): nat
    decreases |ts|
  {
    if |ts| == 0 then 0 else (if ts[0] == t then 1 else 0) + Occurrences(ts[1..], t)
  }

  lemma {:induction false} SumLookupBump(ts: seq<IconType>, counts: Counts, t: IconType)
    ensures SumLookup(ts, Bump(counts, t)) == SumLookup(ts, counts) + Occurrences(ts, t)
    decreases |ts|
  {
    if |ts| > 0 {
      SumLookupBump(ts[1..], counts, t);
    }
  }

  /** In a list without repetitions a category occurs once if listed at all. */
  lemma {:induction false} OccurrencesDistinct(ts: seq<IconType>, t: IconType)
    requires forall i, j :: 0 <= i < j < |ts| ==> ts[i] != ts[j]
    ensures Occurrences(ts, t) == if t in ts then 1 else 0
    decreases |ts|
  {
    if |ts| > 0 {
      OccurrencesDistinct(ts[1..], t);
      if ts[0] == t {
        assert t !in ts[1..] by {
          forall k | 0 <= k < |ts[1..]|
            ensures ts[1..][k] != t
          {
            assert ts[1..][k] == ts[k + 1];
          }
        }
      }
    }
  }

  /** Each of the six categories is listed exactly once. */
  lemma OccursOnce(t: IconType)
    ensures Occurrences(IconsOrdered, t) == 1
  {
    IconsOrderedIsRanking();
    OccurrencesDistinct(IconsOrdered, t);
  }

  /** Nothing counted sums to zero. */
  lemma {:induction false} SumLookupEmpty(ts: seq<IconType>)
    ensures SumLookup(ts, map[]) == 0
    decreases |ts|
  {
    if |ts| > 0 {
      SumLookupEmpty(ts[1..]);
    }
  }

  /** The counts add up to the number of checks: every check is counted in
      exactly one category. */
  lemma {:induction false} CountsSumToLength(checks: seq<AssetCheck>)
    ensures Total(CountBy(checks)) == |checks|
    decreases |checks|
  {
    if |checks| == 0 {
      SumLookupEmpty(IconsOrdered);
    } else {
      var prefix := checks[..|checks| - 1];
      var t := Classify(checks[|checks| - 1]);
      CountsSumToLength(prefix);
      SumLookupBump(IconsOrdered, CountBy(prefix), t);
      OccursOnce(t);
    }
  }
}
