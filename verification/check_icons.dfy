/** The display categories of a check (`AssetCheckIconType`) and their fixed
    left-to-right priority (`AssetCheckIconsOrdered`). */
module CheckIcons {
  import opened AssetChecks

  /** The union `Exclude<Status, FAILED | EXECUTION_FAILED> | 'NOT_EVALUATED'
      | 'WARN' | 'ERROR'` before the exclusion is applied. */
  datatype IconCategory = OfStatus(status: ExecutionStatus) | NotEvaluated | WarnIcon | ErrorIcon

  /** The two statuses that never name a category of their own. */
  predicate ExcludedStatus(s: ExecutionStatus) {
    s == Failed || s == ExecutionFailed
  }

  /** `AssetCheckIconType`: six values. */
  type IconType = t: IconCategory | !(t.OfStatus? && ExcludedStatus(t.status)) witness NotEvaluated

  const InProgressIcon: IconType := OfStatus(InProgress)
  const SkippedIcon: IconType := OfStatus(Skipped)
  const SucceededIcon: IconType := OfStatus(Succeeded)

  /** The order of `AssetCheckIconsOrdered`; the icon contents are presentation. */
  const IconsOrdered: seq<IconType> :=
    [InProgressIcon, NotEvaluated, ErrorIcon, WarnIcon, SkippedIcon, SucceededIcon]

  /** Position of a category in the priority table, written out per category;
      the table and this rank are inverse to each other. */
  function Rank(t: IconType): (r: nat)
    ensures r < |IconsOrdered| && IconsOrdered[r] == t
  {
    match t
    case OfStatus(s) => if s == InProgress then 0 else if s == Skipped then 4 else 5
    case NotEvaluated => 1
    case ErrorIcon => 2
    case WarnIcon => 3
  }

  /** The table lists every category exactly once, at the position its rank
      names: it is a total order over `AssetCheckIconType`. */
  lemma IconsOrderedIsRanking()
    ensures |IconsOrdered| == 6
    ensures forall i :: 0 <= i < |IconsOrdered| ==> Rank(IconsOrdered[i]) == i
    ensures forall t: IconType :: t in IconsOrdered
  {
    forall t: IconType
      ensures t in IconsOrdered
    {
      assert IconsOrdered[Rank(t)] == t;
    }
  }
}
