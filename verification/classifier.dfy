/** The callback `AssetNodeChecksRow` hands to `countBy`: the display category
    of one check, decided from its latest execution's status and severity. */
module Classifier {
  import opened Wrappers
  import opened AssetChecks
  import opened CheckIcons

  /** Category of one check. A status that is neither FAILED nor
      EXECUTION_FAILED falls through as the category of the same name; the
      result type makes the check that it is a category at all. */
  function Classify(c: AssetCheck): (r: IconType)
    ensures r.OfStatus? <==> StatusOf(c).Some? && !ExcludedStatus(StatusOf(c).value)
    ensures r.OfStatus? ==> StatusOf(c) == Some(r.status)
  {
    var status := StatusOf(c);
    if status.None? then NotEvaluated
    else if status.value == Failed then
      (if SeverityOf(c) == Some(Warn) then WarnIcon else ErrorIcon)
    else if status.value == ExecutionFailed then ErrorIcon
    else OfStatus(status.value)
  }

  /** The classification rules read one at a time, each as a stand-alone
      fact about a check and a category. */
  ghost predicate ClassifiedBy(c: AssetCheck, t: IconType) {
    || (StatusOf(c).None? && t == NotEvaluated)
    || (StatusOf(c) == Some(Failed) && SeverityOf(c) == Some(Warn) && t == WarnIcon)
    || (StatusOf(c) == Some(Failed) && SeverityOf(c) != Some(Warn) && t == ErrorIcon)
    || (StatusOf(c) == Some(ExecutionFailed) && t == ErrorIcon)
    || (StatusOf(c).Some? && t == OfStatus(StatusOf(c).value))
  }

  /** The rules are deterministic and total, and the classifier implements
      exactly them: every check has one category, and it is the classifier's. */
  lemma ClassifyFollowsRules(c: AssetCheck, t: IconType)
    ensures ClassifiedBy(c, t) <==> Classify(c) == t
  {
  }

  /** A check with no execution for the latest materialization, and only
      such a check, is NOT_EVALUATED. */
  lemma NotEvaluatedExactlyWhenNoExecution(c: AssetCheck)
    ensures Classify(c) == NotEvaluated <==> c.executionForLatestMaterialization.None?
  {
  }

  /** A FAILED check is WARN exactly when its evaluation's severity is WARN,
      and ERROR otherwise, an absent evaluation included. */
  lemma FailedBySeverity(c: AssetCheck)
    requires StatusOf(c) == Some(Failed)
    ensures Classify(c) == WarnIcon <==> SeverityOf(c) == Some(Warn)
    ensures Classify(c) == ErrorIcon <==> SeverityOf(c) != Some(Warn)
  {
  }

  /** An EXECUTION_FAILED check is ERROR whatever its severity. */
  lemma ExecutionFailedIsError(c: AssetCheck)
    requires StatusOf(c) == Some(ExecutionFailed)
    ensures Classify(c) == ErrorIcon
    ensures forall ev :: Classify(AssetCheck(Some(Execution(ExecutionFailed, ev)))) == ErrorIcon
  {
  }

  /** WARN comes only from a FAILED check whose severity is WARN; ERROR only
      from a FAILED check without that severity or from EXECUTION_FAILED. */
  lemma WarnAndErrorSources(c: AssetCheck)
    ensures Classify(c) == WarnIcon <==> StatusOf(c) == Some(Failed) && SeverityOf(c) == Some(Warn)
    ensures Classify(c) == ErrorIcon <==>
              (StatusOf(c) == Some(Failed) && SeverityOf(c) != Some(Warn))
              || StatusOf(c) == Some(ExecutionFailed)
  {
  }

  /** IN_PROGRESS, SKIPPED and SUCCEEDED keep their own name, whatever the
      evaluation says. */
  lemma PassThroughStatuses(s: ExecutionStatus, ev: Option<Evaluation>)
    requires !ExcludedStatus(s)
    ensures Classify(AssetCheck(Some(Execution(s, ev)))) == OfStatus(s)
  {
  }

  /** Every one of the six categories is reached by some check. */
  lemma ClassifyOnto(t: IconType)
    ensures exists c: AssetCheck :: Classify(c) == t
  {
    var c: AssetCheck;
    match t {
      case OfStatus(s) => c := AssetCheck(Some(Execution(s, None)));
      case NotEvaluated => c := AssetCheck(None);
      case WarnIcon => c := AssetCheck(Some(Execution(Failed, Some(Evaluation(Warn)))));
      case ErrorIcon => c := AssetCheck(Some(Execution(ExecutionFailed, None)));
    }
    assert Classify(c) == t;
  }
}
