/** The live data an asset-graph node receives about its asset checks: for
    each check, the execution for the asset's latest materialization, if any,
    with its resolved status and, once evaluated, the evaluation's severity. */
module AssetChecks {
  import opened Wrappers

  /** The GraphQL enum `AssetCheckExecutionResolvedStatus`. */
  datatype ExecutionStatus = InProgress | Succeeded | Failed | ExecutionFailed | Skipped

  /** The GraphQL enum `AssetCheckSeverity`. */
  datatype Severity = Warn | Error

  datatype Evaluation = Evaluation(severity: Severity)

  datatype Execution = Execution(status: ExecutionStatus, evaluation: Option<Evaluation>)

  /** One check of the asset; `None` when the check has not run against the
      latest materialization. */
  datatype AssetCheck = AssetCheck(executionForLatestMaterialization: Option<Execution>)

  /** The part of a node's live data this model reads. */
  datatype LiveData = LiveData(assetChecks: seq<AssetCheck>)

  /** `c.executionForLatestMaterialization?.status` */
  function StatusOf(c: AssetCheck): Option<ExecutionStatus> {
    match c.executionForLatestMaterialization
    case None => None
    case Some(e) => Some(e.status)
  }

  /** `c.executionForLatestMaterialization?.evaluation?.severity` */
  function SeverityOf(c: AssetCheck): Option<Severity> {
    match c.executionForLatestMaterialization
    case None => None
    case Some(e) =>
      match e.evaluation
      case None => None
      case Some(ev) => Some(ev.severity)
  }
}
