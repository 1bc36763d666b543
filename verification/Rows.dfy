/** The rows one document has in the database, and what a session works on (app/models, app/db/session.py). */
module Rows {
  import opened Text
  import opened Unmasker

  datatype DocumentStatus =
    | Uploaded | Processing | OcrComplete | Masked | Extracted | Validated | Reviewed | Failed

  datatype TaskStatus = Pending | InReview | Approved | Rejected | Escalated

  datatype Decision = Approve | Reject | Escalate | NeedsCorrection

  datatype RiskLevel = Low | Medium | High | Critical

  datatype RiskRule =
    | LargeTransfer | RoundNumber | HighVelocity | NegativeBalance | HighRiskJurisdiction | UnusualCounterparty

  /** The 1-based number a flag's description names is `transaction + 1`; `term` is the keyword it quotes. */
  datatype Flag = Flag(rule: RiskRule, level: RiskLevel, transaction: Option<nat>, term: Option<string>)

  datatype Assessment = Assessment(level: RiskLevel, flags: seq<Flag>, requiresReview: bool)

  datatype DocumentRow = DocumentRow(status: DocumentStatus, error: Option<string>)

  /** A stored reverse mapping, with the insertion order of its keys. */
  datatype RawMapping = RawMapping(entries: map<string, string>, keys: seq<string>)
  type Mapping = m: RawMapping | Lists(m.keys, m.entries) witness RawMapping(map[], [])

  datatype ExtractionRow = ExtractionRow(data: Json, risk: RiskLevel, flags: seq<Flag>)

  /** A review task with the decisions filed under it, oldest first. */
  datatype TaskRow = TaskRow(status: TaskStatus, decisions: seq<Decision>)

  datatype AuditRow =
    | PipelineAudit(event: string, success: bool, finalStatus: DocumentStatus, errors: seq<string>)
    | ReviewAudit(decision: Decision)

  /** The committed rows of one document. */
  datatype Db = Db(
    document: Option<DocumentRow>,
    mappings: seq<Mapping>,
    extractions: seq<ExtractionRow>,
    tasks: seq<TaskRow>,
    audits: seq<AuditRow>)

  /** What a pipeline session has written and not committed; an unhealthy one can only roll back. */
  datatype Tx = Tx(
    healthy: bool,
    status: DocumentStatus,
    error: Option<string>,
    mapping: Option<Mapping>,
    extraction: Option<ExtractionRow>,
    tasks: seq<TaskRow>,
    audits: seq<AuditRow>)

  function Begin(document: DocumentRow): Tx {
    Tx(true, document.status, None, None, None, [], [])
  }

  function Listed<T>(o: Option<T>): seq<T> {
    match o
    case None => []
    case Some(x) => [x]
  }

  /** The committed rows after a pipeline session's commit. */
  function Committed(db: Db, tx: Tx): Db {
    var error := if tx.error.Some? then tx.error
                 else if db.document.Some? then db.document.value.error
                 else None;
    Db(Some(DocumentRow(tx.status, error)),
       db.mappings + Listed(tx.mapping),
       db.extractions + Listed(tx.extraction),
       db.tasks + tx.tasks,
       db.audits + tx.audits)
  }
}
