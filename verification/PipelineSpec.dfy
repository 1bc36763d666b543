/** What one pipeline run does to its context and its session, step by step, as functions on values. */
module PipelineSpec {
  import opened Text
  import opened Unmasker
  import opened Masker
  import opened LeakPatterns
  import opened Rows
  import Risk

  datatype Step = Ocr | PiiMask | LlmExtract | Unmask | Normalize | Validate | RiskDetect

  /** The hardcoded order. */
  const STEPS: seq<Step> := [Ocr, PiiMask, LlmExtract, Unmask, Normalize, Validate, RiskDetect]

  predicate IsCritical(step: Step) {
    step.Ocr? || step.PiiMask?
  }

  function Name(step: Step): string {
    match step
    case Ocr => "ocr"
    case PiiMask => "pii_mask"
    case LlmExtract => "llm_extract"
    case Unmask => "unmask"
    case Normalize => "normalize"
    case Validate => "validate"
    case RiskDetect => "risk_detect"
  }

  function StatusAfter(step: Step): Option<DocumentStatus> {
    match step
    case Ocr => Some(OcrComplete)
    case PiiMask => Some(DocumentStatus.Masked)
    case LlmExtract => Some(Extracted)
    case Validate => Some(Validated)
    case RiskDetect => Some(Validated)
    case _ => None
  }

  /** The calls out of the pipeline that the properties are about, in the order they happen. */
  datatype Event =
    | Began(step: Step)
    | MaskReturned(text: string)
    | ExtractorCalled(text: string)

  datatype Context = Context(
    ocrText: Option<string>,
    maskedText: Option<string>,
    mappingStored: bool,
    extraction: Option<Json>,
    extractionStored: bool,
    validated: bool,
    risk: Option<Assessment>,
    timed: map<string, int>,
    errors: seq<string>,
    finalStatus: DocumentStatus,
    trace: seq<Event>)

  datatype Run = Run(ctx: Context, tx: Tx)

  function Start(document: DocumentRow): Run {
    Run(Context(None, None, false, None, false, false, None, map[], [], Processing, []), Begin(document))
  }

  /** A call that gives nothing back, or raises. */
  datatype Call = Done | Fails(message: string)

  datatype Decryption =
    | Decrypted
    | Undecryptable(reason: string) // PIIDecryptionError, or text that is no JSON: caught by the step
    | BadKey(reason: string)        // any other exception: leaves the step

  /** Everything one run meets outside the code: results of foreign calls, and which database operations fail. */
  datatype Env = Env(
    table: Table,
    ocr: Result<string>,
    mask: Result<(MaskingResult, Mapping)>,
    encryptMapping: Call,
    mappingFlush: Call,
    extract: Result<Json>,
    encryptResponse: Call,
    extractionFlush: Call,
    mappingGet: Call,
    decrypt: Decryption,
    schemaKnown: bool,
    revalidate: Json -> Result<Json>,
    unmaskFlush: Call,
    normalize: Result<Json>,
    validate: Call,
    validateFlush: Call,
    typed: Json -> Risk.Payload, // the payload as the risk rules read it
    setup: Risk.Setup,
    riskFlush: Call,
    reviewFlush: Call,
    duration: Step -> int,
    statusUpdate: Step -> Call,
    failedUpdate: Call,
    finalUpdate: Call,
    auditFlush: Call,
    commit: Call)

  const PENDING_ROLLBACK := "This Session's transaction has been rolled back due to a previous exception during flush"

  /** How a database operation ends in a session: after one failure nothing works any more. */
  function Attempted(tx: Tx, call: Call): Call {
    if tx.healthy then call else Fails(PENDING_ROLLBACK)
  }

  function Touched(tx: Tx, call: Call): Tx {
    tx.(healthy := tx.healthy && call.Done?)
  }

  datatype Outcome = Returned(run: Run) | Threw(run: Run, message: string)

  function Line(step: Step, message: string): string {
    "[" + Name(step) + "] " + message
  }

  function AddError(ctx: Context, step: Step, message: string): Context {
    ctx.(errors := ctx.errors + [Line(step, message)])
  }

  function Noted(run: Run, step: Step, message: string): Outcome {
    Returned(run.(ctx := AddError(run.ctx, step, message)))
  }

  /** A database operation that, when it works, leaves the run as `done`. */
  function Store(run: Run, call: Call, done: Run): Outcome {
    if Attempted(run.tx, call).Fails? then Threw(run.(tx := Touched(run.tx, call)), Attempted(run.tx, call).message)
    else Returned(done)
  }

  const NO_OCR := "OCR result is missing \U{2014} cannot mask PII"
  const LEAKAGE := "PII leakage detected after masking \U{2014} aborting pipeline"
  const NO_MASKING := "Masking result missing \U{2014} skipping LLM extraction"
  const NO_PAYLOAD := "Extraction result missing \U{2014} skipping unmask"
  const NO_MAPPING := "PIIMapping not found"
  const NO_SCHEMA := "No extraction schema for document type"
  const NO_ROW := "ExtractionResult not found"
  const SKIPPING := "No extraction result \U{2014} skipping "
  const SKIP_VALIDATION := SKIPPING + "validation"
  const SKIP_RISK := SKIPPING + "risk detection"
  const DECRYPT_FAILED := "Failed to decrypt PII mapping: "
  const REVALIDATE_FAILED := "Unmasked payload failed schema re-validation: "

  // ---------- The steps ----------

  function ExecOcr(run: Run, env: Env): Outcome {
    match env.ocr
    case Raised(m) => Threw(run, m)
    case Ok(text) => Returned(run.(ctx := run.ctx.(ocrText := Some(text))))
  }

  function ExecMask(run: Run, env: Env): Outcome {
    if run.ctx.ocrText.None? then Threw(run, NO_OCR)
    else match env.mask
      case Raised(m) => Threw(run, m)
      case Ok((result, mapping)) =>
        var asked := run.(ctx := run.ctx.(trace := run.ctx.trace + [MaskReturned(result.maskedText)]));
        if !NoLeakage(env.table, result.maskedText) then
          Threw(asked, LEAKAGE)
        else
          var masked := asked.(ctx := asked.ctx.(maskedText := Some(result.maskedText)));
          if mapping.entries == map[] then Returned(masked)
          else if env.encryptMapping.Fails? then Threw(masked, env.encryptMapping.message)
          else Store(masked, env.mappingFlush,
                     Run(masked.ctx.(mappingStored := true), masked.tx.(mapping := Some(mapping))))
  }

  function ExecExtract(run: Run, env: Env): Outcome {
    if run.ctx.maskedText.None? then
      Noted(run, LlmExtract, NO_MASKING)
    else
      var called := run.(ctx := run.ctx.(trace := run.ctx.trace + [ExtractorCalled(run.ctx.maskedText.value)]));
      match env.extract
      case Raised(m) => Threw(called, m)
      case Ok(payload) =>
        var extracted := called.(ctx := called.ctx.(extraction := Some(payload)));
        if env.encryptResponse.Fails? then Threw(extracted, env.encryptResponse.message)
        else Store(extracted, env.extractionFlush,
                   Run(extracted.ctx.(extractionStored := true),
                       extracted.tx.(extraction := Some(ExtractionRow(payload, Low, [])))))
  }

  function ExecUnmask(run: Run, env: Env): Outcome {
    if run.ctx.extraction.None? then
      Noted(run, Unmask, NO_PAYLOAD)
    else if !run.ctx.mappingStored then Returned(run)
    else if Attempted(run.tx, env.mappingGet).Fails? then Store(run, env.mappingGet, run)
    else if run.tx.mapping.None? then Noted(run, Unmask, NO_MAPPING)
    else match env.decrypt
      case BadKey(m) => Threw(run, m)
      case Undecryptable(m) => Noted(run, Unmask, DECRYPT_FAILED + m)
      case Decrypted =>
        if !env.schemaKnown then Noted(run, Unmask, NO_SCHEMA)
        else
          var mapping := run.tx.mapping.value;
          match env.revalidate(UnmaskTree(run.ctx.extraction.value, mapping.entries, mapping.keys))
          case Raised(m) => Noted(run, Unmask, REVALIDATE_FAILED + m)
          case Ok(payload) => Rewritten(run, payload, Unmask, env.unmaskFlush)
  }

  /** The context gets the new payload at once; the row, if there is one, with the flush. */
  function Rewritten(run: Run, payload: Json, step: Step, flush: Call): Outcome {
    RowRewritten(run.(ctx := run.ctx.(extraction := Some(payload))), payload, step, flush)
  }

  function RowRewritten(run: Run, payload: Json, step: Step, flush: Call): Outcome {
    if !run.ctx.extractionStored then Returned(run)
    else if run.tx.extraction.None? then Noted(run, step, NO_ROW)
    else Store(run, flush,
               run.(tx := run.tx.(extraction := Some(run.tx.extraction.value.(data := payload)))))
  }

  /** All that is assumed of this step: it may raise, or it rewrites the payload and its row together. */
  function ExecNormalize(run: Run, env: Env): Outcome {
    match env.normalize
    case Raised(m) => Threw(run, m)
    case Ok(payload) =>
      if run.ctx.extraction.None? then Returned(run) else Rewritten(run, payload, Normalize, Done)
  }

  function ExecValidate(run: Run, env: Env): Outcome {
    if run.ctx.extraction.None? || !run.ctx.extractionStored then
      Noted(run, Validate, SKIP_VALIDATION)
    else
      var checked := run.(ctx := run.ctx.(validated := true));
      if env.validate.Fails? then Threw(checked, env.validate.message)
      else Store(checked, env.validateFlush, checked)
  }

  /** What the risk detector makes of a payload: it catches what its rules raise, and returns. */
  function Detected(payload: Json, env: Env): Assessment {
    Risk.Assess(Risk.Flags(env.typed(payload), env.setup))
  }

  function ExecRisk(run: Run, env: Env): Outcome {
    if run.ctx.extraction.None? || !run.ctx.extractionStored then
      Noted(run, RiskDetect, SKIP_RISK)
    else
      var assessment := Detected(run.ctx.extraction.value, env);
      var assessed := run.(ctx := run.ctx.(risk := Some(assessment)));
      if Attempted(assessed.tx, env.riskFlush).Fails? then Store(assessed, env.riskFlush, assessed)
      else
        var row := match assessed.tx.extraction
          case None => None
          case Some(r) => Some(r.(risk := assessment.level, flags := assessment.flags));
        var recorded := assessed.(tx := assessed.tx.(extraction := row));
        if !assessment.requiresReview then Returned(recorded)
        else Store(recorded, env.reviewFlush,
                   recorded.(tx := recorded.tx.(tasks := recorded.tx.tasks + [TaskRow(Pending, [])])))
  }

  function Execute(step: Step, run: Run, env: Env): Outcome {
    match step
    case Ocr => ExecOcr(run, env)
    case PiiMask => ExecMask(run, env)
    case LlmExtract => ExecExtract(run, env)
    case Unmask => ExecUnmask(run, env)
    case Normalize => ExecNormalize(run, env)
    case Validate => ExecValidate(run, env)
    case RiskDetect => ExecRisk(run, env)
  }

  // ---------- The orchestrator ----------

  function UpdateStatus(run: Run, status: DocumentStatus, error: Option<string>, call: Call): Outcome {
    Store(run, call,
          run.(tx := run.tx.(status := status, error := if error.Some? then error else run.tx.error)))
  }

  /** The audit row; a failing flush is swallowed, but the session is lost. */
  function WriteAudit(run: Run, success: bool, call: Call): Run {
    if Attempted(run.tx, call).Fails? then run.(tx := Touched(run.tx, call))
    else
      var row := PipelineAudit(if success then "pipeline.success" else "pipeline.failure", success,
                          run.ctx.finalStatus, run.ctx.errors);
      run.(tx := run.tx.(audits := run.tx.audits + [row]))
  }

  /** Where the loop stands after a step: it goes on, or an exception leaves `run`. */
  datatype Progress = Next(run: Run) | Halted(run: Run, message: string)

  function Begun(run: Run, step: Step): Run {
    run.(ctx := run.ctx.(trace := run.ctx.trace + [Began(step)]))
  }

  /** The body of the loop over the steps. */
  function Advance(step: Step, run: Run, env: Env): Progress {
    match AfterStep(step, Execute(step, Begun(run, step), env), env)
    case Returned(r) => Next(r)
    case Threw(r, m) =>
      var noted := r.(ctx := AddError(r.ctx, step, m));
      if IsCritical(step) then Halt(step, noted, m, env) else Next(noted)
  }

  /** The rest of the `try` block: timing and status. */
  function AfterStep(step: Step, outcome: Outcome, env: Env): Outcome {
    match outcome
    case Threw(_, _) => outcome
    case Returned(r) =>
      var timed := r.(ctx := r.ctx.(timed := r.ctx.timed[Name(step) := env.duration(step)]));
      match StatusAfter(step)
      case None => Returned(timed)
      case Some(status) => UpdateStatus(timed, status, None, env.statusUpdate(step))
  }

  /** The error message of a failed document, and that of the exception. */
  function FailureText(step: Step, m: string): string {
    "Step '" + Name(step) + "' failed: " + m
  }

  function PipelineError(step: Step, m: string): string {
    "Pipeline step '" + Name(step) + "' failed: " + m
  }

  /** A critical failure: mark the document failed, audit, and raise. */
  function Halt(step: Step, run: Run, m: string, env: Env): Progress {
    match UpdateStatus(run, Failed, Some(FailureText(step, m)), env.failedUpdate)
    case Threw(r, m') => Halted(r, m')
    case Returned(r) =>
      var failed := r.(ctx := r.ctx.(finalStatus := Failed));
      Halted(WriteAudit(failed, false, env.auditFlush), PipelineError(step, m))
  }

  function GoOn(p: Progress, step: Step, env: Env): Progress {
    match p
    case Halted(r, m) => Halted(r, m)
    case Next(r) => Advance(step, r, env)
  }

  /** Where the loop stands after its first k rounds. */
  function RunTo(k: nat, document: DocumentRow, env: Env): Progress
    requires k <= |STEPS|
  {
    if k == 0 then Next(Start(document)) else GoOn(RunTo(k - 1, document, env), STEPS[k - 1], env)
  }

  predicate HasErrors(errors: seq<string>) {
    exists i | 0 <= i < |errors| :: Contains(Lower(errors[i]), "failed")
  }

  function FinalStatus(ctx: Context): DocumentStatus {
    if HasErrors(ctx.errors) || ctx.extraction.None? then Failed
    else if ctx.risk.Some? && ctx.risk.value.requiresReview then Validated
    else Reviewed
  }

  /** After the loop: final status, its update, the audit row. */
  function Finish(run: Run, env: Env): Progress {
    var status := FinalStatus(run.ctx);
    var closed := run.(ctx := run.ctx.(finalStatus := status));
    match UpdateStatus(closed, status, None, env.finalUpdate)
    case Threw(r, m) => Halted(r, m)
    case Returned(r) => Next(WriteAudit(r, status != Failed, env.auditFlush))
  }

  /** `PipelineOrchestrator.run` on a document that exists. */
  function Pipeline(document: DocumentRow, env: Env): Progress {
    match RunTo(|STEPS|, document, env)
    case Halted(r, m) => Halted(r, m)
    case Next(r) => Finish(r, env)
  }

  const UNIQUE_VIOLATION := "duplicate key value violates unique constraint uq_pii_mapping_document"

  /** The unique constraint: with a mapping row in the table, inserting another one fails. */
  function Constrained(env: Env, taken: bool): Env {
    if taken && env.mappingFlush.Done? then env.(mappingFlush := Fails(UNIQUE_VIOLATION)) else env
  }

  const NOT_FOUND := "Pipeline step 'orchestrator' failed: Document not found"

  /** One attempt in a session of its own: commit on a normal return, roll back on any exception. */
  function Attempt(db: Db, env: Env): (Db, Result<DocumentStatus>) {
    if db.document.None? then (db, Raised(NOT_FOUND))
    else match Pipeline(db.document.value, Constrained(env, db.mappings != []))
      case Halted(_, m) => (db, Raised(m))
      case Next(r) =>
        if Attempted(r.tx, env.commit).Fails? then (db, Raised(Attempted(r.tx, env.commit).message))
        else (Committed(db, r.tx), Ok(r.ctx.finalStatus))
  }
}
