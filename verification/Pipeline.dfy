/**
 The pipeline as it runs: a context and a session that the steps update in place
 (app/pipeline, app/db/session.py, app/tasks/document_tasks.py).
 */
module Pipeline {
  import opened Text
  import opened Unmasker
  import opened Masker
  import opened LeakPatterns
  import opened Rows
  import Risk
  import opened PipelineSpec
  import opened PipelineProperties

  class PipelineContext {
    var ocrText: Option<string>
    var maskedText: Option<string>
    var mappingStored: bool
    var extraction: Option<Json>
    var extractionStored: bool
    var validated: bool
    var risk: Option<Assessment>
    var timed: map<string, int>
    var errors: seq<string>
    var finalStatus: DocumentStatus
    var trace: seq<Event>

    constructor ()
      ensures View() == Context(None, None, false, None, false, false, None, map[], [], Processing, [])
    {
      ocrText, maskedText, mappingStored := None, None, false;
      extraction, extractionStored, validated, risk := None, false, false, None;
      timed, errors, finalStatus, trace := map[], [], Processing, [];
    }

    function View(): Context
      reads this
    {
      Context(ocrText, maskedText, mappingStored, extraction, extractionStored, validated, risk, timed, errors,
              finalStatus, trace)
    }

    method AppendError(step: Step, message: string)
      modifies this`errors
      ensures View() == AddError(old(View()), step, message)
    {
      errors := errors + [Line(step, message)];
    }

    method Replace(payload: Json)
      modifies this`extraction
      ensures View() == old(View()).(extraction := Some(payload))
    {
      extraction := Some(payload);
    }

    method RecordStepDuration(step: Step, duration: int)
      modifies this`timed
      ensures View() == old(View()).(timed := old(timed)[Name(step) := duration])
    {
      timed := timed[Name(step) := duration];
    }

    method Record(event: Event)
      modifies this`trace
      ensures View() == old(View()).(trace := old(trace) + [event])
    {
      trace := trace + [event];
    }
  }

  class AsyncSession {
    var healthy: bool
    var status: DocumentStatus
    var error: Option<string>
    var mapping: Option<Mapping>
    var extraction: Option<ExtractionRow>
    var tasks: seq<TaskRow>
    var audits: seq<AuditRow>

    constructor (document: DocumentRow)
      ensures View() == Begin(document)
    {
      healthy, status, error := true, document.status, None;
      mapping, extraction, tasks, audits := None, None, [], [];
    }

    function View(): Tx
      reads this
    {
      Tx(healthy, status, error, mapping, extraction, tasks, audits)
    }

    /** A database operation of the session: in a session that is lost, or when it fails, it raises. */
    method Perform(call: Call) returns (c: Call)
      modifies this`healthy
      ensures c == Attempted(old(View()), call)
      ensures View() == Touched(old(View()), call)
    {
      if !healthy {
        return Fails(PENDING_ROLLBACK);
      }
      healthy := call.Done?;
      return call;
    }

    /** `DocumentRepository.update_status`. */
    method UpdateDocument(newStatus: DocumentStatus, message: Option<string>, call: Call) returns (c: Call)
      modifies this
      ensures c == Attempted(old(View()), call)
      ensures View() == if c.Done? then old(View()).(status := newStatus,
                                                     error := if message.Some? then message else old(error))
                        else Touched(old(View()), call)
    {
      c := Perform(call);
      if c.Done? {
        status := newStatus;
        if message.Some? {
          error := message;
        }
      }
    }
  }

  function Seen(context: PipelineContext, session: AsyncSession): Run
    reads context, session
  {
    Run(context.View(), session.View())
  }

  /** How a step that has updated context and session ended. */
  function Ended(context: PipelineContext, session: AsyncSession, c: Call): Outcome
    reads context, session
  {
    match c
    case Done => Returned(Seen(context, session))
    case Fails(m) => Threw(Seen(context, session), m)
  }

  // ---------- The steps ----------

  method ExecuteOcr(context: PipelineContext, session: AsyncSession, env: Env) returns (c: Call)
    modifies context
    ensures Ended(context, session, c) == ExecOcr(old(Seen(context, session)), env)
  {
    match env.ocr
    case Raised(m) => return Fails(m);
    case Ok(text) =>
      context.ocrText := Some(text);
      return Done;
  }

  method ExecuteMask(context: PipelineContext, session: AsyncSession, env: Env) returns (c: Call)
    modifies context, session
    ensures Ended(context, session, c) == ExecMask(old(Seen(context, session)), env)
  {
    if context.ocrText.None? {
      return Fails(NO_OCR);
    }
    if env.mask.Raised? {
      return Fails(env.mask.message);
    }
    var (result, mapping) := env.mask.value;
    context.Record(MaskReturned(result.maskedText));
    if !NoLeakage(env.table, result.maskedText) {
      return Fails(LEAKAGE);
    }
    context.maskedText := Some(result.maskedText);
    if mapping.entries == map[] {
      return Done;
    }
    if env.encryptMapping.Fails? {
      return env.encryptMapping;
    }
    c := session.Perform(env.mappingFlush);
    if c.Done? {
      session.mapping := Some(mapping);
      context.mappingStored := true;
    }
  }

  method ExecuteExtract(context: PipelineContext, session: AsyncSession, env: Env) returns (c: Call)
    modifies context, session
    ensures Ended(context, session, c) == ExecExtract(old(Seen(context, session)), env)
  {
    ghost var run := Seen(context, session);
    if context.maskedText.None? {
      assert ExecExtract(run, env) == Noted(run, LlmExtract, NO_MASKING);
      context.AppendError(LlmExtract, NO_MASKING);
      return Done;
    }
    context.Record(ExtractorCalled(context.maskedText.value));
    if env.extract.Raised? {
      return Fails(env.extract.message);
    }
    context.extraction := Some(env.extract.value);
    if env.encryptResponse.Fails? {
      return env.encryptResponse;
    }
    c := session.Perform(env.extractionFlush);
    if c.Done? {
      session.extraction := Some(ExtractionRow(env.extract.value, Low, []));
      context.extractionStored := true;
    }
  }

  method ExecuteUnmask(context: PipelineContext, session: AsyncSession, env: Env) returns (c: Call)
    modifies context, session
    ensures Ended(context, session, c) == ExecUnmask(old(Seen(context, session)), env)
  {
    if context.extraction.None? {
      context.AppendError(Unmask, NO_PAYLOAD);
      return Done;
    }
    if !context.mappingStored {
      return Done;
    }
    c := session.Perform(env.mappingGet);
    if c.Fails? {
      return;
    }
    if session.mapping.None? {
      context.AppendError(Unmask, NO_MAPPING);
      return;
    }
    var mapping := session.mapping.value;
    match env.decrypt {
      case BadKey(m) => return Fails(m);
      case Undecryptable(m) =>
        context.AppendError(Unmask, DECRYPT_FAILED + m);
        return;
      case Decrypted =>
    }
    if !env.schemaKnown {
      context.AppendError(Unmask, NO_SCHEMA);
      return;
    }
    var unmasked := UnmaskStructured(context.extraction.value, mapping.entries, mapping.keys);
    var validated := env.revalidate(unmasked);
    if validated.Raised? {
      context.AppendError(Unmask, REVALIDATE_FAILED + validated.message);
      return;
    }
    c := Rewrite(context, session, validated.value, Unmask, env.unmaskFlush);
  }

  /** The end of the unmask step: context first, then the row. */
  method Rewrite(context: PipelineContext, session: AsyncSession, payload: Json, step: Step, flush: Call)
    returns (c: Call)
    modifies context, session
    ensures Ended(context, session, c) == Rewritten(old(Seen(context, session)), payload, step, flush)
  {
    context.Replace(payload);
    c := RewriteStored(context, session, payload, step, flush);
  }

  method RewriteStored(context: PipelineContext, session: AsyncSession, payload: Json, step: Step, flush: Call)
    returns (c: Call)
    modifies context, session
    ensures Ended(context, session, c) == RowRewritten(old(Seen(context, session)), payload, step, flush)
  {
    ghost var run := Seen(context, session);
    if !context.extractionStored {
      assert RowRewritten(run, payload, step, flush) == Returned(run);
      return Done;
    }
    if session.extraction.None? {
      assert RowRewritten(run, payload, step, flush) == Noted(run, step, NO_ROW);
      context.AppendError(step, NO_ROW);
      return Done;
    }
    c := session.Perform(flush);
    if c.Done? {
      session.extraction := Some(session.extraction.value.(data := payload));
    }
  }

  method ExecuteNormalize(context: PipelineContext, session: AsyncSession, env: Env) returns (c: Call)
    modifies context, session
    ensures Ended(context, session, c) == ExecNormalize(old(Seen(context, session)), env)
  {
    if env.normalize.Raised? {
      return Fails(env.normalize.message);
    }
    if context.extraction.None? {
      return Done;
    }
    c := Rewrite(context, session, env.normalize.value, Normalize, Done);
  }

  method ExecuteValidate(context: PipelineContext, session: AsyncSession, env: Env) returns (c: Call)
    modifies context, session
    ensures Ended(context, session, c) == ExecValidate(old(Seen(context, session)), env)
  {
    if context.extraction.None? || !context.extractionStored {
      context.AppendError(Validate, SKIP_VALIDATION);
      return Done;
    }
    context.validated := true;
    if env.validate.Fails? {
      return env.validate;
    }
    c := session.Perform(env.validateFlush);
  }

  method ExecuteRisk(context: PipelineContext, session: AsyncSession, env: Env) returns (c: Call)
    modifies context, session
    ensures Ended(context, session, c) == ExecRisk(old(Seen(context, session)), env)
  {
    if context.extraction.None? || !context.extractionStored {
      context.AppendError(RiskDetect, SKIP_RISK);
      return Done;
    }
    var assessment, _ := Risk.Detect(env.typed(context.extraction.value), env.setup);
    context.risk := Some(assessment);
    c := session.Perform(env.riskFlush);
    if c.Fails? {
      return;
    }
    if session.extraction.Some? {
      session.extraction := Some(session.extraction.value.(risk := assessment.level, flags := assessment.flags));
    }
    if assessment.requiresReview {
      c := CreateReviewTask(session, env);
    }
  }

  method CreateReviewTask(session: AsyncSession, env: Env) returns (c: Call)
    modifies session
    ensures c == Attempted(old(session.View()), env.reviewFlush)
    ensures session.View() == if c.Done? then old(session.View()).(tasks := old(session.tasks) + [TaskRow(Pending, [])])
                              else Touched(old(session.View()), env.reviewFlush)
  {
    c := session.Perform(env.reviewFlush);
    if c.Done? {
      session.tasks := session.tasks + [TaskRow(Pending, [])];
    }
  }

  method ExecuteStep(step: Step, context: PipelineContext, session: AsyncSession, env: Env) returns (c: Call)
    modifies context, session
    ensures Ended(context, session, c) == Execute(step, old(Seen(context, session)), env)
  {
    match step
    case Ocr => c := ExecuteOcr(context, session, env);
    case PiiMask => c := ExecuteMask(context, session, env);
    case LlmExtract => c := ExecuteExtract(context, session, env);
    case Unmask => c := ExecuteUnmask(context, session, env);
    case Normalize => c := ExecuteNormalize(context, session, env);
    case Validate => c := ExecuteValidate(context, session, env);
    case RiskDetect => c := ExecuteRisk(context, session, env);
  }

  // ---------- The orchestrator ----------

  function Stopped(context: PipelineContext, session: AsyncSession, c: Call): Progress
    reads context, session
  {
    match c
    case Done => Next(Seen(context, session))
    case Fails(m) => Halted(Seen(context, session), m)
  }

  lemma NextRoundIs(k: nat, document: DocumentRow, env: Env, before: Run, after: Progress)
    requires k < |STEPS| && RunTo(k, document, env) == Next(before) && after == Advance(STEPS[k], before, env)
    ensures RunTo(k + 1, document, env) == after
  {}

  class PipelineOrchestrator {
    const session: AsyncSession

    constructor (session: AsyncSession)
      ensures this.session == session
    {
      this.session := session;
    }

    method WriteAuditEvent(context: PipelineContext, success: bool, call: Call)
      modifies session
      ensures Seen(context, session) == WriteAudit(old(Seen(context, session)), success, call)
    {
      var flushed := session.Perform(call);
      if flushed.Done? {
        var event := if success then "pipeline.success" else "pipeline.failure";
        session.audits := session.audits + [PipelineAudit(event, success, context.finalStatus, context.errors)];
      }
    }

    /** The `try` block of one round. */
    method TryStep(step: Step, context: PipelineContext, env: Env) returns (c: Call)
      modifies context, session
      ensures Ended(context, session, c) == AfterStep(step, Execute(step, old(Seen(context, session)), env), env)
    {
      c := ExecuteStep(step, context, session, env);
      if c.Fails? {
        return;
      }
      context.RecordStepDuration(step, env.duration(step));
      var newStatus := StatusAfter(step);
      if newStatus.Some? {
        c := session.UpdateDocument(newStatus.value, None, env.statusUpdate(step));
      }
    }

    /** The critical branch of the exception handler: always raises. */
    method FailDocument(step: Step, context: PipelineContext, message: string, env: Env) returns (c: Call)
      modifies context, session
      ensures Stopped(context, session, c) == Halt(step, old(Seen(context, session)), message, env)
    {
      c := session.UpdateDocument(Failed, Some(FailureText(step, message)), env.failedUpdate);
      if c.Done? {
        context.finalStatus := Failed;
        WriteAuditEvent(context, false, env.auditFlush);
        c := Fails(PipelineError(step, message));
      }
    }

    /** The end of `run`, after the loop. */
    method Conclude(context: PipelineContext, env: Env) returns (c: Call)
      modifies context, session
      ensures Stopped(context, session, c) == Finish(old(Seen(context, session)), env)
    {
      context.finalStatus := FinalStatus(context.View());
      c := session.UpdateDocument(context.finalStatus, None, env.finalUpdate);
      if c.Done? {
        WriteAuditEvent(context, context.finalStatus != Failed, env.auditFlush);
      }
    }

    /** One round of the loop over the steps. */
    method Round(step: Step, context: PipelineContext, env: Env) returns (c: Call)
      modifies context, session
      ensures Stopped(context, session, c) == Advance(step, old(Seen(context, session)), env)
    {
      context.Record(Began(step));
      c := TryStep(step, context, env);
      if c.Fails? {
        context.AppendError(step, c.message);
        if IsCritical(step) {
          c := FailDocument(step, context, c.message, env);
        } else {
          c := Done;
        }
      }
    }

    method RoundAt(k: nat, document: DocumentRow, context: PipelineContext, env: Env) returns (c: Call)
      requires k < |STEPS| && RunTo(k, document, env) == Next(Seen(context, session))
      modifies context, session
      ensures Stopped(context, session, c) == RunTo(k + 1, document, env)
    {
      ghost var before := Seen(context, session);
      c := Round(STEPS[k], context, env);
      NextRoundIs(k, document, env, before, Stopped(context, session, c));
    }

    /** The loop over the steps. */
    method RunSteps(document: DocumentRow, context: PipelineContext, env: Env) returns (c: Call)
      requires Seen(context, session) == Start(document)
      modifies context, session
      ensures Stopped(context, session, c) == RunTo(|STEPS|, document, env)
    {
      c := Done;
      for k := 0 to |STEPS|
        invariant c.Done? && RunTo(k, document, env) == Next(Seen(context, session))
      {
        c := RoundAt(k, document, context, env);
        if c.Fails? {
          HaltedForGood(k + 1, document, env);
          return;
        }
      }
    }

    method Run(document: DocumentRow, env: Env) returns (context: PipelineContext, c: Call)
      requires session.View() == Begin(document)
      modifies session
      ensures fresh(context) && Stopped(context, session, c) == PipelineSpec.Pipeline(document, env)
    {
      context := new PipelineContext();
      c := RunSteps(document, context, env);
      if c.Done? {
        c := Conclude(context, env);
      }
    }
  }

  // ---------- Sessions and the Celery task ----------

  /** One run in a session of its own. */
  method RunInSession(document: DocumentRow, env: Env)
    returns (context: PipelineContext, session: AsyncSession, c: Call)
    ensures fresh(context) && fresh(session)
    ensures Stopped(context, session, c) == PipelineSpec.Pipeline(document, env)
  {
    session := new AsyncSession(document);
    var orchestrator := new PipelineOrchestrator(session);
    context, c := orchestrator.Run(document, env);
  }

  class Database {
    var rows: Db

    /** `_run_pipeline` inside `get_async_session`: commit on a normal return, roll back when an exception escapes. */
    method RunPipeline(env: Env) returns (result: Result<DocumentStatus>)
      modifies this
      ensures (rows, result) == Attempt(old(rows), env)
    {
      if rows.document.None? {
        return Raised(NOT_FOUND);
      }
      var context, session, c := RunInSession(rows.document.value, Constrained(env, rows.mappings != []));
      AttemptEnds(rows, env, Stopped(context, session, c));
      if c.Fails? {
        return Raised(c.message);
      }
      c := session.Perform(env.commit);
      if c.Fails? {
        return Raised(c.message);
      }
      rows := Committed(rows, session.View());
      return Ok(context.finalStatus);
    }
  }

  /** How an attempt ends once its run has. */
  lemma AttemptEnds(db: Db, env: Env, p: Progress)
    requires db.document.Some? && p == PipelineSpec.Pipeline(db.document.value, Constrained(env, db.mappings != []))
    ensures Attempt(db, env) ==
            match p
            case Halted(_, m) => (db, Raised(m))
            case Next(r) =>
              if Attempted(r.tx, env.commit).Fails? then (db, Raised(Attempted(r.tx, env.commit).message))
              else (Committed(db, r.tx), Result.Ok(r.ctx.finalStatus))
  {}

  const MAX_RETRIES := 3

  /** The first position, from k on, whose element passes. */
  function FirstWhere<T>(xs: seq<T>, passes: T -> bool, k: nat): (n: nat)
    requires k <= |xs|
    ensures k <= n <= |xs|
    ensures forall i | k <= i < n :: !passes(xs[i])
    ensures n < |xs| ==> passes(xs[n])
    decreases |xs| - k
  {
    if k == |xs| || passes(xs[k]) then k else FirstWhere(xs, passes, k + 1)
  }

  /** The first attempt that would return normally from the given rows. */
  function FirstSuccess(db: Db, envs: seq<Env>): (n: nat)
    ensures n <= |envs|
  {
    FirstWhere(envs, env => Attempt(db, env).1.Ok?, 0)
  }

  /**
   `process_document`: an attempt that raises is retried up to three times. Failed attempts leave no trace, so
   the outcome is that of the first successful attempt alone, or nothing at all.
   */
  method ProcessDocument(database: Database, envs: seq<Env>) returns (result: Result<DocumentStatus>)
    requires |envs| == 4
    modifies database
    ensures var k, before := FirstSuccess(old(database.rows), envs), old(database.rows);
            if k < |envs| then (database.rows, result) == Attempt(before, envs[k])
            else database.rows == before && result.Raised?
  {
    ghost var before := database.rows;
    ghost var succeeds := (env: Env) => Attempt(before, env).1.Ok?;
    result := database.RunPipeline(envs[0]);
    var retries := 0;
    while result.Raised? && retries < MAX_RETRIES
      invariant retries <= MAX_RETRIES && (database.rows, result) == Attempt(before, envs[retries])
      invariant FirstWhere(envs, succeeds, 0) == FirstWhere(envs, succeeds, retries)
    {
      RaisedLeavesRows(before, envs[retries]);
      retries := retries + 1;
      result := database.RunPipeline(envs[retries]);
    }
    if result.Raised? {
      RaisedLeavesRows(before, envs[retries]);
    }
  }

  /** An attempt an exception escapes from changes nothing, whatever its session had written before. */
  lemma RaisedLeavesRows(db: Db, env: Env)
    requires Attempt(db, env).1.Raised?
    ensures Attempt(db, env).0 == db
  {}
}
