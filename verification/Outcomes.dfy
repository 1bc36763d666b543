/**
 How a committed run ends, in the words it leaves behind: the error lines of its audit row and what they make of the
 document (app/pipeline/orchestrator.py, app/pipeline/steps).
 */
module Outcomes {
  import opened Text
  import opened Unmasker
  import opened Masker
  import opened Rows
  import opened PipelineSpec
  import opened PipelineProperties

  // ---------- The lines ----------

  const UNDECRYPTED := "Failed to decrypt PII mapping: "
  const UNFIT := "Unmasked payload failed schema re-validation: "

  /** The line of an extractor that raised, or of a response that could not be encrypted. */
  function ExtractLines(env: Env): seq<string> {
    if env.extract.Raised? then ["[llm_extract] " + env.extract.message]
    else if env.encryptResponse.Fails? then ["[llm_extract] " + env.encryptResponse.message]
    else []
  }

  /** What the mapping leads the extractor's payload back to. */
  function Unmasking(env: Env): Result<Json>
    requires env.extract.Ok? && env.mask.Ok?
  {
    env.revalidate(UnmaskTree(env.extract.value, env.mask.value.1.entries, env.mask.value.1.keys))
  }

  function UnmaskLines(env: Env): seq<string> {
    if env.extract.Raised? then ["[unmask] " + "Extraction result missing \U{2014} skipping unmask"]
    else if env.mask.Raised? || env.mask.value.1.entries == map[] then []
    else if env.decrypt.BadKey? then ["[unmask] " + env.decrypt.reason]
    else if env.decrypt.Undecryptable? then ["[unmask] " + (UNDECRYPTED + env.decrypt.reason)]
    else if !env.schemaKnown then ["[unmask] " + "No extraction schema for document type"]
    else if Unmasking(env).Raised? then
      ["[unmask] " + (UNFIT + Unmasking(env).message)]
    else []
  }

  function NormalizeLines(env: Env): seq<string> {
    if env.normalize.Raised? then ["[normalize] " + env.normalize.message] else []
  }

  predicate Stored(env: Env) {
    env.extract.Ok? && env.encryptResponse.Done?
  }

  function ValidateLines(env: Env): seq<string> {
    if !Stored(env) then ["[validate] " + ("No extraction result \U{2014} skipping " + "validation")]
    else if env.validate.Fails? then ["[validate] " + env.validate.message]
    else []
  }

  function RiskLines(env: Env): seq<string> {
    if !Stored(env) then ["[risk_detect] " + ("No extraction result \U{2014} skipping " + "risk detection")] else []
  }

  lemma StepIsNamed(step: Step, message: string)
    ensures step == LlmExtract ==> Line(step, message) == "[llm_extract] " + message
    ensures step == Unmask ==> Line(step, message) == "[unmask] " + message
    ensures step == Normalize ==> Line(step, message) == "[normalize] " + message
    ensures step == Validate ==> Line(step, message) == "[validate] " + message
    ensures step == RiskDetect ==> Line(step, message) == "[risk_detect] " + message
  {
    assert "[" + "llm_extract" + "] " == "[llm_extract] ";
    assert "[" + "unmask" + "] " == "[unmask] ";
    assert "[" + "normalize" + "] " == "[normalize] ";
    assert "[" + "validate" + "] " == "[validate] ";
    assert "[" + "risk_detect" + "] " == "[risk_detect] ";
  }

  lemma ExtractSays(env: Env)
    ensures StepErrors(LlmExtract, env) == ExtractLines(env)
  {
    if env.extract.Raised? {
      StepIsNamed(LlmExtract, env.extract.message);
    } else if env.encryptResponse.Fails? {
      StepIsNamed(LlmExtract, env.encryptResponse.message);
    }
  }

  lemma UnmaskSays(env: Env)
    ensures StepErrors(Unmask, env) == UnmaskLines(env)
  {
    if env.extract.Raised? {
      StepIsNamed(Unmask, NO_PAYLOAD);
    } else if env.decrypt.BadKey? {
      StepIsNamed(Unmask, env.decrypt.reason);
    } else if env.decrypt.Undecryptable? {
      StepIsNamed(Unmask, DECRYPT_FAILED + env.decrypt.reason);
    } else if !env.schemaKnown {
      StepIsNamed(Unmask, NO_SCHEMA);
    } else if env.mask.Ok? && Unmasking(env).Raised? {
      StepIsNamed(Unmask, REVALIDATE_FAILED + Unmasking(env).message);
    }
  }

  lemma LateSays(env: Env)
    ensures StepErrors(Normalize, env) == NormalizeLines(env)
    ensures StepErrors(Validate, env) == ValidateLines(env)
    ensures StepErrors(RiskDetect, env) == RiskLines(env)
  {
    StepIsNamed(Normalize, if env.normalize.Raised? then env.normalize.message else "");
    StepIsNamed(Validate, SKIP_VALIDATION);
    StepIsNamed(Validate, if env.validate.Fails? then env.validate.message else "");
    StepIsNamed(RiskDetect, SKIP_RISK);
  }

  lemma LinesToUnmask(env: Env, a: seq<string>, b: seq<string>)
    requires StepErrors(LlmExtract, env) == a && StepErrors(Unmask, env) == b
    ensures ErrorsTo(4, env) == a + b
  {
    NoErrorsYet(0, Ocr, env, []);
    NoErrorsYet(1, PiiMask, env, []);
    NextErrors(2, LlmExtract, env, [], a);
    assert [] + a == a;
    NextErrors(3, Unmask, env, a, b);
  }

  /** Five steps can leave a line behind, each at most one, in this order. */
  lemma LinesAre(env: Env)
    ensures ErrorsTo(|STEPS|, env) ==
            ExtractLines(env) + UnmaskLines(env) + NormalizeLines(env) + ValidateLines(env) + RiskLines(env)
  {
    ExtractSays(env);
    UnmaskSays(env);
    LateSays(env);
    var early, n, v, r := ExtractLines(env) + UnmaskLines(env), NormalizeLines(env), ValidateLines(env), RiskLines(env);
    LinesToUnmask(env, ExtractLines(env), UnmaskLines(env));
    NextErrors(4, Normalize, env, early, n);
    NextErrors(5, Validate, env, early + n, v);
    NextErrors(6, RiskDetect, env, early + n + v, r);
  }

  // ---------- The status ----------

  /** The attempt returns the status and leaves these rows. */
  ghost predicate Commits(db: Db, env: Env, db': Db, status: DocumentStatus) {
    Attempt(db, env) == (db', Ok(status))
  }

  lemma CommitAdds(db: Db, env: Env, db': Db, status: DocumentStatus)
    requires Commits(db, env, db', status)
    ensures CommittedBy(db, env, db', status)
  {
    AttemptCommits(db, env);
  }

  /**
   A committed attempt adds one audit row. The document has failed exactly if the extractor raised or a line of that row
   says "failed"; and status, event and success of the row go with it.
   */
  lemma FailsIff(db: Db, env: Env, db': Db, status: DocumentStatus) returns (lines: seq<string>)
    requires Commits(db, env, db', status)
    ensures db'.document.Some? && db'.document.value.status == status
    ensures db'.audits == db.audits + [if status == Failed
                                       then PipelineAudit("pipeline.failure", false, Failed, lines)
                                       else PipelineAudit("pipeline.success", true, status, lines)]
    ensures status == Failed <==> env.extract.Raised? || exists i | 0 <= i < |lines| :: SaysFailed(lines[i])
    ensures lines == ExtractLines(env) + UnmaskLines(env) + NormalizeLines(env) + ValidateLines(env) + RiskLines(env)
  {
    lines := ErrorsTo(|STEPS|, env);
    CommitAdds(db, env, db', status);
    LinesAre(env);
  }

  /** A line stands among the others where its step comes. */
  lemma LineAmong(all: seq<string>, a: seq<string>, line: string, n: seq<string>, v: seq<string>, r: seq<string>)
    requires all == a + [line] + n + v + r && SaysFailed(line)
    ensures SomeSayFailed(all)
  {
    assert all[|a|] == line;
  }

  lemma MentionKept(a: string, x: string, b: string)
    requires SaysFailed(x)
    ensures SaysFailed(a + (x + b))
  {
    var i: nat :| i < |x| && FailedAt(x, i);
    var s := a + (x + b);
    assert forall k | 0 <= k < |x| :: s[|a| + k] == x[k];
    assert FailedAt(s, |a| + i);
  }

  lemma DecryptSaysFailed()
    ensures SaysFailed(UNDECRYPTED)
  {
    var s := "Failed to decrypt PII mapping: ";
    assert |s| == 31 && s[0] == 'F' && s[1] == 'a' && s[2] == 'i' && s[3] == 'l' && s[4] == 'e' && s[5] == 'd';
    assert FailedAt(s, 0);
  }

  lemma SchemaSaysFailed()
    ensures SaysFailed(UNFIT)
  {
    var s := "Unmasked payload failed schema re-validation: ";
    assert |s| == 46;
    assert s[17] == 'f' && s[18] == 'a' && s[19] == 'i' && s[20] == 'l' && s[21] == 'e' && s[22] == 'd';
    assert FailedAt(s, 17);
  }

  lemma UnmaskLineFails(env: Env, message: string, reason: string)
    requires UnmaskLines(env) == ["[unmask] " + (message + reason)] && SaysFailed(message)
    ensures SomeSayFailed(ErrorsTo(|STEPS|, env))
  {
    var line := "[unmask] " + (message + reason);
    MentionKept("[unmask] ", message, reason);
    LinesAre(env);
    LineAmong(ErrorsTo(|STEPS|, env), ExtractLines(env), line,
              NormalizeLines(env), ValidateLines(env), RiskLines(env));
  }

  lemma UndecryptableSays(env: Env)
    requires env.extract.Ok? && env.mask.Ok? && env.mask.value.1.entries != map[] && env.decrypt.Undecryptable?
    ensures SomeSayFailed(ErrorsTo(|STEPS|, env))
  {
    DecryptSaysFailed();
    UnmaskLineFails(env, UNDECRYPTED, env.decrypt.reason);
  }

  lemma RevalidationLine(env: Env, reason: string)
    requires env.extract.Ok? && env.mask.Ok? && env.mask.value.1.entries != map[]
    requires env.decrypt.Decrypted? && env.schemaKnown && Unmasking(env) == Raised(reason)
    ensures UnmaskLines(env) == ["[unmask] " + (UNFIT + reason)]
  {}

  lemma RevalidationSays(env: Env, reason: string)
    requires UnmaskLines(env) == ["[unmask] " + (UNFIT + reason)]
    ensures SomeSayFailed(ErrorsTo(|STEPS|, env))
  {
    SchemaSaysFailed();
    UnmaskLineFails(env, UNFIT, reason);
  }

  lemma SayingFailedFails(db: Db, env: Env, db': Db, status: DocumentStatus)
    requires Commits(db, env, db', status) && SomeSayFailed(ErrorsTo(|STEPS|, env))
    ensures status == Failed && db'.document.Some? && db'.document.value.status == Failed
  {
    CommitAdds(db, env, db', status);
  }

  /** A mapping that cannot be decrypted fails the document, whatever the reason says. */
  lemma UndecryptableFails(db: Db, env: Env, db': Db, status: DocumentStatus)
    requires Commits(db, env, db', status) && env.extract.Ok?
    requires env.mask.Ok? && env.mask.value.1.entries != map[] && env.decrypt.Undecryptable?
    ensures status == Failed && db'.document.Some? && db'.document.value.status == Failed
  {
    UndecryptableSays(env);
    SayingFailedFails(db, env, db', status);
  }

  /** So does a payload that no longer fits its schema once unmasked. */
  lemma RevalidationFails(db: Db, env: Env, db': Db, status: DocumentStatus)
    requires Commits(db, env, db', status) && env.extract.Ok?
    requires env.mask.Ok? && env.mask.value.1.entries != map[] && env.decrypt.Decrypted? && env.schemaKnown
    requires Unmasking(env).Raised?
    ensures status == Failed && db'.document.Some? && db'.document.value.status == Failed
  {
    RevalidationLine(env, Unmasking(env).message);
    RevalidationSays(env, Unmasking(env).message);
    SayingFailedFails(db, env, db', status);
  }

  /** No foreign call of the non-critical steps fails. */
  ghost predicate Smooth(env: Env) {
    && Stored(env) && env.mask.Ok? && env.normalize.Ok? && env.validate.Done?
    && (env.mask.value.1.entries == map[] ||
        (env.decrypt.Decrypted? && env.schemaKnown && Unmasking(env).Ok?))
  }

  lemma SmoothSaysNothing(env: Env)
    requires Smooth(env)
    ensures ErrorsTo(|STEPS|, env) == []
  {
    LinesAre(env);
  }

  lemma NothingSaid(db: Db, env: Env, db': Db, status: DocumentStatus)
    requires Commits(db, env, db', status) && env.extract.Ok? && ErrorsTo(|STEPS|, env) == []
    ensures status == if ReviewWanted(env) then Validated else Reviewed
    ensures db'.audits == db.audits + [PipelineAudit("pipeline.success", true, status, [])]
  {
    CommitAdds(db, env, db', status);
  }

  /** Then there is no line, the document does not fail, and it is cleared exactly if nothing is flagged. */
  lemma SmoothRun(db: Db, env: Env, db': Db, status: DocumentStatus)
    requires Commits(db, env, db', status) && Smooth(env)
    ensures status == if Flagged(env) then Validated else Reviewed
    ensures db'.audits == db.audits + [PipelineAudit("pipeline.success", true, status, [])]
  {
    SmoothSaysNothing(env);
    NothingSaid(db, env, db', status);
    FlaggedWantsReview(env);
  }

  // ---------- What a failed attempt raises ----------

  /** A step's failure as the task sees it. */
  function StepFailed(step: string, reason: string): string {
    "Pipeline step '" + step + "' failed: " + reason
  }

  /** What an attempt on an existing document raises, when its database works. */
  ghost function RaisedText(env: Env): string {
    if env.ocr.Raised? then StepFailed("ocr", env.ocr.message)
    else if env.mask.Raised? then StepFailed("pii_mask", env.mask.message)
    else if !Gated(env) then StepFailed("pii_mask", "PII leakage detected after masking \U{2014} aborting pipeline")
    else if env.encryptMapping.Fails? then StepFailed("pii_mask", env.encryptMapping.message)
    else "This Session's transaction has been rolled back due to a previous exception during flush"
  }

  /** The session's rows when the handler of a critical step could still write. */
  ghost predicate FailureFiled(tx: Tx, step: string, reason: string) {
    && tx.status == Failed && tx.error == Some("Step '" + step + "' failed: " + reason)
    && tx.audits == [PipelineAudit("pipeline.failure", false, Failed, ["[" + step + "] " + reason])]
  }

  lemma HandlerFiles(step: Step, run: Run, reason: string, env: Env)
    requires WorkingDatabase(env) && run.tx.healthy && run.tx.audits == [] && run.ctx.errors == []
    ensures var p := Halt(step, run.(ctx := AddError(run.ctx, step, reason)), reason, env);
            && p == Halted(p.run, StepFailed(Name(step), reason))
            && FailureFiled(p.run.tx, Name(step), reason)
  {
    assert run.ctx.errors + [Line(step, reason)] == [Line(step, reason)];
  }

  lemma HandlerFails(step: Step, run: Run, reason: string, env: Env)
    requires !run.tx.healthy
    ensures Halt(step, run, reason, env).Halted?
    ensures Halt(step, run, reason, env).message ==
            "This Session's transaction has been rolled back due to a previous exception during flush"
  {}

  lemma OcrRaises(document: DocumentRow, env: Env)
    requires WorkingDatabase(env) && env.ocr.Raised?
    ensures var p := RunTo(1, document, env);
            && p == Halted(p.run, StepFailed("ocr", env.ocr.message))
            && FailureFiled(p.run.tx, "ocr", env.ocr.message)
  {
    assert RunTo(0, document, env) == Next(Start(document));
    HandlerFiles(Ocr, Begun(Start(document), Ocr), env.ocr.message, env);
  }

  /** The reason masking has for raising with its session intact. */
  ghost function MaskReason(env: Env): string {
    if env.mask.Raised? then env.mask.message
    else if !Gated(env) then "PII leakage detected after masking \U{2014} aborting pipeline"
    else if env.encryptMapping.Fails? then env.encryptMapping.message
    else ""
  }

  lemma MaskRaises(run: Run, env: Env)
    requires At(1, run, env) && run.tx.healthy && !Passes(1, env)
    ensures var o := Execute(PiiMask, Begun(run, PiiMask), env);
            && o.Threw? && o.run.ctx.errors == run.ctx.errors && o.run.tx.audits == []
            && (o.run.tx.healthy <==> !ReachesMappingFlush(env.(ocr := Ok(""))))
            && (o.run.tx.healthy ==> o.message == MaskReason(env))
  {}

  lemma MaskHalts(run: Run, env: Env)
    requires WorkingDatabase(env) && env.ocr.Ok?
    requires At(1, run, env) && run.tx.healthy && !Passes(1, env) && run.ctx.errors == []
    ensures var p := Advance(PiiMask, run, env);
            && p == Halted(p.run, RaisedText(env))
            && (!ReachesMappingFlush(env) ==> FailureFiled(p.run.tx, "pii_mask", MaskReason(env)))
  {
    MaskRaises(run, env);
    var o := Execute(PiiMask, Begun(run, PiiMask), env);
    if o.run.tx.healthy {
      HandlerFiles(PiiMask, o.run, o.message, env);
    } else {
      HandlerFails(PiiMask, o.run.(ctx := AddError(o.run.ctx, PiiMask, o.message)), o.message, env);
    }
  }

  lemma OcrLeavesNoLine(document: DocumentRow, env: Env)
    requires WorkingDatabase(env) && env.ocr.Ok?
    ensures var p := RunTo(1, document, env);
            p.Next? && p.run.tx.healthy && p.run.ctx.errors == [] && At(1, p.run, env)
  {
    RoundsHealthy(1, document, env);
    assert Passes(0, env);
    ErrorLines(1, document, env);
    NoErrorsYet(0, Ocr, env, []);
    ReachedAt(1, document, env);
  }

  lemma MaskRaisesText(document: DocumentRow, env: Env)
    requires WorkingDatabase(env) && env.ocr.Ok? && !Passes(1, env)
    ensures var p := RunTo(2, document, env);
            && p == Halted(p.run, RaisedText(env))
            && (!ReachesMappingFlush(env) ==> FailureFiled(p.run.tx, "pii_mask", MaskReason(env)))
  {
    OcrLeavesNoLine(document, env);
    MaskHalts(RunTo(1, document, env).run, env);
  }

  lemma RunRaisesText(document: DocumentRow, env: Env)
    requires WorkingDatabase(env) && !(Passes(0, env) && Passes(1, env))
    ensures var p := PipelineSpec.Pipeline(document, env);
            && p == Halted(p.run, RaisedText(env))
            && (env.ocr.Raised? ==> FailureFiled(p.run.tx, "ocr", env.ocr.message))
            && (env.ocr.Ok? && !ReachesMappingFlush(env) ==> FailureFiled(p.run.tx, "pii_mask", MaskReason(env)))
  {
    if env.ocr.Raised? {
      OcrRaises(document, env);
      HaltedForGood(1, document, env);
    } else {
      MaskRaisesText(document, env);
      HaltedForGood(2, document, env);
    }
  }

  /**
   With a working database, what an attempt raises names the critical step and its reason; only where the mapping row
   could not be inserted is it the session's complaint. The session had filed the failure before it was rolled back.
   */
  lemma AttemptRaises(db: Db, env: Env)
    requires WorkingDatabase(env) && db.document.Some? && Attempt(db, env).1.Raised?
    ensures Attempt(db, env) == (db, Raised(RaisedText(env)))
  {
    CommitsIffCriticalStepsPass(db, env);
    RunRaisesText(db.document.value, Constrained(env, db.mappings != []));
  }

  // ---------- The status between the steps ----------

  /** The document's status in the session after k rounds. */
  function StatusAt(k: nat, document: DocumentRow, env: Env): DocumentStatus {
    if k == 0 then document.status
    else if k == 1 then OcrComplete
    else if k == 2 || (k < 6 && !Stored(env)) then DocumentStatus.Masked
    else if k < 6 || (k == 6 && Stored(env) && env.validate.Fails?) then Extracted
    else Validated
  }

  /** The status a round leaves: its own if its step returns, else the one before. */
  ghost predicate Sets(k: nat, run: Run, env: Env)
    requires k < |STEPS|
  {
    match Execute(STEPS[k], run, env)
    case Returned(r) => r.tx.status == run.tx.status
    case Threw(r, _) => IsCritical(STEPS[k]) || r.tx.status == run.tx.status
  }

  lemma StepsSetNothing(k: nat, run: Run, env: Env)
    requires k < |STEPS|
    ensures Sets(k, run, env)
  {}

  lemma TriedSets(k: nat, run: Run, o: Outcome, env: Env)
    requires k < |STEPS| && o == Execute(STEPS[k], Begun(run, STEPS[k]), env)
    requires Advance(STEPS[k], run, env).Next? && Advance(STEPS[k], run, env).run.tx.healthy
    ensures Advance(STEPS[k], run, env).run.tx.status ==
            if o.Threw? || StatusAfter(STEPS[k]).None? then o.run.tx.status else StatusAfter(STEPS[k]).value
  {}

  lemma RoundSets(k: nat, run: Run, env: Env)
    requires k < |STEPS| && Advance(STEPS[k], run, env).Next? && Advance(STEPS[k], run, env).run.tx.healthy
    ensures Advance(STEPS[k], run, env).run.tx.status ==
            if Execute(STEPS[k], Begun(run, STEPS[k]), env).Threw? then run.tx.status
            else match k
              case 0 => OcrComplete
              case 1 => DocumentStatus.Masked
              case 2 => Extracted
              case 3 => run.tx.status
              case 4 => run.tx.status
              case 5 => Validated
              case _ => Validated
  {
    StepsSetNothing(k, Begun(run, STEPS[k]), env);
    TriedSets(k, run, Execute(STEPS[k], Begun(run, STEPS[k]), env), env);
  }

  lemma ExtractThrows(run: Run, env: Env)
    requires At(2, run, env)
    ensures var o := Execute(LlmExtract, Begun(run, LlmExtract), env);
            o.run.tx.healthy ==> (o.Threw? <==> !Stored(env))
  {}

  lemma LateThrows(k: nat, run: Run, env: Env)
    requires 5 <= k < |STEPS| && At(k, run, env)
    ensures var o := Execute(STEPS[k], Begun(run, STEPS[k]), env);
            o.run.tx.healthy ==> (o.Threw? <==> k == 5 && Stored(env) && env.validate.Fails?)
  {}

  lemma HealthBefore(step: Step, run: Run, env: Env)
    requires Advance(step, run, env).Next? && Advance(step, run, env).run.tx.healthy
    ensures var o := Execute(step, Begun(run, step), env);
            o.run.tx.healthy && (IsCritical(step) ==> o.Returned?)
  {}

  lemma StatusStep(k: nat, document: DocumentRow, run: Run, env: Env)
    requires k < |STEPS| && At(k, run, env) && run.tx.healthy && run.tx.status == StatusAt(k, document, env)
    requires Advance(STEPS[k], run, env).Next? && Advance(STEPS[k], run, env).run.tx.healthy
    ensures Advance(STEPS[k], run, env).run.tx.status == StatusAt(k + 1, document, env)
  {
    HealthBefore(STEPS[k], run, env);
    RoundSets(k, run, env);
    if k == 2 {
      ExtractThrows(run, env);
    } else if k >= 5 {
      LateThrows(k, run, env);
    }
  }

  lemma HealthyBefore(k: nat, document: DocumentRow, env: Env)
    requires k < |STEPS| && RunTo(k + 1, document, env).Next? && RunTo(k + 1, document, env).run.tx.healthy
    ensures RunTo(k, document, env).Next? && RunTo(k, document, env).run.tx.healthy
  {
    ReachedAt(k, document, env);
    ReachedExplained(k, document, env);
    AdvanceExplained(k, RunTo(k, document, env).run, env);
  }

  /** In a healthy session the document has that status after every round. */
  lemma {:induction false} StatusReached(k: nat, document: DocumentRow, env: Env)
    requires k <= |STEPS| && RunTo(k, document, env).Next? && RunTo(k, document, env).run.tx.healthy
    ensures RunTo(k, document, env).run.tx.status == StatusAt(k, document, env)
  {
    if k > 0 {
      var j := k - 1;
      assert k == j + 1;
      HealthyBefore(j, document, env);
      StatusReached(j, document, env);
      ReachedAt(j, document, env);
      StatusStep(j, document, RunTo(j, document, env).run, env);
    }
  }

  // ---------- The timings ----------

  const NAMES := ["ocr", "pii_mask", "llm_extract", "unmask", "normalize", "validate", "risk_detect"]

  /** The step of round k returns. */
  predicate ReturnsIn(k: nat, env: Env) {
    match k
    case 2 => Stored(env)
    case 3 => env.extract.Raised? || env.mask.Raised? || env.mask.value.1.entries == map[] || !env.decrypt.BadKey?
    case 4 => env.normalize.Ok?
    case 5 => !Stored(env) || env.validate.Done?
    case _ => true
  }

  /** The timings after k rounds: one for every step that returned, in its name. */
  function TimingsAt(k: nat, env: Env): map<string, int>
    requires k <= |STEPS|
  {
    if k == 0 then map[]
    else if ReturnsIn(k - 1, env) then TimingsAt(k - 1, env)[NAMES[k - 1] := env.duration(STEPS[k - 1])]
    else TimingsAt(k - 1, env)
  }

  lemma UnmaskThrows(run: Run, env: Env)
    requires UnmaskSees(run, env)
    ensures var o := ExecUnmask(run, env); o.run.tx.healthy ==> (o.Returned? <==> ReturnsIn(3, env))
  {}

  lemma NormalizeThrows(run: Run, env: Env)
    ensures var o := ExecNormalize(run, env); o.run.tx.healthy ==> (o.Returned? <==> env.normalize.Ok?)
  {}

  lemma ReturnsIff(k: nat, run: Run, env: Env)
    requires k < |STEPS| && At(k, run, env) && Advance(STEPS[k], run, env).Next?
    requires Advance(STEPS[k], run, env).run.tx.healthy
    ensures Execute(STEPS[k], Begun(run, STEPS[k]), env).Returned? <==> ReturnsIn(k, env)
  {
    HealthBefore(STEPS[k], run, env);
    match k
    case 2 => ExtractThrows(run, env);
    case 3 => UnmaskSeen(run, env); UnmaskThrows(Begun(run, Unmask), env);
    case 4 => NormalizeThrows(Begun(run, Normalize), env);
    case 5 => LateThrows(k, run, env);
    case 6 => LateThrows(k, run, env);
    case _ =>
  }

  /** A step has not touched what other steps read, or time. */
  predicate Kept(before: Context, after: Context) {
    after.timed == before.timed && after.ocrText == before.ocrText && after.validated == before.validated
  }

  lemma MaskedKeeps(run: Run, env: Env)
    requires run.ctx.ocrText.Some? && env.mask.Ok?
    ensures Kept(run.ctx, ExecMask(run, env).run.ctx)
  {
    var mapping := env.mask.value.1;
    if Gated(env) && mapping.entries != map[] && env.encryptMapping.Done? {
      StoringKeeps(run, env);
    }
  }

  lemma StoringKeeps(run: Run, env: Env)
    requires run.ctx.ocrText.Some? && Gated(env) && env.mask.value.1.entries != map[] && env.encryptMapping.Done?
    ensures Kept(run.ctx, ExecMask(run, env).run.ctx)
  {}

  lemma MaskKeeps(run: Run, env: Env)
    ensures Kept(run.ctx, ExecMask(run, env).run.ctx)
  {
    if run.ctx.ocrText.Some? && env.mask.Ok? {
      MaskedKeeps(run, env);
    } else {
      assert ExecMask(run, env).run == run;
    }
  }

  lemma ExtractKeeps(run: Run, env: Env)
    ensures Kept(run.ctx, ExecExtract(run, env).run.ctx)
  {}

  lemma UnmaskKeepsSlots(run: Run, env: Env)
    ensures Kept(run.ctx, ExecUnmask(run, env).run.ctx)
  {}

  lemma NormalizeKeepsSlots(run: Run, env: Env)
    ensures Kept(run.ctx, ExecNormalize(run, env).run.ctx)
  {}

  lemma RiskKeepsSlots(run: Run, env: Env)
    ensures Kept(run.ctx, ExecRisk(run, env).run.ctx)
  {}

  /** The OCR step fills its slot, and the validation step its own when there is something to validate. */
  lemma SlotsFilled(run: Run, env: Env)
    ensures var ocr, validated := ExecOcr(run, env).run.ctx, ExecValidate(run, env).run.ctx;
            && Kept(run.ctx, ocr.(ocrText := run.ctx.ocrText))
            && (env.ocr.Ok? ==> ocr.ocrText == Some(env.ocr.value))
            && Kept(run.ctx, validated.(validated := run.ctx.validated))
            && validated.validated == (run.ctx.validated || (run.ctx.extraction.Some? && run.ctx.extractionStored))
  {}

  lemma StepsKeep(k: nat, run: Run, env: Env)
    requires k < |STEPS|
    ensures var after := Execute(STEPS[k], run, env).run.ctx;
            && after.timed == run.ctx.timed
            && (k != 0 ==> after.ocrText == run.ctx.ocrText)
            && (k != 5 ==> after.validated == run.ctx.validated)
  {
    match k
    case 1 => MaskKeeps(run, env);
    case 2 => ExtractKeeps(run, env);
    case 3 => UnmaskKeepsSlots(run, env);
    case 4 => NormalizeKeepsSlots(run, env);
    case 6 => RiskKeepsSlots(run, env);
    case _ => SlotsFilled(run, env);
  }

  /** Outside its execution a step's round times it and leaves the slots. */
  lemma AfterTimes(step: Step, o: Outcome, env: Env)
    ensures var after := AfterStep(step, o, env).run.ctx;
            && after.ocrText == o.run.ctx.ocrText && after.validated == o.run.ctx.validated
            && after.timed == if o.Threw? then o.run.ctx.timed else o.run.ctx.timed[Name(step) := env.duration(step)]
  {}

  lemma HandlerKeeps(step: Step, run: Run, m: string, env: Env)
    ensures Kept(run.ctx, Halt(step, run, m, env).run.ctx)
  {}

  lemma TriedTimes(step: Step, run: Run, o: Outcome, env: Env)
    requires o == Execute(step, Begun(run, step), env)
    ensures var after := Advance(step, run, env).run.ctx;
            && after.ocrText == o.run.ctx.ocrText && after.validated == o.run.ctx.validated
            && after.timed == if o.Threw? then o.run.ctx.timed else o.run.ctx.timed[Name(step) := env.duration(step)]
  {
    var tried := AfterStep(step, o, env);
    AfterTimes(step, o, env);
    if tried.Threw? {
      HandlerKeeps(step, tried.run.(ctx := AddError(tried.run.ctx, step, tried.message)), tried.message, env);
    }
  }

  lemma RoundTimes(k: nat, run: Run, env: Env)
    requires k < |STEPS| && At(k, run, env) && run.ctx.timed == TimingsAt(k, env)
    requires Advance(STEPS[k], run, env).Next? && Advance(STEPS[k], run, env).run.tx.healthy
    ensures Advance(STEPS[k], run, env).run.ctx.timed == TimingsAt(k + 1, env)
  {
    StepsKeep(k, Begun(run, STEPS[k]), env);
    TriedTimes(STEPS[k], run, Execute(STEPS[k], Begun(run, STEPS[k]), env), env);
    ReturnsIff(k, run, env);
    assert Name(STEPS[k]) == NAMES[k];
  }

  /** In a healthy session those are the timings the context has after every round. */
  lemma {:induction false} TimingsReached(k: nat, document: DocumentRow, env: Env)
    requires k <= |STEPS| && RunTo(k, document, env).Next? && RunTo(k, document, env).run.tx.healthy
    ensures RunTo(k, document, env).run.ctx.timed == TimingsAt(k, env)
  {
    if k > 0 {
      var j := k - 1;
      assert k == j + 1;
      HealthyBefore(j, document, env);
      TimingsReached(j, document, env);
      ReachedAt(j, document, env);
      RoundTimes(j, RunTo(j, document, env).run, env);
    }
  }

  // ---------- What masking reads, and what has been validated ----------

  lemma TextStep(k: nat, run: Run, env: Env)
    requires k < |STEPS| && Advance(STEPS[k], run, env).Next?
    requires k > 0 ==> env.ocr.Ok? && run.ctx.ocrText == Some(env.ocr.value)
    ensures env.ocr.Ok? && Advance(STEPS[k], run, env).run.ctx.ocrText == Some(env.ocr.value)
  {
    StepsKeep(k, Begun(run, STEPS[k]), env);
    SlotsFilled(Begun(run, STEPS[k]), env);
    TriedTimes(STEPS[k], run, Execute(STEPS[k], Begun(run, STEPS[k]), env), env);
  }

  /** From the first round on, what masking is asked about is the text the OCR call returned. */
  lemma {:induction false} TextReached(k: nat, document: DocumentRow, env: Env)
    requires 0 < k <= |STEPS| && RunTo(k, document, env).Next?
    ensures env.ocr.Ok? && RunTo(k, document, env).run.ctx.ocrText == Some(env.ocr.value)
  {
    var j := k - 1;
    assert k == j + 1;
    if j > 0 {
      TextReached(j, document, env);
    }
    TextStep(j, RunTo(j, document, env).run, env);
  }

  lemma ValidatedStep(k: nat, run: Run, env: Env)
    requires k < |STEPS| && At(k, run, env) && run.tx.healthy
    requires run.ctx.validated <==> k >= 6 && Stored(env)
    ensures Advance(STEPS[k], run, env).run.ctx.validated <==> k + 1 >= 6 && Stored(env)
  {
    StepsKeep(k, Begun(run, STEPS[k]), env);
    SlotsFilled(Begun(run, STEPS[k]), env);
    TriedTimes(STEPS[k], run, Execute(STEPS[k], Begun(run, STEPS[k]), env), env);
  }

  /** In a healthy session the engine has run after the sixth round exactly if there is a stored extraction. */
  lemma {:induction false} ValidatedReached(k: nat, document: DocumentRow, env: Env)
    requires k <= |STEPS| && RunTo(k, document, env).Next? && RunTo(k, document, env).run.tx.healthy
    ensures RunTo(k, document, env).run.ctx.validated <==> k >= 6 && Stored(env)
  {
    if k > 0 {
      var j := k - 1;
      assert k == j + 1;
      HealthyBefore(j, document, env);
      ValidatedReached(j, document, env);
      ReachedAt(j, document, env);
      ValidatedStep(j, RunTo(j, document, env).run, env);
    }
  }
}
