/** What holds of every pipeline run, whatever its environment does. */
module PipelineProperties {
  import opened Text
  import opened Unmasker
  import opened TokenOrder
  import opened Masker
  import opened LeakPatterns
  import opened Rows
  import Validation
  import Risk
  import opened PipelineSpec

  /** The foreign calls of a step that returns normally. */
  ghost function StepEvents(step: Step, text: string): seq<Event> {
    match step
    case PiiMask => [MaskReturned(text)]
    case LlmExtract => [ExtractorCalled(text)]
    case _ => []
  }

  /** The only trace a run can have after k rounds: the extractor is called once, on the text masking returned. */
  ghost function TraceTo(k: nat, text: string): seq<Event>
    requires k <= |STEPS|
  {
    if k == 0 then [] else TraceTo(k - 1, text) + [Began(STEPS[k - 1])] + StepEvents(STEPS[k - 1], text)
  }

  ghost predicate Gated(env: Env) {
    env.mask.Ok? && NoLeakage(env.table, env.mask.value.0.maskedText)
  }

  ghost function MaskText(env: Env): string {
    if env.mask.Ok? then env.mask.value.0.maskedText else ""
  }

  /** The invariant of the step loop, after k rounds. */
  ghost predicate At(k: nat, run: Run, env: Env)
    requires k <= |STEPS|
  {
    var ctx, tx := run.ctx, run.tx;
    && ctx.trace == TraceTo(k, MaskText(env))
    && (ctx.ocrText.Some? <==> k >= 1)
    && (k < 2 ==> ctx.maskedText.None? && !ctx.mappingStored)
    && (k >= 2 ==>
          && Gated(env) && ctx.maskedText == Some(MaskText(env))
          && (ctx.mappingStored <==> env.mask.value.1.entries != map[]))
    && (ctx.mappingStored ==> env.mappingFlush.Done?)
    && tx.mapping == (if ctx.mappingStored then Some(env.mask.value.1) else None)
    && (k < 3 ==> ctx.extraction.None?)
    && (k >= 3 ==> (ctx.extraction.Some? <==> env.extract.Ok?))
    && (k == 3 && env.extract.Ok? ==> ctx.extraction == Some(env.extract.value))
    && (ctx.extractionStored ==> env.encryptResponse.Done?)
    && (k >= 3 && tx.healthy && env.extract.Ok? && env.encryptResponse.Done? ==> ctx.extractionStored)
    && (ctx.extractionStored <==> tx.extraction.Some?)
    && (ctx.extractionStored ==> ctx.extraction.Some?)
    && (tx.healthy && tx.extraction.Some? ==> ctx.extraction == Some(tx.extraction.value.data))
    && (k < 7 ==> ctx.risk.None?)
    && (ctx.risk.None? ==> tx.tasks == [])
    && (ctx.risk.Some? ==>
          && ctx.extractionStored && ctx.risk.value == Detected(ctx.extraction.value, env)
          && (tx.healthy ==>
                && tx.tasks == (if ctx.risk.value.requiresReview then [TaskRow(Pending, [])] else [])
                && tx.extraction.value.risk == ctx.risk.value.level
                && tx.extraction.value.flags == ctx.risk.value.flags))
    && tx.audits == [] && tx.error.None?
  }

  // ---------- Each step keeps it ----------

  /** A step brings a run from round k to round k + 1; where it raises, that matters only if the loop goes on. */
  ghost predicate Brings(k: nat, run: Run, env: Env)
    requires k < |STEPS|
  {
    match Execute(STEPS[k], Begun(run, STEPS[k]), env)
    case Returned(r) => At(k + 1, r, env)
    case Threw(r, _) => IsCritical(STEPS[k]) || At(k + 1, r, env)
  }

  lemma OcrBrings(run: Run, env: Env)
    requires At(0, run, env)
    ensures Brings(0, run, env)
  {}

  lemma MaskBrings(run: Run, env: Env)
    requires At(1, run, env)
    ensures Brings(1, run, env)
  {}

  lemma ExtractRaises(run: Run, env: Env)
    requires At(2, run, env) && env.extract.Raised?
    ensures Brings(2, run, env)
  {}

  lemma ResponseUnencrypted(run: Run, env: Env)
    requires At(2, run, env) && env.extract.Ok? && env.encryptResponse.Fails?
    ensures Brings(2, run, env)
  {}

  lemma ResponseStored(run: Run, env: Env)
    requires At(2, run, env) && env.extract.Ok? && env.encryptResponse.Done?
    ensures Brings(2, run, env)
  {}

  lemma ExtractBrings(run: Run, env: Env)
    requires At(2, run, env)
    ensures Brings(2, run, env)
  {
    if env.extract.Raised? {
      ExtractRaises(run, env);
    } else if env.encryptResponse.Fails? {
      ResponseUnencrypted(run, env);
    } else {
      ResponseStored(run, env);
    }
  }

  /** From the unmask step on, beginning a step is all that distinguishes one round's invariant from the next. */
  lemma BegunKeeps(k: nat, run: Run, env: Env)
    requires 3 <= k < |STEPS| && At(k, run, env)
    ensures At(k + 1, Begun(run, STEPS[k]), env) && (k == 6 ==> run.ctx.risk.None?)
  {}

  lemma RewrittenKeeps(k: nat, run: Run, payload: Json, step: Step, flush: Call, env: Env)
    requires 4 <= k < |STEPS| && At(k, run, env) && run.ctx.extraction.Some?
    ensures var o := Rewritten(run, payload, step, flush); At(k, o.run, env)
  {}

  lemma UnmaskBrings(run: Run, env: Env)
    requires At(3, run, env)
    ensures Brings(3, run, env)
  {
    BegunKeeps(3, run, env);
    UnmaskKeeps(Begun(run, Unmask), env);
  }

  /** Error lines and a lost session do not touch the invariant. */
  lemma NoteKeeps(k: nat, run: Run, step: Step, message: string, call: Call, env: Env)
    requires k <= |STEPS| && At(k, run, env)
    ensures At(k, Noted(run, step, message).run, env)
    ensures At(k, Store(run, call, run).run, env)
  {}

  lemma UnmaskKeeps(run: Run, env: Env)
    requires At(4, run, env)
    ensures At(4, ExecUnmask(run, env).run, env)
  {
    var o := ExecUnmask(run, env);
    if run.ctx.extraction.None? {
      NoteKeeps(4, run, Unmask, NO_PAYLOAD, Done, env);
    } else if !run.ctx.mappingStored {
      assert o == Returned(run);
    } else if Attempted(run.tx, env.mappingGet).Fails? {
      NoteKeeps(4, run, Unmask, "", env.mappingGet, env);
    } else if env.decrypt.BadKey? {
      assert o.run == run;
    } else if env.decrypt.Undecryptable? {
      NoteKeeps(4, run, Unmask, DECRYPT_FAILED + env.decrypt.reason, Done, env);
    } else if !env.schemaKnown {
      NoteKeeps(4, run, Unmask, NO_SCHEMA, Done, env);
    } else {
      var mapping := run.tx.mapping.value;
      match env.revalidate(UnmaskTree(run.ctx.extraction.value, mapping.entries, mapping.keys))
      case Raised(m) => NoteKeeps(4, run, Unmask, REVALIDATE_FAILED + m, Done, env);
      case Ok(payload) => RewrittenKeeps(4, run, payload, Unmask, env.unmaskFlush, env);
    }
  }

  lemma NormalizeKeeps(run: Run, env: Env)
    requires At(5, run, env)
    ensures At(5, ExecNormalize(run, env).run, env)
  {
    if env.normalize.Ok? && run.ctx.extraction.Some? {
      RewrittenKeeps(5, run, env.normalize.value, Normalize, Done, env);
    }
  }

  lemma NormalizeBrings(run: Run, env: Env)
    requires At(4, run, env)
    ensures Brings(4, run, env)
  {
    BegunKeeps(4, run, env);
    NormalizeKeeps(Begun(run, Normalize), env);
  }

  lemma ValidateKeeps(run: Run, env: Env)
    requires At(6, run, env)
    ensures At(6, ExecValidate(run, env).run, env)
  {
    if run.ctx.extraction.None? || !run.ctx.extractionStored {
      NoteKeeps(6, run, Validate, SKIP_VALIDATION, Done, env);
    } else {
      var checked := run.(ctx := run.ctx.(validated := true));
      assert At(6, checked, env);
      NoteKeeps(6, checked, Validate, "", env.validateFlush, env);
    }
  }

  lemma ValidateBrings(run: Run, env: Env)
    requires At(5, run, env)
    ensures Brings(5, run, env)
  {
    BegunKeeps(5, run, env);
    ValidateKeeps(Begun(run, Validate), env);
  }

  /** A stored extraction that the detector has not assessed yet. */
  ghost predicate Unassessed(run: Run, env: Env) {
    At(7, run, env) && run.ctx.extractionStored && run.ctx.risk.None?
  }

  function WithRisk(run: Run, a: Assessment): Run {
    run.(ctx := run.ctx.(risk := Some(a)))
  }

  /** A session that is lost may hold any level and flags. */
  lemma RiskLost(run: Run, a: Assessment, row: ExtractionRow, env: Env)
    requires Unassessed(run, env) && a == Detected(run.ctx.extraction.value, env)
    ensures At(7, WithRisk(run, a).(tx := run.tx.(healthy := false, extraction := Some(row))), env)
  {}

  lemma RiskRecorded(run: Run, a: Assessment, env: Env)
    requires Unassessed(run, env) && a == Detected(run.ctx.extraction.value, env)
    ensures var row := run.tx.extraction.value.(risk := a.level, flags := a.flags);
            var tasks := if a.requiresReview then [TaskRow(Pending, [])] else [];
            At(7, WithRisk(run, a).(tx := run.tx.(extraction := Some(row), tasks := tasks)), env)
  {}

  /** The three ways the step ends for a stored extraction. */
  lemma RiskEnds(run: Run, a: Assessment, env: Env)
    requires run.ctx.extraction.Some? && run.ctx.extractionStored && run.tx.extraction.Some? && run.tx.tasks == []
    requires a == Detected(run.ctx.extraction.value, env)
    ensures var after := ExecRisk(run, env).run;
            var before := run.tx.extraction.value;
            var row := before.(risk := a.level, flags := a.flags);
            var tasks := if a.requiresReview then [TaskRow(Pending, [])] else [];
            || after == WithRisk(run, a).(tx := run.tx.(healthy := false, extraction := Some(before)))
            || after == WithRisk(run, a).(tx := run.tx.(healthy := false, extraction := Some(row)))
            || after == WithRisk(run, a).(tx := run.tx.(extraction := Some(row), tasks := tasks))
  {}

  lemma RiskKeeps(run: Run, env: Env)
    requires At(7, run, env) && run.ctx.risk.None?
    ensures At(7, ExecRisk(run, env).run, env)
  {
    if run.ctx.extraction.None? || !run.ctx.extractionStored {
      NoteKeeps(7, run, RiskDetect, SKIP_RISK, Done, env);
    } else {
      var a, row := Detected(run.ctx.extraction.value, env), run.tx.extraction.value;
      RiskEnds(run, a, env);
      RiskLost(run, a, row, env);
      RiskLost(run, a, row.(risk := a.level, flags := a.flags), env);
      RiskRecorded(run, a, env);
    }
  }

  lemma RiskBrings(run: Run, env: Env)
    requires At(6, run, env)
    ensures Brings(6, run, env)
  {
    BegunKeeps(6, run, env);
    RiskKeeps(Begun(run, RiskDetect), env);
  }

  lemma ExecuteBrings(k: nat, run: Run, env: Env)
    requires k < |STEPS| && At(k, run, env)
    ensures Brings(k, run, env)
  {
    match k
    case 0 => OcrBrings(run, env);
    case 1 => MaskBrings(run, env);
    case 2 => ExtractBrings(run, env);
    case 3 => UnmaskBrings(run, env);
    case 4 => NormalizeBrings(run, env);
    case 5 => ValidateBrings(run, env);
    case 6 => RiskBrings(run, env);
  }

  lemma TimingKeeps(k: nat, r: Run, timed: map<string, int>, env: Env)
    requires k <= |STEPS| && At(k, r, env)
    ensures At(k, r.(ctx := r.ctx.(timed := timed)), env)
  {}

  lemma StatusWriteKeeps(k: nat, r: Run, status: DocumentStatus, call: Call, env: Env)
    requires k <= |STEPS| && At(k, r, env)
    ensures At(k, UpdateStatus(r, status, None, call).run, env)
  {}

  /** Timing and status writes do not touch the invariant. */
  lemma StatusKeeps(k: nat, r: Run, step: Step, env: Env)
    requires k <= |STEPS| && At(k, r, env)
    ensures At(k, AfterStep(step, Returned(r), env).run, env)
  {
    var timed := r.ctx.timed[Name(step) := env.duration(step)];
    TimingKeeps(k, r, timed, env);
    if StatusAfter(step).Some? {
      StatusWriteKeeps(k, r.(ctx := r.ctx.(timed := timed)), StatusAfter(step).value, env.statusUpdate(step), env);
    }
  }

  lemma TriedKeeps(k: nat, run: Run, env: Env)
    requires k < |STEPS| && At(k, run, env)
    ensures var tried := AfterStep(STEPS[k], Execute(STEPS[k], Begun(run, STEPS[k]), env), env);
            tried.Returned? || !IsCritical(STEPS[k]) ==> At(k + 1, tried.run, env)
  {
    ExecuteBrings(k, run, env);
    var executed := Execute(STEPS[k], Begun(run, STEPS[k]), env);
    if executed.Returned? {
      StatusKeeps(k + 1, executed.run, STEPS[k], env);
    }
  }

  /** What the loop goes on with: the step's outcome, or the outcome with an error line. */
  lemma NextIs(step: Step, run: Run, tried: Outcome, env: Env)
    requires tried == AfterStep(step, Execute(step, Begun(run, step), env), env) && Advance(step, run, env).Next?
    ensures var after := Advance(step, run, env).run;
            if tried.Returned? then after == tried.run
            else !IsCritical(step) && after == Noted(tried.run, step, tried.message).run
  {}

  lemma AdvanceKeeps(k: nat, run: Run, env: Env)
    requires k < |STEPS| && At(k, run, env)
    ensures Advance(STEPS[k], run, env).Next? ==> At(k + 1, Advance(STEPS[k], run, env).run, env)
  {
    var tried := AfterStep(STEPS[k], Execute(STEPS[k], Begun(run, STEPS[k]), env), env);
    TriedKeeps(k, run, env);
    if Advance(STEPS[k], run, env).Next? {
      NextIs(STEPS[k], run, tried, env);
      if tried.Threw? {
        NoteKeeps(k + 1, tried.run, STEPS[k], tried.message, Done, env);
      }
    }
  }

  lemma {:induction false} ReachedAt(k: nat, document: DocumentRow, env: Env)
    requires k <= |STEPS| && RunTo(k, document, env).Next?
    ensures At(k, RunTo(k, document, env).run, env)
  {
    if k > 0 {
      ReachedAt(k - 1, document, env);
      AdvanceKeeps(k - 1, RunTo(k - 1, document, env).run, env);
    }
  }

  /** After the last round a stored extraction has been assessed. */
  ghost predicate AssessedIfStored(run: Run) {
    run.ctx.extractionStored && run.ctx.extraction.Some? ==> run.ctx.risk.Some?
  }

  lemma RiskAssesses(run: Run, env: Env)
    ensures AssessedIfStored(ExecRisk(run, env).run)
  {}

  lemma RoundAssesses(run: Run, env: Env)
    requires Advance(RiskDetect, run, env).Next?
    ensures AssessedIfStored(Advance(RiskDetect, run, env).run)
  {
    RiskAssesses(Begun(run, RiskDetect), env);
  }

  lemma ReachedAssessed(document: DocumentRow, env: Env)
    requires RunTo(|STEPS|, document, env).Next?
    ensures AssessedIfStored(RunTo(|STEPS|, document, env).run)
  {
    RoundAssesses(RunTo(6, document, env).run, env);
  }

  // ---------- The error lines of a run with a healthy session ----------

  /** The line a step leaves behind, read off the results of the foreign calls alone. */
  function StepErrors(step: Step, env: Env): seq<string> {
    var stored := env.extract.Ok? && env.encryptResponse.Done?;
    match step
    case Ocr => []
    case PiiMask => []
    case LlmExtract =>
      if env.extract.Raised? then [Line(step, env.extract.message)]
      else if env.encryptResponse.Fails? then [Line(step, env.encryptResponse.message)]
      else []
    case Unmask =>
      if env.extract.Raised? then [Line(step, NO_PAYLOAD)]
      else if env.mask.Raised? || env.mask.value.1.entries == map[] then []
      else (match env.decrypt
            case BadKey(m) => [Line(step, m)]
            case Undecryptable(m) => [Line(step, DECRYPT_FAILED + m)]
            case Decrypted =>
              if !env.schemaKnown then [Line(step, NO_SCHEMA)]
              else
                var m := env.mask.value.1;
                match env.revalidate(UnmaskTree(env.extract.value, m.entries, m.keys))
                case Raised(r) => [Line(step, REVALIDATE_FAILED + r)]
                case Ok(_) => [])
    case Normalize => if env.normalize.Raised? then [Line(step, env.normalize.message)] else []
    case Validate =>
      if !stored then [Line(step, SKIP_VALIDATION)]
      else if env.validate.Fails? then [Line(step, env.validate.message)]
      else []
    case RiskDetect =>
      if !stored then [Line(step, SKIP_RISK)] else []
  }

  function ErrorsTo(k: nat, env: Env): seq<string>
    requires k <= |STEPS|
  {
    if k == 0 then [] else ErrorsTo(k - 1, env) + StepErrors(STEPS[k - 1], env)
  }

  ghost predicate Explained(k: nat, run: Run, env: Env)
    requires k < |STEPS|
  {
    match Execute(STEPS[k], run, env)
    case Returned(r) => r.tx.healthy ==> run.tx.healthy && r.ctx.errors == run.ctx.errors + StepErrors(STEPS[k], env)
    case Threw(r, m) =>
      r.tx.healthy && !IsCritical(STEPS[k]) ==>
        run.tx.healthy && r.ctx.errors == run.ctx.errors && StepErrors(STEPS[k], env) == [Line(STEPS[k], m)]
  }

  lemma EarlyExplained(k: nat, run: Run, env: Env)
    requires k < 3 && At(k, run, env)
    ensures Explained(k, Begun(run, STEPS[k]), env)
  {}

  /** What the unmask step reads. */
  ghost predicate UnmaskSees(run: Run, env: Env) {
    && env.mask.Ok?
    && run.ctx.extraction == (if env.extract.Ok? then Some(env.extract.value) else None)
    && (run.ctx.mappingStored <==> env.mask.value.1.entries != map[])
    && run.tx.mapping == (if run.ctx.mappingStored then Some(env.mask.value.1) else None)
    && (run.ctx.extractionStored <==> run.tx.extraction.Some?)
  }

  lemma UnmaskSeen(run: Run, env: Env)
    requires At(3, run, env)
    ensures UnmaskSees(Begun(run, Unmask), env)
  {}

  lemma UnmaskExplained(run: Run, env: Env)
    requires UnmaskSees(run, env)
    ensures Explained(3, run, env)
  {
    if env.extract.Ok? && run.ctx.mappingStored {
      DecryptExplained(run, env);
    } else {
      assert run.ctx.errors + [] == run.ctx.errors;
    }
  }

  lemma DecryptExplained(run: Run, env: Env)
    requires UnmaskSees(run, env) && env.extract.Ok? && run.ctx.mappingStored
    ensures Explained(3, run, env)
  {
    assert run.ctx.errors + [] == run.ctx.errors;
  }

  /** What the last three steps read. */
  ghost predicate LateSees(run: Run, env: Env) {
    && (run.ctx.extraction.Some? <==> env.extract.Ok?)
    && (run.ctx.extractionStored ==> env.encryptResponse.Done? && env.extract.Ok?)
    && (run.tx.healthy && env.extract.Ok? && env.encryptResponse.Done? ==> run.ctx.extractionStored)
    && (run.ctx.extractionStored <==> run.tx.extraction.Some?)
  }

  lemma LateSeen(k: nat, run: Run, env: Env)
    requires 4 <= k < |STEPS| && At(k, run, env)
    ensures LateSees(Begun(run, STEPS[k]), env)
  {}

  lemma NormalizeExplained(run: Run, env: Env)
    requires LateSees(run, env)
    ensures Explained(4, run, env)
  {}

  lemma ValidateExplained(run: Run, env: Env)
    requires LateSees(run, env)
    ensures Explained(5, run, env)
  {}

  lemma RiskExplained(run: Run, env: Env)
    requires LateSees(run, env)
    ensures Explained(6, run, env)
  {}

  lemma LateExplained(k: nat, run: Run, env: Env)
    requires 4 <= k < |STEPS| && At(k, run, env)
    ensures Explained(k, Begun(run, STEPS[k]), env)
  {
    LateSeen(k, run, env);
    match k
    case 4 => NormalizeExplained(Begun(run, Normalize), env);
    case 5 => ValidateExplained(Begun(run, Validate), env);
    case 6 => RiskExplained(Begun(run, RiskDetect), env);
  }

  lemma AdvanceExplained(k: nat, run: Run, env: Env)
    requires k < |STEPS| && Explained(k, Begun(run, STEPS[k]), env)
    ensures match Advance(STEPS[k], run, env)
            case Next(r) =>
              r.tx.healthy ==> run.tx.healthy && r.ctx.errors == run.ctx.errors + StepErrors(STEPS[k], env)
            case Halted(_, _) => true
  {}

  lemma ReachedExplained(k: nat, document: DocumentRow, env: Env)
    requires k < |STEPS| && RunTo(k, document, env).Next?
    ensures Explained(k, Begun(RunTo(k, document, env).run, STEPS[k]), env)
  {
    var run := RunTo(k, document, env).run;
    ReachedAt(k, document, env);
    if k < 3 {
      EarlyExplained(k, run, env);
    } else if k == 3 {
      UnmaskSeen(run, env);
      UnmaskExplained(Begun(run, Unmask), env);
    } else {
      LateExplained(k, run, env);
    }
  }

  /** As long as no database operation fails, the error lines are the ones the foreign calls account for. */
  lemma {:induction false} ErrorLines(k: nat, document: DocumentRow, env: Env)
    requires k <= |STEPS| && RunTo(k, document, env).Next?
    ensures var run := RunTo(k, document, env).run;
            run.tx.healthy ==> run.ctx.errors == ErrorsTo(k, env)
  {
    if k > 0 {
      ErrorLines(k - 1, document, env);
      ReachedExplained(k - 1, document, env);
      AdvanceExplained(k - 1, RunTo(k - 1, document, env).run, env);
    }
  }

  // ---------- The payload of a run with a healthy session ----------

  /** What the unmask step makes of the extractor's payload. */
  function UnmaskedPayload(env: Env): Json
    requires env.extract.Ok?
  {
    var masked := env.extract.value;
    if env.mask.Raised? || env.mask.value.1.entries == map[] || !env.decrypt.Decrypted? || !env.schemaKnown then masked
    else
      var m := env.mask.value.1;
      match env.revalidate(UnmaskTree(masked, m.entries, m.keys))
      case Raised(_) => masked
      case Ok(unmasked) => unmasked
  }

  /** The payload after k rounds, read off the results of the foreign calls alone. */
  function PayloadAfter(k: nat, env: Env): Json
    requires env.extract.Ok?
  {
    if k <= 3 then env.extract.value
    else if k == 4 || env.normalize.Raised? then UnmaskedPayload(env)
    else env.normalize.value
  }

  ghost predicate Carries(k: nat, run: Run, env: Env) {
    k >= 3 && env.extract.Ok? && run.tx.healthy ==> run.ctx.extraction == Some(PayloadAfter(k, env))
  }

  ghost predicate StepCarries(k: nat, run: Run, env: Env)
    requires k < |STEPS|
  {
    match Execute(STEPS[k], run, env)
    case Returned(r) => Carries(k + 1, r, env) && (r.tx.healthy ==> run.tx.healthy)
    case Threw(r, _) => IsCritical(STEPS[k]) || (Carries(k + 1, r, env) && (r.tx.healthy ==> run.tx.healthy))
  }

  lemma EarlyCarries(k: nat, run: Run, env: Env)
    requires k < 3 && At(k, run, env)
    ensures StepCarries(k, Begun(run, STEPS[k]), env)
  {}

  lemma UnmaskCarries(run: Run, env: Env)
    requires UnmaskSees(run, env)
    ensures StepCarries(3, run, env)
  {
    if env.extract.Ok? && run.ctx.mappingStored {
      var m := env.mask.value.1;
      if !env.decrypt.Decrypted? || env.revalidate(UnmaskTree(env.extract.value, m.entries, m.keys)).Raised? {
        UnmaskFailureLeavesMasked(run, env);
      }
    }
  }

  lemma NormalizeCarries(run: Run, env: Env)
    requires LateSees(run, env) && Carries(4, run, env)
    ensures StepCarries(4, run, env)
  {}

  lemma ValidateCarries(run: Run, env: Env)
    requires Carries(5, run, env)
    ensures StepCarries(5, run, env)
  {}

  lemma RiskCarries(run: Run, env: Env)
    requires Carries(6, run, env)
    ensures StepCarries(6, run, env)
  {}

  lemma LateCarries(k: nat, run: Run, env: Env)
    requires 4 <= k < |STEPS| && At(k, run, env) && Carries(k, run, env)
    ensures StepCarries(k, Begun(run, STEPS[k]), env)
  {
    LateSeen(k, run, env);
    match k
    case 4 => NormalizeCarries(Begun(run, Normalize), env);
    case 5 => ValidateCarries(Begun(run, Validate), env);
    case 6 => RiskCarries(Begun(run, RiskDetect), env);
  }

  lemma AdvanceCarries(k: nat, run: Run, env: Env)
    requires k < |STEPS| && StepCarries(k, Begun(run, STEPS[k]), env)
    ensures Advance(STEPS[k], run, env).Next? ==> Carries(k + 1, Advance(STEPS[k], run, env).run, env)
  {}

  lemma CarriesOn(k: nat, run: Run, env: Env)
    requires k < |STEPS| && At(k, run, env) && Carries(k, run, env)
    ensures StepCarries(k, Begun(run, STEPS[k]), env)
  {
    if k < 3 {
      EarlyCarries(k, run, env);
    } else if k == 3 {
      UnmaskSeen(run, env);
      UnmaskCarries(Begun(run, Unmask), env);
    } else {
      LateCarries(k, run, env);
    }
  }

  lemma RoundCarries(k: nat, run: Run, env: Env)
    requires k < |STEPS| && At(k, run, env) && Carries(k, run, env)
    ensures Advance(STEPS[k], run, env).Next? ==> Carries(k + 1, Advance(STEPS[k], run, env).run, env)
  {
    CarriesOn(k, run, env);
    AdvanceCarries(k, run, env);
  }

  lemma {:induction false} ReachedCarries(k: nat, document: DocumentRow, env: Env)
    requires k <= |STEPS| && RunTo(k, document, env).Next?
    ensures Carries(k, RunTo(k, document, env).run, env)
  {
    if k > 0 {
      ReachedCarries(k - 1, document, env);
      ReachedAt(k - 1, document, env);
      RoundCarries(k - 1, RunTo(k - 1, document, env).run, env);
    }
  }

  // ---------- The extractor sees only text that passed the gate ----------

  ghost function BegunSteps(trace: seq<Event>): seq<Step> {
    if trace == [] then []
    else BegunSteps(trace[..|trace| - 1]) + (match trace[|trace| - 1]
                                             case Began(step) => [step]
                                             case _ => [])
  }

  /** Every extractor call is the only one, and has the text that masking returned earlier and the leak scan accepts. */
  ghost predicate SafeTrace(trace: seq<Event>, table: Table) {
    forall i | 0 <= i < |trace| && trace[i].ExtractorCalled? ::
      && NoLeakage(table, trace[i].text)
      && (exists j | 0 <= j < i :: trace[j] == MaskReturned(trace[i].text))
      && (forall j | 0 <= j < |trace| && trace[j].ExtractorCalled? :: j == i)
  }

  lemma TakeOneMore<T>(s: seq<T>, k: nat)
    requires k < |s|
    ensures s[..k + 1] == s[..k] + [s[k]]
  {}

  lemma BegunStepsAppend(trace: seq<Event>, e: Event)
    ensures BegunSteps(trace + [e]) == BegunSteps(trace) + (if e.Began? then [e.step] else [])
  {}

  lemma StepEventsBeginNothing(trace: seq<Event>, step: Step, text: string)
    ensures BegunSteps(trace + StepEvents(step, text)) == BegunSteps(trace)
  {
    match step
    case PiiMask => BegunStepsAppend(trace, MaskReturned(text));
    case LlmExtract => BegunStepsAppend(trace, ExtractorCalled(text));
    case _ => assert trace + [] == trace;
  }

  lemma {:induction false} TraceToSteps(k: nat, text: string)
    requires k <= |STEPS|
    ensures BegunSteps(TraceTo(k, text)) == STEPS[..k]
  {
    if k > 0 {
      var step := STEPS[k - 1];
      TraceToSteps(k - 1, text);
      BegunStepsAppend(TraceTo(k - 1, text), Began(step));
      StepEventsBeginNothing(TraceTo(k - 1, text) + [Began(step)], step, text);
      TakeOneMore(STEPS, k - 1);
    }
  }

  lemma {:induction false} TraceToEvents(k: nat, text: string)
    requires k <= |STEPS|
    ensures |TraceTo(k, text)| == if k < 2 then k else if k == 2 then 3 else k + 2
    ensures k >= 2 ==> TraceTo(k, text)[2] == MaskReturned(text)
    ensures forall i | 0 <= i < |TraceTo(k, text)| && TraceTo(k, text)[i].ExtractorCalled? ::
              i == 4 && k >= 3 && TraceTo(k, text)[i].text == text
  {
    if k > 0 {
      TraceToEvents(k - 1, text);
    }
  }

  /** Nothing outside the steps calls anything the trace records. */
  lemma BookkeepingKeepsTrace(step: Step, executed: Outcome, run: Run, m: string, env: Env)
    ensures AfterStep(step, executed, env).run.ctx.trace == executed.run.ctx.trace
    ensures Halt(step, run, m, env).run.ctx.trace == run.ctx.trace
  {}

  lemma OcrTrace(run: Run, env: Env)
    ensures ExecOcr(run, env).run.ctx.trace == run.ctx.trace
  {}

  lemma MaskRaisedTrace(run: Run, env: Env)
    requires run.ctx.ocrText.None? || env.mask.Raised?
    ensures ExecMask(run, env).run.ctx.trace == run.ctx.trace
  {}

  lemma MaskReturnedTrace(run: Run, env: Env)
    requires run.ctx.ocrText.Some? && env.mask.Ok?
    ensures ExecMask(run, env).run.ctx.trace == run.ctx.trace + [MaskReturned(MaskText(env))]
  {}

  lemma MaskTrace(run: Run, env: Env)
    ensures var trace := ExecMask(run, env).run.ctx.trace;
            trace == run.ctx.trace || trace == run.ctx.trace + [MaskReturned(MaskText(env))]
  {
    if run.ctx.ocrText.Some? && env.mask.Ok? {
      MaskReturnedTrace(run, env);
    } else {
      MaskRaisedTrace(run, env);
    }
  }

  lemma CriticalStepTrace(k: nat, run: Run, env: Env)
    requires k < 2
    ensures var trace := Execute(STEPS[k], run, env).run.ctx.trace;
            trace == run.ctx.trace || trace == run.ctx.trace + [MaskReturned(MaskText(env))]
  {
    if k == 0 {
      OcrTrace(run, env);
    } else {
      MaskTrace(run, env);
    }
  }

  lemma HaltedTraceForm(k: nat, run: Run, env: Env)
    requires k < 2 && Advance(STEPS[k], run, env).Halted?
    ensures var trace, begun := Advance(STEPS[k], run, env).run.ctx.trace, run.ctx.trace + [Began(STEPS[k])];
            trace == begun || trace == begun + [MaskReturned(MaskText(env))]
  {
    var step := STEPS[k];
    var executed := Execute(step, Begun(run, step), env);
    CriticalStepTrace(k, Begun(run, step), env);
    var tried := AfterStep(step, executed, env);
    BookkeepingKeepsTrace(step, executed, tried.run.(ctx := AddError(tried.run.ctx, step, tried.message)),
                          tried.message, env);
  }

  lemma HaltedShape(k: nat, text: string)
    requires k < 2
    ensures var begun := TraceTo(k, text) + [Began(STEPS[k])];
            && BegunSteps(begun) == STEPS[..k + 1] == BegunSteps(begun + [MaskReturned(text)])
            && forall i | 0 <= i < |begun| :: !begun[i].ExtractorCalled?
  {}

  lemma ReachedTrace(k: nat, document: DocumentRow, env: Env)
    requires k <= |STEPS| && RunTo(k, document, env).Next?
    ensures RunTo(k, document, env).run.ctx.trace == TraceTo(k, MaskText(env))
    ensures k >= 2 ==> NoLeakage(env.table, MaskText(env))
  {
    ReachedAt(k, document, env);
  }

  lemma HaltsAtCritical(step: Step, run: Run, env: Env)
    requires Advance(step, run, env).Halted?
    ensures IsCritical(step)
  {}

  lemma HaltedTrace(k: nat, run: Run, env: Env)
    requires k < 2 && run.ctx.trace == TraceTo(k, MaskText(env)) && Advance(STEPS[k], run, env).Halted?
    ensures var trace := Advance(STEPS[k], run, env).run.ctx.trace;
            && BegunSteps(trace) == STEPS[..k + 1]
            && forall i | 0 <= i < |trace| :: !trace[i].ExtractorCalled?
  {
    HaltedTraceForm(k, run, env);
    HaltedShape(k, MaskText(env));
  }

  /** What a run that halted in round n has left in the trace. */
  ghost predicate HaltedAt(n: nat, trace: seq<Event>)
    requires 0 < n <= |STEPS|
  {
    && IsCritical(STEPS[n - 1]) && BegunSteps(trace) == STEPS[..n]
    && forall i | 0 <= i < |trace| :: !trace[i].ExtractorCalled?
  }

  lemma HaltedRound(k: nat, p: Progress, env: Env)
    requires k < |STEPS| && p.Next? && p.run.ctx.trace == TraceTo(k, MaskText(env)) && GoOn(p, STEPS[k], env).Halted?
    ensures HaltedAt(k + 1, GoOn(p, STEPS[k], env).run.ctx.trace)
  {
    HaltsAtCritical(STEPS[k], p.run, env);
    HaltedTrace(k, p.run, env);
  }

  /** A run that halts has begun nothing after the critical step that failed, and never called the extractor. */
  lemma {:induction false} HaltedRun(k: nat, document: DocumentRow, env: Env) returns (n: nat)
    requires k <= |STEPS| && RunTo(k, document, env).Halted?
    ensures 0 < n <= k && HaltedAt(n, RunTo(k, document, env).run.ctx.trace)
  {
    if RunTo(k - 1, document, env).Halted? {
      n := HaltedRun(k - 1, document, env);
    } else {
      n := k;
      ReachedTrace(k - 1, document, env);
      HaltedRound(k - 1, RunTo(k - 1, document, env), env);
    }
  }

  lemma NextTraceSafe(k: nat, text: string, table: Table)
    requires k <= |STEPS| && (k >= 2 ==> NoLeakage(table, text))
    ensures SafeTrace(TraceTo(k, text), table) && BegunSteps(TraceTo(k, text)) == STEPS[..k]
  {
    TraceToSteps(k, text);
    TraceToEvents(k, text);
  }

  /**
   Over whole runs: steps begin in order, the trace is safe, and a critical failure is followed by no further
   step.
   */
  lemma EveryRunIsGated(k: nat, document: DocumentRow, env: Env)
    requires k <= |STEPS|
    ensures var p := RunTo(k, document, env);
            && SafeTrace(p.run.ctx.trace, env.table)
            && (p.Next? ==> BegunSteps(p.run.ctx.trace) == STEPS[..k])
            && (p.Halted? ==> exists n | 0 < n <= k ::
                  BegunSteps(p.run.ctx.trace) == STEPS[..n] && IsCritical(STEPS[n - 1]))
  {
    if RunTo(k, document, env).Next? {
      ReachedTrace(k, document, env);
      NextTraceSafe(k, MaskText(env), env.table);
    } else {
      var n := HaltedRun(k, document, env);
    }
  }

  /**
   What the extractor is given holds no plain account number and no IBAN with ASCII account digits, at any position,
   whatever the analyzer missed.
   */
  lemma ExtractorSeesNoRecognizedNumber(k: nat, document: DocumentRow, env: Env, text: string, i: nat, j: nat)
    requires Sound(env.table) && k <= |STEPS| && i <= |text| && j <= |text|
    requires ExtractorCalled(text) in RunTo(k, document, env).run.ctx.trace
    ensures !MatchAt(env.table, PlainAccount, text, i, j)
    ensures MatchAt(env.table, IbanRecognizer, text, i, j) ==> !AsciiAccountDigits(text[i..j])
  {
    EveryRunIsGated(k, document, env);
    AcceptedTextHasNoRecognizedNumber(env.table, text, i, j);
  }

  // ---------- Context and row agree ----------

  /**
   After every round, as long as no database operation has failed, a stored row holds the context's payload: the
   extractor's, then what unmasking made of it, then what normalising made of that.
   */
  lemma RowAgreesWithContext(k: nat, document: DocumentRow, env: Env)
    requires k <= |STEPS| && RunTo(k, document, env).Next?
    ensures var run := RunTo(k, document, env).run;
            run.tx.healthy && run.tx.extraction.Some? ==>
              && run.ctx.extraction == Some(run.tx.extraction.value.data)
              && env.extract.Ok? && run.tx.extraction.value.data == PayloadAfter(k, env)
  {
    ReachedAt(k, document, env);
    ReachedCarries(k, document, env);
  }

  /** When the mapping cannot be decrypted or the payload fails re-validation, context and row stay masked. */
  lemma UnmaskFailureLeavesMasked(run: Run, env: Env)
    requires run.ctx.extraction.Some? && run.tx.mapping.Some?
    requires !env.decrypt.Decrypted?
             || (var m := run.tx.mapping.value;
                 env.revalidate(UnmaskTree(run.ctx.extraction.value, m.entries, m.keys)).Raised?)
    ensures var o := ExecUnmask(run, env);
            o.run.ctx.extraction == run.ctx.extraction && o.run.tx.extraction == run.tx.extraction
  {}

  /** The run's masking is what `mask` returns for the text of its OCR step; no detection holds a '['. */
  ghost predicate MasksWith(env: Env, text: string, spans: seq<Span>, ops: map<string, string>) {
    && env.ocr == Ok(text) && !Blank(text)
    && spans != [] && ValidSpans(text, spans) && PlainKinds(spans) && PlainDetections(text, spans)
    && env.mask.Ok? && IsMasking(text, Ok(spans), ops, Ok((env.mask.value.0, env.mask.value.1.entries)))
  }

  /** The extractor returns, the mapping can be decrypted, and re-validation keeps the unmasked payload. */
  ghost predicate UnmasksWell(env: Env) {
    && env.extract.Ok? && env.mask.Ok? && env.decrypt.Decrypted? && env.schemaKnown
    && var m := env.mask.value.1;
       var unmasked := UnmaskTree(env.extract.value, m.entries, m.keys);
       env.revalidate(unmasked) == Ok(unmasked)
  }

  lemma MaskedNotEmpty(env: Env, text: string, spans: seq<Span>, ops: map<string, string>)
    requires MasksWith(env, text, spans, ops)
    ensures env.mask.value.1.entries != map[]
    ensures TokenKeys(env.mask.value.1.entries) && PlainValues(env.mask.value.1.entries)
  {
    var m := env.mask.value.1.entries;
    assert TokensOf(spans)[0] in m;
    MaskMapWellFormed(text, spans, m);
  }

  /**
   At every path where the extractor's payload is guarded, the unmasked payload has the node with its tokens
   restored.
   */
  lemma UnmaskRestores(env: Env, text: string, spans: seq<Span>, ops: map<string, string>, path: seq<nat>)
    requires MasksWith(env, text, spans, ops) && UnmasksWell(env) && GuardedAt(env.extract.value, path)
    ensures RestoredAt(env.extract.value, UnmaskedPayload(env), path, env.mask.value.1.entries)
  {
    var m := env.mask.value.1;
    MaskedNotEmpty(env, text, spans, ops);
    UnmaskTreeAt(env.extract.value, m.entries, m.keys, path);
  }

  /** The second tree has a node exactly where the first has one, and it is the restored node. */
  ghost predicate RestoredAt(before: Json, after: Json, path: seq<nat>, m: map<string, string>) {
    && NodeAt(after, path).Some? == NodeAt(before, path).Some?
    && (NodeAt(before, path).Some? ==> Restored(NodeAt(before, path).value, NodeAt(after, path).value, m))
  }

  /**
   Where the extractor returns the masked text itself, and that is guarded, unmasking gives the text with each type's
   last value in place exactly if no token of the map stands in the text outside the detections.
   */
  lemma MaskedTextComesBack(env: Env, text: string, spans: seq<Span>, ops: map<string, string>, last: seq<string>,
                            path: seq<nat>)
    requires MasksWith(env, text, spans, ops) && UnmasksWell(env) && LastValues(text, spans, last)
    requires NodeAt(env.extract.value, path) == Some(Str(env.mask.value.0.maskedText))
    requires Guarded(env.mask.value.0.maskedText)
    ensures ComesBack(NodeAt(UnmaskedPayload(env), path), text, spans, last, env.mask.value.1.entries)
  {
    var masked, m := env.mask.value.0, env.mask.value.1;
    LongestFirstLists(m.keys, m.entries);
    LeafComesBack(env, text, spans, ops, path);
    MaskRoundTrip(text, spans, ops, masked, m.entries, m.keys, last);
    RoundTripIffShared(text, spans, ops, masked, m.entries, m.keys);
  }

  /**
   The node is the text with each type's last value in place, and where the detections of each type share one value the
   text itself, exactly if no token of the map stands in the text outside the detections.
   */
  ghost predicate ComesBack(node: Option<Json>, text: string, spans: seq<Span>, last: seq<string>,
                            m: map<string, string>)
    requires ValidSpans(text, spans) && |last| == |spans|
  {
    && (node == Some(Str(Rewrite(text, spans, last))) <==> KeysAbsent(Gaps(text, spans, 0), m))
    && (SharedValues(text, spans) ==> (node == Some(Str(text)) <==> KeysAbsent(Gaps(text, spans, 0), m)))
  }

  lemma LeafComesBack(env: Env, text: string, spans: seq<Span>, ops: map<string, string>, path: seq<nat>)
    requires MasksWith(env, text, spans, ops) && UnmasksWell(env)
    requires NodeAt(env.extract.value, path) == Some(Str(env.mask.value.0.maskedText))
    requires Lists(LongestFirst(env.mask.value.1.keys), env.mask.value.1.entries)
    ensures var masked, m := env.mask.value.0, env.mask.value.1;
            NodeAt(UnmaskedPayload(env), path) ==
            Some(Str(ReplaceAll(masked.maskedText, m.entries, LongestFirst(m.keys))))
  {
    var m := env.mask.value.1;
    MaskedNotEmpty(env, text, spans, ops);
    WalkTreeNode(env.extract.value, m.entries, LongestFirst(m.keys), path);
  }

  // ---------- What a committed run leaves behind ----------

  /** What the risk detector makes of the payload the run ends with. */
  function Assessed(env: Env): Assessment
    requires env.extract.Ok?
  {
    Detected(PayloadAfter(|STEPS|, env), env)
  }

  /** The run asks for a review: there is a stored extraction and the detector wants one. */
  predicate ReviewWanted(env: Env) {
    env.extract.Ok? && env.encryptResponse.Done? && Assessed(env).requiresReview
  }

  /** The extraction row a run leaves: the payload it ends with, and what the detector made of it. */
  function StoredRow(env: Env): Option<ExtractionRow> {
    if env.extract.Ok? && env.encryptResponse.Done?
    then Some(ExtractionRow(PayloadAfter(|STEPS|, env), Assessed(env).level, Assessed(env).flags))
    else None
  }

  function AuditOf(env: Env, status: DocumentStatus): AuditRow {
    PipelineAudit(if status == Failed then "pipeline.failure" else "pipeline.success",
                  status != Failed, status, ErrorsTo(|STEPS|, env))
  }

  /** Some line holds the letters of "failed", in either case each. */
  ghost predicate SomeSayFailed(lines: seq<string>) {
    exists i | 0 <= i < |lines| :: SaysFailed(lines[i])
  }

  lemma HasErrorsIff(lines: seq<string>)
    ensures HasErrors(lines) <==> SomeSayFailed(lines)
  {
    forall i | 0 <= i < |lines| ensures Contains(Lower(lines[i]), "failed") <==> SaysFailed(lines[i]) {
      LowerFailedIff(lines[i]);
    }
  }

  /** The status a run ends with, read off the results of the foreign calls alone. */
  ghost function ExpectedStatus(env: Env): DocumentStatus {
    if env.extract.Raised? || SomeSayFailed(ErrorsTo(|STEPS|, env)) then Failed
    else if ReviewWanted(env) then Validated
    else Reviewed
  }

  /** The rows a committed attempt adds, and the status it leaves. */
  ghost predicate CommittedBy(db: Db, env: Env, db': Db, status: DocumentStatus) {
    && Gated(env)
    && status == ExpectedStatus(env)
    && db.document.Some? && db'.document == Some(DocumentRow(status, db.document.value.error))
    && db'.mappings == db.mappings + (if env.mask.value.1.entries == map[] then [] else [env.mask.value.1])
    && (db.mappings != [] ==> env.mask.value.1.entries == map[])
    && db'.extractions == db.extractions + Listed(StoredRow(env))
    && db'.tasks == db.tasks + (if ReviewWanted(env) then [TaskRow(Pending, [])] else [])
    && db'.audits == db.audits + [AuditOf(env, status)]
  }

  lemma FinishedRun(run: Run, env: Env)
    requires At(7, run, env) && AssessedIfStored(run) && Finish(run, env).Next? && Finish(run, env).run.tx.healthy
    ensures var r, status := Finish(run, env).run, FinalStatus(run.ctx);
            && run.tx.healthy
            && var event := if status == Failed then "pipeline.failure" else "pipeline.success";
               r == Run(run.ctx.(finalStatus := status),
                        run.tx.(status := status,
                                audits := [PipelineAudit(event, status != Failed, status, run.ctx.errors)]))
  {}

  /** What the run has written in its session, and its final status. */
  ghost predicate Wrote(run: Run, env: Env) {
    var tx := run.tx;
    && Gated(env)
    && run.ctx.finalStatus == tx.status == ExpectedStatus(env) && tx.error.None?
    && tx.mapping == (if env.mask.value.1.entries == map[] then None else Some(env.mask.value.1))
    && (tx.mapping.Some? ==> env.mappingFlush.Done?)
    && tx.extraction == StoredRow(env)
    && tx.tasks == (if ReviewWanted(env) then [TaskRow(Pending, [])] else [])
    && tx.audits == [AuditOf(env, tx.status)]
  }

  /** A run that reaches its commit with a healthy session has done exactly what its environment determines. */
  lemma FinishedPipeline(document: DocumentRow, env: Env)
    requires Pipeline(document, env).Next? && Pipeline(document, env).run.tx.healthy
    ensures Wrote(Pipeline(document, env).run, env)
  {
    ReachedAt(|STEPS|, document, env);
    ErrorLines(|STEPS|, document, env);
    ReachedCarries(|STEPS|, document, env);
    ReachedAssessed(document, env);
    FinishedRun(RunTo(|STEPS|, document, env).run, env);
    HasErrorsIff(ErrorsTo(|STEPS|, env));
  }

  lemma ConstraintKeepsStep(step: Step, env: Env, taken: bool)
    ensures StepErrors(step, Constrained(env, taken)) == StepErrors(step, env)
  {}

  lemma {:induction false} ConstraintKeepsErrors(k: nat, env: Env, taken: bool)
    requires k <= |STEPS|
    ensures ErrorsTo(k, Constrained(env, taken)) == ErrorsTo(k, env)
  {
    if k > 0 {
      ConstraintKeepsErrors(k - 1, env, taken);
      ConstraintKeepsStep(STEPS[k - 1], env, taken);
    }
  }

  /** The unique constraint only concerns the flush of the mapping row. */
  lemma ConstraintKeepsOutcome(run: Run, env: Env, taken: bool)
    requires Wrote(run, Constrained(env, taken))
    ensures Wrote(run, env) && (taken ==> run.tx.mapping.None?)
  {
    ConstraintKeepsErrors(|STEPS|, env, taken);
  }

  lemma CommittedFrom(db: Db, run: Run, env: Env)
    requires db.document.Some? && Wrote(run, env) && (db.mappings != [] ==> run.tx.mapping.None?)
    ensures CommittedBy(db, env, Committed(db, run.tx), run.ctx.finalStatus)
  {}

  /** Every attempt that returns normally commits one audit row that agrees with the document, and at most one task. */
  lemma AttemptCommits(db: Db, env: Env)
    requires Attempt(db, env).1.Ok?
    ensures CommittedBy(db, env, Attempt(db, env).0, Attempt(db, env).1.value)
  {
    var env' := Constrained(env, db.mappings != []);
    var run := Pipeline(db.document.value, env').run;
    FinishedPipeline(db.document.value, env');
    ConstraintKeepsOutcome(run, env, db.mappings != []);
    CommittedFrom(db, run, env);
  }

  /** The payload a committed attempt adds, when normalising leaves it alone. */
  lemma CommittedPayload(db: Db, env: Env)
    requires Attempt(db, env).1.Ok? && env.extract.Ok? && env.encryptResponse.Done?
    requires env.normalize.Raised? || env.normalize.value == UnmaskedPayload(env)
    ensures var rows := Attempt(db, env).0.extractions;
            |rows| == |db.extractions| + 1 && rows[|rows| - 1].data == UnmaskedPayload(env)
  {
    AttemptCommits(db, env);
  }

  /**
   What a whole run restores: at every path where the extractor's payload is guarded, the committed row holds the node
   with its tokens restored, when normalising leaves the payload alone.
   */
  lemma CommittedRowIsRestored(db: Db, env: Env, text: string, spans: seq<Span>, ops: map<string, string>,
                               path: seq<nat>)
    requires Attempt(db, env).1.Ok? && env.encryptResponse.Done?
    requires MasksWith(env, text, spans, ops) && UnmasksWell(env) && GuardedAt(env.extract.value, path)
    requires env.normalize.Raised? || env.normalize.value == UnmaskedPayload(env)
    ensures var rows := Attempt(db, env).0.extractions;
            && |rows| == |db.extractions| + 1
            && RestoredAt(env.extract.value, rows[|rows| - 1].data, path, env.mask.value.1.entries)
  {
    CommittedPayload(db, env);
    UnmaskRestores(env, text, spans, ops, path);
  }

  /**
   The round trip of a whole run: guarded masked text that the extractor returns somewhere in its payload is committed
   there with each type's last value in place, hence as it was read when the detections of each type share one value,
   exactly if no token of the map stands in the text outside the detections.
   */
  lemma CommittedTextComesBack(db: Db, env: Env, text: string, spans: seq<Span>, ops: map<string, string>,
                               last: seq<string>, path: seq<nat>)
    requires Attempt(db, env).1.Ok? && env.encryptResponse.Done?
    requires MasksWith(env, text, spans, ops) && UnmasksWell(env) && LastValues(text, spans, last)
    requires env.normalize.Raised? || env.normalize.value == UnmaskedPayload(env)
    requires NodeAt(env.extract.value, path) == Some(Str(env.mask.value.0.maskedText))
    requires Guarded(env.mask.value.0.maskedText)
    ensures var rows := Attempt(db, env).0.extractions;
            && |rows| == |db.extractions| + 1
            && ComesBack(NodeAt(rows[|rows| - 1].data, path), text, spans, last, env.mask.value.1.entries)
  {
    CommittedPayload(db, env);
    MaskedTextComesBack(env, text, spans, ops, last, path);
  }

  /** Degraded runs: when the extractor raises, a committed run ends failed, with no extraction and no task. */
  lemma ExtractorFailureFailsDocument(db: Db, env: Env)
    requires Attempt(db, env).1.Ok? && env.extract.Raised?
    ensures var db' := Attempt(db, env).0;
            && db'.document.Some? && db'.document.value.status == Failed
            && db'.extractions == db.extractions && db'.tasks == db.tasks
            && |db'.audits| == |db.audits| + 1 && !db'.audits[|db.audits|].success
  {
    AttemptCommits(db, env);
  }

  /** Exactly when a document ends up cleared or up for review without an extraction row. */
  lemma OpenWithoutExtraction(db: Db, env: Env)
    requires Attempt(db, env).1.Ok?
    ensures (Attempt(db, env).1.value != Failed && |Attempt(db, env).0.extractions| == |db.extractions|)
            <==> env.extract.Ok? && env.encryptResponse.Fails? && !SomeSayFailed(ErrorsTo(|STEPS|, env))
  {
    AttemptCommits(db, env);
  }

  /** Something in the payload the run ends with is flagged. */
  predicate Flagged(env: Env) {
    env.extract.Ok? && Risk.Flags(env.typed(PayloadAfter(|STEPS|, env)), env.setup) != []
  }

  lemma FlaggedWantsReview(env: Env)
    ensures ReviewWanted(env) <==> env.encryptResponse.Done? && Flagged(env)
  {
    if env.extract.Ok? {
      Risk.ReviewIffFlagged(env.typed(PayloadAfter(|STEPS|, env)), env.setup);
    }
  }

  /**
   A committed document waits for a reviewer exactly when it has not failed, its row is stored and a rule flagged
   it.
   */
  lemma AwaitsReviewIffFlagged(db: Db, env: Env)
    requires Attempt(db, env).1.Ok?
    ensures Attempt(db, env).1.value == Validated <==>
              !SomeSayFailed(ErrorsTo(|STEPS|, env)) && env.encryptResponse.Done? && Flagged(env)
  {
    AttemptCommits(db, env);
    FlaggedWantsReview(env);
  }

  /** Exactly when a document is cleared although the risk rules would flag it: they never see it. */
  lemma ClearedThoughFlagged(db: Db, env: Env)
    requires Attempt(db, env).1.Ok? && Flagged(env)
    ensures Attempt(db, env).1.value == Reviewed <==>
              !SomeSayFailed(ErrorsTo(|STEPS|, env)) && env.encryptResponse.Fails?
  {
    AttemptCommits(db, env);
    FlaggedWantsReview(env);
  }

  // ---------- With a working database only the critical steps decide whether a run commits ----------

  ghost predicate WorkingDatabase(env: Env) {
    && env.extractionFlush.Done? && env.mappingGet.Done? && env.unmaskFlush.Done?
    && env.validateFlush.Done? && env.riskFlush.Done? && env.reviewFlush.Done?
    && (forall step :: env.statusUpdate(step).Done?)
    && env.failedUpdate.Done? && env.finalUpdate.Done? && env.auditFlush.Done? && env.commit.Done?
  }

  /** What the step in round k needs to let the loop go on. */
  ghost predicate Passes(k: nat, env: Env) {
    && (k == 0 ==> env.ocr.Ok?)
    && (k == 1 ==>
          && Gated(env)
          && (env.mask.value.1.entries == map[] || (env.encryptMapping.Done? && env.mappingFlush.Done?)))
  }

  ghost predicate StaysHealthy(k: nat, run: Run, env: Env)
    requires k < |STEPS|
  {
    match Execute(STEPS[k], run, env)
    case Returned(r) => r.tx.healthy && Passes(k, env)
    case Threw(r, _) => if IsCritical(STEPS[k]) then !Passes(k, env) else r.tx.healthy
  }

  lemma EarlyHealthy(k: nat, run: Run, env: Env)
    requires k < 3 && At(k, run, env) && run.tx.healthy && WorkingDatabase(env)
    ensures StaysHealthy(k, Begun(run, STEPS[k]), env)
  {}

  lemma UnmaskHealthy(run: Run, env: Env)
    requires At(3, run, env) && run.tx.healthy && WorkingDatabase(env)
    ensures StaysHealthy(3, Begun(run, Unmask), env)
  {}

  lemma LateHealthy(k: nat, run: Run, env: Env)
    requires 4 <= k < |STEPS| && At(k, run, env) && run.tx.healthy && WorkingDatabase(env)
    ensures StaysHealthy(k, Begun(run, STEPS[k]), env)
  {}

  lemma AdvanceHealthy(k: nat, run: Run, env: Env)
    requires k < |STEPS| && StaysHealthy(k, Begun(run, STEPS[k]), env) && WorkingDatabase(env)
    ensures Advance(STEPS[k], run, env).Next? <==> Passes(k, env)
    ensures Advance(STEPS[k], run, env).Next? ==> Advance(STEPS[k], run, env).run.tx.healthy
  {}

  lemma ReachedHealthy(k: nat, document: DocumentRow, env: Env)
    requires k < |STEPS| && RunTo(k, document, env).Next? && RunTo(k, document, env).run.tx.healthy
    requires WorkingDatabase(env)
    ensures StaysHealthy(k, Begun(RunTo(k, document, env).run, STEPS[k]), env)
  {
    var run := RunTo(k, document, env).run;
    ReachedAt(k, document, env);
    if k < 3 {
      EarlyHealthy(k, run, env);
    } else if k == 3 {
      UnmaskHealthy(run, env);
    } else {
      LateHealthy(k, run, env);
    }
  }

  lemma {:induction false} RoundsHealthy(k: nat, document: DocumentRow, env: Env)
    requires k <= |STEPS| && WorkingDatabase(env)
    ensures RunTo(k, document, env).Next? <==> forall i: nat | i < k :: Passes(i, env)
    ensures RunTo(k, document, env).Next? ==> RunTo(k, document, env).run.tx.healthy
  {
    if k > 0 {
      RoundsHealthy(k - 1, document, env);
      if RunTo(k - 1, document, env).Next? {
        ReachedHealthy(k - 1, document, env);
        AdvanceHealthy(k - 1, RunTo(k - 1, document, env).run, env);
      }
    }
  }

  /** With a working database an attempt commits exactly when OCR and masking succeed: no other failure prevents it. */
  lemma CommitsIffCriticalStepsPass(db: Db, env: Env)
    requires WorkingDatabase(env)
    ensures Attempt(db, env).1.Ok? <==>
            && db.document.Some? && env.ocr.Ok? && Gated(env)
            && (env.mask.value.1.entries == map[] ||
                (env.encryptMapping.Done? && env.mappingFlush.Done? && db.mappings == []))
  {
    if db.document.Some? {
      var env' := Constrained(env, db.mappings != []);
      RoundsHealthy(|STEPS|, db.document.value, env');
      assert (forall i: nat | i < |STEPS| :: Passes(i, env')) <==> Passes(0, env') && Passes(1, env');
    }
  }

  /** The session holds the failed status with its message, and the audit row of a failure. */
  ghost predicate FailureWritten(tx: Tx) {
    && tx.status == Failed && tx.error.Some?
    && exists errors :: tx.audits == [PipelineAudit("pipeline.failure", false, Failed, errors)]
  }

  /** Nothing of the failure is in the session. */
  ghost predicate FailureUnwritten(tx: Tx) {
    tx.error.None? && tx.audits == []
  }

  /** The run gets as far as writing its mapping row, or has none to write. */
  ghost predicate ReachesMappingFlush(env: Env) {
    env.ocr.Ok? && Gated(env) && (env.mask.value.1.entries == map[] || env.encryptMapping.Done?)
  }

  /** The exception handler of a critical step writes the failed status and an audit row, if the session is healthy. */
  lemma HaltWrites(step: Step, run: Run, m: string, env: Env)
    requires WorkingDatabase(env) && FailureUnwritten(run.tx)
    ensures var p := Halt(step, run, m, env);
            p.Halted? && if run.tx.healthy then FailureWritten(p.run.tx) else FailureUnwritten(p.run.tx)
  {}

  /** Where a critical step raises, its session is healthy unless it was the mapping flush that failed. */
  lemma CriticalStepRaises(k: nat, run: Run, env: Env)
    requires k < 2 && At(k, run, env) && run.tx.healthy && WorkingDatabase(env)
    requires !Passes(k, env) && (k == 0 <==> env.ocr.Raised?)
    ensures var o := Execute(STEPS[k], Begun(run, STEPS[k]), env);
            o.Threw? && FailureUnwritten(o.run.tx) && (o.run.tx.healthy <==> !ReachesMappingFlush(env))
  {}

  /**
   When an attempt raises while its database works, its critical step has marked the document failed and audited that in
   its session, except where the mapping flush failed: then nothing could be written. Either way the rollback leaves
   the committed rows, and the document goes on showing the status it had.
   */
  lemma CriticalFailureIsInvisible(db: Db, env: Env)
    requires db.document.Some? && WorkingDatabase(env) && Attempt(db, env).1.Raised?
    ensures var p := Pipeline(db.document.value, Constrained(env, db.mappings != []));
            && p.Halted? && Attempt(db, env).0 == db
            && if ReachesMappingFlush(env) then FailureUnwritten(p.run.tx) else FailureWritten(p.run.tx)
  {
    CommitsIffCriticalStepsPass(db, env);
    CriticalFailure(db.document.value, Constrained(env, db.mappings != []));
  }

  lemma CriticalFailure(document: DocumentRow, env: Env)
    requires WorkingDatabase(env) && !(Passes(0, env) && Passes(1, env))
    ensures var p := RunTo(|STEPS|, document, env);
            p.Halted? && if ReachesMappingFlush(env) then FailureUnwritten(p.run.tx) else FailureWritten(p.run.tx)
  {
    var k := if env.ocr.Raised? then 0 else 1;
    RoundsHealthy(k, document, env);
    assert Passes(0, env) <==> env.ocr.Ok?;
    var run := RunTo(k, document, env).run;
    ReachedAt(k, document, env);
    CriticalHalt(k, run, env);
    HaltedForGood(k + 1, document, env);
  }

  lemma CriticalHalt(k: nat, run: Run, env: Env)
    requires k < 2 && At(k, run, env) && run.tx.healthy && WorkingDatabase(env)
    requires !Passes(k, env) && (k == 0 <==> env.ocr.Raised?)
    ensures var p := Advance(STEPS[k], run, env);
            p.Halted? && if ReachesMappingFlush(env) then FailureUnwritten(p.run.tx) else FailureWritten(p.run.tx)
  {
    CriticalStepRaises(k, run, env);
    var o := Execute(STEPS[k], Begun(run, STEPS[k]), env);
    HaltWrites(STEPS[k], o.run.(ctx := AddError(o.run.ctx, STEPS[k], o.message)), o.message, env);
  }

  lemma StaysHalted(k: nat, document: DocumentRow, env: Env, p: Progress)
    requires k < |STEPS| && RunTo(k, document, env) == p && p.Halted?
    ensures RunTo(k + 1, document, env) == p
  {}

  lemma {:induction false} HaltedForGood(k: nat, document: DocumentRow, env: Env)
    requires k <= |STEPS| && RunTo(k, document, env).Halted?
    ensures RunTo(|STEPS|, document, env) == RunTo(k, document, env)
    decreases |STEPS| - k
  {
    if k < |STEPS| {
      StaysHalted(k, document, env, RunTo(k, document, env));
      HaltedForGood(k + 1, document, env);
    }
  }

  // ---------- The silent failures happen ----------

  /** The value of a key of an object; null when there is none. */
  function Lookup(fields: seq<(string, Json)>, key: string): Json {
    if fields == [] then Json.Null
    else if fields[0].0 == key then fields[0].1
    else Lookup(fields[1..], key)
  }

  function FieldOf(payload: Json, key: string): Json {
    if payload.Obj? then Lookup(payload.fields, key) else Json.Null
  }

  /** A statement without transactions, with the closing balance the payload holds. */
  function StatementOf(payload: Json): Risk.Payload {
    Risk.BankStatement([], match FieldOf(FieldOf(payload, "closing_balance"), "value")
                           case Num(n) => Validation.Num(n)
                           case Null => Validation.Null
                           case _ => Validation.Other)
  }

  /** An overdrawn account. */
  const PAYLOAD := Obj([("closing_balance", Obj([("value", Json.Num(-1.0))]))])

  lemma PayloadIsOverdrawn()
    ensures StatementOf(PAYLOAD) == Risk.BankStatement([], Validation.Num(-1.0))
  {
    assert FieldOf(PAYLOAD, "closing_balance") == Obj([("value", Json.Num(-1.0))]);
  }

  function AsciiTable(): Table {
    Table(AsciiDigit, c => AsciiDigit(c) || Upper(c) || 'a' <= c <= 'z' || c == '_')
  }

  /** An overdrawn statement without PII on which everything works but, perhaps, the encryption of the response. */
  function QuietEnv(encrypt: Call): Env {
    Env(AsciiTable(), Ok(""), Ok((MaskingResult("", 0), RawMapping(map[], []))), Done, Done,
        Ok(PAYLOAD), encrypt, Done, Done, Decrypted, true, (j: Json) => Ok(j), Done,
        Ok(PAYLOAD), Done, Done, StatementOf, Risk.Setup(50000.0, 10000.0, 20, [], (s: string) => Lower(s)),
        Done, Done, step => 0, step => Done, Done, Done, Done, Done)
  }

  lemma NotMentioned(s: string)
    requires Without(s, 'f') && Without(s, 'F')
    ensures !SaysFailed(s)
  {}

  /** Everything works but, perhaps, the encryption of the response and the session's own operations. */
  ghost predicate Quiet(env: Env) {
    && env.extract.Ok? && env.mask.Ok? && env.mask.value.1.entries == map[]
    && env.normalize.Ok? && env.validate.Done?
  }

  lemma QuietStep(step: Step, env: Env)
    requires Quiet(env)
    ensures StepErrors(step, env) ==
            if env.encryptResponse.Done? then []
            else match step
              case LlmExtract => [Line(LlmExtract, env.encryptResponse.message)]
              case Validate => [Line(Validate, SKIP_VALIDATION)]
              case RiskDetect => [Line(RiskDetect, SKIP_RISK)]
              case _ => []
  {}

  lemma NextErrors(k: nat, step: Step, env: Env, before: seq<string>, more: seq<string>)
    requires k < |STEPS| && STEPS[k] == step && ErrorsTo(k, env) == before && StepErrors(step, env) == more
    ensures ErrorsTo(k + 1, env) == before + more
  {}

  lemma NoErrorsYet(k: nat, step: Step, env: Env, before: seq<string>)
    requires k < |STEPS| && STEPS[k] == step && ErrorsTo(k, env) == before && StepErrors(step, env) == []
    ensures ErrorsTo(k + 1, env) == before
  {
    NextErrors(k, step, env, before, []);
  }

  lemma QuietToExtract(env: Env)
    requires Quiet(env)
    ensures ErrorsTo(3, env) ==
            if env.encryptResponse.Done? then [] else [Line(LlmExtract, env.encryptResponse.message)]
  {
    QuietStep(Ocr, env);
    QuietStep(PiiMask, env);
    QuietStep(LlmExtract, env);
    NoErrorsYet(0, Ocr, env, []);
    NoErrorsYet(1, PiiMask, env, []);
    NextErrors(2, LlmExtract, env, [], StepErrors(LlmExtract, env));
  }

  lemma QuietToNormalize(env: Env, extracted: seq<string>)
    requires Quiet(env) && ErrorsTo(3, env) == extracted
    ensures ErrorsTo(5, env) == extracted
  {
    QuietStep(Unmask, env);
    QuietStep(Normalize, env);
    NoErrorsYet(3, Unmask, env, extracted);
    NoErrorsYet(4, Normalize, env, extracted);
  }

  lemma QuietErrors(env: Env)
    requires Quiet(env)
    ensures ErrorsTo(7, env) ==
            (if env.encryptResponse.Done? then []
             else [Line(LlmExtract, env.encryptResponse.message), Line(Validate, SKIP_VALIDATION),
                   Line(RiskDetect, SKIP_RISK)])
  {
    var extracted := ErrorsTo(3, env);
    QuietToExtract(env);
    QuietToNormalize(env, extracted);
    QuietStep(Validate, env);
    QuietStep(RiskDetect, env);
    NextErrors(5, Validate, env, extracted, StepErrors(Validate, env));
    NextErrors(6, RiskDetect, env, extracted + StepErrors(Validate, env), StepErrors(RiskDetect, env));
  }

  lemma OverdrawnIsFlagged(setup: Risk.Setup)
    ensures Risk.Flags(Risk.BankStatement([], Validation.Num(-1.0)), setup) != []
  {
    var f := Flag(NegativeBalance, Medium, None, None);
    var data := Risk.BankStatement([], Validation.Num(-1.0));
    assert f in Risk.Emitted(NegativeBalance, data, setup);
    Risk.FlagsAre(data, setup, f);
  }

  lemma QuietIsFlagged(encrypt: Call)
    ensures Sound(QuietEnv(encrypt).table) && Flagged(QuietEnv(encrypt))
  {
    PayloadIsOverdrawn();
    OverdrawnIsFlagged(QuietEnv(encrypt).setup);
  }

  lemma QuietIsGated(encrypt: Call)
    ensures WorkingDatabase(QuietEnv(encrypt)) && Gated(QuietEnv(encrypt))
  {
    var table := QuietEnv(encrypt).table;
    forall p, i: nat, j: nat | i <= 0 && j <= 0 ensures !MatchAt(table, p, "", i, j) {
      assert !Boundary(table, "", 0);
    }
  }

  lemma QuietCommits(db: Db, encrypt: Call)
    requires db.document.Some?
    ensures Attempt(db, QuietEnv(encrypt)).1.Ok?
  {
    QuietIsGated(encrypt);
    CommitsIffCriticalStepsPass(db, QuietEnv(encrypt));
  }

  const KEY_MUST := "PII_ENCRYPTION_KEY must decode"
  const TO_32_BYTES := " to exactly 32 bytes, got "

  /** What a key of n bytes raises, unless n is 32. */
  function BadKeyLength(n: nat): string {
    KEY_MUST + TO_32_BYTES + Decimal(n)
  }

  lemma BadKeyWithoutF()
    ensures Without(KEY_MUST, 'f') && Without(KEY_MUST, 'F') && Without(TO_32_BYTES, 'f') && Without(TO_32_BYTES, 'F')
  {}

  lemma KeyErrorUnmentioned(n: nat)
    ensures !SaysFailed(Line(LlmExtract, BadKeyLength(n)))
  {
    BadKeyWithoutF();
    NotMentioned(Line(LlmExtract, BadKeyLength(n)));
  }

  lemma SkippingWithoutF()
    ensures Without(SKIPPING, 'f') && Without(SKIPPING, 'F')
  {}

  lemma SkippingUnmentioned(step: Step, what: string)
    requires Without(Name(step), 'f') && Without(Name(step), 'F') && Without(what, 'f') && Without(what, 'F')
    ensures !SaysFailed(Line(step, SKIPPING + what))
  {
    SkippingWithoutF();
    NotMentioned(Line(step, SKIPPING + what));
  }

  lemma ThreeUnmentioned(a: string, b: string, c: string)
    requires !SaysFailed(a) && !SaysFailed(b) && !SaysFailed(c)
    ensures !SomeSayFailed([a, b, c])
  {}

  lemma SkippedStepsUnmentioned()
    ensures !SaysFailed(Line(Validate, SKIP_VALIDATION))
    ensures !SaysFailed(Line(RiskDetect, SKIP_RISK))
  {
    SkippingUnmentioned(Validate, "validation");
    SkippingUnmentioned(RiskDetect, "risk detection");
  }

  lemma EncryptFailureErrors(env: Env, n: nat)
    requires ErrorsTo(7, env) ==
             [Line(LlmExtract, BadKeyLength(n)), Line(Validate, SKIP_VALIDATION), Line(RiskDetect, SKIP_RISK)]
    ensures !SomeSayFailed(ErrorsTo(7, env))
  {
    KeyErrorUnmentioned(n);
    SkippedStepsUnmentioned();
    ThreeUnmentioned(Line(LlmExtract, BadKeyLength(n)), Line(Validate, SKIP_VALIDATION), Line(RiskDetect, SKIP_RISK));
  }

  /**
   With a key of any length but 32 bytes an overdrawn statement is cleared, without an extraction row and without a
   review.
   */
  lemma EncryptFailureClears(db: Db, n: nat)
    requires db.document.Some? && n != 32
    ensures var env := QuietEnv(Fails(BadKeyLength(n)));
            && Flagged(env)
            && Attempt(db, env).1 == Ok(Reviewed)
            && Attempt(db, env).0.extractions == db.extractions && Attempt(db, env).0.tasks == db.tasks
  {
    var env := QuietEnv(Fails(BadKeyLength(n)));
    QuietCommits(db, Fails(BadKeyLength(n)));
    QuietIsFlagged(Fails(BadKeyLength(n)));
    QuietErrors(env);
    EncryptFailureErrors(env, n);
    AttemptCommits(db, env);
  }
}
