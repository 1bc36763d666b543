/** Undisturbed attempts, and what a redelivered one does to a document in which nothing is masked. */
module Redelivery {
  import opened Text
  import opened Rows
  import opened PipelineSpec
  import opened PipelineProperties
  import opened Review
  import opened Protocol
  import Upload

  // ---------- One attempt from start to end, with nothing in between ----------

  /** How far one can count from k, up to a bound, before the next number fails. */
  function CountWhile(k: nat, bound: nat, passes: nat -> bool): (n: nat)
    requires k <= bound
    ensures k <= n <= bound
    ensures forall j | k < j <= n :: passes(j)
    ensures n < bound ==> !passes(n + 1)
    decreases bound - k
  {
    if k == bound || !passes(k + 1) then k else CountWhile(k + 1, bound, passes)
  }

  predicate GoesOn(k: nat, document: DocumentRow, env: Env) {
    k <= |STEPS| && RunTo(k, document, env).Next?
  }

  /** How many rounds go on before one halts the run or none is left. */
  function RoundsDone(document: DocumentRow, env: Env): (n: nat)
    ensures n <= |STEPS|
  {
    CountWhile(0, |STEPS|, (k: nat) => GoesOn(k, document, env))
  }

  /** n rounds and a last step. */
  function Rounds(id: nat, n: nat, last: Label): seq<Label> {
    if n == 0 then [last] else [DoRound(id)] + Rounds(id, n - 1, last)
  }

  /** The round that halts the run, or its end. */
  function LastStep(id: nat, n: nat): Label {
    if n == |STEPS| then FinishAttempt(id) else DoRound(id)
  }

  function Solo(id: nat, document: DocumentRow, env: Env): seq<Label> {
    var n := RoundsDone(document, env);
    [StartAttempt(id, env)] + Rounds(id, n, LastStep(id, n))
  }

  /** Nothing keeps the attempt from inserting its mapping row, if it has one, except the failure of the insert. */
  ghost predicate Undisturbed(s: State, id: nat, env: Env) {
    && id !in s.workers && s.db.document.Some?
    && (Mapped(env) ==>
          && (forall other | other in s.workers :: !Holds(s.workers[other]))
          && (s.db.mappings != [] ==> env.mappingFlush.Fails?))
  }

  function Midway(s: State, id: nat, env: Env, k: nat): State
    requires s.db.document.Some?
  {
    s.(workers := s.workers[id := Worker(env, s.db.document.value, k)])
  }

  function Concluded(s: State, env: Env): State
    requires s.db.document.Some?
  {
    if Attempt(s.db, env).1.Raised? then s
    else
      var run := PipelineSpec.Pipeline(s.db.document.value, env).run;
      s.(db := Attempt(s.db, env).0, runs := s.runs + [RunRecord(run.ctx.finalStatus, run.tx.mapping.Some?)])
  }

  lemma RoundsGoOn(document: DocumentRow, env: Env)
    ensures var n := RoundsDone(document, env);
            && (forall j: nat | 0 < j <= n :: GoesOn(j, document, env))
            && (n < |STEPS| ==> !GoesOn(n + 1, document, env))
  {
    var passes := (k: nat) => GoesOn(k, document, env);
    var n := CountWhile(0, |STEPS|, passes);
    assert n == RoundsDone(document, env);
    forall j: nat | 0 < j <= n ensures GoesOn(j, document, env) {
      assert passes(j);
    }
  }

  lemma HolderIsMapped(w: Worker)
    requires w.rounds <= |STEPS| && Position(w).Next? && Holds(w)
    ensures w.env.mappingFlush.Done? && Mapped(w.env)
  {
    ReachedAt(w.rounds, w.document, w.env);
  }

  ghost predicate Leads(s: State, l: Label, s': State) {
    Enabled(s, l) && Apply(s, l) == s'
  }

  /** Whether the table is free does not depend on the worker that asks. */
  lemma FreeForSelf(s: State, id: nat, mid: State, w: Worker)
    requires mid == s.(workers := s.workers[id := w]) && s.db.mappings == []
    requires forall other | other in s.workers :: !Holds(s.workers[other])
    ensures TableFree(mid, id)
  {}

  lemma MovedIs(s: State, id: nat, mid: State, w: Worker)
    requires id !in s.workers && mid == s.(workers := s.workers[id := w]) && w.rounds < |STEPS|
    ensures Moved(mid, id, w) ==
            if Position(NextRound(w)).Next? then s.(workers := s.workers[id := NextRound(w)]) else s
  {
    assert s.workers[id := w] - {id} == s.workers;
    assert s.workers[id := w][id := NextRound(w)] == s.workers[id := NextRound(w)];
  }

  lemma MayMoveAlone(s: State, id: nat, mid: State, w: Worker)
    requires id !in s.workers && mid == s.(workers := s.workers[id := w]) && w.rounds < |STEPS|
    requires Alone(s, w)
    ensures MayMove(mid, id, w)
  {
    if Position(NextRound(w)).Next? && Holds(NextRound(w)) {
      HolderIsMapped(NextRound(w));
      FreeForSelf(s, id, mid, w);
    }
  }

  lemma LeadsByRound(mid: State, id: nat, w: Worker, next: State)
    requires id in mid.workers && mid.workers[id] == w && w.rounds < |STEPS| && MayMove(mid, id, w)
    requires next == Moved(mid, id, w)
    ensures Leads(mid, DoRound(id), next)
  {}

  /** Nothing keeps the worker's mapping row out, except the failure of its insert. */
  ghost predicate Alone(s: State, w: Worker) {
    Mapped(w.env) ==>
      && (forall other | other in s.workers :: !Holds(s.workers[other]))
      && (s.db.mappings != [] ==> w.env.mappingFlush.Fails?)
  }

  lemma RoundOf(s: State, id: nat, mid: State, w: Worker)
    requires id !in s.workers && mid == s.(workers := s.workers[id := w]) && w.rounds < |STEPS| && Alone(s, w)
    ensures Leads(mid, DoRound(id), Moved(mid, id, w))
  {
    MayMoveAlone(s, id, mid, w);
    LeadsByRound(mid, id, w, Moved(mid, id, w));
  }

  /** A round of an undisturbed attempt leads on, or ends it. */
  lemma RoundTarget(s: State, id: nat, env: Env, j: nat)
    requires id !in s.workers && s.db.document.Some? && j < |STEPS|
    ensures Moved(Midway(s, id, env, j), id, Worker(env, s.db.document.value, j)) ==
            if GoesOn(j + 1, s.db.document.value, env) then Midway(s, id, env, j + 1) else s
  {
    MovedIs(s, id, Midway(s, id, env, j), Worker(env, s.db.document.value, j));
  }

  lemma RoundLeads(s: State, id: nat, env: Env, j: nat, target: State)
    requires Undisturbed(s, id, env) && j < |STEPS|
    requires target == if GoesOn(j + 1, s.db.document.value, env) then Midway(s, id, env, j + 1) else s
    ensures Leads(Midway(s, id, env, j), DoRound(id), target)
  {
    RoundTarget(s, id, env, j);
    RoundOf(s, id, Midway(s, id, env, j), Worker(env, s.db.document.value, j));
  }

  /** The unique constraint is no concern of a run that has nothing to insert or whose insert fails anyway. */
  lemma {:induction false} ConstraintIgnored(k: nat, document: DocumentRow, env: Env, taken: bool)
    requires k <= |STEPS| && (!Mapped(env) || (taken ==> env.mappingFlush.Fails?))
    ensures RunTo(k, document, Constrained(env, taken)) == RunTo(k, document, env)
  {
    if k > 0 {
      var j := k - 1;
      ConstraintIgnored(j, document, env, taken);
      NextIgnored(j, document, env, taken);
      assert k == j + 1;
    }
  }

  lemma NextIgnored(k: nat, document: DocumentRow, env: Env, taken: bool)
    requires k < |STEPS| && (!Mapped(env) || (taken ==> env.mappingFlush.Fails?))
    requires RunTo(k, document, Constrained(env, taken)) == RunTo(k, document, env)
    ensures RunTo(k + 1, document, Constrained(env, taken)) == RunTo(k + 1, document, env)
  {
    SameGoOn(k, RunTo(k, document, env), env, taken);
  }

  lemma SameGoOn(k: nat, p: Progress, env: Env, taken: bool)
    requires k < |STEPS| && (!Mapped(env) || (taken ==> env.mappingFlush.Fails?))
    ensures GoOn(p, STEPS[k], Constrained(env, taken)) == GoOn(p, STEPS[k], env)
  {
    if p.Next? {
      SameRound(k, p.run, env, taken);
    }
  }

  lemma SameMasking(run: Run, env: Env, call: Call)
    requires !Mapped(env)
    ensures ExecMask(run, env.(mappingFlush := call)) == ExecMask(run, env)
  {}

  /** No other step reads how the flush of the mapping row ends. */
  lemma SameOtherStep(step: Step, run: Run, env: Env, call: Call)
    requires step != PiiMask
    ensures Execute(step, run, env.(mappingFlush := call)) == Execute(step, run, env)
  {}

  lemma AdvanceSame(step: Step, run: Run, env: Env, call: Call)
    requires Execute(step, Begun(run, step), env.(mappingFlush := call)) == Execute(step, Begun(run, step), env)
    ensures Advance(step, run, env.(mappingFlush := call)) == Advance(step, run, env)
  {}

  lemma SameRound(k: nat, run: Run, env: Env, taken: bool)
    requires k < |STEPS| && (!Mapped(env) || (taken ==> env.mappingFlush.Fails?))
    ensures Advance(STEPS[k], run, Constrained(env, taken)) == Advance(STEPS[k], run, env)
  {
    var begun := Begun(run, STEPS[k]);
    if taken && env.mappingFlush.Done? {
      if STEPS[k] == PiiMask {
        SameMasking(begun, env, Fails(UNIQUE_VIOLATION));
      } else {
        SameOtherStep(STEPS[k], begun, env, Fails(UNIQUE_VIOLATION));
      }
      AdvanceSame(STEPS[k], run, env, Fails(UNIQUE_VIOLATION));
    }
  }

  /** Then the attempt is the pipeline in its environment, and the commit. */
  lemma UnconstrainedAttempt(db: Db, env: Env)
    requires db.document.Some? && (!Mapped(env) || (db.mappings != [] ==> env.mappingFlush.Fails?))
    ensures var p := PipelineSpec.Pipeline(db.document.value, env);
            if p.Next? && Attempted(p.run.tx, env.commit).Done?
            then Attempt(db, env) == (Committed(db, p.run.tx), Result.Ok(p.run.ctx.finalStatus))
            else Attempt(db, env).0 == db && Attempt(db, env).1.Raised?
  {
    ConstraintIgnored(|STEPS|, db.document.value, env, db.mappings != []);
  }

  lemma FinishApplies(s: State, id: nat, w: Worker, mid: State)
    requires id !in s.workers && mid == s.(workers := s.workers[id := w]) && w.rounds == |STEPS|
    ensures Enabled(mid, FinishAttempt(id))
    ensures var run := PipelineSpec.Pipeline(w.document, w.env).run;
            Apply(mid, FinishAttempt(id)) ==
            if !Commits(w) then s
            else s.(db := Committed(s.db, run.tx),
                    runs := s.runs + [RunRecord(run.ctx.finalStatus, run.tx.mapping.Some?)])
  {
    assert mid.workers - {id} == s.workers;
  }

  lemma FinishLeads(s: State, id: nat, env: Env)
    requires Undisturbed(s, id, env)
    ensures Leads(Midway(s, id, env, |STEPS|), FinishAttempt(id), Concluded(s, env))
  {
    UnconstrainedAttempt(s.db, env);
    FinishApplies(s, id, Worker(env, s.db.document.value, |STEPS|), Midway(s, id, env, |STEPS|));
  }

  lemma HaltedRaises(s: State, id: nat, env: Env, k: nat)
    requires Undisturbed(s, id, env) && k <= |STEPS| && !GoesOn(k, s.db.document.value, env)
    ensures Concluded(s, env) == s
  {
    HaltedForGood(k, s.db.document.value, env);
    UnconstrainedAttempt(s.db, env);
  }

  lemma StepThen(s: State, l: Label, s': State, rest: seq<Label>, end: State)
    requires Leads(s, l, s') && Legal(s', rest) && After(s', rest) == end
    ensures Legal(s, [l] + rest) && After(s, [l] + rest) == end
  {
    MoreSteps(s, l, rest);
  }

  ghost predicate EachRoundLeads(mids: seq<State>, id: nat) {
    forall j | 0 <= j < |mids| - 1 :: Leads(mids[j], DoRound(id), mids[j + 1])
  }

  /** Rounds that each lead on, and a last step, make one legal run. */
  lemma {:induction false} RoundsCompose(mids: seq<State>, id: nat, last: Label, end: State)
    requires mids != [] && EachRoundLeads(mids, id) && Leads(mids[|mids| - 1], last, end)
    ensures Legal(mids[0], Rounds(id, |mids| - 1, last)) && After(mids[0], Rounds(id, |mids| - 1, last)) == end
  {
    if |mids| == 1 {
      OneStep(mids[0], last);
    } else {
      var rest := mids[1..];
      RestLeads(mids, id);
      RoundsCompose(rest, id, last, end);
      FirstLeads(mids, id);
      StepThen(mids[0], DoRound(id), rest[0], Rounds(id, |rest| - 1, last), end);
    }
  }

  lemma RestLeads(mids: seq<State>, id: nat)
    requires mids != [] && EachRoundLeads(mids, id)
    ensures EachRoundLeads(mids[1..], id)
  {
    forall j | 0 <= j < |mids[1..]| - 1 ensures Leads(mids[1..][j], DoRound(id), mids[1..][j + 1]) {
      assert Leads(mids[j + 1], DoRound(id), mids[j + 1 + 1]);
    }
  }

  lemma FirstLeads(mids: seq<State>, id: nat)
    requires |mids| > 1 && EachRoundLeads(mids, id)
    ensures Leads(mids[0], DoRound(id), mids[1..][0])
  {
    assert Leads(mids[0], DoRound(id), mids[0 + 1]);
  }

  lemma SoloStarts(s: State, id: nat, env: Env, rounds: seq<Label>, end: State)
    requires id !in s.workers && s.db.document.Some?
    requires Legal(Midway(s, id, env, 0), rounds) && After(Midway(s, id, env, 0), rounds) == end
    ensures Legal(s, [StartAttempt(id, env)] + rounds) && After(s, [StartAttempt(id, env)] + rounds) == end
  {
    assert ([StartAttempt(id, env)] + rounds)[1..] == rounds;
  }

  lemma RoundsRun(s: State, id: nat, env: Env, n: nat, mids: seq<State>, end: State)
    requires id !in s.workers && s.db.document.Some? && |mids| == n + 1 && mids[0] == Midway(s, id, env, 0)
    requires EachRoundLeads(mids, id) && Leads(mids[n], LastStep(id, n), end)
    ensures Reaches(s, [StartAttempt(id, env)] + Rounds(id, n, LastStep(id, n)), end)
  {
    RoundsCompose(mids, id, LastStep(id, n), end);
    SoloStarts(s, id, env, Rounds(id, n, LastStep(id, n)), end);
  }

  lemma UndisturbedSolo(s: State, id: nat, env: Env)
    requires Undisturbed(s, id, env)
    ensures Reaches(s, Solo(id, s.db.document.value, env), Concluded(s, env))
    ensures Concluded(s, env).db == Attempt(s.db, env).0
  {
    var n := RoundsDone(s.db.document.value, env);
    var mids := seq(n + 1, j requires 0 <= j => Midway(s, id, env, j));
    EarlierLead(s, id, env, n, mids);
    LastLeads(s, id, env, n);
    RoundsRun(s, id, env, n, mids, Concluded(s, env));
    ConcludedRows(s, env);
  }

  lemma MidwayLost(s: State, id: nat, env: Env, n: nat)
    requires Undisturbed(s, id, env)
    ensures Leads(Midway(s, id, env, n), LoseWorker(id), s)
  {
    assert s.workers[id := Worker(env, s.db.document.value, n)] - {id} == s.workers;
  }

  /** A worker that is lost after any of its rounds, its mapping row inserted or not, has left nothing. */
  lemma LostWorkerLeavesNothing(s: State, id: nat, env: Env, n: nat)
    requires Undisturbed(s, id, env) && n <= RoundsDone(s.db.document.value, env)
    ensures Reaches(s, [StartAttempt(id, env)] + Rounds(id, n, LoseWorker(id)), s)
  {
    var all := RoundsDone(s.db.document.value, env);
    var mids := seq(all + 1, j requires 0 <= j => Midway(s, id, env, j));
    EarlierLead(s, id, env, all, mids);
    FewerLead(mids, id, n);
    MidwayLost(s, id, env, n);
    RoundsCompose(mids[..n + 1], id, LoseWorker(id), s);
    SoloStarts(s, id, env, Rounds(id, n, LoseWorker(id)), s);
  }

  lemma FewerLead(mids: seq<State>, id: nat, n: nat)
    requires EachRoundLeads(mids, id) && n < |mids|
    ensures EachRoundLeads(mids[..n + 1], id)
  {
    var few := mids[..n + 1];
    forall j | 0 <= j < |few| - 1 ensures Leads(few[j], DoRound(id), few[j + 1]) {
      assert Leads(mids[j], DoRound(id), mids[j + 1]);
    }
  }

  lemma ConcludedRows(s: State, env: Env)
    requires s.db.document.Some? && (!Mapped(env) || (s.db.mappings != [] ==> env.mappingFlush.Fails?))
    ensures Concluded(s, env).db == Attempt(s.db, env).0
  {
    UnconstrainedAttempt(s.db, env);
  }

  /** Applying the unique constraint once is enough. */
  lemma ConstraintOnce(db: Db, env: Env)
    ensures Attempt(db, Constrained(env, db.mappings != [])) == Attempt(db, env)
  {
    var taken := db.mappings != [];
    assert Constrained(Constrained(env, taken), taken) == Constrained(env, taken);
  }

  /**
   The interleaved steps of an attempt that nobody disturbs do what the sequential attempt does, whether it commits,
   raises, or is refused its mapping row by the unique constraint.
   */
  lemma SoloRefinesAttempt(s: State, id: nat, env: Env)
    requires id !in s.workers && s.db.document.Some?
    requires Mapped(env) ==> forall other | other in s.workers :: !Holds(s.workers[other])
    ensures var met := Constrained(env, s.db.mappings != []);
            && Reaches(s, Solo(id, s.db.document.value, met), Concluded(s, met))
            && Concluded(s, met).db == Attempt(s.db, env).0
  {
    UndisturbedSolo(s, id, Constrained(env, s.db.mappings != []));
    ConstraintOnce(s.db, env);
  }

  lemma EarlierLead(s: State, id: nat, env: Env, n: nat, mids: seq<State>)
    requires Undisturbed(s, id, env) && n == RoundsDone(s.db.document.value, env)
    requires |mids| == n + 1 && forall j | 0 <= j <= n :: mids[j] == Midway(s, id, env, j)
    ensures EachRoundLeads(mids, id)
  {
    RoundsGoOn(s.db.document.value, env);
    forall j | 0 <= j < n ensures Leads(mids[j], DoRound(id), mids[j + 1]) {
      RoundLeads(s, id, env, j, mids[j + 1]);
    }
  }

  lemma HaltLeads(s: State, id: nat, env: Env, n: nat)
    requires Undisturbed(s, id, env) && n < |STEPS| && !GoesOn(n + 1, s.db.document.value, env)
    ensures Leads(Midway(s, id, env, n), DoRound(id), Concluded(s, env))
  {
    HaltedRaises(s, id, env, n + 1);
    RoundLeads(s, id, env, n, s);
  }

  lemma NextHalts(document: DocumentRow, env: Env, n: nat)
    requires n == RoundsDone(document, env) && n < |STEPS|
    ensures !GoesOn(n + 1, document, env)
  {
    RoundsGoOn(document, env);
  }

  /** The last step of an undisturbed attempt concludes it. */
  lemma LastLeads(s: State, id: nat, env: Env, n: nat)
    requires Undisturbed(s, id, env) && n == RoundsDone(s.db.document.value, env)
    ensures Leads(Midway(s, id, env, n), LastStep(id, n), Concluded(s, env))
  {
    if n == |STEPS| {
      FinishLeads(s, id, env);
    } else {
      NextHalts(s.db.document.value, env, n);
      HaltLeads(s, id, env, n);
    }
  }

  // ---------- Runs whose attempts all meet one environment ----------

  ghost predicate AllMeet(labels: seq<Label>, env: Env) {
    forall i | 0 <= i < |labels| && labels[i].StartAttempt? :: labels[i].env == env
  }

  lemma AllMeetConcat(a: seq<Label>, b: seq<Label>, env: Env)
    requires AllMeet(a, env) && AllMeet(b, env)
    ensures AllMeet(a + b, env)
  {}

  lemma {:induction false} RoundsMeet(id: nat, n: nat, last: Label, env: Env)
    requires !last.StartAttempt?
    ensures AllMeet(Rounds(id, n, last), env)
  {
    if n > 0 {
      RoundsMeet(id, n - 1, last, env);
    }
  }

  lemma SoloMeets(id: nat, document: DocumentRow, env: Env)
    ensures AllMeet(Solo(id, document, env), env)
  {
    var n := RoundsDone(document, env);
    RoundsMeet(id, n, LastStep(id, n), env);
    AllMeetConcat([StartAttempt(id, env)], Rounds(id, n, LastStep(id, n)), env);
  }

  // ---------- Without a mapping row nothing stops a second run ----------

  /** The database works, and OCR and masking succeed on text the leak scan accepts. */
  ghost predicate Smooth(env: Env) {
    WorkingDatabase(env) && env.ocr.Ok? && Gated(env)
  }

  /** A visible document in which nothing is masked, on which a further attempt can begin. */
  ghost predicate Unmapped(s: State, id: nat, env: Env) {
    id !in s.workers && s.db.document.Some? && Smooth(env) && !Mapped(env)
  }

  /** One more run: the status its environment determines, whatever was decided before, and a task if it wants one. */
  ghost predicate OneRunMore(s: State, s': State, env: Env) {
    && s.db.document.Some?
    && s'.db.document == Some(DocumentRow(ExpectedStatus(env), s.db.document.value.error))
    && s'.db.tasks == s.db.tasks + (if ReviewWanted(env) then [TaskRow(Pending, [])] else [])
    && s'.db.mappings == s.db.mappings && |s'.runs| == |s.runs| + 1
    && s'.upload == s.upload && s'.workers == s.workers && s'.reviews == s.reviews
  }

  ghost predicate ReachesMeeting(s: State, labels: seq<Label>, s': State, env: Env) {
    Reaches(s, labels, s') && AllMeet(labels, env)
  }

  lemma ChainMeeting(s: State, a: seq<Label>, s1: State, b: seq<Label>, s2: State, env: Env)
    requires ReachesMeeting(s, a, s1, env) && ReachesMeeting(s1, b, s2, env)
    ensures ReachesMeeting(s, a + b, s2, env)
  {
    Chain(s, a, s1, b, s2);
    AllMeetConcat(a, b, env);
  }

  /** Where nothing is masked, a further attempt commits on any visible document, from any state. */
  lemma UnmappedRedelivery(s: State, id: nat, env: Env) returns (s': State)
    requires Unmapped(s, id, env)
    ensures ReachesMeeting(s, Solo(id, s.db.document.value, env), s', env)
    ensures OneRunMore(s, s', env)
  {
    s' := Concluded(s, env);
    CommitsIffCriticalStepsPass(s.db, env);
    AttemptCommits(s.db, env);
    UndisturbedSolo(s, id, env);
    SoloMeets(id, s.db.document.value, env);
  }

  const UPLOAD: seq<Label> := [SaveDocument, EnqueueTask, UpdateStatus, CommitUpload]

  lemma UploadApplies(env: Env)
    ensures ReachesMeeting(Initial(), UPLOAD, Accepted(), env)
  {
    LastOfUpload();
    Upload.EndsAfter(CommitUpload, Accepted());
  }

  /** Upload, and two attempts one after the other. */
  lemma TwoRunsCommit(env: Env) returns (labels: seq<Label>, s': State)
    requires Smooth(env) && !Mapped(env)
    ensures ReachesMeeting(Initial(), labels, s', env) && |s'.runs| == 2
  {
    var s := Accepted();
    UploadApplies(env);
    var s1 := UnmappedRedelivery(s, 0, env);
    var first := Solo(0, s.db.document.value, env);
    var s2 := UnmappedRedelivery(s1, 1, env);
    var second := Solo(1, s1.db.document.value, env);
    ChainMeeting(s, first, s1, second, s2, env);
    ChainMeeting(Initial(), UPLOAD, s, first + second, s2, env);
    labels, s' := UPLOAD + (first + second), s2;
  }

  lemma MeetMapped(labels: seq<Label>, env: Env)
    requires AllMeet(labels, env) && Mapped(env)
    ensures MappedLabels(labels)
  {}

  /**
   A document commits at most one run, in every interleaving of redeliveries, exactly if masking finds something
   in it.
   */
  lemma SingleCommitIffMapped(env: Env)
    requires Smooth(env)
    ensures (forall labels | Legal(Initial(), labels) && AllMeet(labels, env) :: |After(Initial(), labels).runs| <= 1)
            <==> Mapped(env)
  {
    if Mapped(env) {
      forall labels | Legal(Initial(), labels) && AllMeet(labels, env)
        ensures |After(Initial(), labels).runs| <= 1
      {
        MeetMapped(labels, env);
        SingleCommit(labels);
      }
    } else {
      var labels, s' := TwoRunsCommit(env);
    }
  }

  // ---------- Escalated documents ----------

  lemma FreshId<T>(m: map<nat, T>) returns (id: nat)
    ensures id !in m
  {
    id := Beyond(m.Keys);
  }

  lemma {:induction false} Beyond(ids: set<nat>) returns (id: nat)
    ensures forall i | i in ids :: i < id
  {
    id := 0;
    if ids != {} {
      var i :| i in ids;
      var others := ids - {i};
      var above := Beyond(others);
      id := if above <= i then i + 1 else above;
      assert forall j | j in ids :: j == i || j in others;
    }
  }

  function Approval(id: nat, task: nat): seq<Label> {
    [LockTask(id, task, Approve), CommitDecision(id)]
  }

  /** The task exists and has not been decided. */
  predicate Open(db: Db, task: nat) {
    task < |db.tasks| && db.tasks[task].status in {Pending, InReview}
  }

  /** A review session's steps: an open task is locked and then decided, or given back when an operation fails. */
  function ReviewLabels(db: Db, id: nat, task: nat, decision: Decision, works: bool): seq<Label> {
    [LockTask(id, task, decision)] +
    if !Open(db, task) then [] else [if works then CommitDecision(id) else AbortDecision(id)]
  }

  lemma LockedThen(s: State, id: nat, task: nat, decision: Decision, last: Label, end: State)
    requires Open(s.db, task) && id !in s.reviews && !Locked(s, task)
    requires Leads(s.(reviews := s.reviews[id := ReviewTx(task, s.db.tasks[task].status, decision)]), last, end)
    ensures Reaches(s, [LockTask(id, task, decision)] + [last], end)
  {
    var locked := s.(reviews := s.reviews[id := ReviewTx(task, s.db.tasks[task].status, decision)]);
    assert Apply(s, LockTask(id, task, decision)) == locked;
    OneStep(locked, last);
    MoreSteps(s, LockTask(id, task, decision), [last]);
  }

  /**
   Those steps do what the decision does in its session: with the task open and everything working the decision
   is filed, else the rows stay; and either way the lock is free again.
   */
  lemma ReviewRefinesProtocol(s: State, id: nat, task: nat, decision: Decision, works: bool)
    requires id !in s.reviews && !Locked(s, task)
    ensures Reaches(s, ReviewLabels(s.db, id, task, decision, works),
                    if Open(s.db, task) && works then s.(db := Decided(s.db, task, decision)) else s)
  {
    if Open(s.db, task) {
      var locked := s.(reviews := s.reviews[id := ReviewTx(task, s.db.tasks[task].status, decision)]);
      assert locked.reviews - {id} == s.reviews;
      var end := if works then s.(db := Decided(s.db, task, decision)) else s;
      LockedThen(s, id, task, decision, if works then CommitDecision(id) else AbortDecision(id), end);
    } else {
      OneStep(s, LockTask(id, task, decision));
    }
  }

  /** Approving an open task that nobody has locked. */
  lemma ApprovalApplies(s: State, id: nat, task: nat)
    requires task < |s.db.tasks| && s.db.tasks[task].status == Pending && id !in s.reviews && !Locked(s, task)
    ensures Reaches(s, Approval(id, task), s.(db := Decided(s.db, task, Approve)))
  {
    ReviewRefinesProtocol(s, id, task, Approve, true);
    assert [LockTask(id, task, Approve)] + [CommitDecision(id)] == Approval(id, task);
  }

  lemma LastTaskApproved(db: Db, tasks: seq<TaskRow>)
    requires db.tasks == tasks + [TaskRow(Pending, [])] && db.document.Some?
    ensures var db' := Decided(db, |tasks|, Approve);
            && db'.tasks == tasks + [TaskRow(Approved, [Approve])]
            && db'.document == Some(db.document.value.(status := Reviewed))
  {
    assert [] + [Approve] == [Approve];
  }

  /**
   Whatever has been decided, where nothing is masked a further attempt and an approval of its task clear the
   document.
   */
  lemma UnmappedMovesOn(s: State, env: Env) returns (later: seq<Label>, s': State)
    requires Inv(s) && s.db.document.Some? && Smooth(env) && !Mapped(env) && ReviewWanted(env)
    ensures ReachesMeeting(s, later, s', env)
    ensures s'.db.tasks == s.db.tasks + [TaskRow(Approved, [Approve])]
    ensures s'.db.document.Some? && s'.db.document.value.status == Reviewed
  {
    var id := FreshId(s.workers);
    var attempt := Solo(id, s.db.document.value, env);
    var s1 := UnmappedRedelivery(s, id, env);
    assert forall r | r in s1.reviews :: s1.reviews[r].task < |s.db.tasks|;
    var approval := ApproveLast(s1, s.db.tasks, env);
    s' := s1.(db := Decided(s1.db, |s.db.tasks|, Approve));
    ChainMeeting(s, attempt, s1, approval, s', env);
    LastTaskApproved(s1.db, s.db.tasks);
    later := attempt + approval;
  }

  /** Approving a new task. */
  lemma ApproveLast(s: State, tasks: seq<TaskRow>, env: Env) returns (approval: seq<Label>)
    requires s.db.tasks == tasks + [TaskRow(Pending, [])] && forall r | r in s.reviews :: s.reviews[r].task < |tasks|
    ensures ReachesMeeting(s, approval, s.(db := Decided(s.db, |tasks|, Approve)), env)
  {
    var reviewer := FreshId(s.reviews);
    ApprovalApplies(s, reviewer, |tasks|);
    approval := Approval(reviewer, |tasks|);
  }

  /** Tasks exist only where the environment wants a review. */
  ghost predicate MeetInv(s: State, env: Env) {
    && (forall id | id in s.workers :: s.workers[id].env == env)
    && (s.db.tasks != [] ==> ReviewWanted(env))
  }

  lemma MeetFinish(s: State, id: nat, env: Env)
    requires Inv(s) && MeetInv(s, env) && Enabled(s, FinishAttempt(id))
    ensures MeetInv(Apply(s, FinishAttempt(id)), env)
  {
    var w := s.workers[id];
    if Commits(w) {
      FinishedPipeline(w.document, w.env);
    }
  }

  lemma MeetKeeps(s: State, l: Label, env: Env)
    requires Inv(s) && MeetInv(s, env) && Enabled(s, l) && (l.StartAttempt? ==> l.env == env)
    ensures MeetInv(Apply(s, l), env)
  {
    OnlyCommitsWrite(s, l);
    if l.FinishAttempt? {
      MeetFinish(s, l.id, env);
    }
  }

  lemma {:induction false} MeetRun(s: State, labels: seq<Label>, env: Env)
    requires Inv(s) && MeetInv(s, env) && Legal(s, labels) && AllMeet(labels, env)
    ensures MeetInv(After(s, labels), env)
    decreases |labels|
  {
    if labels != [] {
      StepKeeps(s, labels[0]);
      MeetKeeps(s, labels[0], env);
      assert AllMeet(labels[1..], env);
      MeetRun(Apply(s, labels[0]), labels[1..], env);
    }
  }

  ghost predicate Unmoved(s: State, s': State) {
    && s'.db.tasks == s.db.tasks
    && s.db.document.Some? && s'.db.document.Some? && s'.db.document.value.status == s.db.document.value.status
  }

  lemma MappedStaysStuck(first: seq<Label>, s: State, later: seq<Label>, env: Env)
    requires Reaches(Initial(), first, s) && AllMeet(first, env) && EscalatedIn(s) && Mapped(env)
    requires Legal(s, later) && AllMeet(later, env)
    ensures Unmoved(s, After(s, later))
  {
    MeetMapped(first, env);
    MeetMapped(later, env);
    EscalatedDocumentIsStuck(first, later);
  }

  lemma UnmappedIsMoved(first: seq<Label>, s: State, env: Env) returns (later: seq<Label>)
    requires Smooth(env) && Reaches(Initial(), first, s) && AllMeet(first, env) && EscalatedIn(s) && !Mapped(env)
    ensures Legal(s, later) && AllMeet(later, env) && !Unmoved(s, After(s, later))
  {
    RunKeeps(Initial(), first);
    MeetRun(Initial(), first, env);
    var s';
    later, s' := UnmappedMovesOn(s, env);
  }

  /** An escalated document is stuck, whatever attempts and reviewers do, exactly if masking finds something in it. */
  lemma EscalatedStuckIffMapped(first: seq<Label>, s: State, env: Env)
    requires Smooth(env) && Reaches(Initial(), first, s) && AllMeet(first, env) && EscalatedIn(s)
    ensures (forall later | Legal(s, later) && AllMeet(later, env) :: Unmoved(s, After(s, later))) <==> Mapped(env)
  {
    if Mapped(env) {
      forall later | Legal(s, later) && AllMeet(later, env) ensures Unmoved(s, After(s, later)) {
        MappedStaysStuck(first, s, later, env);
      }
    } else {
      var later := UnmappedIsMoved(first, s, env);
    }
  }

  // ---------- An example ----------

  /** An overdrawn statement without PII. */
  function FlaggedEnv(): Env {
    QuietEnv(Call.Done)
  }

  lemma WaitsWithoutErrors(env: Env)
    requires ErrorsTo(|STEPS|, env) == [] && ReviewWanted(env)
    ensures ExpectedStatus(env) == Validated
  {}

  lemma FlaggedWaits()
    ensures ExpectedStatus(FlaggedEnv()) == Validated && ReviewWanted(FlaggedEnv())
  {
    QuietErrors(FlaggedEnv());
    QuietIsFlagged(Call.Done);
    FlaggedWantsReview(FlaggedEnv());
    WaitsWithoutErrors(FlaggedEnv());
  }

  lemma FlaggedIsSmooth()
    ensures Smooth(FlaggedEnv()) && !Mapped(FlaggedEnv())
  {
    QuietIsGated(Call.Done);
  }

  /** Approved, such a statement goes back to waiting for a review when its task is delivered a second time. */
  lemma RedeliveryReopensApproval() returns (first: seq<Label>, s: State, second: seq<Label>, s': State)
    ensures Reaches(Initial(), first, s) && Reaches(s, second, s')
    ensures s.db.document == Some(DocumentRow(Reviewed, None)) && |s.runs| == 1
    ensures |s.db.tasks| == 1 && s.db.tasks[0].status == Approved
    ensures s'.db.document == Some(DocumentRow(Validated, None)) && |s'.runs| == 2
    ensures s'.db.tasks == s.db.tasks + [TaskRow(Pending, [])]
  {
    var env := FlaggedEnv();
    FlaggedIsSmooth();
    FlaggedWaits();
    UploadApplies(env);
    var attempt;
    attempt, s := AttemptApproved(Accepted(), env);
    Chain(Initial(), UPLOAD, Accepted(), attempt, s);
    s' := UnmappedRedelivery(s, 1, env);
    first, second := UPLOAD + attempt, Solo(1, s.db.document.value, env);
  }

  lemma AttemptApproved(s: State, env: Env) returns (labels: seq<Label>, s': State)
    requires s == Accepted() && Smooth(env) && !Mapped(env) && ReviewWanted(env)
    ensures Reaches(s, labels, s')
    ensures s'.db.document == Some(DocumentRow(Reviewed, None)) && s'.db.tasks == [TaskRow(Approved, [Approve])]
    ensures |s'.runs| == 1 && s'.workers == map[]
  {
    var s1 := UnmappedRedelivery(s, 0, env);
    var attempt := Solo(0, s.db.document.value, env);
    assert s1.db.tasks == [] + [TaskRow(Pending, [])];
    var approval := ApproveLast(s1, [], env);
    s' := s1.(db := Decided(s1.db, 0, Approve));
    Chain(s, attempt, s1, approval, s');
    LastTaskApproved(s1.db, []);
    labels := attempt + approval;
  }
}
