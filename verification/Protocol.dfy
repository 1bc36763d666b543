/**
 Upload, any number of pipeline workers and any number of reviewers, interleaved over the committed rows of one
 document. A worker's transition is one step of its pipeline; nothing of it is visible before its commit.
 */
module Protocol {
  import opened Text
  import opened Rows
  import opened PipelineSpec
  import opened PipelineProperties
  import opened Review

  datatype UploadPhase = Idle | Saved | Enqueued | Updated | Finished | Aborted

  /** A running attempt: what it meets, the document row it read, and the rounds it has done. */
  datatype Worker = Worker(env: Env, document: DocumentRow, rounds: nat)

  /** A review session that holds its task's row lock and has read an open status. */
  datatype ReviewTx = ReviewTx(task: nat, seen: TaskStatus, decision: Decision)

  /** A committed pipeline run. */
  datatype RunRecord = RunRecord(status: DocumentStatus, storedMapping: bool)

  datatype State = State(
    db: Db,
    upload: UploadPhase,
    workers: map<nat, Worker>,
    reviews: map<nat, ReviewTx>,
    runs: seq<RunRecord>)

  datatype Label =
    | SaveDocument | EnqueueTask | UpdateStatus | CommitUpload | AbortUpload
    | StartAttempt(id: nat, env: Env) | DoRound(id: nat) | FinishAttempt(id: nat) | LoseWorker(id: nat)
    | LockTask(id: nat, task: nat, decision: Decision) | CommitDecision(id: nat) | AbortDecision(id: nat)

  function Initial(): State {
    State(Db(None, [], [], [], []), Idle, map[], map[], [])
  }

  function Position(w: Worker): Progress
    requires w.rounds <= |STEPS|
  {
    RunTo(w.rounds, w.document, w.env)
  }

  /** The worker has inserted a mapping row it has not committed. */
  predicate Holds(w: Worker) {
    w.rounds <= |STEPS| && Position(w).run.tx.mapping.Some?
  }

  /** An insert into the mappings table goes through only if no row is there and no other session has one pending. */
  predicate TableFree(s: State, id: nat) {
    s.db.mappings == [] && forall other | other in s.workers && other != id :: !Holds(s.workers[other])
  }

  function NextRound(w: Worker): Worker {
    w.(rounds := w.rounds + 1)
  }

  /** The next round needs the table only if it is the one that inserts the mapping row. */
  predicate MayMove(s: State, id: nat, w: Worker)
    requires w.rounds < |STEPS|
  {
    !Holds(w) && Position(NextRound(w)).Next? && Holds(NextRound(w)) ==> TableFree(s, id)
  }

  /** A round moves the worker on, or ends it. */
  function Moved(s: State, id: nat, w: Worker): State
    requires w.rounds < |STEPS|
  {
    s.(workers := if Position(NextRound(w)).Next? then s.workers[id := NextRound(w)] else s.workers - {id})
  }

  /** The attempt, once it has done all its rounds, returns normally and commits. */
  predicate Commits(w: Worker) {
    var p := PipelineSpec.Pipeline(w.document, w.env);
    p.Next? && Attempted(p.run.tx, w.env.commit).Done?
  }

  predicate Locked(s: State, task: nat) {
    exists id | id in s.reviews :: s.reviews[id].task == task
  }

  predicate Enabled(s: State, l: Label) {
    match l
    case SaveDocument => s.upload == Idle
    case EnqueueTask => s.upload == Saved
    case UpdateStatus => s.upload == Enqueued
    case CommitUpload => s.upload == Updated
    case AbortUpload => s.upload == Saved || s.upload == Enqueued || s.upload == Updated
    case StartAttempt(id, _) => id !in s.workers
    case DoRound(id) => id in s.workers && s.workers[id].rounds < |STEPS| && MayMove(s, id, s.workers[id])
    case FinishAttempt(id) => id in s.workers && s.workers[id].rounds == |STEPS|
    case LoseWorker(id) => id in s.workers
    case LockTask(id, task, _) => id !in s.reviews && !Locked(s, task)
    case CommitDecision(id) => id in s.reviews && s.reviews[id].task < |s.db.tasks|
    case AbortDecision(id) => id in s.reviews
  }

  function Apply(s: State, l: Label): State
    requires Enabled(s, l)
  {
    match l
    case SaveDocument => s.(upload := Saved)
    case EnqueueTask => s.(upload := Enqueued)
    case UpdateStatus => s.(upload := Updated)
    case CommitUpload =>
      // Writes the status whatever the row holds: that it never overwrites anything is a theorem below.
      s.(upload := Finished,
         db := s.db.(document := Some(DocumentRow(
           Processing, if s.db.document.Some? then s.db.document.value.error else None))))
    case AbortUpload => s.(upload := Aborted)
    case StartAttempt(id, env) =>
      if s.db.document.None? then s else s.(workers := s.workers[id := Worker(env, s.db.document.value, 0)])
    case DoRound(id) => Moved(s, id, s.workers[id])
    case FinishAttempt(id) =>
      var w, gone := s.workers[id], s.(workers := s.workers - {id});
      if !Commits(w) then gone
      else
        var run := PipelineSpec.Pipeline(w.document, w.env).run;
        gone.(db := Committed(s.db, run.tx),
              runs := s.runs + [RunRecord(run.ctx.finalStatus, run.tx.mapping.Some?)])
    case LoseWorker(id) => s.(workers := s.workers - {id})
    case LockTask(id, task, decision) =>
      if task >= |s.db.tasks| || Terminal(s.db.tasks[task].status) then s
      else s.(reviews := s.reviews[id := ReviewTx(task, s.db.tasks[task].status, decision)])
    case CommitDecision(id) =>
      s.(db := Decided(s.db, s.reviews[id].task, s.reviews[id].decision), reviews := s.reviews - {id})
    case AbortDecision(id) => s.(reviews := s.reviews - {id})
  }

  // ---------- The invariant of every run ----------

  ghost predicate UploadInv(s: State) {
    if s.upload != Finished then s.db == Initial().db && s.workers == map[] && s.reviews == map[] && s.runs == []
    else s.db.document.Some? && (s.runs == [] ==> s.db.tasks == [] && s.db.document.value.status == Processing)
         && (s.runs != [] ==> s.db.document.value.status in {Failed, Validated, Reviewed})
  }

  ghost predicate WorkerInv(s: State) {
    && (forall id | id in s.workers :: s.workers[id].rounds <= |STEPS| && Position(s.workers[id]).Next?)
    && (forall a, b | a in s.workers && b in s.workers && Holds(s.workers[a]) && Holds(s.workers[b]) :: a == b)
    && ((exists id | id in s.workers :: Holds(s.workers[id])) ==> s.db.mappings == [])
  }

  function MappedRuns(runs: seq<RunRecord>): nat {
    if runs == [] then 0
    else MappedRuns(runs[..|runs| - 1]) + (if runs[|runs| - 1].storedMapping then 1 else 0)
  }

  ghost predicate MappingInv(s: State) {
    MappedRuns(s.runs) == |s.db.mappings| <= 1
  }

  ghost predicate ReviewInv(s: State) {
    && (forall i | 0 <= i < |s.db.tasks| :: Coherent(s.db.tasks[i]))
    && (forall id | id in s.reviews ::
          && s.reviews[id].task < |s.db.tasks|
          && s.db.tasks[s.reviews[id].task].status == s.reviews[id].seen
          && !Terminal(s.reviews[id].seen))
    && (forall a, b | a in s.reviews && b in s.reviews && s.reviews[a].task == s.reviews[b].task :: a == b)
  }

  ghost predicate Inv(s: State) {
    UploadInv(s) && WorkerInv(s) && MappingInv(s) && ReviewInv(s)
  }

  /** What a committing attempt writes. */
  ghost predicate Writes(tx: Tx, status: DocumentStatus, stores: bool) {
    && tx.status == status && status in {Failed, Validated, Reviewed}
    && tx.error.None?
    && (tx.mapping.Some? <==> stores)
    && (tx.tasks == [] || tx.tasks == [TaskRow(Pending, [])])
    && (status == Validated ==> tx.tasks == [TaskRow(Pending, [])])
  }

  lemma CommittedRun(w: Worker)
    requires w.rounds == |STEPS| && Commits(w)
    ensures var run := PipelineSpec.Pipeline(w.document, w.env).run;
            Writes(run.tx, run.ctx.finalStatus, Holds(w))
  {
    FinishedPipeline(w.document, w.env);
    ReachedAt(|STEPS|, w.document, w.env);
  }

  lemma MappedRunsAppend(runs: seq<RunRecord>, r: RunRecord)
    ensures MappedRuns(runs + [r]) == MappedRuns(runs) + (if r.storedMapping then 1 else 0)
  {}

  /** A commit of a pipeline's writes, apart from the run that made them. */
  ghost predicate Commit(s: State, s': State, id: nat, tx: Tx, status: DocumentStatus) {
    && id in s.workers && s.upload == Finished && Writes(tx, status, Holds(s.workers[id]))
    && s' == s.(workers := s.workers - {id}, db := Committed(s.db, tx),
                runs := s.runs + [RunRecord(status, tx.mapping.Some?)])
  }

  lemma CommitKeepsWorkers(s: State, s': State, id: nat, tx: Tx, status: DocumentStatus)
    requires WorkerInv(s) && MappingInv(s) && Commit(s, s', id, tx, status)
    ensures WorkerInv(s') && MappingInv(s')
  {
    MappedRunsAppend(s.runs, RunRecord(status, tx.mapping.Some?));
  }

  lemma CommitKeepsReviews(s: State, s': State, id: nat, tx: Tx, status: DocumentStatus)
    requires UploadInv(s) && ReviewInv(s) && Commit(s, s', id, tx, status)
    ensures UploadInv(s') && ReviewInv(s')
  {}

  lemma FinishKeeps(s: State, id: nat)
    requires Inv(s) && Enabled(s, FinishAttempt(id))
    ensures Inv(Apply(s, FinishAttempt(id)))
  {
    var w, s' := s.workers[id], Apply(s, FinishAttempt(id));
    if Commits(w) {
      CommittedRun(w);
      var run := PipelineSpec.Pipeline(w.document, w.env).run;
      CommitKeepsWorkers(s, s', id, run.tx, run.ctx.finalStatus);
      CommitKeepsReviews(s, s', id, run.tx, run.ctx.finalStatus);
    } else {
      FewerWorkers(s, s', id);
    }
  }

  lemma FewerWorkers(s: State, s': State, id: nat)
    requires Inv(s) && id in s.workers && s' == s.(workers := s.workers - {id})
    ensures Inv(s')
  {}

  /** A worker joins, or moves on by one round. */
  lemma WorkerMoves(s: State, s': State, id: nat, w: Worker)
    requires WorkerInv(s) && s' == s.(workers := s.workers[id := w])
    requires w.rounds <= |STEPS| && Position(w).Next?
    requires Holds(w) ==> TableFree(s, id)
    ensures WorkerInv(s')
  {}

  lemma StartKeeps(s: State, id: nat, env: Env)
    requires Inv(s) && Enabled(s, StartAttempt(id, env))
    ensures Inv(Apply(s, StartAttempt(id, env)))
  {
    if s.db.document.Some? {
      WorkerMoves(s, Apply(s, StartAttempt(id, env)), id, Worker(env, s.db.document.value, 0));
    }
  }

  /** A worker that holds its mapping row goes on holding it, alone. */
  lemma HolderIsAlone(s: State, id: nat)
    requires WorkerInv(s) && id in s.workers && Holds(s.workers[id])
    ensures TableFree(s, id)
  {}

  lemma MovedKeeps(s: State, id: nat, w: Worker)
    requires WorkerInv(s) && id in s.workers && w == s.workers[id] && w.rounds < |STEPS| && MayMove(s, id, w)
    ensures WorkerInv(Moved(s, id, w))
  {
    if Position(NextRound(w)).Next? {
      if Holds(w) {
        HolderIsAlone(s, id);
      }
      WorkerMoves(s, Moved(s, id, w), id, NextRound(w));
    }
  }

  lemma RoundKeeps(s: State, id: nat)
    requires Inv(s) && Enabled(s, DoRound(id))
    ensures Inv(Apply(s, DoRound(id)))
  {
    MovedKeeps(s, id, s.workers[id]);
  }

  lemma DecisionKeeps(s: State, s': State, id: nat)
    requires Inv(s) && id in s.reviews
    requires s' == s.(db := Decided(s.db, s.reviews[id].task, s.reviews[id].decision), reviews := s.reviews - {id})
    ensures Inv(s')
  {
    DecisionKeepsReviews(s, s', id);
  }

  lemma DecisionKeepsReviews(s: State, s': State, id: nat)
    requires ReviewInv(s) && id in s.reviews
    requires s' == s.(db := Decided(s.db, s.reviews[id].task, s.reviews[id].decision), reviews := s.reviews - {id})
    ensures ReviewInv(s')
  {}

  lemma FewerReviews(s: State, s': State, id: nat)
    requires Inv(s) && s' == s.(reviews := s.reviews - {id})
    ensures Inv(s')
  {}

  lemma ReviewStarts(s: State, s': State, id: nat, task: nat, decision: Decision)
    requires ReviewInv(s) && id !in s.reviews && !Locked(s, task)
    requires task < |s.db.tasks| && !Terminal(s.db.tasks[task].status)
    requires s' == s.(reviews := s.reviews[id := ReviewTx(task, s.db.tasks[task].status, decision)])
    ensures ReviewInv(s')
  {}

  lemma LockKeeps(s: State, id: nat, task: nat, decision: Decision)
    requires Inv(s) && Enabled(s, LockTask(id, task, decision))
    ensures Inv(Apply(s, LockTask(id, task, decision)))
  {
    if task < |s.db.tasks| && !Terminal(s.db.tasks[task].status) {
      ReviewStarts(s, Apply(s, LockTask(id, task, decision)), id, task, decision);
    }
  }

  predicate OfUpload(l: Label) {
    l.SaveDocument? || l.EnqueueTask? || l.UpdateStatus? || l.CommitUpload? || l.AbortUpload?
  }

  lemma UploadKeeps(s: State, l: Label)
    requires Inv(s) && Enabled(s, l) && OfUpload(l)
    ensures Inv(Apply(s, l))
  {}

  lemma AttemptsKeep(s: State, l: Label)
    requires Inv(s) && Enabled(s, l) && (l.StartAttempt? || l.DoRound? || l.FinishAttempt? || l.LoseWorker?)
    ensures Inv(Apply(s, l))
  {
    match l
    case StartAttempt(id, env) => StartKeeps(s, id, env);
    case DoRound(id) => RoundKeeps(s, id);
    case FinishAttempt(id) => FinishKeeps(s, id);
    case LoseWorker(id) => FewerWorkers(s, Apply(s, l), id);
  }

  lemma ReviewersKeep(s: State, l: Label)
    requires Inv(s) && Enabled(s, l) && (l.LockTask? || l.CommitDecision? || l.AbortDecision?)
    ensures Inv(Apply(s, l))
  {
    match l
    case LockTask(id, task, decision) => LockKeeps(s, id, task, decision);
    case CommitDecision(id) => DecisionKeeps(s, Apply(s, l), id);
    case AbortDecision(id) => FewerReviews(s, Apply(s, l), id);
  }

  lemma StepKeeps(s: State, l: Label)
    requires Inv(s) && Enabled(s, l)
    ensures Inv(Apply(s, l))
  {
    if OfUpload(l) {
      UploadKeeps(s, l);
    } else if l.LockTask? || l.CommitDecision? || l.AbortDecision? {
      ReviewersKeep(s, l);
    } else {
      AttemptsKeep(s, l);
    }
  }

  // ---------- Whole runs ----------

  predicate Legal(s: State, labels: seq<Label>)
    decreases |labels|
  {
    labels == [] || (Enabled(s, labels[0]) && Legal(Apply(s, labels[0]), labels[1..]))
  }

  function After(s: State, labels: seq<Label>): State
    requires Legal(s, labels)
    decreases |labels|
  {
    if labels == [] then s else After(Apply(s, labels[0]), labels[1..])
  }

  lemma OneStep(s: State, l: Label)
    requires Enabled(s, l)
    ensures Legal(s, [l]) && After(s, [l]) == Apply(s, l)
  {}

  lemma MoreSteps(s: State, l: Label, rest: seq<Label>)
    requires Enabled(s, l) && Legal(Apply(s, l), rest)
    ensures Legal(s, [l] + rest) && After(s, [l] + rest) == After(Apply(s, l), rest)
  {}

  lemma {:induction false} RunKeeps(s: State, labels: seq<Label>)
    requires Inv(s) && Legal(s, labels)
    ensures Inv(After(s, labels))
    decreases |labels|
  {
    if labels != [] {
      StepKeeps(s, labels[0]);
      RunKeeps(Apply(s, labels[0]), labels[1..]);
    }
  }

  /** Only four statuses are ever visible, whatever the pipeline and the upload write on their way. */
  lemma ObservableStatuses(labels: seq<Label>)
    requires Legal(Initial(), labels)
    ensures var s := After(Initial(), labels);
            s.db.document.Some? ==> s.db.document.value.status in {Processing, Failed, Validated, Reviewed}
  {
    RunKeeps(Initial(), labels);
  }

  /** When the upload commits its status no row is visible yet, so it overwrites nothing and nobody has used the row. */
  lemma UploadOverwritesNothing(labels: seq<Label>)
    requires Legal(Initial(), labels) && Enabled(After(Initial(), labels), CommitUpload)
    ensures var s := After(Initial(), labels);
            s.db.document.None? && s.workers == map[] && s.reviews == map[] && s.runs == []
  {
    RunKeeps(Initial(), labels);
  }

  /** At most one committed run has stored a mapping: any other had nothing to mask. */
  lemma AtMostOneMappedRun(labels: seq<Label>)
    requires Legal(Initial(), labels)
    ensures MappedRuns(After(Initial(), labels).runs) == |After(Initial(), labels).db.mappings| <= 1
  {
    RunKeeps(Initial(), labels);
  }

  // ---------- Reviews ----------

  /** From one moment to a later one: tasks stay, logs only grow, and a decided task does not change any more. */
  ghost predicate TasksGrow(before: seq<TaskRow>, after: seq<TaskRow>) {
    && |before| <= |after|
    && (forall i | 0 <= i < |before| :: before[i].decisions <= after[i].decisions)
    && (forall i | 0 <= i < |before| && Terminal(before[i].status) :: after[i] == before[i])
  }

  predicate WritesRows(l: Label) {
    l.FinishAttempt? || l.CommitDecision? || l.CommitUpload?
  }

  /** Only the three commits write rows, and a worker keeps the environment it started with. */
  lemma OnlyCommitsWrite(s: State, l: Label)
    requires Enabled(s, l)
    ensures var s' := Apply(s, l);
            && (!WritesRows(l) ==> s'.db == s.db && s'.runs == s.runs)
            && forall id | id in s'.workers ::
                 if id in s.workers then s'.workers[id].env == s.workers[id].env
                 else l.StartAttempt? && s'.workers[id].env == l.env
  {}

  lemma CommitGrows(s: State, id: nat)
    requires Enabled(s, FinishAttempt(id))
    ensures TasksGrow(s.db.tasks, Apply(s, FinishAttempt(id)).db.tasks)
  {}

  lemma DecidedGrows(db: Db, task: nat, decision: Decision)
    requires task < |db.tasks| && !Terminal(db.tasks[task].status)
    ensures TasksGrow(db.tasks, Decided(db, task, decision).tasks)
  {}

  lemma DecisionGrows(s: State, id: nat)
    requires ReviewInv(s) && Enabled(s, CommitDecision(id))
    ensures TasksGrow(s.db.tasks, Apply(s, CommitDecision(id)).db.tasks)
  {
    DecidedGrows(s.db, s.reviews[id].task, s.reviews[id].decision);
  }

  lemma StepGrowsTasks(s: State, l: Label)
    requires Inv(s) && Enabled(s, l)
    ensures TasksGrow(s.db.tasks, Apply(s, l).db.tasks)
  {
    OnlyCommitsWrite(s, l);
    if l.FinishAttempt? {
      CommitGrows(s, l.id);
    } else if l.CommitDecision? {
      DecisionGrows(s, l.id);
    }
  }

  lemma {:induction false} RunGrowsTasks(s: State, labels: seq<Label>)
    requires Inv(s) && Legal(s, labels)
    ensures TasksGrow(s.db.tasks, After(s, labels).db.tasks)
    decreases |labels|
  {
    if labels != [] {
      StepKeeps(s, labels[0]);
      StepGrowsTasks(s, labels[0]);
      RunGrowsTasks(Apply(s, labels[0]), labels[1..]);
    }
  }

  /** For any number of concurrent reviewers: corrections, then at most one final decision, then nothing. */
  lemma ReviewProtocol(first: seq<Label>, later: seq<Label>)
    requires Legal(Initial(), first) && Legal(After(Initial(), first), later)
    ensures var s, s' := After(Initial(), first), After(After(Initial(), first), later);
            && (forall i | 0 <= i < |s.db.tasks| :: Coherent(s.db.tasks[i]))
            && TasksGrow(s.db.tasks, s'.db.tasks)
  {
    RunKeeps(Initial(), first);
    RunGrowsTasks(After(Initial(), first), later);
  }

  // ---------- Documents on which every masking finds something ----------

  ghost predicate Mapped(env: Env) {
    env.mask.Ok? ==> env.mask.value.1.entries != map[]
  }

  ghost predicate MappedLabels(labels: seq<Label>) {
    forall i | 0 <= i < |labels| && labels[i].StartAttempt? :: Mapped(labels[i].env)
  }

  /** What a committed run's status becomes once its review task, if any, is decided. */
  function Outcome(status: DocumentStatus, tasks: seq<TaskRow>): DocumentStatus {
    if tasks == [] then status
    else if tasks[0].status == Approved then Reviewed
    else if tasks[0].status == Rejected then Failed
    else status
  }

  ghost predicate SingleInv(s: State) {
    && (forall id | id in s.workers :: Mapped(s.workers[id].env))
    && |s.runs| == |s.db.mappings|
    && |s.db.tasks| <= |s.runs|
    && (s.runs != [] ==>
          && s.db.document.Some? && s.db.document.value.status == Outcome(s.runs[0].status, s.db.tasks)
          && (s.runs[0].status == Validated ==> |s.db.tasks| == 1))
  }

  lemma MappedWorkerHolds(w: Worker)
    requires w.rounds == |STEPS| && Position(w).Next? && Mapped(w.env)
    ensures Holds(w)
  {
    ReachedAt(|STEPS|, w.document, w.env);
  }

  lemma SingleCommitKeeps(s: State, s': State, id: nat, tx: Tx, status: DocumentStatus)
    requires Inv(s) && SingleInv(s) && id in s.workers && s.upload == Finished && Holds(s.workers[id])
    requires Writes(tx, status, true)
    requires s' == s.(workers := s.workers - {id}, db := Committed(s.db, tx),
                      runs := s.runs + [RunRecord(status, tx.mapping.Some?)])
    ensures SingleInv(s')
  {
    assert s.db.mappings == [] && s.runs == [] && s.db.tasks == [];
  }

  lemma SingleFinishKeeps(s: State, id: nat)
    requires Inv(s) && SingleInv(s) && Enabled(s, FinishAttempt(id))
    ensures SingleInv(Apply(s, FinishAttempt(id)))
  {
    var w := s.workers[id];
    if Commits(w) {
      MappedWorkerHolds(w);
      CommittedRun(w);
      var run := PipelineSpec.Pipeline(w.document, w.env).run;
      SingleCommitKeeps(s, Apply(s, FinishAttempt(id)), id, run.tx, run.ctx.finalStatus);
    }
  }

  lemma SingleDecisionKeeps(s: State, id: nat)
    requires Inv(s) && SingleInv(s) && Enabled(s, CommitDecision(id))
    ensures SingleInv(Apply(s, CommitDecision(id)))
  {
    assert |s.db.tasks| == 1 && s.reviews[id].task == 0;
  }

  lemma SingleStepKeeps(s: State, l: Label)
    requires Inv(s) && SingleInv(s) && Enabled(s, l) && (l.StartAttempt? ==> Mapped(l.env))
    ensures SingleInv(Apply(s, l))
  {
    OnlyCommitsWrite(s, l);
    if l.FinishAttempt? {
      SingleFinishKeeps(s, l.id);
    } else if l.CommitDecision? {
      SingleDecisionKeeps(s, l.id);
    }
  }

  lemma {:induction false} SingleRunKeeps(s: State, labels: seq<Label>)
    requires Inv(s) && SingleInv(s) && Legal(s, labels) && MappedLabels(labels)
    ensures SingleInv(After(s, labels))
    decreases |labels|
  {
    if labels != [] {
      StepKeeps(s, labels[0]);
      SingleStepKeeps(s, labels[0]);
      assert MappedLabels(labels[1..]);
      SingleRunKeeps(Apply(s, labels[0]), labels[1..]);
    }
  }

  /**
   In every interleaving of upload, attempts, redeliveries and reviews: at most one run commits, at most one task
   exists, and the visible status is that run's, overridden exactly by an approval or a rejection.
   */
  lemma SingleCommit(labels: seq<Label>)
    requires Legal(Initial(), labels) && MappedLabels(labels)
    ensures var s := After(Initial(), labels);
            && |s.runs| <= 1 && |s.db.tasks| <= |s.runs|
            && (s.runs == [] ==> s.db.document.None? || s.db.document.value.status == Processing)
            && (s.runs != [] ==>
                  && s.db.document.Some?
                  && s.db.document.value.status == Outcome(s.runs[0].status, s.db.tasks)
                  && (s.runs[0].status == Validated ==> |s.db.tasks| == 1))
  {
    RunKeeps(Initial(), labels);
    SingleRunKeeps(Initial(), labels);
  }

  lemma {:induction false} RunsOnlyGrow(s: State, labels: seq<Label>)
    requires Legal(s, labels)
    ensures s.runs <= After(s, labels).runs
    decreases |labels|
  {
    if labels != [] {
      RunsOnlyGrow(Apply(s, labels[0]), labels[1..]);
    }
  }

  lemma {:induction false} LegalConcat(s: State, a: seq<Label>, b: seq<Label>)
    requires Legal(s, a) && Legal(After(s, a), b)
    ensures Legal(s, a + b) && After(s, a + b) == After(After(s, a), b)
    decreases |a|
  {
    if a == [] {
      assert a + b == b;
    } else {
      assert (a + b)[1..] == a[1..] + b;
      LegalConcat(Apply(s, a[0]), a[1..], b);
    }
  }

  /** Right after the upload. */
  function Accepted(): State {
    State(Db(Some(DocumentRow(Processing, None)), [], [], [], []), Finished, map[], map[], [])
  }

  function Uploading(phase: UploadPhase): State {
    Initial().(upload := phase)
  }

  /** The upload's own steps change its phase and nothing else, until the last one. */
  lemma StepsOfUpload()
    ensures Enabled(Initial(), SaveDocument) && Apply(Initial(), SaveDocument) == Uploading(Saved)
    ensures Enabled(Uploading(Saved), EnqueueTask) && Apply(Uploading(Saved), EnqueueTask) == Uploading(Enqueued)
    ensures Enabled(Uploading(Enqueued), UpdateStatus) && Apply(Uploading(Enqueued), UpdateStatus) == Uploading(Updated)
  {}

  lemma LastOfUpload()
    ensures forall phase | phase in {Saved, Enqueued, Updated} ::
              Enabled(Uploading(phase), AbortUpload) && Apply(Uploading(phase), AbortUpload) == Uploading(Aborted)
    ensures Enabled(Uploading(Updated), CommitUpload) && Apply(Uploading(Updated), CommitUpload) == Accepted()
  {}

  ghost predicate Reaches(s: State, labels: seq<Label>, s': State) {
    Legal(s, labels) && After(s, labels) == s'
  }

  lemma Chain(s: State, a: seq<Label>, s1: State, b: seq<Label>, s2: State)
    requires Reaches(s, a, s1) && Reaches(s1, b, s2)
    ensures Reaches(s, a + b, s2)
  {
    LegalConcat(s, a, b);
  }

  lemma ReachedSingle(labels: seq<Label>)
    requires Legal(Initial(), labels) && MappedLabels(labels)
    ensures Inv(After(Initial(), labels)) && SingleInv(After(Initial(), labels))
  {
    RunKeeps(Initial(), labels);
    SingleRunKeeps(Initial(), labels);
  }

  predicate EscalatedIn(s: State) {
    exists i | 0 <= i < |s.db.tasks| :: s.db.tasks[i].status == Escalated
  }

  /**
   Where every masking finds something, a document keeps its status for good once its task is escalated: no attempt
   and no reviewer can move it on.
   */
  lemma EscalatedDocumentIsStuck(first: seq<Label>, later: seq<Label>)
    requires Legal(Initial(), first) && Legal(After(Initial(), first), later)
    requires MappedLabels(first) && MappedLabels(later)
    requires EscalatedIn(After(Initial(), first))
    ensures var s, s' := After(Initial(), first), After(After(Initial(), first), later);
            && s'.db.tasks == s.db.tasks
            && s.db.document.Some? && s'.db.document.Some?
            && s'.db.document.value.status == s.db.document.value.status
  {
    var s := After(Initial(), first);
    ReachedSingle(first);
    StuckFrom(s, later);
  }

  lemma StuckFrom(s: State, later: seq<Label>)
    requires Inv(s) && SingleInv(s) && Legal(s, later) && MappedLabels(later)
    requires EscalatedIn(s)
    ensures var s' := After(s, later);
            && s'.db.tasks == s.db.tasks && s.db.document.Some? && s'.db.document.Some?
            && s'.db.document.value.status == s.db.document.value.status
  {
    RunGrowsTasks(s, later);
    RunsOnlyGrow(s, later);
    RunKeeps(s, later);
    SingleRunKeeps(s, later);
    StuckBetween(s, After(s, later));
  }

  lemma StuckBetween(s: State, s': State)
    requires SingleInv(s) && Inv(s') && SingleInv(s') && s.runs <= s'.runs && TasksGrow(s.db.tasks, s'.db.tasks)
    requires EscalatedIn(s)
    ensures s'.db.tasks == s.db.tasks && s.db.document.Some? && s'.db.document.Some?
    ensures s'.db.document.value.status == s.db.document.value.status
  {}
}
