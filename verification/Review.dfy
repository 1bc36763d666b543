/** Human review decisions (app/api/v1/review.py, app/db/repositories/review.py). */
module Review {
  import opened Text
  import opened Rows
  import opened PipelineSpec
  import opened Pipeline

  predicate Terminal(status: TaskStatus) {
    status == Approved || status == Rejected || status == Escalated
  }

  function StatusFor(decision: Decision): TaskStatus {
    match decision
    case Approve => Approved
    case Reject => Rejected
    case Escalate => Escalated
    case NeedsCorrection => InReview
  }

  const REJECTED := "Rejected by reviewer"

  /** The parent document after a decision: approval reviews it, rejection fails it, the rest leaves it. */
  function AdvanceDocument(document: Option<DocumentRow>, status: TaskStatus): Option<DocumentRow> {
    if document.None? then None
    else if status == Approved then Some(document.value.(status := Reviewed))
    else if status == Rejected then Some(DocumentRow(Failed, Some(REJECTED)))
    else document
  }

  /** The committed rows after a decision on an open task. */
  function Decided(db: Db, task: nat, decision: Decision): Db
    requires task < |db.tasks|
  {
    var row := db.tasks[task];
    db.(tasks := db.tasks[task := TaskRow(StatusFor(decision), row.decisions + [decision])],
        document := AdvanceDocument(db.document, StatusFor(decision)),
        audits := db.audits + [ReviewAudit(decision)])
  }

  /** What the review session meets: the failures of its database operations. */
  datatype ReviewEnv = ReviewEnv(taskUpdate: Call, documentUpdate: Call, flush: Call, auditFlush: Call, commit: Call)

  const NO_TASK := "Review task not found"
  const DECIDED := "Review task already has a final status"

  /** The rows of a review session: its own copies, written back by the commit. */
  class ReviewSession {
    var healthy: bool
    var tasks: seq<TaskRow>
    var document: Option<DocumentRow>
    var audits: seq<AuditRow>

    constructor (db: Db)
      ensures healthy && tasks == db.tasks && document == db.document && audits == db.audits
    {
      healthy, tasks, document, audits := true, db.tasks, db.document, db.audits;
    }

    method Perform(call: Call) returns (c: Call)
      modifies this`healthy
      ensures c.Done? <==> old(healthy) && call.Done?
      ensures healthy == (old(healthy) && call.Done?)
    {
      if !healthy {
        return Fails(PENDING_ROLLBACK);
      }
      healthy := call.Done?;
      return call;
    }
  }

  /**
   `submit_review_decision` in its session, while it holds the lock on the task's row: an open task takes the
   decision, a decided one refuses it, and any failing operation rolls everything back; a swallowed audit failure
   still costs the commit.
   */
  method SubmitReviewDecision(database: Database, task: nat, decision: Decision, env: ReviewEnv) returns (c: Call)
    modifies database
    ensures c.Done? <==>
            && task < |old(database.rows).tasks| && old(database.rows).tasks[task].status in {Pending, InReview}
            && env.taskUpdate.Done? && env.flush.Done? && env.auditFlush.Done? && env.commit.Done?
            && (decision == Approve || decision == Reject ==> env.documentUpdate.Done?)
    ensures database.rows == if c.Done? then Decided(old(database.rows), task, decision) else old(database.rows)
  {
    var session := new ReviewSession(database.rows);
    if task >= |session.tasks| {
      return Fails(NO_TASK);
    }
    if Terminal(session.tasks[task].status) {
      return Fails(DECIDED);
    }
    var newStatus := StatusFor(decision);
    var decisions := session.tasks[task].decisions + [decision];
    c := session.Perform(env.taskUpdate);
    if c.Fails? { return; }
    session.tasks := session.tasks[task := TaskRow(newStatus, decisions)];
    if newStatus == Approved || newStatus == Rejected {
      c := session.Perform(env.documentUpdate);
      if c.Fails? { return; }
      session.document := AdvanceDocument(session.document, newStatus);
    }
    c := session.Perform(env.flush);
    if c.Fails? { return; }
    var audited := session.Perform(env.auditFlush);
    if audited.Done? {
      session.audits := session.audits + [ReviewAudit(decision)];
    }
    c := session.Perform(env.commit);
    if c.Fails? { return; }
    database.rows := database.rows.(tasks := session.tasks, document := session.document, audits := session.audits);
  }

  // ---------- What a decision changes ----------

  /** The status the task gets, and the document's row with it. */
  ghost predicate DecisionSets(decision: Decision, status: TaskStatus, before: Option<DocumentRow>,
                               after: Option<DocumentRow>)
  {
    match decision
    case Approve =>
      && status == Approved
      && after == (if before.Some? then Some(DocumentRow(Reviewed, before.value.error)) else None)
    case Reject =>
      && status == Rejected
      && after == (if before.Some? then Some(DocumentRow(Failed, Some("Rejected by reviewer"))) else None)
    case Escalate => status == Escalated && after == before
    case NeedsCorrection => status == InReview && after == before
  }

  lemma OpenIff(status: TaskStatus)
    ensures !Terminal(status) <==> status in {Pending, InReview}
  {}

  /** The rows after a decision that reaches its task: a decided task refuses it. */
  function Submitted(db: Db, task: nat, decision: Decision): Db
    requires task < |db.tasks|
  {
    if Terminal(db.tasks[task].status) then db else Decided(db, task, decision)
  }

  function SubmittedAll(db: Db, task: nat, decisions: seq<Decision>): Db
    requires task < |db.tasks|
    decreases |decisions|
  {
    if decisions == [] then db else SubmittedAll(Submitted(db, task, decisions[0]), task, decisions[1..])
  }

  /** The first n decisions are corrections, and then comes a final one, if any. */
  predicate FinalAt(decisions: seq<Decision>, n: nat) {
    && n <= |decisions| && (forall i | 0 <= i < n :: decisions[i] == NeedsCorrection)
    && (n < |decisions| ==> decisions[n] != NeedsCorrection)
  }

  function Audited(decisions: seq<Decision>): seq<AuditRow> {
    seq(|decisions|, i requires 0 <= i < |decisions| => ReviewAudit(decisions[i]))
  }

  /** What the decisions up to the first final one have made of the rows. */
  ghost predicate DecisionsTaken(db: Db, db': Db, task: nat, taken: seq<Decision>)
    requires task < |db.tasks|
  {
    && |db'.tasks| == |db.tasks| && (forall i | 0 <= i < |db.tasks| && i != task :: db'.tasks[i] == db.tasks[i])
    && db'.tasks[task].decisions == db.tasks[task].decisions + taken
    && db'.audits == db.audits + Audited(taken)
    && db'.mappings == db.mappings && db'.extractions == db.extractions
    && if taken == [] then db'.tasks[task].status == db.tasks[task].status && db'.document == db.document
       else DecisionSets(taken[|taken| - 1], db'.tasks[task].status, db.document, db'.document)
  }

  lemma OneTaken(db: Db, task: nat, decision: Decision)
    requires task < |db.tasks|
    ensures DecisionsTaken(db, Decided(db, task, decision), task, [decision])
  {
    assert Audited([decision]) == [ReviewAudit(decision)];
  }

  /** A correction leaves the document, so what comes behind it counts from the rows before. */
  lemma TakenBehind(db: Db, next: Db, db': Db, task: nat, taken: seq<Decision>)
    requires task < |db.tasks| && DecisionsTaken(db, next, task, [NeedsCorrection])
    requires task < |next.tasks| && DecisionsTaken(next, db', task, taken)
    ensures DecisionsTaken(db, db', task, [NeedsCorrection] + taken)
  {
    var all := [NeedsCorrection] + taken;
    Assoc(db.tasks[task].decisions, [NeedsCorrection], taken);
    Assoc(db.audits, Audited([NeedsCorrection]), Audited(taken));
    assert Audited(all) == Audited([NeedsCorrection]) + Audited(taken);
    if taken == [] {
      assert all == [NeedsCorrection];
    } else {
      assert all[|all| - 1] == taken[|taken| - 1];
    }
  }

  lemma {:induction false} RefusedForGood(db: Db, task: nat, decisions: seq<Decision>)
    requires task < |db.tasks| && Terminal(db.tasks[task].status)
    ensures SubmittedAll(db, task, decisions) == db
    decreases |decisions|
  {
    if decisions != [] {
      RefusedForGood(db, task, decisions[1..]);
    }
  }

  /**
   Of all decisions submitted for an open task, the corrections and the first final one are taken and audited, in this
   order, and the rest refused. The last one taken has set the task's status and the document; nothing else changes.
   */
  lemma {:induction false} FirstFinalDecides(db: Db, task: nat, decisions: seq<Decision>, n: nat)
    requires task < |db.tasks| && db.tasks[task].status in {Pending, InReview} && FinalAt(decisions, n)
    ensures DecisionsTaken(db, SubmittedAll(db, task, decisions), task,
                           if n < |decisions| then decisions[..n + 1] else decisions)
    decreases |decisions|
  {
    if decisions == [] {
      assert db.tasks[task].decisions + [] == db.tasks[task].decisions && db.audits + Audited([]) == db.audits;
    } else {
      var next, rest := Decided(db, task, decisions[0]), decisions[1..];
      OneTaken(db, task, decisions[0]);
      if n == 0 {
        RefusedForGood(next, task, rest);
        assert decisions[..1] == [decisions[0]];
      } else {
        FirstFinalDecides(next, task, rest, n - 1);
        var taken := if n < |decisions| then rest[..n] else rest;
        TakenBehind(db, next, SubmittedAll(next, task, rest), task, taken);
        assert decisions == [NeedsCorrection] + rest;
        assert n < |decisions| ==> decisions[..n + 1] == [NeedsCorrection] + rest[..n];
      }
    }
  }

  // ---------- Decision logs ----------

  /** The status a log of decisions leads to. */
  function Fold(log: seq<Decision>): TaskStatus {
    if log == [] then Pending else StatusFor(log[|log| - 1])
  }

  /** Any number of corrections, then at most one final decision. */
  predicate OneFinalDecision(log: seq<Decision>) {
    forall i | 0 <= i < |log| - 1 :: log[i] == NeedsCorrection
  }

  /** A task whose status is the fold of a log with at most one final decision. */
  predicate Coherent(row: TaskRow) {
    OneFinalDecision(row.decisions) && row.status == Fold(row.decisions)
  }
}
