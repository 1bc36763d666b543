/**
 Accepting a document (`upload_document` in app/api/v1/documents.py): the delivery is sent before the row is
 committed.
 */
module Upload {
  import opened Text
  import opened Rows
  import opened PipelineSpec
  import opened Protocol
  import Pipeline

  /** The deliveries sent for the document. */
  class Broker {
    var deliveries: nat

    method Delay(call: Call) returns (c: Call)
      modifies this
      ensures c == call && deliveries == old(deliveries) + if call.Done? then 1 else 0
    {
      if call.Done? {
        deliveries := deliveries + 1;
      }
      return call;
    }
  }

  /** The failures an upload meets. */
  datatype UploadEnv = UploadEnv(save: Call, insert: Call, enqueue: Call, update: Call, commit: Call)

  /** The protocol steps of an upload: as far as it gets, and then its commit or its rollback. */
  function UploadLabels(env: UploadEnv): seq<Label> {
    if env.save.Fails? || env.insert.Fails? then []
    else if env.enqueue.Fails? then [SaveDocument, AbortUpload]
    else if env.update.Fails? then [SaveDocument, EnqueueTask, AbortUpload]
    else if env.commit.Fails? then [SaveDocument, EnqueueTask, UpdateStatus, AbortUpload]
    else [SaveDocument, EnqueueTask, UpdateStatus, CommitUpload]
  }

  /** Store the file, insert the row, send the delivery, set the status, commit; an exception rolls the row back. */
  method UploadDocument(database: Pipeline.Database, broker: Broker, env: UploadEnv) returns (c: Call)
    requires database.rows == Initial().db
    modifies database, broker
    ensures c.Done? <==>
            env.save.Done? && env.insert.Done? && env.enqueue.Done? && env.update.Done? && env.commit.Done?
    ensures broker.deliveries ==
            old(broker.deliveries) + if env.save.Done? && env.insert.Done? && env.enqueue.Done? then 1 else 0
    ensures database.rows ==
            if c.Done? then AcceptedRows() else Initial().db
  {
    if env.save.Fails? {
      return env.save;
    }
    if env.insert.Fails? {
      return env.insert;
    }
    var row := DocumentRow(Uploaded, None);
    c := broker.Delay(env.enqueue);
    if c.Fails? {
      return;
    }
    if env.update.Fails? {
      return env.update;
    }
    row := row.(status := Processing);
    if env.commit.Fails? {
      return env.commit;
    }
    database.rows := database.rows.(document := Some(row));
    return Done;
  }

  /** The rows of an accepted document. */
  function AcceptedRows(): Db {
    Accepted().db
  }

  predicate Works(env: UploadEnv) {
    env.save.Done? && env.insert.Done? && env.enqueue.Done? && env.update.Done? && env.commit.Done?
  }

  function EndOf(env: UploadEnv): State {
    if env.save.Fails? || env.insert.Fails? then Initial()
    else if Works(env) then Accepted()
    else Uploading(Aborted)
  }

  /** Upload steps as far as the last one. */
  lemma EndsAfter(last: Label, end: State)
    requires Enabled(Uploading(Updated), last) && Apply(Uploading(Updated), last) == end
    ensures Reaches(Initial(), [SaveDocument, EnqueueTask, UpdateStatus, last], end)
  {
    StepsOfUpload();
    OneStep(Uploading(Updated), last);
    MoreSteps(Uploading(Enqueued), UpdateStatus, [last]);
    MoreSteps(Uploading(Saved), EnqueueTask, [UpdateStatus] + [last]);
    MoreSteps(Initial(), SaveDocument, [EnqueueTask] + ([UpdateStatus] + [last]));
    var rest := [EnqueueTask] + ([UpdateStatus] + [last]);
    assert [SaveDocument] + rest == [SaveDocument, EnqueueTask, UpdateStatus, last];
  }

  lemma EndsEarly()
    ensures Reaches(Initial(), [SaveDocument, AbortUpload], Uploading(Aborted))
    ensures Reaches(Initial(), [SaveDocument, EnqueueTask, AbortUpload], Uploading(Aborted))
  {
    StepsOfUpload();
    LastOfUpload();
    OneStep(Uploading(Saved), AbortUpload);
    MoreSteps(Initial(), SaveDocument, [AbortUpload]);
    assert [SaveDocument] + [AbortUpload] == [SaveDocument, AbortUpload];
    OneStep(Uploading(Enqueued), AbortUpload);
    MoreSteps(Uploading(Saved), EnqueueTask, [AbortUpload]);
    MoreSteps(Initial(), SaveDocument, [EnqueueTask] + [AbortUpload]);
    assert [SaveDocument] + ([EnqueueTask] + [AbortUpload]) == [SaveDocument, EnqueueTask, AbortUpload];
  }

  /** An undisturbed upload is a run of the protocol and ends with the same rows. */
  lemma UploadRefinesProtocol(env: UploadEnv)
    ensures Reaches(Initial(), UploadLabels(env), EndOf(env))
    ensures EndOf(env).db == if Works(env) then AcceptedRows() else Initial().db
  {
    LastOfUpload();
    if env.save.Done? && env.insert.Done? {
      if env.enqueue.Fails? || env.update.Fails? {
        EndsEarly();
      } else {
        EndsAfter(if env.commit.Done? then CommitUpload else AbortUpload, EndOf(env));
      }
    }
  }

  /**
   Until the upload has committed, and for ever when it rolls back behind the delivery, an attempt the delivery
   starts finds no document: it raises and changes nothing.
   */
  lemma EarlyDeliveryFindsNothing(labels: seq<Label>, env: Env)
    requires Legal(Initial(), labels) && After(Initial(), labels).upload != Finished
    ensures var db := After(Initial(), labels).db; Attempt(db, env) == (db, Raised(NOT_FOUND))
  {
    RunKeeps(Initial(), labels);
  }

  /** An aborted upload stays aborted, so its delivery never finds a document. */
  lemma {:induction false} OrphanForever(s: State, labels: seq<Label>)
    requires s.upload == Aborted && Legal(s, labels)
    ensures After(s, labels).upload == Aborted
    decreases |labels|
  {
    if labels != [] {
      OrphanForever(Apply(s, labels[0]), labels[1..]);
    }
  }
}
