# A verified model of the financial document pipeline

The repository takes a financial PDF, reads its text, masks personal data before a language model sees it, extracts
structured fields, puts the masked values back, validates the numbers, scores the risk and, where needed, asks a
human. This project models that behaviour in Dafny and proves what it keeps.
`dafny verify dfyconfig.toml` checks everything.

## What is modelled

**Masking and unmasking** (`Text`, `Unmasker`, `TokenOrder`, `TokenValues`, `Masker`,
`LeakPatterns`). Texts are unbounded strings and
`str.replace` is the leftmost non-overlapping scan. `Mask` numbers the detections of each type, builds the reverse
map and rewrites the text, with the operators keyed by entity type as the code has them. Unmasking replaces token
after token, longest first, in every string of a JSON tree; the reference it is compared with is one simultaneous
left-to-right substitution, and `TokenOrder` and `TokenValues` have the exact conditions, on the text and on a value,
under which the two agree in a given order. The
regular expressions of the leak scan and of the IBAN and plain account recognisers are predicates on substrings between
word boundaries, over any character table for `\d` and `\w`.

**One document's lifecycle** (`Rows`, `PipelineSpec`, `PipelineProperties`, `Outcomes`, `Pipeline`, `Review`,
`Upload`, `Protocol`, `Redelivery`). The classes in `Pipeline` update a context and a session in place, step by step, as the
orchestrator does; each method is proved equal to a function of `PipelineSpec`, and the theorems are about that
function for every environment: every result or failure of the OCR engine, the analyzer, the language model, the
encryption, the schema and every single database operation; the risk assessment of the payload is the one `Risk`
computes. `Outcomes` says in their own words what a run files, raises and ends with. A failed database operation
loses its session. `Protocol`
interleaves one upload, any number of workers (each a step at a time) and any number of reviewers over the
committed rows; `Redelivery` and `Upload` show that its steps add up to what the sequential methods do.

**Kernels** (`LineGrouping`, `Dates`, `JsonRecovery`, `Validation`, `Risk`). The grouping of words into lines, the
reading of dates in four formats, the recovery of JSON from a model's reply, the amount rules and the validation
engine, and the risk rules and their assessment.

## Where the code differs from what it says

- The orchestrator's header promises that the audit trail is always written. When an attempt raises with a working
  database, the failed status and the audit row are written and then rolled back with the session; when it is the
  flush of the mapping row that fails, nothing of the failure is written at all. Either way the committed rows do not
  change (`PipelineProperties.CriticalFailureIsInvisible`).
- The comment in `submit_review_decision` expects another reviewer to move an escalated document on. Escalated is a
  terminal status of the task. In a document in which masking finds something, nothing changes task or status any
  more; where masking finds nothing, a further delivery of the task does (`Redelivery.EscalatedStuckIffMapped`,
  `Redelivery.UnmappedMovesOn`).
- A run that commits fails its document only if some error text contains "failed" or there is no extraction. A
  response that cannot be encrypted, with a key of any length but 32 bytes for instance, leaves a cleared document
  without an extraction row, and the risk rules never see it (`PipelineProperties.EncryptFailureClears`, with the exact
  conditions in `OpenWithoutExtraction` and `ClearedThoughFlagged`).
- The progress statuses written between the steps are never visible to anyone (`Protocol.ObservableStatuses`).
- Two different values of one entity type do not survive masking: all spans of a type become the last token of that
  type (`Masker.TwoNamesLoseTheFirst`; exact condition in `Masker.RoundTripIffShared`).
- A token of the reverse map that stands in the text outside the detections is rewritten by unmasking as if `mask` had
  put it there (`Masker.KeyInTextIsLost`; exact condition in `Masker.MaskRoundTrip`).
- The leak scan does not cover every IBAN the recogniser describes: with non-ASCII digits in the account part it
  passes (`LeakPatterns.NonAsciiIbanPassesScan`; exact condition in `LeakPatterns.IbanCoveredIffAscii`).
- The account recogniser is described as one of 8 to 18 digits, often hyphenated. Without hyphens it wants at least 10,
  and so does the leak scan (`LeakPatterns.AccountRecognizedIff`, `LeakPatterns.LeakScanRefusesIff`).
- Only the mapping row keeps a redelivered task from committing a second run: with a working database a document
  commits at most one run exactly if masking finds something in it (`Redelivery.SingleCommitIffMapped`). Otherwise a
  further delivery overwrites whatever status a reviewer's decision has set and may open a new task
  (`Redelivery.UnmappedRedelivery`; `Redelivery.RedeliveryReopensApproval` is an example).
- Longest first is not always enough to keep the rounds of unmasking apart: some values make a difference exactly where
  an unclosed '[' stands before a closed group that is at least as long as the text between, and not equal to it
  (`TokenOrder.LongestFirstIffGuarded`). A value with brackets makes a difference exactly where it holds a token that
  is replaced later or ends in a part of one (`TokenValues.SimultaneousIffHarmless`).
- `%m/%d/%Y` is tried after `%d/%m/%Y`, so such a date is read with day and month swapped whenever its day could be a
  month (`Dates.RoundTripIff`, `Dates.MonthFirstPeriodMisjudged`).

## Model

| member | source | states |
|---|---|---|
| Text.ReplaceFirst | app/services/pii/unmasker.py:25 | `str.replace` keeps what stands before the first occurrence, puts the value in its place and goes on behind it. |
| Text.ReplaceAbsent | app/services/pii/unmasker.py:24 | It changes nothing where the target does not occur. |
| Text.InterleaveParts | app/services/pii/unmasker.py:25 | Replacing the empty string puts the value before, between and behind all characters. |
| Text.LowerFailedIff | app/pipeline/orchestrator.py:148 | Lower-cased text contains "failed" exactly when the six letters stand in it one after another, each in either case. |
| Text.SpaceCodes | app/services/pii/masker.py:74 | The 29 code points that count as space. |
| Text.StripEmptyIffBlank | app/services/pii/masker.py:74 | Stripping leaves nothing exactly of text that is all space. |
| Unmasker.WalkString | app/services/pii/unmasker.py:21-26 | The loop over the tokens, with its `in` guard, is the fold of `replace` over the order; the guard never matters. |
| Unmasker.SequentialIsSimultaneous | app/services/pii/unmasker.py:16-26 | On text where no '[' stands inside a closed '[', with token keys and '['-free values, replacing one after another in any order equals one simultaneous substitution. |
| Unmasker.SubstituteIdempotent | app/services/pii/unmasker.py:16-26 | Substituting once leaves flat text in which nothing is left to substitute. |
| Unmasker.OrderIrrelevantIffFlat | app/services/pii/unmasker.py:16-26 | The token order is irrelevant for every mapping with plain values exactly when the text is flat. |
| Unmasker.TokenValueRewritten | app/services/pii/unmasker.py:16-26 | A value that reads like a token is rewritten by a later round: the loop and the simultaneous pass differ. |
| Unmasker.NestedTokenRewritten | app/services/pii/unmasker.py:16-26 | Behind an open '[' a value can complete another token, which the loop then rewrites too. |
| Unmasker.NestedTokenExample | app/services/pii/unmasker.py:16-26 | The text "[[A_1]_1]" with two one-letter values shows it. |
| Unmasker.LongestFirstSorts | app/services/pii/unmasker.py:16 | The token list has every key once, longer ones first. |
| Unmasker.LongestFirstStable | app/services/pii/unmasker.py:16 | The sort is stable: keys of one length keep their order. |
| Unmasker.Walk | app/services/pii/unmasker.py:20-31 | The recursion over strings, dicts, lists and other leaves is the tree function the theorems speak of. |
| Unmasker.UnmaskStructured | app/services/pii/unmasker.py:9-17 | With an empty map the data itself, else the walk with the longest tokens first. |
| Unmasker.WalkTreeIdempotent | app/services/pii/unmasker.py:20-31 | Unmasking an unmasked tree again, in any order, changes nothing. |
| TokenOrder.SimultaneousIffSettled | app/services/pii/unmasker.py:16-26 | For a text and an order of tokens: the loop equals one simultaneous pass for all plain values exactly when no token stands behind an unclosed part of one replaced later. |
| TokenOrder.LongestFirstIffGuarded | app/services/pii/unmasker.py:16-26 | For the code's own order: exactly when before a closed group every unclosed '[' is followed by more text than the group has, or by the same. |
| TokenOrder.UnmaskTreeAt | app/services/pii/unmasker.py:9-31 | At every path the result has a node exactly where the data has one: a guarded string is substituted, whatever the rest of the tree holds; keys, lengths and other leaves are kept. |
| TokenOrder.FlatIsGuarded | app/services/pii/unmasker.py:16-26 | Flat text is guarded, and "[[]" is guarded and not flat. |
| TokenOrder.AllOpens | app/services/pii/unmasker.py:20-26 | In any order and on any text, the loop with plain values leaves no more opening brackets than one simultaneous pass. |
| TokenValues.SimultaneousIffHarmless | app/services/pii/unmasker.py:16-26 | For one token's value: with it and any plain values for the others the loop is one pass on every flat text exactly when it holds no later token and ends in no proper part of one. |
| Masker.Mask | app/services/pii/masker.py:74-141 | Blank text and empty results stay; else the map inverts the numbered tokens, the operators hold each type's last token, and the text is rewritten with them. |
| Masker.MapNumbersDetections | app/services/pii/masker.py:92-107 | What `mask` returned has one key for each detection and no other: "[type_d]", where d is digits without a leading zero that write down, read from left to right, how many detections of the type there are up to this one; it leads to the text detected. |
| Masker.MaskedTextNumbersKinds | app/services/pii/masker.py:109-133 | The masked text is the text with every span cut out, the last one first, and "[type_d]" put in, where d writes down how many detections of the type there are in all. |
| Masker.TokenIsBracketToken | app/services/pii/masker.py:104 | Every token is one pair of brackets around bracket-free text. |
| Masker.TokenInjective | app/services/pii/masker.py:104 | Equal tokens have equal type and number. |
| Masker.TokensDistinct | app/services/pii/masker.py:93-107 | No two detections of one text get the same token, so no entry of the map is overwritten. |
| Masker.SubstituteJoined | app/services/pii/masker.py:104-116 | One pass over gaps joined by tokens puts in each token's value and meets each gap as if it stood alone. |
| Masker.UnmaskMasked | app/services/pii/masker.py:93-116 | In any order for which the masked text is settled, with '['-free detections: the text comes back with each span replaced by the last same-type span's value exactly if no token of the map stands in it outside the detections. |
| Masker.KeyInTextIsLost | app/services/pii/masker.py:93-116 | With '['-free detections such a token is lost in every order, settled or not. |
| Masker.LastValuesRestoreIffShared | app/services/pii/masker.py:109-116 | Those last values restore the text if each type has one value, and for types of one length only then. |
| Masker.MaskRoundTrip | app/services/pii/masker.py:63-141 | For what `mask` returned and the code's order of the tokens, where the masked text is guarded: the last values come back in place exactly if no token of the map stands in the text outside the detections. |
| Masker.RoundTripIffShared | app/services/pii/masker.py:63-141 | The text itself comes back exactly if, besides, spans of a type share one value; that they do is needed where each type has one length. |
| Masker.PlainTextRoundTrip | app/services/pii/masker.py:63-141 | '['-free text meets every condition, and the last values come back in place in any order of the tokens. |
| Masker.TwoNamesLoseTheFirst | app/services/pii/masker.py:109-116 | "Bob,Amy" with two persons does not come back. |
| LeakPatterns.FoundSplits | app/services/pii/masker.py:157-167 | A leak pattern occurs in text split at a non-word character exactly when it occurs in one of the two sides. |
| LeakPatterns.LeakScanIsCompositional | app/services/pii/masker.py:148-169 | The scan accepts gaps joined by tokens exactly when it accepts every gap: tokens neither trip a pattern nor let one span them. |
| LeakPatterns.MaskGateReadsOnlyGaps | app/services/pii/masker.py:101-169 | Masked text passes the scan exactly when each piece of text between the detections does. |
| LeakPatterns.IbanCoveredIffAscii | app/services/pii/recognizers.py:19-23 | A match of the IBAN recogniser contains a leak-pattern match exactly when its seven middle digits are ASCII. |
| LeakPatterns.AcceptedTextHasNoRecognizedNumber | app/services/pii/masker.py:157-169 | Accepted text has no plain account match anywhere, and no IBAN match with ASCII middle digits. |
| LeakPatterns.AcceptedAsciiTextHasNoIban | app/services/pii/recognizers.py:19-48 | With ASCII digits only, accepted text has no match of either recogniser at all. |
| LeakPatterns.NonAsciiIbanPassesScan | app/services/pii/masker.py:157-169 | An IBAN with Arabic-Indic account digits is recognised and passes the scan. |
| LeakPatterns.LeakScanRefusesIff | app/services/pii/masker.py:157-169 | The scan refuses a text exactly when there stands in it, with no word character before or behind, two of A-Z, two digits and 11 to 30 of A-Z and 0-9, or 10 to 18 digits. |
| LeakPatterns.IbanRecognizedIff | app/services/pii/recognizers.py:19-23 | The IBAN recogniser finds something exactly when two of A-Z, two digits, four of A-Z and 0-9, seven digits and up to 16 of A-Z and 0-9 stand alone. |
| LeakPatterns.AccountRecognizedIff | app/services/pii/recognizers.py:44-48 | The plain account recogniser finds something exactly when 10 to 18 digits stand alone. |
| Pipeline.PipelineContext.AppendError | app/pipeline/context.py:45-46 | The error list grows by one line naming the step; nothing else changes. |
| Pipeline.PipelineContext.RecordStepDuration | app/pipeline/context.py:48-49 | The step's entry in the timings is set; nothing else changes. |
| Pipeline.AsyncSession.Perform | app/db/session.py:79-95 | A database operation works only in a healthy session, and a failing one loses the session. |
| Pipeline.AsyncSession.UpdateDocument | app/db/repositories/document.py:56-70 | Status and, if given, error message are set when the flush works; else the session is lost. |
| Pipeline.ExecuteOcr | app/pipeline/steps/step_ocr.py:24-33 | Context and outcome of the OCR step. |
| Pipeline.ExecuteMask | app/pipeline/steps/step_pii_mask.py:40-79 | The slot is written only behind the leak scan, the mapping row only for a non-empty map. |
| Pipeline.ExecuteExtract | app/pipeline/steps/step_llm_extract.py:33-74 | Only the masked text goes out; the context is set before the response is encrypted and the row stored. |
| Pipeline.ExecuteUnmask | app/pipeline/steps/step_unmask.py:47-126 | All paths of the step: what each leaves in context, row and errors. |
| Pipeline.ExecuteValidate | app/pipeline/steps/step_validate.py:25-46 | Skips without a stored extraction; else runs the engine and flushes. |
| Pipeline.ExecuteRisk | app/pipeline/steps/step_risk.py:23-48 | The detector's assessment of the payload into the context, its level and flags into the row, and a task when review is required. |
| Pipeline.CreateReviewTask | app/pipeline/steps/step_risk.py:50-75 | One pending task when the flush works. |
| Pipeline.PipelineOrchestrator.WriteAuditEvent | app/pipeline/orchestrator.py:174-204 | One audit row, or a lost session and no exception. |
| Pipeline.PipelineOrchestrator.TryStep | app/pipeline/orchestrator.py:102-110 | A step that returns is timed and its status written; an exception of either leaves the block. |
| Pipeline.PipelineOrchestrator.FailDocument | app/pipeline/orchestrator.py:128-138 | The handler of a critical failure: status, audit row, exception. |
| Pipeline.PipelineOrchestrator.Conclude | app/pipeline/orchestrator.py:148-172 | The final status from errors, extraction and assessment, its update and the audit row. |
| Pipeline.PipelineOrchestrator.RunSteps | app/pipeline/orchestrator.py:100-138 | The loop is the seven-fold iteration of one round, stopping at a critical failure. |
| Pipeline.PipelineOrchestrator.Run | app/pipeline/orchestrator.py:74-172 | The whole run as a function of the document row and the environment. |
| Pipeline.Database.RunPipeline | app/tasks/document_tasks.py:62-90 | The committed rows after an attempt: those of the session on a normal return, else the old ones. |
| Pipeline.FirstWhere | app/tasks/document_tasks.py:52-59 | The attempt a delivery's outcome is taken from is the first that would succeed. |
| Pipeline.ProcessDocument | app/tasks/document_tasks.py:52-59 | Up to three retries: rows and result are those of the first successful attempt alone, or the rows are untouched. |
| PipelineProperties.ReachedAt | app/pipeline/orchestrator.py:100-138 | The invariant of the step loop: which slots, rows and trace events exist after each round. |
| PipelineProperties.ErrorLines | app/pipeline/orchestrator.py:118-120 | As long as the session is healthy, the collected errors are those the environment determines, step by step. |
| PipelineProperties.EveryRunIsGated | app/pipeline/orchestrator.py:64-138 | In every run the steps begin in order, the extractor is called at most once, behind a returned masking and with its text, which passed the scan; nothing follows a critical failure. |
| PipelineProperties.ExtractorSeesNoRecognizedNumber | app/pipeline/steps/step_pii_mask.py:45-53 | What the extractor is given has no plain account number and no IBAN with ASCII account digits, whatever the analyzer missed. |
| PipelineProperties.RowAgreesWithContext | app/pipeline/steps/step_unmask.py:67-119 | After every round in a healthy session the stored row holds the context's payload, which is the extractor's through extraction, stays masked after a failed decryption or re-validation, and is the unmasked one else. |
| PipelineProperties.UnmaskRestores | app/pipeline/steps/step_unmask.py:67-119 | After masking as `mask` does it, with '['-free detections, the unmasked payload has, at every path where the extractor's is guarded, the same node with its tokens restored. |
| PipelineProperties.MaskedTextComesBack | app/pipeline/steps/step_unmask.py:90-106 | Where the extractor returns the masked text and that is guarded, unmasking gives the OCR text with each type's last value in place, and the OCR text itself when each type has one value, exactly if no token of the map stands in it outside the detections. |
| PipelineProperties.CommittedRowIsRestored | app/pipeline/orchestrator.py:100-172 | At every path where the extractor's payload is guarded, the row a committed attempt adds holds the node with its tokens restored, when normalising leaves the payload alone. |
| PipelineProperties.CommittedTextComesBack | app/pipeline/orchestrator.py:100-172 | Masked text that the extractor returns comes back in that row under the same exact condition. |
| PipelineProperties.FinishedPipeline | app/pipeline/orchestrator.py:140-172 | What a run with a healthy session has written, read off the results of the foreign calls alone. |
| PipelineProperties.AttemptCommits | app/pipeline/orchestrator.py:140-165 | A committed attempt adds one audit row agreeing with the document's status, and mapping, extraction row (payload, level and flags) and task exactly as its environment determines. |
| PipelineProperties.ExtractorFailureFailsDocument | app/pipeline/orchestrator.py:148-150 | When the extractor raises, a committed run ends failed without extraction and task. |
| PipelineProperties.OpenWithoutExtraction | app/pipeline/steps/step_llm_extract.py:48-72 | Exactly when a document that did not fail is left without an extraction row. |
| PipelineProperties.AwaitsReviewIffFlagged | app/pipeline/steps/step_risk.py:28-46 | A committed document waits for a review exactly when it has not failed, its row is stored and a risk rule flags its payload. |
| PipelineProperties.ClearedThoughFlagged | app/pipeline/orchestrator.py:148-154 | Exactly when a document is cleared although a risk rule would flag it. |
| PipelineProperties.CommitsIffCriticalStepsPass | app/pipeline/orchestrator.py:118-138 | With a working database an attempt commits exactly when OCR and masking succeed and no mapping row is in the way. |
| PipelineProperties.CriticalFailureIsInvisible | app/pipeline/orchestrator.py:128-138 | When an attempt raises with a working database, the session held the failed status, its message and an audit row, unless the mapping flush failed and it held nothing of them; the committed rows do not change. |
| PipelineProperties.EncryptFailureClears | app/pipeline/steps/step_llm_extract.py:48-51 | With a key of any length but 32 bytes an overdrawn statement without PII is flagged and yet cleared, without extraction row and task. |
| Outcomes.FailsIff | app/pipeline/orchestrator.py:148-165 | A committed document has failed exactly if the extractor raised or a line of the audit row it adds holds the letters of "failed" in any case; event, success and status of that row go with it, and its lines are the five steps' own, word by word. |
| Outcomes.UndecryptableFails | app/pipeline/steps/step_unmask.py:67-81 | A mapping that cannot be decrypted fails the document, whatever the reason says. |
| Outcomes.RevalidationFails | app/pipeline/steps/step_unmask.py:91-104 | So does an unmasked payload that no longer fits its schema. |
| Outcomes.SmoothRun | app/pipeline/orchestrator.py:148-165 | When no foreign call of the five steps fails there is no error line, the document does not fail, and it is cleared exactly if nothing is flagged. |
| Outcomes.AttemptRaises | app/pipeline/orchestrator.py:118-138 | With a working database an attempt raises the critical step's name and reason, or the session's complaint where the mapping row could not be inserted. |
| Outcomes.RunRaisesText | app/pipeline/orchestrator.py:128-138 | Where the session was intact it had filed status, message and audit row with step and reason. |
| Outcomes.StatusReached | app/pipeline/orchestrator.py:91-110 | The status the session holds after every round: OCR complete, masked, extracted if a response was stored, validated unless validation raised. |
| Outcomes.TimingsReached | app/pipeline/orchestrator.py:101-105 | After every round the timings are those of the steps that returned, each in its step's name. |
| Outcomes.TextReached | app/pipeline/steps/step_ocr.py:24-33 | From the first round on, what masking is asked about is the text the OCR call returned. |
| Outcomes.ValidatedReached | app/pipeline/steps/step_validate.py:25-46 | In a healthy session the engine has run after the sixth round exactly if there is a stored extraction. |
| Review.SubmitReviewDecision | app/api/v1/review.py:83-151 | The decision goes through exactly for an open task when every operation works; then task, log, document and audit row change together, else nothing. |
| Review.FirstFinalDecides | app/api/v1/review.py:83-151 | Of any decisions submitted for an open task the corrections and the first final one are taken and audited, and the rest refused; the last one taken has set task and document: approved and reviewed, rejected and failed with a message, escalated or in review with the document as it was. Other tasks, mappings and extractions stay. |
| Upload.UploadDocument | app/api/v1/documents.py:85-118 | The row is visible, as processing, exactly when everything works; the delivery is sent even when a later operation fails. |
| Upload.UploadRefinesProtocol | app/api/v1/documents.py:85-118 | Every upload is a legal run of the protocol that ends in the same rows. |
| Upload.EarlyDeliveryFindsNothing | app/api/v1/documents.py:104-111 | Before the upload commits, an attempt finds no document, raises and changes nothing. |
| Upload.OrphanForever | app/api/v1/documents.py:104-111 | A rolled-back upload stays so, hence its delivery never finds a document. |
| Protocol.StepKeeps | app/db/session.py:79-95 | The whole-system invariant is kept by every step of upload, workers and reviewers. |
| Protocol.RunKeeps | app/db/session.py:79-95 | It holds in every state any interleaving reaches. |
| Protocol.ObservableStatuses | app/pipeline/orchestrator.py:107-159 | A committed document is only ever processing, failed, validated or reviewed. |
| Protocol.UploadOverwritesNothing | app/api/v1/documents.py:90-111 | When the upload's commit is enabled no row is visible and nobody has used it. |
| Protocol.AtMostOneMappedRun | app/models/pii_mapping.py:24-26 | At most one committed run stores a mapping, whatever is redelivered. |
| Protocol.ReviewProtocol | app/api/v1/review.py:87-117 | With any number of reviewers a task's log is corrections and then at most one final decision, its status is the fold of the log, logs only grow and decided tasks do not change. |
| Protocol.RunGrowsTasks | app/db/repositories/review.py:40-64 | From any reachable state on, tasks stay, logs only grow, terminal tasks are fixed. |
| Protocol.SingleCommit | app/pipeline/steps/step_risk.py:45-75 | If every masking finds something: at most one run commits, at most one task exists, and the status is that run's, overridden exactly by an approval or a rejection. |
| Protocol.EscalatedDocumentIsStuck | app/api/v1/review.py:119-132 | If every masking finds something: after an escalation no attempt and no reviewer changes status or task any more. |
| Redelivery.SoloRefinesAttempt | app/tasks/document_tasks.py:62-90 | The interleaved steps of an attempt nobody disturbs do what the sequential attempt does, whether it commits, raises, or is refused its mapping row by the unique constraint. |
| Redelivery.LostWorkerLeavesNothing | app/db/session.py:79-95 | A worker lost after any of its rounds, its mapping row inserted or not, leaves the whole system as it was. |
| Redelivery.ReviewRefinesProtocol | app/api/v1/review.py:76-151 | The steps of a review session do what the decision does: filed for an open task when everything works, else the rows stay, and the lock is free again. |
| Redelivery.UnmappedRedelivery | app/pipeline/steps/step_pii_mask.py:55-72 | Where nothing is masked, a further attempt commits from any state: it sets the status its environment determines and opens a task exactly if it wants a review. |
| Redelivery.SingleCommitIffMapped | app/models/pii_mapping.py:24-26 | With a working database and successful masking: at most one run commits in every interleaving exactly if masking finds something. |
| Redelivery.UnmappedMovesOn | app/api/v1/review.py:119-132 | Where nothing is masked and a review is wanted, from any reachable state a further attempt and the approval of its task set the document to reviewed. |
| Redelivery.EscalatedStuckIffMapped | app/api/v1/review.py:33-37 | A document with an escalated task, however many it has, keeps tasks and status, whatever attempts and reviewers do, exactly if masking finds something in it. |
| Redelivery.RedeliveryReopensApproval | app/pipeline/steps/step_pii_mask.py:55-72 | An example: an overdrawn statement without PII, approved, goes back to validated with a new task. |
| LineGrouping.GroupLines | app/services/ocr/pdfplumber_service.py:79-94 | The loop with its current line and anchor computes the greedy grouping. |
| LineGrouping.LinesAreValid | app/services/ocr/pdfplumber_service.py:83-94 | In any order the lines are non-empty, concatenate to the words, and stay within 5 of their first word. |
| LineGrouping.AnchorsAreApart | app/services/ocr/pdfplumber_service.py:85 | Consecutive lines start more than 5 apart. |
| LineGrouping.LinesAreFiveApart | app/services/ocr/pdfplumber_service.py:83-94 | The words come back line by line: every word of a line lies at most 5 above or below its first one, and the first word of the next line does not. |
| LineGrouping.GreedyIsShortest | app/services/ocr/pdfplumber_service.py:83-94 | For words from top to bottom no valid grouping has fewer lines. |
| LineGrouping.GreedyCanBeBeaten | app/services/ocr/pdfplumber_service.py:83-94 | Out of order one can. |
| LineGrouping.BlockBoxIsTight | app/services/ocr/pdfplumber_service.py:118-129 | A block's clamped box contains the visible box of every word and lies within every box that does. |
| LineGrouping.VisibleIs | app/services/ocr/pdfplumber_service.py:124-129 | What is visible of a box lies in the unit square, and is the box itself exactly if that does. |
| LineGrouping.ClampIsNearest | app/services/ocr/pdfplumber_service.py:125-128 | A clamped coordinate is the nearest one of the unit interval. |
| Dates.ParseDate | app/services/validation/rules/temporal.py:13-21 | The loop returns the first format's reading, and none for a value that is no string. |
| Dates.ReadingsAreValid | app/services/validation/rules/temporal.py:16-21 | Whatever is read is a date of the Gregorian calendar. |
| Dates.ReadsIff | app/services/validation/rules/temporal.py:16-21 | A text is read as a date exactly if it spells that date in the first of the four formats in which it spells a date of the calendar. |
| Dates.DayTexts | app/services/validation/rules/temporal.py:16 | A day is one or two digits that write down 1 to 31, or a blank and one digit; behind 1 or 2 a digit of another script will do. |
| Dates.MonthTexts | app/services/validation/rules/temporal.py:16 | A month is one or two digits that write down 1 to 12. |
| Dates.YearTexts | app/services/validation/rules/temporal.py:16 | A year is four digits. |
| Dates.ValidIffBetween | app/services/validation/rules/temporal.py:18 | A date is one of the calendar exactly if, counted in days, it lies between the first of its month and that of the next. |
| Dates.BeforeIff | app/services/validation/rules/temporal.py:41 | Dates compare as their numbers of days do. |
| Dates.PrintedReads | app/services/validation/rules/temporal.py:16 | Every date printed in one of the formats is read, as itself or, month-first with a day up to 12, swapped. |
| Dates.RoundTripIff | app/services/validation/rules/temporal.py:16 | It is read as itself exactly unless it is month-first with a day up to 12 that differs from the month. |
| Dates.PeriodRuleIsExact | app/services/validation/rules/temporal.py:31-50 | The rule is silent exactly when the dates as read run forward, which for unambiguous formats are the dates printed. |
| Dates.PeriodReport | app/services/validation/rules/temporal.py:31-50 | A statement is reported, as an error, exactly if both dates are read and the end is no later day than the start; a missing or unread date is passed over. |
| Dates.MonthFirstPeriodMisjudged | app/services/validation/rules/temporal.py:41 | Month-first, 5 January to 3 February is refused and the reverse accepted, in every year. |
| JsonRecovery.RecoveredStandsInReply | app/services/llm/ollama_client.py:161-188 | A returned value is the parse of one contiguous piece of the reply. |
| JsonRecovery.WholeReplyRecovers | app/services/llm/ollama_client.py:161-165 | A reply that parses once the blanks around it are off comes back as just that. |
| JsonRecovery.RecoversIff | app/services/llm/ollama_client.py:161-188 | A value comes back exactly if the stripped reply parses to it; or else the stripped text between the first three backticks, with or without "json", and the next three; or else what its first "{" and last "}" enclose. It raises exactly if none of the three parses. |
| JsonRecovery.FenceRecovers | app/services/llm/ollama_client.py:170-174 | If the whole does not parse, an object alone in the first code fence behind a backtick-free prefix is returned, whatever follows. |
| JsonRecovery.BracesRecover | app/services/llm/ollama_client.py:178-182 | If neither the whole nor a fence's body parses, an object behind '{'-free and before '}'-free text is returned. |
| JsonRecovery.BareObjectRecovers | app/services/llm/ollama_client.py:178-182 | So in a reply without a fence such an object is returned. |
| JsonRecovery.StrayBraceHides | app/services/llm/ollama_client.py:178-182 | With a '{' in the text before the object, the answer is the parse of everything from there to the object's end, and there is none if that does not parse. |
| Validation.RunRules | app/services/validation/engine.py:28-50 | The loop collects every rule's violations, with one warning in the name of a rule that raises. |
| Validation.CountsAddUp | app/schemas/validation.py:32-40 | Error and warning counts add up to the number of violations. |
| Validation.ReportedBy | app/services/validation/engine.py:31-48 | A violation is reported exactly when some rule contributes it. |
| Validation.ReportAppend | app/services/validation/engine.py:28-50 | The rules report in their order. |
| Validation.PassedIff | app/schemas/validation.py:32-40 | Passed holds exactly when no rule that returned normally emitted an error. |
| Validation.ResultCounts | app/schemas/validation.py:32-40 | The result keeps the violations; its error and warning counts are how many of them are errors and warnings, and it passes exactly if all are warnings. |
| Validation.BalanceReport | app/services/validation/rules/financial.py:25-53 | Engine and balance rule report a statement with four numbers exactly if they are off by more than 0.01, as an error, and any other statement with a warning. |
| Validation.TotalsReport | app/services/validation/rules/financial.py:63-90 | The same for subtotal, tax and total of an invoice. |
| Validation.LinesReport | app/services/validation/rules/financial.py:100-121 | Nothing is said without a subtotal or a line with an amount; else lines that do not add up to a numeric subtotal within 0.01 give a warning. |
| Validation.OtherDocuments | app/services/validation/rules/financial.py:26-27 | Each rule is silent on documents of another kind. |
| Validation.InvoiceToleranceComposes | app/services/validation/rules/financial.py:63-121 | An engine run silent on both totals rules means numbers in all three fields and, with a line total, lines plus tax within 0.02 of the total. |
| Validation.TwoCentsGoUnnoticed | app/services/validation/rules/financial.py:63-121 | The bound is attained, for every subtotal and tax. |
| Validation.PassedInvoice | app/services/validation/rules/financial.py:63-90 | A passed invoice with three numbers balances within 0.01; otherwise it passed with a warning in the rule's name. |
| Validation.ChainDrift | app/services/validation/rules/financial.py:25-53 | Over n chained statements the balance rule accepts, the closing balance drifts by at most n times 0.01. |
| Risk.ExecuteLargeTransfer | app/services/risk/rules/transaction.py:26-37 | The loop's flags, transaction by transaction. |
| Risk.ExecuteRoundNumber | app/services/risk/rules/transaction.py:54-66 | The loop's flags: at or above the threshold and a multiple of 1000. |
| Risk.FlagDescription | app/services/risk/rules/counterparty.py:31-41 | The inner loop flags the first term found and stops. |
| Risk.ExecuteHighRiskJurisdiction | app/services/risk/rules/counterparty.py:25-42 | The nested loops' flags, at most one a transaction. |
| Risk.ExecuteUnusualCounterparty | app/services/risk/rules/counterparty.py:57-74 | The nested loops' flags, at most one a transaction. |
| Risk.Detect | app/services/risk/detector.py:48-88 | All rules' flags in order, a raising rule skipped, and the assessment of those flags. |
| Risk.TxnFlagsAppend | app/services/risk/rules/transaction.py:26-37 | The flags of A followed by B are those of A and then those of B with shifted numbers. |
| Risk.FlaggedBy | app/services/risk/rules/transaction.py:26-37 | A flag is emitted exactly by the transaction it names. |
| Risk.FlagsAre | app/services/risk/detector.py:53-64 | A flag is in the result exactly when its own rule emits it. |
| Risk.LevelIsMaximum | app/services/risk/detector.py:90-96 | The overall level bounds every flag's level and is low or attained. |
| Risk.RiskIsMonotone | app/services/risk/detector.py:53-67 | More transactions or lower thresholds lose no flag and never lower the level or lift the call for review. |
| Risk.ReviewIffFlagged | app/services/risk/detector.py:66-67 | Review is called for exactly when anything is flagged. |
| Risk.HighIff | app/services/risk/detector.py:90-96 | No statement is critical, and it is high exactly for a large transfer or a keyword in some description. |
| Risk.AssessmentIs | app/services/risk/detector.py:48-96 | A statement is high exactly if some amount reaches the large threshold or some description names one of eleven keywords; else medium exactly if there are too many transactions, the balance is negative, or some amount is a multiple of 1000 and reaches the round threshold or some description names one of six transfers; else low. Review is called for unless it is low. |
| Risk.LargeTransferIff | app/services/risk/rules/transaction.py:26-37 | Transaction k is flagged exactly if its amount is that far from zero. |
| Risk.RoundNumberIff | app/services/risk/rules/transaction.py:54-66 | Exactly if its amount reaches the threshold and is 1000 times an integer. |
| Risk.HighVelocityIff | app/services/risk/rules/transaction.py:80-91 | Exactly if there are more transactions than the threshold. |
| Risk.NegativeBalanceIff | app/services/risk/rules/transaction.py:105-114 | Exactly if the closing balance is a negative number. |
| Risk.DescriptionFlagsIff | app/services/risk/rules/counterparty.py:25-74 | Transaction k is flagged for its description exactly if, lower-cased, it contains one of the eleven keywords, or one of the six transfer terms. |
| Risk.UnusualCounterpartyIff | app/services/risk/rules/counterparty.py:57-74 | The flag quotes the first of the six terms, in this order, that the description has. |
| Risk.HighRiskJurisdictionIff | app/services/risk/rules/counterparty.py:30-41 | The flag quotes the first keyword of the walk that the description has. |
| Risk.FlagsAreShaped | app/services/risk/detector.py:53-64 | Every flag has its rule's level and names a transaction of the statement, or none for the two rules about the whole. |
| Risk.FlagsOrdered | app/services/risk/detector.py:53-56 | Flags come rule by rule and, for each rule, transaction by transaction, none twice. |
| Risk.OtherPayloadsAreLow | app/services/risk/rules/transaction.py:20-21 | Nothing but a bank statement is ever flagged. |
| Risk.KeywordOrderIsIrrelevant | app/services/risk/rules/counterparty.py:30-41 | In whatever order the keyword set is walked, the flagged transactions, the level and the call for review are the same. |

## Left out

- Presidio's detection and its merging of overlapping or adjacent spans: the spans are an input, sorted and disjoint,
  with entity types free of brackets. The recogniser patterns are read case-sensitively.
- Masker.RoundTripIffShared: that the values must be shared is proved for spans of one length per type, because values
  of different lengths can restore the text by coincidence, for which there is no condition simpler than the round
  trip itself.
- Masker.MaskRoundTrip: detections that hold a '[' and masked text that is not guarded; for those
  `TokenValues.SimultaneousIffHarmless` and `TokenOrder.SimultaneousIffSettled` say when the loop is still one pass, and
  `Masker.SubstituteJoined` what one pass gives.
- Masker.LastValuesRestoreIffShared: the same condition on lengths, for the same reason.
- Masker.Mask: an exception of the anonymizer itself, which ends in an error as one of the analyzer does, and the entity
  list of the result with its global token index, of which only the length is read. The lazy set-up of the analyzer.
- AES-GCM, base64 and key handling: encryption succeeds or raises, and decryption returns the mapping that was stored or fails.
- `json.dumps` and `json.loads` of the mapping and `model_dump`/`model_validate` of the payload: the payload is its
  dump, and re-validation is any partial function on it.
- `step_normalize.py` is not part of the sources: `Pipeline.ExecuteNormalize` may raise, or rewrites the payload and its row together.
- Pipeline.ExecuteOcr: loading the file and reading its text are one call, and the slot of the file's bytes, which no later
  step reads, is left out.
- Pipeline.ExecuteValidate: the engine's result, which only goes into the row's status and violations, is left out; that
  the engine's rules and counts are as `Validation` has them is proved there.
- Pipeline.CreateReviewTask: priority and trigger reason are left out; nothing depends on them.
- Pipeline.PipelineOrchestrator.WriteAuditEvent: actor, step name, timings and the joined error text are left out.
- Pipeline.AsyncSession.UpdateDocument: the branch for a document that is gone; no modelled operation deletes one.
- `_map_status` and its `errored_count`, which the result schema does not define; the import of `SCHEMA_MAP`, which the parser calls
  `_SCHEMA_MAP`, is read as intended.
- Text of the validation and risk messages, summaries and timestamps; durations are any numbers.
- Pipeline.ProcessDocument: one delivery that nobody disturbs between its attempts; disturbed ones are runs of `Protocol`. Retry delays are left out.
- Row locks of the documents table: `Protocol` lets more writers overlap than a database would. The lock on a review
  task's row and the wait of a second insert on the unique constraint are modelled.
- Rounding of floats, NaN and infinities: amounts and coordinates are exact reals, and a word's rounded top is an input.
- Lower-casing of transaction descriptions: any function. Lower-casing in the search for "failed": ASCII letters, which is exact for that word.
- A JSON parser that raises anything but a decoding error.
- Required-field, confidence, negative-amount and far-future-date rules, tables on a page, and the text of a block: only easy members.
- OCR engines, storage, HTTP, the language-model clients and their prompts, authentication, settings, queries and listings.
