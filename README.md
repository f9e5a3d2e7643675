# Record-processing orchestration, modelled in Dafny

This project models the orchestration core of a Dapr workflow pipeline that
posts billing records to a downstream API. The workflows are written in C#.

- **The looping single-record workflow** (`ProcessSingleRecordWorkflowWithLoop`)
  posts a record. A success ends the record `Processed` and a 422 ends it
  `Invalid`; either resets its fail count to 0. A post that throws after the
  inner retry policy has given up raises the fail count by one. While the
  count is within `MaxFailCount = 3`, the workflow then persists the record
  as `Created` with the new count, waits a staged delay (10, 20 or
  30 minutes, otherwise 5) and posts again. Past the limit the record
  becomes `PermanentlyFailed`. One final persist always records the state
  the loop ends in.
- **The single-shot variant** (`ProcessSingleRecordWorkflow`) makes at most
  one post and exactly one persist. A record already past the limit is
  persisted `PermanentlyFailed` without a post. An exhausted post leaves the
  record `Created` with its fail count raised by one, for a parent to start
  the workflow again.
- **The batch workflow** (`ProcessRecordsWorkflow`) fetches the records
  (a simulated fetch of `rec_1`..`rec_10`). It starts one looping child per
  record under the instance id `<batch id>-<record id>`, waits for all
  children and returns `true`. A failed fetch returns `false`.
- **The post activity** (`PostRecordActivity`, one copy per project)
  classifies the HTTP response:
  - a 2xx response is returned as a success;
  - a 422 is returned as a rejection that carries the response body;
  - any other status is thrown as an exception.

Effects are recorded in an event trace, in order:

- `Attempt(record)` is one post, with the record it sends.
- `Persist(record)` is one call of the status-update activity.
- `Timer(minutes)` is one durable timer.

The downstream API is a script `respond: nat -> PostOutcome`. `respond(n)`
is what the n-th post of a run yields once inner retries are included: `Succeeded(code)`,
`Rejected(body)` or `Exhausted`. `PostRecordActivity.ReturnedIsOutcome`
shows these three outcomes cover everything the activity can hand back to a
workflow.

Each workflow has two parts:

- a specification function: `SingleRecordLoop.WithLoop`,
  `SingleRecord.Single`, or `ProcessRecords.ChildStarts` for the batch;
- a method that runs the C# workflow's steps in order and is proved equal to
  that function: `RunWithLoop`, `RunSingle` or `RunBatch`.

The lemmas state what the C# workflows promise about each function.

Files:

- `models.dfy`: statuses, records, results, workflow input and output, and
  events with their `Select` projection.
- `post_record_activity.dfy`: the response classification.
- `single_record_loop.dfy`: the looping workflow.
- `single_record.dfy`: the single-shot workflow, and how it relates to the
  looping one when re-invoked.
- `process_records.dfy`: the batch workflow.

Behaviours of the code worth knowing, which the model follows:

- **Past the limit, the looping workflow returns `Created`.** A record that
  enters with a fail count above 3 skips the loop. It is persisted and
  returned as `Created`, unlike the single-shot variant, which returns
  `PermanentlyFailed` for such a record.
- **`PermanentlyFailed` keeps a fail count of 4.** The count is not reset.
- **`Processed` and `Invalid` are persisted only once,** by the final
  persist after the loop.
- **The retry delays are 10/20/30 minutes.** A comment beside
  `CalculateRetryDelay` mentions 30 s, 60 s and 120 s; the code returns
  10/20/30 minutes.
- **Batch records use the Pipeline defaults.** The batch workflow builds
  each record from an id and data only (ProcessRecordsWorkflow.cs:37-40).
  The `RecordToProcess` it imports (WriterWorkflow/Models/Models.cs:3) has
  no default values, so that two-argument call does not compile against
  it. The model fills the gap with the defaults of the Pipeline
  `RecordToProcess`: fail count 0, status `Created`.
- **Negative fail counts are accepted,** as the C# `int` allows. They get
  extra posts, and raised counts below 1 wait the 5-minute default delay.
- **Child instance ids can collide across batches.** Within one batch they
  are distinct for distinct record ids. The dash is not escaped, so two
  different batches can derive the same id.

## Model

| member | source | states |
|---|---|---|
| Models.ParseStatus | WriterWorkflow/Consts.cs:17-23 | exactly the four status names are statuses, and each name reads back as its own status |
| Models.NewRecord | PipelineWorkflows/Models/Models.cs:3 | a record built from an id and data has fail count 0 and status Created |
| Models.ReturnedResult | WriterWorkflow/Models/Models.cs:4 | the result a workflow receives for a returned post: success exactly for Succeeded; otherwise status code 422 with the body as error message |
| PostRecordActivity.Run | WriterWorkflow/Activities/PostRecordActivity.cs:20-58 | a 2xx response returns success with the status code kept and an empty message; 422 returns failure with the body; any other status throws with that code; a transport or other exception is rethrown unchanged; the copy in PipelineWorkflows/Activities/PostRecordActivity.cs:17-54 classifies identically |
| PostRecordActivity.ReturnedIsOutcome | PipelineWorkflows/Activities/PostRecordActivity.cs:26-41 | every returned result is a success or a 422, and equals the result for the matching Succeeded or Rejected outcome |
| SingleRecordLoop.RetryDelay | WriterWorkflow/Workflows/ProcessSingleRecordWorkflowWithLoop.cs:105-112 | 10, 20 and 30 minutes for fail counts 1, 2 and 3; 5 minutes for every other count |
| SingleRecordLoop.WithLoop | WriterWorkflow/Workflows/ProcessSingleRecordWorkflowWithLoop.cs:14-102 | the output carries the input record id; the last event is a persist of that record whose status is the returned final status |
| SingleRecordLoop.RunWithLoop | WriterWorkflow/Workflows/ProcessSingleRecordWorkflowWithLoop.cs:14-102 | the while loop with its break and continue ends with the output and trace of WithLoop |
| SingleRecordLoop.LoopRetryEffects | WriterWorkflow/Workflows/ProcessSingleRecordWorkflowWithLoop.cs:24-92 | no post iff the count starts past 3; at most 4 - f posts, the j-th carrying fail count f + j and status Created; one persist of the raised count and one timer of its staged delay per retry |
| SingleRecordLoop.LoopDecision | WriterWorkflow/Workflows/ProcessSingleRecordWorkflowWithLoop.cs:46-92 | every post but the last was exhausted and the last one settles the status; PermanentlyFailed only after all 4 - f posts, with fail count 4; Processed and Invalid reset it to 0 |
| SingleRecordLoop.LoopTimersFramed | WriterWorkflow/Workflows/ProcessSingleRecordWorkflowWithLoop.cs:66-84 | every timer comes right after the persist of the raised fail count (at most 3), waits that count's delay, and comes right before the next post of that record |
| SingleRecordLoop.ExhaustedAtEntry | WriterWorkflow/Workflows/ProcessSingleRecordWorkflowWithLoop.cs:24-101 | a fail count above 3 at entry gives no post and one persist of the unchanged count with Created, and the workflow returns Created |
| SingleRecordLoop.WithLoopOutcome | WriterWorkflow/Workflows/ProcessSingleRecordWorkflowWithLoop.cs:24-101 | within the limit: 1 to 4 - f posts of fail counts f, f + 1, ...; all but the last exhausted; the final status is settled by the last post, never Created; the final persist writes it with fail count 0, or 4 for PermanentlyFailed |
| SingleRecordLoop.WithLoopBackoff | WriterWorkflow/Workflows/ProcessSingleRecordWorkflowWithLoop.cs:66-84 | one timer fewer than posts; the j-th timer waits RetryDelay(f + j + 1), which is 10·(f + j + 1) for f ≥ 0; each is preceded by a persist of that count with Created; the final persist comes last |
| SingleRecordLoop.WithLoopOrdering | WriterWorkflow/Workflows/ProcessSingleRecordWorkflowWithLoop.cs:70-101 | in the whole run, including the final persist, every timer sits between the persist of its raised count and the next post |
| SingleRecordLoop.RetriesThenProcessed | WriterWorkflow/Workflows/ProcessSingleRecordWorkflowWithLoop.cs:46-84 | k exhausted posts then a success: k + 1 posts, k timers of 10, 20, ... minutes, final status Processed persisted with fail count 0 |
| SingleRecordLoop.AlwaysExhaustedFails | WriterWorkflow/Workflows/ProcessSingleRecordWorkflowWithLoop.cs:61-92 | every post exhausted: 4 - f posts, 3 - f timers (none after the last failure), PermanentlyFailed persisted with fail count 4 |
| SingleRecordLoop.SettledOnFirstPost | WriterWorkflow/Workflows/ProcessSingleRecordWorkflowWithLoop.cs:46-59 | a first post that returns gives exactly one post and one persist of fail count 0, Processed for a success and Invalid for a 422, with no retry and no timer |
| SingleRecordLoop.TwoFailuresThenSuccess | WriterWorkflow/Workflows/ProcessSingleRecordWorkflowWithLoop.cs:24-101 | rec_1 exhausted twice and then posted: the full trace, with waits of 10 and 20 minutes and the final persist Processed/0 |
| SingleRecord.Single | PipelineWorkflows/Workflows/ProcessSingleRecordWorkflow.cs:16-89 | exactly one persist, last; at most one post, which carries the input fail count and Created; PermanentlyFailed iff past the limit (persisted with the count unchanged); Processed/0 iff success, Invalid/0 iff a 422, Created with count + 1 iff exhausted; no timer |
| SingleRecord.RunSingle | PipelineWorkflows/Workflows/ProcessSingleRecordWorkflow.cs:16-89 | the step-by-step branches end with the output and trace of Single |
| SingleRecord.Reinvoked | PipelineWorkflows/Workflows/ProcessSingleRecordWorkflow.cs:73-88 | re-invoking the workflow while it returns Created, with the fail count it persisted, always settles and keeps the record id |
| SingleRecord.ReinvokedMatchesLoop | PipelineWorkflows/Workflows/ProcessSingleRecordWorkflow.cs:26-88 | from any entry within the limit, the re-invoked series posts what the loop posts and ends with the loop's output and final persisted record |
| SingleRecord.ReinvokedAgreesWithLoop | PipelineWorkflows/Workflows/ProcessSingleRecordWorkflow.cs:26-88 | for a record within the limit, the re-invoked single-shot workflow and the looping workflow have the same posts, output and last persist |
| SingleRecord.VariantsDifferPastLimit | PipelineWorkflows/Workflows/ProcessSingleRecordWorkflow.cs:26-34 | past the limit neither variant posts, but the single-shot one returns PermanentlyFailed and the looping one Created |
| ProcessRecords.ChildInput | WriterWorkflow/Workflows/ProcessRecordsWorkflow.cs:67 | the child input is the record's id, data and fail count |
| ProcessRecords.ChildStarts | WriterWorkflow/Workflows/ProcessRecordsWorkflow.cs:56-69 | one child per record, in list order, each with that record's input and the instance id batch id, dash, record id |
| ProcessRecords.ChildInstanceIdInjective | WriterWorkflow/Workflows/ProcessRecordsWorkflow.cs:62 | within one batch, two child instance ids are equal exactly when the record ids are |
| ProcessRecords.ChildInstanceIdsCollideAcrossBatches | WriterWorkflow/Workflows/ProcessRecordsWorkflow.cs:62 | batch "a-b" with record "c" and batch "a" with record "b-c" derive the same child id |
| ProcessRecords.DistinctChildIds | WriterWorkflow/Workflows/ProcessRecordsWorkflow.cs:58-68 | records with distinct ids get children with distinct instance ids |
| ProcessRecords.RunBatch | WriterWorkflow/Workflows/ProcessRecordsWorkflow.cs:20-83 | true iff the fetch succeeded; a failed fetch or an empty list starts no child; otherwise the children are ChildStarts; one result per child, the output of the looping workflow for that child, with the record's id; true whatever the final statuses |
| ProcessRecords.SimulatedFetchRecords | WriterWorkflow/Workflows/ProcessRecordsWorkflow.cs:37-40 | the simulated fetch starts at rec_1/data1, ends at rec_10/data10, and gives ten distinct record ids |
| ProcessRecords.RunSimulatedBatch | WriterWorkflow/Workflows/ProcessRecordsWorkflow.cs:32-82 | on the simulated fetch the batch returns true, starts ten children with distinct instance ids, and collects ten results in record order |

## Left out

- The Dapr durable-execution substrate is not modelled: replay, timer suspension, activity and child-workflow scheduling, and instance deduplication. A timer is a `Timer` event with its minutes; an activity call is one step of the `respond` script.
- The inner activity retry policy is not modelled: a first interval of 5 s, backoff coefficient 2.0, a 5-minute cap and 10 attempts. It uses a floating-point coefficient. A workflow observes it only as a returned result or as `Exhausted`.
- The concurrency of the batch fan-out is not modelled. The children run one after another, and `Task.WhenAll` becomes collecting every result in record order.
- HTTP transport, JSON serialisation, reading the response body and the two endpoint URLs are not modelled. The status code and the body are inputs to the classification, so both activity files share one `PostRecordActivity.Run`.
- Exception message texts are left out. A thrown status is kept as its code.
- Logging is left out: the replay-safe loggers and the logger-message partials have no behavioural content.
- The status-update activity only logs and returns `true`. It appears as a `Persist` event.
- Process wiring is left out: the two `Program.cs` files, the fake data source and the fake downstream API.
- The real fetch from a database is not part of this model. A fetch is a parameter that either yields records or fails.
- Fail counts are unbounded integers, not 32-bit `int`s. A fail count is only raised from a value of at most 3 (ProcessSingleRecordWorkflowWithLoop.cs:24 and 66; ProcessSingleRecordWorkflow.cs:26 and 79), so no stored count goes above 4 and nothing wraps around.
- The looping workflow's fall-through, for a returned result that is neither a success nor a 422, would repeat the post without changing state. It is unreachable, because a returned result comes only from Succeeded or Rejected (`PostRecordActivity.ReturnedIsOutcome`).
