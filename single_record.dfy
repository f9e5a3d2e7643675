/**
 * The single-shot single-record workflow: a record already past the fail
 * limit is persisted as PermanentlyFailed without a post; otherwise it is
 * posted once and one persist records the outcome. An exhausted post leaves
 * the record Created with its fail count raised by one, for a parent to
 * start the workflow again.
 */
module SingleRecord {
  import opened Models
  import SingleRecordLoop

  /** One run of the single-shot workflow, where `outcome` is what its one post yields. */
  function Single(input: WorkflowInput, outcome: PostOutcome): (r: Run)
    ensures r.output.recordId == input.recordId
    ensures |r.trace| > 0 && r.trace[|r.trace| - 1].Persist?
    ensures Select(r.trace, PersistEvent) == [r.trace[|r.trace| - 1]]
    ensures r.trace[|r.trace| - 1].record.id == input.recordId
    ensures r.trace[|r.trace| - 1].record.data == input.recordData
    ensures r.trace[|r.trace| - 1].record.status == r.output.finalStatus
    ensures Select(r.trace, AttemptEvent) ==
      if input.currentFailCount > MaxFailCount then []
      else [Attempt(RecordToProcess(input.recordId, input.recordData, input.currentFailCount, Created))]
    ensures Select(r.trace, TimerEvent) == []
    ensures r.output.finalStatus == PermanentlyFailed <==> input.currentFailCount > MaxFailCount
    ensures r.output.finalStatus == Processed <==> input.currentFailCount <= MaxFailCount && outcome.Succeeded?
    ensures r.output.finalStatus == Invalid <==> input.currentFailCount <= MaxFailCount && outcome.Rejected?
    ensures r.output.finalStatus == Created <==> input.currentFailCount <= MaxFailCount && outcome.Exhausted?
    ensures r.trace[|r.trace| - 1].record.failCount ==
      match r.output.finalStatus
      case PermanentlyFailed => input.currentFailCount
      case Created => input.currentFailCount + 1
      case _ => 0
  {
    var id, data, f := input.recordId, input.recordData, input.currentFailCount;
    if f > MaxFailCount then
      var persist := Persist(RecordToProcess(id, data, f, PermanentlyFailed));
      SelectSingle(persist, PersistEvent);
      SelectSingle(persist, AttemptEvent);
      SelectSingle(persist, TimerEvent);
      Run(WorkflowOutput(id, PermanentlyFailed), [persist])
    else
      var attempt := Attempt(RecordToProcess(id, data, f, Created));
      var settled :=
        if outcome.Exhausted? then RecordToProcess(id, data, f + 1, Created)
        else if ReturnedResult(outcome).isSuccess then RecordToProcess(id, data, 0, Processed)
        else RecordToProcess(id, data, 0, Invalid);
      var persist := Persist(settled);
      SelectPair(attempt, persist);
      Run(WorkflowOutput(id, settled.status), [attempt, persist])
  }

  lemma SelectPair(attempt: Event, persist: Event)
    requires attempt.Attempt? && persist.Persist?
    ensures Select([attempt, persist], AttemptEvent) == [attempt]
    ensures Select([attempt, persist], PersistEvent) == [persist]
    ensures Select([attempt, persist], TimerEvent) == []
  {
    assert [attempt] + [persist] == [attempt, persist];
    SelectCons(attempt, [persist], AttemptEvent); SelectSingle(persist, AttemptEvent);
    SelectCons(attempt, [persist], PersistEvent); SelectSingle(persist, PersistEvent);
    SelectCons(attempt, [persist], TimerEvent); SelectSingle(persist, TimerEvent);
  }

  /** The workflow, step by step as the C# workflow runs it. */
  method RunSingle(input: WorkflowInput, outcome: PostOutcome) returns (output: WorkflowOutput, trace: seq<Event>)
    ensures Run(output, trace) == Single(input, outcome)
  {
    var recordId := input.recordId;
    var currentStatus := Created;
    var currentFailCount := input.currentFailCount;
    trace := [];

    if currentFailCount > MaxFailCount {
      trace := trace + [Persist(RecordToProcess(recordId, input.recordData, currentFailCount, PermanentlyFailed))];
      output := WorkflowOutput(recordId, PermanentlyFailed);
      return;
    }

    trace := trace + [Attempt(RecordToProcess(recordId, input.recordData, currentFailCount, currentStatus))];
    if outcome.Exhausted? {
      currentFailCount := currentFailCount + 1;
      currentStatus := Created;
      trace := trace + [Persist(RecordToProcess(recordId, input.recordData, currentFailCount, currentStatus))];
      output := WorkflowOutput(recordId, currentStatus);
      return;
    }

    var apiResult := ReturnedResult(outcome);
    if apiResult.isSuccess {
      currentStatus := Processed;
      trace := trace + [Persist(RecordToProcess(recordId, input.recordData, 0, currentStatus))];
      output := WorkflowOutput(recordId, currentStatus);
      return;
    }

    currentStatus := Invalid;
    trace := trace + [Persist(RecordToProcess(recordId, input.recordData, 0, currentStatus))];
    output := WorkflowOutput(recordId, currentStatus);
  }

  /**
   * The single-shot workflow started again, as its parent is meant to do,
   * for as long as it returns Created, each time with the fail count it
   * persisted; the n-th post of the series is answered by respond(n), and
   * this series starts at post k. The series always settles: it never ends
   * Created.
   */
  function Reinvoked(input: WorkflowInput, k: nat, respond: nat -> PostOutcome): (r: Run)
    ensures r.output.recordId == input.recordId
    ensures r.output.finalStatus != Created
    ensures |r.trace| > 0
    decreases MaxFailCount + 2 - input.currentFailCount
  {
    var first := Single(input, respond(k));
    if first.output.finalStatus == Created then
      var rest := Reinvoked(WorkflowInput(input.recordId, input.recordData, input.currentFailCount + 1), k + 1, respond);
      Run(rest.output, first.trace + rest.trace)
    else
      first
  }

  /** A series whose first post is exhausted: that run, then the series from the raised count. */
  lemma ReinvokedRetries(id: string, data: string, failCount: int, k: nat, respond: nat -> PostOutcome)
    requires failCount <= MaxFailCount && respond(k).Exhausted?
    ensures Reinvoked(WorkflowInput(id, data, failCount), k, respond) ==
      Run(Reinvoked(WorkflowInput(id, data, failCount + 1), k + 1, respond).output,
          [Attempt(RecordToProcess(id, data, failCount, Created)), Persist(RecordToProcess(id, data, failCount + 1, Created))]
          + Reinvoked(WorkflowInput(id, data, failCount + 1), k + 1, respond).trace)
  {
  }

  /** A series whose first post returns: that one run. */
  lemma ReinvokedSettles(id: string, data: string, failCount: int, k: nat, respond: nat -> PostOutcome)
    requires failCount <= MaxFailCount && !respond(k).Exhausted?
    ensures Reinvoked(WorkflowInput(id, data, failCount), k, respond) ==
      Run(WorkflowOutput(id, SingleRecordLoop.SettledBy(respond(k))),
          [Attempt(RecordToProcess(id, data, failCount, Created)),
           Persist(RecordToProcess(id, data, 0, SingleRecordLoop.SettledBy(respond(k))))])
  {
  }

  /** A series started past the limit: one run that persists PermanentlyFailed. */
  lemma ReinvokedPastLimit(input: WorkflowInput, k: nat, respond: nat -> PostOutcome)
    requires input.currentFailCount > MaxFailCount
    ensures Reinvoked(input, k, respond) ==
      Run(WorkflowOutput(input.recordId, PermanentlyFailed),
          [Persist(RecordToProcess(input.recordId, input.recordData, input.currentFailCount, PermanentlyFailed))])
  {
  }

  /**
   * A run of the single-shot series matches a run of the loop: same output,
   * the same posts in the same order, and a last event that persists the
   * fail count and status the loop ends with.
   */
  predicate Matches(r: Run, e: SingleRecordLoop.LoopEnd, id: string, data: string) {
    && r.output == WorkflowOutput(id, e.status)
    && Select(r.trace, AttemptEvent) == Select(e.trace, AttemptEvent)
    && |r.trace| > 0
    && r.trace[|r.trace| - 1] == Persist(RecordToProcess(id, data, e.failCount, e.status))
  }

  /** An exhausted post in front of matching runs keeps them matching. */
  lemma MatchesAfterRetry(id: string, data: string, failCount: int, rest: Run, next: SingleRecordLoop.LoopEnd)
    requires Matches(rest, next, id, data)
    ensures Matches(Run(rest.output, [Attempt(RecordToProcess(id, data, failCount, Created)),
                                      Persist(RecordToProcess(id, data, failCount + 1, Created))] + rest.trace),
                    SingleRecordLoop.Resume(SingleRecordLoop.Round(id, data, failCount), next), id, data)
  {
    var attempt := Attempt(RecordToProcess(id, data, failCount, Created));
    var raised := Persist(RecordToProcess(id, data, failCount + 1, Created));
    SelectAppend([attempt, raised], rest.trace, AttemptEvent);
    SelectPair(attempt, raised);
    SingleRecordLoop.SelectResume(id, data, failCount, next.trace);
  }

  /** The last post exhausted: the series persists PermanentlyFailed on its next run, the loop at once. */
  lemma MatchesPastLimit(id: string, data: string, failCount: int)
    ensures Matches(Run(WorkflowOutput(id, PermanentlyFailed),
                        [Attempt(RecordToProcess(id, data, failCount, Created)),
                         Persist(RecordToProcess(id, data, failCount + 1, Created))]
                        + [Persist(RecordToProcess(id, data, failCount + 1, PermanentlyFailed))]),
                    SingleRecordLoop.LoopEnd(failCount + 1, PermanentlyFailed, [Attempt(RecordToProcess(id, data, failCount, Created))]),
                    id, data)
  {
    var attempt := Attempt(RecordToProcess(id, data, failCount, Created));
    var raised := Persist(RecordToProcess(id, data, failCount + 1, Created));
    var failed := Persist(RecordToProcess(id, data, failCount + 1, PermanentlyFailed));
    SelectAppend([attempt, raised], [failed], AttemptEvent);
    SelectPair(attempt, raised);
    SelectSingle(failed, AttemptEvent);
    SelectSingle(attempt, AttemptEvent);
  }

  /** A post that returns settles both workflows the same way. */
  lemma MatchesSettled(id: string, data: string, failCount: int, settled: Status)
    ensures Matches(Run(WorkflowOutput(id, settled),
                        [Attempt(RecordToProcess(id, data, failCount, Created)), Persist(RecordToProcess(id, data, 0, settled))]),
                    SingleRecordLoop.LoopEnd(0, settled, [Attempt(RecordToProcess(id, data, failCount, Created))]),
                    id, data)
  {
    var attempt := Attempt(RecordToProcess(id, data, failCount, Created));
    SelectPair(attempt, Persist(RecordToProcess(id, data, 0, settled)));
    SelectSingle(attempt, AttemptEvent);
  }

  /**
   * Re-invoking the single-shot workflow posts exactly what the looping
   * workflow posts, in the same order, and ends in the same status with the
   * same final persist.
   */
  lemma {:induction false} ReinvokedMatchesLoop(id: string, data: string, failCount: int, k: nat, respond: nat -> PostOutcome)
    requires failCount <= MaxFailCount
    ensures Matches(Reinvoked(WorkflowInput(id, data, failCount), k, respond),
                    SingleRecordLoop.Loop(id, data, failCount, k, respond), id, data)
    decreases MaxFailCount + 1 - failCount
  {
    if respond(k).Exhausted? {
      ReinvokedRetries(id, data, failCount, k, respond);
      if failCount + 1 <= MaxFailCount {
        SingleRecordLoop.LoopRetries(id, data, failCount, k, respond);
        ReinvokedMatchesLoop(id, data, failCount + 1, k + 1, respond);
        MatchesAfterRetry(id, data, failCount, Reinvoked(WorkflowInput(id, data, failCount + 1), k + 1, respond),
                          SingleRecordLoop.Loop(id, data, failCount + 1, k + 1, respond));
      } else {
        SingleRecordLoop.LoopSettles(id, data, failCount, k, respond);
        ReinvokedPastLimit(WorkflowInput(id, data, failCount + 1), k + 1, respond);
        MatchesPastLimit(id, data, failCount);
      }
    } else {
      ReinvokedSettles(id, data, failCount, k, respond);
      SingleRecordLoop.LoopSettles(id, data, failCount, k, respond);
      MatchesSettled(id, data, failCount, SingleRecordLoop.SettledBy(respond(k)));
    }
  }

  /**
   * For a record within the fail limit, the looping workflow and the
   * re-invoked single-shot workflow agree: same posts, same output, same
   * final persisted record.
   */
  lemma ReinvokedAgreesWithLoop(input: WorkflowInput, respond: nat -> PostOutcome)
    requires input.currentFailCount <= MaxFailCount
    ensures Reinvoked(input, 0, respond).output == SingleRecordLoop.WithLoop(input, respond).output
    ensures Select(Reinvoked(input, 0, respond).trace, AttemptEvent) ==
      Select(SingleRecordLoop.WithLoop(input, respond).trace, AttemptEvent)
    ensures Reinvoked(input, 0, respond).trace[|Reinvoked(input, 0, respond).trace| - 1] ==
      SingleRecordLoop.WithLoop(input, respond).trace[|SingleRecordLoop.WithLoop(input, respond).trace| - 1]
  {
    var e := SingleRecordLoop.Loop(input.recordId, input.recordData, input.currentFailCount, 0, respond);
    var last := Persist(RecordToProcess(input.recordId, input.recordData, e.failCount, e.status));
    assert input == WorkflowInput(input.recordId, input.recordData, input.currentFailCount);
    ReinvokedMatchesLoop(input.recordId, input.recordData, input.currentFailCount, 0, respond);
    SelectAppend(e.trace, [last], AttemptEvent);
    SelectSingle(last, AttemptEvent);
  }

  /**
   * Past the fail limit the two workflows part ways: neither posts, but the
   * single-shot workflow returns PermanentlyFailed while the looping one
   * returns Created.
   */
  lemma VariantsDifferPastLimit(input: WorkflowInput, outcome: PostOutcome, respond: nat -> PostOutcome)
    requires input.currentFailCount > MaxFailCount
    ensures Single(input, outcome).output.finalStatus == PermanentlyFailed
    ensures SingleRecordLoop.WithLoop(input, respond).output.finalStatus == Created
    ensures Select(Single(input, outcome).trace, AttemptEvent) == []
    ensures Select(SingleRecordLoop.WithLoop(input, respond).trace, AttemptEvent) == []
  {
    SingleRecordLoop.ExhaustedAtEntry(input, respond);
    SelectSingle(SingleRecordLoop.WithLoop(input, respond).trace[0], AttemptEvent);
  }
}
