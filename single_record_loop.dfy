/**
 * The looping single-record workflow: post the record, and on an exhausted
 * post persist the raised fail count, wait a staged delay and post again,
 * until the post succeeds, is rejected with 422, or the fail count passes
 * MaxFailCount. One final persist records the state the loop ends in.
 *
 * The downstream API is a script: `respond(n)` is what the n-th post of the
 * run (counting from 0) yields, inner retries included.
 */
module SingleRecordLoop {
  import opened Models

  /** The delay, in minutes, before the retry that follows the given fail count. */
  function RetryDelay(failCount: int): (minutes: int)
    ensures 1 <= failCount <= 3 ==> minutes == 10 * failCount
    ensures !(1 <= failCount <= 3) ==> minutes == 5
  {
    if failCount == 1 then 10
    else if failCount == 2 then 20
    else if failCount == 3 then 30
    else 5
  }

  /** The fail count and status the loop leaves behind, and the events it caused. */
  datatype LoopEnd = LoopEnd(failCount: int, status: Status, trace: seq<Event>)

  /**
   * The loop entered with status Created and the given fail count, where
   * this entry's first post is post number k of the run.
   */
  function Loop(id: string, data: string, failCount: int, k: nat, respond: nat -> PostOutcome): LoopEnd
    decreases MaxFailCount + 1 - failCount
  {
    if failCount > MaxFailCount then LoopEnd(failCount, Created, [])
    else if respond(k).Exhausted? && failCount + 1 <= MaxFailCount then
      Resume(Round(id, data, failCount), Loop(id, data, failCount + 1, k + 1, respond))
    else
      // a success or a 422 resets the fail count; an exhausted last post leaves it one past the limit
      LoopEnd(if respond(k).Exhausted? then failCount + 1 else 0, SettledBy(respond(k)),
              [Attempt(RecordToProcess(id, data, failCount, Created))])
  }

  /** The whole workflow: the loop, then the unconditional final persist. */
  function WithLoop(input: WorkflowInput, respond: nat -> PostOutcome): (r: Run)
    ensures r.output.recordId == input.recordId
    ensures |r.trace| > 0 && r.trace[|r.trace| - 1].Persist?
    ensures r.trace[|r.trace| - 1].record.id == input.recordId
    ensures r.trace[|r.trace| - 1].record.data == input.recordData
    ensures r.trace[|r.trace| - 1].record.status == r.output.finalStatus
  {
    var e := Loop(input.recordId, input.recordData, input.currentFailCount, 0, respond);
    Run(WorkflowOutput(input.recordId, e.status),
        e.trace + [Persist(RecordToProcess(input.recordId, input.recordData, e.failCount, e.status))])
  }

  /** The status that the last post of a run settles the record in. */
  function SettledBy(last: PostOutcome): Status {
    match last
    case Succeeded(_) => Processed
    case Rejected(_) => Invalid
    case Exhausted => PermanentlyFailed
  }

  /** The loop's state after a trace prefix, glued to what the loop does from there on. */
  function Resume(done: seq<Event>, rest: LoopEnd): LoopEnd {
    LoopEnd(rest.failCount, rest.status, done + rest.trace)
  }

  /** The workflow, step by step as the C# workflow runs it. */
  method RunWithLoop(input: WorkflowInput, respond: nat -> PostOutcome) returns (output: WorkflowOutput, trace: seq<Event>)
    ensures Run(output, trace) == WithLoop(input, respond)
  {
    var recordId := input.recordId;
    var recordData := input.recordData;
    var currentFailCount := input.currentFailCount;
    var currentStatus := Created;
    var post: nat := 0;
    trace := [];
    ghost var whole := Loop(recordId, recordData, input.currentFailCount, 0, respond);

    while currentFailCount <= MaxFailCount && currentStatus == Created
      invariant currentStatus == Created
      invariant whole == Resume(trace, Loop(recordId, recordData, currentFailCount, post, respond))
      decreases MaxFailCount + 1 - currentFailCount
    {
      ghost var before, failCountBefore, postBefore := trace, currentFailCount, post;
      trace := trace + [Attempt(RecordToProcess(recordId, recordData, currentFailCount, currentStatus))];
      var outcome := respond(post);
      post := post + 1;
      if outcome.Exhausted? {
        currentFailCount := currentFailCount + 1;
        currentStatus := Created;
        if currentFailCount <= MaxFailCount {
          var retryDelay := RetryDelay(currentFailCount);
          trace := trace + [Persist(RecordToProcess(recordId, recordData, currentFailCount, currentStatus))];
          trace := trace + [Timer(retryDelay)];
          ResumeRetries(whole, before, recordId, recordData, failCountBefore, postBefore, respond);
          assert trace == before + Round(recordId, recordData, failCountBefore);
          continue;
        } else {
          currentStatus := PermanentlyFailed;
          ResumeSettles(whole, before, recordId, recordData, failCountBefore, postBefore, respond);
          break;
        }
      }
      var apiResult := ReturnedResult(outcome);
      if apiResult.isSuccess {
        currentStatus := Processed;
        currentFailCount := 0;
        ResumeSettles(whole, before, recordId, recordData, failCountBefore, postBefore, respond);
        break;
      } else if apiResult.statusCode == UnprocessableEntity {
        currentStatus := Invalid;
        currentFailCount := 0;
        ResumeSettles(whole, before, recordId, recordData, failCountBefore, postBefore, respond);
        break;
      }
    }

    assert whole == LoopEnd(currentFailCount, currentStatus, trace);
    trace := trace + [Persist(RecordToProcess(recordId, recordData, currentFailCount, currentStatus))];
    output := WorkflowOutput(recordId, currentStatus);
  }

  /** The events of one exhausted post that leaves room for another: post, persist of the raised count, timer. */
  function Round(id: string, data: string, failCount: int): seq<Event> {
    [Attempt(RecordToProcess(id, data, failCount, Created)),
     Persist(RecordToProcess(id, data, failCount + 1, Created)),
     Timer(RetryDelay(failCount + 1))]
  }

  /** One step of the loop that retries. */
  lemma LoopRetries(id: string, data: string, failCount: int, k: nat, respond: nat -> PostOutcome)
    requires failCount + 1 <= MaxFailCount && respond(k).Exhausted?
    ensures Loop(id, data, failCount, k, respond) == Resume(Round(id, data, failCount), Loop(id, data, failCount + 1, k + 1, respond))
  {
  }

  /** One step of the loop that settles the record. */
  lemma LoopSettles(id: string, data: string, failCount: int, k: nat, respond: nat -> PostOutcome)
    requires failCount <= MaxFailCount && !(respond(k).Exhausted? && failCount + 1 <= MaxFailCount)
    ensures Loop(id, data, failCount, k, respond) ==
      LoopEnd(if respond(k).Exhausted? then failCount + 1 else 0, SettledBy(respond(k)),
              [Attempt(RecordToProcess(id, data, failCount, Created))])
  {
  }

  /** The loop state after a retry round, for the method's loop invariant. */
  lemma ResumeRetries(whole: LoopEnd, done: seq<Event>, id: string, data: string, failCount: int, k: nat, respond: nat -> PostOutcome)
    requires whole == Resume(done, Loop(id, data, failCount, k, respond))
    requires failCount + 1 <= MaxFailCount && respond(k).Exhausted?
    ensures whole == Resume(done + Round(id, data, failCount), Loop(id, data, failCount + 1, k + 1, respond))
  {
    LoopRetries(id, data, failCount, k, respond);
    AppendAssoc(done, Round(id, data, failCount), Loop(id, data, failCount + 1, k + 1, respond).trace);
  }

  /** The loop state after the post that settles the record: the loop is over. */
  lemma ResumeSettles(whole: LoopEnd, done: seq<Event>, id: string, data: string, failCount: int, k: nat, respond: nat -> PostOutcome)
    requires whole == Resume(done, Loop(id, data, failCount, k, respond))
    requires failCount <= MaxFailCount && !(respond(k).Exhausted? && failCount + 1 <= MaxFailCount)
    ensures whole == LoopEnd(if respond(k).Exhausted? then failCount + 1 else 0, SettledBy(respond(k)),
                             done + [Attempt(RecordToProcess(id, data, failCount, Created))])
  {
    LoopSettles(id, data, failCount, k, respond);
  }

  /** The events of one retry round, selected by kind. */
  lemma SelectRound(id: string, data: string, failCount: int)
    ensures Select(Round(id, data, failCount), AttemptEvent) == [Attempt(RecordToProcess(id, data, failCount, Created))]
    ensures Select(Round(id, data, failCount), PersistEvent) == [Persist(RecordToProcess(id, data, failCount + 1, Created))]
    ensures Select(Round(id, data, failCount), TimerEvent) == [Timer(RetryDelay(failCount + 1))]
  {
    var a, p, t := Round(id, data, failCount)[0], Round(id, data, failCount)[1], Round(id, data, failCount)[2];
    assert [a] + [p, t] == Round(id, data, failCount);
    assert [p] + [t] == [p, t];
    SelectCons(a, [p, t], AttemptEvent); SelectCons(p, [t], AttemptEvent); SelectSingle(t, AttemptEvent);
    SelectCons(a, [p, t], PersistEvent); SelectCons(p, [t], PersistEvent); SelectSingle(t, PersistEvent);
    SelectCons(a, [p, t], TimerEvent); SelectCons(p, [t], TimerEvent); SelectSingle(t, TimerEvent);
  }

  /** A retry round followed by the rest of the loop, selected by kind. */
  lemma SelectResume(id: string, data: string, failCount: int, rest: seq<Event>)
    ensures Select(Round(id, data, failCount) + rest, AttemptEvent) ==
      [Attempt(RecordToProcess(id, data, failCount, Created))] + Select(rest, AttemptEvent)
    ensures Select(Round(id, data, failCount) + rest, PersistEvent) ==
      [Persist(RecordToProcess(id, data, failCount + 1, Created))] + Select(rest, PersistEvent)
    ensures Select(Round(id, data, failCount) + rest, TimerEvent) ==
      [Timer(RetryDelay(failCount + 1))] + Select(rest, TimerEvent)
  {
    SelectRound(id, data, failCount);
    SelectAppend(Round(id, data, failCount), rest, AttemptEvent);
    SelectAppend(Round(id, data, failCount), rest, PersistEvent);
    SelectAppend(Round(id, data, failCount), rest, TimerEvent);
  }

  /** The posts in a trace send fail counts failCount, failCount + 1, ... with status Created. */
  predicate AttemptsFrom(t: seq<Event>, id: string, data: string, failCount: int) {
    forall j :: 0 <= j < |Select(t, AttemptEvent)| ==>
      Select(t, AttemptEvent)[j] == Attempt(RecordToProcess(id, data, failCount + j, Created))
  }

  /** The timers in a trace wait the delays for fail counts failCount + 1, failCount + 2, ... */
  predicate TimersFrom(t: seq<Event>, failCount: int) {
    forall j :: 0 <= j < |Select(t, TimerEvent)| ==> Select(t, TimerEvent)[j] == Timer(RetryDelay(failCount + j + 1))
  }

  /** The persists in a trace write fail counts failCount + 1, failCount + 2, ... with status Created. */
  predicate PersistsFrom(t: seq<Event>, id: string, data: string, failCount: int) {
    forall j :: 0 <= j < |Select(t, PersistEvent)| ==>
      Select(t, PersistEvent)[j] == Persist(RecordToProcess(id, data, failCount + j + 1, Created))
  }

  /** A retry round in front of a trace whose posts continue from the raised fail count. */
  lemma RoundThenRestAttempts(id: string, data: string, failCount: int, rest: seq<Event>)
    requires AttemptsFrom(rest, id, data, failCount + 1)
    ensures AttemptsFrom(Round(id, data, failCount) + rest, id, data, failCount)
    ensures |Select(Round(id, data, failCount) + rest, AttemptEvent)| == 1 + |Select(rest, AttemptEvent)|
  {
    var s, r := Select(Round(id, data, failCount) + rest, AttemptEvent), Select(rest, AttemptEvent);
    SelectResume(id, data, failCount, rest);
    assert s == [Attempt(RecordToProcess(id, data, failCount, Created))] + r;
    forall j | 1 <= j < |s|
      ensures s[j] == Attempt(RecordToProcess(id, data, failCount + j, Created))
    {
      assert s[j] == r[j - 1];
    }
  }

  /** A retry round in front of a trace whose timers continue from the raised fail count. */
  lemma RoundThenRestTimers(id: string, data: string, failCount: int, rest: seq<Event>)
    requires TimersFrom(rest, failCount + 1)
    ensures TimersFrom(Round(id, data, failCount) + rest, failCount)
    ensures |Select(Round(id, data, failCount) + rest, TimerEvent)| == 1 + |Select(rest, TimerEvent)|
  {
    var s, r := Select(Round(id, data, failCount) + rest, TimerEvent), Select(rest, TimerEvent);
    SelectResume(id, data, failCount, rest);
    assert s == [Timer(RetryDelay(failCount + 1))] + r;
    forall j | 1 <= j < |s|
      ensures s[j] == Timer(RetryDelay(failCount + j + 1))
    {
      assert s[j] == r[j - 1];
    }
  }

  /** A retry round in front of a trace whose persists continue from the raised fail count. */
  lemma RoundThenRestPersists(id: string, data: string, failCount: int, rest: seq<Event>)
    requires PersistsFrom(rest, id, data, failCount + 1)
    ensures PersistsFrom(Round(id, data, failCount) + rest, id, data, failCount)
    ensures |Select(Round(id, data, failCount) + rest, PersistEvent)| == 1 + |Select(rest, PersistEvent)|
  {
    var s, r := Select(Round(id, data, failCount) + rest, PersistEvent), Select(rest, PersistEvent);
    SelectResume(id, data, failCount, rest);
    assert s == [Persist(RecordToProcess(id, data, failCount + 1, Created))] + r;
    forall j | 1 <= j < |s|
      ensures s[j] == Persist(RecordToProcess(id, data, failCount + j + 1, Created))
    {
      assert s[j] == r[j - 1];
    }
  }

  /** The single post of a round that settles the record. */
  lemma SettlingPost(id: string, data: string, failCount: int)
    ensures Select([Attempt(RecordToProcess(id, data, failCount, Created))], AttemptEvent) ==
      [Attempt(RecordToProcess(id, data, failCount, Created))]
    ensures Select([Attempt(RecordToProcess(id, data, failCount, Created))], TimerEvent) == []
    ensures Select([Attempt(RecordToProcess(id, data, failCount, Created))], PersistEvent) == []
  {
    var attempt := Attempt(RecordToProcess(id, data, failCount, Created));
    SelectSingle(attempt, AttemptEvent);
    SelectSingle(attempt, TimerEvent);
    SelectSingle(attempt, PersistEvent);
  }

  /**
   * The retry effects of the loop: posts of failCount, failCount + 1, ...
   * with status Created, at most one per remaining fail count and none past
   * the limit; one timer and one persist per retry, the j-th waiting the
   * staged delay for, and persisting, fail count failCount + j + 1.
   */
  lemma {:induction false} LoopRetryEffects(id: string, data: string, failCount: int, k: nat, respond: nat -> PostOutcome)
    ensures failCount > MaxFailCount <==> Select(Loop(id, data, failCount, k, respond).trace, AttemptEvent) == []
    ensures failCount <= MaxFailCount ==>
      |Select(Loop(id, data, failCount, k, respond).trace, AttemptEvent)| <= MaxFailCount + 1 - failCount
    ensures |Select(Loop(id, data, failCount, k, respond).trace, TimerEvent)| ==
      if failCount > MaxFailCount then 0 else |Select(Loop(id, data, failCount, k, respond).trace, AttemptEvent)| - 1
    ensures |Select(Loop(id, data, failCount, k, respond).trace, PersistEvent)| ==
      |Select(Loop(id, data, failCount, k, respond).trace, TimerEvent)|
    ensures AttemptsFrom(Loop(id, data, failCount, k, respond).trace, id, data, failCount)
    ensures TimersFrom(Loop(id, data, failCount, k, respond).trace, failCount)
    ensures PersistsFrom(Loop(id, data, failCount, k, respond).trace, id, data, failCount)
    decreases MaxFailCount + 1 - failCount
  {
    if failCount > MaxFailCount {
      assert Loop(id, data, failCount, k, respond).trace == [];
    } else if respond(k).Exhausted? && failCount + 1 <= MaxFailCount {
      var rest := Loop(id, data, failCount + 1, k + 1, respond).trace;
      LoopRetries(id, data, failCount, k, respond);
      assert Loop(id, data, failCount, k, respond).trace == Round(id, data, failCount) + rest;
      LoopRetryEffects(id, data, failCount + 1, k + 1, respond);
      RoundThenRestAttempts(id, data, failCount, rest);
      RoundThenRestTimers(id, data, failCount, rest);
      RoundThenRestPersists(id, data, failCount, rest);
    } else {
      LoopSettles(id, data, failCount, k, respond);
      assert Loop(id, data, failCount, k, respond).trace == [Attempt(RecordToProcess(id, data, failCount, Created))];
      SettlingPost(id, data, failCount);
    }
  }

  /**
   * How a loop run of the given entry decided: every post but the last was
   * exhausted, the last one settles the status, and a record that runs out
   * of posts ends PermanentlyFailed with the fail count one past the limit;
   * Processed and Invalid reset the fail count to 0.
   */
  predicate Decided(e: LoopEnd, failCount: int, k: nat, respond: nat -> PostOutcome) {
    && |Select(e.trace, AttemptEvent)| >= 1
    && (forall m :: k <= m < k + |Select(e.trace, AttemptEvent)| - 1 ==> respond(m) == Exhausted)
    && e.status == SettledBy(respond(k + |Select(e.trace, AttemptEvent)| - 1))
    && (e.status == PermanentlyFailed ==> |Select(e.trace, AttemptEvent)| == MaxFailCount + 1 - failCount)
    && e.failCount == (if e.status == PermanentlyFailed then MaxFailCount + 1 else 0)
  }

  /** An exhausted post in front of a run that decided from the raised fail count and the next post. */
  lemma DecidedAfterRound(id: string, data: string, failCount: int, k: nat, respond: nat -> PostOutcome, next: LoopEnd)
    requires respond(k).Exhausted?
    requires Decided(next, failCount + 1, k + 1, respond)
    ensures Decided(Resume(Round(id, data, failCount), next), failCount, k, respond)
  {
    var e := Resume(Round(id, data, failCount), next);
    SelectResume(id, data, failCount, next.trace);
    var n, restN := |Select(e.trace, AttemptEvent)|, |Select(next.trace, AttemptEvent)|;
    assert n == restN + 1;
    forall m | k <= m < k + n - 1
      ensures respond(m) == Exhausted
    {
      if m > k {
        assert k + 1 <= m < (k + 1) + restN - 1;
      }
    }
  }

  /** Every loop entered within the limit decides as Decided says. */
  lemma {:induction false} LoopDecision(id: string, data: string, failCount: int, k: nat, respond: nat -> PostOutcome)
    requires failCount <= MaxFailCount
    ensures Decided(Loop(id, data, failCount, k, respond), failCount, k, respond)
    decreases MaxFailCount + 1 - failCount
  {
    if respond(k).Exhausted? && failCount + 1 <= MaxFailCount {
      LoopRetries(id, data, failCount, k, respond);
      LoopDecision(id, data, failCount + 1, k + 1, respond);
      DecidedAfterRound(id, data, failCount, k, respond, Loop(id, data, failCount + 1, k + 1, respond));
    } else {
      LoopSettles(id, data, failCount, k, respond);
      SettlingPost(id, data, failCount);
    }
  }

  /** A loop entered within the limit starts with a post of the current fail count. */
  lemma LoopStartsWithAttempt(id: string, data: string, failCount: int, k: nat, respond: nat -> PostOutcome)
    requires failCount <= MaxFailCount
    ensures var t := Loop(id, data, failCount, k, respond).trace;
      |t| > 0 && t[0] == Attempt(RecordToProcess(id, data, failCount, Created))
  {
  }

  /**
   * Event i of the trace, if it is a timer, sits right after the persist of
   * a raised fail count above `floor` and at most MaxFailCount, waits the
   * delay for that count, and sits right before the next post of that count.
   */
  predicate TimerFramed(t: seq<Event>, i: int, id: string, data: string, floor: int)
    requires 0 <= i < |t|
  {
    t[i].Timer? ==>
      && 1 <= i < |t| - 1
      && t[i - 1].Persist? && t[i + 1].Attempt?
      && t[i - 1].record == t[i + 1].record
      && t[i - 1].record == RecordToProcess(id, data, t[i - 1].record.failCount, Created)
      && floor < t[i - 1].record.failCount <= MaxFailCount
      && t[i].minutes == RetryDelay(t[i - 1].record.failCount)
  }

  /**
   * The order of the retry effects: persist of the raised fail count, then
   * the timer for it, then the next post.
   */
  lemma {:induction false} LoopTimersFramed(id: string, data: string, failCount: int, k: nat, respond: nat -> PostOutcome)
    ensures forall i :: 0 <= i < |Loop(id, data, failCount, k, respond).trace| ==>
      TimerFramed(Loop(id, data, failCount, k, respond).trace, i, id, data, failCount)
    decreases MaxFailCount + 1 - failCount
  {
    var t := Loop(id, data, failCount, k, respond).trace;
    if failCount > MaxFailCount {
      assert t == [];
    } else if respond(k).Exhausted? && failCount + 1 <= MaxFailCount {
      var rest := Loop(id, data, failCount + 1, k + 1, respond).trace;
      LoopRetries(id, data, failCount, k, respond);
      assert t == Round(id, data, failCount) + rest;
      LoopTimersFramed(id, data, failCount + 1, k + 1, respond);
      LoopStartsWithAttempt(id, data, failCount + 1, k + 1, respond);
      forall i | 0 <= i < |t|
        ensures TimerFramed(t, i, id, data, failCount)
      {
        if i >= 3 {
          assert TimerFramed(rest, i - 3, id, data, failCount + 1);
          if t[i].Timer? {
            assert t[i] == rest[i - 3];
            assert 1 <= i - 3 < |rest| - 1;
            assert t[i - 1] == rest[i - 4] && t[i + 1] == rest[i - 2];
          }
        }
      }
    } else {
      LoopSettles(id, data, failCount, k, respond);
    }
  }

  /** A record whose fail count is already past the limit is not posted: it is persisted and returned as Created. */
  lemma ExhaustedAtEntry(input: WorkflowInput, respond: nat -> PostOutcome)
    requires input.currentFailCount > MaxFailCount
    ensures WithLoop(input, respond) ==
      Run(WorkflowOutput(input.recordId, Created),
          [Persist(RecordToProcess(input.recordId, input.recordData, input.currentFailCount, Created))])
  {
  }

  /**
   * A record entering within the limit: between 1 and MaxFailCount + 1 - f
   * posts, the j-th sending fail count f + j with status Created; all posts
   * but the last were exhausted; the last settles the final status, which is
   * never Created; the final persist writes that status with fail count 0,
   * or MaxFailCount + 1 for PermanentlyFailed, which only a record that used
   * up all its posts reaches.
   */
  lemma WithLoopOutcome(input: WorkflowInput, respond: nat -> PostOutcome)
    requires input.currentFailCount <= MaxFailCount
    ensures var r := WithLoop(input, respond);
      var f := input.currentFailCount;
      var attempts := Select(r.trace, AttemptEvent);
      var n := |attempts|;
      && 1 <= n <= MaxFailCount + 1 - f
      && (forall j :: 0 <= j < n ==> attempts[j] == Attempt(RecordToProcess(input.recordId, input.recordData, f + j, Created)))
      && (forall m :: 0 <= m < n - 1 ==> respond(m) == Exhausted)
      && r.output.finalStatus == SettledBy(respond(n - 1))
      && r.output.finalStatus != Created
      && (r.output.finalStatus == PermanentlyFailed ==> n == MaxFailCount + 1 - f)
      && r.trace[|r.trace| - 1] == Persist(RecordToProcess(input.recordId, input.recordData,
           if r.output.finalStatus == PermanentlyFailed then MaxFailCount + 1 else 0, r.output.finalStatus))
  {
    var e := Loop(input.recordId, input.recordData, input.currentFailCount, 0, respond);
    var last := Persist(RecordToProcess(input.recordId, input.recordData, e.failCount, e.status));
    SelectAppend(e.trace, [last], AttemptEvent);
    SelectSingle(last, AttemptEvent);
    LoopRetryEffects(input.recordId, input.recordData, input.currentFailCount, 0, respond);
    LoopDecision(input.recordId, input.recordData, input.currentFailCount, 0, respond);
  }

  /**
   * The retries of a run: one timer per retry, waiting 10, 20 and 30
   * minutes for raised fail counts 1, 2 and 3 (5 for any other count, which
   * only a negative initial count reaches); each timer is preceded by a
   * persist of the raised count with status Created, and the final persist
   * comes last.
   */
  lemma WithLoopBackoff(input: WorkflowInput, respond: nat -> PostOutcome)
    ensures var r := WithLoop(input, respond);
      var f := input.currentFailCount;
      var n := |Select(r.trace, AttemptEvent)|;
      var timers := Select(r.trace, TimerEvent);
      var persists := Select(r.trace, PersistEvent);
      && |timers| == (if n == 0 then 0 else n - 1)
      && (forall j :: 0 <= j < |timers| ==> timers[j] == Timer(RetryDelay(f + j + 1)))
      && (0 <= f ==> forall j :: 0 <= j < |timers| ==> timers[j].minutes == 10 * (f + j + 1))
      && |persists| == |timers| + 1
      && (forall j :: 0 <= j < |timers| ==>
            persists[j] == Persist(RecordToProcess(input.recordId, input.recordData, f + j + 1, Created)))
      && persists[|timers|] == r.trace[|r.trace| - 1]
  {
    var e := Loop(input.recordId, input.recordData, input.currentFailCount, 0, respond);
    var last := Persist(RecordToProcess(input.recordId, input.recordData, e.failCount, e.status));
    SelectAppend(e.trace, [last], AttemptEvent);
    SelectAppend(e.trace, [last], TimerEvent);
    SelectAppend(e.trace, [last], PersistEvent);
    SelectSingle(last, AttemptEvent);
    SelectSingle(last, TimerEvent);
    SelectSingle(last, PersistEvent);
    LoopRetryEffects(input.recordId, input.recordData, input.currentFailCount, 0, respond);
  }

  /** Appending an event that is not a timer keeps every timer framed. */
  lemma FramedExtends(t: seq<Event>, x: Event, id: string, data: string, floor: int)
    requires !x.Timer?
    requires forall i :: 0 <= i < |t| ==> TimerFramed(t, i, id, data, floor)
    ensures forall i :: 0 <= i < |t + [x]| ==> TimerFramed(t + [x], i, id, data, floor)
  {
    forall i | 0 <= i < |t + [x]|
      ensures TimerFramed(t + [x], i, id, data, floor)
    {
      if i < |t| {
        assert TimerFramed(t, i, id, data, floor);
      }
    }
  }

  /** In the whole run, every timer sits between the persist of the raised fail count and the next post. */
  lemma WithLoopOrdering(input: WorkflowInput, respond: nat -> PostOutcome)
    ensures var t := WithLoop(input, respond).trace;
      forall i :: 0 <= i < |t| ==> TimerFramed(t, i, input.recordId, input.recordData, input.currentFailCount)
  {
    LoopTimersFramed(input.recordId, input.recordData, input.currentFailCount, 0, respond);
    FramedExtends(Loop(input.recordId, input.recordData, input.currentFailCount, 0, respond).trace,
                  WithLoop(input, respond).trace[|WithLoop(input, respond).trace| - 1],
                  input.recordId, input.recordData, input.currentFailCount);
  }

  /**
   * A record that is exhausted on its first `failures` posts and then
   * succeeds, with room for those failures, is posted failures + 1 times,
   * waits 10, 20, ... minutes between posts, and ends Processed with fail
   * count 0.
   */
  lemma RetriesThenProcessed(input: WorkflowInput, respond: nat -> PostOutcome, failures: nat)
    requires 0 <= input.currentFailCount && input.currentFailCount + failures <= MaxFailCount
    requires forall m :: 0 <= m < failures ==> respond(m) == Exhausted
    requires respond(failures).Succeeded?
    ensures var r := WithLoop(input, respond);
      var timers := Select(r.trace, TimerEvent);
      && r.output.finalStatus == Processed
      && |Select(r.trace, AttemptEvent)| == failures + 1
      && |timers| == failures
      && (forall j :: 0 <= j < failures ==> timers[j] == Timer(10 * (input.currentFailCount + j + 1)))
      && r.trace[|r.trace| - 1] == Persist(RecordToProcess(input.recordId, input.recordData, 0, Processed))
  {
    WithLoopOutcome(input, respond);
    WithLoopBackoff(input, respond);
  }

  /**
   * A record that is exhausted on every post ends PermanentlyFailed with
   * fail count MaxFailCount + 1 after MaxFailCount + 1 - f posts and one
   * wait fewer: no timer follows the last failure.
   */
  lemma AlwaysExhaustedFails(input: WorkflowInput, respond: nat -> PostOutcome)
    requires input.currentFailCount <= MaxFailCount
    requires forall m :: respond(m) == Exhausted
    ensures var r := WithLoop(input, respond);
      && r.output.finalStatus == PermanentlyFailed
      && |Select(r.trace, AttemptEvent)| == MaxFailCount + 1 - input.currentFailCount
      && |Select(r.trace, TimerEvent)| == MaxFailCount - input.currentFailCount
      && r.trace[|r.trace| - 1] ==
           Persist(RecordToProcess(input.recordId, input.recordData, MaxFailCount + 1, PermanentlyFailed))
  {
    WithLoopOutcome(input, respond);
    WithLoopBackoff(input, respond);
  }

  /**
   * A first post that returns settles the record at once: one post, no
   * retry, no timer, and one persist of fail count 0 with Processed for a
   * success or Invalid for a 422.
   */
  lemma SettledOnFirstPost(input: WorkflowInput, respond: nat -> PostOutcome)
    requires input.currentFailCount <= MaxFailCount
    requires !respond(0).Exhausted?
    ensures var r := WithLoop(input, respond);
      && r.output.finalStatus == (if respond(0).Succeeded? then Processed else Invalid)
      && r.trace == [Attempt(RecordToProcess(input.recordId, input.recordData, input.currentFailCount, Created)),
                     Persist(RecordToProcess(input.recordId, input.recordData, 0, r.output.finalStatus))]
  {
  }

  /**
   * Record rec_1 with data data1 and fail count 0, exhausted twice and then
   * posted successfully: it waits 10 and then 20 minutes and ends Processed.
   */
  lemma TwoFailuresThenSuccess()
    ensures var id, data := "rec_1", "data1";
      WithLoop(WorkflowInput(id, data, 0), n => if n < 2 then Exhausted else Succeeded(200)) ==
      Run(WorkflowOutput(id, Processed),
          [Attempt(RecordToProcess(id, data, 0, Created)),
           Persist(RecordToProcess(id, data, 1, Created)), Timer(10),
           Attempt(RecordToProcess(id, data, 1, Created)),
           Persist(RecordToProcess(id, data, 2, Created)), Timer(20),
           Attempt(RecordToProcess(id, data, 2, Created)),
           Persist(RecordToProcess(id, data, 0, Processed))])
  {
  }
}
