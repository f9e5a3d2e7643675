/**
 * The batch workflow: fetch the records to process, start one looping
 * single-record workflow per record under an instance id derived from the
 * batch's own id, wait for all of them, and report success. The children
 * run one after another here; the C# workflow runs them concurrently and waits
 * for all.
 */
module ProcessRecords {
  import opened Models
  import SingleRecordLoop

  /** The outcome of fetching the records for one batch. */
  datatype FetchResult = Fetched(records: seq<RecordToProcess>) | FetchFailed(message: string)

  /** A child workflow started by the batch: its instance id and its input. */
  datatype ChildStart = ChildStart(instanceId: string, input: WorkflowInput)

  /** The instance id of the child workflow for one record: batch id, a dash, record id. */
  function ChildInstanceId(batchInstanceId: string, recordId: string): string {
    batchInstanceId + "-" + recordId
  }

  /** The child input taken from a record: its id, data and fail count; its status is not passed. */
  function ChildInput(record: RecordToProcess): (input: WorkflowInput)
    ensures input.recordId == record.id
    ensures input.recordData == record.data
    ensures input.currentFailCount == record.failCount
  {
    WorkflowInput(record.id, record.data, record.failCount)
  }

  /** The children the batch starts for a list of records, in list order. */
  function ChildStarts(batchInstanceId: string, records: seq<RecordToProcess>): (starts: seq<ChildStart>)
    ensures |starts| == |records|
    ensures forall i :: 0 <= i < |starts| ==> starts[i].input == ChildInput(records[i])
    ensures forall i :: 0 <= i < |starts| ==> starts[i].instanceId == ChildInstanceId(batchInstanceId, records[i].id)
  {
    seq(|records|, i requires 0 <= i < |records| =>
      ChildStart(ChildInstanceId(batchInstanceId, records[i].id), ChildInput(records[i])))
  }

  /** Within one batch, child instance ids tell records apart: they are equal exactly when the record ids are. */
  lemma ChildInstanceIdInjective(batchInstanceId: string, recordId1: string, recordId2: string)
    ensures ChildInstanceId(batchInstanceId, recordId1) == ChildInstanceId(batchInstanceId, recordId2)
      <==> recordId1 == recordId2
  {
    var n := |batchInstanceId| + 1;
    if ChildInstanceId(batchInstanceId, recordId1) == ChildInstanceId(batchInstanceId, recordId2) {
      assert recordId1 == ChildInstanceId(batchInstanceId, recordId1)[n..];
      assert recordId2 == ChildInstanceId(batchInstanceId, recordId2)[n..];
    }
  }

  /** Across batches the ids can collide: the dash is not escaped. */
  lemma ChildInstanceIdsCollideAcrossBatches()
    ensures ChildInstanceId("a-b", "c") == ChildInstanceId("a", "b-c")
  {
  }

  /**
   * Records with distinct ids get children with distinct instance ids, so
   * no two records of one batch share a child; and the ids depend only on
   * the batch id and the records, so a rerun of the batch derives the same ids.
   */
  lemma DistinctChildIds(batchInstanceId: string, records: seq<RecordToProcess>)
    requires forall i, j :: 0 <= i < j < |records| ==> records[i].id != records[j].id
    ensures var starts := ChildStarts(batchInstanceId, records);
      forall i, j :: 0 <= i < j < |starts| ==> starts[i].instanceId != starts[j].instanceId
  {
    var starts := ChildStarts(batchInstanceId, records);
    forall i, j | 0 <= i < j < |starts|
      ensures starts[i].instanceId != starts[j].instanceId
    {
      ChildInstanceIdInjective(batchInstanceId, records[i].id, records[j].id);
    }
  }

  /** The batch workflow. `respondFor(c)` scripts the downstream API for child instance c. */
  method RunBatch(batchInstanceId: string, fetched: FetchResult, respondFor: string -> nat -> PostOutcome)
    returns (ok: bool, started: seq<ChildStart>, results: seq<WorkflowOutput>)
    ensures ok <==> fetched.Fetched?
    ensures fetched.FetchFailed? ==> started == [] && results == []
    ensures fetched.Fetched? ==> started == ChildStarts(batchInstanceId, fetched.records)
    ensures |results| == |started|
    ensures forall i :: 0 <= i < |results| ==>
      results[i] == SingleRecordLoop.WithLoop(started[i].input, respondFor(started[i].instanceId)).output
    ensures fetched.Fetched? ==> forall i :: 0 <= i < |results| ==> results[i].recordId == fetched.records[i].id
  {
    var records: seq<RecordToProcess>;
    match fetched {
      case FetchFailed(_) =>
        return false, [], [];
      case Fetched(rs) =>
        records := rs;
    }

    if |records| == 0 {
      return true, [], [];
    }

    // fan out: one child per record, in list order
    started := [];
    for i := 0 to |records|
      invariant started == ChildStarts(batchInstanceId, records[..i])
    {
      var childInstanceId := ChildInstanceId(batchInstanceId, records[i].id);
      started := started + [ChildStart(childInstanceId, ChildInput(records[i]))];
    }
    assert records[..|records|] == records;

    // fan in: wait for every child's output
    results := [];
    for i := 0 to |started|
      invariant |results| == i
      invariant forall j :: 0 <= j < i ==>
        results[j] == SingleRecordLoop.WithLoop(started[j].input, respondFor(started[j].instanceId)).output
    {
      var output, childTrace := SingleRecordLoop.RunWithLoop(started[i].input, respondFor(started[i].instanceId));
      results := results + [output];
    }
    ok := true;
  }

  /** The decimal digits of a natural number, as string interpolation writes it. */
  function Decimal(n: nat): (s: string)
    ensures |s| >= 1
    ensures forall i :: 0 <= i < |s| ==> '0' <= s[i] <= '9'
  {
    if n < 10 then [Digit(n)] else Decimal(n / 10) + [Digit(n % 10)]
  }

  function Digit(d: nat): (c: char)
    requires d < 10
    ensures '0' <= c <= '9'
  {
    ('0' as int + d) as char
  }

  /** Different numbers are written differently. */
  lemma {:induction false} DecimalInjective(a: nat, b: nat)
    ensures Decimal(a) == Decimal(b) ==> a == b
    decreases a
  {
    if Decimal(a) == Decimal(b) {
      if a >= 10 && b >= 10 {
        var sa, sb := Decimal(a), Decimal(b);
        assert sa[..|sa| - 1] == Decimal(a / 10);
        assert sb[..|sb| - 1] == Decimal(b / 10);
        assert Digit(a % 10) == sa[|sa| - 1] == sb[|sb| - 1] == Digit(b % 10);
        DecimalInjective(a / 10, b / 10);
      }
    }
  }

  /** The records the batch fetch simulates: rec_1 to rec_10 with data data1 to data10, fresh. */
  function SimulatedFetch(): (records: seq<RecordToProcess>)
    ensures |records| == 10
    ensures forall i :: 0 <= i < |records| ==> records[i].failCount == 0 && records[i].status == Created
  {
    seq(10, i requires 0 <= i < 10 => NewRecord("rec_" + Decimal(i + 1), "data" + Decimal(i + 1)))
  }

  /** The simulated records start at rec_1/data1, end at rec_10/data10, and have distinct ids. */
  lemma SimulatedFetchRecords()
    ensures SimulatedFetch()[0].id == "rec_1" && SimulatedFetch()[0].data == "data1"
    ensures SimulatedFetch()[9].id == "rec_10" && SimulatedFetch()[9].data == "data10"
    ensures forall i, j :: 0 <= i < j < 10 ==> SimulatedFetch()[i].id != SimulatedFetch()[j].id
  {
    var records := SimulatedFetch();
    assert Decimal(10) == Decimal(1) + [Digit(0)];
    forall i, j | 0 <= i < j < 10
      ensures records[i].id != records[j].id
    {
      assert records[i].id[4..] == Decimal(i + 1);
      assert records[j].id[4..] == Decimal(j + 1);
      DecimalInjective(i + 1, j + 1);
    }
  }

  /**
   * The batch as the C# workflow runs it, on the simulated fetch: it succeeds,
   * starts ten children with distinct instance ids, and collects ten results.
   */
  method RunSimulatedBatch(batchInstanceId: string, respondFor: string -> nat -> PostOutcome)
    returns (ok: bool, started: seq<ChildStart>, results: seq<WorkflowOutput>)
    ensures ok
    ensures |started| == 10 && |results| == 10
    ensures forall i, j :: 0 <= i < j < |started| ==> started[i].instanceId != started[j].instanceId
    ensures forall i :: 0 <= i < |results| ==> results[i].recordId == SimulatedFetch()[i].id
  {
    SimulatedFetchRecords();
    DistinctChildIds(batchInstanceId, SimulatedFetch());
    ok, started, results := RunBatch(batchInstanceId, Fetched(SimulatedFetch()), respondFor);
  }
}
