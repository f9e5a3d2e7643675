/**
 * The value types shared by both pipeline variants: record statuses, the
 * record handed to the activities, the activity result, the workflow input
 * and output, and the event trace that the workflow models record.
 */
module Models {

  datatype Option<T> = None | Some(value: T)

  /** The fail-count limit of both single-record workflows. */
  const MaxFailCount: int := 3

  /** The HTTP status code the downstream API uses for a payload it rejects. */
  const UnprocessableEntity: int := 422

  /** The four record statuses; the C# workflows spell them as strings. */
  datatype Status = Created | PermanentlyFailed | Processed | Invalid {
    function Name(): string {
      match this
      case Created => "Created"
      case PermanentlyFailed => "PermanentlyFailed"
      case Processed => "Processed"
      case Invalid => "Invalid"
    }
  }

  /** Reads a status string back; exactly the four names are statuses. */
  function ParseStatus(s: string): (r: Option<Status>)
    ensures forall st: Status :: st.Name() == s <==> r == Some(st)
  {
    if s == "Created" then Some(Created)
    else if s == "PermanentlyFailed" then Some(PermanentlyFailed)
    else if s == "Processed" then Some(Processed)
    else if s == "Invalid" then Some(Invalid)
    else None
  }

  /** A unit of work: the record posted downstream and persisted with its status. */
  datatype RecordToProcess = RecordToProcess(id: string, data: string, failCount: int, status: Status)

  /** A record as the batch fetch builds it: fail count 0, status Created. */
  function NewRecord(id: string, data: string): (r: RecordToProcess)
    ensures r.id == id && r.data == data
    ensures r.failCount == 0 && r.status == Created
  {
    RecordToProcess(id, data, 0, Created)
  }

  /** What a post activity returns when it does not throw. */
  datatype PostApiResult = PostApiResult(isSuccess: bool, statusCode: int, errorMessage: string)

  datatype WorkflowInput = WorkflowInput(recordId: string, recordData: string, currentFailCount: int)

  datatype WorkflowOutput = WorkflowOutput(recordId: string, finalStatus: Status)

  /**
   * What one post call, inner retries included, yields to a workflow: a
   * success result with its status code, a 422 rejection with the response
   * body, or an exception after the inner retry policy gave up.
   */
  datatype PostOutcome = Succeeded(statusCode: int) | Rejected(body: string) | Exhausted

  /** The result object a workflow receives for an outcome that returned. */
  function ReturnedResult(o: PostOutcome): (r: PostApiResult)
    requires !o.Exhausted?
    ensures r.isSuccess <==> o.Succeeded?
    ensures r.isSuccess || r.statusCode == UnprocessableEntity
    ensures o.Succeeded? ==> r.statusCode == o.statusCode && r.errorMessage == ""
    ensures o.Rejected? ==> r.errorMessage == o.body
  {
    match o
    case Succeeded(code) => PostApiResult(true, code, "")
    case Rejected(body) => PostApiResult(false, UnprocessableEntity, body)
  }

  /**
   * The effects of a workflow, in order: a post attempt with the record it
   * sends, a status persist with the record it writes, a durable timer.
   */
  datatype Event = Attempt(record: RecordToProcess) | Persist(record: RecordToProcess) | Timer(minutes: int) {
    function Kind(): EventKind {
      match this
      case Attempt(_) => AttemptEvent
      case Persist(_) => PersistEvent
      case Timer(_) => TimerEvent
    }
  }

  datatype EventKind = AttemptEvent | PersistEvent | TimerEvent

  /** A workflow run: its output and the events it caused. */
  datatype Run = Run(output: WorkflowOutput, trace: seq<Event>)

  /** The events of one kind in a trace, in trace order. */
  function Select(t: seq<Event>, kind: EventKind): (r: seq<Event>)
    ensures |r| <= |t|
    ensures forall i :: 0 <= i < |r| ==> r[i].Kind() == kind
  {
    if t == [] then []
    else (if t[0].Kind() == kind then [t[0]] else []) + Select(t[1..], kind)
  }

  lemma {:induction false} SelectAppend(a: seq<Event>, b: seq<Event>, kind: EventKind)
    ensures Select(a + b, kind) == Select(a, kind) + Select(b, kind)
  {
    if a == [] {
      assert a + b == b;
    } else {
      assert (a + b)[1..] == a[1..] + b;
      SelectAppend(a[1..], b, kind);
    }
  }

  lemma AppendAssoc(a: seq<Event>, b: seq<Event>, c: seq<Event>)
    ensures a + (b + c) == (a + b) + c
  {
  }

  lemma SelectCons(e: Event, t: seq<Event>, kind: EventKind)
    ensures Select([e] + t, kind) == (if e.Kind() == kind then [e] else []) + Select(t, kind)
  {
    assert ([e] + t)[1..] == t;
  }

  lemma SelectSingle(e: Event, kind: EventKind)
    ensures Select([e], kind) == if e.Kind() == kind then [e] else []
  {
    assert [e][1..] == [];
  }
}
