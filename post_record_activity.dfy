/**
 * The post activity: it sends a record's data downstream and classifies the
 * HTTP response. Both pipeline variants carry the same classification; they
 * differ only in the endpoint they post to, which belongs to the transport.
 */
module PostRecordActivity {
  import opened Models

  /** The exceptions the activity lets out. */
  datatype Exception =
    | StatusCodeError(statusCode: int)   // the HttpRequestException thrown for an unclassified status
    | HttpRequestError(message: string)  // a transport failure raised by the HTTP client
    | UnexpectedError(message: string)   // any other exception

  /** What the HTTP call produced: a response, or an exception it raised. */
  datatype HttpExchange = Responded(statusCode: int, body: string) | Raised(exception: Exception)

  /** The activity either returns a result or throws. */
  datatype ActivityResult = Returned(result: PostApiResult) | Threw(exception: Exception)

  /** HttpResponseMessage.IsSuccessStatusCode: the 2xx range. */
  predicate IsSuccessStatusCode(statusCode: int) {
    200 <= statusCode <= 299
  }

  /** Classifies one HTTP exchange. */
  function Run(exchange: HttpExchange): (r: ActivityResult)
    ensures exchange.Raised? ==> r == Threw(exchange.exception)
    ensures exchange.Responded? ==>
      (r.Returned? <==> IsSuccessStatusCode(exchange.statusCode) || exchange.statusCode == UnprocessableEntity)
    ensures r.Returned? ==> r.result.statusCode == exchange.statusCode
    ensures r.Returned? ==> (r.result.isSuccess <==> IsSuccessStatusCode(exchange.statusCode))
    ensures r.Returned? && r.result.isSuccess ==> r.result.errorMessage == ""
    ensures r.Returned? && !r.result.isSuccess ==> r.result.errorMessage == exchange.body
    ensures r.Threw? && exchange.Responded? ==> r.exception == StatusCodeError(exchange.statusCode)
  {
    match exchange
    case Raised(e) => Threw(e)
    case Responded(code, body) =>
      if IsSuccessStatusCode(code) then Returned(PostApiResult(true, code, ""))
      else if code == UnprocessableEntity then Returned(PostApiResult(false, code, body))
      else Threw(StatusCodeError(code))
  }

  /**
   * Every result the activity returns is a success or a 422, and it is the
   * result a workflow sees for the matching non-exhausted PostOutcome. So the
   * three outcomes Succeeded, Rejected and Exhausted cover all a workflow can
   * receive from this activity.
   */
  lemma ReturnedIsOutcome(exchange: HttpExchange)
    requires Run(exchange).Returned?
    ensures exchange.Responded?
    ensures Run(exchange).result.isSuccess || Run(exchange).result.statusCode == UnprocessableEntity
    ensures IsSuccessStatusCode(exchange.statusCode) ==>
      Run(exchange).result == ReturnedResult(Succeeded(exchange.statusCode))
    ensures !IsSuccessStatusCode(exchange.statusCode) ==>
      Run(exchange).result == ReturnedResult(Rejected(exchange.body))
  {
  }
}
