/** The decisions of `get_api_answer` and `check_response`: what the bot asks
    the homework-status API for, and how it accepts or rejects the reply. */
module Api {
  import opened Wrappers
  import opened Errors

  /** One homework record; a key the API left out is `None`. */
  datatype Homework = Homework(name: Option<string>, status: Option<string>)

  /** The value found under `homeworks`: a list of records or anything else. */
  datatype HomeworksValue = HomeworkList(items: seq<Homework>) | OtherValue

  /** The decoded JSON object of a reply; a key it lacks is `None`. */
  datatype Response = Response(homeworks: Option<HomeworksValue>, currentDate: Option<int>)

  /** The body of an HTTP reply: decoded JSON, or text that failed to decode. */
  datatype Body = Decoded(response: Response) | Undecodable(cause: string)

  /** What the network gives back for one request. */
  datatype Reply = ConnectionFailed(cause: string) | HttpReply(code: int, body: Body)

  const HttpOk := 200

  /** The `from_date` the bot sends: the watermark, or the current time when
      the watermark is 0. */
  function FromDate(watermark: int, now: int): (d: int)
    ensures watermark != 0 ==> d == watermark
    ensures watermark == 0 ==> d == now
    ensures d != 0 || now == 0
  {
    if watermark == 0 then now else watermark
  }

  /** `get_api_answer` once the request has been answered: a transport failure
      and a status other than 200 are errors, as is a body that is not JSON. */
  function GetApiAnswer(reply: Reply): (r: Result<Response, Error>)
    ensures r.Success? <==> reply.HttpReply? && reply.code == HttpOk && reply.body.Decoded?
    ensures r.Success? ==> r.value == reply.body.response
    ensures reply.ConnectionFailed? ==> r == Failure(RequestFailed(reply.cause))
    ensures reply.HttpReply? && reply.code != HttpOk ==> r == Failure(BadStatus(reply.code))
    ensures reply.HttpReply? && reply.code == HttpOk && reply.body.Undecodable? ==>
              r == Failure(NotJson(reply.body.cause))
  {
    match reply
    case ConnectionFailed(cause) => Failure(RequestFailed(cause))
    case HttpReply(code, body) =>
      if code != HttpOk then Failure(BadStatus(code))
      else match body
        case Undecodable(cause) => Failure(NotJson(cause))
        case Decoded(response) => Success(response)
  }

  /** `check_response`: both keys must be present (`homeworks` is looked up
      first) and `homeworks` must be a list, which is returned unchanged. */
  function CheckResponse(response: Response): (r: Result<seq<Homework>, Error>)
    ensures r.Success? <==>
              response.homeworks.Some? && response.currentDate.Some?
              && response.homeworks.value.HomeworkList?
    ensures r.Success? ==> r.value == response.homeworks.value.items
    ensures response.homeworks.None? ==> r == Failure(MissingResponseKey("homeworks"))
    ensures response.homeworks.Some? && response.currentDate.None? ==>
              r == Failure(MissingResponseKey("current_date"))
    ensures response.homeworks == Some(OtherValue) && response.currentDate.Some? ==>
              r == Failure(HomeworksNotList)
  {
    if response.homeworks.None? then Failure(MissingResponseKey("homeworks"))
    else if response.currentDate.None? then Failure(MissingResponseKey("current_date"))
    else match response.homeworks.value
      case OtherValue => Failure(HomeworksNotList)
      case HomeworkList(items) => Success(items)
  }
}
