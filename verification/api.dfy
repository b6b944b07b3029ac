/** The decisions inside `get_api_answer` (homework.py:49-69) that do not
    depend on the network: which `from_date` is asked for, and how the
    server's reply is turned into a decoded answer or an error. */
module Api {
  import opened Wrappers
  import opened JsonValue
  import opened Errors
  import Decimal

  /** `HTTPStatus.OK`. */
  const HttpOk: int := 200
  const StatusCodeMsgPrefix: string := "Код ответа сервера: "

  /** What came back for one request: either the request could not be
      completed, or a status code and the body, which is None when it is not
      valid JSON. */
  datatype HttpReply =
    | Unreachable
    | Reply(statusCode: int, body: Option<Json>)

  /** `current_timestamp or int(time.time())`: the cursor, unless it is 0,
      in which case the clock reading `now`. */
  function FromDate(currentTimestamp: int, now: int): (fromDate: int)
    ensures currentTimestamp != 0 ==> fromDate == currentTimestamp
    ensures currentTimestamp == 0 ==> fromDate == now
  {
    if currentTimestamp != 0 then currentTimestamp else now
  }

  /** The error raised for a reply whose status code is not 200. */
  function StatusCodeError(statusCode: int): (e: PyError)
    ensures e.HttpError?
    ensures |StatusCodeMsgPrefix| <= |e.msg| && e.msg[..|StatusCodeMsgPrefix|] == StatusCodeMsgPrefix
    ensures Decimal.ParseInt(e.msg[|StatusCodeMsgPrefix|..]) == Some(statusCode)
  {
    var digits := Decimal.IntToString(statusCode);
    var msg := StatusCodeMsgPrefix + digits;
    assert msg[|StatusCodeMsgPrefix|..] == digits;
    Decimal.IntToStringRoundTrip(statusCode);
    HttpError(msg)
  }

  /** The rest of `get_api_answer` once a reply is in: a failed request, a
      status code other than 200, and a body that is not JSON are errors in
      that order; otherwise the decoded body. */
  function GetApiAnswer(reply: HttpReply): (r: Result<Json, PyError>)
    ensures r.Ok? <==> reply.Reply? && reply.statusCode == HttpOk && reply.body.Some?
    ensures r.Ok? ==> r.value == reply.body.value
    ensures reply.Unreachable? ==> r == Err(TransportError)
    ensures reply.Reply? && reply.statusCode != HttpOk ==> r.Err? && r.error == StatusCodeError(reply.statusCode)
    ensures reply.Reply? && reply.statusCode == HttpOk && reply.body.None? ==> r == Err(DecodeError)
  {
    match reply
    case Unreachable => Err(TransportError)
    case Reply(code, body) =>
      if code != HttpOk then Err(StatusCodeError(code))
      else match body
        case None => Err(DecodeError)
        case Some(answer) => Ok(answer)
  }

  /** The error for a bad status code names that code: different codes give
      different messages, and each message contains its code's decimal text. */
  lemma StatusCodeErrorNamesCode(a: int, b: int)
    ensures StatusCodeError(a).msg == StatusCodeMsgPrefix + Decimal.IntToString(a)
    ensures StatusCodeError(a) == StatusCodeError(b) <==> a == b
  {
    var ma, mb := StatusCodeError(a).msg, StatusCodeError(b).msg;
    if ma == mb {
      assert ma[|StatusCodeMsgPrefix|..] == Decimal.IntToString(a);
      assert mb[|StatusCodeMsgPrefix|..] == Decimal.IntToString(b);
      Decimal.IntToStringInjective(a, b);
    }
  }
}
