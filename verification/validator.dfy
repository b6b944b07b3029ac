/** `check_response` (homework.py:72-84): confirms the decoded API answer is a
    dict holding a `homeworks` list and hands that list back. */
module Validator {
  import opened Wrappers
  import opened JsonValue
  import opened Errors

  const UnexpectedAnswerMsg: string := "Ответ API не соответствует ожиданиям"
  const MissingHomeworksMsg: string := "Отсутствует ключ homeworks"

  /** The answer has the shape the bot relies on. */
  predicate WellShaped(response: Json)
  {
    response.JObj? && "homeworks" in response.fields && response.fields["homeworks"].JArr?
  }

  /** `check_response(response)`: the three checks in source order, then the
      `homeworks` list itself. */
  function CheckResponse(response: Json): (r: Result<seq<Json>, PyError>)
    ensures r.Ok? <==> WellShaped(response)
    ensures r.Ok? ==> JArr(r.value) == response.fields["homeworks"]
    ensures !response.JObj? ==> r == Err(TypeError(UnexpectedAnswerMsg))
    ensures response.JObj? && "homeworks" !in response.fields ==> r == Err(KeyError(MissingHomeworksMsg))
    ensures response.JObj? && "homeworks" in response.fields ==>
              (!response.fields["homeworks"].JArr? ==> r == Err(TypeError(UnexpectedAnswerMsg)))
  {
    if !response.JObj? then Err(TypeError(UnexpectedAnswerMsg))
    else if "homeworks" !in response.fields then Err(KeyError(MissingHomeworksMsg))
    else match response.fields["homeworks"]
      case JArr(homeworks) => Ok(homeworks)
      case _ => Err(TypeError(UnexpectedAnswerMsg))
  }

  /** Entries other than `homeworks` never affect the outcome. */
  lemma CheckResponseReadsOneKey(a: map<string, Json>, b: map<string, Json>)
    requires ("homeworks" in a) == ("homeworks" in b)
    requires "homeworks" in a ==> a["homeworks"] == b["homeworks"]
    ensures CheckResponse(JObj(a)) == CheckResponse(JObj(b))
  {
  }

  /** Putting a list under `homeworks` and validating gives that list back. */
  lemma CheckResponseReturnsList(fields: map<string, Json>, homeworks: seq<Json>)
    ensures CheckResponse(JObj(fields["homeworks" := JArr(homeworks)])) == Ok(homeworks)
  {
  }
}
