/** The two task guardrails of the financial researcher crew
    (`financial_researcher_guard/src/financial_researcher_guard/crew.py`, lines 21-41):
    a guardrail looks at a task's output and either accepts it, passing a value on,
    or rejects it with a message. JSON decoding is an oracle. */
module Guardrails {
  import opened Wrappers
  import opened Text

  /** The part of a task output the guardrails read. */
  datatype TaskOutput = TaskOutput(raw: string)

  /** The `(bool, value)` pair a guardrail returns. */
  datatype Verdict<+T> = Accept(value: T) | Reject(reason: string)

  const MaxWords: nat := 500
  const TooLong: string := "Report exceeds 500 words"
  const InvalidJson: string := "Invalid JSON format"

  /** `json.loads`: a decoded value, or `None` where it raises `JSONDecodeError`. */
  type JsonDecoder<J> = string -> Option<J>

  /** `validate_report_content`: a report longer than 500 words (words as `split()`
      finds them) is rejected; any other report is accepted as it is. */
  function ValidateReportContent(result: TaskOutput): (v: Verdict<TaskOutput>)
    ensures v.Reject? <==> |Words(result.raw)| > MaxWords
    ensures v.Reject? ==> v.reason == TooLong
    ensures v.Accept? ==> v.value == result
  {
    if |Words(result.raw)| > MaxWords then Reject(TooLong) else Accept(result)
  }

  /** The limit is inclusive: a report of exactly 500 words, however it is spaced,
      passes, and one word more is refused. */
  lemma {:induction false} ExactlyMaxWordsPasses(ws: seq<string>, extra: string)
    requires |ws| == MaxWords
    requires forall i :: 0 <= i < |ws| ==> ws[i] != [] && NoSpace(ws[i])
    requires extra != [] && NoSpace(extra)
    ensures ValidateReportContent(TaskOutput(Join(" ", ws))).Accept?
    ensures ValidateReportContent(TaskOutput(Join(" ", ws) + " " + extra)).Reject?
  {
    WordsOfJoin(ws);
    assert forall i :: 0 <= i < |ws + [extra]| ==> (ws + [extra])[i] != [] && NoSpace((ws + [extra])[i]);
    WordsOfJoin(ws + [extra]);
    JoinSnoc(" ", ws, extra);
  }

  /** Whitespace never counts: padding a report changes nothing. */
  lemma PaddingDoesNotCount(raw: string, pad: string)
    requires IsBlank(pad)
    ensures ValidateReportContent(TaskOutput(raw + " " + pad)).Reject?
            == ValidateReportContent(TaskOutput(raw)).Reject?
  {
    WordsAroundSpace(raw, pad);
    WordsOfBlank(pad);
  }

  /** `validate_json_output`: the decoded value when the raw text decodes, and the
      invalid-JSON message otherwise. */
  function ValidateJsonOutput<J>(result: TaskOutput, decode: JsonDecoder<J>): (v: Verdict<J>)
    ensures v.Accept? <==> decode(result.raw).Some?
    ensures v.Accept? ==> v.value == decode(result.raw).value
    ensures v.Reject? ==> v.reason == InvalidJson
  {
    match decode(result.raw)
    case Some(data) => Accept(data)
    case None => Reject(InvalidJson)
  }
}
