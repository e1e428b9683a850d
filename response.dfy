/**
 * Post-processing of the bytes read back from the server
 * (doubao_api.cpp:70-88): an empty response is a timeout; otherwise the
 * header block is cut off at the first "\r\n\r\n" when that boundary sits
 * after index 0, and the rest goes to the JSON parser, which is an oracle
 * here.
 */
module Response {
  import opened Wrappers
  import opened Replies

  const HeaderEnd: string := "\r\n\r\n"

  /** What ArduinoJson makes of a body: `choices[0].message.content`, or None on a parse error. */
  type JsonOracle = string -> Option<string>

  predicate OccursAt(s: string, pat: string, i: int)
  {
    0 <= i && i + |pat| <= |s| && s[i..i + |pat|] == pat
  }

  /** The first occurrence of `pat` in `s` at or after `from`, or -1. */
  function IndexFrom(s: string, pat: string, from: nat): (r: int)
    requires from <= |s|
    ensures r == -1 || (from <= r && OccursAt(s, pat, r))
    ensures forall j :: from <= j && (r == -1 || j < r) ==> !OccursAt(s, pat, j)
    decreases |s| - from
  {
    if from + |pat| > |s| then -1
    else if s[from..from + |pat|] == pat then from
    else IndexFrom(s, pat, from + 1)
  }

  /** `String::indexOf`: the first occurrence of `pat` in `s`, or -1. */
  function IndexOf(s: string, pat: string): (r: int)
    ensures r == -1 || OccursAt(s, pat, r)
    ensures forall j :: 0 <= j && (r == -1 || j < r) ==> !OccursAt(s, pat, j)
  {
    IndexFrom(s, pat, 0)
  }

  /** The body handed to the parser: a suffix of the response. */
  function ExtractBody(response: string): (body: string)
    ensures |body| <= |response| && body == response[|response| - |body|..]
  {
    var jsonStart := IndexOf(response, HeaderEnd);
    if jsonStart > 0 then response[jsonStart + 4..] else response
  }

  /** When the first boundary is past index 0, the body is everything after it. */
  lemma BodyAfterFirstBoundary(response: string, i: int)
    requires 0 < i && OccursAt(response, HeaderEnd, i)
    requires forall j :: 0 <= j < i ==> !OccursAt(response, HeaderEnd, j)
    ensures ExtractBody(response) == response[i + 4..]
  {
  }

  /** Without a boundary, or with one at index 0, the whole response is kept as the body. */
  lemma BodyKeptWhole(response: string)
    requires (forall j :: !OccursAt(response, HeaderEnd, j)) || OccursAt(response, HeaderEnd, 0)
    ensures ExtractBody(response) == response
  {
  }

  /** The outcome of one exchange in which the connection was made and `response` was read. */
  function Interpret(response: string, parse: JsonOracle): (r: Reply)
    ensures r == TimeoutError <==> response == []
    ensures r.Answer? <==> response != [] && parse(ExtractBody(response)).Some?
    ensures r.Answer? ==> parse(ExtractBody(response)) == Some(r.text)
    ensures r.Answer? || r == JsonParseError || r == TimeoutError
  {
    if |response| > 0 then
      match parse(ExtractBody(response))
      case Some(content) => Answer(content)
      case None => JsonParseError
    else TimeoutError
  }
}
