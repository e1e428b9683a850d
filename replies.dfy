/**
 * What a request returns. The source hands every result back as a String
 * and signals failures with six sentinel strings (doubao_api.cpp:5-10);
 * the model tags them, and `Text` maps a tagged reply back to the string
 * the source returns.
 */
module Replies {

  const NetworkErrorText: string := "<network_error>"
  const CameraErrorText: string := "<camera_error>"
  const ImageTooLargeText: string := "<image_too_large>"
  const InvalidInputText: string := "<invalid_input>"
  const JsonParseErrorText: string := "<json_parse_error>"
  const TimeoutErrorText: string := "<timeout_error>"

  datatype Reply =
    | Answer(text: string)
    | NetworkError
    | CameraError
    | ImageTooLarge
    | InvalidInput
    | JsonParseError
    | TimeoutError

  /** The String the source returns for a reply. */
  function Text(r: Reply): string
  {
    match r
    case Answer(t) => t
    case NetworkError => NetworkErrorText
    case CameraError => CameraErrorText
    case ImageTooLarge => ImageTooLargeText
    case InvalidInput => InvalidInputText
    case JsonParseError => JsonParseErrorText
    case TimeoutError => TimeoutErrorText
  }

  /** Network and timeout failures are the transient ones the retry policy repeats. */
  predicate IsTransient(r: Reply)
  {
    r.NetworkError? || r.TimeoutError?
  }

  /**
   * The retry test as the source writes it: it compares the returned String
   * with the two sentinels, so it cannot tell a failure from an answer whose
   * text happens to equal a sentinel.
   */
  predicate RetriedAsWritten(result: string)
  {
    result == NetworkErrorText || result == TimeoutErrorText
  }

  /** The six sentinels are pairwise distinct, so failures never collide with each other. */
  lemma SentinelsDistinct(r1: Reply, r2: Reply)
    requires !r1.Answer? && !r2.Answer?
    requires Text(r1) == Text(r2)
    ensures r1 == r2
  {
    assert NetworkErrorText[1] == 'n' && InvalidInputText[1] == 'i' && TimeoutErrorText[1] == 't';
    assert CameraErrorText[1] == 'c' && ImageTooLargeText[1] == 'i' && JsonParseErrorText[1] == 'j';
  }

  /**
   * The string test and the tagged test agree on every reply except an
   * answer whose text is one of the two transient sentinels.
   */
  lemma RetryTestsAgree(r: Reply)
    ensures RetriedAsWritten(Text(r)) == IsTransient(r) <==>
      !(r.Answer? && (r.text == NetworkErrorText || r.text == TimeoutErrorText))
  {
    assert NetworkErrorText[1] == 'n' && InvalidInputText[1] == 'i' && TimeoutErrorText[1] == 't';
    assert |CameraErrorText| != |NetworkErrorText| && |ImageTooLargeText| != |NetworkErrorText|;
    assert |JsonParseErrorText| != |NetworkErrorText|;
  }

  /** A delivered answer reading "<timeout_error>" is retried by the source as if the request had timed out. */
  lemma AsWrittenRetriesAnAnswer()
    ensures RetriedAsWritten(Text(Answer(TimeoutErrorText)))
    ensures !IsTransient(Answer(TimeoutErrorText))
  {
  }
}
