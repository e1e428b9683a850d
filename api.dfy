/**
 * The public entry points: configuration check (`validateConfig`,
 * doubao_api.cpp:15-28) and the three ways to ask a question: plain text
 * (`getGPTAnswer`, doubao_api.cpp:132-143), text with an image URL
 * (`getGPTAnswer_urlimg`, doubao_api.cpp:145-169) and text with a camera
 * picture (`getGPTAnswer_camera`, doubao_api.cpp:171-185).
 *
 * Each entry point guards its input, builds the payload and hands it to the
 * retry policy with its default budget of three attempts. The network and
 * the JSON parser are parameters, as in `Transport`; the camera picture is
 * a parameter `captured`, the string the capture call returns; the
 * temperature is a real for the range check and `tempText`, the text
 * `String(temp)` prints, for the payload.
 */
module Api {
  import opened Wrappers
  import opened Replies
  import opened Response
  import opened Transport
  import opened Payload

  /**
   * `validateConfig`: the key must be set and non-empty, the model ID
   * non-empty, and the temperature within [0, 1]; the checks run in that
   * order and the first failure answers false.
   */
  function ValidateConfig(apiKey: Option<string>, modelId: string, temp: real): (ok: bool)
    ensures ok <==> apiKey.Some? && |apiKey.value| > 0 && |modelId| > 0 && 0.0 <= temp && temp <= 1.0
  {
    if apiKey.None? || |apiKey.value| == 0 then false
    else if |modelId| == 0 then false
    else if temp < 0.0 || temp > 1.0 then false
    else true
  }

  /** The range check is inclusive at both ends and rejects anything beyond them. */
  lemma TemperatureRange(apiKey: Option<string>, modelId: string, temp: real)
    requires apiKey.Some? && |apiKey.value| > 0 && |modelId| > 0
    ensures ValidateConfig(apiKey, modelId, 0.0) && ValidateConfig(apiKey, modelId, 1.0)
    ensures temp < 0.0 || temp > 1.0 ==> !ValidateConfig(apiKey, modelId, temp)
  {
  }

  /**
   * A reply to a request that reached the retry policy is never one of the
   * replies the entry points produce before sending.
   */
  lemma SentRepliesAreNotGuards(network: seq<Exchange>, parse: JsonOracle, maxRetries: int, result: Reply, attempts: nat)
    requires 0 < maxRetries <= |network|
    requires Settled(Outcomes(network, parse), maxRetries, result, attempts)
    ensures result != InvalidInput && result != CameraError && result != ImageTooLarge
    ensures attempts >= 1
  {
    OutcomeAt(network, parse, attempts - 1);
    AttemptReplyKinds(network[attempts - 1], parse);
  }

  /**
   * `getGPTAnswer`: an invalid configuration or an empty text answers
   * `InvalidInput` before any payload is built or attempt made; otherwise
   * the text-only payload goes to the retry policy.
   */
  method GetGPTAnswer(inputText: string, apiKey: Option<string>, modelId: string, systemPrompt: string,
                      temp: real, tempText: string, network: seq<Exchange>, parse: JsonOracle)
    returns (result: Reply, attempts: nat, payload: string, ghost wires: seq<string>)
    requires DefaultMaxRetries <= |network|
    ensures result == InvalidInput <==> !ValidateConfig(apiKey, modelId, temp) || |inputText| == 0
    ensures result == InvalidInput ==> attempts == 0 && payload == [] && wires == []
    ensures result != InvalidInput ==>
      && payload == Render(ToJson(TextRequest(inputText, modelId, systemPrompt, tempText, "", "")))
      && Settled(Outcomes(network, parse), DefaultMaxRetries, result, attempts)
      && wires == Wires(payload, apiKey, network[..attempts])
  {
    if !ValidateConfig(apiKey, modelId, temp) {
      return InvalidInput, 0, [], [];
    }
    if |inputText| == 0 {
      return InvalidInput, 0, [], [];
    }
    payload := BuildPayload(inputText, modelId, systemPrompt, tempText, "", "");
    ghost var sleeps;
    result, attempts, sleeps, wires := SendHttpRequestWithRetry(payload, apiKey, DefaultMaxRetries, network, parse);
    SentRepliesAreNotGuards(network, parse, DefaultMaxRetries, result, attempts);
  }

  /** `getGPTAnswer` sends no image: its user content is the text entry alone. */
  lemma TextOnlyRequest(inputText: string, modelId: string, systemPrompt: string, tempText: string)
    ensures TextRequest(inputText, modelId, systemPrompt, tempText, "", "").user == Parts([TextPart(inputText)])
  {
    TextRequestShape(inputText, modelId, systemPrompt, tempText, "", "");
  }

  /**
   * `getGPTAnswer_urlimg`: only an empty text is refused (the configuration
   * is not checked); otherwise the URL payload goes to the retry policy.
   */
  method GetGPTAnswerUrlImg(inputText: string, imageUrl: string, apiKey: Option<string>, modelId: string,
                            systemPrompt: string, tempText: string, network: seq<Exchange>, parse: JsonOracle)
    returns (result: Reply, attempts: nat, payload: string, ghost wires: seq<string>)
    requires DefaultMaxRetries <= |network|
    ensures result == InvalidInput <==> |inputText| == 0
    ensures result == InvalidInput ==> attempts == 0 && payload == [] && wires == []
    ensures result != InvalidInput ==>
      && payload == Render(ToJson(UrlImageRequest(inputText, imageUrl, modelId, systemPrompt, tempText)))
      && Settled(Outcomes(network, parse), DefaultMaxRetries, result, attempts)
      && wires == Wires(payload, apiKey, network[..attempts])
  {
    if |inputText| == 0 {
      return InvalidInput, 0, [], [];
    }
    payload := UrlImagePayload(inputText, imageUrl, modelId, systemPrompt, tempText);
    ghost var sleeps;
    result, attempts, sleeps, wires := SendHttpRequestWithRetry(payload, apiKey, DefaultMaxRetries, network, parse);
    SentRepliesAreNotGuards(network, parse, DefaultMaxRetries, result, attempts);
  }

  /**
   * `getGPTAnswer_camera`: an empty text is refused, then a capture that
   * returned "NULL" or nothing answers `CameraError`; otherwise the picture
   * goes out as a JPEG data URI ahead of the text.
   */
  method GetGPTAnswerCamera(inputText: string, apiKey: Option<string>, modelId: string, systemPrompt: string,
                            tempText: string, captured: string, network: seq<Exchange>, parse: JsonOracle)
    returns (result: Reply, attempts: nat, payload: string, ghost wires: seq<string>)
    requires DefaultMaxRetries <= |network|
    ensures result == InvalidInput <==> |inputText| == 0
    ensures result == CameraError <==> |inputText| > 0 && (captured == "NULL" || |captured| == 0)
    ensures result == InvalidInput || result == CameraError ==> attempts == 0 && payload == [] && wires == []
    ensures result != InvalidInput && result != CameraError ==>
      && payload == Render(ToJson(TextRequest(inputText, modelId, systemPrompt, tempText, captured, "jpg")))
      && TextRequest(inputText, modelId, systemPrompt, tempText, captured, "jpg").user
         == Parts([ImageUrl("data:image/jpg;base64," + captured), TextPart(inputText)])
      && Settled(Outcomes(network, parse), DefaultMaxRetries, result, attempts)
      && wires == Wires(payload, apiKey, network[..attempts])
  {
    if |inputText| == 0 {
      return InvalidInput, 0, [], [];
    }
    if captured == "NULL" || |captured| == 0 {
      return CameraError, 0, [], [];
    }
    payload := BuildPayload(inputText, modelId, systemPrompt, tempText, captured, "jpg");
    ghost var sleeps;
    result, attempts, sleeps, wires := SendHttpRequestWithRetry(payload, apiKey, DefaultMaxRetries, network, parse);
    SentRepliesAreNotGuards(network, parse, DefaultMaxRetries, result, attempts);
    TextRequestShape(inputText, modelId, systemPrompt, tempText, captured, "jpg");
    JpegDataUri(captured);
  }

  /** The camera picture's data URI. */
  lemma JpegDataUri(captured: string)
    ensures DataUri("jpg", captured) == "data:image/jpg;base64," + captured
  {
    calc {
      DataUri("jpg", captured);
      ("data:image/" + "jpg" + ";base64,") + captured;
      { assert "data:image/" + "jpg" + ";base64," == "data:image/jpg;base64,"; }
      "data:image/jpg;base64," + captured;
    }
  }
}
