# doubao_api in Dafny

A model of the request pipeline of `doubao_api`, an Arduino client for a
chat-completion HTTP API. The client:

- checks its configuration and input (`validateConfig` and the guards of the
  three `getGPTAnswer*` entry points);
- builds a JSON request payload by string concatenation (`buildPayload` and
  the inline builder of `getGPTAnswer_urlimg`);
- sends the payload over TLS with the chunked transfer coding of section 7.1
  of RFC 9112, in pieces of at most 4096 bytes;
- cuts the HTTP header off the response at the first blank line and hands
  the rest to a JSON parser;
- makes up to `maxRetries` attempts (default 3), repeating after a network
  failure or a timeout, with a linear backoff of 1000 ms, 2000 ms, ….

Modules, one file each:

| file | module | what it holds |
|---|---|---|
| wrappers.dfy | `Wrappers` | `Option` |
| replies.dfy | `Replies` | the tagged `Reply`, the six sentinel strings, the retry test |
| hex.dfy | `Hex` | `String(n, HEX)` and reading a hexadecimal numeral back |
| chunked.dfy | `Chunked` | the chunk loop, its specification `Chunks`/`ChunkedBody`, and a de-chunker |
| response.dfy | `Response` | `indexOf`, the header strip, the reply for a response |
| transport.dfy | `Transport` | the request head, one attempt, the retry loop and its backoff log |
| payload.dfy | `Payload` | a small JSON value with its rendering, the requests, both builders |
| api.dfy | `Api` | `validateConfig` and the three entry points |

How the model stands in for the parts it cannot run:

- The source returns every result as a `String`. Failures come back as six
  sentinel strings such as `"<network_error>"`. The model tags results with
  the `Reply` datatype, and `Replies.Text` maps a tag back to its string.
- `const char* apiKey` becomes `Option<string>`. `None` is the null pointer,
  which `String(apiKey)` prints as the empty string.
- The network is an `Exchange` per attempt: whether the TLS connect
  succeeds, and the text the read loop collects.
- The JSON parser, including the lookup of `choices[0].message.content`, is
  an oracle parameter of type `string -> Option<string>`.
- The temperature is a `real` for the range check. The text `String(temp)`
  prints is a separate parameter that goes into the payload.
- The camera picture is a parameter: the string the capture call returns.
- Sleeps are not performed. The retry loop records them in a ghost log.
- The bytes each attempt writes are kept in a second ghost log, one entry per
  attempt; `Transport.Wires` says what each entry is.

Behaviour of the code worth stating:

- `getGPTAnswer_urlimg` and `getGPTAnswer_camera` do not call
  `validateConfig`, so an out-of-range temperature still goes out.
  `getGPTAnswer_urlimg` refuses only an empty text, and `getGPTAnswer_camera`
  refuses an empty text or a failed capture.
- The header is cut only when `"\r\n\r\n"` is found at an index greater than 0.
  A response that starts with the blank line is parsed whole.
- An empty payload is not refused before sending. It is framed as the last
  chunk alone.
- With `maxRetries <= 0` no attempt is made, and the result is the
  default-constructed, empty `String`, i.e. an empty answer.

The transport and entry points require a network of at least `maxRetries`
exchanges. This does not restrict callers: it only makes sure the modelled
environment can answer every attempt the policy may make.

## Model

| member | source | states |
|---|---|---|
| Replies.SentinelsDistinct | doubao_api.cpp:5-10 | two failure replies with the same sentinel string are the same failure |
| Hex.ToHex | doubao_api.cpp:53 | the chunk-size numeral is non-empty, all lower-case hexadecimal digits, and "0" exactly for zero, with no leading zero otherwise |
| Hex.HexValueOfToHex | doubao_api.cpp:53 | reading back the size numeral gives the chunk size |
| Chunked.SendChunkedBody | doubao_api.cpp:47-60 | the send loop cuts the payload into exactly the pieces `Chunks` names and writes exactly `ChunkedBody(payload)`: each piece as size, CRLF, data, CRLF, then "0\r\n\r\n" |
| Chunked.ChunkAt | doubao_api.cpp:51-52 | piece i starts at 4096·i and has min(4096, remaining) bytes |
| Chunked.ChunkSizes | doubao_api.cpp:50-52 | every piece is non-empty and at most 4096 long, and every piece but the last is exactly 4096 |
| Chunked.ChunkCount | doubao_api.cpp:47-57 | there are ceil(length / 4096) pieces, none for an empty payload |
| Chunked.ConcatChunks | doubao_api.cpp:48-57 | the pieces joined in order give back the payload |
| Chunked.ChunkLengthsSum | doubao_api.cpp:48-57 | the piece lengths add up to the payload length |
| Chunked.EmptyPayloadBody | doubao_api.cpp:60 | an empty payload is framed as "0\r\n\r\n" alone |
| Chunked.DechunkOneChunk | doubao_api.cpp:53-56 | a decoder reading one framed piece recovers its data and continues after it |
| Chunked.DechunkEncoded | doubao_api.cpp:53-60 | a sequence of framed non-empty pieces followed by the last chunk decodes to their concatenation |
| Chunked.DechunkChunkedBody | doubao_api.cpp:47-60 | the framed body is a well-formed chunked body that decodes to the payload |
| Response.IndexFrom | doubao_api.cpp:71 | the result is -1 or a match at or after the start, and no match lies between the start and the result |
| Response.IndexOf | doubao_api.cpp:71 | the result is the first occurrence of the pattern, or -1 when there is none |
| Response.ExtractBody | doubao_api.cpp:70-74 | the body passed to the parser is a suffix of the response |
| Response.BodyAfterFirstBoundary | doubao_api.cpp:71-74 | when the first "\r\n\r\n" is at index i > 0, the body is everything after it |
| Response.BodyKeptWhole | doubao_api.cpp:71-74 | with no "\r\n\r\n", or one at index 0, the whole response is the body |
| Response.Interpret | doubao_api.cpp:70-88 | timeout exactly for an empty response; an answer exactly when the parser accepts the body, carrying the parser's text; a parse error otherwise |
| Transport.RequestHead | doubao_api.cpp:39-45 | the head starts with the request line and ends with the blank line |
| Transport.SendHttpRequest | doubao_api.cpp:31-90 | one attempt returns the reply for its exchange and writes nothing, or the head followed by the chunked body |
| Transport.FailedConnect | doubao_api.cpp:35-37 | a failed connect is a network error and nothing is written |
| Transport.ConnectedAttempt | doubao_api.cpp:39-60 | after a connect, the wire is the head followed by a chunked body that decodes to the payload; the reply is never a network error, and it is a timeout exactly when nothing was read |
| Transport.AttemptReplyKinds | doubao_api.cpp:31-90 | an attempt is a network error exactly when the connect fails, and otherwise an answer, a parse error or a timeout |
| Transport.WireAt | doubao_api.cpp:96 | entry j of the write log is what attempt j writes for its exchange |
| Transport.SentEach | doubao_api.cpp:96 | every attempt that connects writes the head with the same key and the chunked body of the same payload; a failed connect writes nothing |
| Transport.WiresSnoc | doubao_api.cpp:94-96 | one more attempt adds its write at the end of the log and leaves the earlier entries alone |
| Transport.Attempt | doubao_api.cpp:96 | attempt i returns the reply of exchange i and adds its write to the log of the first i attempts |
| Transport.SendHttpRequestWithRetry | doubao_api.cpp:92-107 | at most maxRetries attempts; all but the last transient; stops at the first non-transient reply; returns the last reply when the budget is used up; no attempt and the empty answer when maxRetries <= 0; the sleeps are 1000, 2000, … with none after the last attempt; the write log holds, for each attempt made, the head with `apiKey` and the chunked `payload`, or nothing after a failed connect |
| Transport.SettledUnique | doubao_api.cpp:92-107 | the outcome is determined by the replies of the attempts |
| Transport.StopsAtFirstSettledReply | doubao_api.cpp:96-98 | k transient failures then any other reply, with k below the budget, take k + 1 attempts and return that reply |
| Transport.ExhaustedReturnsLast | doubao_api.cpp:94-106 | when every attempt is transient, all maxRetries are used and the last reply is returned unchanged |
| Transport.BackoffTotal | doubao_api.cpp:100-103 | the sleeps after k failed attempts add up to 1000·k·(k+1)/2 ms |
| Transport.TwoNetworkFailuresThenAnswer | doubao_api.cpp:92-107 | two failed connects then an accepted response: the promised outcome is that answer after three attempts with 3000 ms of sleep |
| Payload.BuildPayload | doubao_api.cpp:109-130 | the text `buildPayload` concatenates is the rendering of the structured request `TextRequest` |
| Payload.TextRequestShape | doubao_api.cpp:118-124 | the user content is an array whose last entry is the text; the image entry is present exactly when the image is neither "" nor "NULL", and then it comes first |
| Payload.UrlImagePayload | doubao_api.cpp:150-166 | the text the URL builder concatenates is the rendering of the structured request `UrlImageRequest` |
| Payload.UrlImageRequestShape | doubao_api.cpp:156-163 | an empty URL makes the user content the plain text; otherwise it is the image entry followed by the text |
| Api.ValidateConfig | doubao_api.cpp:15-28 | true exactly when the key is set and non-empty, the model ID is non-empty and 0 <= temp <= 1 |
| Api.TemperatureRange | doubao_api.cpp:24-27 | 0 and 1 are accepted; anything below 0 or above 1 is rejected |
| Api.SentRepliesAreNotGuards | doubao_api.cpp:92-107 | a reply that comes back from the retry policy is never invalid input, a camera error or an image-too-large error, and at least one attempt was made |
| Api.GetGPTAnswer | doubao_api.cpp:132-143 | invalid input exactly when validation fails or the text is empty, and then no payload, no attempt and nothing written; otherwise the text-only payload and the key go to the retry policy with three attempts, and every attempt that connects writes them |
| Api.TextOnlyRequest | doubao_api.cpp:140 | the text-only request's user content is the text entry alone |
| Api.GetGPTAnswerUrlImg | doubao_api.cpp:145-169 | invalid input exactly when the text is empty, with no attempt and nothing written; otherwise the URL payload and the key go to the retry policy, and every attempt that connects writes them |
| Api.GetGPTAnswerCamera | doubao_api.cpp:171-185 | invalid input exactly for an empty text; a camera error exactly when the capture is "NULL" or empty; neither makes an attempt or writes anything; otherwise the picture goes out as a JPEG data URI ahead of the text, and every attempt that connects writes that payload with the key |
| Api.JpegDataUri | doubao_api.cpp:182 | the camera picture's data URI is "data:image/jpg;base64," followed by the picture |
| Replies.RetryTestsAgree | doubao_api.cpp:97 | the source's string test and the tagged test agree on every reply except an answer whose text equals one of the two transient sentinels |
| Replies.AsWrittenRetriesAnAnswer | doubao_api.cpp:97 | the string test retries an answer that reads "<timeout_error>" |

## Left out

- TLS sockets (`WiFiClientSecure`, `setInsecure`, connect, print and stop) are not modelled. They are I/O; the connect outcome and the bytes read are the `Exchange` of each attempt.
- The read loop with its `millis()` deadline of 300 s and its 10 ms pauses is not modelled. It is wall-clock I/O; its result is `Exchange.response`.
- The 5 ms pause after each chunk is not modelled. It is timing only.
- ArduinoJson deserialisation and the lookup of `choices[0].message.content` are an oracle. The library is not part of this model. `getChoice` is also left out, for the same reason.
- Camera capture and base64 encoding (`K10_base64`) are not modelled. They are a hardware call; the captured string is a parameter.
- The formatting of `String(temp)` is not modelled. It is float formatting; the payload's temperature text is a parameter.
- `Serial` logging and the global `answer` variable are left out. They carry no logic.
- `ERROR_IMAGE_TOO_LARGE` is declared but never returned by the source. It appears only as a `Reply` tag.
- No JSON escaping is modelled, because the source escapes nothing. `Payload.Render` quotes strings verbatim too.
- The source's `int` lengths and counters are unbounded integers here. Payloads beyond 2^31 bytes cannot exist on the device.
- `Chunked.Dechunk` is a reference decoder for the bodies the sender writes. It does not accept chunk extensions or trailer fields.
- A `char` stands for one byte of the Arduino `String`: lengths, chunk sizes and indices count bytes, and a 4096-byte chunk may split a UTF-8 character. NUL bytes, which end the `strstr` search behind `String::indexOf`, are not modelled.
- Api.ValidateConfig: the temperature is a `real`, which has no NaN. The source's `float` comparisons `temp < 0.0 || temp > 1.0` are both false for NaN, so the source accepts a NaN temperature; the model cannot express that input.
- The sleep log in `Transport.SendHttpRequestWithRetry` is ghost. Nothing waits.

## Findings

| source | as written | input that shows it | evidently intended | confidence | as-written member | corrected member |
|---|---|---|---|---|---|---|
| doubao_api.cpp:97 | the retry test compares the returned `String` with `"<network_error>"` and `"<timeout_error>"`, so it retries any reply whose text equals a sentinel | a parsed answer whose `content` is the text `<timeout_error>` is retried as if the request had timed out, and it is sent again | retry only real network failures and timeouts, and return every parsed answer | not executed | Replies.AsWrittenRetriesAnAnswer | Replies.RetryTestsAgree |

The retry loop of the model uses the tagged test `Replies.IsTransient`.
`Replies.RetriedAsWritten` is the string test as written.
`Replies.RetryTestsAgree` proves that the two tests agree everywhere except on
such an answer.
