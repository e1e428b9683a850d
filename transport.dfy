/**
 * One request to the chat-completion endpoint (`sendHttpRequest`,
 * doubao_api.cpp:31-90) and the bounded linear-backoff retry around it
 * (`sendHttpRequestWithRetry`, doubao_api.cpp:92-107).
 *
 * The socket is replaced by an `Exchange` per attempt: whether the TLS
 * connect succeeds, and the bytes the read loop would collect. Sleeps are
 * recorded in a ghost log instead of being performed.
 */
module Transport {
  import opened Wrappers
  import opened Chunked
  import opened Replies
  import opened Response

  const Host: string := "ark.cn-beijing.volces.com"
  const RequestLine: string := "POST /api/v3/chat/completions HTTP/1.1\r\n"
  /** Milliseconds; the sleep after failed attempt i is BaseDelay * (i + 1). */
  const BaseDelay: nat := 1000
  /** The default of `maxRetries` (doubao_api.h:46). */
  const DefaultMaxRetries: int := 3

  /** What the network does on one attempt. */
  datatype Exchange = Exchange(connects: bool, response: string)

  /** Arduino's `String(apiKey)`: a null `const char*` gives the empty String. */
  function KeyText(apiKey: Option<string>): string
  {
    match apiKey
    case None => []
    case Some(k) => k
  }

  /** The request line and headers, ending with the blank line. */
  function RequestHead(apiKey: Option<string>): (head: string)
    ensures |head| > |RequestLine| && head[..|RequestLine|] == RequestLine
    ensures |head| >= 4 && head[|head| - 4..] == HeaderEnd
  {
    RequestLine
    + "Host: " + Host + "\r\n"
    + "Content-Type: application/json\r\n"
    + "Authorization: Bearer " + KeyText(apiKey) + "\r\n"
    + "Transfer-Encoding: chunked\r\n"
    + "Connection: close\r\n"
    + "\r\n"
  }

  /** The reply one attempt produces. */
  function AttemptReply(x: Exchange, parse: JsonOracle): Reply
  {
    if !x.connects then NetworkError else Interpret(x.response, parse)
  }

  /** An attempt is a network error exactly when the connect fails; otherwise it is what the response makes of it. */
  lemma AttemptReplyKinds(x: Exchange, parse: JsonOracle)
    ensures AttemptReply(x, parse) == NetworkError <==> !x.connects
    ensures var r := AttemptReply(x, parse);
      r.Answer? || r == NetworkError || r == JsonParseError || r == TimeoutError
  {
  }

  /** The characters one attempt writes to the socket. */
  function AttemptWire(payload: string, apiKey: Option<string>, x: Exchange): string
  {
    if !x.connects then [] else RequestHead(apiKey) + ChunkedBody(payload)
  }

  /**
   * `sendHttpRequest`: a failed connect yields a network error before
   * anything is written; otherwise the head and the chunked body are
   * written, and the response is interpreted.
   */
  method SendHttpRequest(payload: string, apiKey: Option<string>, x: Exchange, parse: JsonOracle)
    returns (reply: Reply, wire: string)
    ensures reply == AttemptReply(x, parse) && wire == AttemptWire(payload, apiKey, x)
  {
    if !x.connects {
      return NetworkError, [];
    }
    var request := RequestHead(apiKey);
    wire := request;
    var body, chunks := SendChunkedBody(payload);
    wire := wire + body;
    reply := Interpret(x.response, parse);
  }

  /** A failed connect is a network error, and nothing is written. */
  lemma FailedConnect(payload: string, apiKey: Option<string>, x: Exchange, parse: JsonOracle)
    requires !x.connects
    ensures AttemptReply(x, parse) == NetworkError && AttemptWire(payload, apiKey, x) == []
  {
  }

  /**
   * After a successful connect the head is followed by a chunked body the
   * server decodes back to the payload; the reply never is a network error,
   * and it is a timeout exactly when nothing was read.
   */
  lemma ConnectedAttempt(payload: string, apiKey: Option<string>, x: Exchange, parse: JsonOracle)
    requires x.connects
    ensures var wire := AttemptWire(payload, apiKey, x);
      && |wire| >= |RequestHead(apiKey)|
      && wire[..|RequestHead(apiKey)|] == RequestHead(apiKey)
      && Dechunk(wire[|RequestHead(apiKey)|..]) == Some(payload)
    ensures AttemptReply(x, parse) != NetworkError
    ensures AttemptReply(x, parse) == TimeoutError <==> x.response == []
  {
    var head := RequestHead(apiKey);
    var wire := AttemptWire(payload, apiKey, x);
    assert wire[..|head|] == head;
    assert wire[|head|..] == ChunkedBody(payload);
    DechunkChunkedBody(payload);
  }

  /** The replies successive attempts produce on `network`. */
  function Outcomes(network: seq<Exchange>, parse: JsonOracle): (rs: seq<Reply>)
    ensures |rs| == |network|
  {
    if network == [] then [] else Outcomes(network[..|network| - 1], parse) + [AttemptReply(network[|network| - 1], parse)]
  }

  lemma {:induction false} OutcomeAt(network: seq<Exchange>, parse: JsonOracle, j: int)
    requires 0 <= j < |network|
    ensures Outcomes(network, parse)[j] == AttemptReply(network[j], parse)
  {
    if j < |network| - 1 {
      OutcomeAt(network[..|network| - 1], parse, j);
    }
  }

  /**
   * The outcome the retry policy promises, for attempts whose replies are
   * `outcomes` in turn: with no attempt allowed, the empty String; otherwise
   * `attempts` calls, all but the last transient, and the last either
   * transient (only when the budget is used up) or not.
   */
  predicate Settled(outcomes: seq<Reply>, maxRetries: int, result: Reply, attempts: nat)
    requires maxRetries <= |outcomes|
  {
    if maxRetries <= 0 then attempts == 0 && result == Answer([])
    else
      && 1 <= attempts <= maxRetries
      && result == outcomes[attempts - 1]
      && (forall j :: 0 <= j < attempts - 1 ==> IsTransient(outcomes[j]))
      && (attempts < maxRetries ==> !IsTransient(result))
  }

  /** The sleeps after the first `n` failed attempts: 1000, 2000, ..., 1000 * n. */
  function Backoff(n: nat): (delays: seq<nat>)
    ensures |delays| == n
  {
    if n == 0 then [] else Backoff(n - 1) + [BaseDelay * n]
  }

  function Sum(s: seq<nat>): nat
  {
    if s == [] then 0 else Sum(s[..|s| - 1]) + s[|s| - 1]
  }

  /** What successive attempts on `network` write, one entry per attempt. */
  ghost function Wires(payload: string, apiKey: Option<string>, network: seq<Exchange>): (ws: seq<string>)
    ensures |ws| == |network|
  {
    if network == [] then []
    else Wires(payload, apiKey, network[..|network| - 1]) + [AttemptWire(payload, apiKey, network[|network| - 1])]
  }

  lemma {:induction false} WireAt(payload: string, apiKey: Option<string>, network: seq<Exchange>, j: int)
    requires 0 <= j < |network|
    ensures Wires(payload, apiKey, network)[j] == AttemptWire(payload, apiKey, network[j])
  {
    if j < |network| - 1 {
      WireAt(payload, apiKey, network[..|network| - 1], j);
    }
  }

  /** One more attempt on `network` adds its wire at the end. */
  lemma WiresSnoc(payload: string, apiKey: Option<string>, network: seq<Exchange>, i: nat)
    requires i < |network|
    ensures Wires(payload, apiKey, network[..i + 1])
         == Wires(payload, apiKey, network[..i]) + [AttemptWire(payload, apiKey, network[i])]
  {
    assert network[..i + 1][..i] == network[..i];
  }

  /**
   * What the attempts write: each attempt that connects writes the head
   * with the same key followed by the chunked body of the same payload, and
   * one that does not connect writes nothing.
   */
  lemma SentEach(payload: string, apiKey: Option<string>, network: seq<Exchange>)
    ensures forall j :: 0 <= j < |network| ==>
      Wires(payload, apiKey, network)[j] == (if network[j].connects then RequestHead(apiKey) + ChunkedBody(payload) else [])
  {
    forall j | 0 <= j < |network|
      ensures Wires(payload, apiKey, network)[j] == AttemptWire(payload, apiKey, network[j])
    {
      WireAt(payload, apiKey, network, j);
    }
  }

  /**
   * Attempt `i` of the retry loop: one `sendHttpRequest` on the i-th
   * exchange, whose wire extends the wires of the attempts before it.
   */
  method Attempt(payload: string, apiKey: Option<string>, network: seq<Exchange>, parse: JsonOracle, i: nat)
    returns (reply: Reply, wire: string)
    requires i < |network|
    ensures reply == Outcomes(network, parse)[i]
    ensures Wires(payload, apiKey, network[..i + 1]) == Wires(payload, apiKey, network[..i]) + [wire]
  {
    reply, wire := SendHttpRequest(payload, apiKey, network[i], parse);
    OutcomeAt(network, parse, i);
    WiresSnoc(payload, apiKey, network, i);
  }

  /**
   * `sendHttpRequestWithRetry`: up to `maxRetries` calls, returning at once
   * on a reply that is neither a network error nor a timeout, sleeping
   * 1000 * (i + 1) ms after a transient failure of attempt i unless it was
   * the last. `sleeps` logs the sleeps, and `wires` what each attempt
   * writes, in order (see `SentEach`).
   */
  method SendHttpRequestWithRetry(payload: string, apiKey: Option<string>, maxRetries: int,
                                  network: seq<Exchange>, parse: JsonOracle)
    returns (result: Reply, attempts: nat, ghost sleeps: seq<nat>, ghost wires: seq<string>)
    requires maxRetries <= |network|
    ensures Settled(Outcomes(network, parse), maxRetries, result, attempts)
    ensures sleeps == Backoff(if attempts == 0 then 0 else attempts - 1)
    ensures attempts <= |network| && wires == Wires(payload, apiKey, network[..attempts])
  {
    ghost var outcomes := Outcomes(network, parse);
    result, attempts, sleeps, wires := Answer([]), 0, [], [];
    var i := 0;
    while i < maxRetries
      invariant 0 <= i && (i <= maxRetries || i == 0)
      invariant attempts == i
      invariant forall j :: 0 <= j < i ==> IsTransient(outcomes[j])
      invariant i == 0 ==> result == Answer([]) && sleeps == []
      invariant i > 0 ==> result == outcomes[i - 1]
      invariant i < maxRetries ==> sleeps == Backoff(i)
      invariant 0 < i == maxRetries ==> sleeps == Backoff(i - 1)
      invariant wires == Wires(payload, apiKey, network[..i])
      decreases maxRetries - i
    {
      var wire;
      result, wire := Attempt(payload, apiKey, network, parse, i);
      wires := wires + [wire];
      attempts := i + 1;
      if !IsTransient(result) {
        return;
      }
      if i < maxRetries - 1 {
        var delayTime := BaseDelay * (i + 1);
        assert Backoff(i + 1) == Backoff(i) + [delayTime];
        sleeps := sleeps + [delayTime];
      }
      i := i + 1;
    }
  }

  /** The policy's outcome is determined by the replies. */
  lemma SettledUnique(outcomes: seq<Reply>, maxRetries: int, r1: Reply, a1: nat, r2: Reply, a2: nat)
    requires maxRetries <= |outcomes|
    requires Settled(outcomes, maxRetries, r1, a1)
    requires Settled(outcomes, maxRetries, r2, a2)
    ensures r1 == r2 && a1 == a2
  {
  }

  /**
   * `k` transient failures followed by any other reply, with `k` below the
   * budget, take `k + 1` attempts and return that reply.
   */
  lemma StopsAtFirstSettledReply(outcomes: seq<Reply>, maxRetries: int, k: nat, result: Reply, attempts: nat)
    requires k < maxRetries <= |outcomes|
    requires forall j :: 0 <= j < k ==> IsTransient(outcomes[j])
    requires !IsTransient(outcomes[k])
    requires Settled(outcomes, maxRetries, result, attempts)
    ensures attempts == k + 1 && result == outcomes[k]
  {
  }

  /** When every attempt is transient, all `maxRetries` are used and the last reply is returned unchanged. */
  lemma ExhaustedReturnsLast(outcomes: seq<Reply>, maxRetries: int, result: Reply, attempts: nat)
    requires 0 < maxRetries <= |outcomes|
    requires forall j :: 0 <= j < maxRetries ==> IsTransient(outcomes[j])
    requires Settled(outcomes, maxRetries, result, attempts)
    ensures attempts == maxRetries && result == outcomes[maxRetries - 1]
    ensures IsTransient(result)
  {
  }

  /** The sleeps after `k` failed attempts add up to 1000 * k * (k + 1) / 2 ms (stated doubled). */
  lemma {:induction false} BackoffTotal(k: nat)
    ensures 2 * Sum(Backoff(k)) == BaseDelay * k * (k + 1)
  {
    if k > 0 {
      var b := Backoff(k);
      assert b[..|b| - 1] == Backoff(k - 1);
      BackoffTotal(k - 1);
      assert 2 * Sum(b) == BaseDelay * (k - 1) * k + 2 * BaseDelay * k;
      assert (k - 1) * k + 2 * k == k * (k + 1);
    }
  }

  /**
   * Two failed connects, then a response the parser accepts: the outcome
   * `SendHttpRequestWithRetry` promises with the default budget is that
   * answer, after three attempts and 1000 + 2000 ms of sleep.
   */
  lemma TwoNetworkFailuresThenAnswer(network: seq<Exchange>, parse: JsonOracle, text: string,
                                     result: Reply, attempts: nat)
    requires |network| == 3 && !network[0].connects && !network[1].connects
    requires network[2].connects && network[2].response != []
    requires parse(ExtractBody(network[2].response)) == Some(text)
    requires Settled(Outcomes(network, parse), DefaultMaxRetries, result, attempts)
    ensures result == Answer(text) && attempts == 3
    ensures Sum(Backoff(attempts - 1)) == 3000
  {
    var outcomes := Outcomes(network, parse);
    assert outcomes[0] == NetworkError && outcomes[1] == NetworkError by {
      OutcomeAt(network, parse, 0);
      OutcomeAt(network, parse, 1);
    }
    assert outcomes[2] == Answer(text) by {
      OutcomeAt(network, parse, 2);
    }
    StopsAtFirstSettledReply(outcomes, DefaultMaxRetries, 2, result, attempts);
    BackoffTotal(2);
  }
}
