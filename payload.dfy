/**
 * The request payloads (`buildPayload`, doubao_api.cpp:109-130, and the
 * inline builder of `getGPTAnswer_urlimg`, doubao_api.cpp:150-166). The
 * builders concatenate text step by step; the model proves that the text
 * they build is the rendering of a structured chat request, and states the
 * shape of that request. Strings are inserted without JSON escaping, as in
 * the source.
 */
module Payload {

  /** A JSON value as the payload uses it; `JRaw` is number text inserted verbatim. */
  datatype Json =
    | JStr(s: string)
    | JRaw(text: string)
    | JArr(items: seq<Json>)
    | JObj(members: seq<Member>)

  datatype Member = Member(key: string, value: Json)

  /** Compact JSON text: no white space, strings quoted but not escaped. */
  function Render(j: Json): string
    decreases j
  {
    match j
    case JStr(s) => "\"" + s + "\""
    case JRaw(t) => t
    case JArr(items) => "[" + RenderItems(items) + "]"
    case JObj(ms) => "{" + RenderMembers(ms) + "}"
  }

  /** Array elements separated by commas. */
  function RenderItems(items: seq<Json>): string
    decreases items
  {
    if items == [] then []
    else if |items| == 1 then Render(items[0])
    else Render(items[0]) + "," + RenderItems(items[1..])
  }

  /** Object members `"key":value` separated by commas. */
  function RenderMembers(ms: seq<Member>): string
    decreases ms
  {
    if ms == [] then []
    else
      var first := "\"" + ms[0].key + "\":" + Render(ms[0].value);
      if |ms| == 1 then first else first + "," + RenderMembers(ms[1..])
  }

  /** One element of the user content array. */
  datatype Part = ImageUrl(url: string) | TextPart(text: string)

  /** The user message's content: a plain string or an array of parts. */
  datatype UserContent = Plain(text: string) | Parts(parts: seq<Part>)

  /** A chat-completion request: model, system prompt, user content, temperature text. */
  datatype ChatRequest = ChatRequest(model: string, systemPrompt: string, user: UserContent, temperature: string)

  function PartJson(p: Part): Json
  {
    match p
    case ImageUrl(u) =>
      JObj([Member("type", JStr("image_url")), Member("image_url", JObj([Member("url", JStr(u))]))])
    case TextPart(t) =>
      JObj([Member("type", JStr("text")), Member("text", JStr(t))])
  }

  function PartsJson(ps: seq<Part>): (js: seq<Json>)
    ensures |js| == |ps|
  {
    if ps == [] then [] else [PartJson(ps[0])] + PartsJson(ps[1..])
  }

  function ContentJson(c: UserContent): Json
  {
    match c
    case Plain(t) => JStr(t)
    case Parts(ps) => JArr(PartsJson(ps))
  }

  function MessageJson(role: string, content: Json): Json
  {
    JObj([Member("role", JStr(role)), Member("content", content)])
  }

  /** The JSON document of a request, members in the order the builders write them. */
  function ToJson(r: ChatRequest): Json
  {
    JObj([
      Member("model", JStr(r.model)),
      Member("messages", JArr([MessageJson("system", JStr(r.systemPrompt)), MessageJson("user", ContentJson(r.user))])),
      Member("temperature", JRaw(r.temperature))])
  }

  /** `buildPayload` attaches the image only when it is neither "" nor "NULL". */
  predicate HasImage(base64Image: string)
  {
    base64Image != "" && base64Image != "NULL"
  }

  function DataUri(imageFormat: string, base64Image: string): string
  {
    "data:image/" + imageFormat + ";base64," + base64Image
  }

  /** The request `buildPayload` describes. */
  function TextRequest(inputText: string, modelId: string, systemPrompt: string, temperature: string,
                       base64Image: string, imageFormat: string): ChatRequest
  {
    var image := if HasImage(base64Image) then [ImageUrl(DataUri(imageFormat, base64Image))] else [];
    ChatRequest(modelId, systemPrompt, Parts(image + [TextPart(inputText)]), temperature)
  }

  /** The request `getGPTAnswer_urlimg` describes. */
  function UrlImageRequest(inputText: string, imageUrl: string, modelId: string, systemPrompt: string,
                           temperature: string): ChatRequest
  {
    var content := if imageUrl != "" then Parts([ImageUrl(imageUrl), TextPart(inputText)]) else Plain(inputText);
    ChatRequest(modelId, systemPrompt, content, temperature)
  }

  /** The text of a request before its user content, in the pieces the builders append. */
  function RequestPrefix(model: string, systemPrompt: string): string
  {
    "{\"model\":\"" + model + "\"," + "\"messages\":[" + "{\"role\":\"system\",\"content\":\"" + systemPrompt + "\"},"
    + "{\"role\":\"user\",\"content\":"
  }

  /** The text of a request after its user content. */
  function RequestSuffix(temperature: string): string
  {
    "}" + "]," + "\"temperature\":" + temperature + "}"
  }

  /**
   * `buildPayload`: the text it concatenates is the rendering of
   * `TextRequest` for the same arguments.
   */
  method BuildPayload(inputText: string, modelId: string, systemPrompt: string, temperature: string,
                      base64Image: string, imageFormat: string) returns (payload: string)
    ensures payload == Render(ToJson(TextRequest(inputText, modelId, systemPrompt, temperature, base64Image, imageFormat)))
  {
    payload := "{";
    payload := payload + ("\"model\":\"" + modelId + "\",");
    payload := payload + "\"messages\":[";
    payload := payload + ("{\"role\":\"system\",\"content\":\"" + systemPrompt + "\"},");
    ghost var opening := payload;
    payload := payload + "{";
    payload := payload + "\"role\":\"user\",";
    payload := payload + "\"content\":[";
    ghost var pre := RequestPrefix(modelId, systemPrompt);
    assert payload == pre + "[" by {
      assert payload == opening + ("{" + "\"role\":\"user\"," + "\"content\":[");
      UserArrayLiteral();
      BuilderOpening(modelId, systemPrompt);
    }
    ghost var entries: string := [];
    if base64Image != "" && base64Image != "NULL" {
      payload := payload + "{\"type\":\"image_url\",";
      payload := payload + ("\"image_url\":{\"url\":\"data:image/" + imageFormat + ";base64," + base64Image + "\"}},");
      entries := Render(PartJson(ImageUrl(DataUri(imageFormat, base64Image)))) + ",";
      assert payload == pre + "[" + entries by {
        BuilderImageEntry(imageFormat, base64Image);
      }
    }
    ghost var imageEntries := entries;
    payload := payload + ("{\"type\":\"text\",\"text\":\"" + inputText + "\"}");
    entries := entries + Render(PartJson(TextPart(inputText)));
    payload := payload + "]";
    assert payload == pre + ("[" + entries + "]") by {
      RenderTextPart(inputText);
      AppendEntry(pre, "[", imageEntries, Render(PartJson(TextPart(inputText))), "]");
    }
    ghost var body := payload;
    payload := payload + "}";
    payload := payload + "],";
    payload := payload + ("\"temperature\":" + temperature);
    payload := payload + "}";
    assert payload == body + RequestSuffix(temperature) by {
      assert payload == body + ("}" + "]," + ("\"temperature\":" + temperature) + "}");
      BuilderClosing(temperature);
    }
    var r := TextRequest(inputText, modelId, systemPrompt, temperature, base64Image, imageFormat);
    assert "[" + entries + "]" == Render(ContentJson(r.user)) by {
      TextRequestContent(inputText, modelId, systemPrompt, temperature, base64Image, imageFormat);
    }
    RenderRequest(r);
  }

  /**
   * The inline builder of `getGPTAnswer_urlimg`: the text it concatenates
   * is the rendering of `UrlImageRequest` for the same arguments.
   */
  method UrlImagePayload(inputText: string, imageUrl: string, modelId: string, systemPrompt: string,
                         temperature: string) returns (payload: string)
    ensures payload == Render(ToJson(UrlImageRequest(inputText, imageUrl, modelId, systemPrompt, temperature)))
  {
    payload := "{";
    payload := payload + ("\"model\":\"" + modelId + "\",");
    payload := payload + "\"messages\":[";
    payload := payload + ("{\"role\":\"system\",\"content\":\"" + systemPrompt + "\"},");
    ghost var opening := payload;
    var r := UrlImageRequest(inputText, imageUrl, modelId, systemPrompt, temperature);
    ghost var user: string;
    if imageUrl != "" {
      payload := payload + "{\"role\":\"user\",\"content\":[";
      payload := payload + ("{\"type\":\"image_url\",\"image_url\":{\"url\":\"" + imageUrl + "\"}},");
      payload := payload + ("{\"type\":\"text\",\"text\":\"" + inputText + "\"}");
      payload := payload + "]}";
      user := "{\"role\":\"user\",\"content\":[" + ("{\"type\":\"image_url\",\"image_url\":{\"url\":\"" + imageUrl + "\"}},")
        + ("{\"type\":\"text\",\"text\":\"" + inputText + "\"}") + "]}";
      assert user == "{\"role\":\"user\",\"content\":" + Render(ContentJson(r.user)) + "}" by {
        UrlUserArray(imageUrl, inputText);
      }
    } else {
      payload := payload + ("{\"role\":\"user\",\"content\":\"" + inputText + "\"}");
      user := "{\"role\":\"user\",\"content\":\"" + inputText + "\"}";
      assert user == "{\"role\":\"user\",\"content\":" + Render(ContentJson(r.user)) + "}" by {
        UrlUserPlain(inputText);
      }
    }
    assert payload == opening + user;
    payload := payload + "],";
    payload := payload + ("\"temperature\":" + temperature);
    payload := payload + "}";
    assert payload == RequestPrefix(modelId, systemPrompt) + Render(ContentJson(r.user)) + RequestSuffix(temperature) by {
      assert payload == opening + user + ("]," + ("\"temperature\":" + temperature) + "}");
      UrlAssembly(opening, Render(ContentJson(r.user)), temperature);
      BuilderOpening(modelId, systemPrompt);
    }
    RenderRequest(r);
  }

  /**
   * The shape of `buildPayload`'s request: the user content is an array
   * whose last entry is the text; the image entry comes first and is there
   * exactly when the image is neither "" nor "NULL".
   */
  lemma TextRequestShape(inputText: string, modelId: string, systemPrompt: string, temperature: string,
                         base64Image: string, imageFormat: string)
    ensures var r := TextRequest(inputText, modelId, systemPrompt, temperature, base64Image, imageFormat);
      && r.model == modelId && r.systemPrompt == systemPrompt && r.temperature == temperature
      && r.user.Parts? && |r.user.parts| >= 1
      && r.user.parts[|r.user.parts| - 1] == TextPart(inputText)
      && ((exists i :: 0 <= i < |r.user.parts| && r.user.parts[i].ImageUrl?) <==> HasImage(base64Image))
      && (HasImage(base64Image) ==> r.user.parts == [ImageUrl(DataUri(imageFormat, base64Image)), TextPart(inputText)])
  {
    var r := TextRequest(inputText, modelId, systemPrompt, temperature, base64Image, imageFormat);
    if HasImage(base64Image) {
      assert r.user.parts[0].ImageUrl?;
    } else {
      assert r.user.parts == [TextPart(inputText)];
    }
  }

  /**
   * The shape of `getGPTAnswer_urlimg`'s request: with an empty URL the user
   * content is the plain text; otherwise it is the image entry and then the text.
   */
  lemma UrlImageRequestShape(inputText: string, imageUrl: string, modelId: string, systemPrompt: string,
                             temperature: string)
    ensures var r := UrlImageRequest(inputText, imageUrl, modelId, systemPrompt, temperature);
      && r.model == modelId && r.systemPrompt == systemPrompt && r.temperature == temperature
      && (imageUrl == "" <==> r.user == Plain(inputText))
      && (imageUrl != "" <==> r.user == Parts([ImageUrl(imageUrl), TextPart(inputText)]))
  {
  }

  // Rendering lemmas: each piece the builders append is the rendering of a part of the request.

  /** The text of one object member. */
  function MemberText(m: Member): string
  {
    "\"" + m.key + "\":" + Render(m.value)
  }

  lemma RenderObjectOfTwo(m1: Member, m2: Member)
    ensures Render(JObj([m1, m2])) == "{" + MemberText(m1) + "," + MemberText(m2) + "}"
  {
    var ms := [m1, m2];
    assert ms[1..] == [m2];
    assert RenderMembers(ms[1..]) == MemberText(m2);
    assert RenderMembers(ms) == MemberText(m1) + "," + RenderMembers(ms[1..]);
  }

  lemma RenderObjectOfThree(m1: Member, m2: Member, m3: Member)
    ensures Render(JObj([m1, m2, m3])) == "{" + MemberText(m1) + "," + MemberText(m2) + "," + MemberText(m3) + "}"
  {
    var ms := [m1, m2, m3];
    assert ms[1..] == [m2, m3];
    assert ms[1..][1..] == [m3];
    assert RenderMembers(ms[1..][1..]) == MemberText(m3);
    assert RenderMembers(ms[1..]) == MemberText(m2) + "," + RenderMembers(ms[1..][1..]);
    assert RenderMembers(ms) == MemberText(m1) + "," + RenderMembers(ms[1..]);
  }

  lemma RenderArrayOfTwo(a: Json, b: Json)
    ensures Render(JArr([a, b])) == "[" + Render(a) + "," + Render(b) + "]"
  {
    var items := [a, b];
    assert items[1..] == [b];
    assert RenderItems(items[1..]) == Render(b);
    assert RenderItems(items) == Render(a) + "," + RenderItems(items[1..]);
  }

  /**
   * A request renders as prefix, user content, suffix: the text the
   * builders write around the user content depends on nothing else.
   */
  lemma RenderRequest(r: ChatRequest)
    ensures Render(ToJson(r)) == RequestPrefix(r.model, r.systemPrompt) + Render(ContentJson(r.user)) + RequestSuffix(r.temperature)
  {
    var sys := MessageJson("system", JStr(r.systemPrompt));
    var user := MessageJson("user", ContentJson(r.user));
    var c := Render(ContentJson(r.user));
    var m1, m2, m3 := Member("model", JStr(r.model)), Member("messages", JArr([sys, user])), Member("temperature", JRaw(r.temperature));
    var a, q := "\"model\":\"", "\"";
    var b1, b2, b3, b4 := "\"messages\":[", "{\"role\":\"system\",\"content\":\"", "\"},", "{\"role\":\"user\",\"content\":";
    var t1 := "\"temperature\":";
    calc {
      Render(ToJson(r));
      { RenderObjectOfThree(m1, m2, m3); }
      "{" + MemberText(m1) + "," + MemberText(m2) + "," + MemberText(m3) + "}";
      { ModelMember(r.model); MessagesMember(r.systemPrompt, ContentJson(r.user)); TemperatureMember(r.temperature); }
      "{" + (a + r.model + q) + "," + (b1 + b2 + r.systemPrompt + b3 + b4 + c + "}" + "]") + "," + (t1 + r.temperature) + "}";
      { RegroupRequest("{", a, r.model, q, ",", b1, b2, r.systemPrompt, b3, b4, c, "}", "]", t1, r.temperature); }
      ("{" + a) + r.model + (q + ",") + b1 + b2 + r.systemPrompt + b3 + b4 + c + "}" + ("]" + ",") + t1 + r.temperature + "}";
      { ModelLiteral(); QuoteCommaLiteral(); BracketCommaLiteral(); }
      RequestPrefix(r.model, r.systemPrompt) + c + RequestSuffix(r.temperature);
    }
  }

  lemma ModelMember(model: string)
    ensures MemberText(Member("model", JStr(model))) == "\"model\":\"" + model + "\""
  {
    assert "\"" + "model" + "\":" + "\"" == "\"model\":\"";
  }

  lemma TemperatureMember(t: string)
    ensures MemberText(Member("temperature", JRaw(t))) == "\"temperature\":" + t
  {
    assert "\"" + "temperature" + "\":" == "\"temperature\":";
  }

  lemma MessagesMember(systemPrompt: string, content: Json)
    ensures MemberText(Member("messages", JArr([MessageJson("system", JStr(systemPrompt)), MessageJson("user", content)])))
         == "\"messages\":[" + "{\"role\":\"system\",\"content\":\"" + systemPrompt + "\"}," + "{\"role\":\"user\",\"content\":"
            + Render(content) + "}" + "]"
  {
    var c := Render(content);
    var sys := MessageJson("system", JStr(systemPrompt));
    var user := MessageJson("user", content);
    var s1, s2 := "{\"role\":\"system\",\"content\":\"", "\"}";
    var u1 := "{\"role\":\"user\",\"content\":";
    calc {
      MemberText(Member("messages", JArr([sys, user])));
      { RenderArrayOfTwo(sys, user); }
      ("\"" + "messages" + "\":") + ("[" + Render(sys) + "," + Render(user) + "]");
      { SystemMessage(systemPrompt); UserMessage(content); }
      ("\"" + "messages" + "\":") + ("[" + (s1 + systemPrompt + s2) + "," + (u1 + c + "}") + "]");
      { RegroupMessages("\"" + "messages" + "\":", "[", s1, systemPrompt, s2, ",", u1, c, "}", "]"); }
      ("\"" + "messages" + "\":" + "[") + s1 + systemPrompt + (s2 + ",") + u1 + c + "}" + "]";
      { MessagesKeyLiteral(); BraceCommaLiteral(); }
      "\"messages\":[" + s1 + systemPrompt + "\"}," + u1 + c + "}" + "]";
    }
  }

  lemma SystemMessage(systemPrompt: string)
    ensures Render(MessageJson("system", JStr(systemPrompt))) == "{\"role\":\"system\",\"content\":\"" + systemPrompt + "\"}"
  {
    var role, content := Member("role", JStr("system")), Member("content", JStr(systemPrompt));
    calc {
      Render(MessageJson("system", JStr(systemPrompt)));
      { RenderObjectOfTwo(role, content); }
      "{" + ("\"" + "role" + "\":" + ("\"" + "system" + "\"")) + "," + ("\"" + "content" + "\":" + ("\"" + systemPrompt + "\"")) + "}";
      ("{" + "\"" + "role" + "\":" + "\"" + "system" + "\"" + ",") + ("\"" + "content" + "\":" + "\"") + systemPrompt + ("\"" + "}");
      { SystemRoleLiteral(); ContentStringLiteral(); SystemContentLiteral(); QuoteBraceLiteral(); }
      "{\"role\":\"system\",\"content\":\"" + systemPrompt + "\"}";
    }
  }

  lemma UserMessage(content: Json)
    ensures Render(MessageJson("user", content)) == "{\"role\":\"user\",\"content\":" + Render(content) + "}"
  {
    var role, member := Member("role", JStr("user")), Member("content", content);
    calc {
      Render(MessageJson("user", content));
      { RenderObjectOfTwo(role, member); }
      "{" + ("\"" + "role" + "\":" + ("\"" + "user" + "\"")) + "," + ("\"" + "content" + "\":" + Render(content)) + "}";
      ("{" + "\"" + "role" + "\":" + "\"" + "user" + "\"" + ",") + ("\"" + "content" + "\":") + Render(content) + "}";
      { UserRoleLiteral(); ContentKeyLiteral(); UserContentLiteral(); }
      "{\"role\":\"user\",\"content\":" + Render(content) + "}";
    }
  }

  lemma RenderTextPart(t: string)
    ensures Render(PartJson(TextPart(t))) == "{\"type\":\"text\",\"text\":\"" + t + "\"}"
  {
    var m1, m2 := Member("type", JStr("text")), Member("text", JStr(t));
    calc {
      Render(PartJson(TextPart(t)));
      { RenderObjectOfTwo(m1, m2); }
      "{" + ("\"" + "type" + "\":" + ("\"" + "text" + "\"")) + "," + ("\"" + "text" + "\":" + ("\"" + t + "\"")) + "}";
      ("{" + "\"" + "type" + "\":" + "\"" + "text" + "\"" + "," + "\"" + "text" + "\":" + "\"") + t + ("\"" + "}");
      { TextPartLiteral(); QuoteBraceLiteral(); }
      "{\"type\":\"text\",\"text\":\"" + t + "\"}";
    }
  }

  lemma RenderImagePart(u: string)
    ensures Render(PartJson(ImageUrl(u))) == "{\"type\":\"image_url\"," + "\"image_url\":{\"url\":\"" + u + "\"}}"
  {
    var inner := [Member("url", JStr(u))];
    var m1, m2 := Member("type", JStr("image_url")), Member("image_url", JObj(inner));
    var q, c := "\"", "\":";
    assert Render(JObj(inner)) == "{" + (q + "url" + c + (q + u + q)) + "}" by {
      assert RenderMembers(inner) == MemberText(inner[0]);
    }
    calc {
      Render(PartJson(ImageUrl(u)));
      { RenderObjectOfTwo(m1, m2); }
      "{" + (q + "type" + c + (q + "image_url" + q)) + "," + (q + "image_url" + c + ("{" + (q + "url" + c + (q + u + q)) + "}")) + "}";
      { RegroupImagePart("{", q, "type", c, "image_url", ",", "url", u, "}"); }
      ("{" + q + "type" + c + q + "image_url" + q + ",") + (q + "image_url" + c + "{" + q + "url" + c + q) + u + (q + "}" + "}");
      { ImageTypeLiteral(); ImageUrlKeyLiteral(); QuoteBracesLiteral(); }
      "{\"type\":\"image_url\"," + "\"image_url\":{\"url\":\"" + u + "\"}}";
    }
  }

  lemma RenderParts(ps: seq<Part>)
    requires 1 <= |ps| <= 2
    ensures |ps| == 1 ==> Render(ContentJson(Parts(ps))) == "[" + Render(PartJson(ps[0])) + "]"
    ensures |ps| == 2 ==> Render(ContentJson(Parts(ps))) == "[" + Render(PartJson(ps[0])) + "," + Render(PartJson(ps[1])) + "]"
  {
    if |ps| == 2 {
      assert ps[1..][1..] == [];
      assert PartsJson(ps) == [PartJson(ps[0]), PartJson(ps[1])];
      RenderArrayOfTwo(PartJson(ps[0]), PartJson(ps[1]));
    } else {
      assert PartsJson(ps) == [PartJson(ps[0])];
    }
  }

  /** The user content of `buildPayload`'s request: the optional image entry and comma, then the text entry. */
  lemma TextRequestContent(inputText: string, modelId: string, systemPrompt: string, temperature: string,
                           base64Image: string, imageFormat: string)
    ensures var c := Render(ContentJson(TextRequest(inputText, modelId, systemPrompt, temperature, base64Image, imageFormat).user));
      && (HasImage(base64Image) ==>
            c == "[" + (Render(PartJson(ImageUrl(DataUri(imageFormat, base64Image)))) + "," + Render(PartJson(TextPart(inputText)))) + "]")
      && (!HasImage(base64Image) ==> c == "[" + ([] + Render(PartJson(TextPart(inputText)))) + "]")
  {
    var r := TextRequest(inputText, modelId, systemPrompt, temperature, base64Image, imageFormat);
    RenderParts(r.user.parts);
    if !HasImage(base64Image) {
      assert [] + Render(PartJson(TextPart(inputText))) == Render(PartJson(TextPart(inputText)));
    }
  }

  /** The builders' opening text (model and system message) followed by the user role is the request prefix. */
  lemma BuilderOpening(modelId: string, systemPrompt: string)
    ensures "{" + ("\"model\":\"" + modelId + "\",") + "\"messages\":[" + ("{\"role\":\"system\",\"content\":\"" + systemPrompt + "\"},")
            + "{\"role\":\"user\",\"content\":"
         == RequestPrefix(modelId, systemPrompt)
  {
    var a, b, c, d := "\"model\":\"", "\",", "\"messages\":[", "{\"role\":\"system\",\"content\":\"";
    var e, f := "\"},", "{\"role\":\"user\",\"content\":";
    calc {
      "{" + (a + modelId + b) + c + (d + systemPrompt + e) + f;
      { RegroupOpening("{", a, modelId, b, c, d, systemPrompt, e, f); }
      ("{" + a) + modelId + b + c + d + systemPrompt + e + f;
      { ModelLiteral(); }
      RequestPrefix(modelId, systemPrompt);
    }
  }

  /** `buildPayload`'s image entry is the rendered image part and a comma. */
  lemma BuilderImageEntry(imageFormat: string, base64Image: string)
    ensures "{\"type\":\"image_url\"," + ("\"image_url\":{\"url\":\"data:image/" + imageFormat + ";base64," + base64Image + "\"}},")
         == Render(PartJson(ImageUrl(DataUri(imageFormat, base64Image)))) + ","
  {
    var a, k := "{\"type\":\"image_url\",", "\"image_url\":{\"url\":\"";
    var c := ";base64,";
    RenderImagePart(DataUri(imageFormat, base64Image));
    calc {
      a + ("\"image_url\":{\"url\":\"data:image/" + imageFormat + c + base64Image + "\"}},");
      { DataUriKeyLiteral(); EntryCloseLiteral(); }
      a + ((k + "data:image/") + imageFormat + c + base64Image + ("\"}}" + ","));
      a + k + ("data:image/" + imageFormat + c + base64Image) + "\"}}" + ",";
    }
  }

  /** The user message of `getGPTAnswer_urlimg` with an image URL: an array of image and text parts. */
  lemma UrlUserArray(imageUrl: string, inputText: string)
    ensures "{\"role\":\"user\",\"content\":[" + ("{\"type\":\"image_url\",\"image_url\":{\"url\":\"" + imageUrl + "\"}},")
            + ("{\"type\":\"text\",\"text\":\"" + inputText + "\"}") + "]}"
         == "{\"role\":\"user\",\"content\":" + Render(ContentJson(Parts([ImageUrl(imageUrl), TextPart(inputText)]))) + "}"
  {
    var u := "{\"role\":\"user\",\"content\":";
    var a, k := "{\"type\":\"image_url\",", "\"image_url\":{\"url\":\"";
    var txt := "{\"type\":\"text\",\"text\":\"" + inputText + "\"}";
    RenderImagePart(imageUrl);
    RenderTextPart(inputText);
    RenderParts([ImageUrl(imageUrl), TextPart(inputText)]);
    calc {
      "{\"role\":\"user\",\"content\":[" + ("{\"type\":\"image_url\",\"image_url\":{\"url\":\"" + imageUrl + "\"}},") + txt + "]}";
      { UserArrayOpenLiteral(); ImageEntryLiteral(); EntryCloseLiteral(); ArrayCloseLiteral(); }
      (u + "[") + ((a + k) + imageUrl + ("\"}}" + ",")) + txt + ("]" + "}");
      u + ("[" + (a + k + imageUrl + "\"}}") + "," + txt + "]") + "}";
    }
  }

  /** The user message of `getGPTAnswer_urlimg` without an image URL: a plain string. */
  lemma UrlUserPlain(inputText: string)
    ensures "{\"role\":\"user\",\"content\":\"" + inputText + "\"}"
         == "{\"role\":\"user\",\"content\":" + Render(ContentJson(Plain(inputText))) + "}"
  {
    var u := "{\"role\":\"user\",\"content\":";
    calc {
      "{\"role\":\"user\",\"content\":\"" + inputText + "\"}";
      { UserStringOpenLiteral(); QuoteBraceLiteral(); }
      (u + "\"") + inputText + ("\"" + "}");
      u + ("\"" + inputText + "\"") + "}";
    }
  }

  // Solver plumbing. Regrouping of concatenations, and joins of string
  // literals one per lemma: the solver's cost grows quickly with the
  // length of the literals compared, so each join is stated apart.

  lemma RegroupRequest(o: string, a: string, m: string, q: string, k: string, b1: string, b2: string, p: string,
                       b3: string, b4: string, c: string, e: string, z: string, t1: string, t: string)
    ensures o + (a + m + q) + k + (b1 + b2 + p + b3 + b4 + c + e + z) + k + (t1 + t) + e
         == (o + a) + m + (q + k) + b1 + b2 + p + b3 + b4 + c + e + (z + k) + t1 + t + e
  {
  }

  lemma RegroupMessages(k: string, o: string, s1: string, p: string, s2: string, sep: string, u1: string, c: string,
                        e: string, z: string)
    ensures k + (o + (s1 + p + s2) + sep + (u1 + c + e) + z) == (k + o) + s1 + p + (s2 + sep) + u1 + c + e + z
  {
  }

  lemma RegroupImagePart(o: string, q: string, t: string, c: string, i: string, k: string, l: string, u: string, z: string)
    ensures o + (q + t + c + (q + i + q)) + k + (q + i + c + (o + (q + l + c + (q + u + q)) + z)) + z
         == (o + q + t + c + q + i + q + k) + (q + i + c + o + q + l + c + q) + u + (q + z + z)
  {
  }

  lemma RegroupOpening(o: string, a: string, m: string, b: string, c: string, d: string, p: string, e: string, f: string)
    ensures o + (a + m + b) + c + (d + p + e) + f == (o + a) + m + b + c + d + p + e + f
  {
  }

  lemma AppendEntry(pre: string, open: string, entries: string, entry: string, close: string)
    ensures pre + open + entries + entry + close == pre + (open + (entries + entry) + close)
  {
  }

  /** The builders' closing text is the request suffix. */
  lemma BuilderClosing(temperature: string)
    ensures "}" + "]," + ("\"temperature\":" + temperature) + "}" == RequestSuffix(temperature)
  {
  }

  /** `getGPTAnswer_urlimg`'s text is the prefix, the user content and the suffix. */
  lemma UrlAssembly(opening: string, content: string, temperature: string)
    ensures opening + ("{\"role\":\"user\",\"content\":" + content + "}") + ("]," + ("\"temperature\":" + temperature) + "}")
         == (opening + "{\"role\":\"user\",\"content\":") + content + RequestSuffix(temperature)
  {
  }

  lemma ModelLiteral()
    ensures "{" + "\"model\":\"" == "{\"model\":\""
  {
  }

  lemma QuoteCommaLiteral()
    ensures "\"" + "," == "\","
  {
  }

  lemma BracketCommaLiteral()
    ensures "]" + "," == "],"
  {
  }

  lemma BraceCommaLiteral()
    ensures "\"}" + "," == "\"},"
  {
  }

  lemma QuoteBraceLiteral()
    ensures "\"" + "}" == "\"}"
  {
  }

  lemma QuoteBracesLiteral()
    ensures "\"" + "}" + "}" == "\"}}"
  {
  }

  lemma MessagesKeyLiteral()
    ensures "\"" + "messages" + "\":" + "[" == "\"messages\":["
  {
  }

  lemma SystemRoleLiteral()
    ensures "{" + "\"" + "role" + "\":" + "\"" + "system" + "\"" + "," == "{\"role\":\"system\","
  {
  }

  lemma UserRoleLiteral()
    ensures "{" + "\"" + "role" + "\":" + "\"" + "user" + "\"" + "," == "{\"role\":\"user\","
  {
  }

  lemma ContentKeyLiteral()
    ensures "\"" + "content" + "\":" == "\"content\":"
  {
  }

  lemma ContentStringLiteral()
    ensures "\"" + "content" + "\":" + "\"" == "\"content\":\""
  {
  }

  lemma SystemContentLiteral()
    ensures "{\"role\":\"system\"," + "\"content\":\"" == "{\"role\":\"system\",\"content\":\""
  {
  }

  lemma UserContentLiteral()
    ensures "{\"role\":\"user\"," + "\"content\":" == "{\"role\":\"user\",\"content\":"
  {
  }

  lemma UserArrayLiteral()
    ensures "{" + "\"role\":\"user\"," + "\"content\":[" == "{\"role\":\"user\",\"content\":" + "["
  {
  }

  lemma UserArrayOpenLiteral()
    ensures "{\"role\":\"user\",\"content\":[" == "{\"role\":\"user\",\"content\":" + "["
  {
  }

  lemma UserStringOpenLiteral()
    ensures "{\"role\":\"user\",\"content\":\"" == "{\"role\":\"user\",\"content\":" + "\""
  {
  }

  lemma ArrayCloseLiteral()
    ensures "]}" == "]" + "}"
  {
  }

  lemma TextPartLiteral()
    ensures "{" + "\"" + "type" + "\":" + "\"" + "text" + "\"" + "," + "\"" + "text" + "\":" + "\"" == "{\"type\":\"text\",\"text\":\""
  {
  }

  lemma ImageTypeLiteral()
    ensures "{" + "\"" + "type" + "\":" + "\"" + "image_url" + "\"" + "," == "{\"type\":\"image_url\","
  {
  }

  lemma ImageUrlKeyLiteral()
    ensures "\"" + "image_url" + "\":" + "{" + "\"" + "url" + "\":" + "\"" == "\"image_url\":{\"url\":\""
  {
  }

  lemma ImageEntryLiteral()
    ensures "{\"type\":\"image_url\",\"image_url\":{\"url\":\"" == "{\"type\":\"image_url\"," + "\"image_url\":{\"url\":\""
  {
  }

  lemma DataUriKeyLiteral()
    ensures "\"image_url\":{\"url\":\"data:image/" == "\"image_url\":{\"url\":\"" + "data:image/"
  {
  }

  lemma EntryCloseLiteral()
    ensures "\"}}," == "\"}}" + ","
  {
  }
}
