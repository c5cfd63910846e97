// orchestrator/src/server/services/llm/providers/gemini.ts: the Gemini
// strategy. Chat messages become Gemini `contents` with the system messages
// pulled out into one `systemInstruction`; the structured-output mode picks
// the `generationConfig`; the answer is the text of the first candidate.
// `encodeURIComponent` is a parameter.
module Gemini {
  import opened Wrappers
  import opened Text
  import opened Seqs
  import opened Json
  import opened LlmTypes
  import opened LlmHttp
  import opened ObjectPath

  /** A `{text}` part. */
  function TextPart(text: string): Json
  {
    Obj([("text", Str(text))])
  }

  predicate NotSystem(m: Message)
  {
    m.role != "system"
  }

  /** The contents of the system messages, in order. */
  function SystemTexts(messages: seq<Message>): seq<string>
    decreases |messages|
  {
    if messages == [] then []
    else
      var last := messages[|messages| - 1];
      SystemTexts(messages[..|messages| - 1]) + (if last.role == "system" then [last.content] else [])
  }

  /** Gemini's role for a chat role: "model" for the assistant, "user" for everyone else. */
  function GeminiRole(role: string): string
  {
    if role == "assistant" then "model" else "user"
  }

  /** One conversation message as a Gemini content entry. */
  function ContentJson(m: Message): Json
  {
    Obj([("role", Str(GeminiRole(m.role))), ("parts", Arr([TextPart(m.content)]))])
  }

  /** The Gemini contents of a conversation: its non-system messages, in order. */
  function Contents(messages: seq<Message>): seq<Json>
  {
    var kept := Filter(messages, NotSystem);
    seq(|kept|, j requires 0 <= j < |kept| => ContentJson(kept[j]))
  }

  /** The system instruction: all system texts joined by newlines in one part, or null when there are none. */
  function SystemInstruction(messages: seq<Message>): Json
  {
    var parts := SystemTexts(messages);
    if |parts| > 0 then Obj([("parts", Arr([TextPart(Join(parts, "\n"))]))]) else Null
  }

  /** `toGeminiContents`: the filter pushes each system message aside and the rest are mapped. */
  method ToGeminiContents(messages: seq<Message>) returns (systemInstruction: Json, contents: seq<Json>)
    ensures systemInstruction == SystemInstruction(messages)
    ensures contents == Contents(messages)
  {
    var systemParts: seq<string> := [];
    var kept: seq<Message> := [];
    for i := 0 to |messages|
      invariant systemParts == SystemTexts(messages[..i])
      invariant kept == Filter(messages[..i], NotSystem)
    {
      var message := messages[i];
      assert messages[..i + 1] == messages[..i] + [message];
      assert messages[..i + 1][..i] == messages[..i];
      FilterAppend(messages[..i], [message], NotSystem);
      if message.role == "system" {
        systemParts := systemParts + [message.content];
      } else {
        kept := kept + [message];
      }
    }
    assert messages[..|messages|] == messages;
    contents := seq(|kept|, j requires 0 <= j < |kept| => ContentJson(kept[j]));
    systemInstruction := if |systemParts| > 0 then Obj([("parts", Arr([TextPart(Join(systemParts, "\n"))]))]) else Null;
  }

  /**
    * Every message lands in exactly one place: the system ones in the
    * instruction, the others in the contents. The instruction is null
    * exactly when no message has the system role.
    */
  lemma {:induction false} SplitMessages(messages: seq<Message>)
    ensures |SystemTexts(messages)| + |Contents(messages)| == |messages|
    ensures SystemInstruction(messages) == Null <==> forall k :: 0 <= k < |messages| ==> messages[k].role != "system"
    decreases |messages|
  {
    if messages != [] {
      var init := messages[..|messages| - 1];
      var last := messages[|messages| - 1];
      SplitMessages(init);
      assert messages == init + [last];
      FilterAppend(init, [last], NotSystem);
      if last.role == "system" {
        assert messages[|messages| - 1].role == "system";
      } else {
        assert forall k :: 0 <= k < |init| ==> init[k] == messages[k];
      }
    }
  }

  /** A conversation without system messages keeps every message, in order, with its role mapped. */
  lemma ContentsOfConversation(messages: seq<Message>)
    requires forall k :: 0 <= k < |messages| ==> messages[k].role != "system"
    ensures |Contents(messages)| == |messages|
    ensures forall k :: 0 <= k < |messages| ==>
      Contents(messages)[k] == Obj([("role", Str(if messages[k].role == "assistant" then "model" else "user")),
                                     ("parts", Arr([TextPart(messages[k].content)]))])
  {
    FilterAll(messages, NotSystem);
  }

  lemma ContentJsonRole(m: Message)
    ensures Field(ContentJson(m), "role") == Str(GeminiRole(m.role))
  {
    var fields := [("role", Str(GeminiRole(m.role))), ("parts", Arr([TextPart(m.content)]))];
    assert "parts"[0] != "role"[0];
    assert Get(fields, "role") == Get(fields[..1], "role");
  }

  /** Contents only ever speak as "user" or "model". */
  lemma ContentRoles(messages: seq<Message>)
    ensures forall c :: c in Contents(messages) ==>
      Field(c, "role") == Str("user") || Field(c, "role") == Str("model")
  {
    forall c | c in Contents(messages)
      ensures Field(c, "role") == Str("user") || Field(c, "role") == Str("model")
    {
      var kept := Filter(messages, NotSystem);
      var j :| 0 <= j < |kept| && c == ContentJson(kept[j]);
      ContentJsonRole(kept[j]);
    }
  }

  /** The `generationConfig` each mode asks for; text and none ask for none. */
  function GenerationConfig(mode: ResponseMode, jsonSchema: JsonSchemaDefinition): Option<Json>
  {
    match mode
    case JsonSchemaMode =>
      Some(Obj([("responseMimeType", Str("application/json")), ("responseSchema", jsonSchema.schema)]))
    case JsonObjectMode => Some(Obj([("responseMimeType", Str("application/json"))]))
    case _ => None
  }

  /** Both JSON modes ask for the JSON MIME type; only the schema mode sends the schema. */
  lemma GenerationConfigSpec(mode: ResponseMode, jsonSchema: JsonSchemaDefinition)
    ensures GenerationConfig(mode, jsonSchema).Some? <==> mode == JsonSchemaMode || mode == JsonObjectMode
    ensures GenerationConfig(mode, jsonSchema).Some? ==>
      Field(GenerationConfig(mode, jsonSchema).value, "responseMimeType") == Str("application/json")
    ensures GenerationConfig(mode, jsonSchema).Some? ==>
      GenerationConfig(mode, jsonSchema).value.Obj? &&
      (Get(GenerationConfig(mode, jsonSchema).value.fields, "responseSchema").Some? <==> mode == JsonSchemaMode)
    ensures mode == JsonSchemaMode ==>
      Field(GenerationConfig(mode, jsonSchema).value, "responseSchema") == jsonSchema.schema
  {
    assert "responseSchema"[8] != "responseMimeType"[8];
    if mode == JsonSchemaMode {
      var fields := [("responseMimeType", Str("application/json")), ("responseSchema", jsonSchema.schema)];
      assert Get(fields, "responseMimeType") == Get(fields[..1], "responseMimeType");
    }
  }

  /** The generate URL: the model path under the base, then the key as a query parameter ("" without a key). */
  function GenerateUrl(baseUrl: string, model: string, apiKey: Option<string>, encode: string -> string): string
  {
    var url := JoinUrl(baseUrl, "/v1beta/models/" + encode(model) + ":generateContent");
    AddQueryParam(url, "key", apiKey.GetOr(""), encode)
  }

  /** The generate URL is the joined model path followed by a `key` parameter. */
  lemma GenerateUrlSpec(baseUrl: string, model: string, apiKey: Option<string>, encode: string -> string)
    ensures var path := StripTrailingSlashes(baseUrl) + "/v1beta/models/" + encode(model) + ":generateContent";
      var r := GenerateUrl(baseUrl, model, apiKey, encode);
      |r| > |path| && r[..|path|] == path &&
      r[|path| + 1..] == encode("key") + "=" + encode(apiKey.GetOr(""))
  {
    var path := StripTrailingSlashes(baseUrl) + "/v1beta/models/" + encode(model) + ":generateContent";
    assert JoinUrl(baseUrl, "/v1beta/models/" + encode(model) + ":generateContent") == path;
    AddQueryParamSpec(path, "key", apiKey.GetOr(""), encode);
  }

  /** Gemini's `getValidationUrls`: the models listing, with the key. */
  function ValidationUrls(baseUrl: string, apiKey: Option<string>, encode: string -> string): (r: seq<string>)
  {
    [AddQueryParam(JoinUrl(baseUrl, "/v1beta/models"), "key", apiKey.GetOr(""), encode)]
  }

  /** One URL: the listing path under the base, then the `key` parameter. */
  lemma ValidationUrlsSpec(baseUrl: string, apiKey: Option<string>, encode: string -> string)
    ensures var path := StripTrailingSlashes(baseUrl) + "/v1beta/models";
      var r := ValidationUrls(baseUrl, apiKey, encode);
      |r| == 1 && |r[0]| > |path| && r[0][..|path|] == path &&
      r[0][|path| + 1..] == encode("key") + "=" + encode(apiKey.GetOr(""))
  {
    var path := StripTrailingSlashes(baseUrl) + "/v1beta/models";
    assert JoinUrl(baseUrl, "/v1beta/models") == path;
    AddQueryParamSpec(path, "key", apiKey.GetOr(""), encode);
  }

  /** The body after its optional keys are set, for any values of them. */
  function FilledBody(contents: Json, systemInstruction: Json, config: Option<Json>): seq<(string, Json)>
  {
    var body := [("contents", contents)];
    var body := if systemInstruction != Null then Put(body, "systemInstruction", systemInstruction) else body;
    if config.Some? then Put(body, "generationConfig", config.value) else body
  }

  /** The contents are always there; each optional key is there exactly when it has a value; nothing else is. */
  lemma FilledBodySpec(contents: Json, systemInstruction: Json, config: Option<Json>)
    ensures var body := FilledBody(contents, systemInstruction, config);
      Get(body, "contents") == Some(contents) &&
      Get(body, "systemInstruction") == (if systemInstruction != Null then Some(systemInstruction) else None) &&
      Get(body, "generationConfig") == config &&
      forall k :: k != "contents" && k != "systemInstruction" && k != "generationConfig" ==> Get(body, k).None?
  {
    assert |"contents"| != |"systemInstruction"| && |"contents"| != |"generationConfig"|;
    assert |"systemInstruction"| != |"generationConfig"|;
    var b0 := [("contents", contents)];
    assert Get(b0, "contents") == Some(contents);
    var b1 := if systemInstruction != Null then Put(b0, "systemInstruction", systemInstruction) else b0;
    assert Get(b1, "contents") == Some(contents);
    assert Get(b1, "systemInstruction") == (if systemInstruction != Null then Some(systemInstruction) else None);
    assert forall k :: k != "contents" && k != "systemInstruction" ==> Get(b1, k).None?;
  }

  /** The body fields `buildRequest` fills in, in the order it sets them. */
  method BuildBody(mode: ResponseMode, messages: seq<Message>, jsonSchema: JsonSchemaDefinition)
    returns (body: seq<(string, Json)>)
    ensures Get(body, "contents") == Some(Arr(Contents(messages)))
    ensures Get(body, "systemInstruction").Some? <==> SystemInstruction(messages) != Null
    ensures SystemInstruction(messages) != Null ==> Get(body, "systemInstruction") == Some(SystemInstruction(messages))
    ensures Get(body, "generationConfig") == GenerationConfig(mode, jsonSchema)
    ensures forall k :: k != "contents" && k != "systemInstruction" && k != "generationConfig" ==> Get(body, k).None?
  {
    var systemInstruction, contents := ToGeminiContents(messages);
    body := [("contents", Arr(contents))];
    if systemInstruction != Null {
      body := Put(body, "systemInstruction", systemInstruction);
    }
    var config := GenerationConfig(mode, jsonSchema);
    if config.Some? {
      body := Put(body, "generationConfig", config.value);
    }
    assert body == FilledBody(Arr(contents), systemInstruction, config);
    FilledBodySpec(Arr(contents), systemInstruction, config);
  }

  /** A built request. */
  datatype Request = Request(url: string, headers: map<string, string>, body: Json)

  /** `buildRequest`: the body above; the key travels in the URL, never in a header. */
  method BuildRequest(mode: ResponseMode, baseUrl: string, apiKey: Option<string>, model: string,
                      messages: seq<Message>, jsonSchema: JsonSchemaDefinition, encode: string -> string)
    returns (request: Request)
    ensures request.url == GenerateUrl(baseUrl, model, apiKey, encode)
    ensures request.headers == map["Content-Type" := "application/json"]
    ensures request.body.Obj?
    ensures Get(request.body.fields, "contents") == Some(Arr(Contents(messages)))
    ensures Get(request.body.fields, "generationConfig") == GenerationConfig(mode, jsonSchema)
    ensures Get(request.body.fields, "systemInstruction").Some? <==> SystemInstruction(messages) != Null
  {
    var body := BuildBody(mode, messages, jsonSchema);
    var url := JoinUrl(baseUrl, "/v1beta/models/" + encode(model) + ":generateContent");
    var urlWithKey := AddQueryParam(url, "key", apiKey.GetOr(""), encode);
    var headers := BuildHeaders(None, "gemini");
    assert "gemini" != "openrouter";
    assert headers.Keys == {"Content-Type"};
    request := Request(urlWithKey, headers, Obj(body));
  }

  /** The `text` values of the parts that have a string one, in order. */
  function PartTexts(parts: seq<Json>): seq<string>
  {
    if parts == [] then []
    else
      var text := NestedValue(parts[0], [Key("text")]);
      (if text.Str? then [text.s] else []) + PartTexts(parts[1..])
  }

  /** The path of the parts of the first candidate. */
  const PARTS_PATH: seq<Segment> := [Key("candidates"), Index(0), Key("content"), Key("parts")]

  /** `extractText`: the string texts of the first candidate's parts, concatenated; empty means none. */
  function ExtractText(response: Json): Option<string>
  {
    var parts := NestedValue(response, PARTS_PATH);
    if !parts.Arr? then None
    else
      var text := Join(PartTexts(parts.items), "");
      if text == "" then None else Some(text)
  }

  /** A text read back is never empty. */
  lemma ExtractTextNonEmpty(response: Json)
    ensures ExtractText(response).Some? ==> ExtractText(response).value != ""
    ensures NestedValue(response, PARTS_PATH).Arr? && PartTexts(NestedValue(response, PARTS_PATH).items) == [] ==>
      ExtractText(response).None?
  {
  }

  lemma {:induction false} PartTextsOfTexts(texts: seq<string>)
    ensures PartTexts(seq(|texts|, i requires 0 <= i < |texts| => TextPart(texts[i]))) == texts
    decreases |texts|
  {
    if texts != [] {
      var parts := seq(|texts|, i requires 0 <= i < |texts| => TextPart(texts[i]));
      assert parts[1..] == seq(|texts| - 1, i requires 0 <= i < |texts| - 1 => TextPart(texts[1..][i]));
      PartTextsOfTexts(texts[1..]);
      assert texts == [texts[0]] + texts[1..];
    }
  }

  /** The parts of the first candidate of a response built around them. */
  lemma PartsOfResponse(parts: seq<Json>, others: seq<Json>)
    ensures NestedValue(Obj([("candidates", Arr([Obj([("content", Obj([("parts", Arr(parts))]))])] + others))]),
                        PARTS_PATH) == Arr(parts)
  {
    var content := Obj([("parts", Arr(parts))]);
    var candidate := Obj([("content", content)]);
    var response := Obj([("candidates", Arr([candidate] + others))]);
    calc {
      NestedValue(response, PARTS_PATH);
      NestedValue(Arr([candidate] + others), [Index(0), Key("content"), Key("parts")]);
      NestedValue(candidate, [Key("content"), Key("parts")]);
      NestedValue(content, [Key("parts")]);
      Arr(parts);
    }
  }

  /** A response whose first candidate carries text parts reads back as their concatenation, or none when that is empty. */
  lemma ExtractTextRoundTrip(texts: seq<string>, others: seq<Json>)
    ensures var parts := seq(|texts|, i requires 0 <= i < |texts| => TextPart(texts[i]));
      var response := Obj([("candidates", Arr([Obj([("content", Obj([("parts", Arr(parts))]))])] + others))]);
      ExtractText(response) == if Join(texts, "") == "" then None else Some(Join(texts, ""))
  {
    var parts := seq(|texts|, i requires 0 <= i < |texts| => TextPart(texts[i]));
    PartsOfResponse(parts, others);
    PartTextsOfTexts(texts);
  }
}
