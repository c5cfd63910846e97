// orchestrator/src/server/services/llm/providers/factory.ts: the parts of a
// provider strategy shared by the chat-completions style providers: the
// request body, reading the answer text, and the validation URLs.
module ProviderFactory {
  import opened Wrappers
  import opened Json
  import opened LlmTypes
  import opened LlmHttp
  import opened ObjectPath

  /** `createProviderStrategy`'s default `getValidationUrls`: each validation path joined to the base, in order. */
  function DefaultValidationUrls(baseUrl: string, validationPaths: seq<string>): (r: seq<string>)
    ensures |r| == |validationPaths|
    ensures forall i :: 0 <= i < |r| ==> r[i] == JoinUrl(baseUrl, validationPaths[i])
  {
    if validationPaths == [] then []
    else [JoinUrl(baseUrl, validationPaths[0])] + DefaultValidationUrls(baseUrl, validationPaths[1..])
  }

  /** The strategy's `getValidationUrls`: the provider's own when it has one, otherwise the default. */
  function ValidationUrls(custom: Option<(string, Option<string>) -> seq<string>>, validationPaths: seq<string>,
                          baseUrl: string, apiKey: Option<string>): seq<string>
  {
    if custom.Some? then custom.value(baseUrl, apiKey) else DefaultValidationUrls(baseUrl, validationPaths)
  }

  /**
    * Without a provider override there is one URL per validation path; a
    * path written with one leading "/" gives the base, stripped of its
    * trailing slashes, followed by the path.
    */
  lemma ValidationUrlsSpec(validationPaths: seq<string>, baseUrl: string, apiKey: Option<string>)
    ensures var r := ValidationUrls(None, validationPaths, baseUrl, apiKey);
      |r| == |validationPaths| &&
      forall i :: 0 <= i < |r| && |validationPaths[i]| > 0 && validationPaths[i][0] == '/' ==>
        r[i] == StripTrailingSlashes(baseUrl) + validationPaths[i]
  {
  }

  /** The `response_format` each mode asks for; `none` asks for none. */
  function ResponseFormat(mode: ResponseMode, jsonSchema: JsonSchemaDefinition): Option<Json>
  {
    match mode
    case JsonSchemaMode =>
      Some(Obj([("type", Str("json_schema")),
                ("json_schema", Obj([("name", Str(jsonSchema.name)), ("strict", Bool(true)),
                                     ("schema", jsonSchema.schema)]))]))
    case JsonObjectMode => Some(Obj([("type", Str("json_object"))]))
    case TextMode => Some(Obj([("type", Str("text"))]))
    case NoneMode => None
  }

  /** Every requested format names its own type; a JSON schema is sent strict, under its own name. */
  lemma ResponseFormatSpec(mode: ResponseMode, jsonSchema: JsonSchemaDefinition)
    ensures ResponseFormat(mode, jsonSchema).None? <==> mode == NoneMode
    ensures mode == JsonSchemaMode ==>
      var f := ResponseFormat(mode, jsonSchema).value;
      Field(f, "type") == Str("json_schema") &&
      Field(Field(f, "json_schema"), "strict") == Bool(true) &&
      Field(Field(f, "json_schema"), "name") == Str(jsonSchema.name) &&
      Field(Field(f, "json_schema"), "schema") == jsonSchema.schema
    ensures mode == JsonObjectMode ==> Field(ResponseFormat(mode, jsonSchema).value, "type") == Str("json_object")
    ensures mode == TextMode ==> Field(ResponseFormat(mode, jsonSchema).value, "type") == Str("text")
  {
    if mode == JsonSchemaMode {
      var inner := [("name", Str(jsonSchema.name)), ("strict", Bool(true)), ("schema", jsonSchema.schema)];
      assert "schema"[1] != "strict"[1] && "schema"[0] != "name"[0] && "strict"[0] != "name"[0];
      assert Get(inner, "schema") == Some(jsonSchema.schema);
      assert Get(inner, "strict") == Some(Bool(true));
      assert Get(inner, "name") == Get(inner[..2], "name") == Get(inner[..1], "name") == Some(Str(jsonSchema.name));
      assert "json_schema"[0] != "type"[0];
      var outer := [("type", Str("json_schema")), ("json_schema", Obj(inner))];
      assert Get(outer, "json_schema") == Some(Obj(inner));
      assert Get(outer, "type") == Some(Str("json_schema"));
    }
  }

  /** `{model, messages, stream: false}`, before the extras are spread over it. */
  function BaseBody(model: string, messages: seq<Message>): seq<(string, Json)>
  {
    [("model", Str(model)), ("messages", MessagesJson(messages)), ("stream", Bool(false))]
  }

  /**
    * `buildChatCompletionsBody`: model, messages and `stream: false` come
    * first and the extras are spread after them, so an extra overrides any
    * of them; then `response_format` is set by mode, except in `none` mode,
    * where whatever the extras put there stays.
    */
  method BuildChatCompletionsBody(mode: ResponseMode, model: string, messages: seq<Message>,
                                  jsonSchema: JsonSchemaDefinition, extra: Option<seq<(string, Json)>>)
    returns (body: Json)
    ensures body.Obj?
    ensures |KeysOf(body.fields)| >= 3 && KeysOf(body.fields)[..3] == ["model", "messages", "stream"]
    ensures forall k :: k != "response_format" ==>
      Get(body.fields, k) ==
        if Get(extra.GetOr([]), k).Some? then Get(extra.GetOr([]), k) else Get(BaseBody(model, messages), k)
    ensures mode != NoneMode ==> Get(body.fields, "response_format") == ResponseFormat(mode, jsonSchema)
    ensures mode == NoneMode ==> Get(body.fields, "response_format") == Get(extra.GetOr([]), "response_format")
  {
    var base := BaseBody(model, messages);
    var fields := Merge(base, extra.GetOr([]));
    MergeKeepsKeys(base, extra.GetOr([]));
    assert KeysOf(base) == ["model", "messages", "stream"];
    forall k ensures Get(fields, k) ==
      if Get(extra.GetOr([]), k).Some? then Get(extra.GetOr([]), k) else Get(base, k)
    {
      MergeGet(base, extra.GetOr([]), k);
    }
    var format := ResponseFormat(mode, jsonSchema);
    if format.Some? {
      fields := Put(fields, "response_format", format.value);
    }
    body := Obj(fields);
  }

  /** The path of the answer in a chat-completions response. */
  const CONTENT_PATH: seq<Segment> := [Key("choices"), Index(0), Key("message"), Key("content")]

  /** `extractChatCompletionsText`: the content when it is a string. */
  function ExtractChatCompletionsText(response: Json): Option<string>
  {
    var content := NestedValue(response, CONTENT_PATH);
    if content.Str? then Some(content.s) else None
  }

  /**
    * There is text exactly when `choices` is a non-empty array whose first
    * entry's `message.content` is a string, and the text is that string.
    */
  lemma ExtractChatCompletionsTextSpec(response: Json)
    ensures var choices := Field(response, "choices");
      var content := if choices.Arr? && |choices.items| > 0
                     then Field(Field(choices.items[0], "message"), "content") else Undefined;
      ExtractChatCompletionsText(response) == if content.Str? then Some(content.s) else None
  {
    var choices := Field(response, "choices");
    assert NestedValue(response, CONTENT_PATH) ==
      NestedValue(Step(Step(Step(response, Key("choices")), Index(0)), Key("message")), [Key("content")]);
    if !(choices.Arr? && |choices.items| > 0) {
      UndefinedAbsorbs([Key("message"), Key("content")]);
    } else {
      var first := choices.items[0];
      var message := Step(first, Key("message"));
      if first.Arr? {
        UndefinedAbsorbs([Key("content")]);
      }
      if message.Arr? {
        assert Field(message, "content") == Undefined;
      }
    }
  }

  /** A response built with a string content reads back as that string. */
  lemma ExtractChatCompletionsTextRoundTrip(text: string, others: seq<Json>)
    ensures ExtractChatCompletionsText(Obj([("choices", Arr([Obj([("message", Obj([("content", Str(text))]))])] + others))]))
      == Some(text)
  {
    var response := Obj([("choices", Arr([Obj([("message", Obj([("content", Str(text))]))])] + others))]);
    ExtractChatCompletionsTextSpec(response);
  }
}
