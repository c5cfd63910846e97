// orchestrator/src/server/services/llm/providers/openai.ts: the OpenAI
// Responses API strategy. In `json_object` mode the API insists that the
// conversation mention JSON, so an instruction is added when none does; the
// structured-output mode picks `text.format`; the answer is `output_text`
// or else the first output text part.
module OpenAi {
  import opened Wrappers
  import opened Text
  import opened Json
  import opened LlmTypes
  import opened LlmHttp
  import opened ObjectPath

  const JSON_INSTRUCTION: Message := Message("system", "Respond with valid JSON.")

  /** Some message content mentions "json", in any letter case. */
  predicate MentionsJson(messages: seq<Message>)
  {
    exists k :: 0 <= k < |messages| && Contains(Lower(messages[k].content), "json")
  }

  /** `messages.some(...)`, scanning from the front. */
  function SomeMentionsJson(messages: seq<Message>): (r: bool)
    ensures r <==> MentionsJson(messages)
  {
    if messages == [] then false
    else if Contains(Lower(messages[0].content), "json") then true
    else
      var r := SomeMentionsJson(messages[1..]);
      assert MentionsJson(messages[1..]) ==> MentionsJson(messages) by {
        if MentionsJson(messages[1..]) {
          var k :| 0 <= k < |messages[1..]| && Contains(Lower(messages[1..][k].content), "json");
          assert messages[k + 1] == messages[1..][k];
        }
      }
      r
  }

  /** `ensureJsonInstructionIfNeeded`. */
  function EnsureJsonInstructionIfNeeded(messages: seq<Message>, mode: ResponseMode): seq<Message>
  {
    if mode != JsonObjectMode then messages
    else if SomeMentionsJson(messages) then messages
    else [JSON_INSTRUCTION] + messages
  }

  /**
    * Outside `json_object` mode the messages are sent as they are; in it,
    * the JSON instruction is put in front exactly when no message mentions
    * JSON, and nothing else changes.
    */
  lemma EnsureJsonInstructionSpec(messages: seq<Message>, mode: ResponseMode)
    ensures mode != JsonObjectMode ==> EnsureJsonInstructionIfNeeded(messages, mode) == messages
    ensures mode == JsonObjectMode && MentionsJson(messages) ==> EnsureJsonInstructionIfNeeded(messages, mode) == messages
    ensures mode == JsonObjectMode && !MentionsJson(messages) ==>
      EnsureJsonInstructionIfNeeded(messages, mode) == [Message("system", "Respond with valid JSON.")] + messages
  {
  }

  /** The instruction itself mentions JSON. */
  lemma InstructionMentionsJson()
    ensures Contains(Lower(JSON_INSTRUCTION.content), "json")
  {
    var lowered := Lower(JSON_INSTRUCTION.content);
    assert JSON_INSTRUCTION.content[19] == 'J' && JSON_INSTRUCTION.content[20] == 'S';
    assert JSON_INSTRUCTION.content[21] == 'O' && JSON_INSTRUCTION.content[22] == 'N';
    assert lowered[19] == 'j' && lowered[20] == 's' && lowered[21] == 'o' && lowered[22] == 'n';
    assert lowered[19..23] == "json";
    ContainsAt(lowered, "json", 19);
  }

  /** In `json_object` mode the result always mentions JSON, so adding the instruction twice never happens. */
  lemma EnsureJsonInstructionIdempotent(messages: seq<Message>)
    ensures MentionsJson(EnsureJsonInstructionIfNeeded(messages, JsonObjectMode))
    ensures var once := EnsureJsonInstructionIfNeeded(messages, JsonObjectMode);
      EnsureJsonInstructionIfNeeded(once, JsonObjectMode) == once
  {
    var once := EnsureJsonInstructionIfNeeded(messages, JsonObjectMode);
    if !MentionsJson(messages) {
      InstructionMentionsJson();
      assert once[0] == JSON_INSTRUCTION;
    }
  }

  /** The `text` setting each mode asks for; text and none ask for none. */
  function TextSetting(mode: ResponseMode, jsonSchema: JsonSchemaDefinition): Option<Json>
  {
    match mode
    case JsonSchemaMode =>
      Some(Obj([("format", Obj([("type", Str("json_schema")), ("name", Str(jsonSchema.name)),
                                ("strict", Bool(true)), ("schema", jsonSchema.schema)]))]))
    case JsonObjectMode => Some(Obj([("format", Obj([("type", Str("json_object"))]))]))
    case _ => None
  }

  /** The schema mode sends a strict format under the schema's name; the object mode only names its type. */
  lemma TextSettingSpec(mode: ResponseMode, jsonSchema: JsonSchemaDefinition)
    ensures TextSetting(mode, jsonSchema).Some? <==> mode == JsonSchemaMode || mode == JsonObjectMode
    ensures mode == JsonSchemaMode ==>
      var format := Field(TextSetting(mode, jsonSchema).value, "format");
      Field(format, "type") == Str("json_schema") && Field(format, "strict") == Bool(true) &&
      Field(format, "name") == Str(jsonSchema.name) && Field(format, "schema") == jsonSchema.schema
    ensures mode == JsonObjectMode ==>
      Field(Field(TextSetting(mode, jsonSchema).value, "format"), "type") == Str("json_object")
  {
    if mode == JsonSchemaMode {
      var fields := [("type", Str("json_schema")), ("name", Str(jsonSchema.name)),
                     ("strict", Bool(true)), ("schema", jsonSchema.schema)];
      assert "schema"[1] != "strict"[1] && "schema"[0] != "name"[0] && "schema"[0] != "type"[0];
      assert "strict"[0] != "name"[0] && "strict"[0] != "type"[0] && "name"[0] != "type"[0];
      assert Get(fields, "strict") == Get(fields[..3], "strict");
      assert Get(fields, "name") == Get(fields[..3], "name") == Get(fields[..2], "name");
      assert Get(fields, "type") == Get(fields[..3], "type") == Get(fields[..2], "type") == Get(fields[..1], "type");
    }
  }

  /** The body after `text` is set or left out, for any value of it. */
  function FilledBody(model: string, input: seq<Message>, text: Option<Json>): seq<(string, Json)>
  {
    var body := [("model", Str(model)), ("input", MessagesJson(input))];
    if text.Some? then Put(body, "text", text.value) else body
  }

  /** Model and input come first and keep their values; `text` is there exactly when it has a value. */
  lemma FilledBodySpec(model: string, input: seq<Message>, text: Option<Json>)
    ensures var body := FilledBody(model, input, text);
      Get(body, "model") == Some(Str(model)) && Get(body, "input") == Some(MessagesJson(input)) &&
      Get(body, "text") == text && KeysOf(body)[..2] == ["model", "input"]
  {
    var body := [("model", Str(model)), ("input", MessagesJson(input))];
    assert "input"[0] != "model"[0] && "text"[0] != "model"[0] && "text"[0] != "input"[0];
    assert Get(body, "model") == Get(body[..1], "model");
    assert KeysOf(body) == ["model", "input"];
  }

  /** The responses endpoint under the base. */
  lemma ResponsesUrl(baseUrl: string)
    ensures JoinUrl(baseUrl, "/v1/responses") == StripTrailingSlashes(baseUrl) + "/v1/responses"
  {
    JoinUrlSpec(baseUrl, "v1/responses");
    assert "/" + "v1/responses" == "/v1/responses";
  }

  /** A built request. */
  datatype Request = Request(url: string, headers: map<string, string>, body: Json)

  /**
    * `buildRequest`: the body carries the model, the messages (with the JSON
    * instruction when needed) as `input`, and `text` for the structured
    * modes; the request goes to `/v1/responses` with the bearer headers.
    */
  method BuildRequest(mode: ResponseMode, baseUrl: string, apiKey: Option<string>, model: string,
                      messages: seq<Message>, jsonSchema: JsonSchemaDefinition)
    returns (request: Request)
    ensures request.url == StripTrailingSlashes(baseUrl) + "/v1/responses"
    ensures "Authorization" in request.headers <==> apiKey.Some? && apiKey.value != ""
    ensures "Content-Type" in request.headers && request.headers["Content-Type"] == "application/json"
    ensures request.body.Obj?
    ensures Get(request.body.fields, "model") == Some(Str(model))
    ensures Get(request.body.fields, "input") == Some(MessagesJson(EnsureJsonInstructionIfNeeded(messages, mode)))
    ensures Get(request.body.fields, "text") == TextSetting(mode, jsonSchema)
    ensures KeysOf(request.body.fields)[..2] == ["model", "input"]
  {
    var input := EnsureJsonInstructionIfNeeded(messages, mode);
    var body := [("model", Str(model)), ("input", MessagesJson(input))];
    var text := TextSetting(mode, jsonSchema);
    if text.Some? {
      body := Put(body, "text", text.value);
    }
    FilledBodySpec(model, input, text);
    var headers := BuildHeaders(apiKey, "openai");
    assert "openai" != "openrouter";
    ResponsesUrl(baseUrl);
    request := Request(JoinUrl(baseUrl, "/v1/responses"), headers, Obj(body));
  }

  /** An output text part: type "output_text" and a string text. */
  predicate IsTextPart(part: Json)
  {
    NestedValue(part, [Key("type")]) == Str("output_text") && NestedValue(part, [Key("text")]).Str?
  }

  /** The text of the first output text part. */
  function FirstTextPart(parts: seq<Json>): Option<string>
  {
    if parts == [] then None
    else if IsTextPart(parts[0]) then Some(NestedValue(parts[0], [Key("text")]).s)
    else FirstTextPart(parts[1..])
  }

  /** The first output text part over the output items, skipping items whose content is not an array. */
  function FirstOutputText(items: seq<Json>): Option<string>
  {
    if items == [] then None
    else
      var content := NestedValue(items[0], [Key("content")]);
      var found := if content.Arr? then FirstTextPart(content.items) else None;
      if found.Some? then found else FirstOutputText(items[1..])
  }

  /** What `extractText` returns. */
  function OutputText(response: Json): Option<string>
  {
    var direct := NestedValue(response, [Key("output_text")]);
    if direct.Str? && Trim(direct.s) != "" then Some(direct.s)
    else
      var output := NestedValue(response, [Key("output")]);
      if !output.Arr? then None else FirstOutputText(output.items)
  }

  /** `extractText`: the direct text when it is not blank, otherwise the nested loops over output and content. */
  method ExtractText(response: Json) returns (r: Option<string>)
    ensures r == OutputText(response)
  {
    var direct := NestedValue(response, [Key("output_text")]);
    if direct.Str? && Trim(direct.s) != "" {
      return Some(direct.s);
    }
    var output := NestedValue(response, [Key("output")]);
    if !output.Arr? {
      return None;
    }
    var items := output.items;
    for i := 0 to |items|
      invariant FirstOutputText(items) == FirstOutputText(items[i..])
    {
      OutputItemStep(items, i);
      var content := NestedValue(items[i], [Key("content")]);
      if !content.Arr? {
        continue;
      }
      var found := FindTextPart(content.items);
      if found.Some? {
        return found;
      }
    }
    return None;
  }

  /** The inner loop of `extractText` over one item's content parts. */
  method FindTextPart(parts: seq<Json>) returns (r: Option<string>)
    ensures r == FirstTextPart(parts)
  {
    for j := 0 to |parts|
      invariant FirstTextPart(parts) == FirstTextPart(parts[j..])
    {
      assert parts[j..][1..] == parts[j + 1..];
      var partType := NestedValue(parts[j], [Key("type")]);
      var text := NestedValue(parts[j], [Key("text")]);
      if partType == Str("output_text") && text.Str? {
        return Some(text.s);
      }
    }
    return None;
  }

  /** One output item: its first text part if it has one, else the items after it. */
  lemma OutputItemStep(items: seq<Json>, i: nat)
    requires i < |items|
    ensures var content := NestedValue(items[i], [Key("content")]);
      var found := if content.Arr? then FirstTextPart(content.items) else None;
      FirstOutputText(items[i..]) == if found.Some? then found else FirstOutputText(items[i + 1..])
  {
    assert items[i..][1..] == items[i + 1..];
  }

  /**
    * The first text part is found exactly when some part is an output text
    * part, and it is the text of the first one.
    */
  lemma FirstTextPartSpec(parts: seq<Json>)
    ensures FirstTextPart(parts).None? <==> forall j :: 0 <= j < |parts| ==> !IsTextPart(parts[j])
    ensures FirstTextPart(parts).Some? ==>
      exists j :: 0 <= j < |parts| && IsTextPart(parts[j]) && FirstTextPart(parts) == Some(NestedValue(parts[j], [Key("text")]).s) &&
        forall i :: 0 <= i < j ==> !IsTextPart(parts[i])
  {
    FirstTextPartNone(parts);
    if FirstTextPart(parts).Some? {
      var j := FirstTextPartIndex(parts);
    }
  }

  lemma {:induction false} FirstTextPartNone(parts: seq<Json>)
    ensures FirstTextPart(parts).None? <==> forall j :: 0 <= j < |parts| ==> !IsTextPart(parts[j])
    decreases |parts|
  {
    if parts != [] && !IsTextPart(parts[0]) {
      FirstTextPartNone(parts[1..]);
      forall j | 0 <= j < |parts| - 1 ensures parts[1..][j] == parts[j + 1] { }
    }
  }

  /** The index of the first text part, when there is one. */
  lemma {:induction false} FirstTextPartIndex(parts: seq<Json>) returns (j: nat)
    requires FirstTextPart(parts).Some?
    ensures j < |parts| && IsTextPart(parts[j]) && FirstTextPart(parts) == Some(NestedValue(parts[j], [Key("text")]).s)
    ensures forall i :: 0 <= i < j ==> !IsTextPart(parts[i])
    decreases |parts|
  {
    if IsTextPart(parts[0]) {
      j := 0;
    } else {
      var k := FirstTextPartIndex(parts[1..]);
      j := k + 1;
      assert parts[j] == parts[1..][k];
      forall i | 0 <= i < j ensures !IsTextPart(parts[i]) {
        if i > 0 {
          assert parts[i] == parts[1..][i - 1];
        }
      }
    }
  }

  /** A non-blank `output_text` wins over everything in `output`. */
  lemma DirectTextWins(direct: string, output: Json)
    requires Trim(direct) != ""
    ensures OutputText(Obj([("output_text", Str(direct)), ("output", output)])) == Some(direct)
  {
    assert |"output_text"| != |"output"|;
    KeyOfPair("output_text", Str(direct), "output", output);
  }

  /** The first key of a two-field object reads back its value. */
  lemma KeyOfPair(k1: string, v1: Json, k2: string, v2: Json)
    requires k1 != k2
    ensures NestedValue(Obj([(k1, v1), (k2, v2)]), [Key(k1)]) == v1
  {
    var fields := [(k1, v1), (k2, v2)];
    assert Get(fields, k1) == Get(fields[..1], k1);
    assert NestedValue(Obj(fields), [Key(k1)]) == NestedValue(Step(Obj(fields), Key(k1)), []);
  }

  /** A part typed "output_text" with a string text is a text part. */
  lemma TextPartOf(text: string)
    ensures IsTextPart(Obj([("type", Str("output_text")), ("text", Str(text))]))
  {
    var fields := [("type", Str("output_text")), ("text", Str(text))];
    assert "text"[1] != "type"[1];
    assert Get(fields, "type") == Get(fields[..1], "type");
  }

  /** Without `output_text`, a response with one output text part reads back as its text. */
  lemma OutputPartRoundTrip(text: string)
    ensures OutputText(Obj([("output", Arr([Obj([("content", Arr([Obj([("type", Str("output_text")),
                                                                         ("text", Str(text))])]))])]))]))
      == Some(text)
  {
    var part := Obj([("type", Str("output_text")), ("text", Str(text))]);
    var item := Obj([("content", Arr([part]))]);
    var response := Obj([("output", Arr([item]))]);
    TextPartOf(text);
    assert FirstTextPart([part]) == Some(text);
    assert NestedValue(item, [Key("content")]) == Arr([part]);
    assert FirstOutputText([item]) == Some(text);
    assert |"output"| != |"output_text"|;
    assert NestedValue(response, [Key("output_text")]) == Undefined;
    assert NestedValue(response, [Key("output")]) == Arr([item]);
  }
}
