// orchestrator/src/server/services/llm/types.ts is not part of this model;
// these are the shapes of it that the policies and providers use.
module LlmTypes {
  import opened Json

  /** How a provider is asked to shape its answer. */
  datatype ResponseMode = JsonSchemaMode | JsonObjectMode | TextMode | NoneMode

  /** A chat message. */
  datatype Message = Message(role: string, content: string)

  /** A named JSON schema for structured output. */
  datatype JsonSchemaDefinition = JsonSchemaDefinition(name: string, schema: Json)

  /** A message as the request bodies carry it: `{role, content}`. */
  function MessageJson(m: Message): Json
  {
    Obj([("role", Str(m.role)), ("content", Str(m.content))])
  }

  function MessagesJson(messages: seq<Message>): Json
  {
    Arr(seq(|messages|, i requires 0 <= i < |messages| => MessageJson(messages[i])))
  }
}
