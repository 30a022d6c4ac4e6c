/** The vendor-neutral conversation and tool types of pkg/llm, and the small result types the
    agent packages use for Go's `(value, error)` returns. */
module Llm {

  datatype Option<+T> = None | Some(value: T)

  datatype Result<+T> = Ok(value: T) | Err(error: string)

  /** A decoded JSON value, as it arrives in a tool call's arguments. */
  datatype Json =
    | JNull
    | JBool(b: bool)
    | JNumber(n: real)
    | JString(s: string)
    | JArray(items: seq<Json>)
    | JObject(fields: map<string, Json>)

  datatype ParamType = TString | TInteger | TNumber | TBoolean | TEnum | TArray | TObject | TOther(name: string)

  datatype Param = Param(name: string, kind: ParamType, required: bool, options: seq<string>)

  datatype Tool = Tool(name: string, params: seq<Param>)

  datatype ToolCall = ToolCall(id: string, tool: string, args: map<string, Json>)

  datatype Role = RoleSystem | RoleUser | RoleAssistant | RoleTool

  datatype Message = Message(role: Role, content: string, toolCalls: seq<ToolCall>, toolCallId: string, toolError: bool)

  datatype Response = Response(text: string, toolCalls: seq<ToolCall>, inputTokens: int, outputTokens: int)

  function SystemMessage(text: string): Message { Message(RoleSystem, text, [], "", false) }

  function UserMessage(text: string): Message { Message(RoleUser, text, [], "", false) }

  function AssistantMessage(text: string, calls: seq<ToolCall>): Message {
    Message(RoleAssistant, text, calls, "", false)
  }

  /** The canonical tool turn answering a call. */
  function ToolResult(call: ToolCall, content: string, isErr: bool): Message {
    Message(RoleTool, content, [], call.id, isErr)
  }
}
