/** The values the browser client exchanges with the agent process: events, tools, tool results
    and the JSON-RPC requests and notifications of the session protocol. Payloads the core never
    inspects (event data, tool parameter schemas, tool arguments) are carried as opaque strings. */
module Protocol {
  import opened Wrappers

  /** The identity of an event-handler callback; two closures are two ids. */
  type HandlerId = nat

  /** The identity of a tool's handler function. */
  type ToolHandlerId = nat

  /** The event type that ends a conversational turn. */
  const SESSION_IDLE: string := "session.idle"

  /** One increment of conversational progress, as the peer emits it. */
  datatype Event = Event(id: string, eventType: string, data: string, timestamp: string)

  datatype ResultType = Success | Failure | Rejected | Denied

  /** What a tool handler returns: a bare string or a result object. */
  datatype ToolResult =
    | TextResult(text: string)
    | ResultObject(textResultForLlm: string, resultType: ResultType, error: Option<string>,
                   toolTelemetry: map<string, string>)

  /** The failure object the router and the tools build: a text for the model, an error
      detail and an empty telemetry map. */
  function FailureResult(textResultForLlm: string, error: string): ToolResult
  {
    ResultObject(textResultForLlm, Failure, Some(error), map[])
  }

  /** A tool as the caller registers it: its declaration and its local handler. */
  datatype Tool = Tool(name: string, description: string, parameters: string, handler: ToolHandlerId)

  /** A tool as the peer is told about it: the handler stays local. */
  datatype ToolDecl = ToolDecl(name: string, description: string, parameters: string)

  datatype SessionConfig = SessionConfig(
    model: Option<string>,
    sessionId: Option<string>,
    systemMessage: Option<string>,
    tools: Option<seq<Tool>>)

  datatype Attachment = Attachment(kind: string, path: string, displayName: Option<string>)

  datatype MessageOptions = MessageOptions(
    prompt: string,
    attachments: Option<seq<Attachment>>,
    mode: Option<string>)

  /** The requests the client sends to the peer. */
  datatype Request =
    | SessionCreate(model: Option<string>, requestedId: Option<string>, systemMessage: Option<string>,
                    tools: Option<seq<ToolDecl>>)
    | SessionSend(sessionId: string, prompt: string, attachments: Option<seq<Attachment>>, mode: Option<string>)
    | SessionGetMessages(sessionId: string)
    | SessionDestroy(sessionId: string)

  /** How the peer settles a request: with a response payload, or by rejecting it. */
  datatype Reply<+T> = Answered(value: T) | RequestFailed(message: string)

  /** The acknowledgement of a destroy request; it carries nothing the client reads. */
  datatype Ack = Ack

  /** A `session.event` notification; either property may be missing. */
  datatype Notification = Notification(sessionId: Option<string>, event: Option<Event>)

  /** The parameters of an inbound `tool.call` request. */
  datatype ToolCallParams = ToolCallParams(sessionId: string, toolCallId: string, toolName: string, arguments: string)

  /** The record a tool handler is invoked with. */
  datatype ToolInvocation = ToolInvocation(sessionId: string, toolCallId: string, toolName: string, arguments: string)

  /** How a handler invocation ends: it returns a result, or throws (the message is the
      exception's `message`, or its string form for a non-Error value). */
  datatype HandlerOutcome = Returned(result: ToolResult) | Threw(message: string)

  /** The response payload of a `tool.call` request. */
  datatype ToolCallResponse = ToolCallResponse(result: ToolResult)
}
