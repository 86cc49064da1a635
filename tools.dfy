/** The per-session tool table, the tool manifest sent to the peer, and the router that turns an
    inbound `tool.call` into exactly one `ToolResult`. */
module Tools {
  import opened Wrappers
  import opened Protocol

  /** The table that `Map.prototype.set` builds when the tools are set one after the other. */
  function ToolTable(tools: seq<Tool>): (table: map<string, ToolHandlerId>)
    ensures forall name :: name in table ==>
              exists i :: 0 <= i < |tools| && tools[i].name == name && tools[i].handler == table[name]
    decreases |tools|
  {
    if tools == [] then map[]
    else
      var init := tools[..|tools| - 1];
      var last := tools[|tools| - 1];
      var table := ToolTable(init);
      assert forall i :: 0 <= i < |init| ==> init[i] == tools[i];
      table[last.name := last.handler]
  }

  /** The table after `registerTools(tools)`: cleared, then filled from `tools` when given. */
  function RegisteredTable(tools: Option<seq<Tool>>): map<string, ToolHandlerId>
  {
    match tools
    case None => map[]
    case Some(ts) => ToolTable(ts)
  }

  predicate Declares(tools: seq<Tool>, name: string)
  {
    exists i :: 0 <= i < |tools| && tools[i].name == name
  }

  /** `i` is the position of the last tool called `name`. */
  predicate IsLastOccurrence(tools: seq<Tool>, name: string, i: int)
  {
    0 <= i < |tools| && tools[i].name == name && forall j :: i < j < |tools| ==> tools[j].name != name
  }

  /** A name resolves exactly when some tool of the list carries it. */
  lemma {:induction false} ToolTableDomain(tools: seq<Tool>, name: string)
    ensures name in ToolTable(tools) <==> Declares(tools, name)
    decreases |tools|
  {
    if tools != [] {
      var init := tools[..|tools| - 1];
      ToolTableDomain(init, name);
      if Declares(init, name) {
        var i :| 0 <= i < |init| && init[i].name == name;
        assert tools[i].name == name;
      }
      if Declares(tools, name) && tools[|tools| - 1].name != name {
        var i :| 0 <= i < |tools| && tools[i].name == name;
        assert init[i].name == name;
      }
    }
  }

  /** A name resolves to the handler of its last occurrence: the last registration wins. */
  lemma {:induction false} ToolTableLastWins(tools: seq<Tool>, name: string, i: int)
    requires IsLastOccurrence(tools, name, i)
    ensures name in ToolTable(tools) && ToolTable(tools)[name] == tools[i].handler
    decreases |tools|
  {
    if i < |tools| - 1 {
      ToolTableLastWins(tools[..|tools| - 1], name, i);
    }
  }

  /** Every name that some tool carries has a last occurrence. */
  lemma {:induction false} LastOccurrenceExists(tools: seq<Tool>, name: string) returns (i: int)
    requires Declares(tools, name)
    ensures IsLastOccurrence(tools, name, i)
    decreases |tools|
  {
    if tools[|tools| - 1].name == name {
      i := |tools| - 1;
    } else {
      var k :| 0 <= k < |tools| && tools[k].name == name;
      assert tools[..|tools| - 1][k].name == name;
      i := LastOccurrenceExists(tools[..|tools| - 1], name);
    }
  }

  function Declaration(tool: Tool): ToolDecl
  {
    ToolDecl(tool.name, tool.description, tool.parameters)
  }

  /** `config.tools?.map(...)`: each tool reduced to name, description and parameter schema,
      in the same order; no manifest when no tools were given. */
  function Manifest(tools: Option<seq<Tool>>): (m: Option<seq<ToolDecl>>)
    ensures m.Some? <==> tools.Some?
    ensures tools.Some? ==> |m.value| == |tools.value|
    ensures tools.Some? ==> forall i :: 0 <= i < |tools.value| ==>
              m.value[i] == ToolDecl(tools.value[i].name, tools.value[i].description, tools.value[i].parameters)
  {
    match tools
    case None => None
    case Some(ts) => Some(seq(|ts|, i requires 0 <= i < |ts| => Declaration(ts[i])))
  }

  /** The peer is told about exactly the tools the client can run: a name is declared in the
      manifest iff it resolves in the table registered from the same list. */
  lemma ManifestMatchesTable(tools: seq<Tool>, name: string)
    ensures (exists i :: 0 <= i < |Manifest(Some(tools)).value| && Manifest(Some(tools)).value[i].name == name)
            <==> name in RegisteredTable(Some(tools))
  {
    ToolTableDomain(tools, name);
    var m := Manifest(Some(tools)).value;
    if Declares(tools, name) {
      var i :| 0 <= i < |tools| && tools[i].name == name;
      assert m[i].name == name;
    }
  }

  /** The failure returned for a call no registered handler can serve. */
  function NotSupported(toolName: string): (r: ToolResult)
    ensures r.ResultObject? && r.resultType == Failure && r.toolTelemetry == map[] && r.error.Some?
    ensures |r.textResultForLlm| == |toolName| + 21 && r.textResultForLlm[6..6 + |toolName|] == toolName
    ensures |r.error.value| == |r.textResultForLlm| && r.textResultForLlm[0] == 'T' && r.error.value[0] == 't' && r.error.value[1..] == r.textResultForLlm[1..]
    ensures r.textResultForLlm[..6] == "Tool '" && r.textResultForLlm[6 + |toolName|..] == "' not supported"
    ensures r.error.value[..6] == "tool '" && r.error.value[6 + |toolName|..] == "' not supported"
  {
    FailureResult("Tool '" + toolName + "' not supported", "tool '" + toolName + "' not supported")
  }

  function InvocationFor(params: ToolCallParams): ToolInvocation
  {
    ToolInvocation(params.sessionId, params.toolCallId, params.toolName, params.arguments)
  }

  /** The response to a `tool.call`, given the handler the lookup found (if any) and how each
      handler behaves on each invocation. A string a handler returns is passed on as it is; both
      arms of the source's `typeof result === "string"` test return `result`. */
  function RouteToolCall(handler: Option<ToolHandlerId>, params: ToolCallParams,
                         behaviour: (ToolHandlerId, ToolInvocation) -> HandlerOutcome): (r: ToolCallResponse)
    ensures handler.None? ==> r.result == NotSupported(params.toolName)
    ensures handler.Some? && behaviour(handler.value, InvocationFor(params)).Returned? ==>
              r.result == behaviour(handler.value, InvocationFor(params)).result
    ensures handler.Some? && behaviour(handler.value, InvocationFor(params)).Threw? ==>
              var msg := behaviour(handler.value, InvocationFor(params)).message;
              r.result == ResultObject(msg, Failure, Some(msg), map[])
  {
    match handler
    case None => ToolCallResponse(NotSupported(params.toolName))
    case Some(h) =>
      match behaviour(h, InvocationFor(params))
      case Returned(result) => ToolCallResponse(result)
      case Threw(message) => ToolCallResponse(FailureResult(message, message))
  }

  /** Routing against the table registered from `tools`: a name no tool carries gets the
      not-supported failure, and any other name runs the handler of the name's last occurrence
      with the full invocation record. */
  lemma RouteAfterRegistration(tools: seq<Tool>, params: ToolCallParams,
                               behaviour: (ToolHandlerId, ToolInvocation) -> HandlerOutcome)
    ensures var table := RegisteredTable(Some(tools));
      var found := if params.toolName in table then Some(table[params.toolName]) else None;
      var r := RouteToolCall(found, params, behaviour).result;
      (!Declares(tools, params.toolName) ==> r == NotSupported(params.toolName)) &&
      (forall i :: IsLastOccurrence(tools, params.toolName, i) ==>
         r == (match behaviour(tools[i].handler, InvocationFor(params))
               case Returned(result) => result
               case Threw(m) => FailureResult(m, m)))
  {
    ToolTableDomain(tools, params.toolName);
    forall i | IsLastOccurrence(tools, params.toolName, i) {
      ToolTableLastWins(tools, params.toolName, i);
    }
  }
}
