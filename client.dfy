/** `WebSocketCopilotClient`: the connection state, the session map, and the two handlers the
    client installs on the connection (`session.event` routing and the `tool.call` router).
    `connected` stands for `connection !== null` and `hasSocket` for `wsSocket !== null`. */
module Client {
  import opened Wrappers
  import opened Protocol
  import opened Tools
  import opened Sessions

  const NOT_CONNECTED: string := "Client not connected. Call start() first."

  /** The `session.create` request for a configuration: its tools reduced to the manifest. */
  function CreateRequest(config: SessionConfig): (r: Request)
    ensures r.SessionCreate? && r.model == config.model && r.requestedId == config.sessionId
    ensures r.systemMessage == config.systemMessage
    ensures r.tools.Some? <==> config.tools.Some?
    ensures config.tools.Some? ==> |r.tools.value| == |config.tools.value|
    ensures config.tools.Some? ==> forall i :: 0 <= i < |config.tools.value| ==>
                && r.tools.value[i].name == config.tools.value[i].name
                && r.tools.value[i].description == config.tools.value[i].description
                && r.tools.value[i].parameters == config.tools.value[i].parameters
  {
    SessionCreate(config.model, config.sessionId, config.systemMessage, Manifest(config.tools))
  }

  /** `n.sessionId && n.event`: both present, and the id is not the empty string. */
  predicate CarriesSessionEvent(n: Notification)
  {
    n.sessionId.Some? && n.sessionId.value != "" && n.event.Some?
  }

  /** Some order in which to visit the keys of a map: each exactly once. The model does not fix
      which order (a JavaScript `Map` is iterated in insertion order). */
  method IterationOrder(keys: set<string>) returns (ids: seq<string>)
    ensures |ids| == |keys| && NoDuplicates(ids)
    ensures forall id :: id in ids <==> id in keys
  {
    ids := [];
    var remaining := keys;
    while remaining != {}
      invariant remaining <= keys && |ids| + |remaining| == |keys| && NoDuplicates(ids)
      invariant forall id :: id in ids <==> id in keys - remaining
      decreases remaining
    {
      var id :| id in remaining;
      assert id !in ids;
      ids := ids + [id];
      remaining := remaining - {id};
    }
  }

  /** The destroy requests sent along an iteration order name every session once. */
  lemma DestroyRequestsCover(ids: seq<string>, sent: seq<Request>, keys: set<string>)
    requires |ids| == |keys| && NoDuplicates(ids) && forall id :: id in ids <==> id in keys
    requires |sent| == |ids| && forall i :: 0 <= i < |ids| ==> sent[i] == SessionDestroy(ids[i])
    ensures |sent| == |keys| && NoDuplicates(sent)
    ensures forall i :: 0 <= i < |sent| ==> sent[i].SessionDestroy? && sent[i].sessionId in keys
    ensures forall id :: id in keys ==> SessionDestroy(id) in sent
  {
    forall id | id in keys ensures SessionDestroy(id) in sent {
      var j :| 0 <= j < |ids| && ids[j] == id;
      assert sent[j] == SessionDestroy(id);
    }
  }

  class WebSocketCopilotClient {
    const url: string
    var connected: bool
    var hasSocket: bool
    var sessions: map<string, BrowserCopilotSession>

    /** Every session is stored under its own id, and sessions exist only once connected. */
    ghost predicate Valid()
      reads this, sessions.Values
    {
      && (forall id :: id in sessions ==> sessions[id].sessionId == id && sessions[id].Valid())
      && (sessions != map[] ==> connected)
    }

    constructor (url: string)
      ensures Valid()
      ensures this.url == url && !connected && !hasSocket && sessions == map[]
    {
      this.url := url;
      connected := false;
      hasSocket := false;
      sessions := map[];
    }

    /** `start()`: nothing happens when a connection exists. Otherwise a socket is opened; the
        connection exists afterwards iff the socket reported `open`; on `error` the promise
        rejects and the socket field stays set. */
    method Start(opens: bool) returns (r: Outcome)
      requires Valid()
      modifies this
      ensures Valid()
      ensures sessions == old(sessions)
      ensures old(connected) ==> r == Pass && connected && hasSocket == old(hasSocket)
      ensures !old(connected) ==> hasSocket && connected == opens
      ensures !old(connected) ==> r == (if opens then Pass else Fail("Failed to connect to " + url))
    {
      if connected {
        return Pass;
      }
      hasSocket := true;
      if opens {
        connected := true;
        r := Pass;
      } else {
        r := Fail("Failed to connect to " + url);
      }
    }

    /** `createSession(config)`: refused without a connection; otherwise one `session.create`
        request carrying the tool manifest. On an answer a new session is stored under the
        returned id, replacing any session stored there, with the given tools registered. */
    method CreateSession(config: SessionConfig, reply: Reply<string>)
      returns (r: Result<BrowserCopilotSession>, request: Option<Request>)
      requires Valid()
      modifies this
      ensures Valid()
      ensures connected == old(connected) && hasSocket == old(hasSocket)
      ensures !old(connected) ==> r == Err(NOT_CONNECTED) && request == None && sessions == old(sessions)
      ensures old(connected) ==> request == Some(CreateRequest(config))
      ensures old(connected) && reply.RequestFailed? ==> r == Err(reply.message) && sessions == old(sessions)
      ensures old(connected) && reply.Answered? ==>
                && r.Ok? && fresh(r.value)
                && r.value.sessionId == reply.value
                && r.value.eventHandlers == []
                && r.value.toolHandlers == RegisteredTable(config.tools)
                && sessions == old(sessions)[reply.value := r.value]
    {
      if !connected {
        return Err(NOT_CONNECTED), None;
      }
      request := Some(CreateRequest(config));
      match reply
      case RequestFailed(message) =>
        r := Err(message);
      case Answered(sessionId) =>
        var session := new BrowserCopilotSession(sessionId);
        session.RegisterTools(config.tools);
        sessions := sessions[sessionId := session];
        r := Ok(session);
    }

    /** `stop()`: a destroy is attempted on every session, a failure being swallowed (the
        destroy requests that succeed are those for `destroyOk`); then the map is emptied and
        the connection and socket fields are nulled. A second `stop` sends nothing. */
    method Stop(destroyOk: set<string>) returns (sent: seq<Request>)
      requires Valid()
      modifies this, sessions.Values
      ensures Valid()
      ensures sessions == map[] && !connected && !hasSocket
      ensures |sent| == |old(sessions).Keys| && NoDuplicates(sent)
      ensures forall i :: 0 <= i < |sent| ==> sent[i].SessionDestroy? && sent[i].sessionId in old(sessions)
      ensures forall id :: id in old(sessions) ==> SessionDestroy(id) in sent
      ensures forall id :: id in old(sessions) && id in destroyOk ==>
                old(sessions)[id].eventHandlers == [] && old(sessions)[id].toolHandlers == map[]
      ensures forall id :: id in old(sessions) && id !in destroyOk ==>
                old(sessions)[id].eventHandlers == old(sessions[id].eventHandlers) &&
                old(sessions)[id].toolHandlers == old(sessions[id].toolHandlers)
    {
      var ids := IterationOrder(sessions.Keys);
      sent := DestroyEach(ids, destroyOk);
      DestroyRequestsCover(ids, sent, sessions.Keys);
      sessions := map[];
      connected := false;
      hasSocket := false;
    }

    /** The loop of `stop()`: `await session.destroy()` for each session in turn, inside a
        `try` whose `catch` ignores the failure. */
    method DestroyEach(ids: seq<string>, destroyOk: set<string>) returns (sent: seq<Request>)
      requires Valid()
      requires NoDuplicates(ids) && forall id :: id in ids <==> id in sessions
      modifies sessions.Values
      ensures Valid()
      ensures |sent| == |ids| && forall i :: 0 <= i < |ids| ==> sent[i] == SessionDestroy(ids[i])
      ensures forall id :: id in sessions && id in destroyOk ==>
                sessions[id].eventHandlers == [] && sessions[id].toolHandlers == map[]
      ensures forall id :: id in sessions && id !in destroyOk ==>
                sessions[id].eventHandlers == old(sessions[id].eventHandlers) &&
                sessions[id].toolHandlers == old(sessions[id].toolHandlers)
    {
      sent := [];
      ghost var visited: set<string> := {};
      for k := 0 to |ids|
        invariant Valid()
        invariant |sent| == k && forall i :: 0 <= i < k ==> sent[i] == SessionDestroy(ids[i])
        invariant visited <= sessions.Keys
        invariant forall i :: k <= i < |ids| ==> ids[i] !in visited
        invariant forall i :: 0 <= i < k ==> ids[i] in visited
        invariant forall id :: id in visited && id in destroyOk ==>
                    sessions[id].eventHandlers == [] && sessions[id].toolHandlers == map[]
        invariant forall id :: id in sessions && (id !in visited || id !in destroyOk) ==>
                    sessions[id].eventHandlers == old(sessions[id].eventHandlers) &&
                    sessions[id].toolHandlers == old(sessions[id].toolHandlers)
      {
        var id := ids[k];
        visited := visited + {id};
        var request := DestroyOne(id, id in destroyOk);
        sent := sent + [request];
      }
      assert visited == sessions.Keys by {
        forall id | id in sessions ensures id in visited {
          var j :| 0 <= j < |ids| && ids[j] == id;
        }
      }
    }

    /** One iteration of that loop: the session `id` is destroyed, its reply succeeding exactly
        when `ok` holds, and no other session changes. */
    method DestroyOne(id: string, ok: bool) returns (request: Request)
      requires Valid() && id in sessions
      modifies sessions[id]
      ensures Valid()
      ensures request == SessionDestroy(id)
      ensures ok ==> sessions[id].eventHandlers == [] && sessions[id].toolHandlers == map[]
      ensures !ok ==> sessions[id].eventHandlers == old(sessions[id].eventHandlers) &&
                      sessions[id].toolHandlers == old(sessions[id].toolHandlers)
    {
      var session := sessions[id];
      assert forall other :: other in sessions && other != id ==> sessions[other] != session;
      var outcome;
      request, outcome := session.Destroy(if ok then Answered(Ack) else RequestFailed("destroy failed"));
    }

    /** The session a `session.event` notification is delivered to, if any. */
    function RouteTarget(n: Notification): (target: Option<BrowserCopilotSession>)
      reads this
      ensures target.Some? <==> CarriesSessionEvent(n) && n.sessionId.value in sessions
      ensures target.Some? ==> target.value == sessions[n.sessionId.value]
    {
      if CarriesSessionEvent(n) && n.sessionId.value in sessions then Some(sessions[n.sessionId.value]) else None
    }

    /** The `session.event` handler: dispatched to the matching session's subscribers when the
        notification carries both an id and an event and the id is known; dropped otherwise.
        Nothing of the client changes either way. */
    method OnSessionEvent(n: Notification, throws: HandlerId -> bool) returns (calls: seq<HandlerCall>)
      ensures !(CarriesSessionEvent(n) && n.sessionId.value in sessions) ==> calls == []
      ensures CarriesSessionEvent(n) && n.sessionId.value in sessions ==>
                var hs := sessions[n.sessionId.value].eventHandlers;
                |calls| == |hs| &&
                forall i :: 0 <= i < |hs| ==> calls[i] == HandlerCall(hs[i], n.event.value, throws(hs[i]))
    {
      var target := RouteTarget(n);
      if target.Some? {
        calls := target.value.DispatchEvent(n.event.value, throws);
      } else {
        calls := [];
      }
    }

    /** `sessions.get(sessionId)?.getToolHandler(toolName)`. */
    function LookupToolHandler(sessionId: string, toolName: string): (h: Option<ToolHandlerId>)
      reads this, sessions.Values
      ensures h.Some? <==> sessionId in sessions && toolName in sessions[sessionId].toolHandlers
      ensures h.Some? ==> h.value == sessions[sessionId].toolHandlers[toolName]
    {
      if sessionId in sessions then sessions[sessionId].GetToolHandler(toolName) else None
    }

    /** The `tool.call` handler: an unknown session or tool gets the not-supported failure, a
        handler that throws gets a failure carrying its message, and anything a handler returns
        is passed on unchanged. The request itself is always answered. */
    function OnToolCall(params: ToolCallParams, behaviour: (ToolHandlerId, ToolInvocation) -> HandlerOutcome)
      : (response: ToolCallResponse)
      reads this, sessions.Values
      ensures (params.sessionId !in sessions || params.toolName !in sessions[params.sessionId].toolHandlers) ==>
                response.result == NotSupported(params.toolName)
      ensures params.sessionId in sessions && params.toolName in sessions[params.sessionId].toolHandlers ==>
                var h := sessions[params.sessionId].toolHandlers[params.toolName];
                response.result == (match behaviour(h, InvocationFor(params))
                                    case Returned(result) => result
                                    case Threw(m) => FailureResult(m, m))
    {
      RouteToolCall(LookupToolHandler(params.sessionId, params.toolName), params, behaviour)
    }
  }

  /** `createWebSocketClient(url)`: a new client, started. */
  method CreateWebSocketClient(url: string, opens: bool) returns (client: WebSocketCopilotClient, r: Outcome)
    ensures fresh(client) && client.Valid() && client.url == url && client.sessions == map[]
    ensures client.connected == opens && client.hasSocket
    ensures r == (if opens then Pass else Fail("Failed to connect to " + url))
  {
    client := new WebSocketCopilotClient(url);
    r := client.Start(opens);
  }

  /** Stopping twice: the second stop finds nothing to destroy and sends nothing. */
  method StopTwice(client: WebSocketCopilotClient, destroyOk: set<string>) returns (second: seq<Request>)
    requires client.Valid()
    modifies client, client.sessions.Values
    ensures second == []
    ensures client.sessions == map[] && !client.connected && !client.hasSocket
  {
    var _ := client.Stop(destroyOk);
    second := client.Stop(destroyOk);
  }
}
