/** One conversation bound to a session id: its event subscribers and its tool-handler table.
    The subscriber `Set` is a sequence without duplicates, in insertion order, which is the
    order a JavaScript `Set` is iterated in. */
module Sessions {
  import opened Wrappers
  import opened Protocol
  import opened Tools

  predicate NoDuplicates<T(==)>(s: seq<T>)
  {
    forall i, j :: 0 <= i < j < |s| ==> s[i] != s[j]
  }

  /** `set.add(h)`: appended at the end unless already present. */
  function Added(hs: seq<HandlerId>, h: HandlerId): (r: seq<HandlerId>)
    ensures hs <= r && |r| <= |hs| + 1 && h in r
  {
    if h in hs then hs else hs + [h]
  }

  /** `set.delete(h)`: `h` taken out, the rest kept in order. */
  function Removed(hs: seq<HandlerId>, h: HandlerId): (r: seq<HandlerId>)
    ensures |r| <= |hs| && h !in r
    ensures forall x :: x in r ==> x in hs
    decreases |hs|
  {
    if hs == [] then [] else (if hs[0] == h then [] else [hs[0]]) + Removed(hs[1..], h)
  }

  /** Adding keeps the set a set, contains the new handler, and adding it again changes nothing. */
  lemma AddedIsSetInsertion(hs: seq<HandlerId>, h: HandlerId)
    requires NoDuplicates(hs)
    ensures NoDuplicates(Added(hs, h))
    ensures forall x :: x in Added(hs, h) <==> x in hs || x == h
    ensures Added(Added(hs, h), h) == Added(hs, h)
    ensures h in hs ==> Added(hs, h) == hs
  {
  }

  /** After removal, a handler is subscribed iff it was subscribed and is not the removed one. */
  lemma {:induction false} RemovedMembers(hs: seq<HandlerId>, h: HandlerId)
    ensures forall x :: x in Removed(hs, h) <==> x in hs && x != h
    decreases |hs|
  {
    if hs != [] {
      RemovedMembers(hs[1..], h);
    }
  }

  /** Removing a subscriber that was never added changes nothing. */
  lemma {:induction false} RemovedAbsent(hs: seq<HandlerId>, h: HandlerId)
    requires h !in hs
    ensures Removed(hs, h) == hs
    decreases |hs|
  {
    if hs != [] {
      RemovedAbsent(hs[1..], h);
    }
  }

  /** In a set with `h` at position `i`, removal cuts out exactly that position: every other
      subscriber stays, in its order. */
  lemma {:induction false} RemovedExactly(hs: seq<HandlerId>, h: HandlerId, i: int)
    requires NoDuplicates(hs) && 0 <= i < |hs| && hs[i] == h
    ensures Removed(hs, h) == hs[..i] + hs[i + 1..]
    decreases |hs|
  {
    if i == 0 {
      RemovedAbsent(hs[1..], h);
    } else {
      RemovedExactly(hs[1..], h, i - 1);
      assert hs[1..][..i - 1] + hs[1..][i..] == hs[1..i] + hs[i + 1..];
      assert hs[..i] == [hs[0]] + hs[1..i];
    }
  }

  lemma {:induction false} RemovedKeepsNoDuplicates(hs: seq<HandlerId>, h: HandlerId)
    requires NoDuplicates(hs)
    ensures NoDuplicates(Removed(hs, h))
    decreases |hs|
  {
    if hs != [] {
      assert NoDuplicates(hs[1..]);
      RemovedKeepsNoDuplicates(hs[1..], h);
      RemovedMembers(hs[1..], h);
      var rest := Removed(hs[1..], h);
      if hs[0] != h {
        assert hs[0] !in hs[1..];
        assert hs[0] !in rest;
        var r := [hs[0]] + rest;
        forall i, j | 0 <= i < j < |r| ensures r[i] != r[j] {
          if i == 0 { assert r[j] == rest[j - 1]; }
        }
      }
    }
  }

  /** The disposer undoes `on`: subscribing a new handler and disposing of it restores the set. */
  lemma DisposeUndoesOn(hs: seq<HandlerId>, h: HandlerId)
    requires NoDuplicates(hs) && h !in hs
    ensures Removed(Added(hs, h), h) == hs
  {
    RemovedExactly(hs + [h], h, |hs|);
    assert (hs + [h])[..|hs|] == hs;
  }

  /** The handle `on` returns; calling it is `Dispose`. */
  datatype Disposer = Disposer(handler: HandlerId)

  /** One handler invocation during a dispatch, and whether the handler threw. */
  datatype HandlerCall = HandlerCall(handler: HandlerId, event: Event, threw: bool)

  class BrowserCopilotSession {
    const sessionId: string
    var eventHandlers: seq<HandlerId>
    var toolHandlers: map<string, ToolHandlerId>

    ghost predicate Valid()
      reads this
    {
      NoDuplicates(eventHandlers)
    }

    constructor (sessionId: string)
      ensures Valid()
      ensures this.sessionId == sessionId && eventHandlers == [] && toolHandlers == map[]
    {
      this.sessionId := sessionId;
      eventHandlers := [];
      toolHandlers := map[];
    }

    /** `session.send`: one request carrying the prompt; the result is the message id the peer
        answers with, or the rejection. */
    method Send(options: MessageOptions, reply: Reply<string>) returns (request: Request, r: Result<string>)
      ensures request == SessionSend(sessionId, options.prompt, options.attachments, options.mode)
      ensures reply.Answered? ==> r == Ok(reply.value)
      ensures reply.RequestFailed? ==> r == Err(reply.message)
    {
      request := SessionSend(sessionId, options.prompt, options.attachments, options.mode);
      match reply
      case Answered(messageId) => r := Ok(messageId);
      case RequestFailed(message) => r := Err(message);
    }

    /** `session.getMessages`: the stored event log as the peer returns it. */
    method GetMessages(reply: Reply<seq<Event>>) returns (request: Request, r: Result<seq<Event>>)
      ensures request == SessionGetMessages(sessionId)
      ensures reply.Answered? ==> r == Ok(reply.value)
      ensures reply.RequestFailed? ==> r == Err(reply.message)
    {
      request := SessionGetMessages(sessionId);
      match reply
      case Answered(events) => r := Ok(events);
      case RequestFailed(message) => r := Err(message);
    }

    /** `on(handler)`: subscribe, and hand back the disposer for that handler. */
    method On(handler: HandlerId) returns (d: Disposer)
      requires Valid()
      modifies this
      ensures Valid()
      ensures eventHandlers == Added(old(eventHandlers), handler)
      ensures toolHandlers == old(toolHandlers)
      ensures d.handler == handler
    {
      if handler !in eventHandlers {
        eventHandlers := eventHandlers + [handler];
      }
      d := Disposer(handler);
    }

    /** Calling the disposer `on` returned: that handler is unsubscribed, no other. */
    method Dispose(d: Disposer)
      requires Valid()
      modifies this
      ensures Valid()
      ensures eventHandlers == Removed(old(eventHandlers), d.handler)
      ensures toolHandlers == old(toolHandlers)
    {
      RemovedKeepsNoDuplicates(eventHandlers, d.handler);
      eventHandlers := Removed(eventHandlers, d.handler);
    }

    /** `_dispatchEvent(event)`: every subscriber is invoked once with the event, in set order,
        and a handler that throws does not stop the ones after it. */
    method DispatchEvent(event: Event, throws: HandlerId -> bool) returns (calls: seq<HandlerCall>)
      ensures |calls| == |eventHandlers|
      ensures forall i :: 0 <= i < |calls| ==>
                calls[i] == HandlerCall(eventHandlers[i], event, throws(eventHandlers[i]))
    {
      calls := [];
      for i := 0 to |eventHandlers|
        invariant |calls| == i
        invariant forall k :: 0 <= k < i ==> calls[k] == HandlerCall(eventHandlers[k], event, throws(eventHandlers[k]))
      {
        var h := eventHandlers[i];
        // The handler's exception, if any, is caught and ignored.
        calls := calls + [HandlerCall(h, event, throws(h))];
      }
    }

    /** `registerTools(tools)`: the table is cleared, then each tool is set in order. */
    method RegisterTools(tools: Option<seq<Tool>>)
      requires Valid()
      modifies this
      ensures Valid()
      ensures toolHandlers == RegisteredTable(tools)
      ensures eventHandlers == old(eventHandlers)
    {
      toolHandlers := map[];
      if tools.Some? {
        var ts := tools.value;
        for i := 0 to |ts|
          invariant toolHandlers == ToolTable(ts[..i])
          invariant eventHandlers == old(eventHandlers)
        {
          assert ts[..i + 1][..i] == ts[..i];
          toolHandlers := toolHandlers[ts[i].name := ts[i].handler];
        }
        assert ts[..|ts|] == ts;
      }
    }

    /** `getToolHandler(name)`: the handler registered under `name`, if any. */
    function GetToolHandler(name: string): (h: Option<ToolHandlerId>)
      reads this
      ensures h.Some? <==> name in toolHandlers
      ensures h.Some? ==> h.value == toolHandlers[name]
    {
      if name in toolHandlers then Some(toolHandlers[name]) else None
    }

    /** `destroy()`: the destroy request is sent; only when it succeeds are both tables
        cleared. A rejection propagates and leaves the session as it was. */
    method Destroy(reply: Reply<Ack>) returns (request: Request, r: Outcome)
      requires Valid()
      modifies this
      ensures Valid()
      ensures request == SessionDestroy(sessionId)
      ensures reply.Answered? ==> r == Pass && eventHandlers == [] && toolHandlers == map[]
      ensures reply.RequestFailed? ==>
                r == Fail(reply.message) && eventHandlers == old(eventHandlers) && toolHandlers == old(toolHandlers)
    {
      request := SessionDestroy(sessionId);
      match reply
      case RequestFailed(message) =>
        r := Fail(message);
      case Answered(_) =>
        eventHandlers := [];
        toolHandlers := map[];
        r := Pass;
    }
  }

  /** Registering a second list on a session forgets the first: afterwards exactly the second
      list's names resolve, each to the handler of its last occurrence in that list. */
  method RegisterTwice(s: BrowserCopilotSession, first: seq<Tool>, second: seq<Tool>)
    requires s.Valid()
    modifies s
    ensures s.Valid() && s.eventHandlers == old(s.eventHandlers)
    ensures forall name :: name in s.toolHandlers <==> Declares(second, name)
    ensures forall name, i :: IsLastOccurrence(second, name, i) ==>
              name in s.toolHandlers && s.toolHandlers[name] == second[i].handler
  {
    s.RegisterTools(Some(first));
    s.RegisterTools(Some(second));
    forall name
      ensures name in s.toolHandlers <==> Declares(second, name)
    {
      ToolTableDomain(second, name);
    }
    forall name, i | IsLastOccurrence(second, name, i)
      ensures name in s.toolHandlers && s.toolHandlers[name] == second[i].handler
    {
      ToolTableLastWins(second, name, i);
    }
  }
}
