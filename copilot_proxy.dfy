/** The WebSocket-to-subprocess bridge: the upgrade path filter, and per accepted connection one
    spawned agent process whose standard streams are relayed to and from the socket, with each
    side's end tearing down the other. Only the state the event handlers read and write is kept:
    the socket's `readyState`, `child.killed`, whether the child exited, and the close frame. */
module CopilotProxy {
  import opened Wrappers
  import opened Strings
  import opened Url

  const PROXY_PATH: string := "/api/copilot"
  const CLOSE_NORMAL: int := 1000
  const CLOSE_INTERNAL_ERROR: int := 1011
  const CHILD_ERROR_REASON: string := "Child process error"
  const CHILD_EXIT_REASON: string := "Child process exited"

  newtype byte = x: int | 0 <= x < 256

  /** One `data` chunk of a stream, or one WebSocket message. */
  type Chunk = seq<byte>

  /** What the `upgrade` listener does: hand the request to the WebSocket server, destroy the
      socket, or throw out of the listener because `new URL` rejected the target or the `Host`
      header, in which case the socket is left as it is. */
  datatype UpgradeAction = HandleUpgrade | DestroySocket | ListenerThrows

  /** The `upgrade` listener's choice for request target `target` and `Host` header `host`. */
  function UpgradeDecision(target: string, host: Option<string>): (d: UpgradeAction)
  {
    if !BaseValid(HostText(host)) then ListenerThrows
    else match ResolvedPathname(target)
      case None => ListenerThrows
      case Some(pathname) => if pathname == PROXY_PATH then HandleUpgrade else DestroySocket
  }

  /** Once the `Host` header parses, the listener throws exactly when the target does not
      resolve, and accepts exactly when it resolves to the proxy path. */
  lemma DecisionByPathname(target: string, host: Option<string>)
    requires BaseValid(HostText(host))
    ensures UpgradeDecision(target, host) == ListenerThrows <==> ResolvedPathname(target).None?
    ensures UpgradeDecision(target, host) == HandleUpgrade <==> ResolvedPathname(target) == Some(PROXY_PATH)
  {
  }

  /** The proxy path opens with a slash and holds no query or fragment delimiter, no
      backslash, and no control character or space. */
  lemma ProxyPathPlain()
    ensures |PROXY_PATH| == 12 && PROXY_PATH[0] == '/'
    ensures '?' !in PROXY_PATH && '#' !in PROXY_PATH && '\\' !in PROXY_PATH
    ensures forall i :: 0 <= i < |PROXY_PATH| ==> !IsC0OrSpace(PROXY_PATH[i])
  {
  }

  /** An empty path, which serializes as `/`, is not the proxy path. */
  lemma RootedProxyPath(p: string)
    ensures RootIfEmpty(p) == PROXY_PATH <==> p == PROXY_PATH
  {
    ProxyPathPlain();
  }

  /** For a target with one leading slash and a `Host` header that parses, the listener never
      throws, and it accepts exactly the proxy path (either slash accepted), whatever query or
      fragment follows; a longer path, or one with a trailing slash, is refused. */
  lemma OriginFormDecision(target: string, host: Option<string>)
    requires BaseValid(HostText(host))
    requires forall i :: 0 <= i < |target| ==> !IsC0OrSpace(target[i])
    requires |target| >= 1 && IsSlash(target[0]) && (|target| == 1 || !IsSlash(target[1]))
    ensures UpgradeDecision(target, host) != ListenerThrows
    ensures UpgradeDecision(target, host) == HandleUpgrade <==>
              |PROXY_PATH| <= |target| && Slashed(target[..|PROXY_PATH|]) == PROXY_PATH
              && (|target| == |PROXY_PATH| || target[|PROXY_PATH|] in {'?', '#'})
  {
    DecisionByPathname(target, host);
    OriginFormResolution(target);
    ProxyPathPlain();
    PathPartIs(target, PROXY_PATH);
  }

  /** A target opening with two slashes names an authority and a path after it: the listener
      throws when the authority does not parse, and otherwise decides on the path alone. */
  lemma NetworkPathDecision(target: string, host: Option<string>)
    requires BaseValid(HostText(host))
    requires forall i :: 0 <= i < |target| ==> !IsC0OrSpace(target[i])
    requires |target| >= 2 && IsSlash(target[0]) && IsSlash(target[1])
    ensures var rest := DropSlashes(target);
      var n := SpanUntil(rest, AUTHORITY_END);
      && (UpgradeDecision(target, host) == ListenerThrows <==> !AuthorityValid(rest[..n]))
      && (UpgradeDecision(target, host) == HandleUpgrade <==>
            AuthorityValid(rest[..n]) && PathPart(rest[n..]) == PROXY_PATH)
  {
    DecisionByPathname(target, host);
    NetworkPathResolution(target);
    var rest := DropSlashes(target);
    RootedProxyPath(PathPart(rest[SpanUntil(rest, AUTHORITY_END)..]));
  }

  /** A `Host` header that does not parse makes the listener throw, whatever the target. */
  lemma BadHostThrows(target: string, host: Option<string>)
    requires !BaseValid(HostText(host))
    ensures UpgradeDecision(target, host) == ListenerThrows
  {
  }

  /** A network-path target naming any other plain host before the proxy path is accepted:
      the authority is parsed and then dropped, so `//evil/api/copilot` is upgraded. A host
      that ends in a number must be an IPv4 address for this. */
  lemma ForeignAuthorityAccepted(name: string, host: Option<string>)
    requires BaseValid(HostText(host))
    requires name != [] && forall i :: 0 <= i < |name| ==> !ForbiddenDomainChar(name[i])
    requires NumericHostValid(name)
    ensures UpgradeDecision("//" + name + PROXY_PATH, host) == HandleUpgrade
  {
    var target := "//" + name + PROXY_PATH;
    ForeignAuthorityParts(name);
    DomainAuthorityValid(name);
    NetworkPathDecision(target, host);
  }

  /** The same target with a host that ends in a number but is no IPv4 address, such as
      `//a.1/api/copilot`: the host parser fails and the listener throws. */
  lemma ForeignNumericAuthorityThrows(name: string, host: Option<string>)
    requires BaseValid(HostText(host))
    requires name != [] && forall i :: 0 <= i < |name| ==> !ForbiddenDomainChar(name[i])
    requires !NumericHostValid(name)
    ensures UpgradeDecision("//" + name + PROXY_PATH, host) == ListenerThrows
  {
    var target := "//" + name + PROXY_PATH;
    ForeignAuthorityParts(name);
    DomainAuthorityValid(name);
    NetworkPathDecision(target, host);
  }

  /** A `Host` header that ends in a number without being an IPv4 address, such as `a.1`, makes
      the listener throw, whatever the target. */
  lemma NumericHostThrows(target: string, name: string)
    requires name != [] && forall i :: 0 <= i < |name| ==> !ForbiddenDomainChar(name[i])
    requires !NumericHostValid(name)
    ensures UpgradeDecision(target, Some(name)) == ListenerThrows
  {
    DomainBaseValid(name);
    BadHostThrows(target, Some(name));
  }

  /** The `Host` header `a.1` makes the listener throw, whatever the target. */
  lemma NumericLastLabelHostThrows(target: string)
    ensures UpgradeDecision(target, Some("a.1")) == ListenerThrows
  {
    NumericLastLabelInvalid();
    NumericHostThrows(target, "a.1");
  }

  /** The target `//a.1/api/copilot` makes the listener throw beside any `Host` that parses. */
  lemma NumericLastLabelTargetThrows(host: Option<string>)
    requires BaseValid(HostText(host))
    ensures UpgradeDecision("//a.1" + PROXY_PATH, host) == ListenerThrows
  {
    NumericLastLabelPlain();
    ForeignNumericAuthorityThrows("a.1", host);
  }

  lemma NumericLastLabelPlain()
    ensures "a.1" != [] && (forall i :: 0 <= i < |"a.1"| ==> !ForbiddenDomainChar("a.1"[i]))
    ensures !NumericHostValid("a.1")
    ensures "//a.1" + PROXY_PATH == "//" + "a.1" + PROXY_PATH
  {
    NumericLastLabelInvalid();
    NumericLastLabelChars();
    NumericLastLabelTarget();
  }

  lemma NumericLastLabelChars()
    ensures forall i :: 0 <= i < |"a.1"| ==> !ForbiddenDomainChar("a.1"[i])
  {
  }

  lemma NumericLastLabelTarget()
    ensures "//a.1" + PROXY_PATH == "//" + "a.1" + PROXY_PATH
  {
    assert "//a.1" == "//" + "a.1";
  }

  /** An IPv4 address as the authority is a valid host: `//127.0.0.1/api/copilot` is upgraded
      beside any `Host` that parses. */
  lemma LoopbackAuthorityAccepted(host: Option<string>)
    requires BaseValid(HostText(host))
    ensures UpgradeDecision("//127.0.0.1" + PROXY_PATH, host) == HandleUpgrade
  {
    LoopbackPlain();
    ForeignAuthorityAccepted("127.0.0.1", host);
  }

  lemma LoopbackPlain()
    ensures "127.0.0.1" != [] && (forall i :: 0 <= i < |"127.0.0.1"| ==> !ForbiddenDomainChar("127.0.0.1"[i]))
    ensures NumericHostValid("127.0.0.1")
    ensures "//127.0.0.1" + PROXY_PATH == "//" + "127.0.0.1" + PROXY_PATH
  {
    LoopbackHostValid();
    LoopbackChars();
    LoopbackTarget();
  }

  lemma LoopbackChars()
    ensures forall i :: 0 <= i < |"127.0.0.1"| ==> !ForbiddenDomainChar("127.0.0.1"[i])
  {
  }

  lemma LoopbackTarget()
    ensures "//127.0.0.1" + PROXY_PATH == "//" + "127.0.0.1" + PROXY_PATH
  {
    assert "//127.0.0.1" == "//" + "127.0.0.1";
  }

  /** How `//name/api/copilot` splits: a plain target whose authority is `name` and whose path
      is the proxy path. */
  lemma ForeignAuthorityParts(name: string)
    requires name != [] && forall i :: 0 <= i < |name| ==> !ForbiddenDomainChar(name[i])
    ensures var target := "//" + name + PROXY_PATH;
      var rest := DropSlashes(target);
      && (forall i :: 0 <= i < |target| ==> !IsC0OrSpace(target[i]))
      && rest == name + PROXY_PATH
      && SpanUntil(rest, AUTHORITY_END) == |name|
      && rest[..|name|] == name && rest[|name|..] == PROXY_PATH
      && PathPart(PROXY_PATH) == PROXY_PATH
  {
    ProxyPathPlain();
    PlainDomainChars(name);
    PlainTarget(name, name + PROXY_PATH);
    assert "//" + name + PROXY_PATH == "//" + (name + PROXY_PATH);
    ForeignRest(name);
    ForeignSpan(name);
    ProxyPathIsPath();
  }

  lemma ForeignRest(name: string)
    requires name != [] && !IsSlash(name[0])
    ensures DropSlashes("//" + name + PROXY_PATH) == name + PROXY_PATH
  {
    var rest := name + PROXY_PATH;
    assert "//" + name + PROXY_PATH == "/" + ("/" + rest);
    assert rest[0] == name[0];
    assert ("/" + rest)[1..] == rest;
    assert DropSlashes("/" + rest) == rest;
    assert ("/" + ("/" + rest))[1..] == "/" + rest;
  }

  lemma ForeignSpan(name: string)
    requires forall i :: 0 <= i < |name| ==> name[i] !in AUTHORITY_END
    ensures var rest := name + PROXY_PATH;
      SpanUntil(rest, AUTHORITY_END) == |name| && rest[..|name|] == name && rest[|name|..] == PROXY_PATH
  {
    var rest := name + PROXY_PATH;
    ProxyPathPlain();
    assert rest[|name|] == '/';
    assert forall i :: 0 <= i < |name| ==> rest[i] == name[i];
    SpanUntilAt(rest, AUTHORITY_END, |name|);
    assert rest[..|name|] == name && rest[|name|..] == PROXY_PATH;
  }

  lemma ProxyPathIsPath()
    ensures PathPart(PROXY_PATH) == PROXY_PATH
  {
    ProxyPathPlain();
    PathPartOfPrefix(PROXY_PATH, PROXY_PATH);
    SlashedPlain(PROXY_PATH);
  }

  /** "//" + a plain host name + the proxy path holds no control character or space. */
  lemma PlainTarget(name: string, rest: string)
    requires rest == name + PROXY_PATH
    requires forall i :: 0 <= i < |name| ==> !IsC0OrSpace(name[i])
    requires forall i :: 0 <= i < |PROXY_PATH| ==> !IsC0OrSpace(PROXY_PATH[i])
    ensures forall i :: 0 <= i < |"//" + rest| ==> !IsC0OrSpace(("//" + rest)[i])
  {
    var target := "//" + rest;
    forall i | 0 <= i < |target| ensures !IsC0OrSpace(target[i]) {
      if 2 <= i < 2 + |name| {
        assert target[i] == name[i - 2];
      } else if i >= 2 + |name| {
        assert target[i] == PROXY_PATH[i - 2 - |name|];
      }
    }
  }

  /** A target of just two slashes has an empty authority: the listener throws. */
  lemma EmptyAuthorityTargetThrows(host: Option<string>)
    ensures UpgradeDecision("//", host) == ListenerThrows
  {
    EmptyAuthorityThrows("//");
  }

  /** A `Host` header with a space in its host name does not parse: the listener throws. */
  lemma SpaceInHostThrows(target: string)
    ensures UpgradeDecision(target, Some("a b")) == ListenerThrows
  {
    assert "a b" == "a" + " " + "b";
    SpaceInHostInvalid("a", "b");
    BadHostThrows(target, Some("a b"));
  }

  datatype ReadyState = Open | Closing | Closed

  datatype StdioMode = Pipe

  /** `spawn(process.execPath, [COPILOT_MODULE], {stdio: [...]})`. */
  datatype SpawnCall = SpawnCall(program: string, args: seq<string>, stdio: seq<StdioMode>)

  /** A stand-in for the value of `process.execPath`, the running Node binary, which is not known
      to the model. */
  const NODE_EXECUTABLE: string := "<process.execPath>"
  /** A stand-in for the agent entry point, which the source resolves at start-up against the
      server directory (`__dirname`); only that relative part is known to the model. */
  const COPILOT_MODULE: string := "<__dirname>/../node_modules/@github/copilot/index.js"
  const AGENT_SPAWN: SpawnCall := SpawnCall(NODE_EXECUTABLE, [COPILOT_MODULE], [Pipe, Pipe, Pipe])

  datatype CloseFrame = CloseFrame(code: int, reason: string)

  /** The state of one accepted connection, as its `connection` listener set it up. */
  class ProxyConnection {
    const spawn: SpawnCall
    var readyState: ReadyState
    var childKilled: bool
    var childExited: bool
    var handleGone: bool
    var closeFrame: Option<CloseFrame>
    var sentToSocket: seq<Chunk>
    var writtenToStdin: seq<Chunk>
    var killCalls: nat

    /** `handleGone` records that the child's process handle is released: the child exited,
        or it failed to spawn. A `kill()` that finds the handle sets `child.killed`, and the
        guard then stops any further call, so a killed child was killed by exactly one call; a
        call that leaves `killed` false can only come once the handle is gone. A close frame is
        sent only while leaving OPEN, a released handle never has an OPEN socket beside it, and
        once the socket has closed the child was killed or its handle is gone. */
    ghost predicate Valid()
      reads this
    {
      && (childKilled ==> killCalls == 1)
      && (killCalls > 0 && !childKilled ==> handleGone)
      && (closeFrame.Some? ==> readyState != Open)
      && (childExited ==> handleGone)
      && (handleGone ==> readyState != Open)
      && (readyState == Closed ==> childKilled || handleGone)
    }

    /** The `connection` listener: one child, with three piped standard streams. */
    constructor ()
      ensures Valid()
      ensures spawn == AGENT_SPAWN && |spawn.stdio| == 3 && forall i :: 0 <= i < 3 ==> spawn.stdio[i] == Pipe
      ensures readyState == Open && !childKilled && !childExited && !handleGone && closeFrame == None
      ensures sentToSocket == [] && writtenToStdin == [] && killCalls == 0
    {
      spawn := AGENT_SPAWN;
      readyState := Open;
      childKilled := false;
      childExited := false;
      handleGone := false;
      closeFrame := None;
      sentToSocket := [];
      writtenToStdin := [];
      killCalls := 0;
    }

    /** `ws.close(code, reason)`: from OPEN the socket starts closing with that frame; once
        closing or closed it does nothing. */
    method CloseSocket(code: int, reason: string)
      requires Valid()
      modifies this
      ensures Valid()
      ensures old(readyState) == Open ==> readyState == Closing && closeFrame == Some(CloseFrame(code, reason))
      ensures old(readyState) != Open ==> readyState == old(readyState) && closeFrame == old(closeFrame)
      ensures childKilled == old(childKilled) && childExited == old(childExited) && handleGone == old(handleGone) && killCalls == old(killCalls)
      ensures sentToSocket == old(sentToSocket) && writtenToStdin == old(writtenToStdin)
    {
      if readyState == Open {
        readyState := Closing;
        closeFrame := Some(CloseFrame(code, reason));
      }
    }

    /** `if (!child.killed) child.kill()`, shared by the socket's `close` and `error` listeners.
        `kill()` sets `child.killed` only when it finds the child's handle; once the child has
        exited or failed to spawn the handle is gone, so the call sets nothing and the guard
        lets every later call through as well. */
    method KillUnlessKilled()
      requires Valid()
      modifies this
      ensures Valid()
      ensures childKilled == (old(childKilled) || !handleGone)
      ensures killCalls == (if old(childKilled) then old(killCalls) else old(killCalls) + 1)
      ensures readyState == old(readyState) && closeFrame == old(closeFrame)
      ensures childExited == old(childExited) && handleGone == old(handleGone)
      ensures sentToSocket == old(sentToSocket) && writtenToStdin == old(writtenToStdin)
    {
      if !childKilled {
        killCalls := killCalls + 1;
        if !handleGone {
          childKilled := true;
        }
      }
    }

    /** The child's `error` event, which here means the spawn failed: the socket is closed as an
        internal error, and Node releases the child's handle without an `exit` event. */
    method OnChildError()
      requires Valid()
      modifies this
      ensures Valid()
      ensures handleGone && readyState != Open
      ensures old(readyState) == Open ==>
                readyState == Closing && closeFrame == Some(CloseFrame(CLOSE_INTERNAL_ERROR, CHILD_ERROR_REASON))
      ensures old(readyState) != Open ==> readyState == old(readyState) && closeFrame == old(closeFrame)
      ensures childKilled == old(childKilled) && childExited == old(childExited) && killCalls == old(killCalls)
      ensures sentToSocket == old(sentToSocket) && writtenToStdin == old(writtenToStdin)
    {
      CloseSocket(CLOSE_INTERNAL_ERROR, CHILD_ERROR_REASON);
      handleGone := true;
    }

    /** The child's `exit` event (any code or signal): the socket is closed normally. */
    method OnChildExit(code: Option<int>, signal: Option<string>)
      requires Valid()
      modifies this
      ensures Valid()
      ensures childExited && handleGone && readyState != Open
      ensures old(readyState) == Open ==>
                readyState == Closing && closeFrame == Some(CloseFrame(CLOSE_NORMAL, CHILD_EXIT_REASON))
      ensures old(readyState) != Open ==> readyState == old(readyState) && closeFrame == old(closeFrame)
      ensures childKilled == old(childKilled) && killCalls == old(killCalls)
      ensures sentToSocket == old(sentToSocket) && writtenToStdin == old(writtenToStdin)
    {
      CloseSocket(CLOSE_NORMAL, CHILD_EXIT_REASON);
      childExited := true;
      handleGone := true;
    }

    /** A chunk on the child's stdout: sent as one message iff the socket is OPEN. */
    method OnStdout(data: Chunk)
      requires Valid()
      modifies this
      ensures Valid()
      ensures sentToSocket == old(sentToSocket) + (if old(readyState) == Open then [data] else [])
      ensures readyState == old(readyState) && closeFrame == old(closeFrame)
      ensures childKilled == old(childKilled) && childExited == old(childExited) && handleGone == old(handleGone) && killCalls == old(killCalls)
      ensures writtenToStdin == old(writtenToStdin)
    {
      if readyState == Open {
        sentToSocket := sentToSocket + [data];
      }
    }

    /** A chunk on the child's stderr: logged only, never sent to the socket. */
    method OnStderr(data: Chunk)
      requires Valid()
      ensures Valid()
      ensures sentToSocket == old(sentToSocket) && writtenToStdin == old(writtenToStdin)
    {
    }

    /** A message from the socket: written to the child's stdin iff `child.killed` is false. A
        child that exited on its own was not killed, so it is still written to. */
    method OnMessage(data: Chunk)
      requires Valid()
      modifies this
      ensures Valid()
      ensures writtenToStdin == old(writtenToStdin) + (if !old(childKilled) then [data] else [])
      ensures readyState == old(readyState) && closeFrame == old(closeFrame)
      ensures childKilled == old(childKilled) && childExited == old(childExited) && handleGone == old(handleGone) && killCalls == old(killCalls)
      ensures sentToSocket == old(sentToSocket)
    {
      if !childKilled {
        writtenToStdin := writtenToStdin + [data];
      }
    }

    /** The socket's `close` event: the socket is CLOSED and the child is killed unless it
        already was. */
    method OnSocketClose()
      requires Valid()
      modifies this
      ensures Valid()
      ensures readyState == Closed
      ensures childKilled == (old(childKilled) || !handleGone)
      ensures killCalls == (if old(childKilled) then old(killCalls) else old(killCalls) + 1)
      ensures closeFrame == old(closeFrame) && childExited == old(childExited) && handleGone == old(handleGone)
      ensures sentToSocket == old(sentToSocket) && writtenToStdin == old(writtenToStdin)
    {
      KillUnlessKilled();
      readyState := Closed;
    }

    /** The socket's `error` event: the child is killed unless it already was. */
    method OnSocketError()
      requires Valid()
      modifies this
      ensures Valid()
      ensures childKilled == (old(childKilled) || !handleGone)
      ensures killCalls == (if old(childKilled) then old(killCalls) else old(killCalls) + 1)
      ensures readyState == old(readyState) && closeFrame == old(closeFrame)
      ensures childExited == old(childExited) && handleGone == old(handleGone)
      ensures sentToSocket == old(sentToSocket) && writtenToStdin == old(writtenToStdin)
    {
      KillUnlessKilled();
    }
  }

  /** The listener side: every `upgrade` request is handed to the WebSocket server, which
      accepts a connection and spawns its child, has its socket destroyed, or makes the
      listener throw, which leaves the socket alone. */
  class ProxyServer {
    var connections: seq<ProxyConnection>
    var destroyedSockets: nat
    var listenerErrors: nat

    /** One spawned child per accepted connection, each with three piped streams. */
    ghost predicate Valid()
      reads this
    {
      forall i :: 0 <= i < |connections| ==> connections[i].spawn == AGENT_SPAWN
    }

    constructor ()
      ensures Valid() && connections == [] && destroyedSockets == 0 && listenerErrors == 0
    {
      connections := [];
      destroyedSockets := 0;
      listenerErrors := 0;
    }

    /** One `upgrade` event for request target `target` with `Host` header `host`. */
    method OnUpgrade(target: string, host: Option<string>) returns (accepted: Option<ProxyConnection>)
      requires Valid()
      modifies this
      ensures Valid()
      ensures UpgradeDecision(target, host) == HandleUpgrade ==>
                && accepted.Some? && fresh(accepted.value) && accepted.value.Valid()
                && accepted.value.readyState == Open && accepted.value.spawn == AGENT_SPAWN
                && connections == old(connections) + [accepted.value]
                && destroyedSockets == old(destroyedSockets) && listenerErrors == old(listenerErrors)
      ensures UpgradeDecision(target, host) == DestroySocket ==>
                && accepted == None && connections == old(connections)
                && destroyedSockets == old(destroyedSockets) + 1 && listenerErrors == old(listenerErrors)
      ensures UpgradeDecision(target, host) == ListenerThrows ==>
                && accepted == None && connections == old(connections)
                && destroyedSockets == old(destroyedSockets) && listenerErrors == old(listenerErrors) + 1
    {
      accepted := Dispatch(UpgradeDecision(target, host));
    }

    /** Carry out the listener's choice: upgrade and spawn, destroy the socket, or throw. */
    method Dispatch(decision: UpgradeAction) returns (accepted: Option<ProxyConnection>)
      requires Valid()
      modifies this
      ensures Valid()
      ensures decision == HandleUpgrade ==>
                && accepted.Some? && fresh(accepted.value) && accepted.value.Valid()
                && accepted.value.readyState == Open && accepted.value.spawn == AGENT_SPAWN
                && connections == old(connections) + [accepted.value]
                && destroyedSockets == old(destroyedSockets) && listenerErrors == old(listenerErrors)
      ensures decision == DestroySocket ==>
                && accepted == None && connections == old(connections)
                && destroyedSockets == old(destroyedSockets) + 1 && listenerErrors == old(listenerErrors)
      ensures decision == ListenerThrows ==>
                && accepted == None && connections == old(connections)
                && destroyedSockets == old(destroyedSockets) && listenerErrors == old(listenerErrors) + 1
    {
      if decision == HandleUpgrade {
        var c := new ProxyConnection();
        connections := connections + [c];
        accepted := Some(c);
      } else if decision == DestroySocket {
        destroyedSockets := destroyedSockets + 1;
        accepted := None;
      } else {
        listenerErrors := listenerErrors + 1;
        accepted := None;
      }
    }
  }

  /** The child exits on its own and a message then comes in from the peer: the exit closes the
      socket normally, yet the message is still written to the dead child's stdin, because the
      guard reads `child.killed`, which only a `kill()` reaching a live child sets. */
  method InputAfterNaturalExit(data: Chunk) returns (c: ProxyConnection)
    ensures fresh(c) && c.Valid()
    ensures c.childExited && !c.childKilled && c.writtenToStdin == [data]
    ensures c.readyState == Closing && c.closeFrame == Some(CloseFrame(CLOSE_NORMAL, CHILD_EXIT_REASON))
  {
    c := new ProxyConnection();
    c.OnChildExit(Some(0), None);
    c.OnMessage(data);
  }

  /** A socket error followed by the socket's close (the order `ws` emits them in), with the
      child still alive: the child is killed once, not twice. */
  method ErrorThenClose() returns (c: ProxyConnection)
    ensures fresh(c) && c.Valid()
    ensures c.killCalls == 1 && c.childKilled && c.readyState == Closed
  {
    c := new ProxyConnection();
    c.OnSocketError();
    c.OnSocketClose();
  }

  /** The same error and close after the child exited on its own: neither `kill()` reaches the
      child, so `child.killed` stays false and both calls are made. */
  method ExitThenErrorThenClose() returns (c: ProxyConnection)
    ensures fresh(c) && c.Valid()
    ensures c.killCalls == 2 && !c.childKilled && c.childExited && c.readyState == Closed
  {
    c := new ProxyConnection();
    c.OnChildExit(None, Some("SIGTERM"));
    c.OnSocketError();
    c.OnSocketClose();
  }

  /** The child fails to spawn and the peer then disconnects: the socket closes with 1011, and
      the `kill()` on close finds no handle, so `child.killed` stays false although no `exit`
      was ever emitted. */
  method SpawnErrorThenClose() returns (c: ProxyConnection)
    ensures fresh(c) && c.Valid()
    ensures c.closeFrame == Some(CloseFrame(CLOSE_INTERNAL_ERROR, CHILD_ERROR_REASON))
    ensures c.killCalls == 1 && !c.childKilled && !c.childExited && c.handleGone && c.readyState == Closed
  {
    c := new ProxyConnection();
    c.OnChildError();
    c.OnSocketClose();
  }
}
