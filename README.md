# Copilot bridge for a PowerPoint add-in, in Dafny

This project models the core of a PowerPoint add-in that talks to a Copilot agent process.
It covers three things:

- **The browser client** (`src/ui/lib/websocket-client.ts`).
  - `WebSocketCopilotClient` connects, creates sessions, stops, and routes the agent's
    `session.event` notifications and `tool.call` requests.
  - `BrowserCopilotSession` keeps a subscriber set and a tool-handler table. It sends prompts,
    and its `query` generator turns events into an asynchronous sequence.
- **The server-side bridge** (`src/copilotProxy.js`). It keeps only `upgrade` requests whose
  target, parsed by `new URL` against `https://` and the `Host` header, has the pathname
  `/api/copilot`. For each accepted socket it spawns one agent process and relays bytes both
  ways. When either side ends, the other is torn down.
- **Two read-only tools** the agent can call: `get_presentation_content`
  (`src/ui/tools/getPresentationContent.ts`) and `get_presentation_overview`
  (`src/ui/tools/getPresentationOverview.ts`). Both read the deck in batches of ten slides, one
  `PowerPoint.run` per batch, and render text.

Modules, one per concern:

| module | file | what it holds |
|---|---|---|
| `Wrappers` | `wrappers.dfy` | `Option`, `Result`, `Outcome` |
| `Strings` | `strings.dfy` | `join`, number rendering in template literals, `trim` with ECMAScript's whitespace set |
| `Protocol` | `protocol.dfy` | events, tools, tool results, requests, replies, notifications |
| `Tools` | `tools.dfy` | the tool table, the manifest sent to the agent, the `tool.call` router |
| `Sessions` | `session.dfy` | `BrowserCopilotSession` as a class, and the subscriber set as a duplicate-free sequence |
| `Query` | `query.dfy` | `query()` as a state machine over arrivals, send rejection, pulls and `return()` |
| `Client` | `client.dfy` | `WebSocketCopilotClient` as a class |
| `Url` | `url.dfy` | the part of the WHATWG URL parser that decides whether `new URL` throws and what `pathname` is, for a base whose path is `/` |
| `CopilotProxy` | `copilot_proxy.dfy` | the upgrade filter, and one class per accepted connection holding the state its listeners read and write |
| `Deck` | `deck.dfy` | the host's deck and where a `PowerPoint.run` fails, `Array.prototype.slice`, numbered mapping, the batching of a slide range |
| `PresentationContent` | `presentation_content.dfy` | `get_presentation_content` |
| `PresentationOverview` | `presentation_overview.dfy` | `get_presentation_overview` |

How the outside world is modelled:

- **Network replies.** A request's outcome is a parameter of the method that sends it: a
  `Reply` that is either answered or rejected.
- **Socket opening.** Whether the socket opens is a boolean parameter of `Start`.
- **Tool handlers.** How a handler behaves is a function parameter from handler and invocation
  to `Returned(result)` or `Threw(message)`.
- **Event handlers.** Whether a subscriber throws is a predicate parameter.
- **The PowerPoint host.** The host is a `Host` value: the deck, plus the index of the
  `PowerPoint.run` that rejects, if any. Run 0 counts the slides; run `k` is the `k`-th batch.
- **Process and socket events.** The two processes' events are methods on `ProxyConnection`,
  to be called in any order.

Places where the code behaves differently from what its design suggests. The model follows the code:

- `destroy()` clears the subscriber set and the tool table only after the destroy request
  succeeds. A rejection propagates and leaves both in place, and `stop()` swallows it.
- A string returned by a tool handler is passed back unchanged. Both arms of
  `typeof result === "string" ? result : result` return `result`.
- `query()` never ends when `session.send` rejects and no event follows. The `.catch` sets
  `done` but does not call the pending `resolve`, so a consumer suspended on the wake-up promise
  stays suspended (`Query.RejectedSendHangs`).
- The bridge writes to the child's stdin whenever `child.killed` is false. A child that exited
  by itself was never killed, so input that arrives after its exit is still written to it
  (`CopilotProxy.InputAfterNaturalExit`).
- The upgrade filter compares only the parsed pathname. A target such as `//evil/api/copilot`
  names another authority, which `new URL` reads and drops, so it is upgraded
  (`CopilotProxy.ForeignAuthorityAccepted`). A foreign authority that ends in a number must be
  an IPv4 address: `//127.0.0.1/api/copilot` is upgraded, while `//a.1/api/copilot` makes the
  listener throw (`CopilotProxy.LoopbackAuthorityAccepted`, `CopilotProxy.NumericLastLabelTargetThrows`).
- A target or `Host` header that `new URL` rejects (the target `//`, or a `Host` of `a b`)
  makes the listener throw. The socket is then neither upgraded nor destroyed
  (`CopilotProxy.EmptyAuthorityTargetThrows`, `CopilotProxy.SpaceInHostThrows`).
- The guard `if (!child.killed)` does not stop a second `kill()` once the child has exited,
  because `kill()` on an exited child sets nothing. After a natural exit, a socket error and
  the close that follows both call it (`CopilotProxy.ExitThenErrorThenClose`).
- A child that failed to spawn emits `error` but no `exit`, and its handle is released all the
  same. The `kill()` on close then finds nothing, so `child.killed` stays false
  (`CopilotProxy.SpawnErrorThenClose`).
- A range request is clipped to the deck, and an empty clipped range is refused. The refusal
  message quotes the arguments as given, not the clipped bounds.

## Model

| member | source | states |
|---|---|---|
| Strings.JoinLength | src/ui/tools/getPresentationOverview.ts:44 | a join's length is the parts' total length plus one separator between each neighbouring pair |
| Strings.JoinEmptyIff | src/ui/tools/getPresentationContent.ts:44 | a join of non-empty parts is empty exactly when there are no parts, which is when the empty-slide marker is used |
| Strings.JoinEnds | src/ui/tools/getPresentationOverview.ts:44 | a join of at least one part opens with the first part and closes with the last |
| Strings.NatToStringDigits | src/ui/tools/getPresentationContent.ts:44 | a count renders as a non-empty run of decimal digits, with no leading zero unless it is 0 |
| Strings.NatToStringRoundTrip | src/ui/tools/getPresentationContent.ts:44 | reading the rendered digits back gives the number, so distinct numbers render differently |
| Strings.IntToStringShape | src/ui/tools/getPresentationContent.ts:44 | a slide number renders on one line as decimal digits, with a leading minus sign exactly when it is negative, and the digits read back as its magnitude |
| Strings.TrimStart | src/ui/tools/getPresentationOverview.ts:36 | the result is a suffix of the input, what it drops is all whitespace, and it does not start with whitespace |
| Strings.TrimEnd | src/ui/tools/getPresentationOverview.ts:36 | the result is a prefix of the input, what it drops is all whitespace, and it does not end with whitespace |
| Strings.Trim | src/ui/tools/getPresentationOverview.ts:36 | `trim()` never lengthens a string, and a non-empty result neither starts nor ends with whitespace |
| Strings.TrimIsInfix | src/ui/tools/getPresentationOverview.ts:36 | the trimmed text is the part of the input between a whitespace-only prefix and a whitespace-only suffix |
| Strings.TrimEmptyIff | src/ui/tools/getPresentationOverview.ts:36-37 | a text trims to the empty string (and is skipped) exactly when it is all whitespace |
| Tools.ToolTableDomain | src/ui/lib/websocket-client.ts:95-102 | after `registerTools`, a name resolves exactly when some tool in the list carries it |
| Tools.ToolTableLastWins | src/ui/lib/websocket-client.ts:98-100 | a name resolves to the handler of its last occurrence in the list |
| Tools.LastOccurrenceExists | src/ui/lib/websocket-client.ts:98-100 | every name some tool carries has a last occurrence |
| Tools.ToolTable | src/ui/lib/websocket-client.ts:95-102 | every name in the table is carried by some tool of the list, and maps to that tool's handler |
| Tools.Manifest | src/ui/lib/websocket-client.ts:164-168 | a manifest exists exactly when tools were given; it has one declaration per tool, in order, carrying that tool's name, description and parameters |
| Tools.ManifestMatchesTable | src/ui/lib/websocket-client.ts:164-173 | the agent is told about a name exactly when that name resolves in the session's tool table |
| Tools.NotSupported | src/ui/lib/websocket-client.ts:213-218 | the not-supported result is a failure with no telemetry; its text is `Tool '`, the tool name and `' not supported`, and its error is the same text starting with a lower-case `t` |
| Tools.RouteToolCall | src/ui/lib/websocket-client.ts:210-243 | no handler gets the not-supported failure with both messages; a returned result is passed on unchanged; a throw becomes a failure whose text and error are the exception message |
| Tools.RouteAfterRegistration | src/ui/lib/websocket-client.ts:209-243 | against a registered list, an undeclared name gets not-supported and a declared one runs the handler of its last occurrence |
| Sessions.AddedIsSetInsertion | src/ui/lib/websocket-client.ts:85 | `add` keeps the set duplicate-free, adds exactly the handler, and adding twice is adding once |
| Sessions.Added | src/ui/lib/websocket-client.ts:85 | `add` keeps every subscriber, grows the set by at most one, and the handler is subscribed afterwards |
| Sessions.RemovedMembers | src/ui/lib/websocket-client.ts:86 | after `delete`, a handler is subscribed exactly when it was subscribed and is not the removed one |
| Sessions.Removed | src/ui/lib/websocket-client.ts:86 | `delete` keeps only subscribers that were there, never grows the set, and the handler is not subscribed afterwards |
| Sessions.RemovedAbsent | src/ui/lib/websocket-client.ts:86 | deleting a handler that is not subscribed changes nothing |
| Sessions.RemovedExactly | src/ui/lib/websocket-client.ts:86 | deleting cuts out exactly the handler's position, keeping the others in order |
| Sessions.RemovedKeepsNoDuplicates | src/ui/lib/websocket-client.ts:86 | deleting keeps the set duplicate-free |
| Sessions.DisposeUndoesOn | src/ui/lib/websocket-client.ts:84-87 | subscribing a new handler and calling its disposer restores the subscriber set |
| Sessions.BrowserCopilotSession.constructor | src/ui/lib/websocket-client.ts:34-40 | a new session has its id, no subscribers and no tools |
| Sessions.BrowserCopilotSession.Send | src/ui/lib/websocket-client.ts:42-50 | one `session.send` with the session id, prompt, attachments and mode; the result is the answered message id, or the rejection |
| Sessions.BrowserCopilotSession.GetMessages | src/ui/lib/websocket-client.ts:108-113 | one `session.getMessages` for the session; the result is the answered events, or the rejection |
| Sessions.BrowserCopilotSession.On | src/ui/lib/websocket-client.ts:84-87 | the handler is added to the set, the tool table is untouched, and the disposer names the handler |
| Sessions.BrowserCopilotSession.Dispose | src/ui/lib/websocket-client.ts:86 | the disposer removes that handler only |
| Sessions.BrowserCopilotSession.DispatchEvent | src/ui/lib/websocket-client.ts:89-93 | every subscriber is called once, in set order, with the event, and throwing handlers do not stop the rest |
| Sessions.BrowserCopilotSession.RegisterTools | src/ui/lib/websocket-client.ts:95-102 | the table becomes the one built from the list by successive `set`, or empty without a list; subscribers are untouched |
| Sessions.RegisterTwice | src/ui/lib/websocket-client.ts:95-102 | after two `registerTools` calls, a name resolves exactly when the second list declares it, and to the handler of its last occurrence there; subscribers are untouched |
| Sessions.BrowserCopilotSession.GetToolHandler | src/ui/lib/websocket-client.ts:104-106 | a handler is found exactly when the name is in the table, and it is the table's entry |
| Sessions.BrowserCopilotSession.Destroy | src/ui/lib/websocket-client.ts:115-121 | one `session.destroy`; both tables are cleared on success and unchanged on rejection, which propagates |
| Query.InitialInv | src/ui/lib/websocket-client.ts:56-58 | the fresh generator satisfies the invariant linking queue, histories and subscription |
| Query.Loop | src/ui/lib/websocket-client.ts:71-81 | one pass of the `while (true)` loop: a non-empty queue yields its head, moving it to the yielded history; an empty queue after `done` ends the sequence and unsubscribes; otherwise the consumer waits; the histories' concatenation is kept |
| Query.Step | src/ui/lib/websocket-client.ts:55-82 | an arrival while subscribed is recorded and queued, and an idle event or a rejected send after the start sets `done`; only a pull yields, and it yields the head of a non-empty queue |
| Query.StepKeepsInv | src/ui/lib/websocket-client.ts:55-82 | every arrival, send rejection, pull and `return()` keeps the invariant |
| Query.StepRecordsYield | src/ui/lib/websocket-client.ts:73 | an event a step yields is appended to the yielded history |
| Query.RunKeepsInv | src/ui/lib/websocket-client.ts:55-82 | along any run the invariant holds, and the yielded history gains exactly the yielded events |
| Query.QueryYieldsArrivalsInOrder | src/ui/lib/websocket-client.ts:60-81 | from the start, the consumer sees a prefix of the delivered events in order; after exhaustion it has seen all of them; a finished generator is unsubscribed |
| Query.CompletesOnlyWhenDrained | src/ui/lib/websocket-client.ts:71-81 | the sequence ends by exhaustion only when `done` is set and the queue is empty, and ending unsubscribes |
| Query.ArrivalAfterIdleIsQueued | src/ui/lib/websocket-client.ts:60-66 | an event arriving after `session.idle` is still queued behind the others |
| Query.DrainThenComplete | src/ui/lib/websocket-client.ts:71-81 | once `done` is set and the consumer is not blocked, pulling yields the whole queue in order, then ends and unsubscribes |
| Query.BlockedUntilArrival | src/ui/lib/websocket-client.ts:62-75 | a consumer suspended on an empty queue stays suspended until an event arrives, whatever else happens |
| Query.RejectedSendHangs | src/ui/lib/websocket-client.ts:68-78 | if the send rejects and no event comes, the query remains pending and never completes |
| Client.IterationOrder | src/ui/lib/websocket-client.ts:179 | the sessions are visited in some order that visits each exactly once |
| Client.DestroyRequestsCover | src/ui/lib/websocket-client.ts:179-181 | the destroy requests along that order name every session exactly once |
| Client.WebSocketCopilotClient.constructor | src/ui/lib/websocket-client.ts:128-132 | a new client has no connection, no socket and no sessions |
| Client.WebSocketCopilotClient.Start | src/ui/lib/websocket-client.ts:134-153 | nothing happens when connected; otherwise a socket is opened and the client is connected exactly when it opens, failing with `Failed to connect to <url>` on error |
| Client.WebSocketCopilotClient.CreateSession | src/ui/lib/websocket-client.ts:155-176 | refused without a connection; otherwise one `session.create` with the manifest; on an answer a fresh session with the configured tools is stored under the returned id |
| Client.WebSocketCopilotClient.Stop | src/ui/lib/websocket-client.ts:178-193 | one destroy per session, failures swallowed and only successful ones clearing their session; afterwards no sessions, connection or socket |
| Client.WebSocketCopilotClient.DestroyEach | src/ui/lib/websocket-client.ts:179-181 | the loop sends one destroy per id in order, and changes exactly the sessions whose destroy succeeded |
| Client.WebSocketCopilotClient.DestroyOne | src/ui/lib/websocket-client.ts:180 | one session's destroy, swallowed when it fails, touching no other session |
| Client.WebSocketCopilotClient.RouteTarget | src/ui/lib/websocket-client.ts:199-201 | a notification reaches a session exactly when it carries a non-empty id and an event, and the id is known |
| Client.WebSocketCopilotClient.OnSessionEvent | src/ui/lib/websocket-client.ts:198-203 | a routable notification is dispatched to that session's subscribers in order; any other is dropped |
| Client.WebSocketCopilotClient.LookupToolHandler | src/ui/lib/websocket-client.ts:209-210 | a handler is found exactly when the session exists and has the tool |
| Client.WebSocketCopilotClient.OnToolCall | src/ui/lib/websocket-client.ts:205-245 | an unknown session or tool gets not-supported; otherwise the handler's result, or its exception as a failure |
| Client.CreateWebSocketClient | src/ui/lib/websocket-client.ts:252-256 | a new client for the URL, started: connected exactly when the socket opens |
| Client.StopTwice | src/ui/lib/websocket-client.ts:178-193 | a second `stop()` sends no destroy requests |
| Client.CreateRequest | src/ui/lib/websocket-client.ts:160-169 | the `session.create` request carries the config's model, session id and system message, and one declaration per tool with that tool's name, description and parameters |
| Url.RemoveTabsAndNewlines | src/copilotProxy.js:12 | `new URL` drops every tab, line feed and carriage return from its input and keeps every other character |
| Url.StripStart | src/copilotProxy.js:12 | trimming drops exactly a leading run of C0 controls and spaces |
| Url.StripEnd | src/copilotProxy.js:12 | trimming drops exactly a trailing run of C0 controls and spaces |
| Url.CleanedPlain | src/copilotProxy.js:12 | input without controls or spaces is parsed as it stands |
| Url.AfterLast | src/copilotProxy.js:12 | the host and port are what follows the last `@` of the authority, or all of it |
| Url.DomainAuthorityValid | src/copilotProxy.js:12 | a non-empty host name free of forbidden domain code points is a valid authority exactly when, if its last dot-separated part is a number, the whole name parses as an IPv4 address |
| Url.DomainBaseValid | src/copilotProxy.js:12 | a `Host` header that is such a host name makes `https://` + host a valid base exactly when, if it ends in a number, it parses as an IPv4 address |
| Url.WordHostValid | src/copilotProxy.js:12 | a dot-free host name that does not open with a digit never ends in a number, so the IPv4 step accepts it |
| Url.NumericLastLabelInvalid | src/copilotProxy.js:12 | `a.1` ends in a number but is not an IPv4 address, so the IPv4 step rejects it |
| Url.Ipv4FourParts | src/copilotProxy.js:12 | four dot-separated IPv4 numbers, each at most 255, parse as an IPv4 address |
| Url.LoopbackHostValid | src/copilotProxy.js:12 | `127.0.0.1` passes the IPv4 step |
| Url.SpaceInHostInvalid | src/copilotProxy.js:12 | a `Host` header with a space between two host names is not a valid base |
| Url.PathPart | src/copilotProxy.js:12 | the path is the longest prefix without `?` or `#`, with every backslash read as a slash |
| Url.PathPartOfPrefix | src/copilotProxy.js:12 | a prefix free of `?` and `#`, followed by one of them or by nothing, is the path |
| Url.PathPartIs | src/copilotProxy.js:12 | the path is a given text exactly when the input opens with it (backslashes as slashes) followed by nothing, `?` or `#` |
| Url.ResolvedPathname | src/copilotProxy.js:12 | when `new URL` does not throw, the pathname is non-empty, starts with `/`, and holds no `?`, `#` or backslash |
| Url.NetworkPathResolution | src/copilotProxy.js:12 | a target opening with two slashes throws exactly when its authority does not parse, and otherwise its pathname is the path after the authority, or `/` |
| Url.EmptyAuthorityThrows | src/copilotProxy.js:12 | two slashes followed by nothing, a query or a fragment leave an empty authority, so `new URL` throws |
| Url.OriginFormResolution | src/copilotProxy.js:12 | a target opening with exactly one slash never throws, and its pathname is its path part |
| CopilotProxy.DecisionByPathname | src/copilotProxy.js:12-20 | with a `Host` header that parses, the listener throws exactly when the target does not parse, and hands the request to the WebSocket server exactly when the pathname is `/api/copilot` |
| CopilotProxy.BadHostThrows | src/copilotProxy.js:12 | a `Host` header that does not make a valid base makes the listener throw, whatever the target |
| CopilotProxy.OriginFormDecision | src/copilotProxy.js:12-20 | for a one-slash target with a `Host` header that parses, the listener never throws, and upgrades exactly when the target is `/api/copilot` (either slash kind), alone or followed by a query or fragment |
| CopilotProxy.NetworkPathDecision | src/copilotProxy.js:12-20 | for a two-slash target, the listener throws exactly when the authority does not parse, and upgrades exactly when the path after the authority is `/api/copilot` |
| CopilotProxy.ForeignAuthorityAccepted | src/copilotProxy.js:12-20 | `//name/api/copilot`, for any plain host name such as `evil` that does not end in a number or is an IPv4 address, is upgraded |
| CopilotProxy.ForeignNumericAuthorityThrows | src/copilotProxy.js:12 | `//name/api/copilot`, for a plain host name that ends in a number but is not an IPv4 address, makes the listener throw |
| CopilotProxy.NumericLastLabelTargetThrows | src/copilotProxy.js:12 | the target `//a.1/api/copilot` makes the listener throw, whatever `Host` header that parses |
| CopilotProxy.LoopbackAuthorityAccepted | src/copilotProxy.js:12-20 | the target `//127.0.0.1/api/copilot` is upgraded, whatever `Host` header that parses |
| CopilotProxy.NumericHostThrows | src/copilotProxy.js:12 | a `Host` header that ends in a number but is not an IPv4 address makes the listener throw, whatever the target |
| CopilotProxy.NumericLastLabelHostThrows | src/copilotProxy.js:12 | the `Host` header `a.1` makes the listener throw, whatever the target |
| CopilotProxy.EmptyAuthorityTargetThrows | src/copilotProxy.js:12 | the target `//` makes the listener throw, whatever the `Host` header |
| CopilotProxy.SpaceInHostThrows | src/copilotProxy.js:12 | the `Host` header `a b` makes the listener throw, whatever the target |
| CopilotProxy.ProxyConnection.constructor | src/copilotProxy.js:26-28 | each connection spawns one child, the running Node binary on the agent module, with three piped streams |
| CopilotProxy.ProxyConnection.CloseSocket | src/copilotProxy.js:32-37 | `ws.close` starts closing from OPEN with the given frame and does nothing later |
| CopilotProxy.ProxyConnection.KillUnlessKilled | src/copilotProxy.js:61-70 | `kill()` is called exactly when the child is not marked killed; it marks a live child killed, while after the child exited or failed to spawn it marks nothing, so a later teardown calls it again |
| CopilotProxy.ProxyConnection.OnChildError | src/copilotProxy.js:30-33 | a child error (a failed spawn) closes the socket with 1011 and "Child process error", and leaves the child without a handle, so no later `kill()` marks it killed |
| CopilotProxy.ProxyConnection.OnChildExit | src/copilotProxy.js:35-38 | a child exit, with any code or signal, closes the socket with 1000 and "Child process exited" |
| CopilotProxy.ProxyConnection.OnStdout | src/copilotProxy.js:41-45 | stdout data is sent to the socket exactly when it is OPEN |
| CopilotProxy.ProxyConnection.OnStderr | src/copilotProxy.js:48-50 | stderr data never reaches the socket or the child |
| CopilotProxy.ProxyConnection.OnMessage | src/copilotProxy.js:53-57 | socket messages are written to stdin exactly when the child is not killed |
| CopilotProxy.ProxyConnection.OnSocketClose | src/copilotProxy.js:59-64 | socket close leaves the socket CLOSED and calls `kill()` unless the child is marked killed; a child whose handle is still there ends up killed |
| CopilotProxy.ProxyConnection.OnSocketError | src/copilotProxy.js:66-71 | a socket error calls `kill()` unless the child is marked killed; a child whose handle is still there ends up killed |
| CopilotProxy.ProxyServer.constructor | src/copilotProxy.js:9 | a new WebSocket server has no connections, has destroyed no sockets, and its listener has not thrown |
| CopilotProxy.ProxyServer.OnUpgrade | src/copilotProxy.js:11-28 | an upgraded request adds a fresh open connection with its spawned child; a refused path only destroys the socket; when `new URL` throws, only the thrown listener is counted and the socket is left as it is |
| CopilotProxy.ProxyServer.Dispatch | src/copilotProxy.js:14-28 | each of the three outcomes changes exactly its own part of the server state |
| CopilotProxy.InputAfterNaturalExit | src/copilotProxy.js:35-57 | after the child exits by itself, the socket is closing, yet a later message is still written to stdin |
| CopilotProxy.ErrorThenClose | src/copilotProxy.js:59-71 | with the child alive, a socket error followed by close kills the child with one `kill()` |
| CopilotProxy.ExitThenErrorThenClose | src/copilotProxy.js:35-71 | after the child exited on its own, an error then close call `kill()` twice and the child is never marked killed |
| CopilotProxy.SpawnErrorThenClose | src/copilotProxy.js:30-64 | after a failed spawn, the socket closes with 1011, and the close's `kill()` is made once and marks nothing, with no `exit` seen |
| Deck.HostFailure | src/ui/tools/getPresentationContent.ts:133-135 | a rejected host run becomes a failure whose text and error are both the message |
| Deck.ClampIndex | src/ui/tools/getPresentationContent.ts:12 | `slice`'s index normalisation: negative counts from the end, clamped to the length |
| Deck.JsSlice | src/ui/tools/getPresentationContent.ts:12 | `slice` never returns more elements than the array has |
| Deck.JsSliceInRange | src/ui/tools/getPresentationContent.ts:12 | within bounds, `slice` is the subsequence between the indices |
| Deck.JsSliceHead | src/ui/tools/getPresentationOverview.ts:34 | `slice(0, n)` keeps the first `n` elements, or all of them if there are fewer |
| Deck.MapNumberedAt | src/ui/tools/getPresentationContent.ts:32-45 | element `i` of the extraction loop's results is slide `i` rendered with number `startIdx + i` |
| Deck.MapNumberedAppend | src/ui/tools/getPresentationContent.ts:129 | rendering two runs one after the other equals rendering them together, numbering continued |
| Deck.MapNumberedSplit | src/ui/tools/getPresentationContent.ts:126-130 | rendering adjacent ranges of the deck and concatenating equals rendering their union |
| Deck.MapNumberedSnoc | src/ui/tools/getPresentationContent.ts:32-45 | one more loop iteration appends the next slide's rendering |
| Deck.ChunkRanges | src/ui/tools/getPresentationContent.ts:126-127 | the batch loop issues no batch exactly when `start > end` |
| Deck.ChunkRangesPartition | src/ui/tools/getPresentationContent.ts:126-127 | the batches are contiguous, cover exactly `start..end`, are non-empty, and are all full-size except possibly the last |
| Deck.ChunkRangesCount | src/ui/tools/getPresentationContent.ts:126 | the number of batches is the range length divided by the batch size, rounded up |
| PresentationContent.SelectRange | src/ui/tools/getPresentationContent.ts:94-122 | a valid `slideIndex` selects that slide and an invalid one fails with the exact message; a range selects exactly the requested slides that exist, or fails with the quoted message; otherwise the whole deck |
| PresentationContent.NonEmptyTexts | src/ui/tools/getPresentationContent.ts:37-43 | the collected texts are all non-empty and never outnumber the shapes |
| PresentationContent.NonEmptyTextsMembers | src/ui/tools/getPresentationContent.ts:37-43 | a string is collected exactly when it is some shape's non-empty text |
| PresentationContent.RenderSlideBody | src/ui/tools/getPresentationContent.ts:44 | a slide shows the empty marker exactly when no shape has text; otherwise its texts separated by blank lines, after the header |
| PresentationContent.SlideHeaderShape | src/ui/tools/getPresentationContent.ts:44 | a slide's header is one line that opens with `=== Slide ` and ends with ` ===` and a line feed |
| PresentationContent.SlideBlockShape | src/ui/tools/getPresentationContent.ts:44 | a block is its header followed by a non-empty body: the texts joined by blank lines, or `(empty slide)` when they join to nothing |
| PresentationContent.ChunkContentInRange | src/ui/tools/getPresentationContent.ts:12-45 | an in-range chunk holds exactly the blocks of its slides |
| PresentationContent.RenderedSplit | src/ui/tools/getPresentationContent.ts:129 | the blocks of adjacent ranges concatenate to the blocks of their union |
| PresentationContent.CollectTexts | src/ui/tools/getPresentationContent.ts:35-43 | the inner loop collects exactly the shapes' non-empty texts, in order |
| PresentationContent.ReadSlide | src/ui/tools/getPresentationContent.ts:33-44 | one slide's block |
| PresentationContent.GetSlideChunkContent | src/ui/tools/getPresentationContent.ts:5-48 | the chunk's blocks: one per slide of `slice(startIdx, endIdx + 1)`, numbered from `startIdx` |
| PresentationContent.ChunkOfSelection | src/ui/tools/getPresentationContent.ts:127-129 | the chunk from `i` to `chunkEnd` holds exactly the selection's blocks at those positions |
| PresentationContent.ReadChunk | src/ui/tools/getPresentationContent.ts:127-129 | one loop iteration extends the blocks read so far to the selection's blocks up to the chunk's last slide |
| PresentationContent.GetPresentationContent | src/ui/tools/getPresentationContent.ts:80-136 | the handler's result is the one stated over the whole selection at once, and the batches issued are all the selection's batches, or the batches up to and including the failing run |
| PresentationContent.ReadSelection | src/ui/tools/getPresentationContent.ts:125-132 | the chunk loop joins the blocks of every selected slide, or fails at the failing batch having issued exactly the batches before it and that one |
| PresentationContent.ReadingDone | src/ui/tools/getPresentationContent.ts:126 | once past the selection, every batch was issued and every selected slide read |
| PresentationContent.ReadNextBatch | src/ui/tools/getPresentationContent.ts:127-129 | one batch either fails, ending the call with its message, or keeps the loop invariant for the next start |
| PresentationContent.ReadingNext | src/ui/tools/getPresentationContent.ts:126-127 | the batch starting at `i` is the next of the selection's batches, followed by those starting at `i + 10` |
| PresentationContent.ReadingFails | src/ui/tools/getPresentationContent.ts:128-135 | when that batch's run fails, the batches issued are the selection's batches up to and including it |
| PresentationContent.ReadingStep | src/ui/tools/getPresentationContent.ts:126-129 | when it succeeds and its blocks are appended, the loop invariant holds for the next start |
| PresentationContent.SingleSlideRead | src/ui/tools/getPresentationContent.ts:97-132 | a valid `slideIndex` reads exactly that slide in one batch, whatever range arguments come with it |
| PresentationContent.SelectionListsEverySlide | src/ui/tools/getPresentationContent.ts:125-132 | a successful read of a selection joins one block per selected slide, in order, block `k` being slide `start + k`'s |
| PresentationContent.OversizedRangeReadsAll | src/ui/tools/getPresentationContent.ts:108-111 | a range reaching past both ends of the deck reads the same as no arguments |
| PresentationContent.HalfRangeReadsAll | src/ui/tools/getPresentationContent.ts:108-122 | a range with only one end given is ignored, and every slide is read |
| PresentationContent.Expected | src/ui/tools/getPresentationContent.ts:80-136 | a failure of the first host run is returned as the failure; no slides gives the no-slides text; otherwise a failure object comes only from a failing run or, with the host not failing, exactly from an invalid selection |
| PresentationOverview.Truncate | src/ui/tools/getPresentationOverview.ts:38 | a text of at most 100 characters is kept; a longer one becomes its first 100 characters plus "..." |
| PresentationOverview.FragmentOf | src/ui/tools/getPresentationOverview.ts:36-38 | a shape contributes a fragment exactly when it has text that is not all whitespace, and that fragment is non-empty and bounded |
| PresentationOverview.Fragments | src/ui/tools/getPresentationOverview.ts:34-40 | the fragments never outnumber the shapes, and each is non-empty and at most 103 characters |
| PresentationOverview.FragmentsStep | src/ui/tools/getPresentationOverview.ts:34-40 | one more shape appends its fragment, if it has one |
| PresentationOverview.SlideFragments | src/ui/tools/getPresentationOverview.ts:34 | only the first five shapes contribute, so at most five fragments |
| PresentationOverview.FragmentsEmptyIff | src/ui/tools/getPresentationOverview.ts:34-40 | no fragments exactly when every shape is without text or all whitespace |
| PresentationOverview.PreviewShape | src/ui/tools/getPresentationOverview.ts:43-45 | the empty marker is shown exactly when the first five shapes are blank, and every preview is non-empty and at most 315 characters |
| PresentationOverview.FragmentsLength | src/ui/tools/getPresentationOverview.ts:43-44 | the shown fragments' total length is between their count and 103 times their count |
| PresentationOverview.PreviewEnds | src/ui/tools/getPresentationOverview.ts:43-45 | a slide without fragments shows the empty marker; otherwise the preview opens with the first fragment and closes with the last one shown, the third at most |
| PresentationOverview.PreviewLineShape | src/ui/tools/getPresentationOverview.ts:46 | a line opens with `Slide ` and closes with the slide's preview |
| PresentationOverview.HeadingShape | src/ui/tools/getPresentationOverview.ts:81 | the heading opens with `Presentation has ` and closes with ` slide(s):` and a blank line, and the digits between read back as the slide count |
| PresentationOverview.CollectFragments | src/ui/tools/getPresentationOverview.ts:32-41 | the inner loop collects exactly the fragments of the first five shapes |
| PresentationOverview.ReadPreview | src/ui/tools/getPresentationOverview.ts:30-46 | one slide's line |
| PresentationOverview.GetSlidePreviewChunk | src/ui/tools/getPresentationOverview.ts:5-50 | the chunk's lines: one per slide of `slice(startIdx, endIdx + 1)`, numbered from `startIdx` |
| PresentationOverview.GetPresentationOverview | src/ui/tools/getPresentationOverview.ts:60-86 | the handler's result is the one stated over the whole deck at once, and the batches issued are all of the deck's, or those up to and including the failing run |
| PresentationOverview.PreviewingDone | src/ui/tools/getPresentationOverview.ts:75 | once past the deck, every batch was issued and every slide previewed |
| PresentationOverview.PreviewNextBatch | src/ui/tools/getPresentationOverview.ts:76-78 | one batch either fails, ending the call with its message, or keeps the loop invariant for the next start |
| PresentationOverview.PreviewChunk | src/ui/tools/getPresentationOverview.ts:76-78 | one loop iteration extends the lines to the chunk's last slide |
| PresentationOverview.PreviewingNext | src/ui/tools/getPresentationOverview.ts:75-76 | the batch starting at `i` is the next of the deck's batches, followed by those starting at `i + 10` |
| PresentationOverview.PreviewingFails | src/ui/tools/getPresentationOverview.ts:77-84 | when that batch's run fails, the batches issued are the deck's batches up to and including it |
| PresentationOverview.PreviewingStep | src/ui/tools/getPresentationOverview.ts:74-79 | when it succeeds and its lines are appended, the loop invariant holds for the next start |
| PresentationOverview.PreviewChunkExtends | src/ui/tools/getPresentationOverview.ts:76-78 | appending a chunk's lines extends the lines so far to the chunk's end |
| PresentationOverview.ChunkPreviewsInRange | src/ui/tools/getPresentationOverview.ts:11-47 | an in-range chunk holds exactly the lines of its slides |
| PresentationOverview.PreviewedSplit | src/ui/tools/getPresentationOverview.ts:78 | the lines of adjacent ranges concatenate to the lines of their union |
| PresentationOverview.OverviewListsEverySlide | src/ui/tools/getPresentationOverview.ts:74-81 | a successful overview is the heading followed by one line per slide, line `k` being slide `k`'s preview |
| PresentationOverview.Expected | src/ui/tools/getPresentationOverview.ts:60-86 | a failure object is returned only for a failing host run, and a failing first run always gives it; no slides gives the no-slides text; any other deck gives a text that starts with the heading |

## Left out

- The JSON-RPC transport and the WebSocket framing (`vscode-jsonrpc`, `websocket-transport`) are not part of this model. A request is sent, and its reply is a parameter of the sending method.
- Promise scheduling and concurrency are not modelled. Each method runs to completion. Interleavings are modelled only for `query()`, as its actions.
- Query: `return()` while a `next()` is still pending is modelled as pending. The queued request and its later completion are left out.
- Client.IterationOrder: the order is some order, not JavaScript `Map` insertion order, because `stop()`'s result does not depend on it.
- A request the agent never answers is left out. Every `Reply` is either answered or rejected.
- Console logging is left out: the `[tool.call]` logs, the bridge's connect and exit logs, and the child's stderr, which is only logged.
- `binaryResultsForLlm` and the other optional tool-result fields are left out. The core never sets them.
- Event payloads, tool parameter schemas and tool arguments are opaque strings, because the core passes them through unread.
- CopilotProxy.ProxyConnection.OnSocketClose: `kill()` sets `child.killed` at once when the child's handle is there, and sets nothing once the child exited or failed to spawn. A signal that fails for another reason (such as `EPERM`) is not modelled.
- CopilotProxy.ProxyConnection.OnChildError: every child `error` is taken to be a failed spawn. An `error` that Node emits for a `kill()` that could not send its signal, with the child still running, is not modelled.
- Url.ResolvedPathname: a target with a scheme (absolute form, such as `https://h/api/copilot`) is read as a relative path, so its own pathname is not taken. Dot segments (`/x/../api/copilot`) are not removed, and percent-encoding is not applied to the path. The base's own path is taken to be `/`: a `Host` header that carries a path (such as `n/api/copilot`) is accepted as a base, yet the empty target, a query-only or fragment-only target and a relative path are resolved as if that path were absent, although `new URL` would copy it or resolve against its directory. With such a `Host`, the empty target is upgraded by the source but refused by the model.
- Url.BaseValid: hosts are not percent-decoded or mapped through IDNA, and an IPv6 literal is checked only for its characters, not its structure. A host that only these steps reject is taken as valid. The IPv4 step is modelled: a host that ends in a number must parse as an IPv4 address in decimal, octal or hexadecimal parts, with every part in range.
- CopilotProxy.ProxyServer.OnUpgrade: what the HTTP server does with the exception thrown out of the `upgrade` listener is not modelled. The model only counts it and leaves the socket alone.
- The ws CONNECTING state is left out. A connection exists only once the upgrade completed.
- Handlers that subscribe or unsubscribe during `_dispatchEvent` are left out. The dispatch iterates over the set as it was.
- Lengths are counted in code points. JavaScript counts UTF-16 code units in `length` and `substring(0, 100)`, and the two differ for characters outside the Basic Multilingual Plane.
- Arguments that are not integers, and `null`, are left out. Tool arguments are integers or absent.
- PresentationContent.SelectRange: arguments are taken to be safe integers (magnitude below 2^53). The refusal message renders them as plain decimal digits, which matches JavaScript only in that range: JavaScript has no integers beyond 2^53 and writes numbers of 1e21 or more in exponent form.
- The deck is one snapshot for all batches of a call. Edits made between batches are not modelled.
- The server entry point, the task-pane UI and the other tools are not part of this model.
