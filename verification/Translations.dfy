/** What the translator's state is, and what one message in either direction does to it. */
module Translations {
  import opened Options
  import opened Agents
  import opened Decimals

  datatype Pending = Initialize | Opening | Turn(session: nat) | ChangingMode(session: nat, mode: string)

  datatype PendingPermission =
    PendingPermission(wire: nat, session: nat, options: seq<PermissionOption>, spec: Option<TerminalSpec>)

  datatype RpcKind = CreateKind | UseKind(use: TerminalUse, terminal: nat)

  datatype PendingRpc = PendingRpc(wire: nat, session: nat, kind: RpcKind)

  datatype Binding = Binding(terminal: nat, wire: string, session: nat, released: bool)

  datatype SessionName = SessionName(session: nat, wire: string)

  datatype Grant = Grant(session: nat, spec: TerminalSpec)

  datatype State = State(
    ids: nat,
    pending: map<nat, Pending>,
    sessions: seq<SessionName>,
    permissions: map<nat, PendingPermission>,
    fileReads: map<nat, nat>,
    rpcs: map<nat, PendingRpc>,
    terminals: seq<Binding>,
    grants: seq<Grant>,
    nextSession: nat,
    nextId: nat,
    ready: bool,
    queued: seq<AgentRequest>)

  const START := State(0, map[], [], map[], map[], map[], [], [], 0, 0, false, [])

  datatype Effect = Effect(state: State, events: seq<AgentEvent>, messages: seq<Sent>)

  datatype Encoding = Encoding(state: State, message: Option<Sent>)

  // ---- lookups -------------------------------------------------------------------------------

  function WireFrom(sessions: seq<SessionName>, session: nat, i: nat): Option<string>
    decreases |sessions| - i
  {
    if i >= |sessions| then None
    else if sessions[i].session == session then Some(sessions[i].wire)
    else WireFrom(sessions, session, i + 1)
  }

  function SessionFrom(sessions: seq<SessionName>, wire: string, i: nat): Option<nat>
    decreases |sessions| - i
  {
    if i >= |sessions| then None
    else if sessions[i].wire == wire then Some(sessions[i].session)
    else SessionFrom(sessions, wire, i + 1)
  }

  /** The session a message is about: unknown and absent names are both no session. */
  function Addressed(sessions: seq<SessionName>, wire: Option<string>): nat {
    match wire
    case None => NO_SESSION
    case Some(name) =>
      match SessionFrom(sessions, name, 0)
      case None => NO_SESSION
      case Some(session) => session
  }

  function BindingFrom(terminals: seq<Binding>, wire: string, i: nat): (found: Option<nat>)
    ensures found.Some? ==> i <= found.value < |terminals| && terminals[found.value].wire == wire
    decreases |terminals| - i
  {
    if i >= |terminals| then None
    else if terminals[i].wire == wire then Some(i)
    else BindingFrom(terminals, wire, i + 1)
  }

  function LiveTerminal(terminals: seq<Binding>, wire: string, session: nat): Option<nat> {
    match BindingFrom(terminals, wire, 0)
    case None => None
    case Some(i) =>
      if terminals[i].session == session && !terminals[i].released then Some(terminals[i].terminal) else None
  }

  function TerminalFrom(terminals: seq<Binding>, terminal: nat, i: nat): (found: Option<nat>)
    ensures found.Some? ==> i <= found.value < |terminals| && terminals[found.value].terminal == terminal
    ensures found.None? ==> forall j :: i <= j < |terminals| ==> terminals[j].terminal != terminal
    decreases |terminals| - i
  {
    if i >= |terminals| then None
    else if terminals[i].terminal == terminal then Some(i)
    else TerminalFrom(terminals, terminal, i + 1)
  }

  function GrantFrom(grants: seq<Grant>, grant: Grant, i: nat): (found: Option<nat>)
    ensures found.Some? ==> i <= found.value < |grants| && grants[found.value] == grant
    ensures found.None? ==> forall j :: i <= j < |grants| ==> grants[j] != grant
    decreases |grants| - i
  {
    if i >= |grants| then None
    else if grants[i] == grant then Some(i)
    else GrantFrom(grants, grant, i + 1)
  }

  /** The grants among the first `n` that `session` does not own. */
  function Unexpired(grants: seq<Grant>, session: nat, n: nat): seq<Grant>
    requires n <= |grants|
  {
    if n == 0 then []
    else if grants[n - 1].session == session then Unexpired(grants, session, n - 1)
    else Unexpired(grants, session, n - 1) + [grants[n - 1]]
  }

  function Expire(s: State, session: nat): State {
    s.(grants := Unexpired(s.grants, session, |s.grants|))
  }

  /** A terminal's name on the wire. */
  function WireName(terminal: nat): string { "termesh-" + Decimal(terminal) }

  /** The first binding of that terminal and session, marked released. */
  function MarkFrom(terminals: seq<Binding>, terminal: nat, session: nat, i: nat): seq<Binding>
    decreases |terminals| - i
  {
    if i >= |terminals| then terminals
    else if terminals[i].terminal == terminal && terminals[i].session == session
    then terminals[i := terminals[i].(released := true)]
    else MarkFrom(terminals, terminal, session, i + 1)
  }

  // ---- requests going out --------------------------------------------------------------------

  function Ask(s: State, pending: Pending, call: ClientCall): Encoding {
    Encoding(s.(ids := s.ids + 1, pending := s.pending[s.ids + 1 := pending]), Some(Call(s.ids + 1, call)))
  }

  function Open(s: State, capabilities: ClientCapabilities): Encoding {
    Ask(s, Initialize, CallInitialize(capabilities))
  }

  function EncodeRead(s: State, read: nat, path: string, contents: Option<string>): Encoding {
    if read !in s.fileReads then Encoding(s, None)
    else Encoding(s.(fileReads := s.fileReads - {read}),
                  Some(match contents
                       case Some(text) => Reply(s.fileReads[read], Content(text))
                       case None => Refused(s.fileReads[read], -32000, CannotRead(path))))
  }

  function EncodePermission(s: State, permission: nat, decision: PermissionDecision): Encoding {
    if permission !in s.permissions then Encoding(s, None)
    else
      var asked := s.permissions[permission];
      var choice := ChooseOption(asked.options, decision);
      var grants := if choice.Some? && decision.Allows() && asked.spec.Some?
                    then s.grants + [Grant(asked.session, asked.spec.value)] else s.grants;
      Encoding(s.(permissions := s.permissions - {permission}, grants := grants),
               Some(Reply(asked.wire, if choice.Some? then Selected(choice.value) else NotSelected)))
  }

  function EncodeCancelled(s: State, permission: nat): Encoding {
    if permission !in s.permissions then Encoding(s, None)
    else Encoding(s.(permissions := s.permissions - {permission}),
                  Some(Reply(s.permissions[permission].wire, NotSelected)))
  }

  /** The answer to a terminal call and the bindings it leaves. */
  function TerminalAnswer(terminals: seq<Binding>, rpc: PendingRpc, response: TerminalResponse): (seq<Binding>, Sent) {
    match (rpc.kind, response)
    case (_, Broken(message)) => (terminals, Refused(rpc.wire, -32000, Told(message)))
    case (CreateKind, Created(terminal)) =>
      if TerminalFrom(terminals, terminal, 0).Some?
      then (terminals, Refused(rpc.wire, -32000, AlreadyNamed(terminal)))
      else (terminals + [Binding(terminal, WireName(terminal), rpc.session, false)],
            Reply(rpc.wire, Named(WireName(terminal))))
    case (UseKind(UseOutput, _), Printed(output, truncated, exit)) =>
      (terminals, Reply(rpc.wire, OutputSoFar(output, truncated, exit)))
    case (UseKind(UseWait, _), Exited(status)) => (terminals, Reply(rpc.wire, ExitStatus(status)))
    case (UseKind(UseKill, _), Acknowledged) => (terminals, Reply(rpc.wire, Done))
    case (UseKind(UseRelease, terminal), Acknowledged) =>
      (MarkFrom(terminals, terminal, rpc.session, 0), Reply(rpc.wire, Done))
    case _ => (terminals, Refused(rpc.wire, -32000, WrongResponse))
  }

  function EncodeTerminal(s: State, rpc: nat, response: TerminalResponse): Encoding {
    if rpc !in s.rpcs then Encoding(s, None)
    else
      var answer := TerminalAnswer(s.terminals, s.rpcs[rpc], response);
      Encoding(s.(rpcs := s.rpcs - {rpc}, terminals := answer.0), Some(answer.1))
  }

  function Blocks(text: string, context: string): seq<string> {
    if context == "" then [text] else [context, text]
  }

  function Encode(s: State, request: AgentRequest): Encoding {
    match request
    case NewSession(cwd) => Ask(s, Opening, CallNewSession(cwd))
    case SetMode(session, mode) =>
      (match WireFrom(s.sessions, session, 0)
       case None => Encoding(s, None)
       case Some(wire) => Ask(s, ChangingMode(session, mode), CallSetMode(wire, mode)))
    case Prompt(session, text, context) =>
      (match WireFrom(s.sessions, session, 0)
       case None => Encoding(s, None)
       case Some(wire) => Ask(s, Turn(session), CallPrompt(wire, Blocks(text, context))))
    case FileContents(read, path, contents) => EncodeRead(s, read, path, contents)
    case Permission(permission, decision) => EncodePermission(s, permission, decision)
    case PermissionCancelled(permission) => EncodeCancelled(s, permission)
    case TerminalReply(rpc, response) => EncodeTerminal(s, rpc, response)
    case Cancel(session) =>
      (match WireFrom(s.sessions, session, 0)
       case None => Encoding(Expire(s, session), None)
       case Some(wire) => Encoding(Expire(s, session), Some(CancelTurn(wire))))
    case Shutdown => Encoding(s, None)
  }

  function AsSeq(message: Option<Sent>): seq<Sent> { if message.Some? then [message.value] else [] }

  predicate Held(s: State, request: AgentRequest) { !s.ready && !request.Shutdown? }

  function Hold(s: State, request: AgentRequest): State { s.(queued := s.queued + [request]) }

  function Outgoing(s: State, request: AgentRequest): Effect {
    if Held(s, request) then Effect(Hold(s, request), [], [])
    else
      var sent := Encode(s, request);
      Effect(sent.state, [], AsSeq(sent.message))
  }

  /** The first `n` held requests, encoded in order. */
  function Drain(s: State, queue: seq<AgentRequest>, n: nat): Effect
    requires n <= |queue|
  {
    if n == 0 then Effect(s, [], [])
    else
      var before := Drain(s, queue, n - 1);
      var sent := Encode(before.state, queue[n - 1]);
      Effect(sent.state, [], before.messages + AsSeq(sent.message))
  }

  // ---- messages coming in --------------------------------------------------------------------

  function ReasonOf(stop: Option<string>): StopReason {
    if stop == Some("cancelled") then StopReason.Cancelled
    else if stop == Some("refusal") then Refusal
    else if stop == Some("max_tokens") then MaxTokens
    else EndTurn
  }

  predicate OpensUp(s: State, message: Received) {
    message.Response? && message.id in s.pending && s.pending[message.id] == Initialize
  }

  function OpenSession(s: State, result: Fields): Effect {
    match result.sessionId
    case None => Effect(s, [Failed(NO_SESSION, NoSessionId)], [])
    case Some(wire) =>
      var session := s.nextSession + 1;
      var modes := if result.modes.Some? then [ModesAvailable(session, result.modes.value)] else [];
      Effect(s.(nextSession := session, sessions := s.sessions + [SessionName(session, wire)]),
             [SessionStarted(session)] + modes, [])
  }

  /** A reply to one of our calls, but for sending what was held. */
  function OnResponse(s: State, id: nat, result: Fields): Effect {
    if id !in s.pending then Effect(s, [], [])
    else
      var t := s.(pending := s.pending - {id});
      match s.pending[id]
      case Initialize => Effect(t.(ready := true, queued := []), [Ready(result.capabilities)], [])
      case Opening => OpenSession(t, result)
      case Turn(session) => Effect(Expire(t, session), [TurnEnded(session, ReasonOf(result.stopReason))], [])
      case ChangingMode(session, mode) => Effect(t, [ModeChanged(session, mode)], [])
  }

  /** The session an error ends: that of the prompt or mode change it answers, else none. */
  function Ended(s: State, id: nat): nat {
    if id in s.pending then
      match s.pending[id]
      case Turn(session) => session
      case ChangingMode(session, _) => session
      case _ => NO_SESSION
    else NO_SESSION
  }

  function OnError(s: State, id: nat, message: string): Effect {
    var session := Ended(s, id);
    Effect(Expire(s.(pending := s.pending - {id}), session), [Failed(session, Told(message))], [])
  }

  function ToolEvent(terminals: seq<Binding>, session: nat, content: ToolContent, next: nat): (seq<AgentEvent>, nat) {
    match content
    case Diff(Some(path), oldText, Some(newText)) =>
      ([ProposedEdit(session, next + 1, path, oldText, newText)], next + 1)
    case TerminalRef(Some(wire)) =>
      (match BindingFrom(terminals, wire, 0)
       case None => ([], next)
       case Some(i) =>
         (if terminals[i].session == session then [TerminalAttached(session, terminals[i].terminal)] else [], next))
    case _ => ([], next)
  }

  /** What the first `n` pieces of a tool call raise, and the last id they used. */
  function ToolEvents(terminals: seq<Binding>, session: nat, contents: seq<ToolContent>, next: nat, n: nat)
    : (seq<AgentEvent>, nat)
    requires n <= |contents|
  {
    if n == 0 then ([], next)
    else
      var before := ToolEvents(terminals, session, contents, next, n - 1);
      var last := ToolEvent(terminals, session, contents[n - 1], before.1);
      (before.0 + last.0, last.1)
  }

  function OnUpdate(s: State, session: nat, update: Update): Effect {
    match update
    case MessageText(Some(text)) => Effect(s, [MessageChunk(session, text)], [])
    case ThoughtText(Some(text)) => Effect(s, [ThoughtChunk(session, text)], [])
    case CurrentMode(Some(mode)) => Effect(s, [ModeChanged(session, mode)], [])
    case ToolCall(Some(contents)) =>
      var raised := ToolEvents(s.terminals, session, contents, s.nextId, |contents|);
      Effect(s.(nextId := raised.1), raised.0, [])
    case _ => Effect(s, [], [])
  }

  function OnNotification(s: State, name: string, sessionId: Option<string>, update: Option<Update>): Effect {
    if name != "session/update" || sessionId.None? || update.None? then Effect(s, [], [])
    else match SessionFrom(s.sessions, sessionId.value, 0)
         case None => Effect(s, [], [])
         case Some(session) => OnUpdate(s, session, update.value)
  }

  function Invalid(s: State, id: nat, why: Reason): Effect { Effect(s, [], [Refused(id, -32602, why)]) }

  function RaiseTerminal(s: State, id: nat, session: nat, kind: RpcKind, operation: TerminalOperation): Effect {
    var k := s.nextId + 1;
    Effect(s.(nextId := k, rpcs := s.rpcs[k := PendingRpc(id, session, kind)]),
           [TerminalRequest(session, k, operation)], [])
  }

  function Without(grants: seq<Grant>, at: Option<nat>): seq<Grant> {
    if at.Some? && at.value < |grants| then grants[..at.value] + grants[at.value + 1..] else grants
  }

  /** A launch: the first matching grant is spent on it. */
  function Launch(s: State, id: nat, session: nat, spec: TerminalSpec, limit: nat): Effect {
    var at := GrantFrom(s.grants, Grant(session, spec), 0);
    RaiseTerminal(s.(grants := Without(s.grants, at)), id, session, CreateKind, Create(spec, limit, at.Some?))
  }

  function OnTerminalUse(s: State, id: nat, session: nat, use: TerminalUse, wire: Option<string>): Effect {
    if session == NO_SESSION then Invalid(s, id, UnknownSession(use.Method()))
    else if wire.None? then Invalid(s, id, Missing(use.Method()))
    else match LiveTerminal(s.terminals, wire.value, session)
         case None => Invalid(s, id, UnknownTerminal(wire.value))
         case Some(terminal) => RaiseTerminal(s, id, session, UseKind(use, terminal), use.On(terminal))
  }

  function OnRequest(s: State, id: nat, session: nat, call: AgentCall): Effect {
    match call
    case ReadTextFile(path) =>
      if path.None? then Invalid(s, id, Missing("fs/read_text_file"))
      else
        var k := s.nextId + 1;
        Effect(s.(nextId := k, fileReads := s.fileReads[k := id]), [ReadFileRequested(session, k, path.value)], [])
    case WriteTextFile(path, content) =>
      if path.None? || content.None? then Invalid(s, id, Missing("fs/write_text_file"))
      else
        var k := s.nextId + 1;
        Effect(s.(nextId := k), [ProposedEdit(session, k, path.value, None, content.value)], [Reply(id, Accepted)])
    case RequestPermission(options, showing, spec) =>
      var k := s.nextId + 1;
      Effect(s.(nextId := k, permissions := s.permissions[k := PendingPermission(id, session, options, spec)]),
             [PermissionRequested(session, k, showing, spec)], [])
    case CreateTerminal(wanted, limit) =>
      if session == NO_SESSION then Invalid(s, id, UnknownSession("terminal/create"))
      else if wanted.Err? then Invalid(s, id, wanted.error)
      else if OutputLimit(limit).Err? then Invalid(s, id, OutputLimit(limit).error)
      else Launch(s, id, session, wanted.value, OutputLimit(limit).value)
    case UseTerminal(use, wire) => OnTerminalUse(s, id, session, use, wire)
    case UnknownCall(name) => Effect(s, [], [Refused(id, -32601, Unsupported(name))])
  }

  /** What hearing one message does, but for sending what was held. */
  function Hear(s: State, message: Received): Effect {
    match message
    case Response(id, result) => OnResponse(s, id, result)
    case ErrorResponse(id, text) => OnError(s, id, text)
    case Notification(name, sessionId, update) => OnNotification(s, name, sessionId, update)
    case Request(id, sessionId, call) => OnRequest(s, id, Addressed(s.sessions, sessionId), call)
  }

  /** The reply to the handshake also sends everything that was held, in order. */
  function Incoming(s: State, message: Received): Effect {
    var heard := Hear(s, message);
    if OpensUp(s, message) then
      var drained := Drain(heard.state, s.queued, |s.queued|);
      Effect(drained.state, heard.events, heard.messages + drained.messages)
    else heard
  }

  datatype Input = Start(capabilities: ClientCapabilities) | Ours(request: AgentRequest) | Theirs(message: Received)

  function Handle(s: State, input: Input): Effect {
    match input
    case Start(capabilities) =>
      var hello := Open(s, capabilities);
      Effect(hello.state, [], AsSeq(hello.message))
    case Ours(request) => Outgoing(s, request)
    case Theirs(message) => Incoming(s, message)
  }
}
