/** What passes between the editor, the translator and an agent, with parameters already parsed. */
module Agents {
  import opened Options

  /** Stands for a session id the agent named and we never opened. */
  const NO_SESSION: nat := 0

  datatype TerminalSpec = TerminalSpec(program: string, args: seq<string>, cwd: string, env: seq<(string, string)>)

  datatype TerminalExit = TerminalExit(code: Option<nat>, signal: Option<string>)

  datatype TerminalOperation =
    | Create(spec: TerminalSpec, outputByteLimit: nat, preauthorized: bool)
    | Output(terminal: nat)
    | WaitForExit(terminal: nat)
    | Kill(terminal: nat)
    | Release(terminal: nat)

  datatype TerminalResponse =
    | Created(terminal: nat)
    | Printed(output: string, truncated: bool, exit: Option<TerminalExit>)
    | Exited(status: TerminalExit)
    | Acknowledged
    | Broken(message: string)

  datatype StopReason = EndTurn | Cancelled | Refusal | MaxTokens

  datatype PermissionDecision = AllowOnce | AllowAlways | RejectOnce | RejectAlways
  {
    predicate Allows() { AllowOnce? || AllowAlways? }

    /** The kind of option that says exactly this. */
    function Kind(): string {
      match this
      case AllowOnce => "allow_once"
      case AllowAlways => "allow_always"
      case RejectOnce => "reject_once"
      case RejectAlways => "reject_always"
    }

    /** The kind taken when that one is not offered: same direction, never the opposite. */
    function Fallback(): string { if Allows() then "allow_once" else "reject_once" }
  }

  datatype PermissionOption = PermissionOption(id: string, kind: string)

  /** The first option at or after `i` of that kind. */
  function OptionFrom(options: seq<PermissionOption>, kind: string, i: nat): Option<string>
    decreases |options| - i
  {
    if i >= |options| then None
    else if options[i].kind == kind then Some(options[i].id)
    else OptionFrom(options, kind, i + 1)
  }

  function ChooseOption(options: seq<PermissionOption>, decision: PermissionDecision): Option<string> {
    match OptionFrom(options, decision.Kind(), 0)
    case Some(id) => Some(id)
    case None => OptionFrom(options, decision.Fallback(), 0)
  }

  lemma {:induction false} OptionFromFinds(options: seq<PermissionOption>, kind: string, i: nat)
    ensures OptionFrom(options, kind, i).None? <==> forall j :: i <= j < |options| ==> options[j].kind != kind
    ensures OptionFrom(options, kind, i).Some? ==>
              exists j :: i <= j < |options| && options[j] == PermissionOption(OptionFrom(options, kind, i).value, kind)
    decreases |options| - i
  {
    if i < |options| {
      OptionFromFinds(options, kind, i + 1);
      if options[i].kind == kind {
        assert options[i] == PermissionOption(options[i].id, kind);
      }
    }
  }

  /** The option chosen was offered and says what the human said, or the once form of it; nothing is
      chosen only when neither was offered. */
  lemma ChoiceKeepsDirection(options: seq<PermissionOption>, decision: PermissionDecision)
    ensures var choice := ChooseOption(options, decision);
            choice.Some? ==> exists o ::
              o in options && o.id == choice.value &&
              (o.kind == decision.Kind() ||
               (o.kind == decision.Fallback() && forall p :: p in options ==> p.kind != decision.Kind()))
    ensures ChooseOption(options, decision).None? <==>
            forall o :: o in options ==> o.kind != decision.Kind() && o.kind != decision.Fallback()
  {
    OptionFromFinds(options, decision.Kind(), 0);
    OptionFromFinds(options, decision.Fallback(), 0);
  }

  /** What the editor asks of the agent. */
  datatype AgentRequest =
    | NewSession(cwd: string)
    | SetMode(session: nat, mode: string)
    | Prompt(session: nat, text: string, context: string)
    | FileContents(read: nat, path: string, contents: Option<string>)
    | Permission(permission: nat, decision: PermissionDecision)
    | PermissionCancelled(permission: nat)
    | TerminalReply(rpc: nat, response: TerminalResponse)
    | Cancel(session: nat)
    | Shutdown

  datatype EditDiff = EditDiff(path: string, oldText: string, newText: string)

  /** What a permission prompt shows beside the exact command. */
  datatype Showing = Showing(summary: string, command: seq<string>, edit: Option<EditDiff>)

  datatype SessionMode = SessionMode(id: string, name: string, description: Option<string>)

  datatype Modes = Modes(current: string, available: seq<SessionMode>)

  datatype Capabilities = Capabilities(loadSession: bool, image: bool, audio: bool, embeddedContext: bool)

  /** What the editor hears. */
  datatype AgentEvent =
    | Ready(capabilities: Capabilities)
    | SessionStarted(session: nat)
    | ModesAvailable(session: nat, modes: Modes)
    | ModeChanged(session: nat, mode: string)
    | MessageChunk(session: nat, text: string)
    | ThoughtChunk(session: nat, text: string)
    | ReadFileRequested(session: nat, read: nat, path: string)
    | ProposedEdit(session: nat, proposal: nat, path: string, oldText: Option<string>, newText: string)
    | PermissionRequested(session: nat, permission: nat, showing: Showing, spec: Option<TerminalSpec>)
    | TerminalRequest(session: nat, rpc: nat, operation: TerminalOperation)
    | TerminalAttached(session: nat, terminal: nat)
    | TurnEnded(session: nat, reason: StopReason)
    | Failed(session: nat, why: Reason)

  /** Why something was refused: the agent's own words, or one of ours. */
  datatype Reason =
    | Told(message: string)
    | NoSessionId
    | CannotRead(path: string)
    | AlreadyNamed(terminal: nat)
    | WrongResponse
    | Missing(name: string)
    | UnknownSession(name: string)
    | UnknownTerminal(wire: string)
    | Unsupported(name: string)

  datatype ClientCapabilities = ClientCapabilities(readTextFile: bool, writeTextFile: bool, terminal: bool)

  datatype ClientCall =
    | CallInitialize(capabilities: ClientCapabilities)
    | CallNewSession(cwd: string)
    | CallSetMode(wire: string, mode: string)
    | CallPrompt(wire: string, blocks: seq<string>)

  datatype Answer =
    | Content(text: string)
    | Selected(option: string)
    | NotSelected
    | Accepted
    | Named(wire: string)
    | OutputSoFar(output: string, truncated: bool, exit: Option<TerminalExit>)
    | ExitStatus(status: TerminalExit)
    | Done

  /** A message we write to the agent. */
  datatype Sent =
    | Call(id: nat, call: ClientCall)
    | Reply(id: nat, answer: Answer)
    | Refused(id: nat, code: int, why: Reason)
    | CancelTurn(wire: string)

  /** The fields of a result that anything here reads. */
  datatype Fields = Fields(sessionId: Option<string>, modes: Option<Modes>, stopReason: Option<string>,
                           capabilities: Capabilities)

  datatype ToolContent =
    | Diff(path: Option<string>, oldText: Option<string>, newText: Option<string>)
    | TerminalRef(wire: Option<string>)
    | OtherContent

  datatype Update =
    | MessageText(text: Option<string>)
    | ThoughtText(text: Option<string>)
    | ToolCall(contents: Option<seq<ToolContent>>)
    | CurrentMode(mode: Option<string>)
    | OtherUpdate

  datatype LimitField = Absent | Number(limit: nat) | NotANumber

  datatype TerminalUse = UseOutput | UseWait | UseKill | UseRelease
  {
    function On(terminal: nat): TerminalOperation {
      match this
      case UseOutput => Output(terminal)
      case UseWait => WaitForExit(terminal)
      case UseKill => Kill(terminal)
      case UseRelease => Release(terminal)
    }

    function Method(): string {
      match this
      case UseOutput => "terminal/output"
      case UseWait => "terminal/wait_for_exit"
      case UseKill => "terminal/kill"
      case UseRelease => "terminal/release"
    }
  }

  /** A call from the agent; a field it did not send, or sent as something else, is absent. */
  datatype AgentCall =
    | ReadTextFile(path: Option<string>)
    | WriteTextFile(path: Option<string>, content: Option<string>)
    | RequestPermission(options: seq<PermissionOption>, showing: Showing, spec: Option<TerminalSpec>)
    | CreateTerminal(wanted: Result<TerminalSpec, Reason>, limit: LimitField)
    | UseTerminal(use: TerminalUse, wire: Option<string>)
    | UnknownCall(name: string)

  /** A message the agent writes to us. */
  datatype Received =
    | Response(id: nat, result: Fields)
    | ErrorResponse(id: nat, message: string)
    | Notification(name: string, sessionId: Option<string>, update: Option<Update>)
    | Request(id: nat, sessionId: Option<string>, call: AgentCall)

  const DEFAULT_OUTPUT_LIMIT: nat := 1_048_576
  const MAX_OUTPUT_LIMIT: nat := 8_388_608

  function OutputLimit(field: LimitField): (limit: Result<nat, Reason>)
    ensures limit.Ok? <==> !field.NotANumber?
    ensures limit.Ok? ==> limit.value <= MAX_OUTPUT_LIMIT
    ensures field.Absent? ==> limit == Ok(DEFAULT_OUTPUT_LIMIT)
    ensures field.Number? && field.limit <= MAX_OUTPUT_LIMIT ==> limit == Ok(field.limit)
    ensures field.Number? && field.limit > MAX_OUTPUT_LIMIT ==> limit == Ok(MAX_OUTPUT_LIMIT)
  {
    match field
    case Absent => Ok(DEFAULT_OUTPUT_LIMIT)
    case NotANumber => Err(Missing("outputByteLimit"))
    case Number(n) => Ok(if n < MAX_OUTPUT_LIMIT then n else MAX_OUTPUT_LIMIT)
  }
}
