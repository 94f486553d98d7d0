/** The translator itself: one object, fields updated in place, and a ghost record of all it was given. */
module Translators {
  import opened Options
  import opened Agents
  import opened Translations
  import opened Exchanges

  class Translator {
    var ids: nat
    var pending: map<nat, Pending>
    var sessions: seq<SessionName>
    var permissions: map<nat, PendingPermission>
    var fileReads: map<nat, nat>
    var rpcs: map<nat, PendingRpc>
    var terminals: seq<Binding>
    var grants: seq<Grant>
    var nextSession: nat
    var nextId: nat
    var ready: bool
    var queued: seq<AgentRequest>
    /** Everything it was given, oldest first. */
    ghost var history: seq<Input>

    function Now(): State
      reads this
    {
      State(ids, pending, sessions, permissions, fileReads, rpcs, terminals, grants, nextSession, nextId, ready, queued)
    }

    /** The fields are what the whole history makes them. */
    ghost predicate Valid()
      reads this
    {
      Now() == After(history, |history|)
    }

    constructor ()
      ensures Valid() && history == []
    {
      ids, nextSession, nextId, ready := 0, 0, 0, false;
      pending, permissions, fileReads, rpcs := map[], map[], map[], map[];
      sessions, terminals, grants, queued := [], [], [], [];
      history := [];
    }

    // ---- the three ways in -------------------------------------------------------------------

    method Greet(capabilities: ClientCapabilities) returns (message: Sent)
      requires Valid()
      modifies this
      ensures Valid() && history == old(history) + [Start(capabilities)]
      ensures [message] == Handle(old(Now()), Start(capabilities)).messages
    {
      hide After, Incoming, Outgoing;
      ghost var before, was := Now(), history;
      var id := Allocate();
      pending := pending[id := Initialize];
      message := Call(id, CallInitialize(capabilities));
      history := history + [Start(capabilities)];
      Recorded(was, Start(capabilities), before);
    }

    method Send(request: AgentRequest) returns (messages: seq<Sent>)
      requires Valid()
      modifies this
      ensures Valid() && history == old(history) + [Ours(request)]
      ensures messages == Handle(old(Now()), Ours(request)).messages
    {
      hide Translations.Encode, After, Incoming;
      ghost var before, was := Now(), history;
      if !ready && !request.Shutdown? {
        queued := queued + [request];
        messages := [];
      } else {
        var message := Encode(request);
        messages := AsSeq(message);
      }
      history := history + [Ours(request)];
      Recorded(was, Ours(request), before);
    }

    method Receive(message: Received) returns (events: seq<AgentEvent>, messages: seq<Sent>)
      requires Valid()
      modifies this
      ensures Valid() && history == old(history) + [Theirs(message)]
      ensures events == Handle(old(Now()), Theirs(message)).events
      ensures messages == Handle(old(Now()), Theirs(message)).messages
    {
      hide Translations.OnResponse, Translations.OnError, Translations.OnRequest, Translations.OnNotification, Drain,
           Translations.Encode, After, Outgoing;
      ghost var before, was := Now(), history;
      match message {
        case Response(id, result) =>
          events, messages := OnResponse(id, result);
        case ErrorResponse(id, text) =>
          events, messages := OnError(id, text);
        case Notification(name, sessionId, update) =>
          events := OnNotification(name, sessionId, update);
          messages := [];
        case Request(id, sessionId, call) =>
          var session := NO_SESSION;
          if sessionId.Some? {
            var found := OurSession(sessionId.value);
            if found.Some? {
              session := found.value;
            }
          }
          events, messages := OnRequest(id, session, call);
      }
      history := history + [Theirs(message)];
      Recorded(was, Theirs(message), before);
    }

    /** One input more. */
    lemma Recorded(was: seq<Input>, input: Input, before: State)
      requires before == After(was, |was|) && history == was + [input] && Now() == Handle(before, input).state
      ensures Valid()
    {
      hide Handle, After;
      AfterGrows(was, input);
    }

    method Allocate() returns (id: nat)
      modifies this`ids
      ensures id == ids == old(ids) + 1
    {
      ids := ids + 1;
      id := ids;
    }

    // ---- lookups -----------------------------------------------------------------------------

    method WireSession(session: nat) returns (wire: Option<string>)
      ensures wire == WireFrom(sessions, session, 0)
    {
      for i := 0 to |sessions|
        invariant WireFrom(sessions, session, 0) == WireFrom(sessions, session, i)
      {
        if sessions[i].session == session {
          return Some(sessions[i].wire);
        }
      }
      wire := None;
    }

    method OurSession(wire: string) returns (session: Option<nat>)
      ensures session == SessionFrom(sessions, wire, 0)
    {
      for i := 0 to |sessions|
        invariant SessionFrom(sessions, wire, 0) == SessionFrom(sessions, wire, i)
      {
        if sessions[i].wire == wire {
          return Some(sessions[i].session);
        }
      }
      session := None;
    }

    method TerminalBinding(wire: string) returns (at: Option<nat>)
      ensures at == BindingFrom(terminals, wire, 0)
    {
      for i := 0 to |terminals|
        invariant BindingFrom(terminals, wire, 0) == BindingFrom(terminals, wire, i)
      {
        if terminals[i].wire == wire {
          return Some(i);
        }
      }
      at := None;
    }

    method TerminalBound(terminal: nat) returns (at: Option<nat>)
      ensures at == TerminalFrom(terminals, terminal, 0)
    {
      for i := 0 to |terminals|
        invariant TerminalFrom(terminals, terminal, 0) == TerminalFrom(terminals, terminal, i)
      {
        if terminals[i].terminal == terminal {
          return Some(i);
        }
      }
      at := None;
    }

    method GrantHeld(grant: Grant) returns (at: Option<nat>)
      ensures at == GrantFrom(grants, grant, 0)
    {
      for i := 0 to |grants|
        invariant GrantFrom(grants, grant, 0) == GrantFrom(grants, grant, i)
      {
        if grants[i] == grant {
          return Some(i);
        }
      }
      at := None;
    }

    method ExpireTerminalGrants(session: nat)
      modifies this`grants
      ensures grants == Unexpired(old(grants), session, |old(grants)|)
    {
      var kept := [];
      for i := 0 to |grants|
        invariant kept == Unexpired(grants, session, i)
      {
        if grants[i].session != session {
          kept := kept + [grants[i]];
        }
      }
      grants := kept;
    }

    method ReleaseBinding(terminal: nat, session: nat)
      modifies this`terminals
      ensures terminals == MarkFrom(old(terminals), terminal, session, 0)
    {
      for i := 0 to |terminals|
        invariant terminals == old(terminals)
        invariant MarkFrom(terminals, terminal, session, 0) == MarkFrom(terminals, terminal, session, i)
      {
        if terminals[i].terminal == terminal && terminals[i].session == session {
          terminals := terminals[i := terminals[i].(released := true)];
          return;
        }
      }
    }

    // ---- requests going out ------------------------------------------------------------------

    method Encode(request: AgentRequest) returns (message: Option<Sent>)
      modifies this
      ensures history == old(history)
      ensures Encoding(Now(), message) == Translations.Encode(old(Now()), request)
    {
      hide WireFrom, Unexpired, EncodeRead, EncodePermission, EncodeCancelled, EncodeTerminal;
      message := None;
      match request {
        case NewSession(cwd) =>
          var id := Allocate();
          pending := pending[id := Opening];
          message := Some(Call(id, CallNewSession(cwd)));
        case SetMode(session, mode) =>
          var wire := WireSession(session);
          if wire.Some? {
            var id := Allocate();
            pending := pending[id := ChangingMode(session, mode)];
            message := Some(Call(id, CallSetMode(wire.value, mode)));
          }
        case Prompt(session, text, context) =>
          var wire := WireSession(session);
          if wire.Some? {
            var id := Allocate();
            pending := pending[id := Turn(session)];
            var blocks := if context == "" then [text] else [context, text];
            message := Some(Call(id, CallPrompt(wire.value, blocks)));
          }
        case FileContents(read, path, contents) =>
          message := AnswerRead(read, path, contents);
        case Permission(permission, decision) =>
          message := AnswerPermission(permission, decision);
        case PermissionCancelled(permission) =>
          message := CancelPermission(permission);
        case TerminalReply(rpc, response) =>
          message := EncodeTerminalResponse(rpc, response);
        case Cancel(session) =>
          ExpireTerminalGrants(session);
          var wire := WireSession(session);
          if wire.Some? {
            message := Some(CancelTurn(wire.value));
          }
        case Shutdown =>
      }
    }

    method AnswerRead(read: nat, path: string, contents: Option<string>) returns (message: Option<Sent>)
      modifies this`fileReads
      ensures Encoding(Now(), message) == EncodeRead(old(Now()), read, path, contents)
    {
      if read !in fileReads {
        return None;
      }
      var id := fileReads[read];
      fileReads := fileReads - {read};
      message := Some(match contents
                      case Some(text) => Reply(id, Content(text))
                      case None => Refused(id, -32000, CannotRead(path)));
    }

    method AnswerPermission(permission: nat, decision: PermissionDecision) returns (message: Option<Sent>)
      modifies this`permissions, this`grants
      ensures Encoding(Now(), message) == EncodePermission(old(Now()), permission, decision)
    {
      hide ChooseOption;
      if permission !in permissions {
        return None;
      }
      var asked := permissions[permission];
      permissions := permissions - {permission};
      var option := ChooseOption(asked.options, decision);
      if option.Some? && decision.Allows() && asked.spec.Some? {
        grants := grants + [Grant(asked.session, asked.spec.value)];
      }
      message := Some(Reply(asked.wire, if option.Some? then Selected(option.value) else NotSelected));
    }

    method CancelPermission(permission: nat) returns (message: Option<Sent>)
      modifies this`permissions
      ensures Encoding(Now(), message) == EncodeCancelled(old(Now()), permission)
    {
      if permission !in permissions {
        return None;
      }
      message := Some(Reply(permissions[permission].wire, NotSelected));
      permissions := permissions - {permission};
    }

    method EncodeTerminalResponse(k: nat, response: TerminalResponse) returns (message: Option<Sent>)
      modifies this`rpcs, this`terminals
      ensures Encoding(Now(), message) == EncodeTerminal(old(Now()), k, response)
    {
      hide TerminalFrom, MarkFrom, WireName;
      if k !in rpcs {
        return None;
      }
      var rpc := rpcs[k];
      rpcs := rpcs - {k};
      if response.Broken? {
        return Some(Refused(rpc.wire, -32000, Told(response.message)));
      }
      var answer: Answer;
      match (rpc.kind, response) {
        case (CreateKind, Created(terminal)) =>
          var at := TerminalBound(terminal);
          if at.Some? {
            return Some(Refused(rpc.wire, -32000, AlreadyNamed(terminal)));
          }
          var wire := WireName(terminal);
          terminals := terminals + [Binding(terminal, wire, rpc.session, false)];
          answer := Named(wire);
        case (UseKind(UseOutput, _), Printed(output, truncated, exit)) =>
          answer := OutputSoFar(output, truncated, exit);
        case (UseKind(UseWait, _), Exited(status)) =>
          answer := ExitStatus(status);
        case (UseKind(UseKill, _), Acknowledged) =>
          answer := Done;
        case (UseKind(UseRelease, terminal), Acknowledged) =>
          ReleaseBinding(terminal, rpc.session);
          answer := Done;
        case _ =>
          return Some(Refused(rpc.wire, -32000, WrongResponse));
      }
      message := Some(Reply(rpc.wire, answer));
    }

    // ---- messages coming in ------------------------------------------------------------------

    method SendAll(held: seq<AgentRequest>) returns (messages: seq<Sent>)
      modifies this
      ensures history == old(history)
      ensures Now() == Drain(old(Now()), held, |held|).state && messages == Drain(old(Now()), held, |held|).messages
    {
      hide Translations.Encode;
      messages := [];
      for i := 0 to |held|
        invariant history == old(history)
        invariant Now() == Drain(old(Now()), held, i).state && messages == Drain(old(Now()), held, i).messages
      {
        var message := Encode(held[i]);
        messages := messages + AsSeq(message);
      }
    }

    method SessionOpened(result: Fields) returns (events: seq<AgentEvent>)
      modifies this`nextSession, this`sessions
      ensures Effect(Now(), events, []) == OpenSession(old(Now()), result)
    {
      if result.sessionId.None? {
        return [Failed(NO_SESSION, NoSessionId)];
      }
      nextSession := nextSession + 1;
      sessions := sessions + [SessionName(nextSession, result.sessionId.value)];
      events := [SessionStarted(nextSession)];
      if result.modes.Some? {
        events := events + [ModesAvailable(nextSession, result.modes.value)];
      }
    }

    method OnResponse(id: nat, result: Fields) returns (events: seq<AgentEvent>, messages: seq<Sent>)
      modifies this
      ensures history == old(history)
      ensures Effect(Now(), events, messages) == Translations.Incoming(old(Now()), Response(id, result))
    {
      hide Drain, Unexpired, OpenSession, Translations.ReasonOf, Translations.OnError, Translations.OnRequest,
           Translations.OnNotification;
      events, messages := [], [];
      if id !in pending {
        return;
      }
      var awaited := pending[id];
      pending := pending - {id};
      match awaited {
        case Initialize =>
          ready := true;
          events := [Ready(result.capabilities)];
          var held := queued;
          queued := [];
          messages := SendAll(held);
        case Opening =>
          events := SessionOpened(result);
        case Turn(session) =>
          ExpireTerminalGrants(session);
          events := [TurnEnded(session, Translations.ReasonOf(result.stopReason))];
        case ChangingMode(session, mode) =>
          events := [ModeChanged(session, mode)];
      }
    }

    method OnError(id: nat, text: string) returns (events: seq<AgentEvent>, messages: seq<Sent>)
      modifies this`pending, this`grants
      ensures Effect(Now(), events, messages) == Translations.OnError(old(Now()), id, text)
    {
      hide Unexpired;
      var session := NO_SESSION;
      if id in pending {
        match pending[id] {
          case Turn(prompted) => session := prompted;
          case ChangingMode(asked, _) => session := asked;
          case _ =>
        }
      }
      pending := pending - {id};
      ExpireTerminalGrants(session);
      events, messages := [Failed(session, Told(text))], [];
    }

    method OnNotification(name: string, sessionId: Option<string>, update: Option<Update>)
      returns (events: seq<AgentEvent>)
      modifies this`nextId
      ensures Effect(Now(), events, []) == Translations.OnNotification(old(Now()), name, sessionId, update)
    {
      hide SessionFrom, ToolEvents;
      events := [];
      if name != "session/update" || sessionId.None? {
        return;
      }
      var session := OurSession(sessionId.value);
      if session.None? || update.None? {
        return;
      }
      match update.value {
        case MessageText(Some(text)) => events := [MessageChunk(session.value, text)];
        case ThoughtText(Some(text)) => events := [ThoughtChunk(session.value, text)];
        case CurrentMode(Some(mode)) => events := [ModeChanged(session.value, mode)];
        case ToolCall(Some(contents)) => events := EventsFromToolCall(session.value, contents);
        case _ =>
      }
    }

    method EventsFromToolCall(session: nat, contents: seq<ToolContent>) returns (events: seq<AgentEvent>)
      modifies this`nextId
      ensures (events, nextId) == ToolEvents(terminals, session, contents, old(nextId), |contents|)
    {
      hide BindingFrom;
      events := [];
      for i := 0 to |contents|
        invariant (events, nextId) == ToolEvents(terminals, session, contents, old(nextId), i)
      {
        assert events + [] == events;
        match contents[i] {
          case Diff(Some(path), oldText, Some(newText)) =>
            nextId := nextId + 1;
            events := events + [ProposedEdit(session, nextId, path, oldText, newText)];
          case TerminalRef(Some(wire)) =>
            var at := TerminalBinding(wire);
            if at.Some? && terminals[at.value].session == session {
              events := events + [TerminalAttached(session, terminals[at.value].terminal)];
            }
          case _ =>
        }
      }
    }

    method AllocateTerminalRequest(id: nat, session: nat, kind: RpcKind, operation: TerminalOperation)
      returns (event: AgentEvent)
      modifies this`nextId, this`rpcs
      ensures Effect(Now(), [event], []) == RaiseTerminal(old(Now()), id, session, kind, operation)
    {
      nextId := nextId + 1;
      rpcs := rpcs[nextId := PendingRpc(id, session, kind)];
      event := TerminalRequest(session, nextId, operation);
    }

    method OnRequest(id: nat, session: nat, call: AgentCall) returns (events: seq<AgentEvent>, messages: seq<Sent>)
      modifies this`nextId, this`fileReads, this`permissions, this`rpcs, this`grants
      ensures Effect(Now(), events, messages) == Translations.OnRequest(old(Now()), id, session, call)
    {
      hide Launch, OnTerminalUse, OutputLimit;
      events, messages := [], [];
      match call {
        case ReadTextFile(path) =>
          if path.None? {
            messages := [Refused(id, -32602, Missing("fs/read_text_file"))];
            return;
          }
          nextId := nextId + 1;
          fileReads := fileReads[nextId := id];
          events := [ReadFileRequested(session, nextId, path.value)];
        case WriteTextFile(path, content) =>
          if path.None? || content.None? {
            messages := [Refused(id, -32602, Missing("fs/write_text_file"))];
            return;
          }
          nextId := nextId + 1;
          events := [ProposedEdit(session, nextId, path.value, None, content.value)];
          messages := [Reply(id, Accepted)];
        case RequestPermission(options, showing, spec) =>
          nextId := nextId + 1;
          permissions := permissions[nextId := PendingPermission(id, session, options, spec)];
          events := [PermissionRequested(session, nextId, showing, spec)];
        case CreateTerminal(wanted, limit) =>
          if session == NO_SESSION {
            messages := [Refused(id, -32602, UnknownSession("terminal/create"))];
          } else if wanted.Err? {
            messages := [Refused(id, -32602, wanted.error)];
          } else if OutputLimit(limit).Err? {
            messages := [Refused(id, -32602, OutputLimit(limit).error)];
          } else {
            events := CreateRequested(id, session, wanted.value, OutputLimit(limit).value);
          }
        case UseTerminal(use, wire) =>
          events, messages := UseRequested(id, session, use, wire);
        case UnknownCall(name) =>
          messages := [Refused(id, -32601, Unsupported(name))];
      }
    }

    method CreateRequested(id: nat, session: nat, spec: TerminalSpec, limit: nat) returns (events: seq<AgentEvent>)
      modifies this`nextId, this`rpcs, this`grants
      ensures Effect(Now(), events, []) == Launch(old(Now()), id, session, spec, limit)
    {
      hide GrantFrom;
      var at := GrantHeld(Grant(session, spec));
      if at.Some? {
        grants := grants[..at.value] + grants[at.value + 1..];
      }
      var event := AllocateTerminalRequest(id, session, CreateKind, Create(spec, limit, at.Some?));
      events := [event];
    }

    method UseRequested(id: nat, session: nat, use: TerminalUse, wire: Option<string>)
      returns (events: seq<AgentEvent>, messages: seq<Sent>)
      modifies this`nextId, this`rpcs
      ensures Effect(Now(), events, messages) == OnTerminalUse(old(Now()), id, session, use, wire)
    {
      hide BindingFrom, TerminalUse.Method, TerminalUse.On;
      events, messages := [], [];
      if session == NO_SESSION {
        messages := [Refused(id, -32602, UnknownSession(use.Method()))];
        return;
      }
      if wire.None? {
        messages := [Refused(id, -32602, Missing(use.Method()))];
        return;
      }
      var at := TerminalBinding(wire.value);
      if at.None? || terminals[at.value].session != session || terminals[at.value].released {
        messages := [Refused(id, -32602, UnknownTerminal(wire.value))];
        return;
      }
      var terminal := terminals[at.value].terminal;
      var event := AllocateTerminalRequest(id, session, UseKind(use, terminal), use.On(terminal));
      events := [event];
    }
  }

  lemma {:induction false} AfterAgrees(inputs: seq<Input>, more: seq<Input>, n: nat)
    requires n <= |inputs|
    ensures After(inputs + more, n) == After(inputs, n)
  {
    hide Handle;
    if n > 0 {
      AfterAgrees(inputs, more, n - 1);
    }
  }

  lemma AfterGrows(inputs: seq<Input>, input: Input)
    ensures After(inputs + [input], |inputs| + 1) == Handle(After(inputs, |inputs|), input).state
  {
    hide Handle;
    AfterAgrees(inputs, [input], |inputs|);
  }
}
