/** What the translator's tables hold, read off the log alone: every call still to be answered, every call of ours
    still waited for, and every session under its name. */
module Ledgers {
  import opened Options
  import opened Agents
  import opened Translations
  import opened Exchanges
  import opened Conservation

  /** What a moment says of one entry. */
  datatype Note<+T> = Opens(value: T) | Closes | Silent

  function Next<T>(note: Note<T>, before: Option<T>): Option<T> {
    match note
    case Opens(v) => Some(v)
    case Closes => None
    case Silent => before
  }

  function Look<T>(table: map<nat, T>, k: nat): Option<T> { if k in table then Some(table[k]) else None }

  // ---- calls of the agent, under the ids they were raised with -------------------------------

  /** A read is raised for the path called for, and held until its contents are given. */
  function ReadNote(moment: Moment, k: nat): Note<nat> {
    match moment
    case Hearing(Request(id, _, ReadTextFile(Some(path))), events, _) =>
      if |events| == 1 && events[0].ReadFileRequested? && events[0].read == k && events[0].path == path then Opens(id) else Silent
    case Sending(FileContents(read, _, _), _) => if read == k then Closes else Silent
    case _ => Silent
  }

  /** A prompt is raised with what was shown and asked for, and held until it is answered or called off. */
  function PromptNote(moment: Moment, k: nat): Note<PendingPermission> {
    match moment
    case Hearing(Request(id, _, RequestPermission(options, showing, spec)), events, _) =>
      if |events| == 1 && events[0].PermissionRequested? && events[0] == PermissionRequested(events[0].session, k, showing, spec)
      then Opens(PendingPermission(id, events[0].session, options, spec)) else Silent
    case Sending(Permission(permission, _), _) => if permission == k then Closes else Silent
    case Sending(PermissionCancelled(permission), _) => if permission == k then Closes else Silent
    case _ => Silent
  }

  /** The kind of answer that an operation calls for, if it is the one called for. */
  function KindCalled(call: AgentCall, operation: TerminalOperation): Option<RpcKind> {
    match (call, operation)
    case (CreateTerminal(Ok(spec), _), Create(launched, _, _)) => if spec == launched then Some(CreateKind) else None
    case (UseTerminal(UseOutput, _), Output(t)) => Some(UseKind(UseOutput, t))
    case (UseTerminal(UseWait, _), WaitForExit(t)) => Some(UseKind(UseWait, t))
    case (UseTerminal(UseKill, _), Kill(t)) => Some(UseKind(UseKill, t))
    case (UseTerminal(UseRelease, _), Release(t)) => Some(UseKind(UseRelease, t))
    case _ => None
  }

  /** A terminal call is raised as the operation called for, and held until it is answered. */
  function CallNote(moment: Moment, k: nat): Note<PendingRpc> {
    match moment
    case Hearing(Request(id, _, call), events, _) =>
      if |events| == 1 && events[0].TerminalRequest? && events[0].rpc == k && KindCalled(call, events[0].operation).Some?
      then Opens(PendingRpc(id, events[0].session, KindCalled(call, events[0].operation).value)) else Silent
    case Sending(TerminalReply(rpc, _), _) => if rpc == k then Closes else Silent
    case _ => Silent
  }

  /** A call of ours is waited for until a reply of either kind. */
  function WaitNote(moment: Moment, id: nat): Note<Pending> {
    match moment
    case Greeted(Some(Call(i, CallInitialize(_)))) => if i == id then Opens(Initialize) else Silent
    case Sending(NewSession(_), Some(Call(i, CallNewSession(_)))) => if i == id then Opens(Opening) else Silent
    case Sending(SetMode(session, mode), Some(Call(i, CallSetMode(_, _)))) =>
      if i == id then Opens(ChangingMode(session, mode)) else Silent
    case Sending(Prompt(session, _, _), Some(Call(i, CallPrompt(_, _)))) => if i == id then Opens(Turn(session)) else Silent
    case Hearing(Response(i, _), _, _) => if i == id then Closes else Silent
    case Hearing(ErrorResponse(i, _), _, _) => if i == id then Closes else Silent
    case _ => Silent
  }

  function ReadHeld(log: seq<Moment>, k: nat): Option<nat> {
    if log == [] then None else Next(ReadNote(log[|log| - 1], k), ReadHeld(log[..|log| - 1], k))
  }

  function PromptHeld(log: seq<Moment>, k: nat): Option<PendingPermission> {
    if log == [] then None else Next(PromptNote(log[|log| - 1], k), PromptHeld(log[..|log| - 1], k))
  }

  function CallHeld(log: seq<Moment>, k: nat): Option<PendingRpc> {
    if log == [] then None else Next(CallNote(log[|log| - 1], k), CallHeld(log[..|log| - 1], k))
  }

  function Waiting(log: seq<Moment>, id: nat): Option<Pending> {
    if log == [] then None else Next(WaitNote(log[|log| - 1], id), Waiting(log[..|log| - 1], id))
  }

  // ---- sessions ------------------------------------------------------------------------------

  /** The session this moment opens, and the agent's name for it. */
  function OpenedAt(moment: Moment): Option<SessionName> {
    match moment
    case Hearing(Response(_, result), events, _) =>
      if events != [] && events[0].SessionStarted? && result.sessionId.Some?
      then Some(SessionName(events[0].session, result.sessionId.value)) else None
    case _ => None
  }

  /** The agent's name for a session. */
  function NameOf(log: seq<Moment>, session: nat): Option<string> {
    if log == [] then None
    else
      var began := OpenedAt(log[|log| - 1]);
      if began.Some? && began.value.session == session then Some(began.value.wire) else NameOf(log[..|log| - 1], session)
  }

  /** The session first opened under a name; an agent may use one twice. */
  function FirstNamed(log: seq<Moment>, wire: string): Option<nat> {
    if log == [] then None
    else
      var before, began := FirstNamed(log[..|log| - 1], wire), OpenedAt(log[|log| - 1]);
      if before.Some? then before
      else if began.Some? && began.value.wire == wire then Some(began.value.session) else None
  }

  // ---- the tables after one encoded request --------------------------------------------------

  /** The four tables say of `k` what the moment makes of what they said. */
  predicate Follows(s: State, t: State, moment: Moment, k: nat) {
    && Look(t.fileReads, k) == Next(ReadNote(moment, k), Look(s.fileReads, k))
    && Look(t.permissions, k) == Next(PromptNote(moment, k), Look(s.permissions, k))
    && Look(t.rpcs, k) == Next(CallNote(moment, k), Look(s.rpcs, k))
    && Look(t.pending, k) == Next(WaitNote(moment, k), Look(s.pending, k))
  }

  predicate EncodingFollows(s: State, request: AgentRequest, k: nat) {
    var sent := Encode(s, request);
    Follows(s, sent.state, Sending(request, sent.message), k) && sent.state.sessions == s.sessions
  }

  /** A moment that is about none of the agent's calls. */
  predicate NoCall(moment: Moment, k: nat) {
    ReadNote(moment, k) == Silent && PromptNote(moment, k) == Silent && CallNote(moment, k) == Silent
  }

  lemma NoCallFollows(s: State, t: State, moment: Moment, k: nat)
    requires NoCall(moment, k) && t.fileReads == s.fileReads && t.permissions == s.permissions && t.rpcs == s.rpcs
    requires Look(t.pending, k) == Next(WaitNote(moment, k), Look(s.pending, k))
    ensures Follows(s, t, moment, k)
  {
    hide ReadNote, PromptNote, CallNote, WaitNote;
  }

  lemma OwnMoment(moment: Moment, k: nat)
    requires moment.Sending? && (moment.request.NewSession? || moment.request.SetMode? || moment.request.Prompt? ||
                                 moment.request.Cancel? || moment.request.Shutdown?)
    ensures NoCall(moment, k)
    ensures moment.message.None? || moment.request.Cancel? || moment.request.Shutdown? ==> WaitNote(moment, k) == Silent
  {
  }

  lemma AskedNote(request: AgentRequest, id: nat, call: ClientCall, pending: Pending, k: nat)
    requires match request
             case NewSession(_) => call.CallNewSession? && pending == Opening
             case SetMode(session, mode) => call.CallSetMode? && pending == ChangingMode(session, mode)
             case Prompt(session, _, _) => call.CallPrompt? && pending == Turn(session)
             case _ => false
    ensures WaitNote(Sending(request, Some(Call(id, call))), k) == if id == k then Opens(pending) else Silent
  {
  }

  lemma AskingFollows(s: State, request: AgentRequest, k: nat)
    requires request.NewSession? || request.SetMode? || request.Prompt?
    ensures EncodingFollows(s, request, k)
  {
    hide WireFrom, Blocks, ReadNote, PromptNote, CallNote, WaitNote, Follows, NoCall;
    var sent := Encode(s, request);
    var moment := Sending(request, sent.message);
    OwnMoment(moment, k);
    if sent.message.Some? {
      var call := sent.message.value.call;
      AskedNote(request, s.ids + 1, call, sent.state.pending[s.ids + 1], k);
    }
    NoCallFollows(s, sent.state, moment, k);
  }

  lemma ReadingFollows(s: State, request: AgentRequest, k: nat)
    requires request.FileContents?
    ensures EncodingFollows(s, request, k)
  {
  }

  lemma PermittingFollows(s: State, request: AgentRequest, k: nat)
    requires request.Permission?
    ensures EncodingFollows(s, request, k)
  {
    hide ChooseOption;
  }

  lemma CallingOffFollows(s: State, request: AgentRequest, k: nat)
    requires request.PermissionCancelled?
    ensures EncodingFollows(s, request, k)
  {
  }

  lemma EndingFollows(s: State, request: AgentRequest, k: nat)
    requires request.Cancel? || request.Shutdown?
    ensures EncodingFollows(s, request, k)
  {
    hide WireFrom, Unexpired, ReadNote, PromptNote, CallNote, WaitNote, Follows, NoCall;
    var sent := Encode(s, request);
    OwnMoment(Sending(request, sent.message), k);
    NoCallFollows(s, sent.state, Sending(request, sent.message), k);
  }

  lemma TerminalReplyFollows(s: State, request: AgentRequest, k: nat)
    requires request.TerminalReply?
    ensures EncodingFollows(s, request, k)
  {
    hide TerminalAnswer;
  }

  lemma EncodeFollows(s: State, request: AgentRequest, k: nat)
    ensures EncodingFollows(s, request, k)
  {
    hide EncodingFollows;
    match request {
      case NewSession(_) => AskingFollows(s, request, k);
      case SetMode(_, _) => AskingFollows(s, request, k);
      case Prompt(_, _, _) => AskingFollows(s, request, k);
      case FileContents(_, _, _) => ReadingFollows(s, request, k);
      case Permission(_, _) => PermittingFollows(s, request, k);
      case TerminalReply(_, _) => TerminalReplyFollows(s, request, k);
      case PermissionCancelled(_) => CallingOffFollows(s, request, k);
      case _ => EndingFollows(s, request, k);
    }
  }

  // ---- the tables after one message heard ----------------------------------------------------

  lemma ResponseFollows(s: State, id: nat, result: Fields, k: nat)
    ensures var heard := Hear(s, Response(id, result));
            Follows(s, heard.state, Hearing(Response(id, result), heard.events, heard.messages), k)
  {
    hide Follows;
    ResponseLeaves(s, id, result);
    var heard := Hear(s, Response(id, result));
    ReplyFollows(s, heard.state, id, Hearing(Response(id, result), heard.events, heard.messages), k);
  }

  /** A response changes no table but that of the calls waited for. */
  lemma ResponseLeaves(s: State, id: nat, result: Fields)
    ensures var t := Hear(s, Response(id, result)).state;
            && t.fileReads == s.fileReads && t.permissions == s.permissions && t.rpcs == s.rpcs
            && t.pending == s.pending - {id}
  {
    hide Unexpired, Translations.ReasonOf, OnRequest, OnError, OnNotification;
    assert id !in s.pending ==> s.pending - {id} == s.pending;
  }

  lemma HeardMoment(moment: Moment, k: nat)
    requires moment.Hearing? && !moment.heard.Request?
    ensures NoCall(moment, k)
    ensures WaitNote(moment, k) == if !moment.heard.Notification? && moment.heard.id == k then Closes else Silent
  {
  }

  lemma ReplyFollows(s: State, t: State, id: nat, moment: Moment, k: nat)
    requires moment.Hearing? && (moment.heard.Response? || moment.heard.ErrorResponse?) && moment.heard.id == id
    requires t.fileReads == s.fileReads && t.permissions == s.permissions && t.rpcs == s.rpcs && t.pending == s.pending - {id}
    ensures Follows(s, t, moment, k)
  {
    hide ReadNote, PromptNote, CallNote, WaitNote, Follows, NoCall;
    HeardMoment(moment, k);
    NoCallFollows(s, t, moment, k);
  }

  lemma ErrorFollows(s: State, id: nat, text: string, k: nat)
    ensures var heard := Hear(s, ErrorResponse(id, text));
            Follows(s, heard.state, Hearing(ErrorResponse(id, text), heard.events, heard.messages), k)
  {
    hide Unexpired, Ended, Follows;
    var heard := Hear(s, ErrorResponse(id, text));
    ReplyFollows(s, heard.state, id, Hearing(ErrorResponse(id, text), heard.events, heard.messages), k);
  }

  lemma NotificationKeeps(s: State, message: Received)
    requires message.Notification?
    ensures var t := Hear(s, message).state;
            && t.fileReads == s.fileReads && t.permissions == s.permissions && t.rpcs == s.rpcs
            && t.pending == s.pending && t.sessions == s.sessions
  {
    hide SessionFrom, ToolEvents, OnRequest, OnError, OnResponse;
  }

  lemma NotificationFollows(s: State, message: Received, k: nat)
    requires message.Notification?
    ensures var heard := Hear(s, message); Follows(s, heard.state, Hearing(message, heard.events, heard.messages), k)
    ensures Hear(s, message).state.sessions == s.sessions
  {
    hide Hear, ReadNote, PromptNote, CallNote, WaitNote, Follows, NoCall;
    var heard := Hear(s, message);
    NotificationKeeps(s, message);
    HeardMoment(Hearing(message, heard.events, heard.messages), k);
    NoCallFollows(s, heard.state, Hearing(message, heard.events, heard.messages), k);
  }

  lemma AskFollows(s: State, message: Received, session: nat, k: nat)
    requires message.Request? && (message.call.ReadTextFile? || message.call.RequestPermission?)
    ensures var heard := OnRequest(s, message.id, session, message.call);
            Follows(s, heard.state, Hearing(message, heard.events, heard.messages), k) && heard.state.sessions == s.sessions
  {
    hide OnTerminalUse, Launch, OutputLimit;
  }

  lemma OtherFollows(s: State, message: Received, session: nat, k: nat)
    requires message.Request? && (message.call.WriteTextFile? || message.call.UnknownCall?)
    ensures var heard := OnRequest(s, message.id, session, message.call);
            Follows(s, heard.state, Hearing(message, heard.events, heard.messages), k) && heard.state.sessions == s.sessions
  {
    hide OnTerminalUse, Launch, OutputLimit;
  }

  /** Terminal calls: either refused, with nothing raised, or raised under the next id. */
  lemma TerminalMoment(message: Received, events: seq<AgentEvent>, messages: seq<Sent>, k: nat)
    requires message.Request? && (message.call.CreateTerminal? || message.call.UseTerminal?)
    ensures var moment := Hearing(message, events, messages);
            && ReadNote(moment, k) == Silent && PromptNote(moment, k) == Silent && WaitNote(moment, k) == Silent
            && (events == [] ==> CallNote(moment, k) == Silent)
            && forall session, j, operation | events == [TerminalRequest(session, j, operation)] ::
                 CallNote(moment, k) ==
                 if j == k && KindCalled(message.call, operation).Some?
                 then Opens(PendingRpc(message.id, session, KindCalled(message.call, operation).value)) else Silent
  {
  }

  lemma LaunchFollows(s: State, message: Received, session: nat, k: nat)
    requires message.Request? && message.call.CreateTerminal?
    ensures var heard := OnRequest(s, message.id, session, message.call);
            Follows(s, heard.state, Hearing(message, heard.events, heard.messages), k) && heard.state.sessions == s.sessions
  {
    hide GrantFrom, Without, OutputLimit, ReadNote, PromptNote, CallNote, WaitNote;
    var heard := OnRequest(s, message.id, session, message.call);
    TerminalMoment(message, heard.events, heard.messages, k);
  }

  lemma UseFollows(s: State, message: Received, session: nat, k: nat)
    requires message.Request? && message.call.UseTerminal?
    ensures var heard := OnRequest(s, message.id, session, message.call);
            Follows(s, heard.state, Hearing(message, heard.events, heard.messages), k) && heard.state.sessions == s.sessions
  {
    hide LiveTerminal, TerminalUse.Method, ReadNote, PromptNote, CallNote, WaitNote;
    var heard := OnRequest(s, message.id, session, message.call);
    TerminalMoment(message, heard.events, heard.messages, k);
  }

  lemma HearFollows(s: State, message: Received, k: nat)
    ensures var heard := Hear(s, message); Follows(s, heard.state, Hearing(message, heard.events, heard.messages), k)
    ensures !message.Response? ==> Hear(s, message).state.sessions == s.sessions
  {
    hide OnResponse, OnError, OnRequest, OnNotification, Addressed, Follows;
    match message {
      case Response(id, result) => ResponseFollows(s, id, result, k);
      case ErrorResponse(id, text) => ErrorFollows(s, id, text, k); ErrorKeepsSessions(s, id, text);
      case Notification(_, _, _) => NotificationFollows(s, message, k);
      case Request(_, sessionId, call) =>
        var session := Addressed(s.sessions, sessionId);
        match call {
          case ReadTextFile(_) => AskFollows(s, message, session, k);
          case RequestPermission(_, _, _) => AskFollows(s, message, session, k);
          case CreateTerminal(_, _) => LaunchFollows(s, message, session, k);
          case UseTerminal(_, _) => UseFollows(s, message, session, k);
          case _ => OtherFollows(s, message, session, k);
        }
    }
  }

  lemma ErrorKeepsSessions(s: State, id: nat, text: string)
    ensures OnError(s, id, text).state.sessions == s.sessions
  {
    hide Unexpired, Ended;
  }

  // ---- over a run ----------------------------------------------------------------------------

  /** The tables say of `k` what the log says. */
  predicate Kept(x: Exchange, k: nat) {
    && Look(x.state.fileReads, k) == ReadHeld(x.log, k)
    && Look(x.state.permissions, k) == PromptHeld(x.log, k)
    && Look(x.state.rpcs, k) == CallHeld(x.log, k)
    && Look(x.state.pending, k) == Waiting(x.log, k)
  }

  lemma KeptGrows(x: Exchange, t: State, moment: Moment, k: nat)
    requires Kept(x, k) && Follows(x.state, t, moment, k)
    ensures Kept(Exchange(t, x.log + [moment]), k)
  {
    hide ReadNote, PromptNote, CallNote, WaitNote, Next;
    Grown(x.log, moment);
  }

  lemma OpenFollows(s: State, capabilities: ClientCapabilities, k: nat)
    ensures var hello := Open(s, capabilities);
            Follows(s, hello.state, Greeted(hello.message), k) && hello.state.sessions == s.sessions
  {
  }

  lemma KeptStep(x: Exchange, act: Act, k: nat)
    requires Kept(x, k)
    ensures Kept(Perform(x, act), k)
  {
    hide Hear, Encode, Open, Kept, Follows;
    match act {
      case Greets(capabilities) =>
        OpenFollows(x.state, capabilities, k);
        KeptGrows(x, Open(x.state, capabilities).state, Greeted(Open(x.state, capabilities).message), k);
      case Holds(request) => HeldIsKept(x, request, k);
      case Sends(request) =>
        var sent := Encode(x.state, request);
        EncodeFollows(x.state, request, k);
        assert Follows(x.state, sent.state, Sending(request, sent.message), k);
        KeptGrows(x, sent.state, Sending(request, sent.message), k);
      case Hears(message) =>
        var heard := Hear(x.state, message);
        HearFollows(x.state, message, k);
        KeptGrows(x, heard.state, Hearing(message, heard.events, heard.messages), k);
    }
  }

  lemma HeldIsKept(x: Exchange, request: AgentRequest, k: nat)
    requires Kept(x, k)
    ensures Kept(Exchange(Hold(x.state, request), x.log), k)
  {
  }

  lemma NothingKept(k: nat)
    ensures Kept(NOTHING_YET, k)
  {
  }

  lemma {:induction false} PlayIsKept(acts: seq<Act>, n: nat, k: nat)
    requires n <= |acts|
    ensures Kept(Play(acts, n), k)
  {
    hide Kept, Perform;
    if n == 0 {
      NothingKept(k);
    } else {
      PlayIsKept(acts, n - 1, k);
      KeptStep(Play(acts, n - 1), acts[n - 1], k);
    }
  }

  /** After every run: a call is held under `k` if and only if it was raised under `k` and not answered since, and a
      call of ours is waited for if and only if it was written and not replied to since. */
  lemma TablesAreTheLog(inputs: seq<Input>, n: nat, k: nat)
    requires n <= |inputs|
    ensures var s, log := After(inputs, n), History(inputs, n).log;
            && Look(s.fileReads, k) == ReadHeld(log, k)
            && Look(s.permissions, k) == PromptHeld(log, k)
            && Look(s.rpcs, k) == CallHeld(log, k)
            && Look(s.pending, k) == Waiting(log, k)
  {
    hide After, History, ReadHeld, PromptHeld, CallHeld, Waiting, Play, PlayFrom;
    var acts := ActsTo(inputs, n);
    PlayIsKept(acts, |acts|, k);
    RunIsPlayed(inputs, n);
    HistoryIsPlay(inputs, n);
  }

  lemma HistoryIsPlay(inputs: seq<Input>, n: nat)
    requires n <= |inputs|
    ensures History(inputs, n) == Play(ActsTo(inputs, n), |ActsTo(inputs, n)|)
  {
  }

  // ---- sessions over a run -------------------------------------------------------------------

  lemma {:induction false} WireAppends(sessions: seq<SessionName>, last: SessionName, session: nat, i: nat)
    requires i <= |sessions|
    ensures WireFrom(sessions + [last], session, i) ==
            if WireFrom(sessions, session, i).Some? then WireFrom(sessions, session, i)
            else if last.session == session then Some(last.wire) else None
    decreases |sessions| - i
  {
    if i < |sessions| {
      WireAppends(sessions, last, session, i + 1);
    }
  }

  lemma {:induction false} SessionAppends(sessions: seq<SessionName>, last: SessionName, wire: string, i: nat)
    requires i <= |sessions|
    ensures SessionFrom(sessions + [last], wire, i) ==
            if SessionFrom(sessions, wire, i).Some? then SessionFrom(sessions, wire, i)
            else if last.wire == wire then Some(last.session) else None
    decreases |sessions| - i
  {
    if i < |sessions| {
      SessionAppends(sessions, last, wire, i + 1);
    }
  }

  lemma {:induction false} FreshIsUnnamed(sessions: seq<SessionName>, session: nat, i: nat)
    requires i <= |sessions| && forall j :: 0 <= j < |sessions| ==> sessions[j].session != session
    ensures WireFrom(sessions, session, i) == None
    decreases |sessions| - i
  {
    if i < |sessions| {
      FreshIsUnnamed(sessions, session, i + 1);
    }
  }

  /** A response either opens the next session under the name it gives, or leaves the sessions alone. */
  lemma ResponseOpens(s: State, id: nat, result: Fields)
    ensures var heard := Hear(s, Response(id, result));
            var began := OpenedAt(Hearing(Response(id, result), heard.events, heard.messages));
            match began
            case None => heard.state.sessions == s.sessions
            case Some(last) => last.session == s.nextSession + 1 && heard.state.sessions == s.sessions + [last]
  {
    hide Unexpired, Translations.ReasonOf;
  }

  lemma OthersOpenNothing(moment: Moment)
    requires moment.Hearing? ==> !moment.heard.Response?
    ensures OpenedAt(moment) == None
  {
  }

  /** The sessions, looked up either way, are those the log opened. */
  ghost predicate Named(x: Exchange, session: nat, wire: string) {
    && Sane(x.state)
    && WireFrom(x.state.sessions, session, 0) == NameOf(x.log, session)
    && SessionFrom(x.state.sessions, wire, 0) == FirstNamed(x.log, wire)
  }

  lemma NamedGrows(x: Exchange, t: State, moment: Moment, session: nat, wire: string)
    requires Named(x, session, wire) && Sane(t)
    requires match OpenedAt(moment)
             case None => t.sessions == x.state.sessions
             case Some(last) => last.session == x.state.nextSession + 1 && t.sessions == x.state.sessions + [last]
    ensures Named(Exchange(t, x.log + [moment]), session, wire)
  {
    hide OpenedAt, WireFrom, SessionFrom;
    Grown(x.log, moment);
    if OpenedAt(moment).Some? {
      var last := OpenedAt(moment).value;
      WireAppends(x.state.sessions, last, session, 0);
      SessionAppends(x.state.sessions, last, wire, 0);
      FreshIsUnnamed(x.state.sessions, last.session, 0);
    }
  }

  lemma NamedStep(x: Exchange, act: Act, session: nat, wire: string)
    requires Named(x, session, wire)
    ensures Named(Perform(x, act), session, wire)
  {
    hide Hear, Encode, Open, Named, OpenedAt, Sane, WireFrom, SessionFrom, Hold;
    NamedIsSane(x, session, wire);
    match act {
      case Greets(capabilities) =>
        var hello := Open(x.state, capabilities);
        OpenIsSane(x.state, capabilities);
        OpenFollows(x.state, capabilities, 0);
        OthersOpenNothing(Greeted(hello.message));
        NamedGrows(x, hello.state, Greeted(hello.message), session, wire);
      case Holds(request) =>
        HoldIsSane(x.state, request);
        HeldIsNamed(x, request, session, wire);
      case Sends(request) =>
        var sent := Encode(x.state, request);
        EncodeIsSane(x.state, request);
        EncodeFollows(x.state, request, 0);
        assert sent.state.sessions == x.state.sessions;
        OthersOpenNothing(Sending(request, sent.message));
        NamedGrows(x, sent.state, Sending(request, sent.message), session, wire);
      case Hears(message) =>
        var heard := Hear(x.state, message);
        HearIsSane(x.state, message);
        HearFollows(x.state, message, 0);
        var moment := Hearing(message, heard.events, heard.messages);
        if message.Response? {
          ResponseOpens(x.state, message.id, message.result);
        } else {
          OthersOpenNothing(moment);
        }
        NamedGrows(x, heard.state, moment, session, wire);
    }
  }

  lemma NamedIsSane(x: Exchange, session: nat, wire: string)
    requires Named(x, session, wire)
    ensures Sane(x.state)
  {
  }

  lemma HeldIsNamed(x: Exchange, request: AgentRequest, session: nat, wire: string)
    requires Named(x, session, wire) && Sane(Hold(x.state, request))
    ensures Named(Exchange(Hold(x.state, request), x.log), session, wire)
  {
  }

  lemma NothingNamed(session: nat, wire: string)
    ensures Named(NOTHING_YET, session, wire)
  {
  }

  lemma {:induction false} PlayIsNamed(acts: seq<Act>, n: nat, session: nat, wire: string)
    requires n <= |acts|
    ensures Named(Play(acts, n), session, wire)
  {
    hide Named, Perform;
    if n == 0 {
      NothingNamed(session, wire);
    } else {
      PlayIsNamed(acts, n - 1, session, wire);
      NamedStep(Play(acts, n - 1), acts[n - 1], session, wire);
    }
  }

  /** After every run a session is known by the name it was opened under, and a name stands for the session first
      opened under it. */
  lemma SessionsAreTheLog(inputs: seq<Input>, n: nat, session: nat, wire: string)
    requires n <= |inputs|
    ensures var s, log := After(inputs, n), History(inputs, n).log;
            && WireFrom(s.sessions, session, 0) == NameOf(log, session)
            && SessionFrom(s.sessions, wire, 0) == FirstNamed(log, wire)
  {
    hide After, History, Play, PlayFrom, WireFrom, SessionFrom, NameOf, FirstNamed;
    var acts := ActsTo(inputs, n);
    PlayIsNamed(acts, |acts|, session, wire);
    RunIsPlayed(inputs, n);
    HistoryIsPlay(inputs, n);
  }
}
