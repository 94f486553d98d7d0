/** What is written means what was asked, and what is heard is passed on as what it was: each message tied, over
    whole runs, to the moment it answers. */
module Answers {
  import opened Options
  import opened Decimals
  import opened Agents
  import opened Translations
  import opened Exchanges
  import opened Ledgers
  import Conservation

  // A run is taken act by act here, so that what is said of an encoded request also holds of those that were held.

  // ---- answering the agent -------------------------------------------------------------------

  /** The first option offered under that kind. */
  ghost predicate OffersFirst(options: seq<PermissionOption>, kind: string, id: string) {
    exists i :: 0 <= i < |options| && options[i].kind == kind && options[i].id == id &&
                forall j :: 0 <= j < i ==> options[j].kind != kind
  }

  predicate Offers(options: seq<PermissionOption>, kind: string) { exists o :: o in options && o.kind == kind }

  /** The answer says what the human said: the option of that very kind, or where none was offered the once form of
      the same answer, or that nothing was selected where neither was. */
  ghost predicate SaysSo(options: seq<PermissionOption>, exact: string, once: string, answer: Answer) {
    if Offers(options, exact) then answer.Selected? && OffersFirst(options, exact, answer.option)
    else if Offers(options, once) then answer.Selected? && OffersFirst(options, once, answer.option)
    else answer == NotSelected
  }

  ghost predicate SaysDecision(options: seq<PermissionOption>, decision: PermissionDecision, answer: Answer) {
    match decision
    case AllowOnce => SaysSo(options, "allow_once", "allow_once", answer)
    case AllowAlways => SaysSo(options, "allow_always", "allow_once", answer)
    case RejectOnce => SaysSo(options, "reject_once", "reject_once", answer)
    case RejectAlways => SaysSo(options, "reject_always", "reject_once", answer)
  }

  lemma {:induction false} OptionFromIsFirst(options: seq<PermissionOption>, kind: string, i: nat)
    requires i <= |options| && forall j :: 0 <= j < i ==> options[j].kind != kind
    ensures OptionFrom(options, kind, i).Some? <==> Offers(options, kind)
    ensures OptionFrom(options, kind, i).Some? ==> OffersFirst(options, kind, OptionFrom(options, kind, i).value)
    decreases |options| - i
  {
    if i < |options| && options[i].kind != kind {
      OptionFromIsFirst(options, kind, i + 1);
    }
  }

  /** Over every run: what is written for an answered prompt replies to the call that raised it, and says what the
      human said of the options it came with. */
  lemma PromptsAreAnswered(acts: seq<Act>, n: nat, k: nat, decision: PermissionDecision)
    requires n <= |acts|
    ensures var raised := PromptHeld(Play(acts, n).log, k);
            var message := Encode(Play(acts, n).state, Permission(k, decision)).message;
            if raised.None? then message == None
            else && message.Some? && message.value.Reply? && message.value.id == raised.value.wire
                 && SaysDecision(raised.value.options, decision, message.value.answer)
  {
    hide Play, PlayFrom, PromptHeld, OptionFrom, Offers, OffersFirst;
    var s := Play(acts, n).state;
    PlayIsKept(acts, n, k);
    if k in s.permissions {
      var options := s.permissions[k].options;
      OptionFromIsFirst(options, decision.Kind(), 0);
      OptionFromIsFirst(options, decision.Fallback(), 0);
    }
  }

  lemma CancelledPromptsAreAnswered(acts: seq<Act>, n: nat, k: nat)
    requires n <= |acts|
    ensures var raised := PromptHeld(Play(acts, n).log, k);
            Encode(Play(acts, n).state, PermissionCancelled(k)).message ==
            if raised.None? then None else Some(Reply(raised.value.wire, NotSelected))
  {
    hide Play, PlayFrom, PromptHeld;
    PlayIsKept(acts, n, k);
  }

  /** Over every run: contents given for a read reply to the call that raised it, and a file that cannot be read is
      an error and no empty text. */
  lemma ReadsAreAnswered(acts: seq<Act>, n: nat, k: nat, path: string, contents: Option<string>)
    requires n <= |acts|
    ensures var raised := ReadHeld(Play(acts, n).log, k);
            Encode(Play(acts, n).state, FileContents(k, path, contents)).message ==
            match (raised, contents)
            case (None, _) => None
            case (Some(w), Some(text)) => Some(Reply(w, Content(text)))
            case (Some(w), None) => Some(Refused(w, -32000, CannotRead(path)))
  {
    hide Play, PlayFrom, ReadHeld;
    PlayIsKept(acts, n, k);
  }

  /** The answer that a response gives to an operation of that kind, if it gives one. */
  function Fitting(kind: RpcKind, response: TerminalResponse): Option<Answer> {
    match (kind, response)
    case (CreateKind, Created(t)) => Some(Answer.Named("termesh-" + Decimal(t)))
    case (UseKind(UseOutput, _), Printed(output, truncated, exit)) => Some(OutputSoFar(output, truncated, exit))
    case (UseKind(UseWait, _), Exited(status)) => Some(ExitStatus(status))
    case (UseKind(UseKill, _), Acknowledged) => Some(Done)
    case (UseKind(UseRelease, _), Acknowledged) => Some(Done)
    case _ => None
  }

  /** The answer to a call raised as `rpc`: what fits it, or a refusal for a terminal launched before, for the trouble
      reported, or because the response is not one to this operation. */
  predicate AnsweredBy(rpc: PendingRpc, response: TerminalResponse, known: seq<Binding>, message: Sent) {
    match Fitting(rpc.kind, response)
    case Some(answer) =>
      if response.Created? && TerminalFrom(known, response.terminal, 0).Some?
      then message == Refused(rpc.wire, -32000, AlreadyNamed(response.terminal)) else message == Reply(rpc.wire, answer)
    case None => message == Refused(rpc.wire, -32000, if response.Broken? then Told(response.message) else WrongResponse)
  }

  /** Over every run: what is written for a terminal call replies to the call that raised it, with the answer its
      operation calls for, or is refused for a reason that holds. */
  lemma CallsAreAnswered(acts: seq<Act>, n: nat, k: nat, response: TerminalResponse)
    requires n <= |acts|
    ensures var raised := CallHeld(Play(acts, n).log, k);
            var message := Encode(Play(acts, n).state, TerminalReply(k, response)).message;
            if raised.None? then message == None
            else message.Some? && AnsweredBy(raised.value, response, Play(acts, n).state.terminals, message.value)
  {
    hide Play, PlayFrom, CallHeld, TerminalFrom, Decimal, MarkFrom;
    PlayIsKept(acts, n, k);
  }

  // ---- asking the agent ----------------------------------------------------------------------

  /** Over every run: a prompt, a mode change or a cancel goes to its own session, under the name that one was opened
      with, the context ahead of the words; for a session never opened nothing is written. */
  lemma RequestsReachTheirSession(acts: seq<Act>, n: nat, session: nat, text: string, context: string, mode: string)
    requires n <= |acts|
    ensures var s := Play(acts, n).state;
            var name := NameOf(Play(acts, n).log, session);
            if name.None?
            then && Encode(s, Prompt(session, text, context)).message == None
                 && Encode(s, SetMode(session, mode)).message == None && Encode(s, Cancel(session)).message == None
            else && Encode(s, Prompt(session, text, context)).message ==
                    Some(Call(s.ids + 1, CallPrompt(name.value, if context == "" then [text] else [context, text])))
                 && Encode(s, SetMode(session, mode)).message == Some(Call(s.ids + 1, CallSetMode(name.value, mode)))
                 && Encode(s, Cancel(session)).message == Some(CancelTurn(name.value))
  {
    hide Play, PlayFrom, NameOf, WireFrom, Unexpired;
    PlayIsNamed(acts, n, session, "");
  }

  // ---- what the agent replies ----------------------------------------------------------------

  /** The agent's word for each reason to stop but the ordinary one. */
  ghost predicate StopsFor(word: Option<string>, reason: StopReason) {
    && (reason == StopReason.Cancelled <==> word == Some("cancelled"))
    && (reason == Refusal <==> word == Some("refusal"))
    && (reason == MaxTokens <==> word == Some("max_tokens"))
  }

  /** Over every run: a response is taken for the reply to the call it names. It ends the turn of the session that was
      prompted, for the reason given; it changes the mode to the one asked for; it opens one more session; it greets;
      and it does nothing where no such call is waited for. */
  lemma ResponsesMeanTheirCall(inputs: seq<Input>, n: nat, id: nat, result: Fields)
    requires n <= |inputs|
    ensures var s := After(inputs, n);
            var events := Handle(s, Theirs(Response(id, result))).events;
            match Waiting(History(inputs, n).log, id)
            case None => events == []
            case Some(Initialize) => events == [Ready(result.capabilities)]
            case Some(Turn(session)) =>
              |events| == 1 && events[0].TurnEnded? && events[0].session == session && StopsFor(result.stopReason, events[0].reason)
            case Some(ChangingMode(session, mode)) => events == [ModeChanged(session, mode)]
            case Some(Opening) =>
              if result.sessionId.None? then events == [Failed(NO_SESSION, NoSessionId)]
              else events == [SessionStarted(|s.sessions| + 1)] +
                             if result.modes.None? then [] else [ModesAvailable(|s.sessions| + 1, result.modes.value)]
  {
    hide After, History, Waiting, Unexpired, Drain;
    TablesAreTheLog(inputs, n, id);
    Conservation.RunIsSane(inputs, n);
  }

  /** An error ends the turn or the mode change it answers, and is reported against its session. */
  lemma ErrorsMeanTheirCall(inputs: seq<Input>, n: nat, id: nat, text: string)
    requires n <= |inputs|
    ensures var session := match Waiting(History(inputs, n).log, id)
                           case Some(Turn(session)) => session
                           case Some(ChangingMode(session, _)) => session
                           case _ => NO_SESSION;
            Handle(After(inputs, n), Theirs(ErrorResponse(id, text))).events == [Failed(session, Told(text))]
  {
    hide After, History, Waiting, Unexpired;
    TablesAreTheLog(inputs, n, id);
  }

  // ---- what the agent says -------------------------------------------------------------------

  /** What the editor shows of an agent's work: words, thoughts, edits to review, and the mode it is in. */
  datatype Item = Word(text: string) | Thought(text: string) | Proposed(path: string, was: Option<string>, text: string) | Mode(mode: string)

  function EditsIn(contents: seq<ToolContent>): seq<Item> {
    if contents == [] then []
    else
      EditsIn(contents[..|contents| - 1]) +
      match contents[|contents| - 1]
      case Diff(Some(path), was, Some(text)) => [Proposed(path, was, text)]
      case _ => []
  }

  function ItemsIn(update: Update): seq<Item> {
    match update
    case MessageText(Some(text)) => [Word(text)]
    case ThoughtText(Some(text)) => [Thought(text)]
    case CurrentMode(Some(mode)) => [Mode(mode)]
    case ToolCall(Some(contents)) => EditsIn(contents)
    case _ => []
  }

  /** The session that a call is about; one never opened counts as none. */
  function About(before: seq<Moment>, sessionId: Option<string>): nat {
    if sessionId.None? || FirstNamed(before, sessionId.value).None? then NO_SESSION else FirstNamed(before, sessionId.value).value
  }

  /** What the agent said in this moment to `session`. */
  function SaidAt(before: seq<Moment>, moment: Moment, session: nat): seq<Item> {
    match moment
    case Hearing(Notification(name, Some(wire), Some(update)), _, _) =>
      if name == "session/update" && FirstNamed(before, wire) == Some(session) then ItemsIn(update) else []
    case Hearing(Request(_, sessionId, WriteTextFile(Some(path), Some(text))), _, _) =>
      if About(before, sessionId) == session then [Proposed(path, None, text)] else []
    case Hearing(Response(id, _), _, _) =>
      (match Waiting(before, id)
       case Some(ChangingMode(asker, mode)) => if asker == session then [Mode(mode)] else []
       case _ => [])
    case _ => []
  }

  function Said(log: seq<Moment>, session: nat): seq<Item> {
    if log == [] then [] else Said(log[..|log| - 1], session) + SaidAt(log[..|log| - 1], log[|log| - 1], session)
  }

  /** What the editor was told. */
  function Passed(event: AgentEvent, session: nat): seq<Item> {
    match event
    case MessageChunk(s, text) => if s == session then [Word(text)] else []
    case ThoughtChunk(s, text) => if s == session then [Thought(text)] else []
    case ProposedEdit(s, _, path, was, text) => if s == session then [Proposed(path, was, text)] else []
    case ModeChanged(s, mode) => if s == session then [Mode(mode)] else []
    case _ => []
  }

  function PassedOn(events: seq<AgentEvent>, session: nat): seq<Item> {
    if events == [] then [] else PassedOn(events[..|events| - 1], session) + Passed(events[|events| - 1], session)
  }

  function Transcript(log: seq<Moment>, session: nat): seq<Item> {
    if log == [] then [] else Transcript(log[..|log| - 1], session) + PassedOn(MomentEvents(log[|log| - 1]), session)
  }

  lemma {:induction false} PassesBoth(a: seq<AgentEvent>, b: seq<AgentEvent>, session: nat)
    ensures PassedOn(a + b, session) == PassedOn(a, session) + PassedOn(b, session)
    decreases |b|
  {
    hide Passed;
    if b == [] {
      assert a + b == a;
    } else {
      var front := b[..|b| - 1];
      assert (a + b)[..|a + b| - 1] == a + front && (a + b)[|a + b| - 1] == b[|b| - 1];
      PassesBoth(a, front, session);
    }
  }

  lemma FewPass(session: nat)
    ensures PassedOn([], session) == []
    ensures forall event :: PassedOn([event], session) == Passed(event, session)
  {
    forall event: AgentEvent
      ensures PassedOn([event], session) == Passed(event, session)
    {
      assert [event][..0] == [];
    }
  }

  lemma {:induction false} ToolsPass(terminals: seq<Binding>, about: nat, contents: seq<ToolContent>, next: nat, n: nat, session: nat)
    requires n <= |contents|
    ensures PassedOn(ToolEvents(terminals, about, contents, next, n).0, session) ==
            if about == session then EditsIn(contents[..n]) else []
  {
    hide BindingFrom, PassedOn;
    FewPass(session);
    if n > 0 {
      ToolsPass(terminals, about, contents, next, n - 1, session);
      var before := ToolEvents(terminals, about, contents, next, n - 1);
      var last := ToolEvent(terminals, about, contents[n - 1], before.1).0;
      assert contents[..n][..n - 1] == contents[..n - 1] && contents[..n][n - 1] == contents[n - 1];
      PassesBoth(before.0, last, session);
    }
  }

  lemma UpdatePasses(s: State, about: nat, update: Update, session: nat)
    ensures PassedOn(OnUpdate(s, about, update).events, session) == if about == session then ItemsIn(update) else []
  {
    hide ToolEvents, PassedOn, EditsIn;
    FewPass(session);
    if update.ToolCall? && update.contents.Some? {
      var contents := update.contents.value;
      ToolsPass(s.terminals, about, contents, s.nextId, |contents|, session);
      assert contents[..|contents|] == contents;
    }
  }

  lemma CallPasses(s: State, id: nat, about: nat, call: AgentCall, session: nat)
    ensures PassedOn(OnRequest(s, id, about, call).events, session) ==
            match call
            case WriteTextFile(Some(path), Some(text)) => if about == session then [Proposed(path, None, text)] else []
            case _ => []
  {
    hide LiveTerminal, GrantFrom, Without, OutputLimit, TerminalUse.Method, TerminalUse.On, PassedOn;
    FewPass(session);
  }

  lemma ResponsePasses(s: State, id: nat, result: Fields, session: nat)
    ensures PassedOn(Hear(s, Response(id, result)).events, session) ==
            match Look<Pending>(s.pending, id)
            case Some(ChangingMode(asker, mode)) => if asker == session then [Mode(mode)] else []
            case _ => []
  {
    hide Expire, PassedOn, OpenSession, Translations.ReasonOf;
    FewPass(session);
    OpeningPasses(s.(pending := s.pending - {id}), result, session);
  }

  lemma OpeningPasses(s: State, result: Fields, session: nat)
    ensures PassedOn(OpenSession(s, result).events, session) == []
  {
    hide PassedOn;
    FewPass(session);
    var started := SessionStarted(s.nextSession + 1);
    if result.sessionId.Some? {
      var modes := if result.modes.Some? then [ModesAvailable(s.nextSession + 1, result.modes.value)] else [];
      PassesBoth([started], modes, session);
    }
  }

  /** The session names and the calls waited for are those of the log. */
  ghost predicate Known(x: Exchange) {
    && (forall wire :: SessionFrom(x.state.sessions, wire, 0) == FirstNamed(x.log, wire))
    && (forall id :: Look(x.state.pending, id) == Waiting(x.log, id))
  }

  lemma HearPasses(x: Exchange, message: Received, session: nat)
    requires Known(x)
    ensures var heard := Hear(x.state, message);
            PassedOn(heard.events, session) == SaidAt(x.log, Hearing(message, heard.events, heard.messages), session)
  {
    hide OnRequest, OnUpdate, OnResponse, OnError, PassedOn, SessionFrom, FirstNamed, Waiting, ItemsIn, Passed;
    match message {
      case Notification(name, sessionId, update) =>
        FewPass(session);
        if sessionId.Some? && update.Some? {
          var about := SessionFrom(x.state.sessions, sessionId.value, 0);
          assert about == FirstNamed(x.log, sessionId.value);
          if about.Some? {
            UpdatePasses(x.state, about.value, update.value, session);
          }
        }
      case Request(id, sessionId, call) =>
        assert sessionId.Some? ==> SessionFrom(x.state.sessions, sessionId.value, 0) == FirstNamed(x.log, sessionId.value);
        CallPasses(x.state, id, Addressed(x.state.sessions, sessionId), call, session);
      case Response(id, result) => ResponsePasses(x.state, id, result, session);
      case ErrorResponse(id, text) => ErrorPasses(x.state, id, text, session);
    }
  }

  lemma ErrorPasses(s: State, id: nat, text: string, session: nat)
    ensures PassedOn(Hear(s, ErrorResponse(id, text)).events, session) == []
  {
    hide Unexpired, Ended, PassedOn;
    FewPass(session);
  }

  lemma TranscriptGrows(log: seq<Moment>, moment: Moment, session: nat)
    ensures Transcript(log + [moment], session) == Transcript(log, session) + PassedOn(MomentEvents(moment), session)
    ensures Said(log + [moment], session) == Said(log, session) + SaidAt(log, moment, session)
  {
    hide PassedOn, SaidAt;
    Grown(log, moment);
  }

  lemma SilentMoment(log: seq<Moment>, moment: Moment, session: nat)
    requires !moment.Hearing?
    ensures Transcript(log + [moment], session) == Transcript(log, session) && Said(log + [moment], session) == Said(log, session)
  {
    hide Transcript, Said;
    TranscriptGrows(log, moment, session);
    FewPass(session);
  }

  lemma PassesStep(x: Exchange, act: Act, session: nat)
    requires Transcript(x.log, session) == Said(x.log, session) && Known(x)
    ensures Transcript(Perform(x, act).log, session) == Said(Perform(x, act).log, session)
  {
    hide Hear, Encode, Open, Hold, SaidAt, PassedOn, Transcript, Said, Known;
    match act {
      case Greets(capabilities) => SilentMoment(x.log, Greeted(Open(x.state, capabilities).message), session);
      case Holds(request) =>
      case Sends(request) => SilentMoment(x.log, Sending(request, Encode(x.state, request).message), session);
      case Hears(message) =>
        var heard := Hear(x.state, message);
        HearPasses(x, message, session);
        TranscriptGrows(x.log, Hearing(message, heard.events, heard.messages), session);
    }
  }

  lemma PlayIsKnown(acts: seq<Act>, n: nat)
    requires n <= |acts|
    ensures Known(Play(acts, n))
  {
    hide Play, SessionFrom, FirstNamed, Waiting;
    forall wire
      ensures SessionFrom(Play(acts, n).state.sessions, wire, 0) == FirstNamed(Play(acts, n).log, wire)
    {
      PlayIsNamed(acts, n, 0, wire);
    }
    forall id
      ensures Look(Play(acts, n).state.pending, id) == Waiting(Play(acts, n).log, id)
    {
      PlayIsKept(acts, n, id);
    }
  }

  lemma NothingSaidYet(session: nat)
    ensures Transcript([], session) == Said([], session)
  {
  }

  lemma {:induction false} PlayPasses(acts: seq<Act>, n: nat, session: nat)
    requires n <= |acts|
    ensures Transcript(Play(acts, n).log, session) == Said(Play(acts, n).log, session)
  {
    hide Perform, Transcript, Said, Known;
    if n == 0 {
      NothingSaidYet(session);
    } else {
      PlayPasses(acts, n - 1, session);
      PlayIsKnown(acts, n - 1);
      PassesStep(Play(acts, n - 1), acts[n - 1], session);
    }
  }

  lemma {:induction false} TranscriptIsPassed(log: seq<Moment>, session: nat)
    ensures PassedOn(LogEvents(log), session) == Transcript(log, session)
    decreases |log|
  {
    hide PassedOn, MomentEvents;
    FewPass(session);
    if log != [] {
      TranscriptIsPassed(log[..|log| - 1], session);
      PassesBoth(LogEvents(log[..|log| - 1]), MomentEvents(log[|log| - 1]), session);
    }
  }

  /** Over every run: all the agent says to a session reaches the editor in order and unchanged: words as words,
      thoughts as thoughts, each edit it shows or writes as one to review, and each change of mode. */
  lemma TranscriptIsComplete(inputs: seq<Input>, n: nat, session: nat)
    requires n <= |inputs|
    ensures PassedOn(Raised(inputs, n), session) == Said(History(inputs, n).log, session)
  {
    hide After, Raised, Transcript, Said, PassedOn, Play, PlayFrom;
    var acts := ActsTo(inputs, n);
    PlayPasses(acts, |acts|, session);
    RunIsPlayed(inputs, n);
    HistoryIsPlay(inputs, n);
    TranscriptIsPassed(History(inputs, n).log, session);
  }
}
