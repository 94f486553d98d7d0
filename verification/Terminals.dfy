/** Terminal names on the wire: whose terminal an operation names, and what a release ends. */
module Terminals {
  import opened Options
  import opened Agents
  import opened Decimals
  import opened Translations
  import opened Exchanges
  import Grants

  // ---- what the log says ---------------------------------------------------------------------

  datatype TerminalCall = TerminalCall(session: nat, operation: TerminalOperation)

  predicate CallsAs(moment: Moment, k: nat) {
    moment.Hearing? && moment.events != [] && moment.events[0].TerminalRequest? && moment.events[0].rpc == k
  }

  /** The terminal call raised under id `k`. */
  function Called(log: seq<Moment>, k: nat): Option<TerminalCall> {
    if log == [] then None
    else
      var last := log[|log| - 1];
      if CallsAs(last, k) then Some(TerminalCall(last.events[0].session, last.events[0].operation))
      else Called(log[..|log| - 1], k)
  }

  /** The terminal call this moment answers with success. */
  predicate Answers(moment: Moment, response: TerminalResponse) {
    && moment.Sending? && moment.request.TerminalReply? && moment.request.response == response
    && moment.message.Some? && moment.message.value.Reply?
  }

  /** The session whose launch was told it got terminal `t`. */
  function Bound(log: seq<Moment>, t: nat): Option<nat> {
    if log == [] then None
    else
      var before, last := log[..|log| - 1], log[|log| - 1];
      if Answers(last, Created(t)) && Called(before, last.request.rpc).Some?
      then Some(Called(before, last.request.rpc).value.session)
      else Bound(before, t)
  }

  predicate ReleasedAt(log: seq<Moment>, moment: Moment, t: nat) {
    && Answers(moment, Acknowledged)
    && Called(log, moment.request.rpc).Some? && Called(log, moment.request.rpc).value.operation == Release(t)
  }

  /** Whether a release of `t` was acknowledged. */
  predicate Released(log: seq<Moment>, t: nat) {
    log != [] && (Released(log[..|log| - 1], t) || ReleasedAt(log[..|log| - 1], log[|log| - 1], t))
  }

  lemma CalledGrows(log: seq<Moment>, moment: Moment, k: nat)
    ensures Called(log + [moment], k) ==
            if CallsAs(moment, k) then Some(TerminalCall(moment.events[0].session, moment.events[0].operation))
            else Called(log, k)
  {
    Grown(log, moment);
  }

  lemma BoundGrows(log: seq<Moment>, moment: Moment, t: nat)
    ensures Bound(log + [moment], t) ==
            if Answers(moment, Created(t)) && Called(log, moment.request.rpc).Some?
            then Some(Called(log, moment.request.rpc).value.session) else Bound(log, t)
    ensures Released(log + [moment], t) == (Released(log, t) || ReleasedAt(log, moment, t))
  {
    hide Called;
    Grown(log, moment);
  }

  // ---- bindings ------------------------------------------------------------------------------

  /** Each terminal is bound once, under its own name. */
  ghost predicate Distinct(terminals: seq<Binding>) {
    && (forall i :: 0 <= i < |terminals| ==> terminals[i].wire == WireName(terminals[i].terminal))
    && (forall i, j :: 0 <= i < j < |terminals| ==> terminals[i].terminal != terminals[j].terminal)
  }

  lemma WireNameIsInjective(t: nat, u: nat)
    requires WireName(t) == WireName(u)
    ensures t == u
  {
    assert WireName(t)[|"termesh-"|..] == Decimal(t);
    assert WireName(u)[|"termesh-"|..] == Decimal(u);
    DecimalIsInjective(t, u);
  }

  lemma FoundByName(terminals: seq<Binding>, i: nat)
    requires Distinct(terminals) && i < |terminals|
    ensures TerminalFrom(terminals, terminals[i].terminal, 0) == Some(i)
  {
    hide TerminalFrom, WireName;
  }

  lemma {:induction false} BindingFromFinds(terminals: seq<Binding>, wire: string, i: nat)
    ensures BindingFrom(terminals, wire, i).None? ==> forall j :: i <= j < |terminals| ==> terminals[j].wire != wire
    decreases |terminals| - i
  {
    if i < |terminals| {
      BindingFromFinds(terminals, wire, i + 1);
    }
  }

  /** Looking a name up finds its terminal, and nothing else. */
  lemma FoundByWire(terminals: seq<Binding>, t: nat)
    requires Distinct(terminals)
    ensures BindingFrom(terminals, WireName(t), 0) == TerminalFrom(terminals, t, 0)
  {
    hide BindingFrom, TerminalFrom, WireName;
    var found := TerminalFrom(terminals, t, 0);
    var named := BindingFrom(terminals, WireName(t), 0);
    BindingFromFinds(terminals, WireName(t), 0);
    if named.Some? {
      WireNameIsInjective(terminals[named.value].terminal, t);
      FoundByName(terminals, named.value);
    }
  }

  lemma {:induction false} MarkFromMarks(terminals: seq<Binding>, t: nat, session: nat, i: nat, at: nat)
    requires Distinct(terminals) && i <= at < |terminals|
    requires terminals[at].terminal == t && terminals[at].session == session
    ensures MarkFrom(terminals, t, session, i) == terminals[at := terminals[at].(released := true)]
    decreases |terminals| - i
  {
    if i < at {
      MarkFromMarks(terminals, t, session, i + 1, at);
    }
  }

  lemma DistinctMarked(terminals: seq<Binding>, at: nat)
    requires Distinct(terminals) && at < |terminals|
    ensures Distinct(terminals[at := terminals[at].(released := true)])
  {
    hide WireName;
  }

  lemma DistinctGrown(terminals: seq<Binding>, t: nat, session: nat)
    requires Distinct(terminals) && TerminalFrom(terminals, t, 0).None?
    ensures Distinct(terminals + [Binding(t, WireName(t), session, false)])
  {
    hide WireName, TerminalFrom;
  }

  // ---- what a run keeps ----------------------------------------------------------------------

  datatype Standing = Unbound | Standing(session: nat, released: bool)

  function StandingOf(terminals: seq<Binding>, t: nat): Standing {
    match TerminalFrom(terminals, t, 0)
    case None => Unbound
    case Some(i) => Standing(terminals[i].session, terminals[i].released)
  }

  /** The operation an outstanding terminal call was raised with. */
  predicate KindOf(kind: RpcKind, operation: TerminalOperation) {
    match kind
    case CreateKind => operation.Create?
    case UseKind(use, t) => operation == use.On(t)
  }

  predicate BoundTo(terminals: seq<Binding>, t: nat, session: nat) {
    var standing := StandingOf(terminals, t);
    standing.Standing? && standing.session == session
  }

  /** Outstanding calls are remembered as raised, and name terminals of their own session. */
  ghost predicate Recalls(x: Exchange) {
    forall k :: k in x.state.rpcs ==>
      var rpc := x.state.rpcs[k];
      && Called(x.log, k).Some? && Called(x.log, k).value.session == rpc.session
      && KindOf(rpc.kind, Called(x.log, k).value.operation)
      && (rpc.kind.UseKind? ==> BoundTo(x.state.terminals, rpc.kind.terminal, rpc.session))
  }

  /** The bindings say of `t` what the log says. */
  predicate Agrees(x: Exchange, t: nat) {
    StandingOf(x.state.terminals, t) ==
    if Bound(x.log, t).None? then Unbound else Standing(Bound(x.log, t).value, Released(x.log, t))
  }

  predicate NeverReleasedUnbound(x: Exchange, t: nat) { Bound(x.log, t).None? ==> !Released(x.log, t) }

  lemma GrownStanding(terminals: seq<Binding>, u: nat, session: nat, t: nat)
    requires Distinct(terminals) && TerminalFrom(terminals, u, 0).None?
    ensures StandingOf(terminals + [Binding(u, WireName(u), session, false)], t) ==
            if t == u then Standing(session, false) else StandingOf(terminals, t)
  {
    hide WireName, TerminalFrom;
    var grown := terminals + [Binding(u, WireName(u), session, false)];
    DistinctGrown(terminals, u, session);
    if t == u {
      FoundByName(grown, |terminals|);
    } else if TerminalFrom(terminals, t, 0).Some? {
      FoundByName(grown, TerminalFrom(terminals, t, 0).value);
    }
  }

  lemma MarkedStanding(terminals: seq<Binding>, at: nat, t: nat)
    requires Distinct(terminals) && at < |terminals|
    ensures StandingOf(terminals[at := terminals[at].(released := true)], t) ==
            if t == terminals[at].terminal then Standing(terminals[at].session, true) else StandingOf(terminals, t)
  {
    hide WireName, TerminalFrom;
    var marked := terminals[at := terminals[at].(released := true)];
    DistinctMarked(terminals, at);
    if t == terminals[at].terminal {
      FoundByName(marked, at);
    } else if TerminalFrom(terminals, t, 0).Some? {
      FoundByName(marked, TerminalFrom(terminals, t, 0).value);
    }
  }

  /** An answer names its own terminal or releases it, and touches no other. */
  lemma AnswerStanding(terminals: seq<Binding>, rpc: PendingRpc, response: TerminalResponse, t: nat)
    requires Distinct(terminals)
    requires rpc.kind.UseKind? ==> BoundTo(terminals, rpc.kind.terminal, rpc.session)
    ensures var answer := TerminalAnswer(terminals, rpc, response);
            && Distinct(answer.0)
            && (answer.1.Reply? && response.Created? ==>
                  rpc.kind.CreateKind? && StandingOf(terminals, response.terminal).Unbound?)
            && (answer.1.Reply? && response.Acknowledged? ==> rpc.kind.UseKind?)
            && (response.Acknowledged? && rpc.kind == UseKind(UseRelease, t) ==> answer.1.Reply?)
            && StandingOf(answer.0, t) ==
               if answer.1.Reply? && response == Created(t) then Standing(rpc.session, false)
               else if response.Acknowledged? && rpc.kind == UseKind(UseRelease, t) then Standing(rpc.session, true)
               else StandingOf(terminals, t)
  {
    hide WireName, TerminalFrom, MarkFrom, Distinct;
    match (rpc.kind, response) {
      case (CreateKind, Created(u)) =>
        if TerminalFrom(terminals, u, 0).None? {
          DistinctGrown(terminals, u, rpc.session);
          GrownStanding(terminals, u, rpc.session, t);
        }
      case (UseKind(UseRelease, u), Acknowledged) =>
        var at := TerminalFrom(terminals, u, 0).value;
        MarkFromMarks(terminals, u, rpc.session, 0, at);
        DistinctMarked(terminals, at);
        MarkedStanding(terminals, at, t);
      case _ =>
    }
  }

  // ---- step by step --------------------------------------------------------------------------

  /** All that a run keeps, of terminal `t`. */
  ghost predicate Faithful(x: Exchange, t: nat) {
    Distinct(x.state.terminals) && Recalls(x) && Agrees(x, t) && NeverReleasedUnbound(x, t)
  }

  /** A step that says nothing to a terminal call and leaves the bindings. */
  lemma QuietMoment(x: Exchange, moment: Moment, state: State, t: nat)
    requires Faithful(x, t) && state.terminals == x.state.terminals
    requires moment.Sending? ==> !moment.request.TerminalReply? || moment.message.None?
    ensures Agrees(Exchange(state, x.log + [moment]), t) && NeverReleasedUnbound(Exchange(state, x.log + [moment]), t)
  {
    hide Bound, Released, StandingOf, Distinct, Recalls, Called;
    BoundGrows(x.log, moment, t);
  }

  /** Outstanding calls only go, and no call is raised. */
  lemma FewerCalls(x: Exchange, moment: Moment, state: State)
    requires Recalls(x)
    requires forall k :: k in state.rpcs ==> k in x.state.rpcs && state.rpcs[k] == x.state.rpcs[k]
    requires forall k :: !CallsAs(moment, k)
    requires forall u, session :: BoundTo(x.state.terminals, u, session) ==> BoundTo(state.terminals, u, session)
    ensures Recalls(Exchange(state, x.log + [moment]))
  {
    hide CallsAs, BoundTo, Called, KindOf;
    forall k { CalledGrows(x.log, moment, k); }
  }

  lemma StaysBound(terminals: seq<Binding>, rpc: PendingRpc, response: TerminalResponse, u: nat, session: nat)
    requires Distinct(terminals)
    requires rpc.kind.UseKind? ==> BoundTo(terminals, rpc.kind.terminal, rpc.session)
    requires BoundTo(terminals, u, session)
    ensures BoundTo(TerminalAnswer(terminals, rpc, response).0, u, session)
  {
    hide Distinct, TerminalAnswer;
    AnswerStanding(terminals, rpc, response, u);
  }

  lemma ReplyAgrees(x: Exchange, k: nat, response: TerminalResponse, t: nat)
    requires Faithful(x, t) && k in x.state.rpcs
    ensures var y := Perform(x, Sends(TerminalReply(k, response)));
            Distinct(y.state.terminals) && Agrees(y, t) && NeverReleasedUnbound(y, t)
  {
    hide Distinct, TerminalAnswer, Called, Bound, Released, StandingOf;
    var rpc := x.state.rpcs[k];
    var answer := TerminalAnswer(x.state.terminals, rpc, response);
    AnswerStanding(x.state.terminals, rpc, response, t);
    BoundGrows(x.log, Sending(TerminalReply(k, response), Some(answer.1)), t);
  }

  lemma ReplyRecalls(x: Exchange, k: nat, response: TerminalResponse, t: nat)
    requires Faithful(x, t) && k in x.state.rpcs
    ensures Recalls(Perform(x, Sends(TerminalReply(k, response))))
  {
    hide Distinct, TerminalAnswer, BoundTo, Called, Bound, Released, StandingOf;
    var rpc := x.state.rpcs[k];
    var answer := TerminalAnswer(x.state.terminals, rpc, response);
    forall u, session | BoundTo(x.state.terminals, u, session) ensures BoundTo(answer.0, u, session) {
      StaysBound(x.state.terminals, rpc, response, u, session);
    }
    var y := Perform(x, Sends(TerminalReply(k, response)));
    FewerCalls(x, Sending(TerminalReply(k, response), Some(answer.1)), y.state);
  }

  lemma OtherSendingIsQuiet(s: State, request: AgentRequest)
    requires request.TerminalReply? ==> request.rpc !in s.rpcs
    ensures var sent := Encode(s, request);
            sent.state.terminals == s.terminals && sent.state.rpcs == s.rpcs &&
            (request.TerminalReply? ==> sent.message.None?)
  {
    hide WireFrom, Unexpired, ChooseOption;
  }

  lemma SendingIsFaithful(x: Exchange, request: AgentRequest, t: nat)
    requires Faithful(x, t)
    ensures Faithful(Perform(x, Sends(request)), t)
  {
    hide Encode, Distinct, Agrees, NeverReleasedUnbound, Recalls, Faithful, BoundTo;
    if request.TerminalReply? && request.rpc in x.state.rpcs {
      ReplyAgrees(x, request.rpc, request.response, t);
      ReplyRecalls(x, request.rpc, request.response, t);
      var y := Perform(x, Sends(TerminalReply(request.rpc, request.response)));
      FaithfulWhole(y, t, y.state.terminals);
    } else {
      OtherSendingIsQuiet(x.state, request);
      var sent := Encode(x.state, request);
      QuietMoment(x, Sending(request, sent.message), sent.state, t);
      FaithfulRecalls(x, t);
      FewerCalls(x, Sending(request, sent.message), sent.state);
      FaithfulWhole(Perform(x, Sends(request)), t, x.state.terminals);
    }
  }

  lemma FaithfulRecalls(x: Exchange, t: nat)
    requires Faithful(x, t)
    ensures Recalls(x) && Distinct(x.state.terminals)
  {
  }

  lemma FaithfulWhole(x: Exchange, t: nat, terminals: seq<Binding>)
    requires Distinct(terminals) && x.state.terminals == terminals
    requires Recalls(x) && Agrees(x, t) && NeverReleasedUnbound(x, t)
    ensures Faithful(x, t)
  {
  }

  /** A terminal is live for a session exactly when it stands there unreleased. */
  lemma LiveIsStanding(terminals: seq<Binding>, t: nat, session: nat)
    requires Distinct(terminals)
    ensures LiveTerminal(terminals, WireName(t), session) ==
            if StandingOf(terminals, t) == Standing(session, false) then Some(t) else None
  {
    hide WireName, BindingFrom, TerminalFrom;
    FoundByWire(terminals, t);
  }

  lemma LiveIsNamed(terminals: seq<Binding>, wire: string, session: nat)
    requires Distinct(terminals) && LiveTerminal(terminals, wire, session).Some?
    ensures wire == WireName(LiveTerminal(terminals, wire, session).value)
  {
    hide WireName;
  }

  predicate Raises(events: seq<AgentEvent>, k: nat) {
    events != [] && events[0].TerminalRequest? && events[0].rpc == k
  }

  /** The call table grew by what was raised, naming only a terminal of the caller's session. */
  ghost predicate CallsGrow(s: State, t: State, events: seq<AgentEvent>) {
    t.terminals == s.terminals &&
    forall k :: k in t.rpcs ==>
      var rpc := t.rpcs[k];
      if Raises(events, k)
      then && events[0].session == rpc.session && KindOf(rpc.kind, events[0].operation)
           && (rpc.kind.UseKind? ==> BoundTo(s.terminals, rpc.kind.terminal, rpc.session))
      else k in s.rpcs && s.rpcs[k] == rpc
  }

  lemma RaisedCallsGrow(s: State, id: nat, session: nat, kind: RpcKind, operation: TerminalOperation)
    requires KindOf(kind, operation) && (kind.UseKind? ==> BoundTo(s.terminals, kind.terminal, session))
    ensures var heard := RaiseTerminal(s, id, session, kind, operation); CallsGrow(s, heard.state, heard.events)
  {
    hide BoundTo, KindOf;
  }

  lemma LaunchCallsGrow(s: State, id: nat, session: nat, spec: TerminalSpec, limit: nat)
    ensures var heard := Launch(s, id, session, spec, limit); CallsGrow(s, heard.state, heard.events)
  {
    hide GrantFrom, Without, BoundTo;
  }

  lemma NoCallsGrow(s: State, t: State, events: seq<AgentEvent>)
    requires t.terminals == s.terminals && t.rpcs == s.rpcs
    requires forall e :: e in events ==> !e.TerminalRequest?
    ensures CallsGrow(s, t, events)
  {
    hide BoundTo, KindOf;
  }

  lemma UseCallsGrow(s: State, id: nat, session: nat, use: TerminalUse, wire: Option<string>)
    requires Distinct(s.terminals)
    ensures var heard := OnTerminalUse(s, id, session, use, wire); CallsGrow(s, heard.state, heard.events)
  {
    hide Distinct, LiveTerminal, StandingOf, CallsGrow, RaiseTerminal, TerminalUse.Method;
    var live := if wire.Some? then LiveTerminal(s.terminals, wire.value, session) else None;
    if session != NO_SESSION && live.Some? {
      LiveIsNamed(s.terminals, wire.value, session);
      LiveIsStanding(s.terminals, live.value, session);
      RaisedCallsGrow(s, id, session, UseKind(use, live.value), use.On(live.value));
    } else {
      NoCallsGrow(s, s, []);
    }
  }

  lemma OtherRequestRaisesNoCall(s: State, id: nat, session: nat, call: AgentCall)
    requires !call.UseTerminal?
    requires call.CreateTerminal? ==> session == NO_SESSION || call.wanted.Err? || OutputLimit(call.limit).Err?
    ensures var heard := OnRequest(s, id, session, call);
            heard.state.terminals == s.terminals && heard.state.rpcs == s.rpcs &&
            forall e :: e in heard.events ==> !e.TerminalRequest?
  {
    hide OutputLimit, Launch;
  }

  lemma RequestCallsGrow(s: State, id: nat, session: nat, call: AgentCall)
    requires Distinct(s.terminals)
    ensures var heard := OnRequest(s, id, session, call); CallsGrow(s, heard.state, heard.events)
  {
    hide Distinct, CallsGrow, OutputLimit, Launch, OnTerminalUse;
    if call.UseTerminal? {
      UseCallsGrow(s, id, session, call.use, call.wire);
    } else if call.CreateTerminal? && session != NO_SESSION && call.wanted.Ok? && OutputLimit(call.limit).Ok? {
      LaunchCallsGrow(s, id, session, call.wanted.value, OutputLimit(call.limit).value);
    } else {
      OtherRequestRaisesNoCall(s, id, session, call);
      var heard := OnRequest(s, id, session, call);
      NoCallsGrow(s, heard.state, heard.events);
    }
  }

  /** Terminals and calls held are as before, and no call is raised. */
  predicate CallsKept(s: State, heard: Effect) {
    heard.state.terminals == s.terminals && heard.state.rpcs == s.rpcs && forall e :: e in heard.events ==> !e.TerminalRequest?
  }

  lemma ResponseRaisesNoCall(s: State, id: nat, result: Fields)
    ensures CallsKept(s, OnResponse(s, id, result))
  {
    hide Unexpired, Translations.ReasonOf;
  }

  lemma ErrorRaisesNoCall(s: State, id: nat, message: string)
    ensures CallsKept(s, OnError(s, id, message))
  {
    hide Unexpired, Ended;
  }

  lemma UpdateRaisesNoCall(s: State, session: nat, update: Update)
    ensures CallsKept(s, OnUpdate(s, session, update))
  {
    hide ToolEvents;
    if update.ToolCall? && update.contents.Some? {
      Grants.ToolEventsKind(s.terminals, session, update.contents.value, s.nextId, |update.contents.value|);
    }
  }

  lemma NotificationRaisesNoCall(s: State, name: string, sessionId: Option<string>, update: Option<Update>)
    ensures CallsKept(s, OnNotification(s, name, sessionId, update))
  {
    hide OnUpdate, SessionFrom;
    if sessionId.Some? && update.Some? && SessionFrom(s.sessions, sessionId.value, 0).Some? {
      UpdateRaisesNoCall(s, SessionFrom(s.sessions, sessionId.value, 0).value, update.value);
    }
  }

  lemma OthersRaiseNoCall(s: State, message: Received)
    requires !message.Request?
    ensures CallsKept(s, Hear(s, message))
  {
    hide OnResponse, OnError, OnNotification, OnRequest, CallsKept;
    match message {
      case Response(id, result) => ResponseRaisesNoCall(s, id, result);
      case ErrorResponse(id, text) => ErrorRaisesNoCall(s, id, text);
      case Notification(name, sessionId, update) => NotificationRaisesNoCall(s, name, sessionId, update);
      case Request(_, _, _) =>
    }
  }

  lemma HearCallsGrow(s: State, message: Received)
    requires Distinct(s.terminals)
    ensures var heard := Hear(s, message); CallsGrow(s, heard.state, heard.events)
  {
    hide OnRequest, OnResponse, OnError, OnNotification, Addressed, Distinct, CallsGrow;
    var heard := Hear(s, message);
    if message.Request? {
      RequestCallsGrow(s, message.id, Addressed(s.sessions, message.sessionId), message.call);
    } else {
      OthersRaiseNoCall(s, message);
      NoCallsGrow(s, heard.state, heard.events);
    }
  }

  lemma HearingRecalls(x: Exchange, message: Received)
    requires Recalls(x)
    requires var heard := Hear(x.state, message); CallsGrow(x.state, heard.state, heard.events)
    ensures Recalls(Perform(x, Hears(message)))
    ensures Hear(x.state, message).state.terminals == x.state.terminals
  {
    hide Hear, BoundTo, Called, KindOf;
    var heard := Hear(x.state, message);
    forall k { CalledGrows(x.log, Hearing(message, heard.events, heard.messages), k); }
  }

  lemma HearingIsFaithful(x: Exchange, message: Received, t: nat)
    requires Faithful(x, t)
    ensures Faithful(Perform(x, Hears(message)), t)
  {
    hide Hear, Distinct, Agrees, NeverReleasedUnbound, Recalls, Faithful, CallsGrow;
    FaithfulRecalls(x, t);
    HearCallsGrow(x.state, message);
    HearingRecalls(x, message);
    var heard := Hear(x.state, message);
    QuietMoment(x, Hearing(message, heard.events, heard.messages), heard.state, t);
    FaithfulWhole(Perform(x, Hears(message)), t, x.state.terminals);
  }

  lemma GreetingIsFaithful(x: Exchange, capabilities: ClientCapabilities, t: nat)
    requires Faithful(x, t)
    ensures Faithful(Perform(x, Greets(capabilities)), t)
  {
    hide Distinct, Agrees, NeverReleasedUnbound, Recalls, Faithful, BoundTo;
    FaithfulRecalls(x, t);
    var hello := Open(x.state, capabilities);
    QuietMoment(x, Greeted(hello.message), hello.state, t);
    FewerCalls(x, Greeted(hello.message), hello.state);
    FaithfulWhole(Perform(x, Greets(capabilities)), t, x.state.terminals);
  }

  lemma HoldingIsFaithful(x: Exchange, request: AgentRequest, t: nat)
    requires Faithful(x, t)
    ensures Faithful(Perform(x, Holds(request)), t)
  {
    hide Distinct, Called, Bound, Released, BoundTo, StandingOf;
  }

  lemma NothingBound(t: nat)
    ensures Faithful(NOTHING_YET, t)
  {
  }

  lemma {:induction false} PlayIsFaithful(acts: seq<Act>, n: nat, t: nat)
    requires n <= |acts|
    ensures Faithful(Play(acts, n), t)
  {
    hide Faithful, Perform;
    if n == 0 {
      NothingBound(t);
    } else {
      PlayIsFaithful(acts, n - 1, t);
      var x := Play(acts, n - 1);
      match acts[n - 1] {
        case Greets(capabilities) => GreetingIsFaithful(x, capabilities, t);
        case Holds(request) => HoldingIsFaithful(x, request, t);
        case Sends(request) => SendingIsFaithful(x, request, t);
        case Hears(message) => HearingIsFaithful(x, message, t);
      }
    }
  }

  // ---- what holds of every run ---------------------------------------------------------------

  lemma RunIsFaithful(inputs: seq<Input>, n: nat, t: nat)
    requires n <= |inputs|
    ensures var log := History(inputs, n).log;
            Distinct(After(inputs, n).terminals) && (Released(log, t) ==> Bound(log, t).Some?) &&
            StandingOf(After(inputs, n).terminals, t) ==
            if Bound(log, t).None? then Unbound else Standing(Bound(log, t).value, Released(log, t))
  {
    hide Bound, Released, StandingOf, Distinct, After, Play, Recalls;
    var acts := ActsTo(inputs, n);
    PlayIsFaithful(acts, |acts|, t);
    RunIsPlayed(inputs, n);
  }

  /** Terminals and their names stay in bijection. */
  lemma NamesAreABijection(inputs: seq<Input>, n: nat, i: nat, j: nat)
    requires n <= |inputs| && i < |After(inputs, n).terminals| && j < |After(inputs, n).terminals|
    ensures var terminals := After(inputs, n).terminals;
            && (terminals[i].wire == terminals[j].wire <==> i == j)
            && (terminals[i].terminal == terminals[j].terminal <==> i == j)
  {
    hide After, WireName, History, Bound, Released, StandingOf;
    RunIsFaithful(inputs, n, 0);
    var terminals := After(inputs, n).terminals;
    if terminals[i].wire == terminals[j].wire {
      WireNameIsInjective(terminals[i].terminal, terminals[j].terminal);
    }
  }

  /** A call on a terminal is raised exactly when its name is that of a terminal this session launched and has
      not released; otherwise it is refused at once. */
  lemma OperationsAreOwned(inputs: seq<Input>, n: nat, id: nat, sessionId: Option<string>, use: TerminalUse, wire: string)
    requires n <= |inputs|
    ensures var s := After(inputs, n);
            var log := History(inputs, n).log;
            var session := Addressed(s.sessions, sessionId);
            var heard := Incoming(s, Request(id, sessionId, UseTerminal(use, Some(wire))));
            && (heard.events != [] <==>
                  session != NO_SESSION &&
                  exists t :: WireName(t) == wire && Bound(log, t) == Some(session) && !Released(log, t))
            && (heard.events == [] ==> |heard.messages| == 1 && heard.messages[0].Refused? && heard.messages[0].id == id)
            && (forall t | WireName(t) == wire && heard.events != [] ::
                  heard.messages == [] && heard.events == [TerminalRequest(session, s.nextId + 1, use.On(t))])
  {
    hide After, History, Addressed, LiveTerminal, StandingOf, Distinct, Bound, Released, WireName, TerminalUse.On,
         TerminalUse.Method, OnResponse, OnError, OnNotification, Drain;
    var s := After(inputs, n);
    var log := History(inputs, n).log;
    var session := Addressed(s.sessions, sessionId);
    var live := LiveTerminal(s.terminals, wire, session);
    RunIsFaithful(inputs, n, 0);
    if live.Some? {
      var t := live.value;
      LiveIsNamed(s.terminals, wire, session);
      RunIsFaithful(inputs, n, t);
      LiveIsStanding(s.terminals, t, session);
      forall u | WireName(u) == wire ensures u == t {
        WireNameIsInjective(t, u);
      }
      assert Bound(log, t) == Some(session) && !Released(log, t);
    } else {
      forall t | WireName(t) == wire ensures !(Bound(log, t) == Some(session) && !Released(log, t)) {
        RunIsFaithful(inputs, n, t);
        LiveIsStanding(s.terminals, t, session);
      }
    }
  }

  lemma TerminalAttaches(inputs: seq<Input>, n: nat, session: nat, t: nat, next: nat)
    requires n <= |inputs|
    ensures ToolEvent(After(inputs, n).terminals, session, TerminalRef(Some(WireName(t))), next) ==
            (if Bound(History(inputs, n).log, t) == Some(session) then [TerminalAttached(session, t)] else [], next)
  {
    hide After, History, WireName, BindingFrom, TerminalFrom, Bound, Released, Distinct;
    RunIsFaithful(inputs, n, t);
    FoundByWire(After(inputs, n).terminals, t);
  }

  lemma AttachedIsNamed(terminals: seq<Binding>, session: nat, wire: string, next: nat)
    requires Distinct(terminals)
    ensures var raised := ToolEvent(terminals, session, TerminalRef(Some(wire)), next).0;
            raised != [] ==> exists t :: WireName(t) == wire && raised == [TerminalAttached(session, t)]
  {
    hide WireName;
    var at := BindingFrom(terminals, wire, 0);
    if at.Some? {
      assert WireName(terminals[at.value].terminal) == wire;
    }
  }

  /** Any name resolves to an attachment exactly when it is that of a terminal this session launched, released or
      not. */
  lemma AttachmentsOutliveRelease(inputs: seq<Input>, n: nat, session: nat, wire: string, next: nat)
    requires n <= |inputs|
    ensures var raised := ToolEvent(After(inputs, n).terminals, session, TerminalRef(Some(wire)), next);
            var log := History(inputs, n).log;
            && raised.1 == next
            && (raised.0 != [] <==> exists t :: WireName(t) == wire && Bound(log, t) == Some(session))
            && (forall t | WireName(t) == wire && raised.0 != [] :: raised.0 == [TerminalAttached(session, t)])
  {
    hide After, History, WireName, BindingFrom, Bound, Released, Distinct, StandingOf;
    var terminals := After(inputs, n).terminals;
    RunIsFaithful(inputs, n, 0);
    AttachedIsNamed(terminals, session, wire, next);
    forall t | WireName(t) == wire
      ensures ToolEvent(terminals, session, TerminalRef(Some(wire)), next) ==
              (if Bound(History(inputs, n).log, t) == Some(session) then [TerminalAttached(session, t)] else [], next)
    {
      TerminalAttaches(inputs, n, session, t, next);
    }
  }

  lemma {:induction false} PlayGrows(x: Exchange, acts: seq<Act>, n: nat, t: nat)
    requires n <= |acts|
    ensures Released(x.log, t) ==> Released(PlayFrom(x, acts, n).log, t)
  {
    hide Hear, Encode, Open, Hold, ReleasedAt;
    if n > 0 {
      PlayGrows(x, acts, n - 1, t);
      var y := PlayFrom(x, acts, n - 1);
      match acts[n - 1] {
        case Greets(capabilities) => ReleasedStays(y.log, Greeted(Open(y.state, capabilities).message), t);
        case Holds(request) =>
        case Sends(request) => ReleasedStays(y.log, Sending(request, Encode(y.state, request).message), t);
        case Hears(message) =>
          var heard := Hear(y.state, message);
          ReleasedStays(y.log, Hearing(message, heard.events, heard.messages), t);
      }
    }
  }

  lemma ReleasedStays(log: seq<Moment>, moment: Moment, t: nat)
    ensures Released(log, t) ==> Released(log + [moment], t)
  {
    hide Bound, Called, ReleasedAt;
    BoundGrows(log, moment, t);
  }

  /** An acknowledged release is final: later no call on that name is raised, whoever makes it. */
  lemma {:induction false} ReleaseIsFinal(inputs: seq<Input>, m: nat, n: nat, t: nat)
    requires m <= n <= |inputs|
    requires Released(History(inputs, m).log, t)
    ensures Released(History(inputs, n).log, t)
    ensures forall id, sessionId, use ::
              Incoming(After(inputs, n), Request(id, sessionId, UseTerminal(use, Some(WireName(t))))).events == []
  {
    hide After, WireName, Bound, Perform, ActsOf, Incoming, Released;
    if m < n {
      ReleaseIsFinal(inputs, m, n - 1, t);
      var acts, more := ActsTo(inputs, n - 1), ActsOf(After(inputs, n - 1), inputs[n - 1]);
      PlayContinues(NOTHING_YET, acts, more, |more|);
      PlayGrows(History(inputs, n - 1), more, |more|, t);
    }
    forall id, sessionId, use
      ensures Incoming(After(inputs, n), Request(id, sessionId, UseTerminal(use, Some(WireName(t))))).events == []
    {
      OperationsAreOwned(inputs, n, id, sessionId, use, WireName(t));
      forall u | WireName(u) == WireName(t) ensures u == t {
        WireNameIsInjective(u, t);
      }
    }
  }
}
