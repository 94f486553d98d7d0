/** The agent's calls: what each of them brings about, and the ids it is known by from then on. */
module Calls {
  import opened Options
  import opened Agents
  import opened Translations
  import opened Exchanges
  import opened Ledgers
  import opened Answers
  import Sorting

  // ---- one call ------------------------------------------------------------------------------

  predicate MeansUse(use: TerminalUse, operation: TerminalOperation) {
    && (use.UseOutput? <==> operation.Output?)
    && (use.UseWait? <==> operation.WaitForExit?)
    && (use.UseKill? <==> operation.Kill?)
    && (use.UseRelease? <==> operation.Release?)
  }

  /** A launch as it was asked for, with the limit asked for where one was, up to 8 MiB, and else 1 MiB. */
  predicate MeansLaunch(operation: TerminalOperation, spec: TerminalSpec, limit: LimitField) {
    && operation.Create? && operation.spec == spec
    && match limit
       case Absent => operation.outputByteLimit == 1048576
       case Number(n) => operation.outputByteLimit == if n < 8388608 then n else 8388608
       case NotANumber => false
  }

  /** One event, under the next id, and nothing written. */
  predicate Raises(effect: Effect, event: AgentEvent) { effect.events == [event] && effect.messages == [] }

  /** Nothing raised, and the call refused with that code. */
  predicate Refuses(effect: Effect, id: nat, code: int) {
    effect.events == [] && |effect.messages| == 1 && effect.messages[0].Refused? &&
    effect.messages[0].id == id && effect.messages[0].code == code
  }

  /** What a call about session `about` brings about, when `k` is the next id. */
  ghost predicate Brings(effect: Effect, id: nat, about: nat, k: nat, call: AgentCall) {
    match call
    case ReadTextFile(Some(path)) => Raises(effect, ReadFileRequested(about, k, path))
    case WriteTextFile(Some(path), Some(text)) =>
      effect.events == [ProposedEdit(about, k, path, None, text)] && effect.messages == [Reply(id, Accepted)]
    case RequestPermission(options, showing, spec) => Raises(effect, PermissionRequested(about, k, showing, spec))
    case CreateTerminal(Ok(spec), limit) =>
      if about == 0 || limit.NotANumber? then Refuses(effect, id, -32602)
      else exists operation :: MeansLaunch(operation, spec, limit) && Raises(effect, TerminalRequest(about, k, operation))
    case UseTerminal(use, Some(wire)) =>
      || Refuses(effect, id, -32602)
      || (about != 0 && exists operation :: MeansUse(use, operation) && Raises(effect, TerminalRequest(about, k, operation)))
    case UnknownCall(name) => Refuses(effect, id, -32601)
    case _ => Refuses(effect, id, -32602)
  }

  lemma RequestBrings(s: State, id: nat, about: nat, call: AgentCall)
    ensures Brings(OnRequest(s, id, about, call), id, about, s.nextId + 1, call)
  {
    hide LiveTerminal, GrantFrom, Without, TerminalUse.Method, OutputLimit;
    var effect := OnRequest(s, id, about, call);
    match call {
      case CreateTerminal(Ok(spec), limit) =>
        LimitMeans(limit);
        if about != 0 && !limit.NotANumber? {
          assert Raises(effect, TerminalRequest(about, s.nextId + 1, effect.events[0].operation));
          assert MeansLaunch(effect.events[0].operation, spec, limit);
        }
      case UseTerminal(use, Some(wire)) =>
        if effect.events != [] {
          assert Raises(effect, TerminalRequest(about, s.nextId + 1, effect.events[0].operation));
          assert MeansUse(use, effect.events[0].operation);
        }
      case _ =>
    }
  }

  lemma LimitMeans(limit: LimitField)
    ensures match limit
            case Absent => OutputLimit(limit) == Ok(1048576)
            case Number(n) => OutputLimit(limit) == Ok(if n < 8388608 then n else 8388608)
            case NotANumber => OutputLimit(limit).Err?
  {
  }

  /** Over every run: what the agent calls for is raised, under the next id, against the session it was named by, or
      refused at once with the code that tells why. */
  lemma CallsAreHeard(inputs: seq<Input>, n: nat, id: nat, sessionId: Option<string>, call: AgentCall)
    requires n <= |inputs|
    ensures Brings(Handle(After(inputs, n), Theirs(Request(id, sessionId, call))), id,
                   About(History(inputs, n).log, sessionId), After(inputs, n).nextId + 1, call)
  {
    hide After, History, OnRequest, SessionFrom, FirstNamed, Brings;
    var s := After(inputs, n);
    if sessionId.Some? {
      SessionsAreTheLog(inputs, n, 0, sessionId.value);
    }
    RequestBrings(s, id, About(History(inputs, n).log, sessionId), call);
  }

  // ---- ids -----------------------------------------------------------------------------------

  /** The id under which the editor is to answer, or under which it reviews an edit. */
  function IdOf(event: AgentEvent): seq<nat> {
    match event
    case ReadFileRequested(_, read, _) => [read]
    case ProposedEdit(_, proposal, _, _, _) => [proposal]
    case PermissionRequested(_, permission, _, _) => [permission]
    case TerminalRequest(_, rpc, _) => [rpc]
    case _ => []
  }

  function Ids(events: seq<AgentEvent>): seq<nat> {
    if events == [] then [] else Ids(events[..|events| - 1]) + IdOf(events[|events| - 1])
  }

  function Between(low: nat, high: nat): seq<nat>
    requires low <= high
  {
    seq(high - low, i => low + 1 + i)
  }

  ghost predicate HandsOut(low: nat, events: seq<AgentEvent>, high: nat) {
    low <= high && Ids(events) == Between(low, high)
  }

  lemma IdsLast(events: seq<AgentEvent>, last: AgentEvent)
    ensures Ids(events + [last]) == Ids(events) + IdOf(last)
  {
    assert (events + [last])[..|events|] == events;
  }

  lemma {:induction false} IdsBoth(a: seq<AgentEvent>, b: seq<AgentEvent>)
    ensures Ids(a + b) == Ids(a) + Ids(b)
    decreases |b|
  {
    hide IdOf;
    if b == [] {
      assert a + b == a;
    } else {
      hide Ids;
      var front, last := b[..|b| - 1], b[|b| - 1];
      IdsBoth(a, front);
      assert b == front + [last];
      Sorting.Joined(a, front, [last]);
      IdsLast(a + front, last);
      IdsLast(front, last);
      Sorting.Joined(Ids(a), Ids(front), IdOf(last));
    }
  }

  lemma HandsOutBoth(low: nat, a: seq<AgentEvent>, middle: nat, b: seq<AgentEvent>, high: nat)
    requires HandsOut(low, a, middle) && HandsOut(middle, b, high)
    ensures HandsOut(low, a + b, high)
  {
    hide Ids;
    IdsBoth(a, b);
    assert Between(low, high) == Between(low, middle) + Between(middle, high);
  }

  lemma NoneHandedOut(low: nat)
    ensures HandsOut(low, [], low)
  {
  }

  lemma OneEvent(events: seq<AgentEvent>, low: nat, high: nat)
    requires |events| == 1 && low <= high <= low + 1 && IdOf(events[0]) == if low == high then [] else [low + 1]
    ensures HandsOut(low, events, high)
  {
    assert events[..0] == [];
  }

  lemma {:induction false} ToolHandsOut(terminals: seq<Binding>, session: nat, contents: seq<ToolContent>, next: nat, n: nat)
    requires n <= |contents|
    ensures HandsOut(next, ToolEvents(terminals, session, contents, next, n).0,
                     ToolEvents(terminals, session, contents, next, n).1)
  {
    hide HandsOut, BindingFrom;
    if n == 0 {
      NoneHandedOut(next);
    } else {
      ToolHandsOut(terminals, session, contents, next, n - 1);
      var before := ToolEvents(terminals, session, contents, next, n - 1);
      var last := ToolEvent(terminals, session, contents[n - 1], before.1);
      ToolEventHandsOut(terminals, session, contents[n - 1], before.1);
      HandsOutBoth(next, before.0, before.1, last.0, last.1);
    }
  }

  lemma ToolEventHandsOut(terminals: seq<Binding>, session: nat, content: ToolContent, next: nat)
    ensures var last := ToolEvent(terminals, session, content, next); HandsOut(next, last.0, last.1)
  {
    hide HandsOut, BindingFrom;
    NoneHandedOut(next);
    var last := ToolEvent(terminals, session, content, next);
    if last.0 != [] {
      OneEvent(last.0, next, last.1);
    }
  }

  lemma UpdateHandsOut(s: State, session: nat, update: Update)
    ensures var effect := OnUpdate(s, session, update); HandsOut(s.nextId, effect.events, effect.state.nextId)
  {
    hide HandsOut, ToolEvents;
    if update.ToolCall? && update.contents.Some? {
      ToolHandsOut(s.terminals, session, update.contents.value, s.nextId, |update.contents.value|);
    } else {
      var effect := OnUpdate(s, session, update);
      NoneHandedOut(s.nextId);
      if effect.events != [] {
        OneEvent(effect.events, s.nextId, s.nextId);
      }
    }
  }

  lemma RequestHandsOut(s: State, id: nat, session: nat, call: AgentCall)
    ensures var effect := OnRequest(s, id, session, call); HandsOut(s.nextId, effect.events, effect.state.nextId)
  {
    hide HandsOut, LiveTerminal, GrantFrom, Without, TerminalUse.Method, TerminalUse.On, OutputLimit;
    var effect := OnRequest(s, id, session, call);
    NoneHandedOut(s.nextId);
    if effect.events != [] {
      OneEvent(effect.events, s.nextId, effect.state.nextId);
    }
  }

  lemma ResponseHandsOut(s: State, id: nat, result: Fields)
    ensures var effect := OnResponse(s, id, result); HandsOut(s.nextId, effect.events, effect.state.nextId)
  {
    hide HandsOut, Unexpired, Translations.ReasonOf;
    var effect := OnResponse(s, id, result);
    NoneHandedOut(s.nextId);
    if |effect.events| == 1 {
      OneEvent(effect.events, s.nextId, s.nextId);
    } else if |effect.events| == 2 {
      OneEvent(effect.events[..1], s.nextId, s.nextId);
      OneEvent(effect.events[1..], s.nextId, s.nextId);
      HandsOutBoth(s.nextId, effect.events[..1], s.nextId, effect.events[1..], s.nextId);
      assert effect.events[..1] + effect.events[1..] == effect.events;
    }
  }

  lemma HearHandsOut(s: State, message: Received)
    ensures var effect := Hear(s, message); HandsOut(s.nextId, effect.events, effect.state.nextId)
  {
    hide HandsOut, OnUpdate, OnRequest, OnResponse, SessionFrom, Addressed, Unexpired, Ended;
    NoneHandedOut(s.nextId);
    match message {
      case Response(id, result) => ResponseHandsOut(s, id, result);
      case ErrorResponse(id, text) => OneEvent(Hear(s, message).events, s.nextId, s.nextId);
      case Notification(name, sessionId, update) =>
        if sessionId.Some? && update.Some? && SessionFrom(s.sessions, sessionId.value, 0).Some? {
          UpdateHandsOut(s, SessionFrom(s.sessions, sessionId.value, 0).value, update.value);
        }
      case Request(id, sessionId, call) => RequestHandsOut(s, id, Addressed(s.sessions, sessionId), call);
    }
  }

  lemma EncodeHandsOutNone(s: State, request: AgentRequest)
    ensures Encode(s, request).state.nextId == s.nextId
  {
    hide WireFrom, Unexpired, ChooseOption, TerminalAnswer;
  }

  lemma {:induction false} DrainHandsOutNone(s: State, queue: seq<AgentRequest>, n: nat)
    requires n <= |queue|
    ensures Drain(s, queue, n).state.nextId == s.nextId && Drain(s, queue, n).events == []
  {
    hide Encode;
    if n > 0 {
      DrainHandsOutNone(s, queue, n - 1);
      EncodeHandsOutNone(Drain(s, queue, n - 1).state, queue[n - 1]);
    }
  }

  lemma HandleHandsOut(s: State, input: Input)
    ensures var effect := Handle(s, input); HandsOut(s.nextId, effect.events, effect.state.nextId)
  {
    hide HandsOut, Hear, Encode, Drain, OpensUp;
    NoneHandedOut(s.nextId);
    match input {
      case Start(capabilities) =>
      case Ours(request) => EncodeHandsOutNone(s, request);
      case Theirs(message) =>
        HearHandsOut(s, message);
        DrainHandsOutNone(Hear(s, message).state, s.queued, |s.queued|);
    }
  }

  lemma {:induction false} RunHandsOut(inputs: seq<Input>, n: nat)
    requires n <= |inputs|
    ensures HandsOut(0, Raised(inputs, n), After(inputs, n).nextId)
  {
    hide HandsOut, Handle;
    if n == 0 {
      NoneHandedOut(0);
    } else {
      var s := After(inputs, n - 1);
      RunHandsOut(inputs, n - 1);
      HandleHandsOut(s, inputs[n - 1]);
      HandsOutBoth(0, Raised(inputs, n - 1), s.nextId, Handle(s, inputs[n - 1]).events, After(inputs, n).nextId);
    }
  }

  /** Over every run: reads, edits, prompts and terminal calls are numbered together from one, in the order they are
      raised, none left out and none given out twice. */
  lemma IdsCountUp(inputs: seq<Input>, n: nat)
    requires n <= |inputs|
    ensures var ids := Ids(Raised(inputs, n));
            |ids| == After(inputs, n).nextId && forall i :: 0 <= i < |ids| ==> ids[i] == i + 1
  {
    hide Ids, Raised, After;
    RunHandsOut(inputs, n);
  }

  // ---- what is asked at any time -------------------------------------------------------------

  /** Before or after the handshake: being told to stop writes nothing and leaves no trace. */
  lemma ShutdownPasses(inputs: seq<Input>, n: nat)
    requires n <= |inputs|
    ensures Handle(After(inputs, n), Ours(Shutdown)) == Effect(After(inputs, n), [], [])
  {
    hide After;
  }
}
