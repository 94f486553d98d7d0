/** Holding requests until the handshake, and telling replies apart by id. */
module Handshakes {
  import opened Options
  import opened Agents
  import opened Translations
  import opened Exchanges
  import opened Conservation

  // ---- holding requests is invisible ---------------------------------------------------------

  /** `s` after the first `n` inputs, with all they raised and wrote. */
  function RunFrom(s: State, inputs: seq<Input>, n: nat): Effect
    requires n <= |inputs|
  {
    if n == 0 then Effect(s, [], [])
    else
      var before := RunFrom(s, inputs, n - 1);
      var done := Handle(before.state, inputs[n - 1]);
      Effect(done.state, before.events + done.events, before.messages + done.messages)
  }

  lemma {:induction false} RunFromStart(inputs: seq<Input>, n: nat)
    requires n <= |inputs|
    ensures RunFrom(START, inputs, n) == Effect(After(inputs, n), Raised(inputs, n), Written(inputs, n))
  {
    hide Handle;
    if n > 0 {
      RunFromStart(inputs, n - 1);
    }
  }

  /** Among the first `n` inputs, those that are not requests of ours. */
  function NotOurs(inputs: seq<Input>, n: nat): seq<Input>
    requires n <= |inputs|
  {
    if n == 0 then []
    else if inputs[n - 1].Ours? then NotOurs(inputs, n - 1)
    else NotOurs(inputs, n - 1) + [inputs[n - 1]]
  }

  /** Among the first `n` inputs, our requests. */
  function Requested(inputs: seq<Input>, n: nat): seq<Input>
    requires n <= |inputs|
  {
    if n == 0 then []
    else if inputs[n - 1].Ours? then Requested(inputs, n - 1) + [inputs[n - 1]]
    else Requested(inputs, n - 1)
  }

  /** What is held of them. */
  function HeldOf(inputs: seq<Input>, n: nat): seq<AgentRequest>
    requires n <= |inputs|
  {
    if n == 0 then []
    else if inputs[n - 1].Ours? && !inputs[n - 1].request.Shutdown?
    then HeldOf(inputs, n - 1) + [inputs[n - 1].request]
    else HeldOf(inputs, n - 1)
  }

  lemma EncodeKeepsReady(s: State, request: AgentRequest)
    ensures var t := Encode(s, request).state; t.ready == s.ready && t.queued == s.queued && s.ids <= t.ids
  {
    hide WireFrom, Unexpired, ChooseOption, TerminalAnswer;
  }

  lemma {:induction false} DrainKeepsReady(s: State, queue: seq<AgentRequest>, n: nat)
    requires n <= |queue|
    ensures var t := Drain(s, queue, n).state; t.ready == s.ready && t.queued == s.queued && s.ids <= t.ids
  {
    hide Encode;
    if n > 0 {
      DrainKeepsReady(s, queue, n - 1);
      EncodeKeepsReady(Drain(s, queue, n - 1).state, queue[n - 1]);
    }
  }

  /** `heard` neither looked at the queue nor changed it; `blind` is what it would be with another. */
  predicate Ignores(s: State, queue: seq<AgentRequest>, heard: Effect, blind: Effect) {
    && heard.state.ready == s.ready && heard.state.queued == s.queued && heard.state.ids == s.ids
    && blind == Effect(heard.state.(queued := queue), heard.events, heard.messages)
  }

  lemma RaiseIgnoresQueue(s: State, id: nat, session: nat, kind: RpcKind, operation: TerminalOperation,
                          queue: seq<AgentRequest>)
    ensures Ignores(s, queue, RaiseTerminal(s, id, session, kind, operation),
                    RaiseTerminal(s.(queued := queue), id, session, kind, operation))
  {
  }

  lemma LaunchIgnoresQueue(s: State, id: nat, session: nat, spec: TerminalSpec, limit: nat, queue: seq<AgentRequest>)
    ensures Ignores(s, queue, Launch(s, id, session, spec, limit), Launch(s.(queued := queue), id, session, spec, limit))
  {
    hide GrantFrom, Without;
  }

  lemma InvalidIgnoresQueue(s: State, id: nat, why: Reason, queue: seq<AgentRequest>)
    ensures Ignores(s, queue, Invalid(s, id, why), Invalid(s.(queued := queue), id, why))
  {
  }

  lemma UseIgnoresQueue(s: State, id: nat, session: nat, use: TerminalUse, wire: Option<string>, queue: seq<AgentRequest>)
    ensures Ignores(s, queue, OnTerminalUse(s, id, session, use, wire),
                    OnTerminalUse(s.(queued := queue), id, session, use, wire))
  {
    hide LiveTerminal, Invalid, RaiseTerminal, TerminalUse.Method, TerminalUse.On, Ignores;
    forall why { InvalidIgnoresQueue(s, id, why, queue); }
    if wire.Some? && LiveTerminal(s.terminals, wire.value, session).Some? {
      var t := LiveTerminal(s.terminals, wire.value, session).value;
      RaiseIgnoresQueue(s, id, session, UseKind(use, t), use.On(t), queue);
    }
  }

  lemma EditCallIgnoresQueue(s: State, id: nat, session: nat, call: AgentCall, queue: seq<AgentRequest>)
    requires call.WriteTextFile? || call.UnknownCall?
    ensures Ignores(s, queue, OnRequest(s, id, session, call), OnRequest(s.(queued := queue), id, session, call))
  {
    hide OnTerminalUse, Launch, OutputLimit;
  }

  lemma AskCallIgnoresQueue(s: State, id: nat, session: nat, call: AgentCall, queue: seq<AgentRequest>)
    requires call.ReadTextFile? || call.RequestPermission?
    ensures Ignores(s, queue, OnRequest(s, id, session, call), OnRequest(s.(queued := queue), id, session, call))
  {
    hide OnTerminalUse, Launch, OutputLimit;
  }

  lemma CreateIgnoresQueue(s: State, id: nat, session: nat, call: AgentCall, queue: seq<AgentRequest>)
    requires call.CreateTerminal?
    ensures Ignores(s, queue, OnRequest(s, id, session, call), OnRequest(s.(queued := queue), id, session, call))
  {
    hide Launch, OutputLimit, Invalid, Ignores;
    forall why { InvalidIgnoresQueue(s, id, why, queue); }
    if call.wanted.Ok? && OutputLimit(call.limit).Ok? {
      LaunchIgnoresQueue(s, id, session, call.wanted.value, OutputLimit(call.limit).value, queue);
    }
  }

  lemma RequestIgnoresQueue(s: State, id: nat, session: nat, call: AgentCall, queue: seq<AgentRequest>)
    ensures Ignores(s, queue, OnRequest(s, id, session, call), OnRequest(s.(queued := queue), id, session, call))
  {
    hide OnTerminalUse, Launch, OutputLimit, Ignores, Invalid;
    match call {
      case UseTerminal(use, wire) => UseIgnoresQueue(s, id, session, use, wire, queue);
      case CreateTerminal(wanted, limit) => CreateIgnoresQueue(s, id, session, call, queue);
      case ReadTextFile(_) => AskCallIgnoresQueue(s, id, session, call, queue);
      case RequestPermission(_, _, _) => AskCallIgnoresQueue(s, id, session, call, queue);
      case _ => EditCallIgnoresQueue(s, id, session, call, queue);
    }
  }

  lemma TurnIgnoresQueue(s: State, id: nat, result: Fields, queue: seq<AgentRequest>)
    requires id in s.pending && (s.pending[id].Turn? || s.pending[id].ChangingMode?)
    ensures Ignores(s, queue, OnResponse(s, id, result), OnResponse(s.(queued := queue), id, result))
  {
    hide Unexpired, Translations.ReasonOf;
  }

  lemma SessionIgnoresQueue(s: State, id: nat, result: Fields, queue: seq<AgentRequest>)
    requires id in s.pending && s.pending[id].Opening?
    ensures Ignores(s, queue, OnResponse(s, id, result), OnResponse(s.(queued := queue), id, result))
  {
  }

  lemma StrayIgnoresQueue(s: State, id: nat, result: Fields, queue: seq<AgentRequest>)
    requires id !in s.pending
    ensures Ignores(s, queue, OnResponse(s, id, result), OnResponse(s.(queued := queue), id, result))
  {
  }

  lemma ResponseIgnoresQueue(s: State, id: nat, result: Fields, queue: seq<AgentRequest>)
    requires id in s.pending ==> s.pending[id] != Initialize
    ensures Ignores(s, queue, OnResponse(s, id, result), OnResponse(s.(queued := queue), id, result))
  {
    hide OnResponse, Ignores;
    if id !in s.pending {
      StrayIgnoresQueue(s, id, result, queue);
    } else if s.pending[id].Opening? {
      SessionIgnoresQueue(s, id, result, queue);
    } else {
      TurnIgnoresQueue(s, id, result, queue);
    }
  }

  lemma ErrorIgnoresQueue(s: State, id: nat, text: string, queue: seq<AgentRequest>)
    ensures Ignores(s, queue, OnError(s, id, text), OnError(s.(queued := queue), id, text))
  {
    hide Unexpired;
  }

  lemma UpdateIgnoresQueue(s: State, session: nat, update: Update, queue: seq<AgentRequest>)
    ensures Ignores(s, queue, OnUpdate(s, session, update), OnUpdate(s.(queued := queue), session, update))
  {
    hide ToolEvents;
  }

  lemma NothingIgnoresQueue(s: State, queue: seq<AgentRequest>)
    ensures Ignores(s, queue, Effect(s, [], []), Effect(s.(queued := queue), [], []))
  {
  }

  lemma NotificationIgnoresQueue(s: State, name: string, sessionId: Option<string>, update: Option<Update>,
                                 queue: seq<AgentRequest>)
    ensures Ignores(s, queue, OnNotification(s, name, sessionId, update),
                    OnNotification(s.(queued := queue), name, sessionId, update))
  {
    hide SessionFrom, OnUpdate, Ignores;
    NothingIgnoresQueue(s, queue);
    if update.Some? {
      forall session { UpdateIgnoresQueue(s, session, update.value, queue); }
    }
  }

  /** Hearing anything but the handshake reply neither looks at the queue nor changes it. */
  lemma HearIgnoresQueue(s: State, message: Received, queue: seq<AgentRequest>)
    requires !OpensUp(s, message)
    ensures Ignores(s, queue, Hear(s, message), Hear(s.(queued := queue), message))
  {
    hide Ignores, OnRequest, OnResponse, OnError, OnNotification, Addressed;
    match message {
      case Response(id, result) => ResponseIgnoresQueue(s, id, result, queue);
      case ErrorResponse(id, text) => ErrorIgnoresQueue(s, id, text, queue);
      case Notification(name, sessionId, update) => NotificationIgnoresQueue(s, name, sessionId, update, queue);
      case Request(id, sessionId, call) =>
        RequestIgnoresQueue(s, id, Addressed(s.sessions, sessionId), call, queue);
    }
  }

  lemma HandshakeOpens(s: State, message: Received)
    requires OpensUp(s, message)
    ensures Hear(s, message).state == s.(pending := s.pending - {message.id}, ready := true, queued := [])
    ensures Hear(s, message).messages == []
  {
  }

  /** Once ready, always ready. */
  lemma HandleStaysReady(s: State, input: Input)
    ensures s.ready ==> Handle(s, input).state.ready
    ensures s.ids <= Handle(s, input).state.ids
  {
    hide Hear, Encode, Drain, OpensUp;
    match input {
      case Start(capabilities) =>
      case Ours(request) => EncodeKeepsReady(s, request);
      case Theirs(message) =>
        if OpensUp(s, message) {
          HandshakeOpens(s, message);
          DrainKeepsReady(Hear(s, message).state, s.queued, |s.queued|);
        } else {
          HearIgnoresQueue(s, message, []);
        }
    }
  }

  /** Before the handshake, an input not ours does what it would with nothing held. */
  lemma OtherIgnoresQueue(s: State, input: Input)
    requires !input.Ours? && !Handle(s, input).state.ready
    ensures var done := Handle(s, input);
            done.state.queued == s.queued && !s.ready &&
            Handle(s.(queued := []), input) == Effect(done.state.(queued := []), done.events, done.messages)
  {
    hide Hear, Drain, OpensUp;
    HandleStaysReady(s, input);
    match input {
      case Start(capabilities) =>
      case Theirs(message) =>
        if OpensUp(s, message) {
          HandshakeOpens(s, message);
          DrainKeepsReady(Hear(s, message).state, s.queued, |s.queued|);
        } else {
          HearIgnoresQueue(s, message, []);
          OpensUpIgnoresQueue(s, message);
        }
    }
  }

  lemma OpensUpIgnoresQueue(s: State, message: Received)
    ensures OpensUp(s.(queued := []), message) == OpensUp(s, message)
  {
  }

  lemma {:induction false} RunAgrees(s: State, inputs: seq<Input>, more: seq<Input>, n: nat)
    requires n <= |inputs|
    ensures RunFrom(s, inputs + more, n) == RunFrom(s, inputs, n)
  {
    hide Handle;
    if n > 0 {
      RunAgrees(s, inputs, more, n - 1);
    }
  }

  function Whole(s: State, inputs: seq<Input>): Effect { RunFrom(s, inputs, |inputs|) }

  lemma WholeGrows(s: State, inputs: seq<Input>, input: Input)
    ensures var before := Whole(s, inputs);
            var done := Handle(before.state, input);
            Whole(s, inputs + [input]) == Effect(done.state, before.events + done.events, before.messages + done.messages)
  {
    hide Handle;
    RunAgrees(s, inputs, [input], |inputs|);
  }

  /** Until the handshake, requests are set aside and everything else goes on as if they had not been made. */
  lemma {:induction false} HoldingSetsAside(s: State, inputs: seq<Input>, n: nat)
    requires n <= |inputs| && s.queued == [] && !RunFrom(s, inputs, n).state.ready
    ensures var held := RunFrom(s, inputs, n);
            held.state.queued == HeldOf(inputs, n) &&
            Whole(s, NotOurs(inputs, n)) == Effect(held.state.(queued := []), held.events, held.messages)
  {
    hide Handle;
    if n > 0 {
      var before := RunFrom(s, inputs, n - 1);
      HandleStaysReady(before.state, inputs[n - 1]);
      HoldingSetsAside(s, inputs, n - 1);
      if inputs[n - 1].Ours? {
        HeldRequest(before.state, inputs[n - 1].request);
      } else {
        OtherIgnoresQueue(before.state, inputs[n - 1]);
        WholeGrows(s, NotOurs(inputs, n - 1), inputs[n - 1]);
      }
    }
  }

  lemma HeldRequest(s: State, request: AgentRequest)
    requires !s.ready
    ensures Handle(s, Ours(request)) ==
            Effect(if request.Shutdown? then s else s.(queued := s.queued + [request]), [], [])
  {
  }

  lemma IssuedRequest(s: State, request: AgentRequest)
    requires s.ready
    ensures Handle(s, Ours(request)) == Effect(Encode(s, request).state, [], AsSeq(Encode(s, request).message))
    ensures request.Shutdown? ==> Encode(s, request) == Encoding(s, None)
  {
  }

  lemma {:induction false} DrainAgrees(s: State, queue: seq<AgentRequest>, more: seq<AgentRequest>, n: nat)
    requires n <= |queue|
    ensures Drain(s, queue + more, n) == Drain(s, queue, n)
  {
    hide Encode;
    if n > 0 {
      DrainAgrees(s, queue, more, n - 1);
    }
  }

  lemma DrainGrows(s: State, queue: seq<AgentRequest>, request: AgentRequest)
    ensures var before := Drain(s, queue, |queue|);
            var sent := Encode(before.state, request);
            Drain(s, queue + [request], |queue| + 1) == Effect(sent.state, [], before.messages + AsSeq(sent.message))
  {
    hide Encode;
    DrainAgrees(s, queue, [request], |queue|);
  }

  lemma {:induction false} DrainSaysNoEvent(s: State, queue: seq<AgentRequest>, n: nat)
    requires n <= |queue|
    ensures Drain(s, queue, n).events == []
  {
    hide Encode;
  }

  lemma IssueOne(s: State, issued: seq<Input>, held: seq<AgentRequest>, request: AgentRequest)
    requires s.ready && Whole(s, issued) == Drain(s, held, |held|)
    ensures request.Shutdown? ==> Whole(s, issued + [Ours(request)]) == Drain(s, held, |held|)
    ensures !request.Shutdown? ==>
              Whole(s, issued + [Ours(request)]) == Drain(s, held + [request], |held| + 1)
  {
    hide Handle, Encode, RunFrom, Drain, Whole;
    var before := Drain(s, held, |held|);
    DrainKeepsReady(s, held, |held|);
    DrainSaysNoEvent(s, held, |held|);
    WholeGrows(s, issued, Ours(request));
    IssuedRequest(before.state, request);
    DrainGrows(s, held, request);
    SameWords(before.messages, []);
  }

  /** Issuing requests once ready is draining them. */
  lemma {:induction false} IssuingIsDraining(s: State, inputs: seq<Input>, n: nat)
    requires n <= |inputs| && s.ready
    ensures Whole(s, Requested(inputs, n)) == Drain(s, HeldOf(inputs, n), |HeldOf(inputs, n)|)
  {
    hide Drain, Whole;
    if n == 0 {
      IssuingNothing(s);
    } else {
      IssuingIsDraining(s, inputs, n - 1);
      if inputs[n - 1].Ours? {
        var request := inputs[n - 1].request;
        assert inputs[n - 1] == Ours(request);
        IssueOne(s, Requested(inputs, n - 1), HeldOf(inputs, n - 1), request);
      }
    }
  }

  lemma IssuingNothing(s: State)
    ensures Whole(s, []) == Drain(s, [], 0)
  {
  }

  lemma {:induction false} WholeContinues(s: State, inputs: seq<Input>, more: seq<Input>, n: nat)
    requires n <= |more|
    ensures var before := Whole(s, inputs);
            var rest := RunFrom(before.state, more, n);
            RunFrom(s, inputs + more, |inputs| + n) ==
            Effect(rest.state, before.events + rest.events, before.messages + rest.messages)
  {
    hide Handle;
    if n == 0 {
      RunAgrees(s, inputs, more, |inputs|);
    } else {
      WholeContinues(s, inputs, more, n - 1);
    }
  }

  /** Holding, then the reply. */
  lemma HeldThenReply(inputs: seq<Input>, reply: Received)
    requires var s := Whole(START, inputs).state; !s.ready && OpensUp(s, reply)
    ensures var held := Whole(START, inputs);
            var live := held.state.(pending := held.state.pending - {reply.id}, ready := true, queued := []);
            var drained := Drain(live, held.state.queued, |held.state.queued|);
            Whole(START, inputs + [Theirs(reply)]) ==
            Effect(drained.state, held.events + [Ready(reply.result.capabilities)], held.messages + drained.messages)
  {
    hide Handle, Drain, OpensUp, RunFrom;
    WholeGrows(START, inputs, Theirs(reply));
    OpeningHandles(Whole(START, inputs).state, reply);
  }

  /** Requests made at any time before the handshake reply, held and then drained: the state, every message and
      every event are those of making them, in the same order, just after the reply. */
  lemma QueueingIsInvisible(inputs: seq<Input>, reply: Received)
    requires var s := After(inputs, |inputs|); !s.ready && OpensUp(s, reply)
    ensures var held := inputs + [Theirs(reply)];
            var late := NotOurs(inputs, |inputs|) + [Theirs(reply)] + Requested(inputs, |inputs|);
            && After(held, |held|) == After(late, |late|)
            && Written(held, |held|) == Written(late, |late|)
            && Raised(held, |held|) == Raised(late, |late|)
  {
    hide *;
    var held := inputs + [Theirs(reply)];
    var late := NotOurs(inputs, |inputs|) + [Theirs(reply)] + Requested(inputs, |inputs|);
    WholeIs(inputs);
    QueueingDefers(inputs, reply);
    WholeIs(held);
    WholeIs(late);
  }

  lemma WholeIs(inputs: seq<Input>)
    ensures Whole(START, inputs) == Effect(After(inputs, |inputs|), Raised(inputs, |inputs|), Written(inputs, |inputs|))
  {
    RunFromStart(inputs, |inputs|);
  }

  lemma QueueingDefers(inputs: seq<Input>, reply: Received)
    requires var s := Whole(START, inputs).state; !s.ready && OpensUp(s, reply)
    ensures Whole(START, inputs + [Theirs(reply)]) ==
            Whole(START, NotOurs(inputs, |inputs|) + [Theirs(reply)] + Requested(inputs, |inputs|))
  {
    hide Handle, Drain, RunFrom, Encode;
    var others, requested := NotOurs(inputs, |inputs|), Requested(inputs, |inputs|);
    var held, queue := Whole(START, inputs), HeldOf(inputs, |inputs|);
    var live := held.state.(pending := held.state.pending - {reply.id}, ready := true, queued := []);
    SetAsideWhole(inputs);
    OpensUpIgnoresQueue(held.state, reply);
    HeldThenReply(inputs, reply);
    HeldThenReply(others, reply);
    DrainsNothing(live);
    IssuingIsDraining(live, inputs, |inputs|);
    DrainSaysNoEvent(live, queue, |queue|);
    WholeContinues(START, others + [Theirs(reply)], requested, |requested|);
    SameWords(held.messages, Drain(live, queue, |queue|).messages);
    SameWords(held.events + [Ready(reply.result.capabilities)], []);
  }

  lemma SameWords<T>(a: seq<T>, b: seq<T>)
    ensures a + [] + b == a + b && a + [] == a
  {
  }

  lemma SetAsideWhole(inputs: seq<Input>)
    requires !Whole(START, inputs).state.ready
    ensures var held := Whole(START, inputs);
            held.state.queued == HeldOf(inputs, |inputs|) &&
            Whole(START, NotOurs(inputs, |inputs|)) ==
            Effect(held.state.(queued := []), held.events, held.messages)
  {
    hide RunFrom, HeldOf, NotOurs;
    StartsEmpty();
    HoldingSetsAside(START, inputs, |inputs|);
  }

  lemma StartsEmpty()
    ensures START.queued == []
  {
  }

  lemma DrainsNothing(s: State)
    ensures Drain(s, [], 0) == Effect(s, [], [])
  {
  }

  lemma OpeningHandles(s: State, reply: Received)
    requires OpensUp(s, reply)
    ensures var live := s.(pending := s.pending - {reply.id}, ready := true, queued := []);
            var drained := Drain(live, s.queued, |s.queued|);
            Handle(s, Theirs(reply)) == Effect(drained.state, [Ready(reply.result.capabilities)], drained.messages)
  {
    hide Drain, Encode;
  }
}
