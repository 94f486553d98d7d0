/** Telling replies apart: request ids are never shared, and each reply counts once. */
module Correlation {
  import opened Options
  import opened Agents
  import opened Translations
  import opened Exchanges
  import opened Conservation
  import opened Handshakes

  /** Once the handshake is done nothing is ever held. */
  lemma {:induction false} ReadyHoldsNothing(inputs: seq<Input>, n: nat)
    requires n <= |inputs| && After(inputs, n).ready
    ensures After(inputs, n).queued == []
  {
    hide Hear, Encode, Drain, OpensUp;
    if n > 0 {
      var s := After(inputs, n - 1);
      if s.ready {
        ReadyHoldsNothing(inputs, n - 1);
      }
      match inputs[n - 1] {
        case Start(capabilities) =>
        case Ours(request) => EncodeKeepsReady(s, request);
        case Theirs(message) =>
          if OpensUp(s, message) {
            HandshakeOpens(s, message);
            DrainKeepsReady(Hear(s, message).state, s.queued, |s.queued|);
          } else {
            HearIgnoresQueue(s, message, []);
          }
      }
    }
  }

  // ---- ids of our own calls ------------------------------------------------------------------

  /** Our calls among `messages` carry rising ids above `low` and up to `high`. */
  ghost predicate Rising(messages: seq<Sent>, low: nat, high: nat) {
    && low <= high
    && (forall i :: 0 <= i < |messages| && messages[i].Call? ==> low < messages[i].id <= high)
    && (forall i, j :: 0 <= i < j < |messages| && messages[i].Call? && messages[j].Call? ==>
          messages[i].id < messages[j].id)
  }

  lemma RisingOn(left: seq<Sent>, right: seq<Sent>, low: nat, middle: nat, high: nat)
    requires Rising(left, low, middle) && Rising(right, middle, high)
    ensures Rising(left + right, low, high)
  {
  }

  lemma NoCallsRise(messages: seq<Sent>, at: nat)
    requires forall m :: m in messages ==> !m.Call?
    ensures Rising(messages, at, at)
  {
  }

  lemma AskRises(s: State, pending: Pending, call: ClientCall)
    ensures var sent := Ask(s, pending, call); Rising(AsSeq(sent.message), s.ids, sent.state.ids)
  {
  }

  lemma EncodeRises(s: State, request: AgentRequest)
    ensures var sent := Encode(s, request); Rising(AsSeq(sent.message), s.ids, sent.state.ids)
  {
    hide WireFrom, Unexpired, ChooseOption, TerminalAnswer, Rising, Ask;
    forall pending, call { AskRises(s, pending, call); }
    if request.TerminalReply? && request.rpc in s.rpcs {
      TerminalAnswerAnswers(s.terminals, s.rpcs[request.rpc], request.response);
    }
    if !request.NewSession? && !request.SetMode? && !request.Prompt? {
      NoCallsRise(AsSeq(Encode(s, request).message), s.ids);
    } else {
      NoCallsRise([], s.ids);
    }
  }

  lemma RequestCallsNothing(s: State, id: nat, session: nat, call: AgentCall)
    ensures var heard := OnRequest(s, id, session, call);
            heard.state.ids == s.ids && forall m :: m in heard.messages ==> !m.Call?
  {
    hide LiveTerminal, GrantFrom, Without, OutputLimit, TerminalUse.Method, TerminalUse.On;
  }

  lemma HearRises(s: State, message: Received)
    ensures var heard := Hear(s, message); Rising(heard.messages, s.ids, heard.state.ids)
  {
    hide Rising, OnRequest, OnResponse, OnError, OnNotification, Addressed;
    if message.Request? {
      RequestCallsNothing(s, message.id, Addressed(s.sessions, message.sessionId), message.call);
    } else {
      OthersKeepTables(s, message);
    }
    NoCallsRise(Hear(s, message).messages, s.ids);
  }

  lemma {:induction false} DrainRises(s: State, queue: seq<AgentRequest>, n: nat)
    requires n <= |queue|
    ensures var drained := Drain(s, queue, n); Rising(drained.messages, s.ids, drained.state.ids)
  {
    hide Encode, Rising;
    if n == 0 {
      NoCallsRise([], s.ids);
    } else {
      DrainRises(s, queue, n - 1);
      var before := Drain(s, queue, n - 1);
      EncodeRises(before.state, queue[n - 1]);
      var sent := Encode(before.state, queue[n - 1]);
      RisingOn(before.messages, AsSeq(sent.message), s.ids, before.state.ids, sent.state.ids);
    }
  }

  lemma HandleRises(s: State, input: Input)
    ensures var done := Handle(s, input); Rising(done.messages, s.ids, done.state.ids)
  {
    hide Hear, Encode, Drain, OpensUp, Rising, Ask;
    match input {
      case Start(capabilities) => AskRises(s, Initialize, CallInitialize(capabilities));
      case Ours(request) =>
        EncodeRises(s, request);
        NoCallsRise([], s.ids);
      case Theirs(message) =>
        HearRises(s, message);
        if OpensUp(s, message) {
          var heard := Hear(s, message);
          DrainRises(heard.state, s.queued, |s.queued|);
          var drained := Drain(heard.state, s.queued, |s.queued|);
          RisingOn(heard.messages, drained.messages, s.ids, heard.state.ids, drained.state.ids);
        }
    }
  }

  lemma {:induction false} RunRises(inputs: seq<Input>, n: nat)
    requires n <= |inputs|
    ensures Rising(Written(inputs, n), 0, After(inputs, n).ids)
  {
    hide Handle, Rising;
    if n == 0 {
      NoCallsRise([], 0);
    } else {
      RunRises(inputs, n - 1);
      HandleRises(After(inputs, n - 1), inputs[n - 1]);
      RisingOn(Written(inputs, n - 1), Handle(After(inputs, n - 1), inputs[n - 1]).messages, 0,
               After(inputs, n - 1).ids, After(inputs, n).ids);
    }
  }

  /** No two calls we write share an id: later ones carry larger ids. */
  lemma RequestIdsNeverRepeat(inputs: seq<Input>, i: nat, j: nat)
    requires i < j < |Written(inputs, |inputs|)|
    requires Written(inputs, |inputs|)[i].Call? && Written(inputs, |inputs|)[j].Call?
    ensures Written(inputs, |inputs|)[i].id < Written(inputs, |inputs|)[j].id
  {
    hide Written, After;
    RunRises(inputs, |inputs|);
  }

  // ---- replies -------------------------------------------------------------------------------

  /** `id` was used and is no longer waited for. */
  predicate Settled(s: State, id: nat) { id <= s.ids && id !in s.pending }

  lemma EncodeStaysSettled(s: State, request: AgentRequest, id: nat)
    requires Settled(s, id)
    ensures Settled(Encode(s, request).state, id)
  {
    hide WireFrom, Unexpired, ChooseOption, TerminalAnswer;
  }

  lemma RequestKeepsPending(s: State, id: nat, session: nat, call: AgentCall)
    ensures var t := OnRequest(s, id, session, call).state; t.ids == s.ids && t.pending == s.pending
  {
    hide LiveTerminal, GrantFrom, Without, OutputLimit, TerminalUse.Method, TerminalUse.On;
  }

  lemma HearStaysSettled(s: State, message: Received, id: nat)
    requires Settled(s, id)
    ensures Settled(Hear(s, message).state, id)
  {
    hide SessionFrom, Unexpired, Ended, Addressed, ToolEvents, Translations.ReasonOf, OnRequest;
    if message.Request? {
      RequestKeepsPending(s, message.id, Addressed(s.sessions, message.sessionId), message.call);
    }
  }

  lemma {:induction false} DrainStaysSettled(s: State, queue: seq<AgentRequest>, n: nat, id: nat)
    requires n <= |queue| && Settled(s, id)
    ensures Settled(Drain(s, queue, n).state, id)
  {
    hide Encode, Settled;
    if n > 0 {
      DrainStaysSettled(s, queue, n - 1, id);
      EncodeStaysSettled(Drain(s, queue, n - 1).state, queue[n - 1], id);
    }
  }

  lemma HandleStaysSettled(s: State, input: Input, id: nat)
    requires Settled(s, id)
    ensures Settled(Handle(s, input).state, id)
  {
    hide Hear, Encode, Drain, OpensUp;
    match input {
      case Start(capabilities) =>
      case Ours(request) => EncodeStaysSettled(s, request, id);
      case Theirs(message) =>
        HearStaysSettled(s, message, id);
        if OpensUp(s, message) {
          DrainStaysSettled(Hear(s, message).state, s.queued, |s.queued|, id);
        }
    }
  }

  /** A reply of either kind to a call still waited for. */
  predicate Settles(s: State, input: Input, id: nat) {
    && input.Theirs? && (input.message.Response? || input.message.ErrorResponse?)
    && input.message.id == id && id in s.pending
  }

  lemma ReplySettles(s: State, input: Input, id: nat)
    requires Sane(s) && Settles(s, input, id)
    ensures Settled(Handle(s, input).state, id)
  {
    hide Drain, Unexpired, Ended, Translations.ReasonOf, OnRequest, OnNotification;
    if OpensUp(s, input.message) {
      DrainStaysSettled(Hear(s, input.message).state, s.queued, |s.queued|, id);
    }
  }

  lemma {:induction false} StaysSettled(inputs: seq<Input>, m: nat, n: nat, id: nat)
    requires m <= n <= |inputs| && Settled(After(inputs, m), id)
    ensures Settled(After(inputs, n), id)
  {
    hide Handle, Settled;
    if m < n {
      StaysSettled(inputs, m, n - 1, id);
      HandleStaysSettled(After(inputs, n - 1), inputs[n - 1], id);
    }
  }

  lemma UnsettledReplyIsNot(s: State, id: nat, result: Fields)
    requires id in s.pending
    ensures Handle(s, Theirs(Response(id, result))).events != []
  {
    hide Drain, Unexpired, Translations.ReasonOf;
  }

  /** A response has an effect exactly when its call is still waited for, and once any reply has settled a call
      no response to it ever has one again. */
  lemma ResponsesCountOnce(inputs: seq<Input>, m: nat, n: nat, id: nat, result: Fields)
    requires m < n <= |inputs|
    ensures var reply := Handle(After(inputs, n), Theirs(Response(id, result)));
            && (id in After(inputs, n).pending ==> reply.events != [])
            && (id !in After(inputs, n).pending ==> reply == Effect(After(inputs, n), [], []))
            && (Settles(After(inputs, m), inputs[m], id) ==> id !in After(inputs, n).pending)
  {
    hide Handle, After, Settles;
    var s := After(inputs, n);
    RunIsSane(inputs, m);
    if Settles(After(inputs, m), inputs[m], id) {
      ReplySettles(After(inputs, m), inputs[m], id);
      OneMore(inputs, m);
      StaysSettled(inputs, m + 1, n, id);
    }
    if id in s.pending {
      UnsettledReplyIsNot(s, id, result);
    } else {
      UnknownReplyIsSilent(s, id, result);
    }
  }

  lemma UnknownReplyIsSilent(s: State, id: nat, result: Fields)
    requires id !in s.pending
    ensures Handle(s, Theirs(Response(id, result))) == Effect(s, [], [])
  {
  }

  lemma OneMore(inputs: seq<Input>, m: nat)
    requires m < |inputs|
    ensures After(inputs, m + 1) == Handle(After(inputs, m), inputs[m]).state
  {
    hide Handle;
  }

  /** An error for a call nobody waits for is not silent: it is reported against no session, and with it go
      whatever grants no session holds. */
  lemma StrayErrorIsReported(s: State, id: nat, text: string)
    requires id !in s.pending
    ensures Handle(s, Theirs(ErrorResponse(id, text))) ==
            Effect(Expire(s, NO_SESSION), [Failed(NO_SESSION, Told(text))], [])
  {
    assert s.pending - {id} == s.pending;
  }
}
