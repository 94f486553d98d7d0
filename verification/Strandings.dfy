/** When held requests go out, and when they never do: a handshake answered with an error is not followed by
    another, and everything asked of the agent waits for good. */
module Strandings {
  import opened Options
  import opened Agents
  import opened Translations
  import opened Exchanges
  import opened Handshakes
  import opened Correlation

  /** What may be written before the handshake is done: the handshake itself, and what answers an agent's call
      there and then. Nothing any request of ours encodes to is among it. */
  predicate NotAsked(message: Sent) {
    match message
    case Call(_, call) => call.CallInitialize?
    case Reply(_, answer) => answer.Accepted?
    case Refused(_, code, _) => code == -32602 || code == -32601
    case CancelTurn(_) => false
  }

  /** The reply to a handshake was heard among the first `n` inputs. */
  ghost predicate Answered(inputs: seq<Input>, n: nat)
    requires n <= |inputs|
  {
    exists j :: 0 <= j < n && inputs[j].Theirs? && OpensUp(After(inputs, j), inputs[j].message)
  }

  lemma EncodedIsAsked(s: State, request: AgentRequest)
    ensures Encode(s, request).message.Some? ==> !NotAsked(Encode(s, request).message.value)
  {
    hide WireFrom, Unexpired, ChooseOption, TerminalFrom, MarkFrom, WireName;
  }

  lemma RequestIsAnswered(s: State, id: nat, session: nat, call: AgentCall)
    ensures forall m :: m in OnRequest(s, id, session, call).messages ==> NotAsked(m)
  {
    hide LiveTerminal, GrantFrom, Without, OutputLimit, TerminalUse.Method, TerminalUse.On;
  }

  lemma HearWritesNothing(s: State, message: Received)
    requires !message.Request?
    ensures Hear(s, message).messages == []
  {
    hide SessionFrom, Unexpired, Ended, ToolEvents, Translations.ReasonOf;
  }

  /** An input that is not the handshake's reply. */
  lemma StaysShut(s: State, input: Input)
    requires !s.ready && !(input.Theirs? && OpensUp(s, input.message))
    ensures !Handle(s, input).state.ready
    ensures forall m :: m in Handle(s, input).messages ==> NotAsked(m)
  {
    hide Hear, Encode, Drain, OpensUp;
    match input {
      case Start(capabilities) =>
      case Ours(request) => HeldRequest(s, request);
      case Theirs(message) =>
        HearIgnoresQueue(s, message, []);
        HearAnswers(s, message);
    }
  }

  lemma HearAnswers(s: State, message: Received)
    ensures forall m :: m in Hear(s, message).messages ==> NotAsked(m)
  {
    hide OnRequest, OnResponse, OnError, OnNotification, Addressed, NotAsked;
    if message.Request? {
      RequestIsAnswered(s, message.id, Addressed(s.sessions, message.sessionId), message.call);
    } else {
      HearWritesNothing(s, message);
    }
  }

  lemma OpensReady(s: State, message: Received)
    requires OpensUp(s, message)
    ensures Handle(s, Theirs(message)).state.ready
    ensures Handle(s, Theirs(message)).messages == Drain(Hear(s, message).state, s.queued, |s.queued|).messages
  {
    hide Hear, Drain, OpensUp;
    HandshakeOpens(s, message);
    DrainKeepsReady(Hear(s, message).state, s.queued, |s.queued|);
  }

  lemma AnsweredGrows(inputs: seq<Input>, n: nat)
    requires n < |inputs|
    ensures Answered(inputs, n + 1) <==>
            Answered(inputs, n) || (inputs[n].Theirs? && OpensUp(After(inputs, n), inputs[n].message))
  {
    hide OpensUp, After;
  }

  /** Over every run: requests go out if and only if a reply to a handshake was heard. Until then all of them are
      held, in order, and nothing they ask for is written. */
  lemma {:induction false} HeldUntilAnswered(inputs: seq<Input>, n: nat)
    requires n <= |inputs|
    ensures After(inputs, n).ready <==> Answered(inputs, n)
    ensures !Answered(inputs, n) ==> After(inputs, n).queued == HeldOf(inputs, n)
    ensures !Answered(inputs, n) ==> forall m :: m in Written(inputs, n) ==> NotAsked(m)
  {
    hide Handle, NotAsked, OpensUp, Answered;
    if n == 0 {
      NoneAnswered(inputs);
    } else {
      var s := After(inputs, n - 1);
      HeldUntilAnswered(inputs, n - 1);
      AnsweredGrows(inputs, n - 1);
      HandleStaysReady(s, inputs[n - 1]);
      if inputs[n - 1].Theirs? && OpensUp(s, inputs[n - 1].message) {
        OpensReady(s, inputs[n - 1].message);
      } else if !s.ready {
        StaysShut(s, inputs[n - 1]);
        RunFromStart(inputs, n);
        HoldingSetsAside(START, inputs, n);
      }
    }
  }

  lemma NoneAnswered(inputs: seq<Input>)
    ensures !Answered(inputs, 0)
  {
  }

  // ---- the handshake refused -----------------------------------------------------------------

  /** No handshake is under way, and none is done. */
  ghost predicate Stranded(s: State) {
    !s.ready && forall id :: id in s.pending ==> !s.pending[id].Initialize?
  }

  lemma StrandedRequest(s: State, id: nat, session: nat, call: AgentCall)
    requires Stranded(s)
    ensures Stranded(OnRequest(s, id, session, call).state)
  {
    RequestKeepsPending(s, id, session, call);
    RequestIgnoresQueue(s, id, session, call, []);
  }

  lemma StrandedHears(s: State, message: Received)
    requires Stranded(s)
    ensures Stranded(Hear(s, message).state) && !OpensUp(s, message)
  {
    hide SessionFrom, Unexpired, Ended, Addressed, ToolEvents, Translations.ReasonOf, OnRequest;
    if message.Request? {
      StrandedRequest(s, message.id, Addressed(s.sessions, message.sessionId), message.call);
    }
  }

  lemma StrandedStep(s: State, input: Input)
    requires Stranded(s) && !input.Start?
    ensures Stranded(Handle(s, input).state)
    ensures input.Theirs? ==> !OpensUp(s, input.message)
  {
    hide Hear, Encode, Drain, OpensUp, Stranded;
    match input {
      case Ours(request) => HeldStaysStranded(s, request);
      case Theirs(message) => StrandedHears(s, message);
    }
  }

  lemma HeldStaysStranded(s: State, request: AgentRequest)
    requires Stranded(s)
    ensures Stranded(Handle(s, Ours(request)).state)
  {
    HeldRequest(s, request);
  }

  /** With no handshake under way and none started again, no request of ours is ever encoded: all that were made,
      before and since, are held for good. */
  lemma {:induction false} StrandedForGood(inputs: seq<Input>, m: nat, n: nat)
    requires m <= n <= |inputs| && Stranded(After(inputs, m))
    requires forall j :: m <= j < n ==> !inputs[j].Start?
    ensures Stranded(After(inputs, n)) && After(inputs, n).queued == HeldOf(inputs, n)
    ensures forall w :: w in Written(inputs, n) ==> NotAsked(w)
    decreases n
  {
    hide Handle, NotAsked, Answered;
    if m < n {
      StrandedForGood(inputs, m, n - 1);
      StrandedStep(After(inputs, n - 1), inputs[n - 1]);
    }
    HeldUntilAnswered(inputs, n);
  }

  /** An error in reply to the only handshake under way strands every request. */
  lemma ErrorStrands(s: State, id: nat, text: string)
    requires !s.ready && id in s.pending && forall k :: k in s.pending && s.pending[k].Initialize? ==> k == id
    ensures Stranded(Handle(s, Theirs(ErrorResponse(id, text))).state)
  {
    hide Unexpired;
  }

  /** So a first handshake refused strands whatever is asked, however the run goes on. */
  lemma RefusedHandshakeStrands(capabilities: ClientCapabilities, text: string, more: seq<Input>)
    requires forall i :: 0 <= i < |more| ==> !more[i].Start?
    ensures var run := [Start(capabilities), Theirs(ErrorResponse(1, text))] + more;
            && !After(run, |run|).ready && After(run, |run|).queued == HeldOf(run, |run|)
            && forall w :: w in Written(run, |run|) ==> NotAsked(w)
  {
    var run := [Start(capabilities), Theirs(ErrorResponse(1, text))] + more;
    OneMore(run, 0);
    OneMore(run, 1);
    assert After(run, 1) == START.(ids := 1, pending := map[1 := Initialize]);
    ErrorStrands(After(run, 1), 1, text);
    hide After, Written, NotAsked, HeldOf;
    StrandedForGood(run, 2, |run|);
  }
}
