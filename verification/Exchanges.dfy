/** Whole runs of the translator: what was heard and sent, moment by moment. */
module Exchanges {
  import opened Options
  import opened Agents
  import opened Translations

  /** What can be seen of one step from outside. */
  datatype Moment =
    | Greeted(message: Option<Sent>)
    | Sending(request: AgentRequest, message: Option<Sent>)
    | Hearing(heard: Received, events: seq<AgentEvent>, messages: seq<Sent>)

  datatype Exchange = Exchange(state: State, log: seq<Moment>)

  /** The smallest steps: a handshake reply is one `Hears` and then a `Sends` for each held request. */
  datatype Act =
    | Greets(capabilities: ClientCapabilities)
    | Holds(held: AgentRequest)
    | Sends(request: AgentRequest)
    | Hears(heard: Received)

  function Perform(x: Exchange, act: Act): Exchange {
    match act
    case Greets(capabilities) =>
      var hello := Open(x.state, capabilities);
      Exchange(hello.state, x.log + [Greeted(hello.message)])
    case Holds(request) => Exchange(Hold(x.state, request), x.log)
    case Sends(request) =>
      var sent := Encode(x.state, request);
      Exchange(sent.state, x.log + [Sending(request, sent.message)])
    case Hears(message) =>
      var heard := Hear(x.state, message);
      Exchange(heard.state, x.log + [Hearing(message, heard.events, heard.messages)])
  }

  /** `x` after the first `n` acts. */
  function PlayFrom(x: Exchange, acts: seq<Act>, n: nat): Exchange
    requires n <= |acts|
  {
    if n == 0 then x else Perform(PlayFrom(x, acts, n - 1), acts[n - 1])
  }

  const NOTHING_YET := Exchange(START, [])

  function Play(acts: seq<Act>, n: nat): Exchange
    requires n <= |acts|
  {
    PlayFrom(NOTHING_YET, acts, n)
  }

  lemma {:induction false} PlayAgrees(x: Exchange, acts: seq<Act>, more: seq<Act>, n: nat)
    requires n <= |acts|
    ensures PlayFrom(x, acts + more, n) == PlayFrom(x, acts, n)
  {
    hide Perform;
    if n > 0 {
      PlayAgrees(x, acts, more, n - 1);
    }
  }

  lemma {:induction false} PlayContinues(x: Exchange, acts: seq<Act>, more: seq<Act>, n: nat)
    requires n <= |more|
    ensures PlayFrom(x, acts + more, |acts| + n) == PlayFrom(PlayFrom(x, acts, |acts|), more, n)
  {
    hide Perform;
    if n == 0 {
      PlayAgrees(x, acts, more, |acts|);
    } else {
      PlayContinues(x, acts, more, n - 1);
    }
  }

  // ---- inputs as acts ------------------------------------------------------------------------

  function SendingAll(queue: seq<AgentRequest>, n: nat): seq<Act>
    requires n <= |queue|
  {
    if n == 0 then [] else SendingAll(queue, n - 1) + [Sends(queue[n - 1])]
  }

  function ActsOf(s: State, input: Input): seq<Act> {
    match input
    case Start(capabilities) => [Greets(capabilities)]
    case Ours(request) => if Held(s, request) then [Holds(request)] else [Sends(request)]
    case Theirs(message) =>
      [Hears(message)] + if OpensUp(s, message) then SendingAll(s.queued, |s.queued|) else []
  }

  /** The state after the first `n` inputs. */
  function After(inputs: seq<Input>, n: nat): State
    requires n <= |inputs|
  {
    if n == 0 then START else Handle(After(inputs, n - 1), inputs[n - 1]).state
  }

  /** The messages written during the first `n` inputs. */
  function Written(inputs: seq<Input>, n: nat): seq<Sent>
    requires n <= |inputs|
  {
    if n == 0 then [] else Written(inputs, n - 1) + Handle(After(inputs, n - 1), inputs[n - 1]).messages
  }

  /** The events raised during the first `n` inputs. */
  function Raised(inputs: seq<Input>, n: nat): seq<AgentEvent>
    requires n <= |inputs|
  {
    if n == 0 then [] else Raised(inputs, n - 1) + Handle(After(inputs, n - 1), inputs[n - 1]).events
  }

  function ActsTo(inputs: seq<Input>, n: nat): seq<Act>
    requires n <= |inputs|
  {
    if n == 0 then [] else ActsTo(inputs, n - 1) + ActsOf(After(inputs, n - 1), inputs[n - 1])
  }

  function MomentMessages(moment: Moment): seq<Sent> {
    match moment
    case Greeted(message) => AsSeq(message)
    case Sending(_, message) => AsSeq(message)
    case Hearing(_, _, messages) => messages
  }

  function MomentEvents(moment: Moment): seq<AgentEvent> {
    if moment.Hearing? then moment.events else []
  }

  function LogMessages(log: seq<Moment>): seq<Sent> {
    if log == [] then [] else LogMessages(log[..|log| - 1]) + MomentMessages(log[|log| - 1])
  }

  function LogEvents(log: seq<Moment>): seq<AgentEvent> {
    if log == [] then [] else LogEvents(log[..|log| - 1]) + MomentEvents(log[|log| - 1])
  }

  lemma Grown<T>(log: seq<T>, last: T)
    ensures (log + [last])[..|log + [last]| - 1] == log
  {
  }

  /** What `y` says beyond `x`. */
  predicate Says(x: Exchange, y: Exchange, events: seq<AgentEvent>, messages: seq<Sent>) {
    LogMessages(y.log) == LogMessages(x.log) + messages && LogEvents(y.log) == LogEvents(x.log) + events
  }

  lemma LogGrows(log: seq<Moment>, moment: Moment)
    ensures LogMessages(log + [moment]) == LogMessages(log) + MomentMessages(moment)
    ensures LogEvents(log + [moment]) == LogEvents(log) + MomentEvents(moment)
  {
    Grown(log, moment);
  }

  lemma Reassociate<T>(x: seq<T>, y: seq<T>, z: seq<T>)
    ensures (x + y) + z == x + (y + z)
  {
  }

  lemma SaysMore(x: Exchange, y: Exchange, events: seq<AgentEvent>, messages: seq<Sent>, state: State, moment: Moment)
    requires Says(x, y, events, messages)
    ensures Says(x, Exchange(state, y.log + [moment]), events + MomentEvents(moment), messages + MomentMessages(moment))
  {
    hide LogMessages, LogEvents, MomentMessages, MomentEvents;
    LogGrows(y.log, moment);
    Reassociate(LogMessages(x.log), messages, MomentMessages(moment));
    Reassociate(LogEvents(x.log), events, MomentEvents(moment));
  }

  lemma SaysNothing(x: Exchange, state: State)
    ensures Says(x, Exchange(state, x.log), [], [])
  {
  }

  lemma {:induction false} SendingAllDrains(x: Exchange, queue: seq<AgentRequest>, n: nat)
    requires n <= |queue|
    ensures |SendingAll(queue, n)| == n
    ensures PlayFrom(x, SendingAll(queue, n), n).state == Drain(x.state, queue, n).state
    ensures Says(x, PlayFrom(x, SendingAll(queue, n), n), [], Drain(x.state, queue, n).messages)
  {
    hide Encode, Says;
    if n == 0 {
      SaysNothing(x, x.state);
    } else {
      SendingAllDrains(x, queue, n - 1);
      PlayAgrees(x, SendingAll(queue, n - 1), [Sends(queue[n - 1])], n - 1);
      var y := PlayFrom(x, SendingAll(queue, n - 1), n - 1);
      var sent := Encode(y.state, queue[n - 1]);
      var moment := Sending(queue[n - 1], sent.message);
      SaysMore(x, y, [], Drain(x.state, queue, n - 1).messages, sent.state, moment);
      assert [] + MomentEvents(moment) == [];
    }
  }

  lemma HearingPlays(x: Exchange, message: Received)
    ensures var heard := Hear(x.state, message);
            var y := PlayFrom(x, [Hears(message)], 1);
            y.state == heard.state && Says(x, y, heard.events, heard.messages)
  {
    hide Hear, Says, Open, Encode, Hold;
    var heard := Hear(x.state, message);
    SaysNothing(x, x.state);
    SaysMore(x, x, [], [], heard.state, Hearing(message, heard.events, heard.messages));
    assert [] + heard.events == heard.events && [] + heard.messages == heard.messages;
    assert PlayFrom(x, [Hears(message)], 0) == x;
  }

  lemma SaysTogether(x: Exchange, y: Exchange, z: Exchange, events: seq<AgentEvent>, messages: seq<Sent>,
                     moreMessages: seq<Sent>)
    requires Says(x, y, events, messages) && Says(y, z, [], moreMessages)
    ensures Says(x, z, events, messages + moreMessages)
  {
    hide LogMessages, LogEvents;
    Reassociate(LogMessages(x.log), messages, moreMessages);
    assert LogEvents(y.log) + [] == LogEvents(y.log);
  }

  /** The acts an input stands for do what the input does, and say what it says. */
  lemma HandlingPlays(x: Exchange, input: Input)
    ensures var acts := ActsOf(x.state, input);
            var y := PlayFrom(x, acts, |acts|);
            y.state == Handle(x.state, input).state &&
            Says(x, y, Handle(x.state, input).events, Handle(x.state, input).messages)
  {
    hide Hear, Says, Open, Encode, Hold, OpensUp, Held, Drain;
    SaysNothing(x, x.state);
    match input {
      case Start(capabilities) =>
        var hello := Open(x.state, capabilities);
        SaysMore(x, x, [], [], hello.state, Greeted(hello.message));
        assert PlayFrom(x, [Greets(capabilities)], 0) == x;
        assert [] + MomentEvents(Greeted(hello.message)) == [] && [] + AsSeq(hello.message) == AsSeq(hello.message);
      case Ours(request) =>
        SaysNothing(x, Hold(x.state, request));
        var sent := Encode(x.state, request);
        SaysMore(x, x, [], [], sent.state, Sending(request, sent.message));
        assert PlayFrom(x, [Holds(request)], 0) == x;
        assert PlayFrom(x, [Sends(request)], 0) == x;
        assert [] + MomentEvents(Sending(request, sent.message)) == [] && [] + AsSeq(sent.message) == AsSeq(sent.message);
      case Theirs(message) =>
        HearingPlays(x, message);
        if OpensUp(x.state, message) {
          var y := PlayFrom(x, [Hears(message)], 1);
          var queue := x.state.queued;
          SendingAllDrains(y, queue, |queue|);
          PlayContinues(x, [Hears(message)], SendingAll(queue, |queue|), |queue|);
          SaysTogether(x, y, PlayFrom(y, SendingAll(queue, |queue|), |queue|), Hear(x.state, message).events,
                       Hear(x.state, message).messages, Drain(y.state, queue, |queue|).messages);
        } else {
          assert ActsOf(x.state, input) == [Hears(message)];
        }
    }
  }

  /** The exchange a run of inputs amounts to. */
  function History(inputs: seq<Input>, n: nat): Exchange
    requires n <= |inputs|
  {
    var acts := ActsTo(inputs, n);
    Play(acts, |acts|)
  }

  /** Played act by act, a run leaves the state its inputs leave and says exactly what they said. */
  lemma {:induction false} RunIsPlayed(inputs: seq<Input>, n: nat)
    requires n <= |inputs|
    ensures History(inputs, n).state == After(inputs, n)
    ensures LogMessages(History(inputs, n).log) == Written(inputs, n)
    ensures LogEvents(History(inputs, n).log) == Raised(inputs, n)
  {
    hide Handle, ActsOf, Perform, LogMessages, LogEvents;
    if n == 0 {
      NothingSaid();
    } else {
      RunIsPlayed(inputs, n - 1);
      var acts := ActsTo(inputs, n - 1);
      var more := ActsOf(After(inputs, n - 1), inputs[n - 1]);
      PlayContinues(NOTHING_YET, acts, more, |more|);
      HandlingPlays(History(inputs, n - 1), inputs[n - 1]);
    }
  }

  lemma NothingSaid()
    ensures LogMessages([]) == [] && LogEvents([]) == []
  {
  }
}
