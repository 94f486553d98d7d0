/** One-shot grants and the turns they are given in. A grant answered while its session's turn is under way ends
    with that turn; one answered after the turn waits for the next. */
module Turns {
  import opened Options
  import opened Agents
  import opened Translations
  import opened Exchanges
  import opened Conservation
  import opened Grants
  import opened Handshakes
  import opened Correlation

  /** A prompt of `session` is being worked on. */
  ghost predicate InTurn(s: State, session: nat) {
    exists id :: id in s.pending && s.pending[id] == Turn(session)
  }

  /** No turn under way in `s` is under way in `t`. */
  ghost predicate TurnsOver(s: State, t: State, session: nat) {
    forall id :: id in s.pending && s.pending[id] == Turn(session) ==> id !in t.pending
  }

  /** Answering prompt `k` in this way grants a launch. */
  predicate Earns(s: State, k: nat, decision: PermissionDecision, spec: TerminalSpec) {
    && k in s.permissions && s.permissions[k].spec == Some(spec)
    && decision.Allows() && ChooseOption(s.permissions[k].options, decision).Some?
  }

  // ---- a turn under way ----------------------------------------------------------------------

  predicate Waits(s: State, id: nat, session: nat) {
    id <= s.ids && id in s.pending && s.pending[id] == Turn(session)
  }

  lemma EncodeWaits(s: State, request: AgentRequest, id: nat, session: nat)
    requires Waits(s, id, session)
    ensures Waits(Encode(s, request).state, id, session)
  {
    hide WireFrom, Unexpired, ChooseOption, TerminalAnswer;
  }

  lemma {:induction false} DrainWaits(s: State, queue: seq<AgentRequest>, n: nat, id: nat, session: nat)
    requires n <= |queue| && Waits(s, id, session)
    ensures Waits(Drain(s, queue, n).state, id, session)
  {
    hide Encode, Waits;
    if n > 0 {
      DrainWaits(s, queue, n - 1, id, session);
      EncodeWaits(Drain(s, queue, n - 1).state, queue[n - 1], id, session);
    }
  }

  lemma ResponseWaits(s: State, about: nat, result: Fields, id: nat, session: nat, spec: TerminalSpec)
    requires Waits(s, id, session)
    ensures var t := OnResponse(s, about, result).state;
            if about == id then Unspent(t, session, spec) == 0 else Waits(t, id, session)
  {
    hide Unexpired, Unspent, Translations.ReasonOf;
    ExpiringLeavesNone(s.(pending := s.pending - {id}), session, session, spec);
  }

  lemma ErrorWaits(s: State, about: nat, text: string, id: nat, session: nat, spec: TerminalSpec)
    requires Waits(s, id, session)
    ensures var t := OnError(s, about, text).state;
            if about == id then Unspent(t, session, spec) == 0 else Waits(t, id, session)
  {
    hide Unexpired, Unspent;
    ExpiringLeavesNone(s.(pending := s.pending - {id}), session, session, spec);
  }

  /** Whatever is heard, the turn goes on or its session's grants are gone. */
  lemma HearWaits(s: State, message: Received, id: nat, session: nat, spec: TerminalSpec)
    requires Waits(s, id, session)
    ensures var t := Hear(s, message).state; Waits(t, id, session) || Unspent(t, session, spec) == 0
  {
    hide OnResponse, OnError, OnRequest, OnUpdate, SessionFrom, Addressed, Unspent;
    match message {
      case Response(about, result) => ResponseWaits(s, about, result, id, session, spec);
      case ErrorResponse(about, text) => ErrorWaits(s, about, text, id, session, spec);
      case Notification(_, sessionId, update) => UpdateWaits(s, message);
      case Request(about, sessionId, call) => RequestKeepsPending(s, about, Addressed(s.sessions, sessionId), call);
    }
  }

  lemma UpdateWaits(s: State, message: Received)
    requires message.Notification?
    ensures var t := Hear(s, message).state; t.ids == s.ids && t.pending == s.pending
  {
    hide SessionFrom, ToolEvents;
  }

  /** So it is with every input; the handshake's reply, after which held requests go out, ends no turn. */
  lemma HandleWaits(s: State, input: Input, id: nat, session: nat, spec: TerminalSpec)
    requires Waits(s, id, session)
    ensures var t := Handle(s, input).state; Waits(t, id, session) || Unspent(t, session, spec) == 0
  {
    hide Hear, Encode, Drain, Unspent;
    match input {
      case Start(capabilities) =>
      case Ours(request) => EncodeWaits(s, request, id, session);
      case Theirs(message) =>
        HearWaits(s, message, id, session, spec);
        if OpensUp(s, message) {
          HandshakeWaits(s, message, id, session);
          DrainWaits(Hear(s, message).state, s.queued, |s.queued|, id, session);
        }
    }
  }

  lemma HandshakeWaits(s: State, message: Received, id: nat, session: nat)
    requires Waits(s, id, session) && OpensUp(s, message)
    ensures Waits(Hear(s, message).state, id, session)
  {
  }

  /** At some moment of the run no such grant was left. */
  ghost predicate UsedUp(s: State, more: seq<Input>, session: nat, spec: TerminalSpec) {
    exists j :: 0 <= j <= |more| && Unspent(RunFrom(s, more, j).state, session, spec) == 0
  }

  lemma {:induction false} TurnOutlastsGrant(s: State, more: seq<Input>, n: nat, id: nat, session: nat, spec: TerminalSpec)
    requires n <= |more| && Waits(s, id, session)
    ensures Waits(RunFrom(s, more, n).state, id, session) || UsedUp(s, more, session, spec)
  {
    hide Handle, Waits, Unspent;
    if n > 0 {
      TurnOutlastsGrant(s, more, n - 1, id, session, spec);
      if Waits(RunFrom(s, more, n - 1).state, id, session) {
        HandleWaits(RunFrom(s, more, n - 1).state, more[n - 1], id, session, spec);
        assert Unspent(RunFrom(s, more, n).state, session, spec) == 0 ==> UsedUp(s, more, session, spec);
      }
    }
  }

  lemma EarningAddsOne(s: State, k: nat, decision: PermissionDecision, spec: TerminalSpec)
    requires Earns(s, k, decision, spec)
    ensures var given := Encode(s, Permission(k, decision)).state;
            && Unspent(given, s.permissions[k].session, spec) == Unspent(s, s.permissions[k].session, spec) + 1
            && given.pending == s.pending && given.ids == s.ids
  {
    hide ChooseOption;
    var grant := Grant(s.permissions[k].session, spec);
    CountGrows(s.grants, grant, grant);
  }

  /** A grant is scoped to the turn it was given in, that is, in every run to where that turn is over it is spent
      or expired on the way, if and only if its session is in a turn when the answer is encoded. */
  lemma GrantEndsWithItsTurn(s: State, k: nat, decision: PermissionDecision, spec: TerminalSpec)
    requires Sane(s) && Earns(s, k, decision, spec)
    ensures var given, session := Encode(s, Permission(k, decision)).state, s.permissions[k].session;
            (forall more :: TurnsOver(s, RunFrom(given, more, |more|).state, session) ==> UsedUp(given, more, session, spec))
            <==> InTurn(s, session)
  {
    hide Encode, RunFrom, Unspent;
    var given, session := Encode(s, Permission(k, decision)).state, s.permissions[k].session;
    EarningAddsOne(s, k, decision, spec);
    if InTurn(s, session) {
      var id :| id in s.pending && s.pending[id] == Turn(session);
      forall more | TurnsOver(s, RunFrom(given, more, |more|).state, session)
        ensures UsedUp(given, more, session, spec)
      {
        TurnOutlastsGrant(given, more, |more|, id, session, spec);
      }
    } else {
      var none: seq<Input> := [];
      NoRun(given);
      assert TurnsOver(s, RunFrom(given, none, |none|).state, session) && !UsedUp(given, none, session, spec);
    }
  }

  lemma NoRun(s: State)
    ensures RunFrom(s, [], 0) == Effect(s, [], [])
  {
  }

  // ---- a grant given after the turn ----------------------------------------------------------

  /** A grant unspent when its session is prompted again lets a launch of that turn through unasked. */
  lemma GrantReachesNextTurn(s: State, k: nat, decision: PermissionDecision, spec: TerminalSpec,
                             text: string, context: string, id: nat, sessionId: Option<string>, limit: LimitField)
    requires Earns(s, k, decision, spec) && OutputLimit(limit).Ok?
    requires s.ready && WireFrom(s.sessions, s.permissions[k].session, 0).Some?
    requires s.permissions[k].session == Addressed(s.sessions, sessionId) != NO_SESSION
    ensures var given, session := Encode(s, Permission(k, decision)).state, s.permissions[k].session;
            var prompted := Handle(given, Ours(Prompt(session, text, context))).state;
            && Waits(prompted, s.ids + 1, session)
            && Handle(prompted, Theirs(Request(id, sessionId, CreateTerminal(Ok(spec), limit)))).events ==
               [TerminalRequest(session, s.nextId + 1, Create(spec, OutputLimit(limit).value, true))]
  {
    hide ChooseOption, WireFrom, SessionFrom, Addressed, OutputLimit, Blocks, OnResponse, OnError, OnNotification, Drain;
    var grants := Encode(s, Permission(k, decision)).state.grants;
    assert grants[|grants| - 1] == Grant(s.permissions[k].session, spec);
  }

  const LAUNCH := TerminalSpec("make", [], "/", [])
  const NOBODY := Capabilities(false, false, false, false)
  const NOTHING := Fields(None, None, None, NOBODY)

  /** A turn in which a launch is asked for; the turn ends, and only then the human allows; in the next turn the
      agent launches. */
  const LATE: seq<Input> := [
    Start(ClientCapabilities(true, true, true)),
    Theirs(Response(1, NOTHING)),
    Ours(NewSession("/")),
    Theirs(Response(2, Fields(Some("s"), None, None, NOBODY))),
    Ours(Prompt(1, "build", "")),
    Theirs(Request(7, Some("s"), RequestPermission([PermissionOption("yes", "allow_once")], Showing("", [], None), Some(LAUNCH)))),
    Theirs(Response(3, NOTHING)),
    Ours(Permission(1, AllowOnce)),
    Ours(Prompt(1, "test", "")),
    Theirs(Request(8, Some("s"), CreateTerminal(Ok(LAUNCH), Absent)))]

  const ASKED := PendingPermission(7, 1, [PermissionOption("yes", "allow_once")], Some(LAUNCH))
  const NAMED := [SessionName(1, "s")]

  /** The state after the handshake and the new session; once its first turn is over; and as the answer leaves it. */
  const OPENED := State(2, map[], NAMED, map[], map[], map[], [], [], 1, 0, true, [])
  const TURNING := OPENED.(ids := 3, pending := map[3 := Turn(1)], permissions := map[1 := ASKED], nextId := 1)
  const ENDED := TURNING.(pending := map[])
  const GIVEN := ENDED.(permissions := map[], grants := [Grant(1, LAUNCH)])
  const AGAIN := GIVEN.(ids := 4, pending := map[4 := Turn(1)])

  lemma LateOpens()
    ensures After(LATE, 4) == OPENED
  {
    assert Handle(START, LATE[0]).state == START.(ids := 1, pending := map[1 := Initialize]);
    assert After(LATE, 0) == START;
    assert After(LATE, 1) == START.(ids := 1, pending := map[1 := Initialize]);
    var ready := START.(ids := 1, ready := true);
    assert map[1 := Initialize] - {1} == map[];
    assert After(LATE, 2) == ready;
    assert After(LATE, 3) == ready.(ids := 2, pending := map[2 := Opening]);
    assert map[2 := Opening] - {2} == map[];
  }

  lemma LateTurns()
    ensures After(LATE, 6) == TURNING
  {
    hide After, Unexpired;
    LateOpens();
    OneMore(LATE, 4);
    OneMore(LATE, 5);
  }

  lemma LateEnds()
    ensures Handle(TURNING, LATE[6]) == Effect(ENDED, [TurnEnded(1, EndTurn)], [])
  {
    assert map[3 := Turn(1)] - {3} == map[];
  }

  lemma LateAnswers()
    ensures Handle(ENDED, LATE[7]).state == GIVEN && Handle(GIVEN, LATE[8]).state == AGAIN
    ensures Unspent(GIVEN, 1, LAUNCH) == 1
  {
    assert map[1 := ASKED] - {1} == map[];
    assert Count(GIVEN.grants, Grant(1, LAUNCH), 0) == 0;
  }

  lemma LateLaunches()
    ensures Handle(AGAIN, LATE[9]).events == [TerminalRequest(1, 2, Create(LAUNCH, DEFAULT_OUTPUT_LIMIT, true))]
  {
    assert GrantFrom(AGAIN.grants, Grant(1, LAUNCH), 0) == Some(0);
  }

  /** The answer is given in no turn, and the launch of another turn goes through unasked. */
  lemma LateAnswerReachesNextTurn()
    ensures Handle(After(LATE, 6), LATE[6]).events == [TurnEnded(1, EndTurn)]
    ensures !InTurn(After(LATE, 7), 1) && Unspent(After(LATE, 8), 1, LAUNCH) == 1
    ensures Waits(After(LATE, 9), 4, 1)
    ensures Handle(After(LATE, 9), LATE[9]).events == [TerminalRequest(1, 2, Create(LAUNCH, DEFAULT_OUTPUT_LIMIT, true))]
  {
    hide After, Handle, Count;
    LateTurns();
    LateEnds();
    LateAnswers();
    LateLaunches();
    OneMore(LATE, 6);
    OneMore(LATE, 7);
    OneMore(LATE, 8);
  }
}
