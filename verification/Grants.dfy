/** One-shot terminal grants: a launch passes unasked only on an allowance given since its session's last expiry. */
module Grants {
  import opened Options
  import opened Agents
  import opened Translations
  import opened Exchanges

  // ---- what the log says ---------------------------------------------------------------------

  datatype Question = Question(session: nat, spec: Option<TerminalSpec>)

  /** The permission prompt this moment raised under id `k`. */
  predicate Asks(moment: Moment, k: nat) {
    moment.Hearing? && moment.events != [] && moment.events[0].PermissionRequested? && moment.events[0].permission == k
  }

  /** What prompt `k` was about. */
  function Asked(log: seq<Moment>, k: nat): Option<Question> {
    if log == [] then None
    else
      var last := log[|log| - 1];
      if Asks(last, k) then Some(Question(last.events[0].session, last.events[0].spec)) else Asked(log[..|log| - 1], k)
  }

  /** The human allowed, and an option saying so was selected. */
  predicate Allowing(moment: Moment) {
    && moment.Sending? && moment.request.Permission? && moment.request.decision.Allows()
    && moment.message.Some? && moment.message.value.Reply? && moment.message.value.answer.Selected?
  }

  /** ...for exactly this launch. */
  predicate AllowedAt(log: seq<Moment>, moment: Moment, session: nat, spec: TerminalSpec) {
    Allowing(moment) && Asked(log, moment.request.permission) == Some(Question(session, Some(spec)))
  }

  /** A launch handed on as already authorised. */
  predicate LaunchedAt(moment: Moment, session: nat, spec: TerminalSpec) {
    && moment.Hearing? && moment.events != [] && moment.events[0].TerminalRequest?
    && moment.events[0].session == session && moment.events[0].operation.Create?
    && moment.events[0].operation.spec == spec && moment.events[0].operation.preauthorized
  }

  /** The turn is over for `session`: its prompt was answered, it or its mode change failed, or it was cancelled. */
  predicate ExpiresAt(moment: Moment, session: nat) {
    match moment
    case Greeted(_) => false
    case Sending(request, _) => request == Cancel(session)
    case Hearing(message, events, _) =>
      && events != []
      && if message.ErrorResponse? then events[0].Failed? && events[0].session == session
         else events[0].TurnEnded? && events[0].session == session
  }

  /** Allowances for this launch since the session's last expiry. */
  function Allowances(log: seq<Moment>, session: nat, spec: TerminalSpec): nat {
    if log == [] then 0
    else
      var before, last := log[..|log| - 1], log[|log| - 1];
      if ExpiresAt(last, session) then 0
      else Allowances(before, session, spec) + if AllowedAt(before, last, session, spec) then 1 else 0
  }

  /** Launches let through since the session's last expiry. */
  function Launches(log: seq<Moment>, session: nat, spec: TerminalSpec): nat {
    if log == [] then 0
    else
      var before, last := log[..|log| - 1], log[|log| - 1];
      if ExpiresAt(last, session) then 0
      else Launches(before, session, spec) + if LaunchedAt(last, session, spec) then 1 else 0
  }

  lemma AskedGrows(log: seq<Moment>, moment: Moment, k: nat)
    ensures Asked(log + [moment], k) ==
            if Asks(moment, k) then Some(Question(moment.events[0].session, moment.events[0].spec)) else Asked(log, k)
  {
    Grown(log, moment);
  }

  lemma LedgerGrows(log: seq<Moment>, moment: Moment, session: nat, spec: TerminalSpec)
    ensures Allowances(log + [moment], session, spec) ==
            if ExpiresAt(moment, session) then 0
            else Allowances(log, session, spec) + if AllowedAt(log, moment, session, spec) then 1 else 0
    ensures Launches(log + [moment], session, spec) ==
            if ExpiresAt(moment, session) then 0
            else Launches(log, session, spec) + if LaunchedAt(moment, session, spec) then 1 else 0
  {
    hide ExpiresAt, AllowedAt, LaunchedAt;
    Grown(log, moment);
  }

  // ---- counting grants -----------------------------------------------------------------------

  function Count(grants: seq<Grant>, grant: Grant, n: nat): nat
    requires n <= |grants|
  {
    if n == 0 then 0 else Count(grants, grant, n - 1) + if grants[n - 1] == grant then 1 else 0
  }

  lemma {:induction false} CountAgrees(grants: seq<Grant>, more: seq<Grant>, grant: Grant, n: nat)
    requires n <= |grants|
    ensures Count(grants + more, grant, n) == Count(grants, grant, n)
  {
    if n > 0 {
      CountAgrees(grants, more, grant, n - 1);
    }
  }

  lemma CountGrows(grants: seq<Grant>, last: Grant, grant: Grant)
    ensures Count(grants + [last], grant, |grants| + 1) ==
            Count(grants, grant, |grants|) + if last == grant then 1 else 0
  {
    CountAgrees(grants, [last], grant, |grants|);
  }

  lemma {:induction false} CountUnexpired(grants: seq<Grant>, session: nat, grant: Grant, n: nat)
    requires n <= |grants|
    ensures var left := Unexpired(grants, session, n);
            Count(left, grant, |left|) == if grant.session == session then 0 else Count(grants, grant, n)
  {
    if n > 0 {
      CountUnexpired(grants, session, grant, n - 1);
      CountGrows(Unexpired(grants, session, n - 1), grants[n - 1], grant);
    }
  }

  lemma {:induction false} CountSkips(grants: seq<Grant>, at: nat, grant: Grant, n: nat)
    requires at < n <= |grants|
    ensures Count(Without(grants, Some(at)), grant, n - 1) ==
            Count(grants, grant, n) - if grants[at] == grant then 1 else 0
  {
    var left := Without(grants, Some(at));
    if n == at + 1 {
      CountPrefix(left, grants, grant, at);
    } else {
      CountSkips(grants, at, grant, n - 1);
      assert left[n - 2] == grants[n - 1];
    }
  }

  lemma {:induction false} CountPrefix(left: seq<Grant>, grants: seq<Grant>, grant: Grant, n: nat)
    requires n <= |left| && n <= |grants| && forall i :: 0 <= i < n ==> left[i] == grants[i]
    ensures Count(left, grant, n) == Count(grants, grant, n)
  {
    if n > 0 {
      CountPrefix(left, grants, grant, n - 1);
    }
  }

  lemma {:induction false} CountPositive(grants: seq<Grant>, grant: Grant, n: nat)
    requires n <= |grants|
    ensures Count(grants, grant, n) > 0 <==> exists i :: 0 <= i < n && grants[i] == grant
  {
    if n > 0 {
      CountPositive(grants, grant, n - 1);
    }
  }

  function Unspent(s: State, session: nat, spec: TerminalSpec): nat {
    Count(s.grants, Grant(session, spec), |s.grants|)
  }

  // ---- the ledger over a run -----------------------------------------------------------------

  /** Prompts still open are remembered as they were raised. */
  ghost predicate Remembers(x: Exchange) {
    forall k :: k in x.state.permissions ==>
      Asked(x.log, k) == Some(Question(x.state.permissions[k].session, x.state.permissions[k].spec))
  }

  predicate Balanced(x: Exchange, session: nat, spec: TerminalSpec) {
    Allowances(x.log, session, spec) == Launches(x.log, session, spec) + Unspent(x.state, session, spec)
  }

  /** What is left of a grant after a step that showed `moment`. */
  predicate Spends(s: State, t: State, moment: Moment, session: nat, spec: TerminalSpec) {
    Unspent(t, session, spec) ==
    if ExpiresAt(moment, session) then 0
    else Unspent(s, session, spec) - if LaunchedAt(moment, session, spec) then 1 else 0
  }

  lemma ExpiringLeavesNone(s: State, owner: nat, session: nat, spec: TerminalSpec)
    ensures Unspent(Expire(s, owner), session, spec) == if owner == session then 0 else Unspent(s, session, spec)
  {
    CountUnexpired(s.grants, owner, Grant(session, spec), |s.grants|);
  }

  lemma ErrorSpends(s: State, id: nat, text: string, session: nat, spec: TerminalSpec)
    ensures var heard := OnError(s, id, text);
            Spends(s, heard.state, Hearing(ErrorResponse(id, text), heard.events, heard.messages), session, spec)
  {
    hide Ended, Unspent;
    SameGrants(s, s.(pending := s.pending - {id}), session, spec);
    ExpiringLeavesNone(s.(pending := s.pending - {id}), Ended(s, id), session, spec);
  }

  lemma SameGrants(s: State, t: State, session: nat, spec: TerminalSpec)
    requires s.grants == t.grants
    ensures Unspent(s, session, spec) == Unspent(t, session, spec)
  {
  }

  lemma ResponseSpends(s: State, id: nat, result: Fields, session: nat, spec: TerminalSpec)
    ensures var heard := OnResponse(s, id, result);
            Spends(s, heard.state, Hearing(Response(id, result), heard.events, heard.messages), session, spec)
  {
    hide Expire, Unspent, Translations.ReasonOf;
    var heard := OnResponse(s, id, result);
    if id in s.pending && s.pending[id].Turn? {
      var t := s.(pending := s.pending - {id});
      SameGrants(s, t, session, spec);
      ExpiringLeavesNone(t, s.pending[id].session, session, spec);
    } else {
      SameGrants(s, heard.state, session, spec);
    }
  }

  lemma {:induction false} ToolEventsKind(terminals: seq<Binding>, session: nat, contents: seq<ToolContent>,
                                          next: nat, n: nat)
    requires n <= |contents|
    ensures forall e :: e in ToolEvents(terminals, session, contents, next, n).0 ==>
              e.ProposedEdit? || e.TerminalAttached?
  {
    hide BindingFrom;
    if n > 0 {
      ToolEventsKind(terminals, session, contents, next, n - 1);
    }
  }

  lemma UpdateSpends(s: State, about: nat, update: Update)
    ensures var heard := OnUpdate(s, about, update);
            heard.state.grants == s.grants && heard.state.permissions == s.permissions
    ensures forall e :: e in OnUpdate(s, about, update).events ==>
              !e.PermissionRequested? && !e.TerminalRequest? && !e.TurnEnded? && !e.Failed?
  {
    hide ToolEvents;
    if update.ToolCall? && update.contents.Some? {
      ToolEventsKind(s.terminals, about, update.contents.value, s.nextId, |update.contents.value|);
    }
  }

  lemma NotificationSpends(s: State, name: string, sessionId: Option<string>, update: Option<Update>)
    ensures var heard := OnNotification(s, name, sessionId, update);
            heard.state.grants == s.grants && heard.state.permissions == s.permissions
    ensures forall e :: e in OnNotification(s, name, sessionId, update).events ==>
              !e.PermissionRequested? && !e.TerminalRequest? && !e.TurnEnded? && !e.Failed?
  {
    hide OnUpdate, SessionFrom;
    if sessionId.Some? && update.Some? && SessionFrom(s.sessions, sessionId.value, 0).Some? {
      UpdateSpends(s, SessionFrom(s.sessions, sessionId.value, 0).value, update.value);
    }
  }

  lemma LaunchSpends(s: State, id: nat, owner: nat, wanted: TerminalSpec, limit: nat, session: nat, spec: TerminalSpec)
    ensures var heard := Launch(s, id, owner, wanted, limit);
            Unspent(heard.state, session, spec) ==
            Unspent(s, session, spec) -
            if owner == session && wanted == spec && heard.events[0].operation.preauthorized then 1 else 0
  {
    var at := GrantFrom(s.grants, Grant(owner, wanted), 0);
    if at.Some? {
      CountSkips(s.grants, at.value, Grant(session, spec), |s.grants|);
    }
  }

  lemma RequestSpends(s: State, id: nat, sessionId: Option<string>, call: AgentCall, session: nat, spec: TerminalSpec)
    ensures var heard := Hear(s, Request(id, sessionId, call));
            Spends(s, heard.state, Hearing(Request(id, sessionId, call), heard.events, heard.messages), session, spec)
  {
    hide Unspent, GrantFrom, Without, LiveTerminal, OutputLimit, Addressed, TerminalUse.Method, TerminalUse.On,
         OnResponse, OnError, OnNotification;
    var owner := Addressed(s.sessions, sessionId);
    var heard := OnRequest(s, id, owner, call);
    if call.CreateTerminal? && owner != NO_SESSION && call.wanted.Ok? && OutputLimit(call.limit).Ok? {
      LaunchSpends(s, id, owner, call.wanted.value, OutputLimit(call.limit).value, session, spec);
    } else {
      UseIsNoLaunch(s, id, owner, call);
      SameGrants(s, heard.state, session, spec);
    }
  }

  lemma UseIsNoLaunch(s: State, id: nat, owner: nat, call: AgentCall)
    requires call.CreateTerminal? ==> owner == NO_SESSION || call.wanted.Err? || OutputLimit(call.limit).Err?
    ensures var heard := OnRequest(s, id, owner, call);
            heard.state.grants == s.grants && forall e :: e in heard.events ==>
              !e.TurnEnded? && !e.Failed? && (e.TerminalRequest? ==> !e.operation.Create?)
  {
    hide LiveTerminal, Launch, OutputLimit;
  }

  lemma HearSpends(s: State, message: Received, session: nat, spec: TerminalSpec)
    ensures var heard := Hear(s, message);
            Spends(s, heard.state, Hearing(message, heard.events, heard.messages), session, spec)
  {
    hide Unspent, OnResponse, OnError, OnRequest, OnNotification, Addressed;
    match message {
      case Response(id, result) => ResponseSpends(s, id, result, session, spec);
      case ErrorResponse(id, text) => ErrorSpends(s, id, text, session, spec);
      case Notification(name, sessionId, update) =>
        NotificationSpends(s, name, sessionId, update);
        SameGrants(s, Hear(s, message).state, session, spec);
      case Request(id, sessionId, call) => RequestSpends(s, id, sessionId, call, session, spec);
    }
  }

  // ---- prompts are remembered ----------------------------------------------------------------

  /** Prompts open after a step were open before it or are the one it raised. */
  predicate PromptsGrow(s: State, t: State, moment: Moment) {
    forall k :: k in t.permissions ==>
      if Asks(moment, k)
      then moment.events[0].session == t.permissions[k].session && moment.events[0].spec == t.permissions[k].spec
      else k in s.permissions && s.permissions[k] == t.permissions[k]
  }

  lemma OtherCallsRaiseNoPrompt(s: State, id: nat, session: nat, call: AgentCall)
    requires !call.RequestPermission?
    ensures var heard := OnRequest(s, id, session, call);
            heard.state.permissions == s.permissions && forall e :: e in heard.events ==> !e.PermissionRequested?
  {
    hide LiveTerminal, GrantFrom, OutputLimit, TerminalUse.Method, TerminalUse.On, Without;
  }

  lemma RequestRemembers(s: State, message: Received, session: nat)
    requires message.Request?
    ensures var heard := OnRequest(s, message.id, session, message.call);
            PromptsGrow(s, heard.state, Hearing(message, heard.events, heard.messages))
  {
    hide Launch, OnTerminalUse, OutputLimit;
    if !message.call.RequestPermission? {
      OtherCallsRaiseNoPrompt(s, message.id, session, message.call);
    }
  }

  lemma OthersRaiseNoPrompt(s: State, message: Received)
    requires !message.Request?
    ensures var heard := Hear(s, message);
            heard.state.permissions == s.permissions && forall e :: e in heard.events ==> !e.PermissionRequested?
  {
    hide Unexpired, Ended, Translations.ReasonOf, OnNotification, OnRequest;
    if message.Notification? {
      NotificationSpends(s, message.name, message.sessionId, message.update);
    }
  }

  lemma HearRemembers(s: State, message: Received)
    ensures var heard := Hear(s, message);
            PromptsGrow(s, heard.state, Hearing(message, heard.events, heard.messages))
  {
    hide OnResponse, OnError, OnRequest, OnNotification, Addressed;
    if message.Request? {
      RequestRemembers(s, message, Addressed(s.sessions, message.sessionId));
    } else {
      OthersRaiseNoPrompt(s, message);
    }
  }

  lemma EncodeForgets(s: State, request: AgentRequest)
    ensures var t := Encode(s, request).state;
            forall k :: k in t.permissions ==> k in s.permissions && s.permissions[k] == t.permissions[k]
  {
    hide WireFrom, Unexpired, ChooseOption, TerminalAnswer;
  }

  lemma RemembersStep(x: Exchange, act: Act)
    requires Remembers(x)
    ensures Remembers(Perform(x, act))
  {
    hide Hear, Encode, Open, Hold;
    match act {
      case Greets(capabilities) =>
        var hello := Open(x.state, capabilities);
        OpenKeepsTables(x.state, capabilities);
        forall k { AskedGrows(x.log, Greeted(hello.message), k); }
      case Holds(request) =>
        HoldKeepsTables(x.state, request);
      case Sends(request) =>
        EncodeForgets(x.state, request);
        forall k { AskedGrows(x.log, Sending(request, Encode(x.state, request).message), k); }
      case Hears(message) =>
        var heard := Hear(x.state, message);
        HearRemembers(x.state, message);
        forall k { AskedGrows(x.log, Hearing(message, heard.events, heard.messages), k); }
    }
  }

  lemma OpenKeepsTables(s: State, capabilities: ClientCapabilities)
    ensures var t := Open(s, capabilities).state; t.permissions == s.permissions && t.grants == s.grants
  {
  }

  lemma HoldKeepsTables(s: State, request: AgentRequest)
    ensures var t := Hold(s, request); t.permissions == s.permissions && t.grants == s.grants
  {
  }

  // ---- the ledger ----------------------------------------------------------------------------

  /** What one encoded request does to the grants. */
  lemma EncodeEarns(x: Exchange, request: AgentRequest, session: nat, spec: TerminalSpec)
    requires Remembers(x)
    ensures var sent := Encode(x.state, request);
            var moment := Sending(request, sent.message);
            Unspent(sent.state, session, spec) ==
            if ExpiresAt(moment, session) then 0
            else Unspent(x.state, session, spec) + if AllowedAt(x.log, moment, session, spec) then 1 else 0
  {
    hide WireFrom, Unspent, ChooseOption, TerminalAnswer, Asked, Expire;
    var s := x.state;
    var sent := Encode(s, request);
    match request {
      case Cancel(owner) => ExpiringLeavesNone(s, owner, session, spec);
      case Permission(permission, decision) => AllowanceEarns(x, permission, decision, session, spec);
      case _ => SameGrants(s, sent.state, session, spec);
    }
  }

  lemma AllowanceEarns(x: Exchange, permission: nat, decision: PermissionDecision, session: nat, spec: TerminalSpec)
    requires Remembers(x)
    ensures var sent := EncodePermission(x.state, permission, decision);
            var moment := Sending(Permission(permission, decision), sent.message);
            Unspent(sent.state, session, spec) ==
            Unspent(x.state, session, spec) + if AllowedAt(x.log, moment, session, spec) then 1 else 0
  {
    hide ChooseOption, Asked, Count;
    var s := x.state;
    if permission in s.permissions {
      var asked := s.permissions[permission];
      if asked.spec.Some? {
        CountGrows(s.grants, Grant(asked.session, asked.spec.value), Grant(session, spec));
      }
    }
  }

  lemma BalancedStep(x: Exchange, act: Act, session: nat, spec: TerminalSpec)
    requires Remembers(x) && Balanced(x, session, spec)
    ensures Balanced(Perform(x, act), session, spec)
  {
    hide Hear, Encode, Open, Hold, Unspent, Allowances, Launches, Remembers;
    match act {
      case Greets(capabilities) =>
        var hello := Open(x.state, capabilities);
        OpenKeepsTables(x.state, capabilities);
        SameGrants(x.state, hello.state, session, spec);
        LedgerGrows(x.log, Greeted(hello.message), session, spec);
      case Holds(request) =>
        HoldKeepsTables(x.state, request);
        SameGrants(x.state, Hold(x.state, request), session, spec);
      case Sends(request) =>
        EncodeEarns(x, request, session, spec);
        LedgerGrows(x.log, Sending(request, Encode(x.state, request).message), session, spec);
      case Hears(message) =>
        var heard := Hear(x.state, message);
        HearSpends(x.state, message, session, spec);
        LedgerGrows(x.log, Hearing(message, heard.events, heard.messages), session, spec);
    }
  }

  lemma NothingGranted(session: nat, spec: TerminalSpec)
    ensures Remembers(NOTHING_YET) && Balanced(NOTHING_YET, session, spec)
  {
  }

  lemma {:induction false} PlayIsBalanced(acts: seq<Act>, n: nat, session: nat, spec: TerminalSpec)
    requires n <= |acts|
    ensures Remembers(Play(acts, n)) && Balanced(Play(acts, n), session, spec)
  {
    hide Remembers, Balanced, Perform;
    if n == 0 {
      NothingGranted(session, spec);
    } else {
      PlayIsBalanced(acts, n - 1, session, spec);
      RemembersStep(Play(acts, n - 1), acts[n - 1]);
      BalancedStep(Play(acts, n - 1), acts[n - 1], session, spec);
    }
  }

  /** Over every run, for every session and exact launch: since the session's last expiry, the launches let
      through and the grants still unspent are together the allowances given, so never more than those. */
  lemma GrantsAreSpentOnce(inputs: seq<Input>, n: nat, session: nat, spec: TerminalSpec)
    requires n <= |inputs|
    ensures var log := History(inputs, n).log;
            Launches(log, session, spec) + Unspent(After(inputs, n), session, spec) == Allowances(log, session, spec)
  {
    hide Remembers, Unspent, Launches, Allowances, After, Play;
    var acts := ActsTo(inputs, n);
    PlayIsBalanced(acts, |acts|, session, spec);
    RunIsPlayed(inputs, n);
  }

  /** A well-formed launch for a known session is let through unasked exactly when an allowance for it is left. */
  lemma LaunchIsPreauthorizedExactly(inputs: seq<Input>, n: nat, id: nat, sessionId: Option<string>,
                                     spec: TerminalSpec, limit: LimitField)
    requires n <= |inputs|
    requires Addressed(After(inputs, n).sessions, sessionId) != NO_SESSION && OutputLimit(limit).Ok?
    ensures var session := Addressed(After(inputs, n).sessions, sessionId);
            var log := History(inputs, n).log;
            var events := Incoming(After(inputs, n), Request(id, sessionId, CreateTerminal(Ok(spec), limit))).events;
            |events| == 1 && events[0].TerminalRequest? && events[0].session == session &&
            events[0].operation == Create(spec, OutputLimit(limit).value,
                                          Launches(log, session, spec) < Allowances(log, session, spec))
  {
    hide Launches, Allowances, After, History, Addressed, OutputLimit, OnResponse, OnError, OnNotification, Drain;
    var s := After(inputs, n);
    var session := Addressed(s.sessions, sessionId);
    GrantsAreSpentOnce(inputs, n, session, spec);
    CountPositive(s.grants, Grant(session, spec), |s.grants|);
  }
}
