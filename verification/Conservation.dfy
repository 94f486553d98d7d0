/** Every call the agent makes is answered once or still held: none is dropped, none answered twice. */
module Conservation {
  import opened Options
  import opened Agents
  import opened Translations
  import opened Exchanges

  // ---- what the tables may hold --------------------------------------------------------------

  /** Ids in the tables were handed out, and sessions are numbered from one. */
  ghost predicate Sane(s: State) {
    && (forall k :: k in s.fileReads ==> 1 <= k <= s.nextId)
    && (forall k :: k in s.permissions ==> 1 <= k <= s.nextId)
    && (forall k :: k in s.rpcs ==> 1 <= k <= s.nextId)
    && (forall k :: k in s.pending ==> 1 <= k <= s.ids)
    && s.nextSession == |s.sessions|
    && (forall i :: 0 <= i < |s.sessions| ==> s.sessions[i].session == i + 1)
  }

  lemma OpenIsSane(s: State, capabilities: ClientCapabilities)
    requires Sane(s)
    ensures Sane(Open(s, capabilities).state)
  {
  }

  lemma AskIsSane(s: State, pending: Pending, call: ClientCall)
    requires Sane(s)
    ensures Sane(Ask(s, pending, call).state)
  {
  }

  lemma PermissionIsSane(s: State, permission: nat, decision: PermissionDecision)
    requires Sane(s)
    ensures Sane(EncodePermission(s, permission, decision).state)
  {
    hide ChooseOption;
  }

  lemma TerminalIsSane(s: State, rpc: nat, response: TerminalResponse)
    requires Sane(s)
    ensures Sane(EncodeTerminal(s, rpc, response).state)
  {
    hide TerminalAnswer;
  }

  lemma ReadIsSane(s: State, read: nat, path: string, contents: Option<string>, permission: nat)
    requires Sane(s)
    ensures Sane(EncodeRead(s, read, path, contents).state) && Sane(EncodeCancelled(s, permission).state)
  {
  }

  lemma ExpireIsSane(s: State, session: nat)
    requires Sane(s)
    ensures Sane(Expire(s, session))
  {
    hide Unexpired;
  }

  lemma EncodeIsSane(s: State, request: AgentRequest)
    requires Sane(s)
    ensures Sane(Encode(s, request).state)
  {
    hide Sane, WireFrom, Expire, Ask, EncodeRead, EncodePermission, EncodeCancelled, EncodeTerminal, Blocks;
    match request {
      case FileContents(read, path, contents) => ReadIsSane(s, read, path, contents, 0);
      case Permission(permission, decision) => PermissionIsSane(s, permission, decision);
      case PermissionCancelled(permission) => ReadIsSane(s, 0, "", None, permission);
      case TerminalReply(rpc, response) => TerminalIsSane(s, rpc, response);
      case Cancel(session) => ExpireIsSane(s, session);
      case _ => forall pending, call { AskIsSane(s, pending, call); }
    }
  }

  lemma {:induction false} ToolEventsCountUp(terminals: seq<Binding>, session: nat, contents: seq<ToolContent>,
                                             next: nat, n: nat)
    requires n <= |contents|
    ensures ToolEvents(terminals, session, contents, next, n).1 >= next
  {
    hide BindingFrom;
    if n > 0 {
      ToolEventsCountUp(terminals, session, contents, next, n - 1);
    }
  }

  lemma UpdateIsSane(s: State, session: nat, update: Update)
    requires Sane(s)
    ensures Sane(OnUpdate(s, session, update).state)
  {
    hide ToolEvents;
    if update.ToolCall? && update.contents.Some? {
      ToolEventsCountUp(s.terminals, session, update.contents.value, s.nextId, |update.contents.value|);
    }
  }

  lemma RequestIsSane(s: State, id: nat, session: nat, call: AgentCall)
    requires Sane(s)
    ensures Sane(OnRequest(s, id, session, call).state)
  {
    hide LiveTerminal, GrantFrom, Without;
  }

  lemma SessionIsSane(s: State, pending: map<nat, Pending>, wire: string)
    requires Sane(s) && forall k :: k in pending ==> k in s.pending
    ensures Sane(s.(pending := pending, nextSession := s.nextSession + 1,
                    sessions := s.sessions + [SessionName(s.nextSession + 1, wire)]))
    ensures forall ready, queued :: Sane(s.(pending := pending, ready := ready, queued := queued))
    ensures Sane(s.(pending := pending))
  {
  }

  lemma ResponseIsSane(s: State, id: nat, result: Fields)
    requires Sane(s)
    ensures Sane(OnResponse(s, id, result).state)
  {
    hide Sane, Expire, Translations.ReasonOf;
    SessionIsSane(s, s.pending - {id}, if result.sessionId.Some? then result.sessionId.value else "");
    forall session { ExpireAfterIsSane(s, id, session); }
  }

  lemma ExpireAfterIsSane(s: State, id: nat, session: nat)
    requires Sane(s)
    ensures Sane(Expire(s.(pending := s.pending - {id}), session))
  {
    hide Unexpired;
  }

  lemma HearIsSane(s: State, message: Received)
    requires Sane(s)
    ensures Sane(Hear(s, message).state)
  {
    hide OnResponse, OnRequest, OnUpdate, SessionFrom, Unexpired, Ended, Addressed, Sane;
    match message {
      case Response(id, result) => ResponseIsSane(s, id, result);
      case ErrorResponse(id, text) => ErrorIsSane(s, id, text);
      case Notification(name, sessionId, update) =>
        if update.Some? && sessionId.Some? && SessionFrom(s.sessions, sessionId.value, 0).Some? {
          UpdateIsSane(s, SessionFrom(s.sessions, sessionId.value, 0).value, update.value);
        }
      case Request(id, sessionId, call) => RequestIsSane(s, id, Addressed(s.sessions, sessionId), call);
    }
  }

  lemma ErrorIsSane(s: State, id: nat, text: string)
    requires Sane(s)
    ensures Sane(OnError(s, id, text).state)
  {
    hide Unexpired, Ended;
  }

  lemma StartIsSane()
    ensures Sane(START)
  {
  }

  lemma HoldIsSane(s: State, request: AgentRequest)
    requires Sane(s)
    ensures Sane(Hold(s, request))
  {
  }

  // ---- the account ---------------------------------------------------------------------------

  ghost function ReadSlot(fileReads: map<nat, nat>, k: nat): multiset<nat> {
    if k in fileReads then multiset{fileReads[k]} else multiset{}
  }

  ghost function PermissionSlot(permissions: map<nat, PendingPermission>, k: nat): multiset<nat> {
    if k in permissions then multiset{permissions[k].wire} else multiset{}
  }

  ghost function RpcSlot(rpcs: map<nat, PendingRpc>, k: nat): multiset<nat> {
    if k in rpcs then multiset{rpcs[k].wire} else multiset{}
  }

  /** The wire id held under our id `k`: in at most one table, since one counter serves them all. */
  ghost function HeldAt(s: State, k: nat): multiset<nat> {
    ReadSlot(s.fileReads, k) + PermissionSlot(s.permissions, k) + RpcSlot(s.rpcs, k)
  }

  ghost function HeldTo(s: State, n: nat): multiset<nat> {
    if n == 0 then multiset{} else HeldTo(s, n - 1) + HeldAt(s, n)
  }

  /** The calls not answered yet. */
  ghost function HeldIds(s: State): multiset<nat> { HeldTo(s, s.nextId) }

  ghost function AnswerOf(message: Sent): multiset<nat> {
    if message.Reply? || message.Refused? then multiset{message.id} else multiset{}
  }

  /** The calls these messages answer. */
  ghost function AnswerIds(messages: seq<Sent>): multiset<nat> {
    if messages == [] then multiset{} else AnswerIds(messages[..|messages| - 1]) + AnswerOf(messages[|messages| - 1])
  }

  ghost function CallOf(message: Received): multiset<nat> {
    if message.Request? then multiset{message.id} else multiset{}
  }

  /** The calls heard during the first `n` inputs. */
  ghost function CallIds(inputs: seq<Input>, n: nat): multiset<nat>
    requires n <= |inputs|
  {
    if n == 0 then multiset{}
    else CallIds(inputs, n - 1) + CallIn(inputs[n - 1])
  }

  lemma {:induction false} HeldSame(s: State, t: State, n: nat)
    requires forall k :: 1 <= k <= n ==> HeldAt(s, k) == HeldAt(t, k)
    ensures HeldTo(s, n) == HeldTo(t, n)
  {
    hide HeldAt;
    if n > 0 {
      HeldSame(s, t, n - 1);
    }
  }

  /** One table entry gone, one call fewer held. */
  lemma {:induction false} HeldLess(s: State, t: State, k: nat, wire: nat, n: nat)
    requires 1 <= k <= n
    requires forall j :: 1 <= j <= n && j != k ==> HeldAt(s, j) == HeldAt(t, j)
    requires HeldAt(s, k) == HeldAt(t, k) + multiset{wire}
    ensures HeldTo(s, n) == HeldTo(t, n) + multiset{wire}
  {
    hide HeldAt;
    if k == n {
      HeldSame(s, t, n - 1);
    } else {
      HeldLess(s, t, k, wire, n - 1);
    }
  }

  /** Nothing is held under ids not handed out. */
  lemma {:induction false} HeldBeyond(s: State, n: nat)
    requires Sane(s)
    requires n >= s.nextId
    ensures HeldTo(s, n) == HeldIds(s)
  {
    if n > s.nextId {
      HeldBeyond(s, n - 1);
      assert HeldAt(s, n) == multiset{};
    }
  }

  /** A step that answered `messages` and heard `calls`. */
  ghost predicate Balances(s: State, t: State, calls: multiset<nat>, messages: seq<Sent>) {
    HeldIds(s) + calls == HeldIds(t) + AnswerIds(messages)
  }

  /** The tables and the counter are as they were. */
  predicate SameTables(s: State, t: State) {
    s.fileReads == t.fileReads && s.permissions == t.permissions && s.rpcs == t.rpcs
  }

  lemma Untouched(s: State, t: State)
    requires Sane(s) && SameTables(s, t) && s.nextId <= t.nextId
    ensures HeldIds(t) == HeldIds(s)
  {
    HeldBeyond(s, t.nextId);
    HeldSame(s, t, t.nextId);
  }

  lemma OneAnswer(message: Sent)
    ensures AnswerIds([message]) == AnswerOf(message)
    ensures AnswerIds([]) == multiset{}
  {
    assert [message][..0] == [];
  }

  lemma BalanceNothing(s: State, t: State, message: Option<Sent>)
    requires Sane(s) && SameTables(s, t) && s.nextId <= t.nextId
    requires message.Some? ==> AnswerOf(message.value) == multiset{}
    ensures Balances(s, t, multiset{}, AsSeq(message))
  {
    hide Sane, HeldTo;
    Untouched(s, t);
    if message.Some? {
      OneAnswer(message.value);
    }
  }

  lemma SlotLess(a: multiset<nat>, b: multiset<nat>, c: multiset<nat>, wire: nat)
    ensures multiset{wire} + b + c == multiset{} + b + c + multiset{wire}
    ensures a + multiset{wire} + c == a + multiset{} + c + multiset{wire}
    ensures a + b + multiset{wire} == a + b + multiset{} + multiset{wire}
  {
  }

  /** The tables differ only at `k`. */
  ghost predicate SameBut(s: State, t: State, k: nat) {
    forall j :: j != k ==> HeldAt(s, j) == HeldAt(t, j)
  }

  /** Answering the call held under `k`. */
  lemma BalanceAnswer(s: State, t: State, k: nat, message: Sent)
    requires Sane(s) && 1 <= k <= s.nextId == t.nextId
    requires message.Reply? || message.Refused?
    requires SameBut(s, t, k) && HeldAt(s, k) == HeldAt(t, k) + multiset{message.id}
    ensures Balances(s, t, multiset{}, [message])
  {
    hide HeldAt, Sane, HeldTo;
    HeldLess(s, t, k, message.id, s.nextId);
    OneAnswer(message);
  }

  lemma ReadAnswered(s: State, t: State, k: nat)
    requires k in s.fileReads
    requires t.fileReads == s.fileReads - {k} && t.permissions == s.permissions && t.rpcs == s.rpcs
    ensures SameBut(s, t, k) && HeldAt(s, k) == HeldAt(t, k) + multiset{s.fileReads[k]}
  {
    hide PermissionSlot, RpcSlot;
    SlotLess(multiset{}, PermissionSlot(s.permissions, k), RpcSlot(s.rpcs, k), s.fileReads[k]);
  }

  lemma PermissionAnswered(s: State, t: State, k: nat)
    requires k in s.permissions
    requires t.fileReads == s.fileReads && t.permissions == s.permissions - {k} && t.rpcs == s.rpcs
    ensures SameBut(s, t, k) && HeldAt(s, k) == HeldAt(t, k) + multiset{s.permissions[k].wire}
  {
    hide ReadSlot, RpcSlot;
    SlotLess(ReadSlot(s.fileReads, k), multiset{}, RpcSlot(s.rpcs, k), s.permissions[k].wire);
  }

  lemma RpcAnswered(s: State, t: State, k: nat)
    requires k in s.rpcs
    requires t.fileReads == s.fileReads && t.permissions == s.permissions && t.rpcs == s.rpcs - {k}
    ensures SameBut(s, t, k) && HeldAt(s, k) == HeldAt(t, k) + multiset{s.rpcs[k].wire}
  {
    hide ReadSlot, PermissionSlot;
    SlotLess(ReadSlot(s.fileReads, k), PermissionSlot(s.permissions, k), multiset{}, s.rpcs[k].wire);
  }

  lemma NoneBeyond(s: State, k: nat)
    requires Sane(s) && k > s.nextId
    ensures HeldAt(s, k) == multiset{}
  {
  }

  lemma SlotMore(a: multiset<nat>, b: multiset<nat>, c: multiset<nat>, wire: nat)
    requires a + b + c == multiset{}
    ensures multiset{wire} + b + c == a + multiset{wire} + c == a + b + multiset{wire} == multiset{wire}
  {
    assert a == b == c == multiset{} by {
      assert forall x :: a[x] + b[x] + c[x] == (a + b + c)[x];
    }
  }

  lemma ReadHeld(s: State, t: State, k: nat, wire: nat)
    requires t.fileReads == s.fileReads[k := wire] && t.permissions == s.permissions && t.rpcs == s.rpcs
    requires HeldAt(s, k) == multiset{}
    ensures SameBut(s, t, k) && HeldAt(t, k) == multiset{wire}
  {
    hide PermissionSlot, RpcSlot;
    SlotMore(ReadSlot(s.fileReads, k), PermissionSlot(s.permissions, k), RpcSlot(s.rpcs, k), wire);
  }

  lemma PermissionHeld(s: State, t: State, k: nat, asked: PendingPermission)
    requires t.fileReads == s.fileReads && t.permissions == s.permissions[k := asked] && t.rpcs == s.rpcs
    requires HeldAt(s, k) == multiset{}
    ensures SameBut(s, t, k) && HeldAt(t, k) == multiset{asked.wire}
  {
    hide ReadSlot, RpcSlot;
    SlotMore(ReadSlot(s.fileReads, k), PermissionSlot(s.permissions, k), RpcSlot(s.rpcs, k), asked.wire);
  }

  lemma RpcHeld(s: State, t: State, k: nat, rpc: PendingRpc)
    requires t.fileReads == s.fileReads && t.permissions == s.permissions && t.rpcs == s.rpcs[k := rpc]
    requires HeldAt(s, k) == multiset{}
    ensures SameBut(s, t, k) && HeldAt(t, k) == multiset{rpc.wire}
  {
    hide ReadSlot, PermissionSlot;
    SlotMore(ReadSlot(s.fileReads, k), PermissionSlot(s.permissions, k), RpcSlot(s.rpcs, k), rpc.wire);
  }

  /** Holding a call under the next id. */
  lemma BalanceHold(s: State, t: State, wire: nat)
    requires t.nextId == s.nextId + 1
    requires SameBut(s, t, t.nextId) && HeldAt(t, t.nextId) == multiset{wire}
    ensures Balances(s, t, multiset{wire}, [])
  {
    hide HeldAt, AnswerOf;
    HeldSame(s, t, s.nextId);
  }

  /** Answering a call at once. */
  lemma BalanceAtOnce(s: State, t: State, message: Sent)
    requires Sane(s) && SameTables(s, t) && s.nextId <= t.nextId
    requires message.Reply? || message.Refused?
    ensures Balances(s, t, multiset{message.id}, [message])
  {
    hide Sane, HeldTo;
    Untouched(s, t);
    OneAnswer(message);
  }

  lemma ReadBalances(s: State, read: nat, path: string, contents: Option<string>)
    requires Sane(s)
    ensures var sent := EncodeRead(s, read, path, contents); Balances(s, sent.state, multiset{}, AsSeq(sent.message))
  {
    hide Balances, HeldAt, SameBut;
    var sent := EncodeRead(s, read, path, contents);
    if read in s.fileReads {
      ReadAnswered(s, sent.state, read);
      BalanceAnswer(s, sent.state, read, sent.message.value);
    } else {
      BalanceNothing(s, s, None);
    }
  }

  lemma PermissionBalances(s: State, permission: nat, decision: PermissionDecision)
    requires Sane(s)
    ensures var sent := EncodePermission(s, permission, decision);
            Balances(s, sent.state, multiset{}, AsSeq(sent.message))
  {
    hide Balances, HeldAt, SameBut, ChooseOption;
    var sent := EncodePermission(s, permission, decision);
    if permission in s.permissions {
      PermissionAnswered(s, sent.state, permission);
      BalanceAnswer(s, sent.state, permission, sent.message.value);
    } else {
      BalanceNothing(s, s, None);
    }
  }

  lemma CancelledBalances(s: State, permission: nat)
    requires Sane(s)
    ensures var sent := EncodeCancelled(s, permission); Balances(s, sent.state, multiset{}, AsSeq(sent.message))
  {
    hide Balances, HeldAt, SameBut;
    var sent := EncodeCancelled(s, permission);
    if permission in s.permissions {
      PermissionAnswered(s, sent.state, permission);
      BalanceAnswer(s, sent.state, permission, sent.message.value);
    } else {
      BalanceNothing(s, s, None);
    }
  }

  lemma TerminalAnswerAnswers(terminals: seq<Binding>, rpc: PendingRpc, response: TerminalResponse)
    ensures var message := TerminalAnswer(terminals, rpc, response).1;
            (message.Reply? || message.Refused?) && message.id == rpc.wire
  {
    hide MarkFrom, WireName;
  }

  lemma TerminalBalances(s: State, rpc: nat, response: TerminalResponse)
    requires Sane(s)
    ensures var sent := EncodeTerminal(s, rpc, response); Balances(s, sent.state, multiset{}, AsSeq(sent.message))
  {
    hide Balances, HeldAt, SameBut, TerminalAnswer;
    var sent := EncodeTerminal(s, rpc, response);
    if rpc in s.rpcs {
      TerminalAnswerAnswers(s.terminals, s.rpcs[rpc], response);
      RpcAnswered(s, sent.state, rpc);
      BalanceAnswer(s, sent.state, rpc, sent.message.value);
    } else {
      BalanceNothing(s, s, None);
    }
  }

  /** Requests that answer no call. */
  lemma OthersAnswerNothing(s: State, request: AgentRequest)
    requires !request.FileContents? && !request.Permission? && !request.PermissionCancelled? && !request.TerminalReply?
    ensures var sent := Encode(s, request);
            SameTables(s, sent.state) && s.nextId == sent.state.nextId &&
            (sent.message.Some? ==> AnswerOf(sent.message.value) == multiset{})
  {
    hide WireFrom, Unexpired, Blocks, EncodeRead, EncodePermission, EncodeCancelled, EncodeTerminal;
  }

  lemma EncodeBalances(s: State, request: AgentRequest)
    requires Sane(s)
    ensures var sent := Encode(s, request); Balances(s, sent.state, multiset{}, AsSeq(sent.message))
  {
    hide EncodeRead, EncodePermission, EncodeCancelled, EncodeTerminal, Balances, Sane, WireFrom, Expire, Ask, AsSeq,
         SameTables, AnswerOf;
    match request {
      case FileContents(read, path, contents) => ReadBalances(s, read, path, contents);
      case Permission(permission, decision) => PermissionBalances(s, permission, decision);
      case PermissionCancelled(permission) => CancelledBalances(s, permission);
      case TerminalReply(rpc, response) => TerminalBalances(s, rpc, response);
      case _ =>
        OthersAnswerNothing(s, request);
        var sent := Encode(s, request);
        BalanceNothing(s, sent.state, sent.message);
    }
  }

  lemma RaiseBalances(s: State, id: nat, session: nat, kind: RpcKind, operation: TerminalOperation)
    requires Sane(s)
    ensures var heard := RaiseTerminal(s, id, session, kind, operation);
            Balances(s, heard.state, multiset{id}, heard.messages)
  {
    hide Balances, HeldAt, SameBut, Sane;
    NoneBeyond(s, s.nextId + 1);
    var heard := RaiseTerminal(s, id, session, kind, operation);
    RpcHeld(s, heard.state, s.nextId + 1, PendingRpc(id, session, kind));
    BalanceHold(s, heard.state, id);
  }

  lemma LaunchBalances(s: State, id: nat, session: nat, spec: TerminalSpec, limit: nat)
    requires Sane(s)
    ensures var heard := Launch(s, id, session, spec, limit);
            Balances(s, heard.state, multiset{id}, heard.messages)
  {
    hide Balances, HeldAt, SameBut, Sane, GrantFrom, Without;
    NoneBeyond(s, s.nextId + 1);
    var heard := Launch(s, id, session, spec, limit);
    RpcHeld(s, heard.state, s.nextId + 1, PendingRpc(id, session, CreateKind));
    BalanceHold(s, heard.state, id);
  }

  lemma InvalidBalances(s: State, id: nat, why: Reason)
    requires Sane(s)
    ensures Balances(s, s, multiset{id}, Invalid(s, id, why).messages)
  {
    hide Balances, Sane;
    BalanceAtOnce(s, s, Refused(id, -32602, why));
  }

  lemma RequestBalances(s: State, id: nat, session: nat, call: AgentCall)
    requires Sane(s)
    ensures var heard := OnRequest(s, id, session, call); Balances(s, heard.state, multiset{id}, heard.messages)
  {
    hide Balances, HeldAt, SameBut, Sane, LiveTerminal, Launch, RaiseTerminal, OutputLimit, TerminalUse.Method,
         TerminalUse.On, Invalid;
    forall why { InvalidBalances(s, id, why); }
    forall why ensures Invalid(s, id, why).state == s {
      InvalidChangesNothing(s, id, why);
    }
    var heard := OnRequest(s, id, session, call);
    match call {
      case ReadTextFile(path) =>
        if path.Some? {
          NoneBeyond(s, s.nextId + 1);
          ReadHeld(s, heard.state, s.nextId + 1, id);
          BalanceHold(s, heard.state, id);
        }
      case RequestPermission(options, showing, spec) =>
        NoneBeyond(s, s.nextId + 1);
        PermissionHeld(s, heard.state, s.nextId + 1, PendingPermission(id, session, options, spec));
        BalanceHold(s, heard.state, id);
      case WriteTextFile(path, content) =>
        if path.Some? && content.Some? {
          BalanceAtOnce(s, heard.state, Reply(id, Accepted));
        }
      case CreateTerminal(wanted, limit) =>
        if wanted.Ok? && OutputLimit(limit).Ok? {
          LaunchBalances(s, id, session, wanted.value, OutputLimit(limit).value);
        }
      case UseTerminal(use, wire) =>
        if wire.Some? && LiveTerminal(s.terminals, wire.value, session).Some? {
          var terminal := LiveTerminal(s.terminals, wire.value, session).value;
          RaiseBalances(s, id, session, UseKind(use, terminal), use.On(terminal));
        }
      case UnknownCall(name) => BalanceAtOnce(s, s, Refused(id, -32601, Unsupported(name)));
    }
  }

  lemma InvalidChangesNothing(s: State, id: nat, why: Reason)
    ensures Invalid(s, id, why).state == s
  {
  }

  predicate QuietOn(s: State, heard: Effect) {
    SameTables(s, heard.state) && s.nextId <= heard.state.nextId && heard.messages == [] && heard.state.ids == s.ids
  }

  lemma ResponseKeepsTables(s: State, id: nat, result: Fields)
    ensures QuietOn(s, OnResponse(s, id, result))
  {
    hide Unexpired, Translations.ReasonOf;
  }

  lemma ErrorKeepsTables(s: State, id: nat, text: string)
    ensures QuietOn(s, OnError(s, id, text))
  {
    hide Unexpired, Ended;
  }

  lemma UpdateKeepsTables(s: State, session: nat, update: Update)
    ensures QuietOn(s, OnUpdate(s, session, update))
  {
    hide ToolEvents;
    if update.ToolCall? && update.contents.Some? {
      ToolEventsCountUp(s.terminals, session, update.contents.value, s.nextId, |update.contents.value|);
    }
  }

  lemma OthersKeepTables(s: State, message: Received)
    requires !message.Request?
    ensures QuietOn(s, Hear(s, message))
  {
    hide OnResponse, OnError, OnRequest, OnUpdate, SessionFrom;
    match message {
      case Response(id, result) => ResponseKeepsTables(s, id, result);
      case ErrorResponse(id, text) => ErrorKeepsTables(s, id, text);
      case Notification(name, sessionId, update) =>
        if update.Some? {
          forall session { UpdateKeepsTables(s, session, update.value); }
        }
    }
  }

  lemma HearBalances(s: State, message: Received)
    requires Sane(s)
    ensures var heard := Hear(s, message); Balances(s, heard.state, CallOf(message), heard.messages)
  {
    hide Balances, Sane, OnRequest, OnResponse, OnError, OnNotification, Addressed, SameTables;
    if message.Request? {
      RequestBalances(s, message.id, Addressed(s.sessions, message.sessionId), message.call);
    } else {
      OthersKeepTables(s, message);
      BalanceNothing(s, Hear(s, message).state, None);
    }
  }

  lemma {:induction false} AnswersAdd(left: seq<Sent>, right: seq<Sent>)
    ensures AnswerIds(left + right) == AnswerIds(left) + AnswerIds(right)
  {
    hide AnswerOf;
    if right == [] {
      assert left + right == left;
    } else {
      AnswersAdd(left, right[..|right| - 1]);
      assert (left + right)[..|left + right| - 1] == left + right[..|right| - 1];
    }
  }

  lemma Summed(s: multiset<nat>, t: multiset<nat>, u: multiset<nat>, calls: multiset<nat>,
               left: multiset<nat>, right: multiset<nat>)
    requires s + calls == t + left && t + multiset{} == u + right
    ensures s + calls == u + (left + right)
  {
    forall x ensures (s + calls)[x] == (u + (left + right))[x] {
      assert (s + calls)[x] == (t + left)[x] && (t + multiset{})[x] == (u + right)[x];
    }
  }

  lemma BalanceBoth(s: State, t: State, u: State, calls: multiset<nat>, left: seq<Sent>, right: seq<Sent>)
    requires Balances(s, t, calls, left) && Balances(t, u, multiset{}, right)
    ensures Balances(s, u, calls, left + right)
  {
    hide HeldIds, AnswerOf;
    AnswersAdd(left, right);
    Summed(HeldIds(s), HeldIds(t), HeldIds(u), calls, AnswerIds(left), AnswerIds(right));
  }

  lemma {:induction false} DrainBalances(s: State, queue: seq<AgentRequest>, n: nat)
    requires Sane(s) && n <= |queue|
    ensures var drained := Drain(s, queue, n);
            Sane(drained.state) && Balances(s, drained.state, multiset{}, drained.messages)
  {
    hide Balances, Sane, Encode;
    if n == 0 {
      BalanceNothing(s, s, None);
    } else {
      DrainBalances(s, queue, n - 1);
      var before := Drain(s, queue, n - 1);
      EncodeIsSane(before.state, queue[n - 1]);
      EncodeBalances(before.state, queue[n - 1]);
      var sent := Encode(before.state, queue[n - 1]);
      BalanceBoth(s, before.state, sent.state, multiset{}, before.messages, AsSeq(sent.message));
    }
  }

  ghost function CallIn(input: Input): multiset<nat> {
    if input.Theirs? then CallOf(input.message) else multiset{}
  }

  lemma HandleBalances(s: State, input: Input)
    requires Sane(s)
    ensures var done := Handle(s, input); Sane(done.state) && Balances(s, done.state, CallIn(input), done.messages)
  {
    hide Balances, Sane, Encode, Hear, Drain, CallOf, OpensUp, Held;
    match input {
      case Start(capabilities) =>
        OpenIsSane(s, capabilities);
        var hello := Open(s, capabilities);
        BalanceNothing(s, hello.state, hello.message);
      case Ours(request) =>
        EncodeIsSane(s, request);
        EncodeBalances(s, request);
        HoldIsSane(s, request);
        BalanceNothing(s, Hold(s, request), None);
      case Theirs(message) =>
        HearIsSane(s, message);
        HearBalances(s, message);
        if OpensUp(s, message) {
          var heard := Hear(s, message);
          DrainBalances(heard.state, s.queued, |s.queued|);
          var drained := Drain(heard.state, s.queued, |s.queued|);
          BalanceBoth(s, heard.state, drained.state, CallIn(input), heard.messages, drained.messages);
        }
    }
  }

  lemma {:induction false} RunIsSane(inputs: seq<Input>, n: nat)
    requires n <= |inputs|
    ensures Sane(After(inputs, n))
  {
    hide Sane, Handle;
    if n == 0 {
      StartIsSane();
    } else {
      RunIsSane(inputs, n - 1);
      HandleBalances(After(inputs, n - 1), inputs[n - 1]);
    }
  }

  /** Over every run: the calls heard are exactly the calls answered and the calls still held. */
  lemma {:induction false} RepliesAreConserved(inputs: seq<Input>, n: nat)
    requires n <= |inputs|
    ensures CallIds(inputs, n) == AnswerIds(Written(inputs, n)) + HeldIds(After(inputs, n))
  {
    hide Sane, Handle, HeldAt, AnswerIds, CallOf;
    if n == 0 {
      NothingOwed();
    } else {
      RepliesAreConserved(inputs, n - 1);
      RunIsSane(inputs, n - 1);
      var before, input := After(inputs, n - 1), inputs[n - 1];
      HandleBalances(before, input);
      var done := Handle(before, input);
      AnswersAdd(Written(inputs, n - 1), done.messages);
      Carried(CallIds(inputs, n - 1), CallIn(input), AnswerIds(Written(inputs, n - 1)), AnswerIds(done.messages),
              HeldIds(before), HeldIds(done.state));
    }
  }

  lemma Carried(calls: multiset<nat>, call: multiset<nat>, answered: multiset<nat>, answer: multiset<nat>,
                before: multiset<nat>, after: multiset<nat>)
    requires calls == answered + before
    requires before + call == after + answer
    ensures calls + call == (answered + answer) + after
  {
    forall x ensures (calls + call)[x] == (answered + answer + after)[x] {
      assert calls[x] == (answered + before)[x] && (before + call)[x] == (after + answer)[x];
    }
  }

  lemma NothingOwed()
    ensures AnswerIds([]) == multiset{} && HeldIds(START) == multiset{}
  {
  }
}
