/** A document whose every edit goes through the undo log. */
module Documents {
  import opened Change
  import opened ChangeSets
  import opened Options
  import opened Review
  import opened Timelines
  import opened Histories

  // ----- sessions: the whole of the undo state as a value -----------------------------

  /** `Put` applies a transaction that carries a group handed out at any time, or none that ever was. */
  datatype Action =
    | Type(changes: ChangeSet, source: EditSource)
    | Put(changes: ChangeSet, source: EditSource, group: nat)
    | Break
    | UndoLast
    | RedoLast
  {
    ghost predicate Fits() { Type? || Put? ==> changes.Valid() }
  }

  datatype Session = Session(line: Timeline, nextGroup: nat, lastSource: Option<EditSource>, groupBroken: bool)
  {
    ghost predicate Valid() { line.Valid() }

    /** Groups rise, and none was handed out later than the counter says. */
    ghost predicate Grouped() {
      line.Grouped() && forall i :: 0 <= i < |line.entries| ==> line.entries[i].group <= nextGroup
    }

    ghost predicate Continues(source: EditSource) {
      !groupBroken && source.Coalesces() && lastSource == Some(source) && line.at > 0
    }

    /** The group the next edit from `source` joins or starts. */
    ghost function GroupFor(source: EditSource): nat
      requires Valid()
    {
      if Continues(source) then line.entries[line.at - 1].group else nextGroup + 1
    }

    ghost function Asked(source: EditSource): Session {
      if Continues(source) then this else this.(nextGroup := nextGroup + 1)
    }

    /** A change of the current text is recorded; one that changes nothing, or was written
        against a text of another length, is not. */
    ghost function Recorded(changes: ChangeSet, source: EditSource, group: nat): Session
      requires Valid() && changes.Valid()
    {
      if changes.lenBefore != |line.Text()| || changes.IsIdentity() then this
      else this.(line := line.Push(Entry(group, changes, changes.Invert(line.Text())), changes.Apply(line.Text())),
                 lastSource := Some(source), groupBroken := false)
    }

    ghost function Typed(changes: ChangeSet, source: EditSource): Session
      requires Valid() && changes.Valid()
    {
      Asked(source).Recorded(changes, source, GroupFor(source))
    }

    ghost function Undone(): Session
      requires Valid()
    {
      if line.at == 0 then this else Session(line.Undo(), nextGroup, None, true)
    }

    ghost function Redone(): Session
      requires Valid()
    {
      if line.at == |line.entries| then this else Session(line.Redo(), nextGroup, None, true)
    }

    ghost function Next(action: Action): Session
      requires Valid() && action.Fits()
    {
      match action
      case Type(changes, source) => Typed(changes, source)
      case Put(changes, source, group) => Recorded(changes, source, group)
      case Break => this.(groupBroken := true)
      case UndoLast => Undone()
      case RedoLast => Redone()
    }

    /** The group a transaction carries is the newest run's or a later one, and was handed out. */
    ghost predicate Groups(action: Action)
      requires Valid()
    {
      action.Put? ==> line.MayPush(action.group) && action.group <= nextGroup
    }
  }

  /** Whoever asks for a group gets the newest run's or one above every id in the log. */
  lemma GroupIsTopOrFresh(s: Session, source: EditSource)
    requires s.Valid() && s.Grouped()
    ensures s.line.MayPush(s.GroupFor(source)) && s.GroupFor(source) <= s.Asked(source).nextGroup
    ensures !s.Continues(source) ==> forall i :: 0 <= i < |s.line.entries| ==> s.line.entries[i].group < s.GroupFor(source)
  {
  }

  lemma RecordedKeeps(s: Session, changes: ChangeSet, source: EditSource, group: nat)
    requires s.Valid() && changes.Valid()
    ensures s.Recorded(changes, source, group).Valid()
    ensures s.Grouped() && s.line.MayPush(group) && group <= s.nextGroup ==> s.Recorded(changes, source, group).Grouped()
  {
    if changes.lenBefore == |s.line.Text()| && !changes.IsIdentity() {
      var text := s.line.Text();
      InvertLinks(changes, text, group);
      PushKeeps(s.line, Entry(group, changes, changes.Invert(text)), changes.Apply(text));
    }
  }

  lemma NextKeeps(s: Session, action: Action)
    requires s.Valid() && action.Fits()
    ensures s.Next(action).Valid()
    ensures s.Grouped() && s.Groups(action) ==> s.Next(action).Grouped()
  {
    match action
    case Type(changes, source) =>
      if s.Grouped() {
        GroupIsTopOrFresh(s, source);
      }
      RecordedKeeps(s.Asked(source), changes, source, s.GroupFor(source));
    case Put(changes, source, group) => RecordedKeeps(s, changes, source, group);
    case Break =>
    case UndoLast => UndoKeeps(s.line);
    case RedoLast => RedoKeeps(s.line);
  }

  lemma InvertLinks(changes: ChangeSet, text: string, group: nat)
    requires changes.Valid() && changes.lenBefore == |text|
    ensures Entry(group, changes, changes.Invert(text)).Links(text, changes.Apply(text))
  {
    InvertRoundTrip(changes, text);
  }

  ghost predicate AllFit(actions: seq<Action>) { forall i :: 0 <= i < |actions| ==> actions[i].Fits() }

  ghost function Run(s: Session, actions: seq<Action>): Session
    requires s.Valid() && AllFit(actions)
    ensures Run(s, actions).Valid()
    decreases |actions|
  {
    if actions == [] then s
    else
      NextKeeps(s, actions[0]);
      Run(s.Next(actions[0]), actions[1..])
  }

  /** Every transaction of the run carries a group that still is the newest run's, or a later one. */
  ghost predicate RunGroups(s: Session, actions: seq<Action>)
    requires s.Valid() && AllFit(actions)
    decreases |actions|
  {
    actions == [] || (s.Groups(actions[0]) && (NextKeeps(s, actions[0]); RunGroups(s.Next(actions[0]), actions[1..])))
  }

  /** A fresh log over `text`. */
  ghost function Start(text: string): (s: Session)
    ensures s.Valid()
  {
    Session(Timeline([], [text], 0), 0, None, false)
  }

  // ----- the log can be replayed ------------------------------------------------------

  ghost predicate CanReplay(es: seq<Entry>, text: string)
    decreases |es|
  {
    es == [] || (&& es[0].forward.Valid() && es[0].forward.lenBefore == |text|
                 && CanReplay(es[1..], es[0].forward.Apply(text)))
  }

  /** The edits made one after the other. */
  ghost function Replay(es: seq<Entry>, text: string): string
    requires CanReplay(es, text)
    decreases |es|
  {
    if es == [] then text else Replay(es[1..], es[0].forward.Apply(text))
  }

  lemma {:induction false} SegmentReplays(t: Timeline, k: nat, m: nat)
    requires t.Valid() && k <= m <= |t.entries|
    ensures CanReplay(t.entries[k..m], t.docs[k]) && Replay(t.entries[k..m], t.docs[k]) == t.docs[m]
    decreases m - k
  {
    if k < m {
      assert Linked(t.entries, t.docs, k);
      assert t.entries[k..m][0] == t.entries[k] && t.entries[k..m][1..] == t.entries[k + 1..m];
      SegmentReplays(t, k + 1, m);
    }
  }

  /** After any run from a fresh document: what is applied rebuilds the current text from the first one, what is
      undone replays from it, and no run of one group spans the cursor. Groups are contiguous, and none lies on
      both sides, as long as every transaction carries the newest run's group or a later one. */
  lemma LogReplays(text: string, actions: seq<Action>)
    requires AllFit(actions)
    ensures var t := Run(Start(text), actions).line;
            && t.Valid() && t.docs[0] == text
            && CanReplay(t.entries[..t.at], text) && Replay(t.entries[..t.at], text) == t.Text()
            && CanReplay(t.entries[t.at..], t.Text())
            && (0 < t.at < |t.entries| ==> t.entries[t.at - 1].group != t.entries[t.at].group)
    ensures var t := Run(Start(text), actions).line;
            RunGroups(Start(text), actions) ==>
              && (forall i, j, k :: 0 <= i <= j <= k < |t.entries| && t.entries[i].group == t.entries[k].group ==>
                    t.entries[j].group == t.entries[i].group)
              && (forall i, j :: 0 <= i < t.at <= j < |t.entries| ==> t.entries[i].group != t.entries[j].group)
  {
    var t := Run(Start(text), actions).line;
    RunKeepsOrigin(Start(text), actions);
    RunStaysGrouped(Start(text), actions);
    SegmentReplays(t, 0, t.at);
    SegmentReplays(t, t.at, |t.entries|);
    assert t.entries[0..t.at] == t.entries[..t.at] && t.entries[t.at..|t.entries|] == t.entries[t.at..];
    if RunGroups(Start(text), actions) {
      GroupsAreRuns(t);
    }
  }

  lemma GroupsAreRuns(t: Timeline)
    requires t.Valid() && t.Grouped()
    ensures forall i, j, k :: 0 <= i <= j <= k < |t.entries| && t.entries[i].group == t.entries[k].group ==>
              t.entries[j].group == t.entries[i].group
    ensures forall i, j :: 0 <= i < t.at <= j < |t.entries| ==> t.entries[i].group != t.entries[j].group
  {
    forall i, j | 0 <= i < t.at <= j < |t.entries|
      ensures t.entries[i].group != t.entries[j].group
    {
      assert t.entries[i].group <= t.entries[t.at - 1].group < t.entries[t.at].group <= t.entries[j].group;
    }
  }

  lemma {:induction false} RunStaysGrouped(s: Session, actions: seq<Action>)
    requires s.Valid() && AllFit(actions)
    ensures s.Grouped() && RunGroups(s, actions) ==> Run(s, actions).Grouped()
    decreases |actions|
  {
    hide Session.Valid, Session.Next, Session.Grouped, Session.Groups;
    if actions != [] {
      NextKeeps(s, actions[0]);
      RunStaysGrouped(s.Next(actions[0]), actions[1..]);
    }
  }

  lemma {:induction false} RunKeepsOrigin(s: Session, actions: seq<Action>)
    requires s.Valid() && AllFit(actions)
    ensures Run(s, actions).line.docs[0] == s.line.docs[0]
    decreases |actions|
  {
    if actions != [] {
      NextKeeps(s, actions[0]);
      RunKeepsOrigin(s.Next(actions[0]), actions[1..]);
    }
  }

  lemma UndoOnce(s: Session)
    requires s.Valid()
    ensures s.Next(UndoLast).Valid()
    ensures var t := s.Next(UndoLast).line;
            t.(at := 0) == s.line.(at := 0) && (if s.line.at == 0 then t.at == 0 else t.at < s.line.at)
  {
    NextKeeps(s, UndoLast);
    if s.line.at > 0 {
      UndoKeeps(s.line);
    }
  }

  lemma RunUndo(s: Session, n: nat)
    requires s.Valid() && n > 0 && s.Next(UndoLast).Valid()
    ensures Run(s, seq(n, i => UndoLast)) == Run(s.Next(UndoLast), seq(n - 1, i => UndoLast))
  {
    hide Session.Valid, Session.Next;
    assert seq(n, i => UndoLast)[1..] == seq(n - 1, i => UndoLast);
  }

  /** Undo steps until the start of history, and the first document is back. */
  lemma {:induction false} UndoAll(s: Session, n: nat)
    requires s.Valid() && n >= s.line.at
    ensures Run(s, seq(n, i => UndoLast)).line == s.line.(at := 0)
    decreases n
  {
    hide Session.Valid, Session.Next;
    if n > 0 {
      UndoOnce(s);
      RunUndo(s, n);
      UndoAll(s.Next(UndoLast), n - 1);
    }
  }

  /** Changes put under one group of their own, several hunks of a proposal say, are together one undo away from
      gone, whether or not each of them was recorded. */
  lemma {:induction false} PutThenUndo(s: Session, base: nat, text: string, puts: seq<Action>, group: nat)
    requires s.Valid() && AllFit(puts) && forall i :: 0 <= i < |puts| ==> puts[i].Put? && puts[i].group == group
    requires OneRun(s.line, base, text, group)
    ensures OneRun(Run(s, puts).line, base, text, group)
    ensures Run(s, puts).line.at > base ==> Run(s, puts).Undone().line.Text() == text
    decreases |puts|
  {
    if puts == [] {
      if s.line.at > base {
        TopOfPrefix(s.line, base);
      }
    } else {
      NextKeeps(s, puts[0]);
      RecordedRuns(s, puts[0], base, text, group);
      PutThenUndo(s.Next(puts[0]), base, text, puts[1..], group);
    }
  }

  /** What lies before the cursor from `base` on carries `group`, and nothing just before it does. */
  ghost predicate OneRun(t: Timeline, base: nat, text: string, group: nat) {
    && base <= t.at <= |t.entries| && |t.docs| == |t.entries| + 1 && t.docs[base] == text
    && (forall i :: base <= i < t.at ==> t.entries[i].group == group)
    && (base > 0 ==> t.entries[base - 1].group != group)
  }

  lemma RecordedRuns(s: Session, put: Action, base: nat, text: string, group: nat)
    requires s.Valid() && put.Put? && put.Fits() && put.group == group && OneRun(s.line, base, text, group)
    ensures OneRun(s.Next(put).line, base, text, group)
  {
  }

  lemma TopOfPrefix(t: Timeline, base: nat)
    requires t.Valid() && base < t.at && OneRun(t, base, t.docs[base], t.entries[t.at - 1].group)
    ensures t.Undo().at == base
  {
    var es := t.entries[..t.at];
    assert forall i :: 0 <= i < t.at ==> es[i] == t.entries[i];
    TopStartIs(es, base);
  }

  /** A change that starts its own group, an accepted proposal say, is one undo away from gone. */
  lemma RecordThenUndo(s: Session, changes: ChangeSet, source: EditSource)
    requires s.Valid() && changes.Valid() && changes.lenBefore == |s.line.Text()| && !changes.IsIdentity()
    requires s.Grouped() && !s.Continues(source)
    ensures s.Typed(changes, source).Valid()
    ensures s.Typed(changes, source).line.Text() == changes.Apply(s.line.Text())
    ensures s.Typed(changes, source).Undone().line.Text() == s.line.Text()
  {
    GroupIsTopOrFresh(s, source);
    var put := Put(changes, source, s.GroupFor(source));
    var asked := s.Asked(source);
    PutThenUndo(asked, s.line.at, s.line.Text(), [put], put.group);
    RunOne(asked, put);
  }

  lemma RunOne(s: Session, action: Action)
    requires s.Valid() && action.Fits()
    ensures s.Next(action).Valid() && Run(s, [action]) == s.Next(action)
  {
    NextKeeps(s, action);
    assert [action][1..] == [];
    assert Run(s.Next(action), []) == s.Next(action);
  }

  /** An edit of anyone but the keyboard is one undo from gone, whatever was done before. */
  lemma OthersUndoAlone(s: Session, changes: ChangeSet, source: EditSource)
    requires s.Valid() && s.Grouped() && changes.Valid() && changes.lenBefore == |s.line.Text()| && !changes.IsIdentity()
    requires source == Paste || source == Formatter || source == Lsp || source.Agent? || source == Replaced
    ensures s.Typed(changes, source).Valid()
    ensures s.Typed(changes, source).line.Text() == changes.Apply(s.line.Text())
    ensures s.Typed(changes, source).Undone().line.Text() == s.line.Text()
  {
    RecordThenUndo(s, changes, source);
  }

  /** A keystroke behind a pause, an undo, a redo or an edit of anyone else's is one undo from gone too. */
  lemma KeystrokeStartsRun(s: Session, last: Action, changes: ChangeSet)
    requires s.Valid() && s.Grouped() && last.Fits() && s.Groups(last) && s.Next(last).Valid()
    requires match last
             case Break => true
             case UndoLast => s.line.at > 0
             case RedoLast => s.line.at < |s.line.entries|
             case Type(c, source) => !source.Keyboard? && c.lenBefore == |s.line.Text()| && !c.IsIdentity()
             case Put(c, source, _) => !source.Keyboard? && c.lenBefore == |s.line.Text()| && !c.IsIdentity()
    requires var t := s.Next(last); changes.Valid() && changes.lenBefore == |t.line.Text()| && !changes.IsIdentity()
    ensures var t := s.Next(last);
            && t.Typed(changes, Keyboard).Valid()
            && t.Typed(changes, Keyboard).Undone().line.Text() == t.line.Text()
  {
    NextKeeps(s, last);
    RecordThenUndo(s.Next(last), changes, Keyboard);
  }

  /** Keystrokes with nothing between them run together: one undo takes as far back as it would have after the first
      of them, and if that one began its run, to before it. */
  lemma KeystrokesRunTogether(s: Session, a: ChangeSet, b: ChangeSet)
    requires s.Valid() && s.Grouped() && a.Valid() && a.lenBefore == |s.line.Text()| && !a.IsIdentity()
    requires b.Valid() && b.lenBefore == a.lenAfter && !b.IsIdentity()
    ensures var one := s.Typed(a, Keyboard);
            && one.Valid() && one.line.Text() == a.Apply(s.line.Text()) && |one.line.Text()| == b.lenBefore
            && var two := one.Typed(b, Keyboard);
               && two.Valid() && two.line.Text() == b.Apply(one.line.Text())
               && two.Undone().line.Text() == one.Undone().line.Text()
               && (!s.Continues(Keyboard) ==> two.Undone().line.Text() == s.line.Text())
  {
    var text := s.line.Text();
    NextKeeps(s, Type(a, Keyboard));
    ApplyLength(a, text);
    var one := s.Typed(a, Keyboard);
    var group := s.GroupFor(Keyboard);
    assert one.line.entries[one.line.at - 1].group == group;
    assert one.Continues(Keyboard) && one.GroupFor(Keyboard) == group;
    NextKeeps(one, Type(b, Keyboard));
    var two := one.Typed(b, Keyboard);
    RunGrows(one.line, two.line);
    if !s.Continues(Keyboard) {
      RecordThenUndo(s, a, Keyboard);
    }
  }

  /** One more entry of the newest run's group leaves the run beginning where it did. */
  lemma RunGrows(t: Timeline, u: Timeline)
    requires t.Valid() && u.Valid() && t.at > 0 && t.at == |t.entries| && u.at == t.at + 1 == |u.entries|
    requires u.entries[..t.at] == t.entries && u.docs[..t.at + 1] == t.docs
    requires u.entries[t.at].group == t.entries[t.at - 1].group
    ensures u.Undo().at == t.Undo().at && u.Undo().Text() == t.Undo().Text()
  {
    var es, fs := t.entries[..t.at], u.entries[..u.at];
    assert forall i :: 0 <= i < t.at ==> fs[i] == es[i];
    TopStartIs(fs, TopStart(es));
  }

  /** With a pause between them it takes two undos. */
  lemma PausedKeystrokesPart(s: Session, a: ChangeSet, b: ChangeSet)
    requires s.Valid() && s.Grouped() && a.Valid() && a.lenBefore == |s.line.Text()| && !a.IsIdentity()
    requires b.Valid() && b.lenBefore == a.lenAfter && !b.IsIdentity() && !s.Continues(Keyboard)
    ensures var paused := s.Typed(a, Keyboard).(groupBroken := true);
            && paused.Valid() && |paused.line.Text()| == b.lenBefore && paused.Typed(b, Keyboard).Valid()
            && var once := paused.Typed(b, Keyboard).Undone();
               && once.line.Text() == a.Apply(s.line.Text())
               && once.Valid() && once.Undone().line.Text() == s.line.Text()
  {
    NextKeeps(s, Type(a, Keyboard));
    ApplyLength(a, s.line.Text());
    var paused := s.Typed(a, Keyboard).(groupBroken := true);
    RecordThenUndo(s, a, Keyboard);
    RecordThenUndo(paused, b, Keyboard);
    UndoKeeps(paused.Typed(b, Keyboard).line);
    LaterUndo(s.Typed(a, Keyboard).line, paused.Typed(b, Keyboard).line);
  }

  /** Undoing an entry in a group of its own leaves the cursor where the entry began. */
  lemma LaterUndo(t: Timeline, u: Timeline)
    requires t.Valid() && u.Valid() && t.at > 0 && t.at == |t.entries| && u.at == t.at + 1 == |u.entries|
    requires u.entries[..t.at] == t.entries && u.docs[..t.at + 1] == t.docs
    requires u.entries[t.at].group != t.entries[t.at - 1].group
    ensures u.Undo().at == t.at && u.Undo().Undo().at == t.Undo().at && u.Undo().Undo().Text() == t.Undo().Text()
  {
    var fs := u.entries[..u.at];
    assert fs[t.at - 1] == t.entries[t.at - 1];
    TopStartIs(fs, t.at);
    assert u.Undo().entries[..t.at] == t.entries[..t.at];
  }

  // ----- the document itself ----------------------------------------------------------

  datatype EditError = StaleVersion(expected: nat, found: nat) | LengthMismatch(expectedLen: nat, foundLen: nat)

  class Document {
    var text: string
    var version: nat
    const history: History
    /** Every edit still in the log, with the documents between them. */
    ghost var line: Timeline

    ghost predicate Valid()
      reads this, history
    {
      && line.Valid() && text == line.Text()
      && history.applied == line.entries[..line.at] && history.undone == Reverse(line.entries[line.at..])
    }

    ghost function State(): (s: Session)
      requires Valid()
      reads this, history
      ensures s.Valid()
    {
      Session(line, history.nextGroup, history.lastSource, history.groupBroken)
    }

    constructor (text: string)
      ensures Valid() && State() == Start(text) && version == 0 && fresh(history)
    {
      this.text, version := text, 0;
      history := new History();
      line := Timeline([], [text], 0);
    }

    /** A transaction against the current state, grouped as the log decides. */
    method Transact(changes: ChangeSet, source: EditSource) returns (tx: Transaction)
      requires Valid()
      modifies history
      ensures Valid() && State() == old(State()).Asked(source)
      ensures tx == Transaction(version, changes, source, old(State()).GroupFor(source))
    {
      var group := history.GroupFor(source);
      tx := Transaction(version, changes, source, group);
    }

    /** The one way the text changes: refused when written against another revision or size. */
    method Apply(tx: Transaction) returns (error: Option<EditError>)
      requires Valid() && tx.changes.Valid()
      modifies this, history
      ensures Valid()
      ensures error.Some? <==> tx.baseVersion != old(version) || tx.changes.lenBefore != |old(text)|
      ensures error.Some? || tx.changes.IsIdentity() ==> State() == old(State()) && text == old(text) && version == old(version)
      ensures tx.baseVersion == old(version) ==> State() == old(State()).Next(Put(tx.changes, tx.source, tx.undoGroup))
      ensures error.None? && !tx.changes.IsIdentity() ==>
                && version == old(version) + 1 && text == tx.changes.Apply(old(text))
                && line == old(line).Push(Entry(tx.undoGroup, tx.changes, tx.changes.Invert(old(text))), text)
                && State() == Session(line, old(history.nextGroup), Some(tx.source), false)
    {
      if tx.baseVersion != version {
        return Some(StaleVersion(tx.baseVersion, version));
      }
      if tx.changes.lenBefore != |text| {
        return Some(LengthMismatch(tx.changes.lenBefore, |text|));
      }
      if tx.changes.IsIdentity() {
        return None;
      }
      InvertLinks(tx.changes, text, tx.undoGroup);
      var inverse := InverseOf(tx.changes, text);
      ghost var entry := Entry(tx.undoGroup, tx.changes, inverse);
      ghost var was := line;
      text := ApplyTo(tx.changes, text);
      version := version + 1;
      history.Push(tx, inverse);
      PushKeeps(was, entry, text);
      line := was.Push(entry, text);
      assert line.entries[..line.at] == line.entries && line.entries[line.at..] == [];
      return None;
    }

    /** A change typed by `source`. */
    method Edit(changes: ChangeSet, source: EditSource) returns (error: Option<EditError>)
      requires Valid() && changes.Valid()
      modifies this, history
      ensures Valid() && State() == old(State()).Next(Type(changes, source))
      ensures error.Some? <==> changes.lenBefore != |old(text)|
    {
      var tx := Transact(changes, source);
      error := Apply(tx);
    }

    method BreakGroup()
      requires Valid()
      modifies history
      ensures Valid() && State() == old(State()).Next(Break)
    {
      history.BreakGroup();
    }

    method Undo() returns (did: bool)
      requires Valid()
      modifies this, history
      ensures Valid() && State() == old(State()).Next(UndoLast)
      ensures did <==> old(line).at > 0
      ensures text == old(line).Undo().Text() && version == old(version) + if did then 1 else 0
    {
      hide Composable, Fold, Reverse, TopStart, GroupEnd, Linked;
      ghost var was := line;
      UndoKeeps(was);
      if was.at > 0 {
        UndoWalks(was);
      }
      AppliedComposes(was);
      var change := history.Undo();
      match change
      case None =>
        did := false;
      case Some(c) =>
        UndoSplits(was);
        text := ApplyTo(c, text);
        version := version + 1;
        line := was.Undo();
        did := true;
    }

    method Redo() returns (did: bool)
      requires Valid()
      modifies this, history
      ensures Valid() && State() == old(State()).Next(RedoLast)
      ensures did <==> old(line).at < |old(line).entries|
      ensures text == old(line).Redo().Text() && version == old(version) + if did then 1 else 0
    {
      hide Composable, Fold, Reverse, TopStart, GroupEnd, Linked, Timeline.Redo;
      ghost var was := line;
      RedoFacts(was);
      UndoneComposes(was);
      var change := history.Redo();
      match change
      case None =>
        did := false;
      case Some(c) =>
        text := ApplyTo(c, text);
        version := version + 1;
        line := was.Redo();
        did := true;
    }
  }

  /** Everything a redo relies on, in terms of the stack it pops from. */
  lemma RedoFacts(t: Timeline)
    requires t.Valid()
    ensures t.Redo().Valid() && t.Redo().entries == t.entries
    ensures Reverse(t.entries[t.at..]) == [] <==> t.at == |t.entries|
    ensures t.at == |t.entries| ==> t.Redo() == t
    ensures t.at < |t.entries| ==>
              var was, m := Reverse(t.entries[t.at..]), t.Redo().at; var k := TopStart(was);
              && was[..k] == Reverse(t.entries[m..]) && t.entries[..t.at] + Reverse(was[k..]) == t.entries[..m]
              && Composable(was[k..], Forth) && Fold(was[k..], Forth).lenBefore == |t.Text()|
              && Fold(was[k..], Forth).Apply(t.Text()) == t.Redo().Text()
  {
    RedoKeeps(t);
    NothingUndone(t.entries, t.at);
    if t.at < |t.entries| {
      RedoWalks(t);
      RedoSplits(t);
    }
  }

  lemma AppliedComposes(t: Timeline)
    requires t.Valid()
    ensures Composable(t.entries[..t.at], Back)
  {
    PassesBack(t.entries, t.docs, 0, t.at);
    PassesCompose(t.entries[0..t.at], Back, t.docs[0..t.at + 1]);
    assert t.entries[0..t.at] == t.entries[..t.at];
  }

  lemma UndoneComposes(t: Timeline)
    requires t.Valid()
    ensures Composable(Reverse(t.entries[t.at..]), Forth)
  {
    var n := |t.entries|;
    PassesForth(t.entries, t.docs, t.at, n);
    PassesCompose(Reverse(t.entries[t.at..n]), Forth, Reverse(t.docs[t.at..n + 1]));
    assert t.entries[t.at..n] == t.entries[t.at..];
  }

  lemma SplitBelow(es: seq<Entry>, k: nat, n: nat)
    requires k <= n <= |es|
    ensures es[..n][..k] == es[..k] && es[..n][k..] == es[k..n]
    ensures Reverse(es[n..]) + Reverse(es[k..n]) == Reverse(es[k..])
  {
  }

  lemma ReversePrefix(es: seq<Entry>, at: nat, m: nat)
    requires at <= m <= |es|
    ensures Reverse(es[at..])[..|es| - m] == Reverse(es[m..])
  {
  }

  lemma ReverseSuffix(es: seq<Entry>, at: nat, m: nat)
    requires at <= m <= |es|
    ensures Reverse(es[at..])[|es| - m..] == Reverse(es[at..m])
  {
  }

  lemma ReverseTwice(es: seq<Entry>)
    ensures Reverse(Reverse(es)) == es
  {
  }

  lemma SplitAbove(es: seq<Entry>, at: nat, m: nat)
    requires at <= m <= |es|
    ensures var was, k := Reverse(es[at..]), |es| - m;
            && was[..k] == Reverse(es[m..]) && was[k..] == Reverse(es[at..m])
            && es[..at] + Reverse(was[k..]) == es[..m]
  {
    hide Reverse;
    ReversePrefix(es, at, m);
    ReverseSuffix(es, at, m);
    ReverseTwice(es[at..m]);
    assert es[..at] + es[at..m] == es[..m];
  }

  /** The two stacks after an undo are the two sides of the moved cursor. */
  lemma UndoSplits(t: Timeline)
    requires t.Valid() && t.at > 0
    ensures var was, k := t.entries[..t.at], t.Undo().at;
            && k == TopStart(was) && was[..k] == t.entries[..k] && was[k..] == t.entries[k..t.at]
            && Reverse(t.entries[t.at..]) + Reverse(was[k..]) == Reverse(t.entries[k..])
  {
    hide Reverse, TopStart;
    SplitBelow(t.entries, t.Undo().at, t.at);
  }

  lemma TopStartIs(es: seq<Entry>, k: nat)
    requires k < |es| && forall i :: k <= i < |es| ==> es[i].group == es[|es| - 1].group
    requires k > 0 ==> es[k - 1].group != es[|es| - 1].group
    ensures TopStart(es) == k
  {
  }

  lemma TopIsGroupEnd(es: seq<Entry>, at: nat)
    requires at < |es|
    ensures TopStart(Reverse(es[at..])) == |es| - GroupEnd(es, at)
  {
    var was, m, n := Reverse(es[at..]), GroupEnd(es, at), |es|;
    assert forall i :: 0 <= i < |was| ==> was[i] == es[n - 1 - i];
    TopStartIs(was, n - m);
  }

  lemma NothingUndone(es: seq<Entry>, at: nat)
    requires at <= |es|
    ensures Reverse(es[at..]) == [] <==> at == |es|
  {
  }

  /** And after a redo. */
  lemma RedoSplits(t: Timeline)
    requires t.Valid() && t.at < |t.entries|
    ensures var was, m := Reverse(t.entries[t.at..]), t.Redo().at; var k := TopStart(was);
            && m == |t.entries| - k && was[..k] == Reverse(t.entries[m..])
            && was[k..] == Reverse(t.entries[t.at..m])
            && t.entries[..t.at] + Reverse(was[k..]) == t.entries[..m]
  {
    hide Reverse, TopStart, GroupEnd;
    TopIsGroupEnd(t.entries, t.at);
    SplitAbove(t.entries, t.at, t.Redo().at);
  }
}
