/** The pending review of one file: derived from the agent's two texts, again on every change. */
module Proposals {
  import opened Change
  import opened ChangeSets
  import opened Edits
  import opened Survival
  import opened Positions
  import opened Lines
  import opened Options
  import opened Review
  import opened Diffing
  import opened Accepting
  import opened Rebasing
  import Histories
  import opened Documents
  import opened Sorting

  /** Updates the hunks in place. */
  method RebaseHunks(hunks: array<Hunk>, base: string, current: string, script: seq<DiffOp>)
    requires ValidScript(script, base, current)
    requires forall i :: 0 <= i < hunks.Length ==> hunks[i].start <= hunks[i].end
    modifies hunks
    ensures hunks[..] == Rebased(old(hunks[..]), base, current, script)
  {
    hide *;
    ghost var was := hunks[..];
    RebasedUnmoved(was, base, current, script);
    if base == current {
      return;
    }
    var human := HunksFromDiff(base, current, script);
    HumanCompatible(base, current, script);
    var catchUp := ChangesetFromHunks(human, |base|);
    var i := 0;
    while i < hunks.Length
      invariant 0 <= i <= hunks.Length
      invariant forall k :: 0 <= k < i ==> hunks[k] == RebaseHunk(was[k], human, catchUp.ops)
      invariant forall k :: i <= k < hunks.Length ==> hunks[k] == was[k]
    {
      var hunk := hunks[i];
      RebaseCases(hunk, human, catchUp.ops);
      if exists h :: h in human && h.start == hunk.start && h.end == hunk.end && h.text == hunk.text {
        hunks[i] := hunk.(state := Satisfied);
      } else {
        var effect := EffectOn(catchUp, hunk.start, hunk.end);
        match ReasonOf(effect) {
          case Some(reason) =>
            hunks[i] := hunk.(state := Conflicted(reason));
          case None =>
            var start := MapPosition(catchUp, hunk.start, After);
            var end := MapPosition(catchUp, hunk.end, After);
            hunks[i] := hunk.(start := start, end := end);
        }
      }
      i := i + 1;
    }
    RebasedMoved(was, base, current, script, hunks[..]);
  }

  lemma HumanCompatible(base: string, current: string, script: seq<DiffOp>)
    requires ValidScript(script, base, current)
    ensures Compatible(HunksFromDiff(base, current, script), |base|)
    ensures CatchUp(base, current, script) == Build(AcceptedEdits(HunksFromDiff(base, current, script)), |base|)
  {
    DiffIsExact(base, current, script);
    OrderedHunks(HunksFromDiff(base, current, script), |base|);
  }

  lemma RebaseCases(hunk: Hunk, human: seq<Hunk>, ops: Ops)
    ensures (exists h :: h in human && h.start == hunk.start && h.end == hunk.end && h.text == hunk.text) ==>
            RebaseHunk(hunk, human, ops) == hunk.(state := Satisfied)
    ensures !(exists h :: h in human && h.start == hunk.start && h.end == hunk.end && h.text == hunk.text) ==>
            RebaseHunk(hunk, human, ops) ==
            match ReasonOf(Touches(ops, hunk.start, hunk.end))
            case Some(reason) => hunk.(state := Conflicted(reason))
            case None => hunk.(start := MapPos(ops, hunk.start, After), end := MapPos(ops, hunk.end, After))
  {
  }

  lemma RebasedUnmoved(was: seq<Hunk>, base: string, current: string, script: seq<DiffOp>)
    requires ValidScript(script, base, current)
    ensures base == current ==> Rebased(was, base, current, script) == was
  {
  }

  lemma RebasedMoved(was: seq<Hunk>, base: string, current: string, script: seq<DiffOp>, now: seq<Hunk>)
    requires ValidScript(script, base, current) && base != current && |now| == |was|
    requires var human := HunksFromDiff(base, current, script);
             forall k :: 0 <= k < |was| ==> now[k] == RebaseHunk(was[k], human, Build(AcceptedEdits(human), |base|))
    ensures now == Rebased(was, base, current, script)
  {
  }

  /** The diff library, as the code relies on it. */
  type Differ = (string, string) -> seq<DiffOp>

  ghost predicate IsDiff(diff: Differ) {
    forall a, b :: ValidScript(diff(a, b), a, b)
  }

  class EditProposal {
    const id: nat
    const path: string
    const baseText: string
    const proposedText: string
    var hunks: array<Hunk>

    /** The agent proposes `proposedText` for what it read as `baseText`. */
    constructor (id: nat, path: string, baseText: string, proposedText: string, current: string, diff: Differ)
      requires IsDiff(diff)
      ensures fresh(hunks)
      ensures this.id == id && this.path == path && this.baseText == baseText && this.proposedText == proposedText
      ensures hunks[..] == ReviewOf(baseText, proposedText, diff(baseText, proposedText), current, diff(baseText, current))
    {
      this.id, this.path, this.baseText, this.proposedText := id, path, baseText, proposedText;
      hunks := new Hunk[0];
      new;
      Refresh(current, diff);
    }

    /** Always from the two texts, never from the last result. */
    method Refresh(current: string, diff: Differ)
      requires IsDiff(diff)
      modifies this
      ensures fresh(hunks)
      ensures hunks[..] == ReviewOf(baseText, proposedText, diff(baseText, proposedText), current, diff(baseText, current))
    {
      var agent := diff(baseText, proposedText);
      var derived := HunksFromDiff(baseText, proposedText, agent);
      hunks := new Hunk[|derived|](i requires 0 <= i < |derived| => derived[i]);
      assert hunks[..] == derived;
      DiffIsExact(baseText, proposedText, agent);
      OrderedHunks(derived, |baseText|);
      RebaseHunks(hunks, baseText, current, diff(baseText, current));
    }

    /** Whether some hunk can no longer be applied. */
    predicate HasConflicts()
      reads this, hunks
    {
      exists i :: 0 <= i < hunks.Length && hunks[i].state.Conflicted?
    }

    /** Whether nothing is left to review. */
    predicate IsSettled()
      reads this, hunks
    {
      forall i :: 0 <= i < hunks.Length ==> hunks[i].state.Satisfied?
    }

    /** The hunks are those of a review against `current`. */
    ghost predicate Refreshed(current: string, diff: Differ)
      requires IsDiff(diff)
      reads this, hunks
    {
      hunks[..] == ReviewOf(baseText, proposedText, diff(baseText, proposedText), current, diff(baseText, current))
    }

    /** Every hunk that applies, as one change of the current text. */
    method AcceptedChange(current: string, diff: Differ) returns (c: ChangeSet)
      requires IsDiff(diff) && Refreshed(current, diff)
      ensures c.Valid() && c.lenBefore == |current| && c.ops == Build(AcceptedEdits(Applicable(hunks[..])), |current|)
      ensures var kept := KeptOf(baseText, proposedText, diff(baseText, proposedText), current, diff(baseText, current));
              var ours := HumanEdits(baseText, current, diff(baseText, current));
              && Ordered(Merge(ours, kept), 0, |baseText|) && Ordered(Merge(Survivors(ours, kept), kept), 0, |baseText|)
              && c.Apply(current) == Splice(baseText, 0, Merge(Survivors(ours, kept), kept))
              && (c.Apply(current) == Splice(baseText, 0, Merge(ours, kept)) <==> !AnySwallowed(ours, kept))
    {
      var agent, human := diff(baseText, proposedText), diff(baseText, current);
      RebaseMerges(baseText, proposedText, agent, current, human);
      var clean := Applicable(hunks[..]);
      OrderedHunks(clean, |current|);
      c := ChangesetFromHunks(clean, |current|);
    }

    /** Accepts every hunk that applies: one transaction of the agent's, or none when there is no such hunk. */
    method AcceptAll(document: Document, diff: Differ) returns (applied: nat)
      requires IsDiff(diff) && document.Valid() && Refreshed(document.text, diff)
      modifies document, document.history
      ensures document.Valid() && applied == |Applicable(hunks[..])|
      ensures applied == 0 && !HasConflicts() <==> IsSettled()
      ensures applied == 0 ==> document.State() == old(document.State()) && document.version == old(document.version)
      ensures applied > 0 ==>
                var c := ChangeOf(Build(AcceptedEdits(Applicable(hunks[..])), |old(document.text)|));
                c.Valid() && document.State() == old(document.State()).Next(Type(c, Histories.EditSource.Agent(id)))
      ensures var current := old(document.text);
              var kept := KeptOf(baseText, proposedText, diff(baseText, proposedText), current, diff(baseText, current));
              var ours := HumanEdits(baseText, current, diff(baseText, current));
              && Ordered(Merge(ours, kept), 0, |baseText|) && Ordered(Merge(Survivors(ours, kept), kept), 0, |baseText|)
              && document.text == Splice(baseText, 0, Merge(Survivors(ours, kept), kept))
              && (document.text == Splice(baseText, 0, Merge(ours, kept)) <==> !AnySwallowed(ours, kept))
    {
      hide KeptOf, HumanEdits, Survivors, Merge, Splice, Ordered, AnySwallowed, Build, AcceptedEdits, ReviewOf;
      var c := AcceptedChange(document.text, diff);
      applied := |Applicable(hunks[..])|;
      SettledExactly(hunks[..]);
      if applied > 0 {
        var error := document.Edit(c, Histories.EditSource.Agent(id));
        Recorded(old(document.State()), c, Histories.EditSource.Agent(id));
      } else {
        NothingAccepted(hunks[..], c, document.text);
      }
    }
  }

  /** Operations with the lengths they have. */
  function ChangeOf(ops: Ops): ChangeSet { ChangeSet(ops, InputLen(ops), OutputLen(ops)) }

  lemma {:induction false} SettledExactly(hunks: seq<Hunk>)
    ensures Applicable(hunks) == [] && (forall h :: h in hunks ==> !h.state.Conflicted?) <==>
            forall h :: h in hunks ==> h.state.Satisfied?
    decreases |hunks|
  {
    if hunks != [] {
      SettledExactly(hunks[1..]);
      assert hunks == [hunks[0]] + hunks[1..];
    }
  }

  /** What an edit that fits leaves of the text, whether or not it is worth recording. */
  lemma Recorded(s: Session, c: ChangeSet, source: Histories.EditSource)
    requires s.Valid() && c.Valid() && c.lenBefore == |s.line.Text()|
    ensures s.Next(Type(c, source)).Valid() && s.Next(Type(c, source)).line.Text() == c.Apply(s.line.Text())
  {
    NextKeeps(s, Type(c, source));
    if c.IsIdentity() {
      IdentityKeeps(c, s.line.Text());
    }
  }

  lemma NothingAccepted(hunks: seq<Hunk>, c: ChangeSet, current: string)
    requires Applicable(hunks) == [] && c.Valid() && c.lenBefore == |current|
    requires c.ops == Build(AcceptedEdits(Applicable(hunks)), |current|)
    ensures c.Apply(current) == current
  {
    var none: seq<Edit> := [];
    assert AcceptedEdits([]) == none;
    BuildApplies(none, current);
    assert Splice(current, 0, none) == current;
  }

  /** Once the text is what the agent proposed, every hunk of the review reports itself done. */
  lemma DoneIsSettled(base: string, proposed: string, script: seq<DiffOp>)
    requires ValidScript(script, base, proposed) && base != proposed
    ensures forall h :: h in ReviewOf(base, proposed, script, proposed, script) ==> h.state.Satisfied?
  {
    hide ValidScript, HunksFromDiff;
    var hunks := HunksFromDiff(base, proposed, script);
    var rebased := ReviewOf(base, proposed, script, proposed, script);
    forall i | 0 <= i < |rebased|
      ensures rebased[i].state.Satisfied?
    {
      assert hunks[i] in hunks;
    }
  }

  /** An undone edit leaves no trace: refreshed on its own base, every hunk is clean again. */
  lemma BackToBase(base: string, proposed: string, agent: seq<DiffOp>, human: seq<DiffOp>)
    requires ValidScript(agent, base, proposed) && ValidScript(human, base, base)
    ensures ReviewOf(base, proposed, agent, base, human) == HunksFromDiff(base, proposed, agent)
    ensures forall h :: h in ReviewOf(base, proposed, agent, base, human) ==> h.state.Clean?
    ensures Ordered(CleanEdits(ReviewOf(base, proposed, agent, base, human)), 0, |base|)
    ensures Splice(base, 0, CleanEdits(ReviewOf(base, proposed, agent, base, human))) == proposed
  {
    var hunks := HunksFromDiff(base, proposed, agent);
    HunksStartClean(agent, 0, 0, 0, SplitLines(base), SplitLines(proposed));
    DiffIsExact(base, proposed, agent);
    AllApplicable(hunks);
  }

  lemma {:induction false} AllApplicable(hunks: seq<Hunk>)
    requires forall h :: h in hunks ==> h.state.Clean?
    ensures Applicable(hunks) == hunks
    decreases |hunks|
  {
    if hunks != [] {
      AllApplicable(hunks[1..]);
      assert hunks == [hunks[0]] + hunks[1..];
    }
  }

  // ----- the boundary case at work ----------------------------------------------------

  const READ := "a\nb\n"
  const PROPOSED := "A\nb\n"
  const TYPED := "a\nx\nb\n"
  const AGENT_SCRIPT := [DiffOp(Replaced, 0, 1, 0, 1), DiffOp(Equal, 1, 2, 1, 2)]
  const HUMAN_SCRIPT := [DiffOp(Equal, 0, 1, 0, 1), DiffOp(Added, 1, 1, 1, 2), DiffOp(Equal, 1, 2, 2, 3)]

  lemma FirstLine(x: char, rest: string)
    requires x != '\n'
    ensures SplitLines([x, '\n'] + rest) == [[x, '\n']] + SplitLines(rest)
  {
    var text := [x, '\n'] + rest;
    assert text[1..][0] == '\n';
    assert LineLen(text) == 2 && text[..2] == [x, '\n'] && text[2..] == rest;
  }

  lemma BoundaryLines()
    ensures SplitLines(READ) == ["a\n", "b\n"]
    ensures SplitLines(PROPOSED) == ["A\n", "b\n"]
    ensures SplitLines(TYPED) == ["a\n", "x\n", "b\n"]
  {
    hide SplitLines;
    LastLine('b');
    assert READ == ['a', '\n'] + ['b', '\n'] && PROPOSED == ['A', '\n'] + ['b', '\n'];
    assert TYPED == ['a', '\n'] + (['x', '\n'] + ['b', '\n']);
    FirstLine('a', ['b', '\n']);
    FirstLine('A', ['b', '\n']);
    FirstLine('x', ['b', '\n']);
    FirstLine('a', ['x', '\n'] + ['b', '\n']);
  }

  lemma LastLine(x: char)
    requires x != '\n'
    ensures SplitLines([x, '\n']) == [[x, '\n']]
  {
    FirstLine(x, "");
    assert [x, '\n'] + "" == [x, '\n'];
  }

  lemma BoundaryAgent()
    ensures ValidScript(AGENT_SCRIPT, READ, PROPOSED)
    ensures HunksFromDiff(READ, PROPOSED, AGENT_SCRIPT) == [Hunk(0, 2, "A\n", Clean)]
  {
    BoundaryLines();
    hide SplitLines;
    var before, after := ["a\n", "b\n"], ["A\n", "b\n"];
    assert Tiles(AGENT_SCRIPT, 1, 1, 1, before, after);
    assert Offset(before, 1) == 2;
    assert after[0..1] == ["A\n"] && Concat(["A\n"]) == "A\n";
    assert HunksFrom(AGENT_SCRIPT, 1, 1, 1, before, after) == [];
  }

  lemma BoundaryHuman()
    ensures ValidScript(HUMAN_SCRIPT, READ, TYPED)
    ensures HunksFromDiff(READ, TYPED, HUMAN_SCRIPT) == [Hunk(2, 2, "x\n", Clean)]
  {
    BoundaryLines();
    hide SplitLines;
    var before, now := ["a\n", "b\n"], ["a\n", "x\n", "b\n"];
    assert Tiles(HUMAN_SCRIPT, 2, 1, 2, before, now);
    assert Tiles(HUMAN_SCRIPT, 1, 1, 1, before, now);
    assert Offset(before, 1) == 2;
    assert now[1..2] == ["x\n"] && Concat(["x\n"]) == "x\n";
    assert HunksFrom(HUMAN_SCRIPT, 2, 1, 2, before, now) == [];
  }

  lemma BoundaryEdits()
    ensures AcceptedEdits([Hunk(2, 2, "x\n", Clean)]) == [Edit(2, 2, "x\n")]
  {
    hide Sort;
    var typed := Hunk(2, 2, "x\n", Clean);
    SortAlready([typed], KeyLe);
    assert [typed][1..] == [];
  }

  lemma BoundaryBuild()
    ensures Build([Edit(2, 2, "x\n")], 4) == [Retain(2), Insert("x\n"), Retain(2)]
  {
    var e := Edit(2, 2, "x\n");
    assert BuildOnto([e][1..], 2, [Retain(2), Insert("x\n")]) == [Retain(2), Insert("x\n")];
    assert BuildOnto([e], 0, []) == [Retain(2), Insert("x\n")];
  }

  lemma BoundaryCatchUp()
    requires ValidScript(HUMAN_SCRIPT, READ, TYPED)
    requires HunksFromDiff(READ, TYPED, HUMAN_SCRIPT) == [Hunk(2, 2, "x\n", Clean)]
    ensures CatchUp(READ, TYPED, HUMAN_SCRIPT) == [Retain(2), Insert("x\n"), Retain(2)]
  {
    hide HunksFromDiff, AcceptedEdits, Build, ValidScript;
    BoundaryEdits();
    BoundaryBuild();
  }

  /** The agent rewrites the first line, the human adds a line right behind it, the hunk stays
      clean, and accepting it removes the human's line. */
  lemma InsertionAtEndIsLost()
    ensures ValidScript(AGENT_SCRIPT, READ, PROPOSED) && ValidScript(HUMAN_SCRIPT, READ, TYPED)
    ensures ReviewOf(READ, PROPOSED, AGENT_SCRIPT, TYPED, HUMAN_SCRIPT) == [Hunk(0, 4, "A\n", Clean)]
    ensures Ordered([Edit(0, 4, "A\n")], 0, |TYPED|) && Splice(TYPED, 0, [Edit(0, 4, "A\n")]) == "A\nb\n"
  {
    hide *;
    BoundaryAgent();
    BoundaryHuman();
    BoundaryCatchUp();
    BoundaryReview();
    BoundarySplice();
  }

  lemma BoundaryReview()
    requires ValidScript(AGENT_SCRIPT, READ, PROPOSED) && ValidScript(HUMAN_SCRIPT, READ, TYPED)
    requires HunksFromDiff(READ, PROPOSED, AGENT_SCRIPT) == [Hunk(0, 2, "A\n", Clean)]
    requires HunksFromDiff(READ, TYPED, HUMAN_SCRIPT) == [Hunk(2, 2, "x\n", Clean)]
    requires CatchUp(READ, TYPED, HUMAN_SCRIPT) == [Retain(2), Insert("x\n"), Retain(2)]
    ensures ReviewOf(READ, PROPOSED, AGENT_SCRIPT, TYPED, HUMAN_SCRIPT) == [Hunk(0, 4, "A\n", Clean)]
  {
    hide SplitLines, HunksFrom, Tiles, ValidScript, HunksFromDiff, CatchUp;
    var ops := [Retain(2), Insert("x\n"), Retain(2)];
    assert TouchFrom(ops, 1, 2, 0, 2).Untouched?;
    assert MapFrom(ops, 1, 0, After) == 2;
    assert |READ| == 4 && |TYPED| == 6;
  }

  lemma BoundarySplice()
    ensures Ordered([Edit(0, 4, "A\n")], 0, |TYPED|) && Splice(TYPED, 0, [Edit(0, 4, "A\n")]) == "A\nb\n"
  {
    var e := Edit(0, 4, "A\n");
    assert [e][1..] == [] && TYPED[4..] == "b\n" && Splice(TYPED, 4, []) == "b\n";
  }
}
