/** Carrying an agent's hunks onto a text the human has been typing in. */
module Rebasing {
  import opened Change
  import opened ChangeSets
  import opened Edits
  import opened Survival
  import opened Positions
  import opened ChangeLaws
  import opened Options
  import opened Review
  import opened Diffing
  import opened Accepting
  import opened Sorting

  /** The human made exactly this change already. */
  predicate AlreadyMade(human: seq<Hunk>, hunk: Hunk) {
    exists h :: h in human && h.start == hunk.start && h.end == hunk.end && h.text == hunk.text
  }

  /** One hunk carried over the catch-up change `ops`. */
  function RebaseHunk(hunk: Hunk, human: seq<Hunk>, ops: Ops): Hunk {
    if AlreadyMade(human, hunk) then hunk.(state := Satisfied)
    else match ReasonOf(Touches(ops, hunk.start, hunk.end))
      case Some(reason) => hunk.(state := Conflicted(reason))
      case None => hunk.(start := MapPos(ops, hunk.start, After), end := MapPos(ops, hunk.end, After))
  }

  /** What the human did, in hunk form, and as one change of the base. */
  function HumanHunks(base: string, current: string, script: seq<DiffOp>): seq<Hunk>
    requires ValidScript(script, base, current)
  {
    HunksFromDiff(base, current, script)
  }

  function CatchUp(base: string, current: string, script: seq<DiffOp>): Ops
    requires ValidScript(script, base, current)
  {
    Build(AcceptedEdits(HumanHunks(base, current, script)), |base|)
  }

  function Rebased(hunks: seq<Hunk>, base: string, current: string, script: seq<DiffOp>): (rebased: seq<Hunk>)
    requires ValidScript(script, base, current)
    ensures |rebased| == |hunks|
  {
    if base == current then hunks
    else
      var human, ops := HumanHunks(base, current, script), CatchUp(base, current, script);
      seq(|hunks|, i requires 0 <= i < |hunks| => RebaseHunk(hunks[i], human, ops))
  }

  /** Hunks in document order, as a list of edits, pass through accepting unchanged. */
  lemma OrderedHunks(hunks: seq<Hunk>, len: nat)
    requires Ordered(EditsOfHunks(hunks), 0, len)
    ensures Compatible(hunks, len) && Sorted(hunks, KeyLe) && AcceptedEdits(hunks) == EditsOfHunks(hunks)
  {
    var edits := EditsOfHunks(hunks);
    forall h | h in hunks
      ensures h.start <= h.end <= len
    {
      var i :| 0 <= i < |hunks| && hunks[i] == h;
      assert edits[i].start <= edits[i].end;
    }
    forall i, j | 0 <= i < |hunks| && 0 <= j < |hunks| && i != j
      ensures HunksApart(hunks[i], hunks[j]) && (i < j ==> KeyLe(hunks[i], hunks[j]))
    {
      assert if i < j then edits[i].end <= edits[j].start else edits[j].end <= edits[i].start;
      assert edits[i].start <= edits[i].end && edits[j].start <= edits[j].end;
    }
    SortAlready(hunks, KeyLe);
  }

  /** The catch-up change is what the human did: it carries the base to the current text. */
  lemma CatchUpIsExact(base: string, current: string, script: seq<DiffOp>)
    requires ValidScript(script, base, current)
    ensures var ops := CatchUp(base, current, script);
            Canonical(ops) && InputLen(ops) == |base| && Apply(ops, base) == current
  {
    var hunks := HumanHunks(base, current, script);
    DiffIsExact(base, current, script);
    OrderedHunks(hunks, |base|);
    BuildApplies(AcceptedEdits(hunks), base);
  }

  /** The human's work as maximal edits of the base; none when nothing moved. */
  function HumanEdits(base: string, current: string, script: seq<DiffOp>): seq<Edit>
    requires ValidScript(script, base, current)
  {
    if base == current then [] else EditsOf(CatchUp(base, current, script))
  }

  lemma HumanEditsMakeCurrent(base: string, current: string, script: seq<DiffOp>)
    requires ValidScript(script, base, current)
    ensures Ordered(HumanEdits(base, current, script), 0, |base|) && Separated(HumanEdits(base, current, script))
    ensures Splice(base, 0, HumanEdits(base, current, script)) == current
  {
    if base != current {
      CatchUpIsExact(base, current, script);
      EditsApply(CatchUp(base, current, script), base);
    }
  }

  /** When the diff library reports maximal changes, the human's edits are its very hunks. */
  lemma HumanEditsAreHunks(base: string, current: string, script: seq<DiffOp>)
    requires ValidScript(script, base, current) && base != current
    requires Separated(EditsOfHunks(HumanHunks(base, current, script)))
    ensures HumanEdits(base, current, script) == EditsOfHunks(HumanHunks(base, current, script))
  {
    var hunks := HumanHunks(base, current, script);
    DiffIsExact(base, current, script);
    OrderedHunks(hunks, |base|);
    BuildRoundTrip(EditsOfHunks(hunks), |base|);
  }

  // ----- the hunks that stay clean ----------------------------------------------------

  /** The hunks that can be applied as they stand. */
  function Applicable(hunks: seq<Hunk>): seq<Hunk> {
    if hunks == [] then []
    else if hunks[0].state.Clean? then [hunks[0]] + Applicable(hunks[1..])
    else Applicable(hunks[1..])
  }

  function CleanEdits(hunks: seq<Hunk>): seq<Edit> { EditsOfHunks(Applicable(hunks)) }

  /** The edits, still in base coordinates, of the hunks that `rebased` reports as clean. */
  function KeptEdits(hunks: seq<Hunk>, rebased: seq<Hunk>): seq<Edit>
    requires |hunks| == |rebased|
  {
    if hunks == [] then []
    else if rebased[0].state.Clean? then [hunks[0].AsEdit()] + KeptEdits(hunks[1..], rebased[1..])
    else KeptEdits(hunks[1..], rebased[1..])
  }

  lemma {:induction false} KeptOrdered(hunks: seq<Hunk>, rebased: seq<Hunk>, at: nat, len: nat)
    requires |hunks| == |rebased| && Ordered(EditsOfHunks(hunks), at, len)
    ensures Ordered(KeptEdits(hunks, rebased), at, len)
    decreases |hunks|
  {
    if hunks != [] {
      var edits := EditsOfHunks(hunks);
      OrderedTail(edits, at, len);
      assert EditsOfHunks(hunks[1..]) == edits[1..];
      KeptOrdered(hunks[1..], rebased[1..], hunks[0].end, len);
      if rebased[0].state.Clean? {
        OrderedCons(hunks[0].AsEdit(), KeptEdits(hunks[1..], rebased[1..]), at, len);
      } else {
        OrderedEarlierFrom(KeptEdits(hunks[1..], rebased[1..]), at, hunks[0].end, len);
      }
    }
  }

  /** Carried over `human`, one clean hunk after another, in the way the edits say. */
  ghost predicate Follows(hunks: seq<Hunk>, rebased: seq<Hunk>, human: seq<Edit>) {
    && |hunks| == |rebased|
    && forall i :: 0 <= i < |hunks| && rebased[i].state.Clean? ==>
         && rebased[i].AsEdit() == MoveEdit(human, 0, 0, hunks[i].AsEdit())
         && forall k :: 0 <= k < |human| ==> Apart(human[k], hunks[i].AsEdit())
  }

  lemma {:induction false} CleanAreMoved(hunks: seq<Hunk>, rebased: seq<Hunk>, human: seq<Edit>)
    requires Follows(hunks, rebased, human)
    ensures CleanEdits(rebased) == MoveEdits(human, 0, 0, KeptEdits(hunks, rebased))
    ensures AllApart(human, KeptEdits(hunks, rebased))
    decreases |hunks|
  {
    if hunks != [] {
      CleanAreMoved(hunks[1..], rebased[1..], human);
      if rebased[0].state.Clean? {
        assert rebased[0].AsEdit() == MoveEdit(human, 0, 0, hunks[0].AsEdit());
        var kept := KeptEdits(hunks[1..], rebased[1..]);
        EditsOfCons(rebased[0], Applicable(rebased[1..]));
        assert KeptEdits(hunks, rebased) == [hunks[0].AsEdit()] + kept;
        AllApartCons(human, hunks[0].AsEdit(), kept);
      }
    }
  }

  lemma AllApartCons(ours: seq<Edit>, e: Edit, rest: seq<Edit>)
    requires AllApart(ours, rest) && forall k :: 0 <= k < |ours| ==> Apart(ours[k], e)
    ensures AllApart(ours, [e] + rest)
  {
  }

  lemma HunkFollows(h: Hunk, human: seq<Hunk>, ops: Ops)
    requires Canonical(ops) && h.start <= h.end && h.state.Clean? && RebaseHunk(h, human, ops).state.Clean?
    ensures RebaseHunk(h, human, ops).AsEdit() == MoveEdit(EditsOf(ops), 0, 0, h.AsEdit())
    ensures forall k :: 0 <= k < |EditsOf(ops)| ==> Apart(EditsOf(ops)[k], h.AsEdit())
  {
    hide Canonical, EditsFrom, MapFrom, TouchFrom, Move;
    MapIsMove(ops, 0, 0, 0, h.start);
    MapIsMove(ops, 0, 0, 0, h.end);
    UntouchedIsClear(ops, 0, 0, h.AsEdit());
  }

  lemma RebasedFollows(hunks: seq<Hunk>, base: string, current: string, script: seq<DiffOp>)
    requires ValidScript(script, base, current) && Ordered(EditsOfHunks(hunks), 0, |base|)
    requires forall h :: h in hunks ==> h.state.Clean?
    ensures Follows(hunks, Rebased(hunks, base, current, script), HumanEdits(base, current, script))
  {
    if base != current {
      hide Canonical, EditsFrom, RebaseHunk, Move, CatchUp, HumanHunks, ValidScript;
      CatchUpIsExact(base, current, script);
      forall i | 0 <= i < |hunks| && Rebased(hunks, base, current, script)[i].state.Clean?
        ensures Rebased(hunks, base, current, script)[i].AsEdit() ==
                MoveEdit(HumanEdits(base, current, script), 0, 0, hunks[i].AsEdit())
        ensures forall k :: 0 <= k < |HumanEdits(base, current, script)| ==>
                  Apart(HumanEdits(base, current, script)[k], hunks[i].AsEdit())
      {
        assert EditsOfHunks(hunks)[i] == hunks[i].AsEdit();
        HunkFollows(hunks[i], HumanHunks(base, current, script), CatchUp(base, current, script));
      }
    }
  }

  /** An agent's proposal over `base`, carried onto `current`. */
  function ReviewOf(base: string, proposed: string, agent: seq<DiffOp>, current: string, human: seq<DiffOp>): seq<Hunk>
    requires ValidScript(agent, base, proposed) && ValidScript(human, base, current)
  {
    Rebased(HunksFromDiff(base, proposed, agent), base, current, human)
  }

  /** The agent's edits, in base coordinates, whose hunks the review reports as clean. */
  function KeptOf(base: string, proposed: string, agent: seq<DiffOp>, current: string, human: seq<DiffOp>): seq<Edit>
    requires ValidScript(agent, base, proposed) && ValidScript(human, base, current)
  {
    KeptEdits(HunksFromDiff(base, proposed, agent), ReviewOf(base, proposed, agent, current, human))
  }

  /** What every review has: the clean hunks are the kept edits moved over the human's edits. */
  lemma ReviewMoves(base: string, proposed: string, agent: seq<DiffOp>, current: string, human: seq<DiffOp>)
    requires ValidScript(agent, base, proposed) && ValidScript(human, base, current)
    ensures var kept, ours := KeptOf(base, proposed, agent, current, human), HumanEdits(base, current, human);
            && Walk(ours, kept, 0, 0, base, current)
            && CleanEdits(ReviewOf(base, proposed, agent, current, human)) == MoveEdits(ours, 0, 0, kept)
  {
    var hunks := HunksFromDiff(base, proposed, agent);
    var rebased := ReviewOf(base, proposed, agent, current, human);
    var ours := HumanEdits(base, current, human);
    DiffIsExact(base, proposed, agent);
    HunksStartClean(agent, 0, 0, 0, Lines.SplitLines(base), Lines.SplitLines(proposed));
    RebasedFollows(hunks, base, current, human);
    KeptOrdered(hunks, rebased, 0, |base|);
    CleanAreMoved(hunks, rebased, ours);
    HumanEditsMakeCurrent(base, current, human);
    assert current[0..] == current;
  }

  /** Three-way merge. Accepting every clean hunk gives the base with those hunks and the human's
      edits spliced in together, but for the insertions that stand exactly where a clean hunk
      ends. So nothing the human typed is lost if and only if no clean hunk swallows an insertion. */
  lemma RebaseMerges(base: string, proposed: string, agent: seq<DiffOp>, current: string, human: seq<DiffOp>)
    requires ValidScript(agent, base, proposed) && ValidScript(human, base, current)
    ensures var kept, ours := KeptOf(base, proposed, agent, current, human), HumanEdits(base, current, human);
            var clean := CleanEdits(ReviewOf(base, proposed, agent, current, human));
            && Ordered(ours, 0, |base|) && Splice(base, 0, ours) == current
            && Ordered(clean, 0, |current|) && Ordered(Merge(ours, kept), 0, |base|)
            && Ordered(Merge(Survivors(ours, kept), kept), 0, |base|)
            && Splice(current, 0, clean) == Splice(base, 0, Merge(Survivors(ours, kept), kept))
            && (Survivors(ours, kept) == ours <==> !AnySwallowed(ours, kept))
            && (Splice(current, 0, clean) == Splice(base, 0, Merge(ours, kept)) <==> !AnySwallowed(ours, kept))
            && (AnySwallowed(ours, kept) ==> |Splice(current, 0, clean)| < |Splice(base, 0, Merge(ours, kept))|)
  {
    var kept, ours := KeptOf(base, proposed, agent, current, human), HumanEdits(base, current, human);
    HumanEditsMakeCurrent(base, current, human);
    ReviewMoves(base, proposed, agent, current, human);
    hide *;
    SplicesSurvive(ours, kept, base, current);
  }

  lemma SplicesSurvive(ours: seq<Edit>, kept: seq<Edit>, base: string, current: string)
    requires Walk(ours, kept, 0, 0, base, current)
    ensures var clean := MoveEdits(ours, 0, 0, kept);
            && Ordered(clean, 0, |current|) && Ordered(Merge(ours, kept), 0, |base|)
            && Ordered(Merge(Survivors(ours, kept), kept), 0, |base|)
            && Splice(current, 0, clean) == Splice(base, 0, Merge(Survivors(ours, kept), kept))
            && (Survivors(ours, kept) == ours <==> !AnySwallowed(ours, kept))
            && (Splice(current, 0, clean) == Splice(base, 0, Merge(ours, kept)) <==> !AnySwallowed(ours, kept))
            && (AnySwallowed(ours, kept) ==> |Splice(current, 0, clean)| < |Splice(base, 0, Merge(ours, kept))|)
  {
    hide Walk, Ordered, Splice, Survivors, Merge, MoveEdits, AnySwallowed;
    var lost := MergeSplices(ours, kept, 0, 0, base, current);
    AllSurvive(ours, kept);
    SurvivorsMergeOrdered(ours, kept, 0, 0, base, current);
    MovedIsKept(ours, kept, 0, 0, base, current);
  }

  // ----- accepting some of the clean hunks --------------------------------------------

  function Pick(hunks: seq<Hunk>, picks: seq<nat>): (picked: seq<Hunk>)
    requires forall k :: 0 <= k < |picks| ==> picks[k] < |hunks|
    ensures |picked| == |picks|
  {
    seq(|picks|, k requires 0 <= k < |picks| => hunks[picks[k]])
  }

  /** Any choice of clean hunks, listed in any order, can be accepted together: they are inside
      the current text and do not overlap. */
  lemma AcceptanceIsWellFormed(base: string, proposed: string, agent: seq<DiffOp>, current: string, human: seq<DiffOp>,
                               picks: seq<nat>)
    requires ValidScript(agent, base, proposed) && ValidScript(human, base, current)
    requires var rebased := ReviewOf(base, proposed, agent, current, human);
             && (forall k :: 0 <= k < |picks| ==> picks[k] < |rebased| && rebased[picks[k]].state.Clean?)
             && (forall k, l :: 0 <= k < l < |picks| ==> picks[k] != picks[l])
    ensures Compatible(Pick(ReviewOf(base, proposed, agent, current, human), picks), |current|)
  {
    var hunks := HunksFromDiff(base, proposed, agent);
    var rebased := ReviewOf(base, proposed, agent, current, human);
    var ours := HumanEdits(base, current, human);
    DiffIsExact(base, proposed, agent);
    HunksStartClean(agent, 0, 0, 0, Lines.SplitLines(base), Lines.SplitLines(proposed));
    RebasedFollows(hunks, base, current, human);
    HumanEditsMakeCurrent(base, current, human);
    assert current[0..] == current;
    MoveEditsOrdered(ours, 0, 0, EditsOfHunks(hunks), base, current);
    PicksFit(hunks, rebased, ours, picks, |current|);
  }

  lemma PicksFit(hunks: seq<Hunk>, rebased: seq<Hunk>, ours: seq<Edit>, picks: seq<nat>, len: nat)
    requires Follows(hunks, rebased, ours) && Ordered(MoveEdits(ours, 0, 0, EditsOfHunks(hunks)), 0, len)
    requires forall k :: 0 <= k < |picks| ==> picks[k] < |rebased| && rebased[picks[k]].state.Clean?
    requires forall k, l :: 0 <= k < l < |picks| ==> picks[k] != picks[l]
    ensures Compatible(Pick(rebased, picks), len)
  {
    var moved, picked := MoveEdits(ours, 0, 0, EditsOfHunks(hunks)), Pick(rebased, picks);
    forall k | 0 <= k < |picks|
      ensures picked[k].AsEdit() == moved[picks[k]]
    {
    }
    forall k, l | 0 <= k < |picks| && 0 <= l < |picks| && k != l
      ensures HunksApart(picked[k], picked[l])
    {
      var i, j := picks[k], picks[l];
      assert i != j;
      assert if i < j then moved[i].end <= moved[j].start else moved[j].end <= moved[i].start;
    }
  }

  predicate Rising(picks: seq<nat>) { forall k, l :: 0 <= k < l < |picks| ==> picks[k] < picks[l] }

  /** Accepting any of the clean hunks, listed as the review lists them, merges just these: the human's edits and
      the agent's picked ones, but for the human insertions that a picked hunk swallows. */
  lemma PicksMerge(base: string, proposed: string, agent: seq<DiffOp>, current: string, human: seq<DiffOp>, picks: seq<nat>)
    requires ValidScript(agent, base, proposed) && ValidScript(human, base, current) && Rising(picks)
    requires var rebased := ReviewOf(base, proposed, agent, current, human);
             forall k :: 0 <= k < |picks| ==> picks[k] < |rebased| && rebased[picks[k]].state.Clean?
    ensures |HunksFromDiff(base, proposed, agent)| == |ReviewOf(base, proposed, agent, current, human)|
    ensures var ours := HumanEdits(base, current, human);
            var theirs := EditsOfHunks(Pick(HunksFromDiff(base, proposed, agent), picks));
            var accepted := AcceptedEdits(Pick(ReviewOf(base, proposed, agent, current, human), picks));
            && Ordered(accepted, 0, |current|) && Ordered(Merge(Survivors(ours, theirs), theirs), 0, |base|)
            && Splice(current, 0, accepted) == Splice(base, 0, Merge(Survivors(ours, theirs), theirs))
            && (Survivors(ours, theirs) == ours <==> !AnySwallowed(ours, theirs))
  {
    var hunks := HunksFromDiff(base, proposed, agent);
    var rebased := ReviewOf(base, proposed, agent, current, human);
    var ours := HumanEdits(base, current, human);
    DiffIsExact(base, proposed, agent);
    HunksStartClean(agent, 0, 0, 0, Lines.SplitLines(base), Lines.SplitLines(proposed));
    RebasedFollows(hunks, base, current, human);
    HumanEditsMakeCurrent(base, current, human);
    assert current[0..] == current;
    hide *;
    PicksWalk(hunks, rebased, ours, picks, base, current);
    SplicesSurvive(ours, EditsOfHunks(Pick(hunks, picks)), base, current);
    OrderedHunks(Pick(rebased, picks), |current|);
  }

  lemma PicksWalk(hunks: seq<Hunk>, rebased: seq<Hunk>, ours: seq<Edit>, picks: seq<nat>, base: string, current: string)
    requires Follows(hunks, rebased, ours) && Ordered(EditsOfHunks(hunks), 0, |base|) && Rising(picks)
    requires Ordered(ours, 0, |base|) && Separated(ours) && current[0..] == Splice(base, 0, ours)
    requires forall k :: 0 <= k < |picks| ==> picks[k] < |rebased| && rebased[picks[k]].state.Clean?
    ensures |hunks| == |rebased| && Walk(ours, EditsOfHunks(Pick(hunks, picks)), 0, 0, base, current)
    ensures EditsOfHunks(Pick(rebased, picks)) == MoveEdits(ours, 0, 0, EditsOfHunks(Pick(hunks, picks)))
  {
    var all, theirs := EditsOfHunks(hunks), EditsOfHunks(Pick(hunks, picks));
    forall k | 0 <= k < |picks|
      ensures theirs[k] == all[picks[k]] && EditsOfHunks(Pick(rebased, picks))[k] == MoveEdit(ours, 0, 0, theirs[k])
      ensures forall i :: 0 <= i < |ours| ==> Apart(ours[i], theirs[k])
    {
      assert theirs[k] == hunks[picks[k]].AsEdit();
    }
  }
}
