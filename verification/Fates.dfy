/** What becomes of a range under review, told from the edits made and not from how they are traversed. */
module Fates {
  import opened Change
  import opened ChangeSets
  import opened Edits
  import opened Positions
  import opened Options
  import opened Review
  import opened Diffing
  import opened Rebasing
  import opened Decorations

  predicate Within(p: nat, from: nat, to: nat) { from <= p < to }

  /** The edit replaces a char of `from..to`, or all around it where the range is a place between two chars. */
  ghost predicate Takes(e: Edit, from: nat, to: nat) {
    (exists p :: Within(p, from, to) && Within(p, e.start, e.end)) || (from == to && e.start < from < e.end)
  }

  ghost predicate Loses(edits: seq<Edit>, from: nat, to: nat) {
    exists k :: 0 <= k < |edits| && Takes(edits[k], from, to)
  }

  /** Something was inserted between two chars of the range. */
  ghost predicate Splits(edits: seq<Edit>, from: nat, to: nat) {
    exists k :: 0 <= k < |edits| && edits[k].start == edits[k].end && from < edits[k].start < to
  }

  /** A range that lost text has lost its anchor, whatever else happened; one that was typed into was edited inside. */
  ghost predicate MeansFor(effect: RangeEffect, edits: seq<Edit>, from: nat, to: nat) {
    && (effect.PartlyDeleted? <==> Loses(edits, from, to))
    && (effect.InsertedInside? <==> !Loses(edits, from, to) && Splits(edits, from, to))
  }

  lemma TakenIsPart(e: Edit, from: nat, to: nat)
    requires e.start < e.end && from <= to
    ensures Takes(e, from, to) <==> DeletesPart(e.start, e.end, from, to)
  {
    if from < to && e.start < to && from < e.end {
      var p := if e.start < from then from else e.start;
      assert Within(p, from, to) && Within(p, e.start, e.end);
    }
  }

  lemma NotTaken(e: Edit, from: nat, to: nat)
    requires e.start == e.end
    ensures !Takes(e, from, to)
  {
  }

  lemma FateCons(e: Edit, rest: seq<Edit>, from: nat, to: nat)
    ensures Loses([e] + rest, from, to) <==> Takes(e, from, to) || Loses(rest, from, to)
    ensures Splits([e] + rest, from, to) <==> (e.start == e.end && from < e.start < to) || Splits(rest, from, to)
  {
    hide Takes;
    var edits := [e] + rest;
    assert edits[0] == e && edits[1..] == rest;
    if Loses(edits, from, to) && !Takes(e, from, to) {
      var k :| 0 <= k < |edits| && Takes(edits[k], from, to);
      assert rest[k - 1] == edits[k];
    }
    if Loses(rest, from, to) {
      var k :| 0 <= k < |rest| && Takes(rest[k], from, to);
      assert edits[k + 1] == rest[k];
    }
    if Splits(edits, from, to) && !(e.start == e.end && from < e.start < to) {
      var k :| 0 <= k < |edits| && edits[k].start == edits[k].end && from < edits[k].start < to;
      assert rest[k - 1] == edits[k];
    }
    if Splits(rest, from, to) {
      var k :| 0 <= k < |rest| && rest[k].start == rest[k].end && from < rest[k].start < to;
      assert edits[k + 1] == rest[k];
    }
  }

  /** The traversal at an edit: a deletion and the insertion behind it count as one replacement. */
  lemma TouchEdit(ops: Ops, i: nat, at: nat, from: nat, to: nat)
    requires Canonical(ops) && i < |ops| && !ops[i].Retain? && from <= to
    ensures var e, rest := EditAt(ops, i, at), TouchFrom(ops, i + EditWidth(ops, i), EditAt(ops, i, at).end, from, to);
            TouchFrom(ops, i, at, from, to) ==
            if e.start < e.end && DeletesPart(e.start, e.end, from, to) then PartlyDeleted
            else if e.start == e.end && rest.Untouched? && from < at < to then InsertedInside
            else rest
  {
    assert !ops[i].IsEmpty();
    if ops[i].Delete? && EditWidth(ops, i) == 2 {
      assert TouchFrom(ops, i + 1, at + ops[i].n, from, to).PartlyDeleted? ==>
               TouchFrom(ops, i + 2, at + ops[i].n, from, to).PartlyDeleted?;
    }
  }

  lemma {:induction false} TouchMeansFrom(ops: Ops, i: nat, at: nat, from: nat, to: nat)
    requires Canonical(ops) && i <= |ops| && from <= to
    ensures MeansFor(TouchFrom(ops, i, at, from, to), EditsFrom(ops, i, at), from, to)
    decreases |ops| - i
  {
    if i < |ops| {
      hide Canonical, Ordered, Separated, InputFrom, EditsFrom, Takes, Loses, Splits, DeletesPart;
      EditsStep(ops, i, at);
      if ops[i].Retain? {
        TouchMeansFrom(ops, i + 1, at + ops[i].n, from, to);
      } else {
        var e, j := EditAt(ops, i, at), i + EditWidth(ops, i);
        TouchMeansFrom(ops, j, e.end, from, to);
        TouchEdit(ops, i, at, from, to);
        FateCons(e, EditsFrom(ops, j, e.end), from, to);
        if e.start < e.end {
          TakenIsPart(e, from, to);
        } else {
          NotTaken(e, from, to);
        }
      }
    }
  }

  /** The effect of a change on a range, in terms of its edits. */
  lemma TouchMeans(ops: Ops, from: nat, to: nat)
    requires Canonical(ops) && from <= to
    ensures MeansFor(Touches(ops, from, to), EditsOf(ops), from, to)
  {
    TouchMeansFrom(ops, 0, 0, from, to);
  }

  /** Where a hunk under review stands once `edits` are made. */
  ghost function StateAfter(edits: seq<Edit>, from: nat, to: nat, was: HunkState): HunkState {
    if Loses(edits, from, to) then Conflicted(AnchorDeleted)
    else if Splits(edits, from, to) then Conflicted(EditedInsideRange)
    else was
  }

  /** Every hunk of a review, exactly: done where the human made that very change; in conflict where the human
      replaced or typed into its range; else clean and moved along. */
  lemma HunksAreClassified(hunks: seq<Hunk>, base: string, current: string, script: seq<DiffOp>, i: nat)
    requires ValidScript(script, base, current) && base != current
    requires i < |hunks| && hunks[i].start <= hunks[i].end
    ensures var h, human, edits := hunks[i], HumanHunks(base, current, script), HumanEdits(base, current, script);
            Rebased(hunks, base, current, script)[i] ==
            if exists k :: 0 <= k < |human| && human[k].AsEdit() == h.AsEdit() then h.(state := Satisfied)
            else if Loses(edits, h.start, h.end) then h.(state := Conflicted(AnchorDeleted))
            else if Splits(edits, h.start, h.end) then h.(state := Conflicted(EditedInsideRange))
            else h.(start := Move(edits, 0, 0, h.start), end := Move(edits, 0, 0, h.end))
  {
    hide Canonical, EditsFrom, TouchFrom, MapFrom, Move, Loses, Splits, ValidScript, CatchUp, HumanHunks;
    var h, ops := hunks[i], CatchUp(base, current, script);
    CatchUpIsExact(base, current, script);
    TouchMeans(ops, h.start, h.end);
    MapIsMove(ops, 0, 0, 0, h.start);
    MapIsMove(ops, 0, 0, 0, h.end);
  }

  /** What a change makes of one decoration: it goes when it can be found again from the text and its range was
      disturbed; else it moves along, and a hunk is marked with what happened to it. */
  ghost function Outcome(d: Decoration, edits: seq<Edit>): seq<Decoration> {
    var start, end := Move(edits, 0, 0, d.start), Move(edits, 0, 0, d.end);
    match d.class_
    case Hunk(proposal, side, state) =>
      [Decoration(start, end, Class.Hunk(proposal, side, StateAfter(edits, d.start, d.end, state)))]
    case _ =>
      if Loses(edits, d.start, d.end) || Splits(edits, d.start, d.end) then [] else [Decoration(start, end, d.class_)]
  }

  lemma OneIsCarried(d: Decoration, ops: Ops)
    requires Canonical(ops) && d.start <= d.end
    ensures (if Survives(d, ops) then [Carried(d, ops)] else []) == Outcome(d, EditsOf(ops))
  {
    hide Canonical, EditsFrom, TouchFrom, MapFrom, Move, Loses, Splits;
    TouchMeans(ops, d.start, d.end);
    MapIsMove(ops, 0, 0, 0, d.start);
    MapIsMove(ops, 0, 0, 0, d.end);
  }

  /** A set of decorations goes through a change one by one and in order. */
  lemma {:induction false} DecorationsAreCarried(items: seq<Decoration>, ops: Ops)
    requires Canonical(ops) && forall d :: d in items ==> d.start <= d.end
    ensures items == [] ==> MapItems(items, ops) == []
    ensures items != [] ==>
              MapItems(items, ops) == MapItems(items[..|items| - 1], ops) + Outcome(items[|items| - 1], EditsOf(ops))
    decreases |items|
  {
    hide Canonical, EditsFrom, Survives, Carried, Outcome;
    if |items| == 1 {
      OneIsCarried(items[0], ops);
      assert items[1..] == [] && items[..0] == [];
    } else if |items| > 1 {
      DecorationsAreCarried(items[1..], ops);
      assert items[1..][..|items| - 2] == items[..|items| - 1][1..];
    }
  }
}
