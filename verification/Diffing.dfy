/** From a whole-file before/after pair to hunks a human can accept one by one. */
module Diffing {
  import opened Edits
  import opened Lines
  import opened Options
  import opened Review

  datatype Tag = Equal | Removed | Added | Replaced

  /** One step of a line edit script: lines `oldFrom..oldTo` become lines `newFrom..newTo`. */
  datatype DiffOp = DiffOp(tag: Tag, oldFrom: nat, oldTo: nat, newFrom: nat, newTo: nat)

  /** What is asked of the diff library: from line `o` of `before` and line `n` of `after` on, the
      steps tile both sides, and steps marked equal carry equal lines. */
  predicate Tiles(script: seq<DiffOp>, i: nat, o: nat, n: nat, before: seq<string>, after: seq<string>)
    requires i <= |script|
    decreases |script| - i
  {
    if i == |script| then o == |before| && n == |after|
    else
      var op := script[i];
      && op.oldFrom == o <= op.oldTo <= |before|
      && op.newFrom == n <= op.newTo <= |after|
      && (op.tag.Equal? ==> before[o..op.oldTo] == after[n..op.newTo])
      && Tiles(script, i + 1, op.oldTo, op.newTo, before, after)
  }

  predicate ValidScript(script: seq<DiffOp>, before: string, after: string) {
    Tiles(script, 0, 0, 0, SplitLines(before), SplitLines(after))
  }

  /** A contiguous change to be accepted or rejected on its own, in char offsets. */
  datatype Hunk = Hunk(start: nat, end: nat, text: string, state: HunkState)
  {
    function AsEdit(): Edit { Edit(start, end, text) }
  }

  function EditsOfHunks(hunks: seq<Hunk>): (edits: seq<Edit>)
    ensures |edits| == |hunks|
  {
    seq(|hunks|, i requires 0 <= i < |hunks| => hunks[i].AsEdit())
  }

  function HunksFrom(script: seq<DiffOp>, i: nat, o: nat, n: nat, before: seq<string>, after: seq<string>): seq<Hunk>
    requires i <= |script| && Tiles(script, i, o, n, before, after)
    decreases |script| - i
  {
    if i == |script| then []
    else
      var op := script[i];
      var rest := HunksFrom(script, i + 1, op.oldTo, op.newTo, before, after);
      if op.tag.Equal? then rest
      else [Hunk(Offset(before, o), Offset(before, op.oldTo), Concat(after[n..op.newTo]), Clean)] + rest
  }

  function HunksFromDiff(before: string, after: string, script: seq<DiffOp>): seq<Hunk>
    requires ValidScript(script, before, after)
  {
    HunksFrom(script, 0, 0, 0, SplitLines(before), SplitLines(after))
  }

  lemma EditsOfCons(h: Hunk, rest: seq<Hunk>)
    ensures EditsOfHunks([h] + rest) == [h.AsEdit()] + EditsOfHunks(rest)
  {
  }

  /** Making every hunk turns the lines before into the lines after. */
  lemma {:induction false} HunksSplice(script: seq<DiffOp>, i: nat, o: nat, n: nat, before: seq<string>, after: seq<string>, doc: string)
    requires i <= |script| && Tiles(script, i, o, n, before, after) && doc == Concat(before)
    requires o <= |before| && n <= |after|
    ensures Offset(before, o) <= |doc|
    ensures Ordered(EditsOfHunks(HunksFrom(script, i, o, n, before, after)), Offset(before, o), |doc|)
    ensures Splice(doc, Offset(before, o), EditsOfHunks(HunksFrom(script, i, o, n, before, after))) == Concat(after[n..])
    decreases |script| - i
  {
    hide Concat, Offset, Splice, Ordered;
    if i == |script| {
      AllDone(before, after, doc);
    } else {
      var op := script[i];
      var at, to := Offset(before, o), Offset(before, op.oldTo);
      LinesBetween(before, o, op.oldTo);
      ConcatFrom(after, n, op.newTo);
      HunksSplice(script, i + 1, op.oldTo, op.newTo, before, after, doc);
      var rest := HunksFrom(script, i + 1, op.oldTo, op.newTo, before, after);
      if op.tag.Equal? {
        OrderedEarlierFrom(EditsOfHunks(rest), at, to, |doc|);
        SpliceSkips(doc, at, to, EditsOfHunks(rest));
      } else {
        var h := Hunk(at, to, Concat(after[n..op.newTo]), Clean);
        EditsOfCons(h, rest);
        OrderedCons(h.AsEdit(), EditsOfHunks(rest), at, |doc|);
        SpliceCons(doc, at, h.AsEdit(), EditsOfHunks(rest));
        EmptyBefore(doc, at, h.text + Splice(doc, to, EditsOfHunks(rest)));
      }
    }
  }

  lemma AllDone(before: seq<string>, after: seq<string>, doc: string)
    requires doc == Concat(before)
    ensures Offset(before, |before|) == |doc| && EditsOfHunks([]) == []
    ensures Ordered([], |doc|, |doc|) && Splice(doc, |doc|, []) == Concat(after[|after|..])
  {
    OffsetIsLength(before, |before|);
    assert before[..|before|] == before;
  }

  lemma EmptyBefore(doc: string, at: nat, s: string)
    requires at <= |doc|
    ensures doc[at..at] + s == s
  {
  }

  lemma OrderedEarlierFrom(edits: seq<Edit>, at: nat, to: nat, len: nat)
    requires Ordered(edits, to, len) && at <= to
    ensures Ordered(edits, at, len)
  {
  }

  /** For every pair of texts and every valid script between them, the hunks together are exact. */
  lemma DiffIsExact(before: string, after: string, script: seq<DiffOp>)
    requires ValidScript(script, before, after)
    ensures Ordered(EditsOfHunks(HunksFromDiff(before, after, script)), 0, |before|)
    ensures Splice(before, 0, EditsOfHunks(HunksFromDiff(before, after, script))) == after
  {
    var a, b := SplitLines(before), SplitLines(after);
    ConcatSplit(before);
    ConcatSplit(after);
    assert b[0..] == b && Offset(a, 0) == 0;
    HunksSplice(script, 0, 0, 0, a, b, before);
  }

  lemma {:induction false} HunksStartClean(script: seq<DiffOp>, i: nat, o: nat, n: nat, before: seq<string>, after: seq<string>)
    requires i <= |script| && Tiles(script, i, o, n, before, after)
    ensures forall h :: h in HunksFrom(script, i, o, n, before, after) ==> h.state.Clean?
    decreases |script| - i
  {
    if i < |script| {
      HunksStartClean(script, i + 1, script[i].oldTo, script[i].newTo, before, after);
    }
  }

  /** How many of the steps `i..to` change something. */
  function Changes(script: seq<DiffOp>, i: nat, to: nat): nat
    requires i <= to <= |script|
    decreases |script| - i
  {
    if i == to then 0 else Changes(script, i + 1, to) + if script[i].tag.Equal? then 0 else 1
  }

  /** One hunk for each step that changes something, in the script's order: from the chars before its lines to the
      chars up to their end, its text the lines of the other side. */
  lemma {:induction false} HunkOfStep(script: seq<DiffOp>, i: nat, o: nat, n: nat, before: seq<string>, after: seq<string>, k: nat)
    requires i <= k < |script| && Tiles(script, i, o, n, before, after) && !script[k].tag.Equal?
    ensures var hunks, at := HunksFrom(script, i, o, n, before, after), Changes(script, i, k);
            && script[k].oldFrom <= script[k].oldTo <= |before| && script[k].newFrom <= script[k].newTo <= |after|
            && at < |hunks|
            && hunks[at].start == |Concat(before[..script[k].oldFrom])|
            && hunks[at].end == |Concat(before[..script[k].oldTo])|
            && hunks[at].text == Concat(after[script[k].newFrom..script[k].newTo])
    decreases |script| - i
  {
    hide Concat, Offset;
    if i < k {
      HunkOfStep(script, i + 1, script[i].oldTo, script[i].newTo, before, after, k);
    } else {
      OffsetIsLength(before, o);
      OffsetIsLength(before, script[i].oldTo);
    }
  }

  lemma {:induction false} HunkCount(script: seq<DiffOp>, i: nat, o: nat, n: nat, before: seq<string>, after: seq<string>)
    requires i <= |script| && Tiles(script, i, o, n, before, after)
    ensures |HunksFrom(script, i, o, n, before, after)| == Changes(script, i, |script|)
    decreases |script| - i
  {
    hide Concat, Offset;
    if i < |script| {
      HunkCount(script, i + 1, script[i].oldTo, script[i].newTo, before, after);
    }
  }

  /** So the human decides step by step, and no step can be decided with another. */
  lemma HunksAreSteps(before: string, after: string, script: seq<DiffOp>)
    requires ValidScript(script, before, after)
    ensures var a, b, hunks := SplitLines(before), SplitLines(after), HunksFromDiff(before, after, script);
            && |hunks| == Changes(script, 0, |script|)
            && forall k :: 0 <= k < |script| && !script[k].tag.Equal? ==>
                 var op, at := script[k], Changes(script, 0, k);
                 && op.oldFrom <= op.oldTo <= |a| && op.newFrom <= op.newTo <= |b| && at < |hunks|
                 && hunks[at].AsEdit() ==
                    Edit(|Concat(a[..op.oldFrom])|, |Concat(a[..op.oldTo])|, Concat(b[op.newFrom..op.newTo]))
  {
    hide HunksFrom, Changes, Concat, Tiles;
    var a, b := SplitLines(before), SplitLines(after);
    HunkCount(script, 0, 0, 0, a, b);
    forall k | 0 <= k < |script| && !script[k].tag.Equal?
      ensures var op, at := script[k], Changes(script, 0, k);
              && op.oldFrom <= op.oldTo <= |a| && op.newFrom <= op.newTo <= |b| && at < |HunksFromDiff(before, after, script)|
              && HunksFromDiff(before, after, script)[at].AsEdit() ==
                 Edit(|Concat(a[..op.oldFrom])|, |Concat(a[..op.oldTo])|, Concat(b[op.newFrom..op.newTo]))
    {
      HunkOfStep(script, 0, 0, 0, a, b, k);
    }
  }
}
