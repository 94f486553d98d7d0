/** The undo log over two stacks, and a document that records its edits in one. */
module Histories {
  import opened Change
  import opened ChangeSets
  import opened Options
  import opened Review
  import opened Timelines

  datatype EditSource = Keyboard | Paste | Formatter | Lsp | Agent(proposal: nat) | Replaced
  {
    /** Only free typing runs together into one undo step. */
    predicate Coalesces() { Keyboard? }
  }

  datatype Transaction = Transaction(baseVersion: nat, changes: ChangeSet, source: EditSource, undoGroup: nat)

  class History {
    var applied: seq<Entry>
    /** Newest last. */
    var undone: seq<Entry>
    var nextGroup: nat
    var lastSource: Option<EditSource>
    var groupBroken: bool

    constructor ()
      ensures applied == [] && undone == [] && nextGroup == 0 && lastSource.None? && !groupBroken
    {
      applied, undone, nextGroup, lastSource, groupBroken := [], [], 0, None, false;
    }

    /** Whether an edit from `source` joins the newest run. */
    predicate Continues(source: EditSource)
      reads this
    {
      !groupBroken && source.Coalesces() && lastSource == Some(source) && applied != []
    }

    method GroupFor(source: EditSource) returns (group: nat)
      modifies this`nextGroup
      ensures if Continues(source)
              then group == applied[|applied| - 1].group && nextGroup == old(nextGroup)
              else group == nextGroup == old(nextGroup) + 1
    {
      if Continues(source) {
        return applied[|applied| - 1].group;
      }
      nextGroup := nextGroup + 1;
      group := nextGroup;
    }

    method BreakGroup()
      modifies this`groupBroken
      ensures groupBroken
    {
      groupBroken := true;
    }

    method Push(transaction: Transaction, inverse: ChangeSet)
      modifies this
      ensures nextGroup == old(nextGroup)
      ensures if transaction.changes.IsIdentity()
              then applied == old(applied) && undone == old(undone) && lastSource == old(lastSource) &&
                   groupBroken == old(groupBroken)
              else applied == old(applied) + [Entry(transaction.undoGroup, transaction.changes, inverse)] &&
                   undone == [] && lastSource == Some(transaction.source) && !groupBroken
    {
      if transaction.changes.IsIdentity() {
        return;
      }
      undone := [];
      groupBroken := false;
      lastSource := Some(transaction.source);
      applied := applied + [Entry(transaction.undoGroup, transaction.changes, inverse)];
    }

    /** The newest run moves to the other stack, newest entry first, and comes back composed. */
    method Undo() returns (change: Option<ChangeSet>)
      requires Composable(applied, Back)
      modifies this
      ensures nextGroup == old(nextGroup)
      ensures old(applied) == [] ==> change.None? && applied == [] && undone == old(undone)
      ensures old(applied) == [] ==> lastSource == old(lastSource) && groupBroken == old(groupBroken)
      ensures old(applied) != [] ==>
                var was := old(applied); var k := TopStart(was);
                && applied == was[..k] && undone == old(undone) + Reverse(was[k..])
                && Composable(was[k..], Back) && change == Some(Fold(was[k..], Back))
                && groupBroken && lastSource.None?
    {
      hide Composable, Fold, Folded, Reverse, TopStart, ChangeSet.Valid, ChangeSet.Compose;
      if applied == [] {
        return None;
      }
      ghost var was, waiting := applied, undone;
      var group := applied[|applied| - 1].group;
      ghost var k := TopStart(was);
      change := None;
      assert was[|was|..] == [];
      NothingFolded(Back);
      while applied != [] && applied[|applied| - 1].group == group
        invariant k <= |applied| <= |was| && applied == was[..|applied|] && nextGroup == old(nextGroup)
        invariant undone == waiting + Reverse(was[|applied|..])
        invariant change == Folded(was[|applied|..], Back)
        decreases |applied|
      {
        var entry := applied[|applied| - 1];
        PopLast(was, |applied|);
        FoldNext(was, |applied| - 1, Back, change, undone, waiting);
        applied := applied[..|applied| - 1];
        change := Some(match change case None => entry.inverse case Some(acc) => acc.Compose(entry.inverse));
        undone := undone + [entry];
      }
      FoldedAll(was, k, Back);
      groupBroken := true;
      lastSource := None;
    }

    method Redo() returns (change: Option<ChangeSet>)
      requires Composable(undone, Forth)
      modifies this
      ensures nextGroup == old(nextGroup)
      ensures old(undone) == [] ==> change.None? && undone == [] && applied == old(applied)
      ensures old(undone) == [] ==> lastSource == old(lastSource) && groupBroken == old(groupBroken)
      ensures old(undone) != [] ==>
                var was := old(undone); var k := TopStart(was);
                && undone == was[..k] && applied == old(applied) + Reverse(was[k..])
                && Composable(was[k..], Forth) && change == Some(Fold(was[k..], Forth))
                && groupBroken && lastSource.None?
    {
      hide Composable, Fold, Folded, Reverse, TopStart, ChangeSet.Valid, ChangeSet.Compose;
      if undone == [] {
        return None;
      }
      ghost var was, kept := undone, applied;
      var group := undone[|undone| - 1].group;
      ghost var k := TopStart(was);
      change := None;
      assert was[|was|..] == [];
      NothingFolded(Forth);
      while undone != [] && undone[|undone| - 1].group == group
        invariant k <= |undone| <= |was| && undone == was[..|undone|] && nextGroup == old(nextGroup)
        invariant applied == kept + Reverse(was[|undone|..])
        invariant change == Folded(was[|undone|..], Forth)
        decreases |undone|
      {
        var entry := undone[|undone| - 1];
        PopLast(was, |undone|);
        FoldNext(was, |undone| - 1, Forth, change, applied, kept);
        undone := undone[..|undone| - 1];
        change := Some(match change case None => entry.forward case Some(acc) => acc.Compose(entry.forward));
        applied := applied + [entry];
      }
      FoldedAll(was, k, Forth);
      groupBroken := true;
      lastSource := None;
    }
  }

  /** The steps composed so far; nothing before the first one. */
  ghost function Folded(es: seq<Entry>, way: Way): Option<ChangeSet> {
    if es != [] && Composable(es, way) then Some(Fold(es, way)) else None
  }

  /** One more entry at the low end of a run: its step is composed last. */
  lemma FoldNext(es: seq<Entry>, i: nat, way: Way, acc: Option<ChangeSet>, stack: seq<Entry>, below: seq<Entry>)
    requires i < |es| && Composable(es, way) && acc == Folded(es[i + 1..], way)
    requires stack == below + Reverse(es[i + 1..])
    ensures es[i].Step(way).Valid()
    ensures acc.Some? ==> acc.value.Valid() && acc.value.lenAfter == es[i].Step(way).lenBefore
    ensures Folded(es[i..], way) ==
            Some(match acc case None => es[i].Step(way) case Some(c) => c.Compose(es[i].Step(way)))
    ensures stack + [es[i]] == below + Reverse(es[i..])
  {
    var tail := es[i..];
    assert forall k :: 0 <= k < |tail| ==> tail[k] == es[i + k];
    assert tail[1..] == es[i + 1..];
    SuffixComposable(es, i, way);
    SuffixComposable(es, i + 1, way);
    assert Reverse(es[i..]) == Reverse(es[i + 1..]) + [es[i]];
  }

  lemma PopLast(was: seq<Entry>, n: nat)
    requires 0 < n <= |was|
    ensures was[..n][n - 1] == was[n - 1] && was[..n][..n - 1] == was[..n - 1]
  {
  }

  lemma SuffixComposable(es: seq<Entry>, i: nat, way: Way)
    requires i <= |es| && Composable(es, way)
    ensures Composable(es[i..], way)
  {
  }

  lemma FoldedAll(es: seq<Entry>, k: nat, way: Way)
    requires k < |es| && Composable(es, way)
    ensures Composable(es[k..], way) && Folded(es[k..], way) == Some(Fold(es[k..], way))
  {
  }

  lemma NothingFolded(way: Way)
    ensures Folded([], way).None? && Reverse<Entry>([]) == []
  {
  }
}
