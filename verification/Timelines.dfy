/** Undo history at its simplest: one line of edits with the documents between them, and a cursor.
    Undo and redo move the cursor by whole groups. */
module Timelines {
  import opened ChangeSets

  /** Which way an entry is walked: the edit itself, or its inverse. */
  datatype Way = Back | Forth

  datatype Entry = Entry(group: nat, forward: ChangeSet, inverse: ChangeSet)
  {
    function Step(way: Way): ChangeSet { if way.Back? then inverse else forward }

    /** The entry leads from `before` to `after`, and its inverse back. */
    predicate Links(before: string, after: string) {
      && forward.Valid() && inverse.Valid()
      && forward.lenBefore == |before| && inverse.lenBefore == |after|
      && forward.lenAfter == |after| && inverse.lenAfter == |before|
      && forward.Apply(before) == after && inverse.Apply(after) == before
    }
  }

  /** Where the run of entries with the last entry's group begins. */
  function TopStart(entries: seq<Entry>): (k: nat)
    requires entries != []
    ensures k < |entries|
    ensures forall i :: k <= i < |entries| ==> entries[i].group == entries[|entries| - 1].group
    ensures k > 0 ==> entries[k - 1].group != entries[|entries| - 1].group
  {
    var n := |entries| - 1;
    if n == 0 || entries[n - 1].group != entries[n].group then n else TopStart(entries[..n])
  }

  /** Where the run of entries with the group of `entries[at]` ends. */
  function GroupEnd(entries: seq<Entry>, at: nat): (m: nat)
    requires at < |entries|
    ensures at < m <= |entries|
    ensures forall i :: at <= i < m ==> entries[i].group == entries[at].group
    ensures m < |entries| ==> entries[m].group != entries[at].group
    decreases |entries| - at
  {
    if at + 1 == |entries| || entries[at + 1].group != entries[at].group then at + 1 else GroupEnd(entries, at + 1)
  }

  /** Entry `i` leads from document `i` to document `i + 1`. */
  predicate Linked(entries: seq<Entry>, docs: seq<string>, i: nat) {
    i < |entries| && i + 1 < |docs| && entries[i].Links(docs[i], docs[i + 1])
  }

  datatype Timeline = Timeline(entries: seq<Entry>, docs: seq<string>, at: nat)
  {
    /** The entries lead from document to document, and the cursor stands between two runs. */
    ghost predicate Valid() {
      && |docs| == |entries| + 1 && at <= |entries|
      && (forall i :: 0 <= i < |entries| ==> Linked(entries, docs, i))
      && (0 < at < |entries| ==> entries[at - 1].group != entries[at].group)
    }

    /** Later edits never carry a smaller group, so that a group is one run. */
    ghost predicate Grouped() {
      forall i, j :: 0 <= i < j < |entries| ==> entries[i].group <= entries[j].group
    }

    ghost function Text(): string
      requires at < |docs|
    {
      docs[at]
    }

    ghost function Undo(): Timeline
      requires at <= |entries|
    {
      if at == 0 then this else this.(at := TopStart(entries[..at]))
    }

    ghost function Redo(): Timeline
      requires at <= |entries|
    {
      if at == |entries| then this else this.(at := GroupEnd(entries, at))
    }

    /** A new edit drops everything behind the cursor. */
    ghost function Push(e: Entry, doc: string): Timeline
      requires Valid()
    {
      Timeline(entries[..at] + [e], docs[..at + 1] + [doc], at + 1)
    }

    /** A group that continues the newest run before the cursor, or lies above all before it. */
    ghost predicate MayPush(group: nat)
      requires at <= |entries|
    {
      forall i :: 0 <= i < at ==> entries[i].group < group || group == entries[at - 1].group
    }
  }

  lemma UndoKeeps(t: Timeline)
    requires t.Valid()
    ensures t.Undo().Valid() && t.Undo().at <= t.at && (t.at > 0 ==> t.Undo().at < t.at)
  {
  }

  lemma RedoKeeps(t: Timeline)
    requires t.Valid()
    ensures t.Redo().Valid() && t.at <= t.Redo().at && (t.at < |t.entries| ==> t.at < t.Redo().at)
  {
  }

  /** Any edit of the current document can be recorded, whatever group it carries. */
  lemma PushKeeps(t: Timeline, e: Entry, doc: string)
    requires t.Valid() && e.Links(t.Text(), doc)
    ensures t.Push(e, doc).Valid() && t.Push(e, doc).Text() == doc
    ensures t.Grouped() && t.MayPush(e.group) ==> t.Push(e, doc).Grouped()
  {
    var p := t.Push(e, doc);
    forall i | 0 <= i < |p.entries|
      ensures Linked(p.entries, p.docs, i)
    {
      if i < t.at {
        assert Linked(t.entries, t.docs, i);
      }
    }
  }

  /** Redoing right after undoing changes nothing at all. */
  lemma RedoAfterUndo(t: Timeline)
    requires t.Valid() && t.at > 0
    ensures t.Undo().Valid() && t.Undo().Redo() == t
  {
    UndoKeeps(t);
    var k := t.Undo().at;
    assert t.entries[..t.at][k] == t.entries[k];
    assert forall i :: k <= i < t.at ==> t.entries[i] == t.entries[..t.at][i];
    GroupEndIs(t.entries, k, t.at);
  }

  /** And the other way round. */
  lemma UndoAfterRedo(t: Timeline)
    requires t.Valid() && t.at < |t.entries|
    ensures t.Redo().Valid() && t.Redo().Undo() == t
  {
    RedoKeeps(t);
    var m := t.Redo().at;
    var front := t.entries[..m];
    assert forall i :: 0 <= i < m ==> front[i] == t.entries[i];
    var k := TopStart(front);
    assert front[m - 1].group == t.entries[t.at].group;
  }

  lemma GroupEndIs(entries: seq<Entry>, k: nat, m: nat)
    requires k < m <= |entries| && forall i :: k <= i < m ==> entries[i].group == entries[k].group
    requires m < |entries| ==> entries[m].group != entries[k].group
    ensures GroupEnd(entries, k) == m
  {
  }

  // ----- one change for a whole group -------------------------------------------------

  /** Each step starts where the one above it ends, walking from the last entry to the first. */
  predicate Composable(es: seq<Entry>, way: Way) {
    && (forall i :: 0 <= i < |es| ==> es[i].Step(way).Valid())
    && (forall i :: 0 <= i < |es| - 1 ==> es[i + 1].Step(way).lenAfter == es[i].Step(way).lenBefore)
  }

  /** The steps composed, last entry first. */
  function Fold(es: seq<Entry>, way: Way): (c: ChangeSet)
    requires es != [] && Composable(es, way)
    ensures c.Valid() && c.lenBefore == es[|es| - 1].Step(way).lenBefore && c.lenAfter == es[0].Step(way).lenAfter
  {
    if |es| == 1 then es[0].Step(way)
    else
      FoldTail(es, way);
      var rest := Fold(es[1..], way);
      ComposeRoundTrip(rest, es[0].Step(way), Blank(rest.lenBefore));
      rest.Compose(es[0].Step(way))
  }

  function Blank(n: nat): (s: string)
    ensures |s| == n
  {
    seq(n, i => ' ')
  }

  lemma FoldTail(es: seq<Entry>, way: Way)
    requires |es| > 1 && Composable(es, way)
    ensures Composable(es[1..], way)
    ensures es[1].Step(way).lenAfter == es[0].Step(way).lenBefore && es[0].Step(way).Valid()
  {
    assert forall i :: 0 <= i < |es| - 1 ==> es[1..][i] == es[i + 1];
  }

  predicate Leads(e: Entry, way: Way, from: string, to: string) {
    && e.Step(way).Valid() && e.Step(way).lenBefore == |from| && e.Step(way).lenAfter == |to|
    && e.Step(way).Apply(from) == to
  }

  /** The documents passed on the way, from the last entry's far side to the first entry's. */
  ghost predicate Passes(es: seq<Entry>, way: Way, docs: seq<string>) {
    |docs| == |es| + 1 && forall i :: 0 <= i < |es| ==> Leads(es[i], way, docs[i + 1], docs[i])
  }

  lemma PassesCompose(es: seq<Entry>, way: Way, docs: seq<string>)
    requires Passes(es, way, docs)
    ensures Composable(es, way)
  {
    forall i | 0 <= i < |es|
      ensures es[i].Step(way).Valid() && es[i].Step(way).lenBefore == |docs[i + 1]| && es[i].Step(way).lenAfter == |docs[i]|
    {
      assert Leads(es[i], way, docs[i + 1], docs[i]);
    }
  }

  /** The one composed change does what the steps do one after the other. */
  lemma {:induction false} FoldWalks(es: seq<Entry>, way: Way, docs: seq<string>)
    requires es != [] && Passes(es, way, docs)
    ensures Composable(es, way)
    ensures Fold(es, way).lenBefore == |docs[|es|]| && Fold(es, way).Apply(docs[|es|]) == docs[0]
    decreases |es|
  {
    PassesCompose(es, way, docs);
    assert Leads(es[0], way, docs[1], docs[0]);
    if |es| > 1 {
      assert Passes(es[1..], way, docs[1..]);
      hide Composable, Passes;
      FoldWalks(es[1..], way, docs[1..]);
      ComposeRoundTrip(Fold(es[1..], way), es[0].Step(way), docs[|es|]);
    }
  }

  function Reverse<T>(s: seq<T>): (r: seq<T>)
    ensures |r| == |s| && forall i :: 0 <= i < |s| ==> r[i] == s[|s| - 1 - i]
  {
    seq(|s|, i requires 0 <= i < |s| => s[|s| - 1 - i])
  }

  lemma LinkLeads(entries: seq<Entry>, docs: seq<string>, i: nat)
    requires Linked(entries, docs, i)
    ensures i < |entries| && i + 1 < |docs|
    ensures Leads(entries[i], Back, docs[i + 1], docs[i]) && Leads(entries[i], Forth, docs[i], docs[i + 1])
  {
  }

  lemma PassesBack(entries: seq<Entry>, docs: seq<string>, k: nat, n: nat)
    requires k <= n <= |entries| && |docs| == |entries| + 1
    requires forall i :: 0 <= i < |entries| ==> Linked(entries, docs, i)
    ensures Passes(entries[k..n], Back, docs[k..n + 1])
  {
    hide Leads, Linked;
    forall i | 0 <= i < n - k
      ensures Leads(entries[k..n][i], Back, docs[k..n + 1][i + 1], docs[k..n + 1][i])
    {
      LinkLeads(entries, docs, k + i);
    }
  }

  lemma PassesForth(entries: seq<Entry>, docs: seq<string>, k: nat, n: nat)
    requires k <= n <= |entries| && |docs| == |entries| + 1
    requires forall i :: 0 <= i < |entries| ==> Linked(entries, docs, i)
    ensures Passes(Reverse(entries[k..n]), Forth, Reverse(docs[k..n + 1]))
  {
    hide Leads, Linked;
    var es, ds := Reverse(entries[k..n]), Reverse(docs[k..n + 1]);
    forall i | 0 <= i < n - k
      ensures Leads(es[i], Forth, ds[i + 1], ds[i])
    {
      LinkLeads(entries, docs, n - 1 - i);
    }
  }

  /** Undoing a group in one change leads to the document its first edit was made on. */
  lemma UndoWalks(t: Timeline)
    requires t.Valid() && t.at > 0
    ensures var es := t.entries[t.Undo().at..t.at];
            && es != [] && Composable(es, Back) && Fold(es, Back).lenBefore == |t.Text()|
            && Fold(es, Back).Apply(t.Text()) == t.Undo().Text()
  {
    hide Composable, Fold, Linked, Leads, Passes;
    UndoKeeps(t);
    var k := t.Undo().at;
    PassesBack(t.entries, t.docs, k, t.at);
    FoldWalks(t.entries[k..t.at], Back, t.docs[k..t.at + 1]);
  }

  /** Redoing a group in one change leads to the document its last edit left. */
  lemma RedoWalks(t: Timeline)
    requires t.Valid() && t.at < |t.entries|
    ensures var es := Reverse(t.entries[t.at..t.Redo().at]);
            && es != [] && Composable(es, Forth) && Fold(es, Forth).lenBefore == |t.Text()|
            && Fold(es, Forth).Apply(t.Text()) == t.Redo().Text()
  {
    hide Composable, Fold, Linked, Leads, Passes;
    RedoKeeps(t);
    var m := t.Redo().at;
    PassesForth(t.entries, t.docs, t.at, m);
    FoldWalks(Reverse(t.entries[t.at..m]), Forth, Reverse(t.docs[t.at..m + 1]));
  }
}
