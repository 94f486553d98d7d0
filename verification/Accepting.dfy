/** Turning accepted hunks into one change of the document. */
module Accepting {
  import opened Change
  import opened ChangeSets
  import opened Edits
  import opened Positions
  import opened ChangeLaws
  import opened Uniqueness
  import opened Diffing
  import opened Review
  import opened Sorting

  // ----- document order -------------------------------------------------------------

  predicate KeyLe(x: Hunk, y: Hunk) { x.start < y.start || (x.start == y.start && x.end <= y.end) }

  predicate HunksApart(x: Hunk, y: Hunk) { Apart(x.AsEdit(), y.AsEdit()) }

  /** The stable sort by range start, then range end. */
  function InOrder(hunks: seq<Hunk>): seq<Hunk> { Sort(hunks, KeyLe) }

  /** Hunks that can be made together, in whatever order they are listed. */
  ghost predicate Compatible(hunks: seq<Hunk>, len: nat) {
    && (forall h :: h in hunks ==> h.start <= h.end <= len)
    && Pairwise(hunks, HunksApart)
  }

  lemma InOrderKeeps(hunks: seq<Hunk>, len: nat)
    requires Compatible(hunks, len)
    ensures Sorted(InOrder(hunks), KeyLe) && Compatible(InOrder(hunks), len)
    ensures multiset(InOrder(hunks)) == multiset(hunks)
  {
    SortSorts(hunks, KeyLe);
    SortPairwise(hunks, KeyLe, HunksApart);
  }

  /** Sorted hunks that do not overlap are in document order. */
  lemma SortedIsOrdered(hunks: seq<Hunk>, len: nat)
    requires Sorted(hunks, KeyLe) && Compatible(hunks, len)
    ensures Ordered(EditsOfHunks(hunks), 0, len)
  {
    forall i, j | 0 <= i < j < |hunks|
      ensures hunks[i].end <= hunks[j].start
    {
      assert KeyLe(hunks[i], hunks[j]) && HunksApart(hunks[i], hunks[j]);
      assert hunks[i] in hunks && hunks[j] in hunks;
    }
  }

  /** What is accepted, in document order, as edits. */
  function AcceptedEdits(hunks: seq<Hunk>): seq<Edit> { EditsOfHunks(InOrder(hunks)) }

  lemma AcceptedOrdered(hunks: seq<Hunk>, len: nat)
    requires Compatible(hunks, len)
    ensures Ordered(AcceptedEdits(hunks), 0, len) && multiset(InOrder(hunks)) == multiset(hunks)
  {
    InOrderKeeps(hunks, len);
    SortedIsOrdered(InOrder(hunks), len);
  }

  // ----- the change -----------------------------------------------------------------

  /** The builder steps for `edits`, the document being consumed up to `at`. */
  function BuildOnto(edits: seq<Edit>, at: nat, out: Ops): Ops
    decreases |edits|
  {
    if edits == [] then out
    else
      var e := edits[0];
      BuildOnto(edits[1..], e.end, PushInsert(PushDelete(PushRetain(out, Sub(e.start, at)), Sub(e.end, e.start)), e.text))
  }

  function Consumed(edits: seq<Edit>, at: nat): nat { if edits == [] then at else edits[|edits| - 1].end }

  /** The operations that make `edits` in a document of `len` chars. */
  function Build(edits: seq<Edit>, len: nat): Ops {
    PushRetain(BuildOnto(edits, 0, []), Sub(len, Consumed(edits, 0)))
  }

  lemma BuildStep(e: Edit, at: nat, out: Ops, doc: string)
    requires Canonical(out) && InputLen(out) == at <= e.start <= e.end <= |doc|
    ensures var next := PushInsert(PushDelete(PushRetain(out, Sub(e.start, at)), Sub(e.end, e.start)), e.text);
            && Canonical(next) && InputLen(next) == e.end
            && ApplyFrom(next, 0, doc, 0) == ApplyFrom(out, 0, doc, 0) + (doc[at..e.start] + e.text)
  {
    hide ApplyFrom, InputFrom, PushRetain, PushDelete, PushInsert, Canonical;
    var n, d := Sub(e.start, at), Sub(e.end, e.start);
    var a := PushRetain(out, n);
    PushesKeepCanonical(out, n, "");
    PushRetainApplies(out, n, doc);
    PushesKeepCanonical(a, d, "");
    PushDeleteApplies(a, d, doc);
    PushesKeepCanonical(PushDelete(a, d), 0, e.text);
    PushInsertApplies(PushDelete(a, d), e.text, doc);
    ConcatAssoc(ApplyFrom(out, 0, doc, 0), doc[at..e.start], e.text);
  }

  lemma {:induction false} BuildOntoApplies(edits: seq<Edit>, at: nat, out: Ops, doc: string)
    requires Ordered(edits, at, |doc|) && Canonical(out) && InputLen(out) == at
    ensures Consumed(edits, at) <= |doc|
    ensures Canonical(BuildOnto(edits, at, out)) && InputLen(BuildOnto(edits, at, out)) == Consumed(edits, at)
    ensures ApplyFrom(BuildOnto(edits, at, out), 0, doc, 0) + doc[Consumed(edits, at)..] ==
            ApplyFrom(out, 0, doc, 0) + Splice(doc, at, edits)
    decreases |edits|
  {
    hide ApplyFrom, InputFrom, PushRetain, PushDelete, PushInsert, Canonical, Ordered, Splice;
    if edits == [] {
      SpliceEmpty(doc, at);
    } else {
      var e := edits[0];
      SpliceHead(doc, at, edits);
      BuildStep(e, at, out, doc);
      var next := PushInsert(PushDelete(PushRetain(out, Sub(e.start, at)), Sub(e.end, e.start)), e.text);
      assert Consumed(edits, at) == Consumed(edits[1..], e.end);
      BuildOntoApplies(edits[1..], e.end, next, doc);
      Reassociate(ApplyFrom(out, 0, doc, 0), doc[at..e.start], e.text, Splice(doc, e.end, edits[1..]));
    }
  }

  lemma Reassociate(w: string, x: string, y: string, z: string)
    ensures (w + (x + y)) + z == w + (x + (y + z))
  {
  }

  /** The built change makes exactly the edits. */
  lemma BuildApplies(edits: seq<Edit>, doc: string)
    requires Ordered(edits, 0, |doc|)
    ensures Consumed(edits, 0) <= |doc|
    ensures InputLen(BuildOnto(edits, 0, [])) == Consumed(edits, 0)
    ensures Canonical(Build(edits, |doc|)) && InputLen(Build(edits, |doc|)) == |doc|
    ensures Apply(Build(edits, |doc|), doc) == Splice(doc, 0, edits)
  {
    hide ApplyFrom, InputFrom, PushRetain, PushDelete, PushInsert, Canonical, Ordered, Splice, BuildOnto;
    NothingYet(doc);
    BuildOntoApplies(edits, 0, [], doc);
    var ops, used := BuildOnto(edits, 0, []), Consumed(edits, 0);
    PushesKeepCanonical(ops, |doc| - used, "");
    PushRetainApplies(ops, |doc| - used, doc);
    assert doc[used..used + (|doc| - used)] == doc[used..];
    NothingBefore(Splice(doc, 0, edits));
  }

  lemma NothingBefore(s: string)
    ensures "" + s == s
  {
  }

  /** Building from maximal edits and reading the edits off again gives them back. */
  lemma BuildRoundTrip(edits: seq<Edit>, len: nat)
    requires Ordered(edits, 0, len) && Separated(edits)
    ensures EditsOf(Build(edits, len)) == edits
  {
    var ops := Build(edits, len);
    var blank: string := seq(len, i => ' ');
    BuildApplies(edits, blank);
    EditsApply(ops, blank);
    BuildSameEffect(edits, len);
    EffectDeterminesEdits(EditsOf(ops), edits, 0, len);
  }

  lemma BuildSameEffect(edits: seq<Edit>, len: nat)
    requires Ordered(edits, 0, len)
    ensures SameEffect(EditsOf(Build(edits, len)), edits, 0, len)
  {
    hide Build, EditsOf, Ordered, Splice, Apply, InputLen, Canonical;
    var blank: string := seq(len, i => ' ');
    BuildApplies(edits, blank);
    EditsApply(Build(edits, len), blank);
    forall doc: string | |doc| == len
      ensures Splice(doc, 0, EditsOf(Build(edits, len))) == Splice(doc, 0, edits)
    {
      BuildApplies(edits, doc);
      EditsApply(Build(edits, len), doc);
    }
  }

  /** One round of the loop below: the next edit lies ahead, and building goes on behind it. */
  lemma BuildNext(edits: seq<Edit>, i: nat, at: nat, len: nat, out: Ops)
    requires i < |edits| && Ordered(edits[i..], at, len)
    ensures at <= edits[i].start <= edits[i].end <= len && Ordered(edits[i + 1..], edits[i].end, len)
    ensures Consumed(edits[..i + 1], 0) == edits[i].end
    ensures var e := edits[i];
            BuildOnto(edits[i..], at, out) ==
            BuildOnto(edits[i + 1..], e.end, PushInsert(PushDelete(PushRetain(out, e.start - at), e.end - e.start), e.text))
  {
    OrderedTail(edits[i..], at, len);
    assert edits[i..][1..] == edits[i + 1..];
  }

  lemma BuildDone(edits: seq<Edit>, at: nat, out: Ops)
    requires at == Consumed(edits[..|edits|], 0)
    ensures BuildOnto(edits[|edits|..], at, out) == out && at == Consumed(edits, 0)
  {
    assert edits[..|edits|] == edits;
  }

  lemma BuildStart(edits: seq<Edit>)
    ensures Consumed(edits[..0], 0) == 0 && edits[0..] == edits
  {
  }

  /** One change for all accepted hunks. The caller hands over hunks that do not overlap; the
      running position then never passes the next hunk, so no retained length is cut off. */
  method ChangesetFromHunks(hunks: seq<Hunk>, lenBefore: nat) returns (c: ChangeSet)
    requires Compatible(hunks, lenBefore)
    ensures c.Valid() && c.lenBefore == lenBefore && c.ops == Build(AcceptedEdits(hunks), lenBefore)
    ensures Ordered(AcceptedEdits(hunks), 0, lenBefore)
    ensures forall doc: string :: |doc| == lenBefore ==> c.Apply(doc) == Splice(doc, 0, AcceptedEdits(hunks))
  {
    hide ApplyFrom, InputFrom, PushRetain, PushDelete, PushInsert, Canonical, Ordered, Splice, Compatible, InOrder,
      BuildOnto, Consumed, Sub;
    var ordered := InOrder(hunks);
    ghost var edits := AcceptedEdits(hunks);
    AcceptedOrdered(hunks, lenBefore);
    BuildStart(edits);
    var b := new ChangeSetBuilder(lenBefore);
    var at, i := 0, 0;
    while i < |ordered|
      invariant 0 <= i <= |ordered| && b.Valid() && fresh(b) && b.lenBefore == lenBefore
      invariant Ordered(edits[i..], at, lenBefore) && b.consumed == at == Consumed(edits[..i], 0)
      invariant BuildOnto(edits[i..], at, b.ops) == BuildOnto(edits, 0, [])
    {
      var hunk := ordered[i];
      BuildNext(edits, i, at, lenBefore, b.ops);
      assert hunk.start >= at;
      b.Retain(if hunk.start >= at then hunk.start - at else 0);
      b.Delete(hunk.end - hunk.start);
      b.Insert(hunk.text);
      at := hunk.end;
      i := i + 1;
    }
    BuildDone(edits, at, b.ops);
    BuiltApplies(edits, lenBefore);
    c := b.Build();
  }

  lemma BuiltApplies(edits: seq<Edit>, len: nat)
    requires Ordered(edits, 0, len)
    ensures Consumed(edits, 0) <= len && Sub(len, Consumed(edits, 0)) == len - Consumed(edits, 0)
    ensures InputLen(Build(edits, len)) == len
    ensures forall doc: string :: |doc| == len ==> Apply(Build(edits, len), doc) == Splice(doc, 0, edits)
  {
    hide Build, Splice, Apply, Ordered, InputLen;
    var blank: string := seq(len, k => ' ');
    BuildApplies(edits, blank);
    forall doc: string | |doc| == len
      ensures Apply(Build(edits, len), doc) == Splice(doc, 0, edits)
    {
      BuildApplies(edits, doc);
    }
  }

  /** Two insertions at one place are made in the order they are listed in. */
  lemma TiesKeepListing(p: nat, x: string, y: string)
    ensures AcceptedEdits([Hunk(p, p, x, HunkState.Clean), Hunk(p, p, y, HunkState.Clean)]) == [Edit(p, p, x), Edit(p, p, y)]
  {
    var hunks := [Hunk(p, p, x, HunkState.Clean), Hunk(p, p, y, HunkState.Clean)];
    SortAlready(hunks, KeyLe);
  }
}
