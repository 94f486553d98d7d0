/** What undoing touches: an inverse makes one edit for each edit of the change, where that edit's text
    now stands, and nothing else. */
module Inverses {
  import opened Change
  import opened Edits
  import opened Positions
  import opened Uniqueness
  import opened ChangeLaws
  import opened Accepting

  /** The edits that put back what `edits` replaced, when `at` of the document has become `out`. */
  function InverseFrom(edits: seq<Edit>, at: nat, out: nat, doc: string): seq<Edit>
    decreases |edits|
  {
    if edits == [] then []
    else
      var e := edits[0];
      var start := out + Sub(e.start, at);
      [Edit(start, start + |e.text|, Cut(doc, e.start, e.end))] + InverseFrom(edits[1..], e.end, start + |e.text|, doc)
  }

  /** The operations built so far, with the edits still to make and the rest retained. */
  function Finish(edits: seq<Edit>, at: nat, out: Ops, len: nat): Ops {
    PushRetain(BuildOnto(edits, at, out), Sub(len, Consumed(edits, at)))
  }

  /** A deletion put last, merged with one that stands there. */
  function WithDelete(front: Ops, n: nat): Ops {
    if front != [] && front[|front| - 1].Delete? then front[|front| - 1 := Delete(front[|front| - 1].n + n)]
    else front + [Delete(n)]
  }

  /** It goes in front of a trailing insertion. */
  lemma DeleteSlides(front: Ops, n: nat, s: string)
    requires n > 0
    ensures PushDelete(front + [Insert(s)], n) == WithDelete(front, n) + [Insert(s)]
    ensures (front == [] || !front[|front| - 1].Insert?) ==> PushDelete(front, n) == WithDelete(front, n)
  {
  }

  lemma InsertJoins(front: Ops, t: string, s: string)
    requires s != ""
    ensures PushInsert(front + [Insert(t)], s) == front + [Insert(t + s)]
    ensures front == [] || !front[|front| - 1].Insert? ==> PushInsert(front, s) == front + [Insert(s)]
  {
  }

  lemma PushesCommute(out: Ops, n: nat, s: string)
    ensures PushDelete(PushInsert(out, s), n) == PushInsert(PushDelete(out, n), s)
  {
    hide WithDelete;
    PushesNothing(out);
    PushesNothing(PushInsert(out, s));
    PushesNothing(PushDelete(out, n));
    if n > 0 && s != "" {
      hide PushDelete, PushInsert;
      if out != [] && out[|out| - 1].Insert? {
        var front, t := out[..|out| - 1], out[|out| - 1].text;
        assert out == front + [Insert(t)];
        InsertJoins(front, t, s);
        DeleteSlides(front, n, t + s);
        DeleteSlides(front, n, t);
        InsertJoins(WithDelete(front, n), t, s);
      } else {
        InsertJoins(out, "", s);
        DeleteSlides(out, n, s);
        DeletesLast(out, n);
        InsertJoins(WithDelete(out, n), "", s);
      }
    }
  }

  lemma DeletesLast(out: Ops, n: nat)
    ensures WithDelete(out, n) != [] && WithDelete(out, n)[|WithDelete(out, n)| - 1].Delete?
  {
  }

  lemma RetainNothing(out: Ops)
    ensures PushRetain(out, 0) == out
  {
  }

  /** An edit, in whatever order its two halves are undone. */
  lemma EditInverts(ops: Ops, i: nat, doc: string, at: nat, out: Ops)
    requires Canonical(ops) && i < |ops| && !ops[i].Retain? && at + InputFrom(ops, i) == |doc|
    ensures var e, j := EditAt(ops, i, at), i + EditWidth(ops, i);
            && i < j <= |ops| && at == e.start <= e.end && e.end + InputFrom(ops, j) == |doc|
            && InvertOnto(ops, i, doc, at, out) ==
               InvertOnto(ops, j, doc, e.end, PushInsert(PushDelete(out, |e.text|), Cut(doc, e.start, e.end)))
            && OutputFrom(ops, i) == |e.text| + OutputFrom(ops, j)
  {
    hide PushDelete, PushInsert, Canonical, InvertOnto, EditsFrom, InputFrom, OutputFrom;
    EditsStep(ops, i, at);
    EditInput(ops, i, at);
    InvertOne(ops, i, doc, at, out);
    PushesNothing(out);
    if ops[i].Delete? {
      var n := ops[i].n;
      PushesNothing(PushInsert(out, doc[at..at + n]));
      if EditWidth(ops, i) == 2 {
        InvertOne(ops, i + 1, doc, at + n, PushInsert(out, doc[at..at + n]));
        PushesCommute(out, |ops[i + 1].text|, doc[at..at + n]);
      }
    } else {
      assert doc[at..at] == "";
      PushesNothing(PushDelete(out, |ops[i].text|));
    }
  }

  lemma InvertOne(ops: Ops, i: nat, doc: string, at: nat, out: Ops)
    requires i < |ops| && at + InputFrom(ops, i) == |doc|
    ensures at + ops[i].Input() + InputFrom(ops, i + 1) == |doc| && OutputFrom(ops, i) == ops[i].Output() + OutputFrom(ops, i + 1)
    ensures InvertOnto(ops, i, doc, at, out) ==
            InvertOnto(ops, i + 1, doc, at + ops[i].Input(), InvertStep(ops[i], doc, at, out))
  {
  }

  lemma PushesNothing(out: Ops)
    ensures PushInsert(out, "") == out && PushDelete(out, 0) == out && PushRetain(out, 0) == out
  {
  }

  lemma {:induction false} InvertFinishes(ops: Ops, i: nat, doc: string, at: nat, out: nat, acc: Ops, len: nat)
    requires Canonical(ops) && i <= |ops| && at + InputFrom(ops, i) == |doc| && len == out + OutputFrom(ops, i)
    ensures InvertOnto(ops, i, doc, at, acc) == Finish(InverseFrom(EditsFrom(ops, i, at), at, out, doc), out, acc, len)
    decreases |ops| - i
  {
    hide Canonical, PushRetain, PushDelete, PushInsert, InvertOnto, BuildOnto, InverseFrom, EditsFrom, InputFrom, OutputFrom;
    if i == |ops| {
      FinishNothing(ops, doc, at, out, acc, len);
    } else if ops[i].Retain? {
      var n := ops[i].n;
      RetainInverts(ops, i, doc, at, acc);
      InvertFinishes(ops, i + 1, doc, at + n, out + n, PushRetain(acc, n), len);
      FinishRetain(ops, i, doc, at, out, acc, len);
    } else {
      var e, j := EditAt(ops, i, at), i + EditWidth(ops, i);
      var next := PushInsert(PushDelete(acc, |e.text|), Cut(doc, e.start, e.end));
      EditInverts(ops, i, doc, at, acc);
      InvertFinishes(ops, j, doc, e.end, out + |e.text|, next, len);
      EditsStep(ops, i, at);
      FinishEdit(e, EditsFrom(ops, j, e.end), doc, at, out, acc, len);
    }
  }

  lemma FinishNothing(ops: Ops, doc: string, at: nat, out: nat, acc: Ops, len: nat)
    requires len == out + OutputFrom(ops, |ops|) && at + InputFrom(ops, |ops|) == |doc|
    ensures InvertOnto(ops, |ops|, doc, at, acc) == acc
    ensures Finish(InverseFrom(EditsFrom(ops, |ops|, at), at, out, doc), out, acc, len) == acc
  {
  }

  lemma RetainInverts(ops: Ops, i: nat, doc: string, at: nat, acc: Ops)
    requires i < |ops| && ops[i].Retain? && at + InputFrom(ops, i) == |doc|
    ensures var n := ops[i].n;
            && at + n + InputFrom(ops, i + 1) == |doc| && OutputFrom(ops, i) == n + OutputFrom(ops, i + 1)
            && InvertOnto(ops, i, doc, at, acc) == InvertOnto(ops, i + 1, doc, at + n, PushRetain(acc, n))
  {
    hide PushRetain;
  }

  /** Retaining before the next edit is looked at, or along with it. */
  lemma FinishRetain(ops: Ops, i: nat, doc: string, at: nat, out: nat, acc: Ops, len: nat)
    requires Canonical(ops) && i < |ops| && ops[i].Retain? && at + InputFrom(ops, i) == |doc|
    requires len == out + ops[i].n + OutputFrom(ops, i + 1)
    ensures var n := ops[i].n;
            Finish(InverseFrom(EditsFrom(ops, i, at), at, out, doc), out, acc, len) ==
            Finish(InverseFrom(EditsFrom(ops, i + 1, at + n), at + n, out + n, doc), out + n, PushRetain(acc, n), len)
  {
    hide Canonical, PushRetain, PushDelete, PushInsert, EditsFrom, InputFrom;
    var n := ops[i].n;
    EditsStep(ops, i, at);
    RetainNothing(PushRetain(acc, n));
    if i + 1 == |ops| {
      NoEdits(ops, at + n);
    } else {
      Neighbours(ops, i);
      EditsStep(ops, i + 1, at + n);
    }
  }

  lemma Neighbours(ops: Ops, i: nat)
    requires Canonical(ops) && i + 1 < |ops| && ops[i].Retain?
    ensures !ops[i + 1].Retain?
  {
    assert MayFollow(ops[i], ops[i + 1]);
  }

  lemma FinishEdit(e: Edit, rest: seq<Edit>, doc: string, at: nat, out: nat, acc: Ops, len: nat)
    requires at == e.start <= e.end
    ensures Finish(InverseFrom([e] + rest, at, out, doc), out, acc, len) ==
            Finish(InverseFrom(rest, e.end, out + |e.text|, doc), out + |e.text|,
                   PushInsert(PushDelete(acc, |e.text|), Cut(doc, e.start, e.end)), len)
  {
    hide PushRetain, PushDelete, PushInsert;
    assert ([e] + rest)[0] == e && ([e] + rest)[1..] == rest;
    var back := Edit(out, out + |e.text|, Cut(doc, e.start, e.end));
    var more := InverseFrom(rest, e.end, out + |e.text|, doc);
    assert InverseFrom([e] + rest, at, out, doc) == [back] + more;
    assert ([back] + more)[0] == back && ([back] + more)[1..] == more;
    RetainNothing(acc);
    assert more != [] ==> ([back] + more)[|[back] + more| - 1] == more[|more| - 1];
  }

  // ----- the edits of an inverse --------------------------------------------------------------

  /** They are ordered and separated like the edits they undo. */
  lemma {:induction false} InverseOrdered(edits: seq<Edit>, at: nat, out: nat, doc: string, after: string)
    requires Walk(edits, [], at, out, doc, after)
    ensures Ordered(InverseFrom(edits, at, out, doc), out, |after|) && Separated(InverseFrom(edits, at, out, doc))
    ensures edits != [] ==> InverseFrom(edits, at, out, doc)[0].start == out + (edits[0].start - at)
    decreases |edits|
  {
    hide Walk, Ordered, Separated, Splice;
    if edits == [] {
      WalkEmpty(at, out, doc, after);
    } else {
      var e, start := edits[0], out + Sub(edits[0].start, at);
      WalkHeads(edits, [], at, out, doc, after);
      WalkOurs(edits, [], at, out, doc, after);
      var rest := InverseFrom(edits[1..], e.end, start + |e.text|, doc);
      InverseOrdered(edits[1..], e.end, start + |e.text|, doc, after);
      HeadEdits(edits, at, out, doc, after);
      var back := Edit(start, start + |e.text|, Cut(doc, e.start, e.end));
      OrderedCons(back, rest, out, |after|);
      SeparatedCons(back, rest, |after|);
    }
  }

  lemma WalkEmpty(at: nat, out: nat, doc: string, after: string)
    requires Walk([], [], at, out, doc, after)
    ensures Ordered([], out, |after|) && Separated([])
  {
  }

  lemma HeadEdits(edits: seq<Edit>, at: nat, out: nat, doc: string, after: string)
    requires Walk(edits, [], at, out, doc, after) && edits != []
    ensures at <= edits[0].start <= edits[0].end <= |doc|
    ensures edits[0].start < edits[0].end || edits[0].text != ""
    ensures edits[0].start < edits[0].end ==> Cut(doc, edits[0].start, edits[0].end) != ""
    ensures |edits| > 1 ==> edits[0].end < edits[1..][0].start
  {
    assert |edits| > 1 ==> edits[1..][0] == edits[1];
  }

  /** Edit by edit, what an inverse does. */
  ghost predicate Undoes(back: Edit, e: Edit, edits: seq<Edit>, doc: string, after: string, at: nat, out: nat) {
    && e.start <= e.end <= |doc| && back.start + |e.text| == back.end <= |after|
    && back.end == Move(edits, at, out, e.end)
    && back.text == doc[e.start..e.end] && after[back.start..back.end] == e.text
  }

  lemma {:induction false} InverseEach(edits: seq<Edit>, at: nat, out: nat, doc: string, after: string, k: nat)
    requires Walk(edits, [], at, out, doc, after) && k < |edits|
    ensures |InverseFrom(edits, at, out, doc)| == |edits|
    ensures Undoes(InverseFrom(edits, at, out, doc)[k], edits[k], edits, doc, after, at, out)
    decreases |edits|
  {
    hide Walk, Splice;
    var e, to := edits[0], out + Sub(edits[0].start, at) + |edits[0].text|;
    HeadEdits(edits, at, out, doc, after);
    WalkOurs(edits, [], at, out, doc, after);
    WalkBounds(edits[1..], e.end, to, doc, after);
    InverseSize(edits, at, out, doc);
    if k == 0 {
      TextStands(edits, at, out, doc, after);
      MoveHead(edits, at, out);
    } else {
      InverseEach(edits[1..], e.end, to, doc, after, k - 1);
      LaterEnds(edits, k, at, out, doc, after);
    }
  }

  lemma WalkBounds(edits: seq<Edit>, at: nat, out: nat, doc: string, after: string)
    requires Walk(edits, [], at, out, doc, after)
    ensures out <= |after|
  {
  }

  lemma {:induction false} InverseSize(edits: seq<Edit>, at: nat, out: nat, doc: string)
    ensures |InverseFrom(edits, at, out, doc)| == |edits|
    decreases |edits|
  {
    if edits != [] {
      InverseSize(edits[1..], edits[0].end, out + Sub(edits[0].start, at) + |edits[0].text|, doc);
    }
  }

  lemma TextStands(edits: seq<Edit>, at: nat, out: nat, doc: string, after: string)
    requires Walk(edits, [], at, out, doc, after) && edits != []
    ensures var start := out + Sub(edits[0].start, at);
            start + |edits[0].text| <= |after| && after[start..start + |edits[0].text|] == edits[0].text
  {
    hide Splice;
    var e := edits[0];
    WalkText(edits, [], at, out, doc, after);
    SplitTail(after, out, doc[at..e.start], e.text + Splice(doc, e.end, edits[1..]));
    SplitTail(after, out + (e.start - at), e.text, Splice(doc, e.end, edits[1..]));
  }

  lemma MoveHead(edits: seq<Edit>, at: nat, out: nat)
    requires edits != [] && at <= edits[0].start <= edits[0].end && (|edits| > 1 ==> edits[0].end < edits[1..][0].start)
    ensures Move(edits, at, out, edits[0].end) == out + (edits[0].start - at) + |edits[0].text|
  {
  }

  lemma LaterEnds(edits: seq<Edit>, k: nat, at: nat, out: nat, doc: string, after: string)
    requires Walk(edits, [], at, out, doc, after) && 0 < k < |edits|
    ensures edits[k] == edits[1..][k - 1] && edits[0].start <= edits[0].end <= edits[k].end
    ensures Move(edits, at, out, edits[k].end) ==
            Move(edits[1..], edits[0].end, out + Sub(edits[0].start, at) + |edits[0].text|, edits[k].end)
  {
  }

  /** The edit that puts back what `e` replaced. */
  function BackOf(e: Edit, at: nat, out: nat, doc: string): Edit {
    var start := out + Sub(e.start, at);
    Edit(start, start + |e.text|, Cut(doc, e.start, e.end))
  }

  lemma InverseCons(e: Edit, rest: seq<Edit>, at: nat, out: nat, doc: string)
    ensures InverseFrom([e] + rest, at, out, doc) ==
            [BackOf(e, at, out, doc)] + InverseFrom(rest, e.end, BackOf(e, at, out, doc).end, doc)
  {
    assert ([e] + rest)[1..] == rest;
  }

  lemma BackAgain(edits: seq<Edit>, at: nat, out: nat, doc: string, after: string)
    requires Walk(edits, [], at, out, doc, after) && edits != []
    ensures var e, back := edits[0], BackOf(edits[0], at, out, doc);
            BackOf(back, out, at, after) == e && Walk(edits[1..], [], e.end, back.end, doc, after)
  {
    hide Walk, Splice;
    HeadEdits(edits, at, out, doc, after);
    WalkOurs(edits, [], at, out, doc, after);
    TextStands(edits, at, out, doc, after);
  }

  lemma NoInverse(at: nat, out: nat, doc: string)
    ensures InverseFrom([], at, out, doc) == []
  {
  }

  /** An inverse of the inverse: the edits themselves. */
  lemma {:induction false} InverseTwice(edits: seq<Edit>, at: nat, out: nat, doc: string, after: string)
    requires Walk(edits, [], at, out, doc, after)
    ensures InverseFrom(InverseFrom(edits, at, out, doc), out, at, after) == edits
    decreases |edits|
  {
    hide *;
    if edits == [] {
      NoInverse(at, out, doc);
      NoInverse(out, at, after);
    } else {
      var e, rest := edits[0], edits[1..];
      var back := BackOf(e, at, out, doc);
      BackAgain(edits, at, out, doc, after);
      InverseTwice(rest, e.end, back.end, doc, after);
      assert edits == [e] + rest;
      InverseCons(e, rest, at, out, doc);
      InverseCons(back, InverseFrom(rest, e.end, back.end, doc), out, at, after);
    }
  }

  lemma ChangeWalks(ops: Ops, doc: string)
    requires Canonical(ops) && InputLen(ops) == |doc|
    ensures Walk(EditsOf(ops), [], 0, 0, doc, Apply(ops, doc)) && |Apply(ops, doc)| == OutputLen(ops)
  {
    EditsApply(ops, doc);
    ApplyLen(ops, 0, doc, 0);
    assert Apply(ops, doc)[0..] == Apply(ops, doc);
  }

  /** An inverse is built of the inverse edits. */
  lemma InvertIsBuilt(ops: Ops, doc: string)
    requires Canonical(ops) && InputLen(ops) == |doc|
    ensures Invert(ops, doc) == Build(InverseFrom(EditsOf(ops), 0, 0, doc), OutputLen(ops))
    ensures EditsOf(Invert(ops, doc)) == InverseFrom(EditsOf(ops), 0, 0, doc)
  {
    hide Canonical, PushRetain, InvertOnto, BuildOnto, InverseFrom, EditsFrom, InputFrom, OutputFrom, ApplyFrom, Walk, Ordered,
      Separated;
    InvertFinishes(ops, 0, doc, 0, 0, [], OutputLen(ops));
    ChangeWalks(ops, doc);
    InverseOrdered(EditsOf(ops), 0, 0, doc, Apply(ops, doc));
    BuildRoundTrip(InverseFrom(EditsOf(ops), 0, 0, doc), OutputLen(ops));
  }

  /** Undoing touches only what the change touched: one edit for each of its edits, at the place it moved to, over
      its own text, putting back what it replaced. */
  lemma InverseMirrors(ops: Ops, doc: string)
    requires Canonical(ops) && InputLen(ops) == |doc|
    ensures |EditsOf(Invert(ops, doc))| == |EditsOf(ops)|
    ensures forall k :: 0 <= k < |EditsOf(ops)| ==>
              Undoes(EditsOf(Invert(ops, doc))[k], EditsOf(ops)[k], EditsOf(ops), doc, Apply(ops, doc), 0, 0)
  {
    hide Invert, EditsOf, Apply, Undoes, InverseFrom, Walk;
    InvertIsBuilt(ops, doc);
    ChangeWalks(ops, doc);
    InverseSize(EditsOf(ops), 0, 0, doc);
    forall k | 0 <= k < |EditsOf(ops)|
      ensures Undoes(EditsOf(Invert(ops, doc))[k], EditsOf(ops)[k], EditsOf(ops), doc, Apply(ops, doc), 0, 0)
    {
      InverseEach(EditsOf(ops), 0, 0, doc, Apply(ops, doc), k);
    }
  }

  /** Inverting twice gives the change itself, operation for operation. */
  lemma InvertTwice(ops: Ops, doc: string)
    requires Canonical(ops) && InputLen(ops) == |doc|
    ensures Canonical(Invert(ops, doc)) && InputLen(Invert(ops, doc)) == |Apply(ops, doc)|
    ensures Invert(Invert(ops, doc), Apply(ops, doc)) == ops
  {
    hide Invert, EditsOf, Apply, InverseFrom, Walk, OpsOf, Canonical, InputFrom;
    var back, after := Invert(ops, doc), Apply(ops, doc);
    InvertUndoes(ops, doc);
    InvertUndoes(back, after);
    InvertIsBuilt(ops, doc);
    InvertIsBuilt(back, after);
    ChangeWalks(ops, doc);
    InverseTwice(EditsOf(ops), 0, 0, doc, after);
    var again := Invert(back, after);
    EditsDetermine(again, ops);
  }

  /** Canonical changes of one length with the same edits are the same. */
  lemma EditsDetermine(a: Ops, b: Ops)
    requires Canonical(a) && Canonical(b) && InputLen(a) == InputLen(b) && EditsOf(a) == EditsOf(b)
    ensures a == b
  {
    OpsOfEdits(a, 0, 0);
    OpsOfEdits(b, 0, 0);
    assert a[0..] == a && b[0..] == b;
  }
}
