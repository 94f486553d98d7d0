/** Carrying positions and ranges through a change, and what the traversals mean as edits. */
module Positions {
  import opened Change
  import opened Edits

  /** Where `pos`, counted from the operation at `i`, lands, counted from its output. */
  function MapFrom(ops: Ops, i: nat, pos: nat, assoc: Assoc): nat
    requires i <= |ops|
    decreases |ops| - i
  {
    if i == |ops| then pos
    else match ops[i]
      case Retain(n) => if pos < n then pos else n + MapFrom(ops, i + 1, pos - n, assoc)
      case Delete(n) => if pos < n then 0 else MapFrom(ops, i + 1, pos - n, assoc)
      case Insert(s) =>
        if pos == 0 then if assoc.Before? then 0 else |s|
        else |s| + MapFrom(ops, i + 1, pos, assoc)
  }

  function MapPos(ops: Ops, pos: nat, assoc: Assoc): nat { MapFrom(ops, 0, pos, assoc) }

  /** Whether dropping `start..end` destroys part of `from..to`; an anchor has to lie strictly inside. */
  predicate DeletesPart(start: nat, end: nat, from: nat, to: nat) {
    if from == to then start < from < end else start < to && from < end
  }

  /** What `ops[i..]`, standing at `at` of the document, does to `from..to`. */
  function TouchFrom(ops: Ops, i: nat, at: nat, from: nat, to: nat): RangeEffect
    requires i <= |ops|
    decreases |ops| - i
  {
    if i == |ops| then Untouched
    else match ops[i]
      case Retain(n) => TouchFrom(ops, i + 1, at + n, from, to)
      case Delete(n) =>
        if DeletesPart(at, at + n, from, to) then PartlyDeleted else TouchFrom(ops, i + 1, at + n, from, to)
      case Insert(_) =>
        var rest := TouchFrom(ops, i + 1, at, from, to);
        if rest.Untouched? && from < at < to then InsertedInside else rest
  }

  function Touches(ops: Ops, from: nat, to: nat): RangeEffect { TouchFrom(ops, 0, 0, from, to) }

  // ----- a change as a list of edits ------------------------------------------------

  /** The operations after the edit that starts at `i`. */
  function EditWidth(ops: Ops, i: nat): nat
    requires i < |ops| && !ops[i].Retain?
  {
    if ops[i].Delete? && i + 1 < |ops| && ops[i + 1].Insert? then 2 else 1
  }

  function EditAt(ops: Ops, i: nat, at: nat): Edit
    requires i < |ops| && !ops[i].Retain?
  {
    if ops[i].Insert? then Edit(at, at, ops[i].text)
    else Edit(at, at + ops[i].n, if EditWidth(ops, i) == 2 then ops[i + 1].text else "")
  }

  /** The replacements `ops[i..]` makes, when it stands at `at` of the document. */
  function EditsFrom(ops: Ops, i: nat, at: nat): seq<Edit>
    requires i <= |ops|
    decreases |ops| - i
  {
    if i == |ops| then []
    else if ops[i].Retain? then EditsFrom(ops, i + 1, at + ops[i].n)
    else [EditAt(ops, i, at)] + EditsFrom(ops, i + EditWidth(ops, i), EditAt(ops, i, at).end)
  }

  function EditsOf(ops: Ops): seq<Edit> { EditsFrom(ops, 0, 0) }

  /** After an edit comes retained text or the end. */
  lemma AfterEdit(ops: Ops, i: nat)
    requires Canonical(ops) && i < |ops| && !ops[i].Retain?
    ensures var j := i + EditWidth(ops, i); j <= |ops| && (j < |ops| ==> ops[j].Retain? && ops[j].n > 0)
  {
    assert i + 1 < |ops| ==> MayFollow(ops[i], ops[i + 1]) && !ops[i + 1].IsEmpty();
    assert i + 2 < |ops| ==> MayFollow(ops[i + 1], ops[i + 2]) && !ops[i + 2].IsEmpty();
  }

  lemma EditInput(ops: Ops, i: nat, at: nat)
    requires i < |ops| && !ops[i].Retain?
    ensures at + InputFrom(ops, i) == EditAt(ops, i, at).end + InputFrom(ops, i + EditWidth(ops, i))
    ensures at == EditAt(ops, i, at).start <= EditAt(ops, i, at).end
  {
  }

  lemma SeparatedCons(e: Edit, rest: seq<Edit>, len: nat)
    requires (e.start < e.end || e.text != "") && Ordered(rest, e.end, len) && Separated(rest)
    requires rest != [] ==> e.end < rest[0].start
    ensures Separated([e] + rest)
  {
    var edits := [e] + rest;
    forall i | 0 <= i < |edits|
      ensures edits[i].start < edits[i].end || edits[i].text != ""
    {
      assert i > 0 ==> edits[i] == rest[i - 1];
    }
    forall i, j | 0 <= i < j < |edits|
      ensures edits[i].end < edits[j].start
    {
      assert edits[j] == rest[j - 1] && (i > 0 ==> edits[i] == rest[i - 1]);
    }
  }

  lemma EditsStep(ops: Ops, i: nat, at: nat)
    requires Canonical(ops) && i < |ops|
    ensures !ops[i].IsEmpty()
    ensures ops[i].Retain? ==>
            && ops[i].n > 0 && at + InputFrom(ops, i) == at + ops[i].n + InputFrom(ops, i + 1)
            && EditsFrom(ops, i, at) == EditsFrom(ops, i + 1, at + ops[i].n)
    ensures !ops[i].Retain? ==>
            var e, j := EditAt(ops, i, at), i + EditWidth(ops, i);
            && i < j <= |ops| && at == e.start <= e.end && (e.start < e.end || e.text != "")
            && at + InputFrom(ops, i) == e.end + InputFrom(ops, j)
            && EditsFrom(ops, i, at) == [e] + EditsFrom(ops, j, e.end)
            && (j < |ops| ==> ops[j].Retain?)
  {
    if !ops[i].Retain? {
      AfterEdit(ops, i);
      EditInput(ops, i, at);
    }
  }

  lemma OrderedEarlier(edits: seq<Edit>, at: nat, to: nat, len: nat)
    requires Ordered(edits, to, len) && at <= to
    ensures Ordered(edits, at, len)
    ensures edits != [] ==> to <= edits[0].start
  {
  }

  /** A canonical change is a list of maximal edits. */
  lemma {:induction false} EditsSeparated(ops: Ops, i: nat, at: nat)
    requires Canonical(ops) && i <= |ops|
    ensures Ordered(EditsFrom(ops, i, at), at, at + InputFrom(ops, i)) && Separated(EditsFrom(ops, i, at))
    ensures i < |ops| && ops[i].Retain? && EditsFrom(ops, i, at) != [] ==> at < EditsFrom(ops, i, at)[0].start
    decreases |ops| - i
  {
    hide *;
    if i == |ops| {
      NoEdits(ops, at);
    } else {
      EditsStep(ops, i, at);
      if ops[i].Retain? {
        EditsSeparated(ops, i + 1, at + ops[i].n);
        OrderedEarlier(EditsFrom(ops, i, at), at, at + ops[i].n, at + InputFrom(ops, i));
      } else {
        var e, j := EditAt(ops, i, at), i + EditWidth(ops, i);
        EditsSeparated(ops, j, e.end);
        NoEdits(ops, e.end);
        OrderedCons(e, EditsFrom(ops, j, e.end), at, at + InputFrom(ops, i));
        SeparatedCons(e, EditsFrom(ops, j, e.end), at + InputFrom(ops, i));
      }
    }
  }

  lemma NoEdits(ops: Ops, at: nat)
    ensures EditsFrom(ops, |ops|, at) == [] && InputFrom(ops, |ops|) == 0
    ensures Ordered([], at, at) && Separated([])
  {
  }

  /** Making the edits is applying the change. */
  lemma {:induction false} EditsSplice(ops: Ops, i: nat, at: nat, doc: string)
    requires Canonical(ops) && i <= |ops| && at + InputFrom(ops, i) == |doc|
    ensures Ordered(EditsFrom(ops, i, at), at, |doc|)
    ensures Splice(doc, at, EditsFrom(ops, i, at)) == ApplyFrom(ops, i, doc, at)
    decreases |ops| - i
  {
    hide *;
    EditsSeparated(ops, i, at);
    if i == |ops| {
      SpliceNothing(ops, doc, at);
    } else {
      EditsStep(ops, i, at);
      if ops[i].Retain? {
        var to := at + ops[i].n;
        EditsSplice(ops, i + 1, to, doc);
        SpliceSkips(doc, at, to, EditsFrom(ops, i, at));
        RetainApplies(ops, i, doc, at);
      } else {
        var e, j := EditAt(ops, i, at), i + EditWidth(ops, i);
        EditsSplice(ops, j, e.end, doc);
        SpliceCons(doc, at, e, EditsFrom(ops, j, e.end));
        EditApplies(ops, i, doc, at);
      }
    }
  }

  lemma SpliceNothing(ops: Ops, doc: string, at: nat)
    requires at + InputFrom(ops, |ops|) == |doc|
    ensures at == |doc| && EditsFrom(ops, |ops|, at) == []
    ensures Ordered([], at, |doc|) && Splice(doc, at, []) == ApplyFrom(ops, |ops|, doc, at)
  {
  }

  lemma RetainApplies(ops: Ops, i: nat, doc: string, at: nat)
    requires i < |ops| && ops[i].Retain? && at + InputFrom(ops, i) <= |doc|
    ensures at + ops[i].n + InputFrom(ops, i + 1) == at + InputFrom(ops, i)
    ensures ApplyFrom(ops, i, doc, at) == doc[at..at + ops[i].n] + ApplyFrom(ops, i + 1, doc, at + ops[i].n)
  {
  }

  lemma EditApplies(ops: Ops, i: nat, doc: string, at: nat)
    requires i < |ops| && !ops[i].Retain? && at + InputFrom(ops, i) <= |doc|
    ensures var e, j := EditAt(ops, i, at), i + EditWidth(ops, i);
            && e.start == at && e.end + InputFrom(ops, j) <= |doc|
            && ApplyFrom(ops, i, doc, at) == doc[at..at] + (e.text + ApplyFrom(ops, j, doc, e.end))
  {
    hide ApplyFrom, InputFrom;
    var e, j := EditAt(ops, i, at), i + EditWidth(ops, i);
    EditInput(ops, i, at);
    ApplyStep(ops, i, doc, at);
    var rest := ApplyFrom(ops, j, doc, e.end);
    EmptyFront(doc, at, e.text + rest);
    EmptyFront(doc, at, rest);
    if ops[i].Delete? && j == i + 2 {
      ApplyStep(ops, i + 1, doc, e.end);
      EmptyFront(doc, at, ApplyFrom(ops, i + 1, doc, e.end));
    }
  }

  lemma EmptyFront(doc: string, at: nat, s: string)
    requires at <= |doc|
    ensures doc[at..at] + s == s && "" + s == s
  {
  }

  /** A position moves the same way over a change and over the edits it makes. */
  lemma {:induction false} MapIsMove(ops: Ops, i: nat, at: nat, out: nat, p: nat)
    requires Canonical(ops) && i <= |ops| && at <= p
    ensures out + MapFrom(ops, i, p - at, After) == Move(EditsFrom(ops, i, at), at, out, p)
    decreases |ops| - i, 1
  {
    if i < |ops| {
      if ops[i].Retain? {
        MapIsMoveRetain(ops, i, at, out, p);
      } else {
        MapIsMoveEdit(ops, i, at, out, p);
      }
    }
  }

  lemma {:induction false} MapIsMoveRetain(ops: Ops, i: nat, at: nat, out: nat, p: nat)
    requires Canonical(ops) && i < |ops| && at <= p && ops[i].Retain?
    ensures out + MapFrom(ops, i, p - at, After) == Move(EditsFrom(ops, i, at), at, out, p)
    decreases |ops| - i, 0
  {
    hide Canonical, Ordered, Separated, InputFrom, EditsFrom;
    var n, edits := ops[i].n, EditsFrom(ops, i, at);
    EditsStep(ops, i, at);
    EditsSeparated(ops, i + 1, at + n);
    OrderedEarlier(edits, at, at + n, at + InputFrom(ops, i));
    if at + n <= p {
      MapIsMove(ops, i + 1, at + n, out + n, p);
      MoveRebase(edits, at, out, at + n, at + InputFrom(ops, i), p);
    }
  }

  lemma {:induction false} MapIsMoveEdit(ops: Ops, i: nat, at: nat, out: nat, p: nat)
    requires Canonical(ops) && i < |ops| && at <= p && !ops[i].Retain?
    ensures out + MapFrom(ops, i, p - at, After) == Move(EditsFrom(ops, i, at), at, out, p)
    decreases |ops| - i, 0
  {
    hide Canonical, Ordered, Separated, InputFrom, EditsFrom;
    var e, j := EditAt(ops, i, at), i + EditWidth(ops, i);
    EditsStep(ops, i, at);
    EditsSeparated(ops, j, e.end);
    if p == e.end {
      MoveAtOnce(ops, j, e.end, out + |e.text|);
    } else if e.end < p {
      MapIsMove(ops, j, e.end, out + |e.text|, p);
    }
  }

  /** Just behind an edit nothing else moves a position. */
  lemma MoveAtOnce(ops: Ops, j: nat, at: nat, out: nat)
    requires Canonical(ops) && j <= |ops| && (j < |ops| ==> ops[j].Retain?)
    ensures Move(EditsFrom(ops, j, at), at, out, at) == out
    ensures MapFrom(ops, j, 0, After) == 0
  {
    EditsSeparated(ops, j, at);
    if j < |ops| {
      EditsStep(ops, j, at);
    }
  }

  ghost predicate AllClear(edits: seq<Edit>, range: Edit) {
    forall k :: 0 <= k < |edits| ==> Apart(edits[k], range)
  }

  lemma AllClearCons(e: Edit, rest: seq<Edit>, range: Edit)
    ensures AllClear([e] + rest, range) <==> Apart(e, range) && AllClear(rest, range)
  {
    var edits := [e] + rest;
    assert edits[0] == e && edits[1..] == rest;
    assert forall k :: 0 <= k < |rest| ==> edits[k + 1] == rest[k];
  }

  /** A range is left alone exactly when every edit lies wholly before or wholly behind it. */
  lemma {:induction false} UntouchedIsClear(ops: Ops, i: nat, at: nat, range: Edit)
    requires Canonical(ops) && i <= |ops| && range.start <= range.end
    ensures TouchFrom(ops, i, at, range.start, range.end).Untouched? <==> AllClear(EditsFrom(ops, i, at), range)
    decreases |ops| - i
  {
    if i < |ops| {
      hide Canonical, Ordered, Separated, InputFrom, EditsFrom, AllClear;
      EditsStep(ops, i, at);
      if ops[i].Retain? {
        UntouchedIsClear(ops, i + 1, at + ops[i].n, range);
      } else {
        var e, j := EditAt(ops, i, at), i + EditWidth(ops, i);
        UntouchedIsClear(ops, j, e.end, range);
        AllClearCons(e, EditsFrom(ops, j, e.end), range);
      }
    }
  }

  // ----- the two sides of an edit -----------------------------------------------------

  /** The text put in by the edit that ends at `p`, if there is one. */
  function EndingAt(edits: seq<Edit>, p: nat): string {
    if edits == [] then "" else if edits[0].end == p then edits[0].text else EndingAt(edits[1..], p)
  }

  lemma {:induction false} NoneEndsThere(edits: seq<Edit>, p: nat, len: nat)
    requires Ordered(edits, p, len) && (edits != [] ==> p < edits[0].start)
    ensures EndingAt(edits, p) == ""
    decreases |edits|
  {
    if edits != [] {
      OrderedEarlier(edits[1..], p, edits[0].end, len);
      NoneEndsThere(edits[1..], p, len);
    }
  }

  lemma NoneBefore(ops: Ops, i: nat, at: nat, p: nat)
    requires Canonical(ops) && i <= |ops| && p < at
    ensures EndingAt(EditsFrom(ops, i, at), p) == ""
  {
    hide Canonical, EditsFrom, EndingAt, Separated, InputFrom;
    EditsSeparated(ops, i, at);
    OrderedEarlier(EditsFrom(ops, i, at), p, at, at + InputFrom(ops, i));
    NoneEndsThere(EditsFrom(ops, i, at), p, at + InputFrom(ops, i));
  }

  /** The two associations differ by the text of the edit that ends at the position, and otherwise not at all. */
  lemma {:induction false} SidesOfAnEdit(ops: Ops, i: nat, at: nat, p: nat)
    requires Canonical(ops) && i <= |ops| && at <= p
    ensures MapFrom(ops, i, p - at, After) ==
            MapFrom(ops, i, p - at, Before) + |EndingAt(EditsFrom(ops, i, at), p)|
    decreases |ops| - i, 1
  {
    if i < |ops| {
      hide Canonical, Ordered, Separated, InputFrom, EditsFrom;
      if ops[i].Retain? {
        EditsStep(ops, i, at);
        if at + ops[i].n <= p {
          SidesOfAnEdit(ops, i + 1, at + ops[i].n, p);
        } else {
          NoneBefore(ops, i + 1, at + ops[i].n, p);
        }
      } else {
        SidesAtAnEdit(ops, i, at, p);
      }
    }
  }

  lemma {:induction false} SidesAtAnEdit(ops: Ops, i: nat, at: nat, p: nat)
    requires Canonical(ops) && i < |ops| && at <= p && !ops[i].Retain?
    ensures MapFrom(ops, i, p - at, After) ==
            MapFrom(ops, i, p - at, Before) + |EndingAt(EditsFrom(ops, i, at), p)|
    decreases |ops| - i, 0
  {
    hide Canonical, Ordered, Separated, InputFrom, EditsFrom;
    var e, j := EditAt(ops, i, at), i + EditWidth(ops, i);
    EditsStep(ops, i, at);
    assert EndingAt(EditsFrom(ops, i, at), p) ==
           if e.end == p then e.text else EndingAt(EditsFrom(ops, j, e.end), p);
    if e.end < p {
      SidesOfAnEdit(ops, j, e.end, p);
    } else if p < e.end {
      NoneBefore(ops, j, e.end, p);
    } else if j < |ops| {
      EditsStep(ops, j, e.end);
    }
  }
}
