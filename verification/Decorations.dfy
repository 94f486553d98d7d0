/** Styled overlays on a document, carried through every change. */
module Decorations {
  import opened Change
  import opened ChangeSets
  import opened ChangeLaws
  import opened Edits
  import opened Positions
  import opened Options
  import opened Review
  import opened Sorting

  datatype HunkSide = Removed | Added

  /** Syntax, diagnostic and match classes keep their own detail as a number. */
  datatype Class =
    | Syntax(kind: nat)
    | Diagnostic(severity: nat)
    | Hunk(proposal: nat, side: HunkSide, state: HunkState)
    | Match(current: bool)
  {
    /** Data its producer can regenerate from the text. */
    predicate IsDerived() { Syntax? || Diagnostic? || Match? }
  }

  datatype Decoration = Decoration(start: nat, end: nat, class_: Class)
  {
    predicate IsEmpty() { start == end }

    function Range(): Edit { Edit(start, end, "") }
  }

  /** A derived decoration goes when its range is disturbed; a hunk stays and is marked. */
  predicate Survives(d: Decoration, ops: Ops) {
    d.class_.Hunk? || Touches(ops, d.start, d.end).Untouched?
  }

  function Carried(d: Decoration, ops: Ops): Decoration {
    var class_ :=
      match ReasonOf(Touches(ops, d.start, d.end))
      case Some(reason) => if d.class_.Hunk? then d.class_.(state := Conflicted(reason)) else d.class_
      case None => d.class_;
    Decoration(MapPos(ops, d.start, After), MapPos(ops, d.end, After), class_)
  }

  function MapItems(items: seq<Decoration>, ops: Ops): seq<Decoration> {
    if items == [] then []
    else (if Survives(items[0], ops) then [Carried(items[0], ops)] else []) + MapItems(items[1..], ops)
  }

  /** The items a predicate keeps, in order. */
  function Keep(items: seq<Decoration>, keep: Decoration -> bool): seq<Decoration> {
    if items == [] then []
    else (if keep(items[0]) then [items[0]] else []) + Keep(items[1..], keep)
  }

  class DecorationSet {
    var items: seq<Decoration>

    constructor ()
      ensures items == []
    {
      items := [];
    }

    method Push(d: Decoration)
      modifies this
      ensures items == old(items) + [d]
    {
      items := items + [d];
    }

    /** Keeps what `keep` accepts, in place and in order. */
    method Retain(keep: Decoration -> bool)
      modifies this
      ensures items == Keep(old(items), keep)
    {
      hide Keep;
      var was := items;
      items := [];
      var i := 0;
      KeepStart(was, keep);
      while i < |was|
        invariant 0 <= i <= |was|
        invariant items + Keep(was[i..], keep) == Keep(was, keep)
      {
        KeepNext(items, was, i, keep);
        if keep(was[i]) {
          items := items + [was[i]];
        }
        i := i + 1;
      }
      KeepEnd(items, was, keep);
    }

    method ClearSyntax()
      modifies this
      ensures items == Keep(old(items), (d: Decoration) => !d.class_.Syntax?)
    {
      Retain((d: Decoration) => !d.class_.Syntax?);
    }

    method ClearMatches()
      modifies this
      ensures items == Keep(old(items), (d: Decoration) => !d.class_.Match?)
    {
      Retain((d: Decoration) => !d.class_.Match?);
    }

    method ClearDiagnostics()
      modifies this
      ensures items == Keep(old(items), (d: Decoration) => !d.class_.Diagnostic?)
    {
      Retain((d: Decoration) => !d.class_.Diagnostic?);
    }

    method ClearDerived()
      modifies this
      ensures items == Keep(old(items), (d: Decoration) => !d.class_.IsDerived())
    {
      Retain((d: Decoration) => !d.class_.IsDerived());
    }

    method RemoveProposal(proposal: nat)
      modifies this
      ensures items == Keep(old(items), (d: Decoration) => !(d.class_.Hunk? && d.class_.proposal == proposal))
    {
      Retain((d: Decoration) => !(d.class_.Hunk? && d.class_.proposal == proposal));
    }

    /** Carries every decoration through an applied change. */
    method Map(changes: ChangeSet)
      requires forall i :: 0 <= i < |items| ==> items[i].start <= items[i].end
      modifies this
      ensures items == MapItems(old(items), changes.ops)
    {
      hide MapItems, MapFrom, TouchFrom;
      var was := items;
      items := [];
      var i := 0;
      MapItemsStart(was, changes.ops);
      while i < |was|
        invariant 0 <= i <= |was|
        invariant items + MapItems(was[i..], changes.ops) == MapItems(was, changes.ops)
      {
        var d := was[i];
        MapItemsNext(items, was, i, changes.ops);
        var effect := EffectOn(changes, d.start, d.end);
        var class_, kept := d.class_, true;
        if d.class_.Hunk? {
          match ReasonOf(effect) {
            case Some(reason) => class_ := d.class_.(state := Conflicted(reason));
            case None =>
          }
        } else if !effect.Untouched? {
          kept := false;
        }
        if kept {
          var start := MapPosition(changes, d.start, After);
          var end := MapPosition(changes, d.end, After);
          items := items + [Decoration(start, end, class_)];
        }
        i := i + 1;
      }
      MapItemsEnd(items, was, changes.ops);
    }
  }

  lemma KeepStart(was: seq<Decoration>, keep: Decoration -> bool)
    ensures [] + Keep(was[0..], keep) == Keep(was, keep)
  {
    assert was[0..] == was;
  }

  lemma KeepNext(items: seq<Decoration>, was: seq<Decoration>, i: nat, keep: Decoration -> bool)
    requires i < |was|
    ensures items + Keep(was[i..], keep) == (if keep(was[i]) then items + [was[i]] else items) + Keep(was[i + 1..], keep)
  {
    assert was[i..][1..] == was[i + 1..];
  }

  lemma KeepEnd(items: seq<Decoration>, was: seq<Decoration>, keep: Decoration -> bool)
    ensures items + Keep(was[|was|..], keep) == items
  {
  }

  lemma MapItemsStart(was: seq<Decoration>, ops: Ops)
    ensures [] + MapItems(was[0..], ops) == MapItems(was, ops)
  {
    assert was[0..] == was;
  }

  lemma MapItemsNext(items: seq<Decoration>, was: seq<Decoration>, i: nat, ops: Ops)
    requires i < |was|
    ensures items + MapItems(was[i..], ops) ==
            (if Survives(was[i], ops) then items + [Carried(was[i], ops)] else items) + MapItems(was[i + 1..], ops)
  {
    assert was[i..][1..] == was[i + 1..];
  }

  lemma MapItemsEnd(items: seq<Decoration>, was: seq<Decoration>, ops: Ops)
    ensures items + MapItems(was[|was|..], ops) == items
  {
  }

  // ----- pending reviews never vanish -------------------------------------------------

  /** The hunk decorations, in order. */
  function HunksOf(items: seq<Decoration>): seq<Class> {
    if items == [] then []
    else (if items[0].class_.Hunk? then [items[0].class_] else []) + HunksOf(items[1..])
  }

  /** Same proposals and sides in the same order, and nothing that conflicted is clean again. */
  ghost predicate ReviewKept(before: seq<Class>, after: seq<Class>) {
    && |after| == |before|
    && (forall i :: 0 <= i < |before| ==> before[i].Hunk? && after[i].Hunk?)
    && (forall i :: 0 <= i < |before| ==> after[i].proposal == before[i].proposal && after[i].side == before[i].side)
    && (forall i :: 0 <= i < |before| && before[i].state.Conflicted? ==> after[i].state.Conflicted?)
    && (forall i :: 0 <= i < |before| && after[i].state.Clean? ==> before[i].state.Clean?)
  }

  lemma HunksOfCons(d: Decoration, rest: seq<Decoration>)
    ensures HunksOf([d] + rest) == (if d.class_.Hunk? then [d.class_] else []) + HunksOf(rest)
  {
    assert ([d] + rest)[1..] == rest;
  }

  lemma ReviewKeptCons(x: Class, y: Class, before: seq<Class>, after: seq<Class>)
    requires ReviewKept(before, after) && ReviewKept([x], [y])
    ensures ReviewKept([x] + before, [y] + after)
  {
    assert x == [x][0] && y == [y][0];
  }

  lemma CarriedKeeps(d: Decoration, ops: Ops)
    requires d.class_.Hunk?
    ensures Survives(d, ops) && Carried(d, ops).class_.Hunk? && ReviewKept([d.class_], [Carried(d, ops).class_])
  {
  }

  lemma {:induction false} MapKeepsReview(items: seq<Decoration>, ops: Ops)
    ensures ReviewKept(HunksOf(items), HunksOf(MapItems(items, ops)))
    decreases |items|
  {
    if items != [] {
      hide ReviewKept, Carried, Survives, HunksOf;
      var d, rest := items[0], MapItems(items[1..], ops);
      MapKeepsReview(items[1..], ops);
      assert items == [d] + items[1..];
      HunksOfCons(d, items[1..]);
      HunksOfCons(Carried(d, ops), rest);
      ClassKept(d, ops);
      NothingInFront(rest, HunksOf(items[1..]), HunksOf(rest));
      if d.class_.Hunk? {
        CarriedKeeps(d, ops);
        ReviewKeptCons(d.class_, Carried(d, ops).class_, HunksOf(items[1..]), HunksOf(rest));
      }
    } else {
      AllHunks(items);
    }
  }

  lemma ClassKept(d: Decoration, ops: Ops)
    ensures Carried(d, ops).class_.Hunk? <==> d.class_.Hunk?
  {
  }

  lemma NothingInFront(items: seq<Decoration>, xs: seq<Class>, ys: seq<Class>)
    ensures [] + items == items && [] + xs == xs && [] + ys == ys
  {
  }

  /** The set after one change after another. */
  function MapAll(items: seq<Decoration>, changes: seq<Ops>): seq<Decoration>
    decreases |changes|
  {
    if changes == [] then items else MapAll(MapItems(items, changes[0]), changes[1..])
  }

  /** Through any sequence of changes no hunk is lost or reordered, and none recovers silently. */
  lemma {:induction false} ReviewsSurvive(items: seq<Decoration>, changes: seq<Ops>)
    ensures ReviewKept(HunksOf(items), HunksOf(MapAll(items, changes)))
    decreases |changes|
  {
    if changes == [] {
      AllHunks(items);
    } else {
      MapKeepsReview(items, changes[0]);
      ReviewsSurvive(MapItems(items, changes[0]), changes[1..]);
    }
  }

  lemma {:induction false} AllHunks(items: seq<Decoration>)
    ensures ReviewKept(HunksOf(items), HunksOf(items))
    decreases |items|
  {
    if items != [] {
      AllHunks(items[1..]);
    }
  }

  // ----- a surviving span covers the same text ----------------------------------------

  /** Text inserted, with nothing replaced, exactly at `p`. */
  function InsertedAt(ops: Ops, p: nat): string { InsertionAt(EditsOf(ops), p) }

  /** An undisturbed span covers what it covered, plus whatever was typed exactly at its end. */
  lemma SpanCovers(d: Decoration, ops: Ops, doc: string)
    requires Canonical(ops) && InputLen(ops) == |doc| && d.start < d.end <= |doc|
    requires Touches(ops, d.start, d.end).Untouched?
    ensures var c, after := Carried(d, ops), Apply(ops, doc);
            && c.start < c.end <= |after| && c.class_ == d.class_
            && after[c.start..c.end] == doc[d.start..d.end] + InsertedAt(ops, d.end)
  {
    hide Canonical, EditsFrom, MapFrom, TouchFrom, Move, Splice, Ordered, Separated;
    var edits, after := EditsOf(ops), Apply(ops, doc);
    EditsApply(ops, doc);
    MapIsMove(ops, 0, 0, 0, d.start);
    MapIsMove(ops, 0, 0, 0, d.end);
    UntouchedIsClear(ops, 0, 0, d.Range());
    assert after[0..] == after;
    RangeMoves(edits, 0, 0, doc, after, d.start, d.end);
  }

  /** So it covers the very same characters exactly when nothing was inserted at its end. */
  lemma SpanCoversSame(d: Decoration, ops: Ops, doc: string)
    requires Canonical(ops) && InputLen(ops) == |doc| && d.start < d.end <= |doc|
    requires Touches(ops, d.start, d.end).Untouched?
    ensures var c, after := Carried(d, ops), Apply(ops, doc);
            && c.start < c.end <= |after|
            && (after[c.start..c.end] == doc[d.start..d.end] <==> InsertedAt(ops, d.end) == "")
  {
    SpanCovers(d, ops, doc);
    var c, after := Carried(d, ops), Apply(ops, doc);
    if InsertedAt(ops, d.end) == "" {
      assert doc[d.start..d.end] + "" == doc[d.start..d.end];
    } else {
      assert |after[c.start..c.end]| > |doc[d.start..d.end]|;
    }
  }

  // ----- spans through a whole run ----------------------------------------------------

  /** The document after one change after another. */
  ghost predicate Applies(changes: seq<Ops>, doc: string)
    decreases |changes|
  {
    changes == [] || (Canonical(changes[0]) && InputLen(changes[0]) == |doc| && Applies(changes[1..], Apply(changes[0], doc)))
  }

  ghost function ApplyAll(changes: seq<Ops>, doc: string): string
    requires Applies(changes, doc)
    decreases |changes|
  {
    if changes == [] then doc else ApplyAll(changes[1..], Apply(changes[0], doc))
  }

  /** Nothing is ever inserted exactly where the carried decoration ends. */
  ghost predicate NothingAtEnd(d: Decoration, changes: seq<Ops>)
    decreases |changes|
  {
    changes == [] || (InsertedAt(changes[0], d.end) == "" && NothingAtEnd(Carried(d, changes[0]), changes[1..]))
  }

  lemma {:induction false} MapAllNothing(changes: seq<Ops>)
    ensures MapAll([], changes) == []
    decreases |changes|
  {
    if changes != [] {
      MapAllNothing(changes[1..]);
    }
  }

  /** A derived span that survives a run of changes still covers the same characters. */
  lemma {:induction false} SpanCoversThroughout(d: Decoration, changes: seq<Ops>, doc: string)
    requires d.class_.IsDerived() && d.start < d.end <= |doc| && Applies(changes, doc)
    requires MapAll([d], changes) != [] && NothingAtEnd(d, changes)
    ensures |MapAll([d], changes)| == 1
    ensures var c, after := MapAll([d], changes)[0], ApplyAll(changes, doc);
            c.start < c.end <= |after| && after[c.start..c.end] == doc[d.start..d.end] && c.class_ == d.class_
    decreases |changes|
  {
    if changes != [] {
      var ops := changes[0];
      MapOne(d, ops);
      if !Survives(d, ops) {
        MapAllNothing(changes[1..]);
        assert false;
      }
      SpanCoversSame(d, ops, doc);
      SpanCovers(d, ops, doc);
      SpanCoversThroughout(Carried(d, ops), changes[1..], Apply(ops, doc));
    }
  }

  lemma MapOne(d: Decoration, ops: Ops)
    ensures MapItems([d], ops) == if Survives(d, ops) then [Carried(d, ops)] else []
  {
    assert [d][1..] == [];
  }

  // ----- housekeeping -----------------------------------------------------------------

  lemma KeepOne(d: Decoration, rest: seq<Decoration>, keep: Decoration -> bool)
    ensures Keep([d] + rest, keep) == (if keep(d) then [d] else []) + Keep(rest, keep)
    ensures Keep([], keep) == []
  {
    assert ([d] + rest)[1..] == rest;
  }

  /** What is kept is decided one by one, and the order stays. */
  lemma {:induction false} KeepIsOneByOne(items: seq<Decoration>, last: Decoration, keep: Decoration -> bool)
    ensures Keep([], keep) == []
    ensures Keep(items + [last], keep) == if keep(last) then Keep(items, keep) + [last] else Keep(items, keep)
    decreases |items|
  {
    hide *;
    KeepOne(last, [], keep);
    if items == [] {
      assert items + [last] == [last] + [];
    } else {
      KeepIsOneByOne(items[1..], last, keep);
      assert items == [items[0]] + items[1..];
      Joined([items[0]], items[1..], [last]);
      KeepOne(items[0], items[1..], keep);
      KeepOne(items[0], items[1..] + [last], keep);
      Joined(if keep(items[0]) then [items[0]] else [], Keep(items[1..], keep), [last]);
    }
  }

  /** Clearing all that is derived leaves the hunks and nothing else. */
  lemma {:induction false} AllButHunksIsDerived(items: seq<Decoration>)
    ensures Keep(items, (d: Decoration) => !d.class_.IsDerived()) == Keep(items, (d: Decoration) => d.class_.Hunk?)
    decreases |items|
  {
    if items != [] {
      AllButHunksIsDerived(items[1..]);
    }
  }

  /** Clearing by class, or everything derived, leaves the pending hunks alone. */
  lemma {:induction false} KeepingHunks(items: seq<Decoration>, keep: Decoration -> bool)
    requires forall d :: d in items && d.class_.Hunk? ==> keep(d)
    ensures HunksOf(Keep(items, keep)) == HunksOf(items)
    decreases |items|
  {
    if items != [] {
      KeepingHunks(items[1..], keep);
      HunksOfCons(items[0], Keep(items[1..], keep));
      NothingInFront(Keep(items[1..], keep), HunksOf(items[1..]), HunksOf(items[1..]));
      assert items[0] in items;
    }
  }

  function OthersOf(hunks: seq<Class>, proposal: nat): seq<Class> {
    if hunks == [] then []
    else (if hunks[0].Hunk? && hunks[0].proposal == proposal then [] else [hunks[0]]) + OthersOf(hunks[1..], proposal)
  }

  lemma OthersOfCons(x: Class, rest: seq<Class>, proposal: nat)
    ensures OthersOf([x] + rest, proposal) ==
            (if x.Hunk? && x.proposal == proposal then [] else [x]) + OthersOf(rest, proposal)
  {
    assert ([x] + rest)[1..] == rest;
  }

  /** Resolving a proposal takes its own hunks and no other. */
  lemma {:induction false} RemovingProposal(items: seq<Decoration>, proposal: nat)
    ensures HunksOf(Keep(items, (d: Decoration) => !(d.class_.Hunk? && d.class_.proposal == proposal))) ==
            OthersOf(HunksOf(items), proposal)
    decreases |items|
  {
    var keep := (d: Decoration) => !(d.class_.Hunk? && d.class_.proposal == proposal);
    if items != [] {
      RemovingProposal(items[1..], proposal);
      HunksOfCons(items[0], Keep(items[1..], keep));
      NothingInFront(Keep(items[1..], keep), HunksOf(items[1..]), HunksOf(Keep(items[1..], keep)));
      NothingInFront([], OthersOf(HunksOf(items[1..]), proposal), []);
      OthersOfCons(items[0].class_, HunksOf(items[1..]), proposal);
    }
  }

  // ----- clipping to a line -----------------------------------------------------------

  /** A decoration clipped to one line, counted from the start of that line. */
  datatype LineDecoration = LineDecoration(start: nat, end: nat, class_: Class)

  function Clamp(x: nat, lo: nat, hi: nat): (r: nat)
    requires lo <= hi
    ensures lo <= r <= hi
  {
    if x < lo then lo else if x > hi then hi else x
  }

  /** An anchor also counts at the very end of a line. */
  predicate Overlaps(d: Decoration, lineStart: nat, lineEnd: nat) {
    if d.IsEmpty() then lineStart <= d.start <= lineEnd else d.start < lineEnd && d.end > lineStart
  }

  function Clip(d: Decoration, lineStart: nat, lineEnd: nat): LineDecoration
    requires lineStart <= lineEnd
  {
    LineDecoration(Clamp(d.start, lineStart, lineEnd) - lineStart, Clamp(d.end, lineStart, lineEnd) - lineStart, d.class_)
  }

  function Clips(items: seq<Decoration>, lineStart: nat, lineEnd: nat): seq<LineDecoration>
    requires lineStart <= lineEnd
  {
    if items == [] then []
    else (if Overlaps(items[0], lineStart, lineEnd) then [Clip(items[0], lineStart, lineEnd)] else []) +
         Clips(items[1..], lineStart, lineEnd)
  }

  predicate LineLe(x: LineDecoration, y: LineDecoration) { x.start < y.start || (x.start == y.start && x.end <= y.end) }

  function ForLine(items: seq<Decoration>, lineStart: nat, lineEnd: nat): seq<LineDecoration>
    requires lineStart <= lineEnd
  {
    Sort(Clips(items, lineStart, lineEnd), LineLe)
  }

  lemma {:induction false} ClipsFit(items: seq<Decoration>, lineStart: nat, lineEnd: nat)
    requires lineStart <= lineEnd && forall d :: d in items ==> d.start <= d.end
    ensures forall c :: c in Clips(items, lineStart, lineEnd) ==> c.start <= c.end <= lineEnd - lineStart
    decreases |items|
  {
    if items != [] {
      assert items[0] in items;
      ClipsFit(items[1..], lineStart, lineEnd);
    }
  }

  /** The renderer gets exactly the clipped decorations of the line, by start and then by end, and in bounds; those
      that start and end together come as they were pushed. */
  lemma LineInOrder(items: seq<Decoration>, lineStart: nat, lineEnd: nat)
    requires lineStart <= lineEnd && forall d :: d in items ==> d.start <= d.end
    ensures var entries := ForLine(items, lineStart, lineEnd);
            forall i, j :: 0 <= i < j < |entries| ==>
              entries[i].start < entries[j].start || (entries[i].start == entries[j].start && entries[i].end <= entries[j].end)
    ensures forall c :: Alike(ForLine(items, lineStart, lineEnd), c, LineLe) == Alike(Clips(items, lineStart, lineEnd), c, LineLe)
    ensures multiset(ForLine(items, lineStart, lineEnd)) == multiset(Clips(items, lineStart, lineEnd))
    ensures forall c :: c in ForLine(items, lineStart, lineEnd) ==> c.start <= c.end <= lineEnd - lineStart
  {
    SortSorts(Clips(items, lineStart, lineEnd), LineLe);
    ClipsFit(items, lineStart, lineEnd);
    forall c {
      SortKeepsTies(Clips(items, lineStart, lineEnd), LineLe, c);
    }
  }

  function ClipOf(d: Decoration, lineStart: nat, lineEnd: nat): seq<LineDecoration>
    requires lineStart <= lineEnd
  {
    if Overlaps(d, lineStart, lineEnd) then [Clip(d, lineStart, lineEnd)] else []
  }

  lemma ClipsCons(d: Decoration, rest: seq<Decoration>, lineStart: nat, lineEnd: nat)
    requires lineStart <= lineEnd
    ensures Clips([d] + rest, lineStart, lineEnd) == ClipOf(d, lineStart, lineEnd) + Clips(rest, lineStart, lineEnd)
  {
    assert ([d] + rest)[1..] == rest;
  }

  lemma NoClips(lineStart: nat, lineEnd: nat)
    requires lineStart <= lineEnd
    ensures Clips([], lineStart, lineEnd) == []
  {
  }

  lemma {:induction false} ClipsBoth(a: seq<Decoration>, b: seq<Decoration>, lineStart: nat, lineEnd: nat)
    requires lineStart <= lineEnd
    ensures Clips(a + b, lineStart, lineEnd) == Clips(a, lineStart, lineEnd) + Clips(b, lineStart, lineEnd)
    decreases |a|
  {
    hide *;
    if a == [] {
      assert a + b == b;
      NoClips(lineStart, lineEnd);
    } else {
      var rest := a[1..];
      ClipsBoth(rest, b, lineStart, lineEnd);
      assert a == [a[0]] + rest;
      Joined([a[0]], rest, b);
      ClipsCons(a[0], rest, lineStart, lineEnd);
      ClipsCons(a[0], rest + b, lineStart, lineEnd);
      Joined(ClipOf(a[0], lineStart, lineEnd), Clips(rest, lineStart, lineEnd), Clips(b, lineStart, lineEnd));
    }
  }

  /** Every decoration is drawn on its own account. */
  lemma DrawnTogether(a: seq<Decoration>, b: seq<Decoration>, lineStart: nat, lineEnd: nat)
    requires lineStart <= lineEnd
    ensures multiset(ForLine(a + b, lineStart, lineEnd)) ==
            multiset(ForLine(a, lineStart, lineEnd)) + multiset(ForLine(b, lineStart, lineEnd))
  {
    hide Clips;
    ClipsBoth(a, b, lineStart, lineEnd);
    SortSorts(Clips(a, lineStart, lineEnd), LineLe);
    SortSorts(Clips(b, lineStart, lineEnd), LineLe);
    SortSorts(Clips(a + b, lineStart, lineEnd), LineLe);
  }

  /** One decoration has one entry on the lines it reaches, of its own class, from where it starts or the line does to
      where it ends or the line does. */
  lemma DrawnOnce(d: Decoration, lineStart: nat, lineEnd: nat)
    requires lineStart <= lineEnd && d.start <= d.end
    ensures var entries := ForLine([d], lineStart, lineEnd);
            if (d.start < lineEnd && lineStart < d.end && d.start < d.end) || (d.start == d.end && lineStart <= d.start <= lineEnd)
            then && |entries| == 1 && entries[0].class_ == d.class_
                 && lineStart + entries[0].start == (if d.start < lineStart then lineStart else d.start)
                 && lineStart + entries[0].end == (if lineEnd < d.end then lineEnd else d.end)
            else entries == []
  {
    hide ForLine;
    OnLine(d, lineStart, lineEnd);
  }

  /** Lines that cover the document from `at` on, one behind the other. */
  predicate LinesTile(lines: seq<(nat, nat)>, i: nat, at: nat, len: nat)
    requires i <= |lines|
    decreases |lines| - i
  {
    if i == |lines| then at == len else lines[i].0 == at <= lines[i].1 && LinesTile(lines, i + 1, lines[i].1, len)
  }

  /** The text that the entries of a line starting at `at` stand on. */
  function ShownText(entries: seq<LineDecoration>, at: nat, doc: string): string {
    if entries == [] then ""
    else
      (if entries[0].start <= entries[0].end && at + entries[0].end <= |doc|
       then doc[at + entries[0].start..at + entries[0].end] else "") + ShownText(entries[1..], at, doc)
  }

  /** The text under what is drawn of a decoration, line after line. */
  function PieceText(d: Decoration, lines: seq<(nat, nat)>, i: nat, at: nat, doc: string): string
    requires i <= |lines| && LinesTile(lines, i, at, |doc|)
    decreases |lines| - i
  {
    if i == |lines| then ""
    else ShownText(ForLine([d], at, lines[i].1), at, doc) + PieceText(d, lines, i + 1, lines[i].1, doc)
  }

  lemma {:induction false} LineInside(lines: seq<(nat, nat)>, i: nat, at: nat, len: nat)
    requires i <= |lines| && LinesTile(lines, i, at, len)
    ensures at <= len && (i < |lines| ==> lines[i].1 <= len)
    decreases |lines| - i
  {
    if i < |lines| {
      LineInside(lines, i + 1, lines[i].1, len);
    }
  }

  /** What of a decoration lies from `at` on. */
  function Remaining(d: Decoration, at: nat, doc: string): string
    requires d.start <= d.end <= |doc|
  {
    if at < d.end then doc[(if d.start < at then at else d.start)..d.end] else ""
  }

  /** On one line a decoration has at most one entry. */
  lemma OnLine(d: Decoration, at: nat, to: nat)
    requires at <= to
    ensures ForLine([d], at, to) == if Overlaps(d, at, to) then [Clip(d, at, to)] else []
  {
    hide Overlaps, Clip;
    assert [d][1..] == [] && Clips([], at, to) == [];
    var clips := if Overlaps(d, at, to) then [Clip(d, at, to)] else [];
    assert Clips([d], at, to) == clips && (clips != [] ==> clips[1..] == []);
    SortAlready(clips, LineLe);
  }

  /** What of a decoration lies on one line. */
  function Piece(d: Decoration, at: nat, to: nat, doc: string): string
    requires d.start < d.end <= |doc| && at <= to <= |doc|
  {
    if Overlaps(d, at, to) then var c := Clip(d, at, to); doc[at + c.start..at + c.end] else ""
  }

  lemma PieceStep(d: Decoration, at: nat, to: nat, doc: string)
    requires d.start < d.end <= |doc| && at <= to <= |doc|
    ensures Remaining(d, at, doc) == Piece(d, at, to, doc) + Remaining(d, to, doc)
  {
    var from := if d.start < at then at else d.start;
    if Overlaps(d, at, to) {
      var c := Clip(d, at, to);
      assert at + c.start == from && at + c.end == if d.end < to then d.end else to;
      if to < d.end {
        assert doc[from..d.end] == doc[from..to] + doc[to..d.end];
      }
    }
  }

  lemma PieceIsShown(d: Decoration, at: nat, to: nat, doc: string)
    requires d.start < d.end <= |doc| && at <= to <= |doc|
    ensures ShownText(ForLine([d], at, to), at, doc) == Piece(d, at, to, doc)
  {
    hide ForLine, ShownText;
    OnLine(d, at, to);
    NoneShown(at, doc);
    if Overlaps(d, at, to) {
      OneShown(Clip(d, at, to), at, doc);
    }
  }

  lemma NoneShown(at: nat, doc: string)
    ensures ShownText([], at, doc) == ""
  {
  }

  lemma OneShown(c: LineDecoration, at: nat, doc: string)
    requires c.start <= c.end && at + c.end <= |doc|
    ensures ShownText([c], at, doc) == doc[at + c.start..at + c.end]
  {
    assert [c][1..] == [];
  }

  /** What is drawn of one decoration is drawn among all of them too. */
  lemma DrawnAmongAll(items: seq<Decoration>, i: nat, lineStart: nat, lineEnd: nat)
    requires i < |items| && lineStart <= lineEnd
    ensures multiset(ForLine([items[i]], lineStart, lineEnd)) <= multiset(ForLine(items, lineStart, lineEnd))
  {
    SortSorts(Clips(items, lineStart, lineEnd), LineLe);
    OnLine(items[i], lineStart, lineEnd);
    if Overlaps(items[i], lineStart, lineEnd) {
      ClippedAmongAll(items, i, lineStart, lineEnd);
    }
  }

  lemma {:induction false} ClippedAmongAll(items: seq<Decoration>, i: nat, lineStart: nat, lineEnd: nat)
    requires i < |items| && lineStart <= lineEnd && Overlaps(items[i], lineStart, lineEnd)
    ensures Clip(items[i], lineStart, lineEnd) in Clips(items, lineStart, lineEnd)
    decreases |items|
  {
    if i > 0 {
      ClippedAmongAll(items[1..], i - 1, lineStart, lineEnd);
    }
  }

  /** For any tiling of the document into lines, the pieces of a decoration put together are
      exactly its range. */
  lemma {:induction false} PiecesCover(d: Decoration, lines: seq<(nat, nat)>, i: nat, at: nat, doc: string)
    requires i <= |lines| && LinesTile(lines, i, at, |doc|) && d.start < d.end <= |doc|
    ensures PieceText(d, lines, i, at, doc) == Remaining(d, at, doc)
    decreases |lines| - i
  {
    if i < |lines| {
      LineInside(lines, i, at, |doc|);
      PieceStep(d, at, lines[i].1, doc);
      PieceIsShown(d, at, lines[i].1, doc);
      PiecesCover(d, lines, i + 1, lines[i].1, doc);
    }
  }

  lemma LineClippingLosesNothing(d: Decoration, lines: seq<(nat, nat)>, doc: string)
    requires LinesTile(lines, 0, 0, |doc|) && d.start < d.end <= |doc|
    ensures PieceText(d, lines, 0, 0, doc) == doc[d.start..d.end]
  {
    PiecesCover(d, lines, 0, 0, doc);
  }

  /** On each line the piece holds exactly the line's characters that the decoration covers,
      whether or not the lines tile the document. */
  lemma PieceIsIntersection(d: Decoration, lineStart: nat, lineEnd: nat, p: nat)
    requires d.start < d.end && lineStart <= lineEnd && lineStart <= p < lineEnd
    ensures (Overlaps(d, lineStart, lineEnd) && var c := Clip(d, lineStart, lineEnd); lineStart + c.start <= p < lineStart + c.end)
            <==> d.start <= p < d.end
  {
  }

  /** An anchor is drawn somewhere. */
  lemma {:induction false} AnchorShows(d: Decoration, lines: seq<(nat, nat)>, i: nat, at: nat, len: nat)
    requires i < |lines| && LinesTile(lines, i, at, len) && d.IsEmpty() && at <= d.start <= len
    ensures exists k :: i <= k < |lines| && lines[k].0 <= lines[k].1 && ForLine([d], lines[k].0, lines[k].1) != []
    decreases |lines| - i
  {
    if d.start <= lines[i].1 {
      OnLine(d, lines[i].0, lines[i].1);
    } else {
      assert i + 1 < |lines|;
      AnchorShows(d, lines, i + 1, lines[i].1, len);
    }
  }
}
