/** The change set as the editor runs it: a builder updated step by step, and traversals that
    are loops over the operations, each computing the function that specifies it. */
module ChangeSets {
  import opened Change
  import opened Positions
  import opened ChangeLaws

  datatype ChangeSet = ChangeSet(ops: Ops, lenBefore: nat, lenAfter: nat)
  {
    predicate Valid() { Canonical(ops) && InputLen(ops) == lenBefore && OutputLen(ops) == lenAfter }

    /** Nothing is dropped and nothing is added. */
    predicate IsIdentity() { forall i :: 0 <= i < |ops| ==> ops[i].Retain? }

    function Apply(text: string): string
      requires Valid() && |text| == lenBefore
    {
      Change.Apply(ops, text)
    }

    function Invert(text: string): ChangeSet
      requires Valid() && |text| == lenBefore
    {
      ChangeSet(Change.Invert(ops, text), lenAfter, lenBefore)
    }

    function Compose(other: ChangeSet): ChangeSet
      requires Valid() && other.Valid() && lenAfter == other.lenBefore
    {
      ChangeSet(Change.Compose(ops, other.ops), lenBefore, other.lenAfter)
    }
  }

  /** Applying, and applying the inverse afterwards: the document comes back. */
  lemma InvertRoundTrip(c: ChangeSet, text: string)
    requires c.Valid() && |text| == c.lenBefore
    ensures |c.Apply(text)| == c.lenAfter
    ensures c.Invert(text).Valid() && c.Invert(text).lenBefore == c.lenAfter
    ensures c.Invert(text).Apply(c.Apply(text)) == text
  {
    InvertUndoes(c.ops, text);
  }

  lemma ComposeRoundTrip(a: ChangeSet, b: ChangeSet, text: string)
    requires a.Valid() && b.Valid() && a.lenAfter == b.lenBefore && |text| == a.lenBefore
    ensures a.Compose(b).Valid() && |a.Apply(text)| == b.lenBefore
    ensures a.Compose(b).Apply(text) == b.Apply(a.Apply(text))
  {
    ComposeIsSequence(a.ops, b.ops, text);
  }

  lemma ApplyLength(c: ChangeSet, text: string)
    requires c.Valid() && |text| == c.lenBefore
    ensures |c.Apply(text)| == c.lenAfter
  {
    ApplyLen(c.ops, 0, text, 0);
  }

  /** Builds a change set in canonical form, whatever order the steps come in. */
  class ChangeSetBuilder {
    var ops: Ops
    const lenBefore: nat
    var consumed: nat

    ghost predicate Valid()
      reads this
    {
      Canonical(ops) && consumed == InputLen(ops)
    }

    constructor (lenBefore: nat)
      ensures Valid() && ops == [] && consumed == 0 && this.lenBefore == lenBefore
    {
      this.lenBefore := lenBefore;
      ops := [];
      consumed := 0;
    }

    method Retain(n: nat)
      requires Valid()
      modifies this
      ensures Valid() && ops == PushRetain(old(ops), n) && consumed == old(consumed) + n
    {
      PushesKeepCanonical(ops, n, "");
      PushRetainLen(ops, n);
      if n == 0 {
        return;
      }
      consumed := consumed + n;
      if |ops| > 0 && ops[|ops| - 1].Retain? {
        ops := ops[|ops| - 1 := Operation.Retain(ops[|ops| - 1].n + n)];
      } else {
        ops := ops + [Operation.Retain(n)];
      }
    }

    method Delete(n: nat)
      requires Valid()
      modifies this
      ensures Valid() && ops == PushDelete(old(ops), n) && consumed == old(consumed) + n
    {
      PushesKeepCanonical(ops, n, "");
      PushDeleteLen(ops, n);
      if n == 0 {
        return;
      }
      consumed := consumed + n;
      var at := if |ops| > 0 && ops[|ops| - 1].Insert? then |ops| - 1 else |ops|;
      if at > 0 && ops[at - 1].Delete? {
        ops := ops[at - 1 := Operation.Delete(ops[at - 1].n + n)];
      } else {
        ops := ops[..at] + [Operation.Delete(n)] + ops[at..];
      }
    }

    method Insert(text: string)
      requires Valid()
      modifies this
      ensures Valid() && ops == PushInsert(old(ops), text) && consumed == old(consumed)
    {
      PushesKeepCanonical(ops, 0, text);
      PushInsertLen(ops, text);
      if text == "" {
        return;
      }
      if |ops| > 0 && ops[|ops| - 1].Insert? {
        ops := ops[|ops| - 1 := Operation.Insert(ops[|ops| - 1].text + text)];
      } else {
        ops := ops + [Operation.Insert(text)];
      }
    }

    /** The tail nobody mentioned is retained. */
    method Build() returns (c: ChangeSet)
      requires Valid() && consumed <= lenBefore
      modifies this
      ensures c.Valid() && c.lenBefore == lenBefore
      ensures c.ops == PushRetain(old(ops), lenBefore - old(consumed))
    {
      Retain(lenBefore - consumed);
      var lenAfter, i := 0, 0;
      while i < |ops|
        invariant 0 <= i <= |ops|
        invariant lenAfter + OutputFrom(ops, i) == OutputLen(ops)
      {
        lenAfter := lenAfter + ops[i].Output();
        i := i + 1;
      }
      c := ChangeSet(ops, lenBefore, lenAfter);
    }
  }

  lemma PushRetainLen(ops: Ops, n: nat)
    ensures InputLen(PushRetain(ops, n)) == InputLen(ops) + n
  {
    PushRetainApplies(ops, n, seq(InputLen(ops) + n, i => ' '));
  }

  lemma PushDeleteLen(ops: Ops, n: nat)
    requires Canonical(ops)
    ensures InputLen(PushDelete(ops, n)) == InputLen(ops) + n
  {
    PushDeleteApplies(ops, n, seq(InputLen(ops) + n, i => ' '));
  }

  lemma PushInsertLen(ops: Ops, s: string)
    ensures InputLen(PushInsert(ops, s)) == InputLen(ops)
  {
    PushInsertApplies(ops, s, seq(InputLen(ops), i => ' '));
  }

  /** One replacement, the shape of a keystroke. */
  method Replace(lenBefore: nat, from: nat, to: nat, text: string) returns (c: ChangeSet)
    requires from <= to <= lenBefore
    ensures c.Valid() && c.lenBefore == lenBefore && c.lenAfter == lenBefore - (to - from) + |text|
    ensures forall doc: string :: |doc| == lenBefore ==> c.Apply(doc) == doc[..from] + text + doc[to..]
  {
    hide PushRetain, PushDelete, PushInsert, InputFrom, OutputFrom, ApplyFrom, Canonical;
    ReplaceFits(lenBefore, from, to, text);
    NothingYet("");
    var b := new ChangeSetBuilder(lenBefore);
    b.Retain(from);
    b.Delete(to - from);
    b.Insert(text);
    c := b.Build();
    forall doc: string | |doc| == lenBefore
      ensures c.Apply(doc) == doc[..from] + text + doc[to..]
    {
      ReplaceApplies(lenBefore, from, to, text, doc);
    }
    ReplacedLength(c, from, to, text);
  }

  lemma ReplaceFits(len: nat, from: nat, to: nat, text: string)
    requires from <= to <= len
    ensures var ops := PushInsert(PushDelete(PushRetain([], from), to - from), text);
            InputLen(ops) == to && InputLen(PushRetain(ops, len - to)) == len
  {
    ReplaceApplies(len, from, to, text, seq(len, i => ' '));
  }

  lemma ReplacedLength(c: ChangeSet, from: nat, to: nat, text: string)
    requires c.Valid() && from <= to <= c.lenBefore
    requires forall doc: string :: |doc| == c.lenBefore ==> c.Apply(doc) == doc[..from] + text + doc[to..]
    ensures c.lenAfter == c.lenBefore - (to - from) + |text|
  {
    var blank: string := seq(c.lenBefore, i => ' ');
    ApplyLength(c, blank);
  }

  lemma ReplaceApplies(len: nat, from: nat, to: nat, text: string, doc: string)
    requires from <= to <= len == |doc|
    ensures var ops := PushInsert(PushDelete(PushRetain([], from), to - from), text);
            && InputLen(ops) == to
            && InputLen(PushRetain(ops, len - to)) == len
            && Change.Apply(PushRetain(ops, len - to), doc) == doc[..from] + text + doc[to..]
  {
    hide ApplyFrom, InputFrom, PushRetain, PushDelete, PushInsert;
    NothingYet(doc);
    var a := PushRetain([], from);
    PushesKeepCanonical([], from, "");
    PushRetainApplies([], from, doc);
    PushDeleteApplies(a, to - from, doc);
    PushInsertApplies(PushDelete(a, to - from), text, doc);
    PushRetainApplies(PushInsert(PushDelete(a, to - from), text), len - to, doc);
    assert "" + doc[0..from] == doc[..from] && doc[to..to + (len - to)] == doc[to..];
  }

  lemma NothingYet(doc: string)
    ensures InputLen([]) == 0 && ApplyFrom([], 0, doc, 0) == "" && Canonical([])
  {
  }

  method ApplyTo(c: ChangeSet, text: string) returns (out: string)
    requires c.Valid() && |text| == c.lenBefore
    ensures out == c.Apply(text) && |out| == c.lenAfter
  {
    hide ApplyFrom, InputFrom, Canonical;
    ApplyStarts(c, text);
    out := "";
    var pos, i := 0, 0;
    while i < |c.ops|
      invariant 0 <= i <= |c.ops| && pos + InputFrom(c.ops, i) == |text|
      invariant out + ApplyFrom(c.ops, i, text, pos) == c.Apply(text)
    {
      ApplyStep(c.ops, i, text, pos);
      ConcatAssoc(out, Emit(c.ops[i], text, pos), ApplyFrom(c.ops, i + 1, text, pos + c.ops[i].Input()));
      match c.ops[i] {
        case Retain(n) =>
          out := out + text[pos..pos + n];
          pos := pos + n;
        case Delete(n) =>
          NothingAdded(out);
          pos := pos + n;
        case Insert(s) =>
          out := out + s;
      }
      i := i + 1;
    }
    ApplyEnds(c.ops, text, pos, out);
  }

  lemma ApplyStarts(c: ChangeSet, text: string)
    requires c.Valid() && |text| == c.lenBefore
    ensures InputFrom(c.ops, 0) == |text| && |c.Apply(text)| == c.lenAfter
    ensures "" + ApplyFrom(c.ops, 0, text, 0) == c.Apply(text)
  {
    ApplyLength(c, text);
  }

  lemma NothingAdded(s: string)
    ensures s + "" == s
  {
  }

  lemma ApplyEnds(ops: Ops, text: string, pos: nat, out: string)
    requires pos + InputFrom(ops, |ops|) <= |text|
    ensures out + ApplyFrom(ops, |ops|, text, pos) == out
  {
  }

  method InverseOf(c: ChangeSet, original: string) returns (inv: ChangeSet)
    requires c.Valid() && |original| == c.lenBefore
    ensures inv == c.Invert(original)
  {
    hide ApplyFrom, Canonical, PushRetain, PushDelete, PushInsert, InvertOnto, InputFrom, OutputFrom;
    var b := new ChangeSetBuilder(c.lenAfter);
    InvertRoundTrip(c, original);
    NothingYet(original);
    var pos, i := 0, 0;
    while i < |c.ops|
      invariant 0 <= i <= |c.ops| && pos + InputFrom(c.ops, i) == |original| && b.Valid() && fresh(b)
      invariant InvertOnto(c.ops, i, original, pos, b.ops) == Change.Invert(c.ops, original)
    {
      InvertNext(c.ops, i, original, pos, b.ops);
      match c.ops[i] {
        case Retain(n) =>
          b.Retain(n);
          pos := pos + n;
        case Delete(n) =>
          b.Insert(original[pos..pos + n]);
          pos := pos + n;
        case Insert(s) =>
          b.Delete(|s|);
      }
      i := i + 1;
    }
    InvertDone(c.ops, original, pos, b.ops);
    inv := b.Build();
  }

  lemma InvertNext(ops: Ops, i: nat, original: string, pos: nat, out: Ops)
    requires i < |ops| && pos + InputFrom(ops, i) <= |original|
    ensures InputFrom(ops, i) == ops[i].Input() + InputFrom(ops, i + 1)
    ensures InvertOnto(ops, i, original, pos, out) ==
            InvertOnto(ops, i + 1, original, pos + ops[i].Input(), InvertStep(ops[i], original, pos, out))
  {
  }

  lemma InvertDone(ops: Ops, original: string, pos: nat, out: Ops)
    requires pos + InputFrom(ops, |ops|) == |original|
    ensures InvertOnto(ops, |ops|, original, pos, out) == out && PushRetain(out, 0) == out
  {
  }

  method MapPosition(c: ChangeSet, pos: nat, assoc: Assoc) returns (image: nat)
    ensures image == Positions.MapPos(c.ops, pos, assoc)
  {
    var before, after, i := 0, 0, 0;
    while i < |c.ops|
      invariant 0 <= i <= |c.ops| && before <= pos
      invariant Positions.MapPos(c.ops, pos, assoc) == after + MapFrom(c.ops, i, pos - before, assoc)
    {
      match c.ops[i] {
        case Retain(n) =>
          if pos < before + n {
            return after + (pos - before);
          }
          before, after := before + n, after + n;
        case Delete(n) =>
          if pos < before + n {
            return after;
          }
          before := before + n;
        case Insert(s) =>
          if pos == before {
            return if assoc.Before? then after else after + |s|;
          }
          after := after + |s|;
      }
      i := i + 1;
    }
    image := after + if pos <= before then 0 else pos - before;
  }

  method EffectOn(c: ChangeSet, from: nat, to: nat) returns (effect: RangeEffect)
    requires from <= to
    ensures effect == Positions.Touches(c.ops, from, to)
  {
    var at, i := 0, 0;
    effect := Untouched;
    while i < |c.ops|
      invariant 0 <= i <= |c.ops| && !effect.PartlyDeleted?
      invariant Positions.Touches(c.ops, from, to) ==
                if TouchFrom(c.ops, i, at, from, to).Untouched? then effect else TouchFrom(c.ops, i, at, from, to)
    {
      match c.ops[i] {
        case Retain(n) =>
          at := at + n;
        case Delete(n) =>
          var start, end := at, at + n;
          var overlaps := if from == to then start < from && from < end else start < to && from < end;
          if overlaps {
            return PartlyDeleted;
          }
          at := end;
        case Insert(_) =>
          if from < at && at < to {
            effect := InsertedInside;
          }
      }
      i := i + 1;
    }
  }

  /** Two traversals walked in step, each with one operation in hand. */
  method ComposeWith(first: ChangeSet, second: ChangeSet) returns (c: ChangeSet)
    requires first.Valid() && second.Valid() && first.lenAfter == second.lenBefore
    ensures c == first.Compose(second) && c.Valid()
  {
    ComposeChains(first.ops, second.ops);
    var b := new ChangeSetBuilder(first.lenBefore);
    var x, y := CursorAt(first.ops, 0), CursorAt(second.ops, 0);
    CursorStarts(first.ops);
    CursorStarts(second.ops);
    while x.At? || y.At?
      invariant x.Ok() && y.Ok() && x.Output() == y.Input() && b.Valid() && fresh(b)
      invariant ComposeOnto(x, y, b.ops) == Change.Compose(first.ops, second.ops)
      decreases x.Left() + y.Left()
    {
      if x.At? && x.op.Delete? {
        AdvanceLens(x, x.op.n);
        b.Delete(x.op.n);
        x := x.Advance(x.op.n);
      } else if y.At? && y.op.Insert? {
        AdvanceLens(y, |y.op.text|);
        b.Insert(y.op.text);
        y := y.Advance(|y.op.text|);
      } else {
        BothInHand(x, y);
        var n := Min(x.op.Length(), y.op.Length());
        AdvanceLens(x, n);
        AdvanceLens(y, n);
        if x.op.Retain? && y.op.Retain? {
          b.Retain(n);
        } else if x.op.Retain? {
          b.Delete(n);
        } else if y.op.Retain? {
          b.Insert(x.op.text[..n]);
        }
        x, y := x.Advance(n), y.Advance(n);
      }
    }
    c := b.Build();
  }

  lemma CursorStarts(ops: Ops)
    requires NonEmptyOps(ops)
    ensures CursorAt(ops, 0).Input() == InputLen(ops) && CursorAt(ops, 0).Output() == OutputLen(ops)
  {
  }

  /** Neither side can run dry while the other still walks the shared document. */
  lemma BothInHand(x: Cursor, y: Cursor)
    requires x.Ok() && y.Ok() && x.Output() == y.Input() && (x.At? || y.At?)
    requires (x.At? ==> !x.op.Delete?) && (y.At? ==> !y.op.Insert?)
    ensures x.At? && y.At?
  {
  }

  /** In canonical form there is at most one retained run. */
  lemma IdentityKeeps(c: ChangeSet, text: string)
    requires c.Valid() && c.lenBefore == |text| && c.IsIdentity()
    ensures c.Apply(text) == text
  {
    hide ApplyFrom;
    assert |c.ops| > 1 ==> MayFollow(c.ops[0], c.ops[1]);
    NothingToApply(c.ops, text, |text|);
    if |c.ops| == 1 {
      ApplyStep(c.ops, 0, text, 0);
    }
  }

  lemma NothingToApply(ops: Ops, text: string, pos: nat)
    requires pos <= |text|
    ensures InputFrom(ops, |ops|) == 0 && ApplyFrom(ops, |ops|, text, pos) == ""
  {
  }

  /** A change counts as none exactly when it leaves every document as it is. */
  lemma IdentityChangesNothing(c: ChangeSet)
    requires c.Valid()
    ensures c.IsIdentity() <==> forall text: string :: |text| == c.lenBefore ==> c.Apply(text) == text
  {
    hide Canonical, InputFrom, OutputFrom, ApplyFrom;
    if c.IsIdentity() {
      forall text: string | |text| == c.lenBefore
        ensures c.Apply(text) == text
      {
        IdentityKeeps(c, text);
      }
    } else if forall text: string :: |text| == c.lenBefore ==> c.Apply(text) == text {
      var none := Identity(c.lenBefore);
      forall text: string | |text| == c.lenBefore
        ensures Canonical(none) && InputLen(none) == c.lenBefore && Change.Apply(none, text) == text
      {
        IdentityApplies(text);
      }
      var blank: string := seq(c.lenBefore, i => ' ');
      assert |blank| == c.lenBefore;
      EffectDeterminesChange(c.ops, none);
      assert false;
    }
  }
}
