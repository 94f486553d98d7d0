/** The position-composable change representation: a change is a complete traversal of a
    document, made of retained runs, deleted runs and inserted text. Lengths count chars. */
module Change {

  /** Which side of an insertion a position at exactly that point lands on. */
  datatype Assoc = Before | After

  /** What a change did to a range that something else is anchored to. */
  datatype RangeEffect = Untouched | InsertedInside | PartlyDeleted

  datatype Operation = Retain(n: nat) | Delete(n: nat) | Insert(text: string)
  {
    function Input(): nat { if Insert? then 0 else n }

    function Output(): nat { match this case Retain(n) => n case Delete(_) => 0 case Insert(s) => |s| }

    predicate IsEmpty() { if Insert? then text == "" else n == 0 }

    function Length(): nat { if Insert? then |text| else n }

    /** The operation that remains once `k` chars of it have been accounted for. */
    function Advance(k: nat): Operation
      requires k <= Length()
    {
      match this
      case Retain(n) => Retain(n - k)
      case Delete(n) => Delete(n - k)
      case Insert(s) => Insert(s[k..])
    }
  }

  type Ops = seq<Operation>

  /** Chars of the input document that `ops[i..]` walks over. */
  function InputFrom(ops: Ops, i: nat): nat
    requires i <= |ops|
    decreases |ops| - i
  {
    if i == |ops| then 0 else ops[i].Input() + InputFrom(ops, i + 1)
  }

  /** Chars that `ops[i..]` produces. */
  function OutputFrom(ops: Ops, i: nat): nat
    requires i <= |ops|
    decreases |ops| - i
  {
    if i == |ops| then 0 else ops[i].Output() + OutputFrom(ops, i + 1)
  }

  function InputLen(ops: Ops): nat { InputFrom(ops, 0) }

  function OutputLen(ops: Ops): nat { OutputFrom(ops, 0) }

  // ----- the canonical form ---------------------------------------------------------

  /** Same-kind neighbours are merged, and a deletion never follows an insertion. */
  predicate MayFollow(x: Operation, y: Operation) {
    match x
    case Retain(_) => !y.Retain?
    case Delete(_) => !y.Delete?
    case Insert(_) => y.Retain?
  }

  predicate NonEmptyOps(ops: Ops) { forall i :: 0 <= i < |ops| ==> !ops[i].IsEmpty() }

  predicate Canonical(ops: Ops) {
    && NonEmptyOps(ops)
    && forall i :: 0 <= i < |ops| - 1 ==> MayFollow(ops[i], ops[i + 1])
  }

  function PushRetain(ops: Ops, n: nat): Ops {
    if n == 0 then ops
    else if ops != [] && ops[|ops| - 1].Retain? then ops[|ops| - 1 := Retain(ops[|ops| - 1].n + n)]
    else ops + [Retain(n)]
  }

  /** A deletion slides in front of a trailing insertion. */
  function PushDelete(ops: Ops, n: nat): Ops {
    if n == 0 then ops
    else
      var at := if ops != [] && ops[|ops| - 1].Insert? then |ops| - 1 else |ops|;
      if at > 0 && ops[at - 1].Delete? then ops[at - 1 := Delete(ops[at - 1].n + n)]
      else ops[..at] + [Delete(n)] + ops[at..]
  }

  function PushInsert(ops: Ops, s: string): Ops {
    if s == "" then ops
    else if ops != [] && ops[|ops| - 1].Insert? then ops[|ops| - 1 := Insert(ops[|ops| - 1].text + s)]
    else ops + [Insert(s)]
  }

  /** Every builder step keeps the canonical form. */
  lemma PushesKeepCanonical(ops: Ops, n: nat, s: string)
    requires Canonical(ops)
    ensures Canonical(PushRetain(ops, n)) && Canonical(PushDelete(ops, n)) && Canonical(PushInsert(ops, s))
  {
    PushDeleteCanonical(ops, n);
    hide PushDelete;
  }

  lemma PushDeleteCanonical(ops: Ops, n: nat)
    requires Canonical(ops)
    ensures Canonical(PushDelete(ops, n))
  {
    var at := if ops != [] && ops[|ops| - 1].Insert? then |ops| - 1 else |ops|;
    if n > 0 && at > 0 {
      assert at < |ops| ==> MayFollow(ops[at - 1], ops[at]);
    }
  }

  // ----- applying a change ----------------------------------------------------------

  /** The text one operation contributes when it stands at `pos` of `doc`. */
  function Emit(op: Operation, doc: string, pos: nat): string
    requires pos + op.Input() <= |doc|
  {
    match op
    case Retain(n) => doc[pos..pos + n]
    case Delete(_) => ""
    case Insert(s) => s
  }

  /** What `ops[i..]` produces when it starts at `pos` of `doc`. */
  function ApplyFrom(ops: Ops, i: nat, doc: string, pos: nat): string
    requires i <= |ops| && pos + InputFrom(ops, i) <= |doc|
    decreases |ops| - i
  {
    if i == |ops| then ""
    else Emit(ops[i], doc, pos) + ApplyFrom(ops, i + 1, doc, pos + ops[i].Input())
  }

  /** The changed document. */
  function Apply(ops: Ops, doc: string): string
    requires InputLen(ops) == |doc|
  {
    ApplyFrom(ops, 0, doc, 0)
  }

  lemma {:induction false} ApplyLen(ops: Ops, i: nat, doc: string, pos: nat)
    requires i <= |ops| && pos + InputFrom(ops, i) <= |doc|
    ensures |ApplyFrom(ops, i, doc, pos)| == OutputFrom(ops, i)
    decreases |ops| - i
  {
    if i < |ops| {
      ApplyLen(ops, i + 1, doc, pos + ops[i].Input());
    }
  }

  lemma {:induction false} LenSuffix(a: Ops, b: Ops, j: nat)
    requires j <= |b|
    ensures InputFrom(a + b, |a| + j) == InputFrom(b, j) && OutputFrom(a + b, |a| + j) == OutputFrom(b, j)
    decreases |b| - j
  {
    if j < |b| {
      LenSuffix(a, b, j + 1);
    }
  }

  lemma {:induction false} LenAppend(a: Ops, b: Ops, i: nat)
    requires i <= |a|
    ensures InputFrom(a + b, i) == InputFrom(a, i) + InputLen(b)
    ensures OutputFrom(a + b, i) == OutputFrom(a, i) + OutputLen(b)
    decreases |a| - i
  {
    if i == |a| {
      LenSuffix(a, b, 0);
    } else {
      LenAppend(a, b, i + 1);
    }
  }

  lemma ApplyStep(ops: Ops, i: nat, doc: string, pos: nat)
    requires i < |ops| && pos + InputFrom(ops, i) <= |doc|
    ensures InputFrom(ops, i) == ops[i].Input() + InputFrom(ops, i + 1)
    ensures ApplyFrom(ops, i, doc, pos) == Emit(ops[i], doc, pos) + ApplyFrom(ops, i + 1, doc, pos + ops[i].Input())
  {
  }

  lemma {:induction false} ApplySuffix(a: Ops, b: Ops, i: nat, j: nat, doc: string, pos: nat)
    requires j <= |b| && i == |a| + j && pos + InputFrom(b, j) <= |doc|
    ensures InputFrom(a + b, i) == InputFrom(b, j)
    ensures ApplyFrom(a + b, i, doc, pos) == ApplyFrom(b, j, doc, pos)
    decreases |b| - j
  {
    LenSuffix(a, b, j);
    if j < |b| {
      hide ApplyFrom;
      assert (a + b)[i] == b[j];
      ApplySuffix(a, b, i + 1, j + 1, doc, pos + b[j].Input());
      ApplyStep(a + b, i, doc, pos);
      ApplyStep(b, j, doc, pos);
    }
  }

  lemma {:induction false} ApplyAppend(a: Ops, b: Ops, i: nat, doc: string, pos: nat)
    requires i <= |a| && pos + InputFrom(a, i) + InputLen(b) <= |doc|
    ensures InputFrom(a + b, i) == InputFrom(a, i) + InputLen(b)
    ensures ApplyFrom(a + b, i, doc, pos) == ApplyFrom(a, i, doc, pos) + ApplyFrom(b, 0, doc, pos + InputFrom(a, i))
    decreases |a| - i
  {
    hide ApplyFrom, InputFrom, OutputFrom;
    LenAppend(a, b, i);
    if i == |a| {
      NothingLeft(a, doc, pos);
      ApplySuffix(a, b, i, 0, doc, pos);
    } else {
      InputStep(a, i);
      LenAppend(a, b, i + 1);
      ApplyAppend(a, b, i + 1, doc, pos + a[i].Input());
      AppendStep(a, b, i, doc, pos);
    }
  }

  lemma NothingLeft(ops: Ops, doc: string, pos: nat)
    requires pos <= |doc|
    ensures InputFrom(ops, |ops|) == 0 && ApplyFrom(ops, |ops|, doc, pos) == ""
  {
  }

  lemma InputStep(ops: Ops, i: nat)
    requires i < |ops|
    ensures InputFrom(ops, i) == ops[i].Input() + InputFrom(ops, i + 1)
  {
  }

  lemma AppendStep(a: Ops, b: Ops, i: nat, doc: string, pos: nat)
    requires i < |a| && pos + InputFrom(a, i) + InputLen(b) <= |doc|
    requires InputFrom(a + b, i) == InputFrom(a, i) + InputLen(b)
    requires var at := pos + a[i].Input();
             && InputFrom(a, i) == a[i].Input() + InputFrom(a, i + 1)
             && InputFrom(a + b, i + 1) == InputFrom(a, i + 1) + InputLen(b)
             && ApplyFrom(a + b, i + 1, doc, at) ==
                ApplyFrom(a, i + 1, doc, at) + ApplyFrom(b, 0, doc, at + InputFrom(a, i + 1))
    ensures ApplyFrom(a + b, i, doc, pos) == ApplyFrom(a, i, doc, pos) + ApplyFrom(b, 0, doc, pos + InputFrom(a, i))
  {
    hide ApplyFrom, InputFrom;
    var at := pos + a[i].Input();
    assert (a + b)[i] == a[i];
    ApplyStep(a + b, i, doc, pos);
    ApplyStep(a, i, doc, pos);
    ConcatAssoc(Emit(a[i], doc, pos), ApplyFrom(a, i + 1, doc, at), ApplyFrom(b, 0, doc, pos + InputFrom(a, i)));
  }

  lemma LenLast(ops: Ops, op: Operation)
    ensures InputLen(ops + [op]) == InputLen(ops) + op.Input()
    ensures OutputLen(ops + [op]) == OutputLen(ops) + op.Output()
  {
    assert InputFrom([op], 1) == 0 && OutputFrom([op], 1) == 0;
    LenAppend(ops, [op], 0);
  }

  /** Appending one operation appends what it emits. */
  lemma ApplyLast(ops: Ops, op: Operation, doc: string)
    requires InputLen(ops) + op.Input() <= |doc|
    ensures InputLen(ops + [op]) == InputLen(ops) + op.Input()
    ensures ApplyFrom(ops + [op], 0, doc, 0) == ApplyFrom(ops, 0, doc, 0) + Emit(op, doc, InputLen(ops))
  {
    assert InputFrom([op], 1) == 0;
    ApplyAppend(ops, [op], 0, doc, 0);
    assert ApplyFrom([op], 1, doc, InputLen(ops) + op.Input()) == "";
  }

  lemma ConcatAssoc<T>(x: seq<T>, y: seq<T>, z: seq<T>)
    ensures (x + y) + z == x + (y + z)
  {
  }

  lemma SplitSlice<T>(before: seq<T>, s: seq<T>, i: nat, j: nat, k: nat)
    requires i <= j <= k <= |s|
    ensures before + s[i..k] == (before + s[i..j]) + s[j..k]
  {
  }

  lemma EmitSplits(doc: string, k: nat, m: nat, n: nat)
    requires k + m + n <= |doc|
    ensures Emit(Retain(m + n), doc, k) == Emit(Retain(m), doc, k) + doc[k + m..k + m + n]
  {
  }

  /** Growing the last run is appending another one. */
  lemma RetainMerges(front: Ops, m: nat, n: nat, doc: string)
    requires InputLen(front) + m + n <= |doc|
    ensures InputLen(front + [Retain(m)]) == InputLen(front) + m
    ensures InputLen(front + [Retain(m + n)]) == InputLen(front) + m + n
    ensures var k := InputLen(front) + m;
            ApplyFrom(front + [Retain(m + n)], 0, doc, 0) == ApplyFrom(front + [Retain(m)], 0, doc, 0) + doc[k..k + n]
  {
    hide ApplyFrom, InputFrom, Emit;
    var k := InputLen(front);
    ApplyLast(front, Retain(m), doc);
    ApplyLast(front, Retain(m + n), doc);
    EmitSplits(doc, k, m, n);
    ConcatAssoc(ApplyFrom(front, 0, doc, 0), Emit(Retain(m), doc, k), doc[k + m..k + m + n]);
  }

  lemma InsertMerges(front: Ops, t: string, s: string, doc: string)
    requires InputLen(front) <= |doc|
    ensures InputLen(front + [Insert(t)]) == InputLen(front) == InputLen(front + [Insert(t + s)])
    ensures ApplyFrom(front + [Insert(t + s)], 0, doc, 0) == ApplyFrom(front + [Insert(t)], 0, doc, 0) + s
  {
    hide ApplyFrom, InputFrom;
    ApplyLast(front, Insert(t), doc);
    ApplyLast(front, Insert(t + s), doc);
  }

  lemma DeleteMerges(front: Ops, m: nat, n: nat, doc: string)
    requires InputLen(front) + m + n <= |doc|
    ensures InputLen(front + [Delete(m)]) == InputLen(front) + m
    ensures InputLen(front + [Delete(m + n)]) == InputLen(front) + m + n
    ensures ApplyFrom(front + [Delete(m + n)], 0, doc, 0) == ApplyFrom(front + [Delete(m)], 0, doc, 0)
  {
    hide ApplyFrom, InputFrom;
    ApplyLast(front, Delete(m), doc);
    ApplyLast(front, Delete(m + n), doc);
  }

  /** The last operation taken apart from the ones before it. */
  lemma SplitLast(ops: Ops)
    requires ops != []
    ensures ops == ops[..|ops| - 1] + [ops[|ops| - 1]]
    ensures InputLen(ops) == InputLen(ops[..|ops| - 1]) + ops[|ops| - 1].Input()
  {
    hide ApplyFrom, InputFrom;
    assert ops == ops[..|ops| - 1] + [ops[|ops| - 1]];
    LenLast(ops[..|ops| - 1], ops[|ops| - 1]);
  }

  /** The three builder steps, as effects on the document. */
  lemma PushRetainApplies(ops: Ops, n: nat, doc: string)
    requires InputLen(ops) + n <= |doc|
    ensures InputLen(PushRetain(ops, n)) == InputLen(ops) + n
    ensures ApplyFrom(PushRetain(ops, n), 0, doc, 0) == ApplyFrom(ops, 0, doc, 0) + doc[InputLen(ops)..InputLen(ops) + n]
  {
    hide ApplyFrom, InputFrom;
    if n != 0 && ops != [] && ops[|ops| - 1].Retain? {
      var front, m := ops[..|ops| - 1], ops[|ops| - 1].n;
      SplitLast(ops);
      assert PushRetain(ops, n) == front + [Retain(m + n)];
      RetainMerges(front, m, n, doc);
    } else if n != 0 {
      ApplyLast(ops, Retain(n), doc);
      assert Emit(Retain(n), doc, InputLen(ops)) == doc[InputLen(ops)..InputLen(ops) + n];
    } else {
      NothingDeleted(doc, InputLen(ops), ApplyFrom(ops, 0, doc, 0));
    }
  }

  lemma PushInsertApplies(ops: Ops, s: string, doc: string)
    requires InputLen(ops) <= |doc|
    ensures InputLen(PushInsert(ops, s)) == InputLen(ops)
    ensures ApplyFrom(PushInsert(ops, s), 0, doc, 0) == ApplyFrom(ops, 0, doc, 0) + s
  {
    hide ApplyFrom, InputFrom;
    if s != "" && ops != [] && ops[|ops| - 1].Insert? {
      var front, t := ops[..|ops| - 1], ops[|ops| - 1].text;
      SplitLast(ops);
      assert PushInsert(ops, s) == front + [Insert(t + s)];
      InsertMerges(front, t, s, doc);
    } else if s != "" {
      ApplyLast(ops, Insert(s), doc);
    }
  }

  lemma PushDeleteApplies(ops: Ops, n: nat, doc: string)
    requires Canonical(ops)
    requires InputLen(ops) + n <= |doc|
    ensures InputLen(PushDelete(ops, n)) == InputLen(ops) + n
    ensures ApplyFrom(PushDelete(ops, n), 0, doc, 0) == ApplyFrom(ops, 0, doc, 0)
  {
    hide ApplyFrom, InputFrom;
    if n != 0 && ops != [] && ops[|ops| - 1].Insert? {
      var front, ins := ops[..|ops| - 1], ops[|ops| - 1];
      SplitLast(ops);
      SlideDelete(ops, n);
      DeleteLastApplies(front, n, doc);
      ApplyLast(front, ins, doc);
      ApplyLast(PushDelete(front, n), ins, doc);
    } else if n != 0 {
      DeleteLastApplies(ops, n, doc);
    }
  }

  lemma SlideDelete(ops: Ops, n: nat)
    requires Canonical(ops) && n != 0 && ops != [] && ops[|ops| - 1].Insert?
    ensures var front := ops[..|ops| - 1];
            && PushDelete(ops, n) == PushDelete(front, n) + [ops[|ops| - 1]]
            && (front != [] ==> !front[|front| - 1].Insert?)
  {
    var front := ops[..|ops| - 1];
    assert front != [] ==> MayFollow(ops[|ops| - 2], ops[|ops| - 1]);
  }

  lemma DeleteLastApplies(ops: Ops, n: nat, doc: string)
    requires n > 0 && (ops != [] ==> !ops[|ops| - 1].Insert?)
    requires InputLen(ops) + n <= |doc|
    ensures InputLen(PushDelete(ops, n)) == InputLen(ops) + n
    ensures ApplyFrom(PushDelete(ops, n), 0, doc, 0) == ApplyFrom(ops, 0, doc, 0)
  {
    hide ApplyFrom, InputFrom;
    if ops != [] && ops[|ops| - 1].Delete? {
      var front, m := ops[..|ops| - 1], ops[|ops| - 1].n;
      SplitLast(ops);
      assert PushDelete(ops, n) == front + [Delete(m + n)];
      DeleteMerges(front, m, n, doc);
    } else {
      assert PushDelete(ops, n) == ops + [Delete(n)];
      ApplyLast(ops, Delete(n), doc);
    }
  }

  // ----- composing two changes ------------------------------------------------------

  /** A traversal under way: the operation in hand, and the ones not yet looked at. */
  datatype Cursor = Done | At(op: Operation, ops: Ops, next: nat)
  {
    predicate Ok() { At? ==> next <= |ops| && !op.IsEmpty() && NonEmptyOps(ops) }

    function Input(): nat requires Ok() { if Done? then 0 else op.Input() + InputFrom(ops, next) }

    function Output(): nat requires Ok() { if Done? then 0 else op.Output() + OutputFrom(ops, next) }

    function Left(): nat requires Ok() { if Done? then 0 else 1 + |ops| - next }

    /** Account for `k` chars of the operation in hand, moving on once it is used up. */
    function Advance(k: nat): (c: Cursor)
      requires Ok() && At? && k <= op.Length()
      ensures c.Ok() && c.Left() <= Left() && (k == op.Length() ==> c.Left() < Left())
    {
      if k == op.Length() then CursorAt(ops, next) else At(op.Advance(k), ops, next)
    }
  }

  function CursorAt(ops: Ops, i: nat): (c: Cursor)
    requires i <= |ops| && NonEmptyOps(ops)
    ensures c.Ok()
  {
    if i == |ops| then Done else At(ops[i], ops, i + 1)
  }

  function Min(x: nat, y: nat): nat { if x <= y then x else y }

  /** How many chars the two operations in hand cover together, and what that emits. */
  function StepLength(a: Cursor, b: Cursor): nat
    requires a.At? && b.At?
  {
    Min(a.op.Length(), b.op.Length())
  }

  function ComposeStep(a: Cursor, b: Cursor, out: Ops): Ops
    requires a.At? && b.At? && !a.op.Delete? && !b.op.Insert?
  {
    var n := StepLength(a, b);
    if a.op.Retain? then if b.op.Retain? then PushRetain(out, n) else PushDelete(out, n)
    else if b.op.Retain? then PushInsert(out, a.op.text[..n]) else out
  }

  /** Walks both traversals at once, pushing onto `out`. */
  function ComposeOnto(a: Cursor, b: Cursor, out: Ops): Ops
    requires a.Ok() && b.Ok()
    decreases a.Left() + b.Left()
  {
    if a.At? && a.op.Delete? then ComposeOnto(a.Advance(a.op.n), b, PushDelete(out, a.op.n))
    else if b.At? && b.op.Insert? then ComposeOnto(a, b.Advance(|b.op.text|), PushInsert(out, b.op.text))
    else if a.Done? || b.Done? then out
    else
      var n := StepLength(a, b);
      ComposeOnto(a.Advance(n), b.Advance(n), ComposeStep(a, b, out))
  }

  function Compose(a: Ops, b: Ops): Ops
    requires NonEmptyOps(a) && NonEmptyOps(b)
  {
    ComposeOnto(CursorAt(a, 0), CursorAt(b, 0), [])
  }

  /** What is still to come from a cursor standing at `pos` of `doc`. */
  function ApplyCursor(c: Cursor, doc: string, pos: nat): string
    requires c.Ok() && pos + c.Input() <= |doc|
  {
    if c.Done? then "" else Emit(c.op, doc, pos) + ApplyFrom(c.ops, c.next, doc, pos + c.op.Input())
  }

  lemma ApplyCursorAt(ops: Ops, i: nat, doc: string, pos: nat)
    requires i <= |ops| && NonEmptyOps(ops) && pos + InputFrom(ops, i) <= |doc|
    ensures CursorAt(ops, i).Input() == InputFrom(ops, i) && CursorAt(ops, i).Output() == OutputFrom(ops, i)
    ensures ApplyCursor(CursorAt(ops, i), doc, pos) == ApplyFrom(ops, i, doc, pos)
  {
  }

  lemma AdvanceLens(c: Cursor, k: nat)
    requires c.Ok() && c.At? && k <= c.op.Length()
    ensures c.Input() == (if c.op.Insert? then 0 else k) + c.Advance(k).Input()
    ensures c.Output() == (if c.op.Delete? then 0 else k) + c.Advance(k).Output()
  {
  }

  /** The part of an operation's text that its first `k` chars account for. */
  function EmitFirst(op: Operation, k: nat, doc: string, pos: nat): string
    requires k <= op.Length() && pos + op.Input() <= |doc|
  {
    match op
    case Retain(n) => doc[pos..pos + k]
    case Delete(_) => ""
    case Insert(s) => s[..k]
  }

  lemma EmitAdvances(op: Operation, k: nat, doc: string, pos: nat)
    requires k <= op.Length() && pos + op.Input() <= |doc|
    ensures var i := if op.Insert? then 0 else k;
            && op.Input() == i + op.Advance(k).Input()
            && Emit(op, doc, pos) == EmitFirst(op, k, doc, pos) + Emit(op.Advance(k), doc, pos + i)
    ensures EmitFirst(op, op.Length(), doc, pos) == Emit(op, doc, pos)
  {
  }

  lemma AdvanceApplies(c: Cursor, k: nat, doc: string, pos: nat)
    requires c.Ok() && c.At? && k <= c.op.Length() && pos + c.Input() <= |doc|
    ensures var i := if c.op.Insert? then 0 else k;
            && c.Input() == i + c.Advance(k).Input()
            && ApplyCursor(c, doc, pos) == EmitFirst(c.op, k, doc, pos) + ApplyCursor(c.Advance(k), doc, pos + i)
  {
    hide ApplyFrom, InputFrom, Emit, EmitFirst;
    AdvanceLens(c, k);
    EmitAdvances(c.op, k, doc, pos);
    var i := if c.op.Insert? then 0 else k;
    if k == c.op.Length() {
      ApplyCursorAt(c.ops, c.next, doc, pos + i);
    } else {
      ConcatAssoc(EmitFirst(c.op, k, doc, pos), Emit(c.op.Advance(k), doc, pos + i),
                  ApplyFrom(c.ops, c.next, doc, pos + c.op.Input()));
    }
  }

  lemma EmitAgrees(op: Operation, doc: string, pos: nat, other: string, at: nat)
    requires pos + op.Input() <= |doc| && at + op.Input() <= |other|
    requires doc[pos..pos + op.Input()] == other[at..at + op.Input()]
    ensures Emit(op, doc, pos) == Emit(op, other, at)
  {
  }

  lemma SlicesAgree(s: string, i: nat, t: string, j: nat, n: nat, len: nat)
    requires n <= len && i + len <= |s| && j + len <= |t| && s[i..i + len] == t[j..j + len]
    ensures s[i..i + n] == t[j..j + n] && s[i + n..i + len] == t[j + n..j + len]
  {
    assert s[i..i + n] == s[i..i + len][..n] && t[j..j + n] == t[j..j + len][..n];
    assert s[i + n..i + len] == s[i..i + len][n..] && t[j + n..j + len] == t[j..j + len][n..];
  }

  lemma ApplyDone(ops: Ops, doc: string, pos: nat)
    requires pos <= |doc|
    ensures InputFrom(ops, |ops|) == 0 && OutputFrom(ops, |ops|) == 0 && ApplyFrom(ops, |ops|, doc, pos) == ""
  {
  }

  /** Only the part of the document the traversal walks over matters. */
  lemma {:induction false} ApplyFromAgrees(ops: Ops, i: nat, doc: string, pos: nat, other: string, at: nat)
    requires i <= |ops| && pos + InputFrom(ops, i) <= |doc| && at + InputFrom(ops, i) <= |other|
    requires doc[pos..pos + InputFrom(ops, i)] == other[at..at + InputFrom(ops, i)]
    ensures ApplyFrom(ops, i, doc, pos) == ApplyFrom(ops, i, other, at)
    decreases |ops| - i
  {
    hide ApplyFrom, InputFrom, Emit;
    if i == |ops| {
      ApplyDone(ops, doc, pos);
      ApplyDone(ops, other, at);
    } else {
      var n, len := ops[i].Input(), InputFrom(ops, i);
      ApplyStep(ops, i, doc, pos);
      ApplyStep(ops, i, other, at);
      SlicesAgree(doc, pos, other, at, n, len);
      EmitAgrees(ops[i], doc, pos, other, at);
      ApplyFromAgrees(ops, i + 1, doc, pos + n, other, at + n);
    }
  }

  lemma ApplyCursorAgrees(c: Cursor, doc: string, pos: nat, other: string, at: nat)
    requires c.Ok() && pos + c.Input() <= |doc| && at + c.Input() <= |other|
    requires doc[pos..pos + c.Input()] == other[at..at + c.Input()]
    ensures ApplyCursor(c, doc, pos) == ApplyCursor(c, other, at)
  {
    hide ApplyFrom, InputFrom, Emit;
    if c.At? {
      var n := c.op.Input();
      SlicesAgree(doc, pos, other, at, n, c.Input());
      EmitAgrees(c.op, doc, pos, other, at);
      ApplyFromAgrees(c.ops, c.next, doc, pos + n, other, at + n);
    }
  }

  lemma ApplyCursorShift(c: Cursor, before: string, doc: string)
    requires c.Ok() && c.Input() <= |doc|
    ensures ApplyCursor(c, before + doc, |before|) == ApplyCursor(c, doc, 0)
  {
    hide ApplyFrom, InputFrom, ApplyCursor;
    var len := c.Input();
    assert (before + doc)[|before|..|before| + len] == doc[0..0 + len];
    ApplyCursorAgrees(c, before + doc, |before|, doc, 0);
  }

  lemma ApplyCursorLen(c: Cursor, doc: string, pos: nat)
    requires c.Ok() && pos + c.Input() <= |doc|
    ensures |ApplyCursor(c, doc, pos)| == c.Output()
  {
    if c.At? {
      ApplyLen(c.ops, c.next, doc, pos + c.op.Input());
    }
  }

  /** The text of `a` that the two operations in hand cover together. */
  function StepText(a: Cursor, b: Cursor, doc: string, pos: nat): string
    requires a.Ok() && b.Ok() && a.At? && b.At? && !a.op.Delete? && pos + a.Input() <= |doc|
  {
    var n := StepLength(a, b);
    if a.op.Retain? then doc[pos..pos + n] else a.op.text[..n]
  }

  lemma ComposeStepEmits(a: Cursor, b: Cursor, out: Ops, doc: string)
    requires a.Ok() && b.Ok() && a.At? && b.At? && !a.op.Delete? && !b.op.Insert?
    requires Canonical(out) && InputLen(out) + a.Input() <= |doc|
    ensures var out' := ComposeStep(a, b, out);
            && Canonical(out')
            && InputLen(out') == InputLen(out) + (if a.op.Retain? then StepLength(a, b) else 0)
            && ApplyFrom(out', 0, doc, 0) == ApplyFrom(out, 0, doc, 0) +
               (if b.op.Retain? then StepText(a, b, doc, InputLen(out)) else "")
  {
    hide ApplyFrom, InputFrom;
    var n := StepLength(a, b);
    var s := if a.op.Insert? then a.op.text[..n] else "";
    PushesKeepCanonical(out, n, s);
    if a.op.Retain? {
      PushRetainApplies(out, n, doc);
      PushDeleteApplies(out, n, doc);
    } else {
      PushInsertApplies(out, s, doc);
    }
  }

  lemma ComposeStepLens(a: Cursor, b: Cursor, doc: string, pos: nat)
    requires a.Ok() && b.Ok() && a.At? && b.At? && !a.op.Delete? && !b.op.Insert?
    requires a.Output() == b.Input() && pos + a.Input() <= |doc|
    ensures var n := StepLength(a, b);
            var i := if a.op.Retain? then n else 0;
            && a.Input() == i + a.Advance(n).Input()
            && a.Advance(n).Output() == b.Advance(n).Input()
            && |ApplyCursor(a, doc, pos)| == b.Input()
            && |ApplyCursor(a.Advance(n), doc, pos + i)| == b.Advance(n).Input()
  {
    hide ApplyFrom, InputFrom, OutputFrom, ApplyCursor;
    var n := StepLength(a, b);
    AdvanceLens(a, n);
    AdvanceLens(b, n);
    ApplyCursorLen(a, doc, pos);
    ApplyCursorLen(a.Advance(n), doc, pos + if a.op.Retain? then n else 0);
  }

  /** The part of the intermediate document in hand, split off from the rest. */
  lemma ComposeStepSplits(a: Cursor, b: Cursor, a': Cursor, b': Cursor, doc: string, pos: nat, pos': nat)
    requires a.Ok() && b.Ok() && a.At? && b.At? && !a.op.Delete? && !b.op.Insert?
    requires a' == a.Advance(StepLength(a, b)) && b' == b.Advance(StepLength(a, b))
    requires pos' == pos + if a.op.Retain? then StepLength(a, b) else 0
    requires pos + a.Input() <= |doc| && pos' + a'.Input() <= |doc|
    requires |ApplyCursor(a, doc, pos)| == b.Input() && |ApplyCursor(a', doc, pos')| == b'.Input()
    ensures ApplyCursor(b, ApplyCursor(a, doc, pos), 0) ==
            (if b.op.Retain? then StepText(a, b, doc, pos) else "") + ApplyCursor(b', ApplyCursor(a', doc, pos'), 0)
  {
    hide ApplyFrom, InputFrom, OutputFrom, ApplyCursor;
    var n := StepLength(a, b);
    AdvanceApplies(a, n, doc, pos);
    var piece, rest := StepText(a, b, doc, pos), ApplyCursor(a', doc, pos');
    AdvanceApplies(b, n, piece + rest, 0);
    ApplyCursorShift(b', piece, rest);
    assert (piece + rest)[0..n] == piece;
  }

  lemma SkipDelete(c: Cursor, doc: string, pos: nat)
    requires c.Ok() && c.At? && c.op.Delete? && pos + c.Input() <= |doc|
    ensures c.Input() == c.op.n + c.Advance(c.op.n).Input() && c.Output() == c.Advance(c.op.n).Output()
    ensures ApplyCursor(c, doc, pos) == ApplyCursor(c.Advance(c.op.n), doc, pos + c.op.n)
  {
    hide ApplyFrom, InputFrom, OutputFrom, ApplyCursor;
    AdvanceLens(c, c.op.n);
    AdvanceApplies(c, c.op.n, doc, pos);
    assert "" + ApplyCursor(c.Advance(c.op.n), doc, pos + c.op.n) == ApplyCursor(c.Advance(c.op.n), doc, pos + c.op.n);
  }

  lemma TakeInsert(c: Cursor, doc: string)
    requires c.Ok() && c.At? && c.op.Insert? && c.Input() <= |doc|
    ensures c.Input() == c.Advance(|c.op.text|).Input()
    ensures ApplyCursor(c, doc, 0) == c.op.text + ApplyCursor(c.Advance(|c.op.text|), doc, 0)
  {
    hide ApplyFrom, InputFrom, OutputFrom, ApplyCursor;
    AdvanceLens(c, |c.op.text|);
    AdvanceApplies(c, |c.op.text|, doc, 0);
    assert c.op.text[..|c.op.text|] == c.op.text;
  }

  lemma BothDone(a: Cursor, b: Cursor)
    requires a.Ok() && b.Ok() && a.Output() == b.Input() && (a.Done? || b.Done?)
    requires (a.At? ==> !a.op.Delete?) && (b.At? ==> !b.op.Insert?)
    ensures a.Done? && b.Done?
  {
  }

  /** Composing is applying one change and then the other, whatever was already emitted. */
  lemma {:induction false} ComposeOntoApplies(a: Cursor, b: Cursor, out: Ops, doc: string)
    requires a.Ok() && b.Ok() && a.Output() == b.Input()
    requires Canonical(out) && InputLen(out) + a.Input() == |doc|
    ensures Canonical(ComposeOnto(a, b, out)) && InputLen(ComposeOnto(a, b, out)) == |doc|
    ensures |ApplyCursor(a, doc, InputLen(out))| == b.Input()
    ensures ApplyFrom(ComposeOnto(a, b, out), 0, doc, 0) ==
            ApplyFrom(out, 0, doc, 0) + ApplyCursor(b, ApplyCursor(a, doc, InputLen(out)), 0)
    decreases a.Left() + b.Left(), 1
  {
    hide ApplyFrom, InputFrom, OutputFrom, ApplyCursor;
    ApplyCursorLen(a, doc, InputLen(out));
    if a.At? && a.op.Delete? {
      SkipDelete(a, doc, InputLen(out));
      PushesKeepCanonical(out, a.op.n, "");
      PushDeleteApplies(out, a.op.n, doc);
      ComposeOntoApplies(a.Advance(a.op.n), b, PushDelete(out, a.op.n), doc);
    } else if b.At? && b.op.Insert? {
      var s, mid := b.op.text, ApplyCursor(a, doc, InputLen(out));
      TakeInsert(b, mid);
      PushesKeepCanonical(out, 0, s);
      PushInsertApplies(out, s, doc);
      ComposeOntoApplies(a, b.Advance(|s|), PushInsert(out, s), doc);
      ConcatAssoc(ApplyFrom(out, 0, doc, 0), s, ApplyCursor(b.Advance(|s|), mid, 0));
    } else if a.Done? || b.Done? {
      BothDone(a, b);
      NothingToEmit(ApplyCursor(a, doc, InputLen(out)), 0);
    } else {
      ComposeBothApplies(a, b, out, doc);
    }
  }

  lemma {:induction false} ComposeBothApplies(a: Cursor, b: Cursor, out: Ops, doc: string)
    requires a.Ok() && b.Ok() && a.Output() == b.Input() && a.At? && b.At? && !a.op.Delete? && !b.op.Insert?
    requires Canonical(out) && InputLen(out) + a.Input() == |doc|
    ensures Canonical(ComposeOnto(a, b, out)) && InputLen(ComposeOnto(a, b, out)) == |doc|
    ensures |ApplyCursor(a, doc, InputLen(out))| == b.Input()
    ensures ApplyFrom(ComposeOnto(a, b, out), 0, doc, 0) ==
            ApplyFrom(out, 0, doc, 0) + ApplyCursor(b, ApplyCursor(a, doc, InputLen(out)), 0)
    decreases a.Left() + b.Left(), 0
  {
    hide ApplyFrom, InputFrom, OutputFrom, ApplyCursor;
    var n, out' := StepLength(a, b), ComposeStep(a, b, out);
    var a', b' := a.Advance(n), b.Advance(n);
    ComposeStepEmits(a, b, out, doc);
    ComposeStepLens(a, b, doc, InputLen(out));
    ComposeStepSplits(a, b, a', b', doc, InputLen(out), InputLen(out'));
    ComposeOntoApplies(a', b', out', doc);
    ConcatAssoc(ApplyFrom(out, 0, doc, 0),
                if b.op.Retain? then StepText(a, b, doc, InputLen(out)) else "",
                ApplyCursor(b', ApplyCursor(a', doc, InputLen(out')), 0));
  }

  lemma NothingToEmit(doc: string, pos: nat)
    requires pos <= |doc|
    ensures ApplyCursor(Done, doc, pos) == ""
  {
  }

  /** The composed change does what the two do in order, and is in canonical form. */
  lemma ComposeIsSequence(a: Ops, b: Ops, doc: string)
    requires NonEmptyOps(a) && NonEmptyOps(b) && InputLen(a) == |doc| && OutputLen(a) == InputLen(b)
    ensures Canonical(Compose(a, b)) && InputLen(Compose(a, b)) == |doc| && OutputLen(Compose(a, b)) == OutputLen(b)
    ensures |Apply(a, doc)| == OutputLen(a)
    ensures Apply(Compose(a, b), doc) == Apply(b, Apply(a, doc))
  {
    var out := Compose(a, b);
    assert InputLen([]) == 0;
    ApplyCursorAt(a, 0, doc, 0);
    ApplyLen(a, 0, doc, 0);
    ApplyCursorAt(b, 0, Apply(a, doc), 0);
    ComposeOntoApplies(CursorAt(a, 0), CursorAt(b, 0), [], doc);
    assert ApplyFrom([], 0, doc, 0) == "";
    ApplyLen(out, 0, doc, 0);
    ApplyLen(b, 0, Apply(a, doc), 0);
  }

  // ----- undoing a change -----------------------------------------------------------

  /** What a deletion dropped has to be looked up in the document it was dropped from. */
  function InvertStep(op: Operation, doc: string, pos: nat, out: Ops): Ops
    requires pos + op.Input() <= |doc|
  {
    match op
    case Retain(n) => PushRetain(out, n)
    case Delete(n) => PushInsert(out, doc[pos..pos + n])
    case Insert(s) => PushDelete(out, |s|)
  }

  function InvertOnto(ops: Ops, i: nat, doc: string, pos: nat, out: Ops): Ops
    requires i <= |ops| && pos + InputFrom(ops, i) <= |doc|
    decreases |ops| - i
  {
    if i == |ops| then out
    else InvertOnto(ops, i + 1, doc, pos + ops[i].Input(), InvertStep(ops[i], doc, pos, out))
  }

  function Invert(ops: Ops, doc: string): Ops
    requires InputLen(ops) == |doc|
  {
    InvertOnto(ops, 0, doc, 0, [])
  }

  lemma InvertStepApplies(op: Operation, doc: string, pos: nat, at: nat, out: Ops, k: nat, after: string)
    requires Canonical(out) && at == pos + op.Input() <= |doc|
    requires k == InputLen(out) && k + op.Output() <= |after|
    requires after[k..k + op.Output()] == Emit(op, doc, pos)
    ensures Canonical(InvertStep(op, doc, pos, out)) && InputLen(InvertStep(op, doc, pos, out)) == k + op.Output()
    ensures ApplyFrom(InvertStep(op, doc, pos, out), 0, after, 0) == ApplyFrom(out, 0, after, 0) + doc[pos..at]
  {
    hide ApplyFrom, InputFrom, PushRetain, PushDelete, PushInsert, Canonical;
    match op
    case Retain(n) => InvertRetain(n, doc, pos, out, after);
    case Delete(n) => InvertDelete(doc[pos..pos + n], out, after);
    case Insert(s) => InvertInsert(s, doc, pos, out, after);
  }

  lemma InvertRetain(n: nat, doc: string, pos: nat, out: Ops, after: string)
    requires Canonical(out) && pos + n <= |doc| && InputLen(out) + n <= |after|
    requires after[InputLen(out)..InputLen(out) + n] == doc[pos..pos + n]
    ensures Canonical(PushRetain(out, n)) && InputLen(PushRetain(out, n)) == InputLen(out) + n
    ensures ApplyFrom(PushRetain(out, n), 0, after, 0) == ApplyFrom(out, 0, after, 0) + doc[pos..pos + n]
  {
    hide ApplyFrom, InputFrom, PushRetain, Canonical;
    PushesKeepCanonical(out, n, "");
    PushRetainApplies(out, n, after);
  }

  lemma InvertDelete(dropped: string, out: Ops, after: string)
    requires Canonical(out) && InputLen(out) <= |after|
    ensures Canonical(PushInsert(out, dropped)) && InputLen(PushInsert(out, dropped)) == InputLen(out)
    ensures ApplyFrom(PushInsert(out, dropped), 0, after, 0) == ApplyFrom(out, 0, after, 0) + dropped
  {
    PushesKeepCanonical(out, 0, dropped);
    PushInsertApplies(out, dropped, after);
  }

  lemma InvertInsert(s: string, doc: string, pos: nat, out: Ops, after: string)
    requires Canonical(out) && pos <= |doc| && InputLen(out) + |s| <= |after|
    ensures Canonical(PushDelete(out, |s|)) && InputLen(PushDelete(out, |s|)) == InputLen(out) + |s|
    ensures ApplyFrom(PushDelete(out, |s|), 0, after, 0) == ApplyFrom(out, 0, after, 0) + doc[pos..pos]
  {
    hide ApplyFrom, InputFrom, PushDelete, Canonical;
    PushesKeepCanonical(out, |s|, "");
    PushDeleteApplies(out, |s|, after);
    NothingDeleted(doc, pos, ApplyFrom(out, 0, after, 0));
  }

  lemma NothingDeleted(doc: string, pos: nat, before: string)
    requires pos <= |doc|
    ensures before + doc[pos..pos] == before
  {
  }

  lemma {:induction false} InvertOntoApplies(ops: Ops, i: nat, doc: string, pos: nat, end: nat, out: Ops, after: string)
    requires i <= |ops| && end == pos + InputFrom(ops, i) <= |doc|
    requires Canonical(out) && InputLen(out) + OutputFrom(ops, i) == |after|
    requires after[InputLen(out)..] == ApplyFrom(ops, i, doc, pos)
    ensures Canonical(InvertOnto(ops, i, doc, pos, out)) && InputLen(InvertOnto(ops, i, doc, pos, out)) == |after|
    ensures ApplyFrom(InvertOnto(ops, i, doc, pos, out), 0, after, 0) == ApplyFrom(out, 0, after, 0) + doc[pos..end]
    decreases |ops| - i
  {
    hide ApplyFrom, InputFrom, OutputFrom, InvertStep, Emit, Canonical;
    if i < |ops| {
      var at := pos + ops[i].Input();
      InvertOntoStep(ops, i, doc, pos, at, out, InputLen(out), after);
      var out' := InvertStep(ops[i], doc, pos, out);
      assert InvertOnto(ops, i, doc, pos, out) == InvertOnto(ops, i + 1, doc, at, out');
      InvertOntoApplies(ops, i + 1, doc, at, end, out', after);
      SplitSlice(ApplyFrom(out, 0, after, 0), doc, pos, at, end);
    } else {
      ApplyDone(ops, doc, pos);
      NothingDeleted(doc, pos, ApplyFrom(out, 0, after, 0));
    }
  }

  lemma InvertOntoStep(ops: Ops, i: nat, doc: string, pos: nat, at: nat, out: Ops, k: nat, after: string)
    requires i < |ops| && pos + InputFrom(ops, i) <= |doc| && at == pos + ops[i].Input()
    requires Canonical(out) && k == InputLen(out) && k + OutputFrom(ops, i) == |after|
    requires after[k..] == ApplyFrom(ops, i, doc, pos)
    ensures InputFrom(ops, i) == ops[i].Input() + InputFrom(ops, i + 1)
    ensures var out' := InvertStep(ops[i], doc, pos, out);
            && Canonical(out') && InputLen(out') + OutputFrom(ops, i + 1) == |after|
            && after[InputLen(out')..] == ApplyFrom(ops, i + 1, doc, at)
            && ApplyFrom(out', 0, after, 0) == ApplyFrom(out, 0, after, 0) + doc[pos..at]
  {
    hide ApplyFrom, InputFrom, OutputFrom, InvertStep, Emit, Canonical;
    ApplyStep(ops, i, doc, pos);
    OutputStep(ops, i, doc, pos);
    SplitFront(after, k, Emit(ops[i], doc, pos), ApplyFrom(ops, i + 1, doc, at));
    InvertStepApplies(ops[i], doc, pos, at, out, k, after);
  }

  lemma OutputStep(ops: Ops, i: nat, doc: string, pos: nat)
    requires i < |ops| && pos + ops[i].Input() <= |doc|
    ensures OutputFrom(ops, i) == ops[i].Output() + OutputFrom(ops, i + 1)
    ensures |Emit(ops[i], doc, pos)| == ops[i].Output()
  {
  }

  lemma SplitFront(s: string, k: nat, x: string, y: string)
    requires k <= |s| && s[k..] == x + y
    ensures k + |x| <= |s| && s[k..k + |x|] == x && s[k + |x|..] == y
  {
    assert s[k..k + |x|] == s[k..][..|x|];
    assert s[k + |x|..] == s[k..][|x|..];
  }

  /** The inverse, taken on the document the change was applied to, carries the result back. */
  lemma InvertUndoes(ops: Ops, doc: string)
    requires InputLen(ops) == |doc|
    ensures |Apply(ops, doc)| == OutputLen(ops)
    ensures Canonical(Invert(ops, doc)) && InputLen(Invert(ops, doc)) == OutputLen(ops)
    ensures OutputLen(Invert(ops, doc)) == |doc|
    ensures Apply(Invert(ops, doc), Apply(ops, doc)) == doc
  {
    var after := Apply(ops, doc);
    ApplyLen(ops, 0, doc, 0);
    assert InputLen([]) == 0 && after[0..] == after;
    InvertOntoApplies(ops, 0, doc, 0, |doc|, [], after);
    assert ApplyFrom([], 0, after, 0) == "" && doc[0..|doc|] == doc;
    ApplyLen(Invert(ops, doc), 0, after, 0);
  }
}
