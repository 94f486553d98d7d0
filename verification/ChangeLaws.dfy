/** The laws of changes as a whole: the canonical form is unique, so laws that hold of what
    changes do to documents hold of the changes themselves. */
module ChangeLaws {
  import opened Change
  import opened Edits
  import opened Positions
  import opened Uniqueness

  function RetainOps(n: nat): Ops { if n == 0 then [] else [Retain(n)] }

  function EditOps(e: Edit): Ops {
    (if e.start < e.end then [Delete(e.end - e.start)] else []) + (if e.text != "" then [Insert(e.text)] else [])
  }

  /** The canonical change that makes `edits` in the part `at..len` of a document. */
  function OpsOf(edits: seq<Edit>, at: nat, len: nat): Ops
    decreases |edits|
  {
    if edits == [] then RetainOps(Sub(len, at))
    else RetainOps(Sub(edits[0].start, at)) + (EditOps(edits[0]) + OpsOf(edits[1..], edits[0].end, len))
  }

  lemma {:induction false} OpsOfEdits(ops: Ops, i: nat, at: nat)
    requires Canonical(ops) && i <= |ops|
    ensures OpsOf(EditsFrom(ops, i, at), at, at + InputFrom(ops, i)) == ops[i..]
    decreases |ops| - i
  {
    hide Canonical, InputFrom, EditsFrom, OpsOf;
    var len := at + InputFrom(ops, i);
    if i == |ops| {
      NoOps(ops, at);
    } else {
      EditsStep(ops, i, at);
      if ops[i].Retain? {
        OpsOfEdits(ops, i + 1, at + ops[i].n);
        RetainFirst(ops, i, at);
      } else {
        var e, j := EditAt(ops, i, at), i + EditWidth(ops, i);
        OpsOfEdits(ops, j, e.end);
        OpsOfCons(e, EditsFrom(ops, j, e.end), at, len);
        assert ops[i..] == ops[i..j] + ops[j..] && ops[i..j] == EditOps(e) by {
          EditSlice(ops, i, at);
        }
      }
    }
  }

  lemma NoOps(ops: Ops, at: nat)
    ensures OpsOf(EditsFrom(ops, |ops|, at), at, at + InputFrom(ops, |ops|)) == ops[|ops|..]
  {
  }

  lemma EditSlice(ops: Ops, i: nat, at: nat)
    requires Canonical(ops) && i < |ops| && !ops[i].Retain?
    ensures var j := i + EditWidth(ops, i); j <= |ops| && ops[i..j] == EditOps(EditAt(ops, i, at)) && ops[i..] == ops[i..j] + ops[j..]
  {
    AfterEdit(ops, i);
    assert !ops[i].IsEmpty() && (i + 1 < |ops| ==> !ops[i + 1].IsEmpty());
  }

  lemma OpsOfCons(e: Edit, rest: seq<Edit>, at: nat, len: nat)
    ensures OpsOf([e] + rest, at, len) == RetainOps(Sub(e.start, at)) + (EditOps(e) + OpsOf(rest, e.end, len))
  {
    assert ([e] + rest)[1..] == rest;
  }

  lemma RetainFirst(ops: Ops, i: nat, at: nat)
    requires Canonical(ops) && i < |ops| && ops[i].Retain?
    requires var to := at + ops[i].n; OpsOf(EditsFrom(ops, i + 1, to), to, to + InputFrom(ops, i + 1)) == ops[i + 1..]
    ensures OpsOf(EditsFrom(ops, i, at), at, at + InputFrom(ops, i)) == ops[i..]
  {
    hide OpsOf, EditsFrom, InputFrom;
    var to, len := at + ops[i].n, at + InputFrom(ops, i);
    EditsStep(ops, i, at);
    assert ops[i..] == [ops[i]] + ops[i + 1..];
    if i + 1 == |ops| {
      NoEdits(ops, to);
      OpsOfNone(at, len);
    } else {
      assert MayFollow(ops[i], ops[i + 1]);
      EditsStep(ops, i + 1, to);
      var e, j := EditAt(ops, i + 1, to), i + 1 + EditWidth(ops, i + 1);
      var rest := EditsFrom(ops, j, e.end);
      OpsOfCons(e, rest, at, len);
      OpsOfCons(e, rest, to, len);
    }
  }

  lemma OpsOfNone(at: nat, len: nat)
    ensures OpsOf([], at, len) == RetainOps(Sub(len, at))
  {
  }

  ghost predicate SameOnAll(a: Ops, b: Ops) {
    InputLen(a) == InputLen(b) && forall doc: string :: |doc| == InputLen(a) ==> Apply(a, doc) == Apply(b, doc)
  }

  /** Making the edits of a change is applying it. */
  lemma EditsApply(a: Ops, doc: string)
    requires Canonical(a) && InputLen(a) == |doc|
    ensures Ordered(EditsOf(a), 0, |doc|) && Separated(EditsOf(a))
    ensures Splice(doc, 0, EditsOf(a)) == Apply(a, doc)
  {
    EditsSeparated(a, 0, 0);
    EditsSplice(a, 0, 0, doc);
  }

  lemma SameEdits(a: Ops, b: Ops, n: nat)
    requires Canonical(a) && Canonical(b) && SameOnAll(a, b) && n == InputLen(a)
    ensures SameEffect(EditsOf(a), EditsOf(b), 0, n) && Separated(EditsOf(a)) && Separated(EditsOf(b))
  {
    hide Canonical, InputLen, Apply, EditsOf, Splice, Ordered, Separated;
    var doc: string := seq(n, i => ' ');
    EditsApply(a, doc);
    EditsApply(b, doc);
    forall doc: string | |doc| == n
      ensures Splice(doc, 0, EditsOf(a)) == Splice(doc, 0, EditsOf(b))
    {
      EditsApply(a, doc);
      EditsApply(b, doc);
    }
  }

  /** A canonical change is determined by what it does to documents. */
  lemma EffectDeterminesChange(a: Ops, b: Ops)
    requires Canonical(a) && Canonical(b) && SameOnAll(a, b)
    ensures a == b
  {
    SameEdits(a, b, InputLen(a));
    EffectDeterminesEdits(EditsOf(a), EditsOf(b), 0, InputLen(a));
    OpsOfEdits(a, 0, 0);
    OpsOfEdits(b, 0, 0);
    assert a[0..] == a && b[0..] == b;
  }

  /** A chain of changes, each written against what the one before it produces. */
  ghost predicate Chained(a: Ops, b: Ops) {
    Canonical(a) && Canonical(b) && OutputLen(a) == InputLen(b)
  }

  lemma ChainedNonEmpty(a: Ops, b: Ops)
    requires Chained(a, b)
    ensures NonEmptyOps(a) && NonEmptyOps(b)
  {
  }

  /** Composing keeps the lengths lined up. */
  lemma ComposeChains(a: Ops, b: Ops)
    requires Chained(a, b)
    ensures Canonical(Compose(a, b)) && InputLen(Compose(a, b)) == InputLen(a) && OutputLen(Compose(a, b)) == OutputLen(b)
  {
    var doc: string := seq(InputLen(a), i => ' ');
    ComposeIsSequence(a, b, doc);
  }

  /** Composition is associative on the nose, not only in its effect. */
  lemma ComposeAssociative(a: Ops, b: Ops, c: Ops)
    requires Chained(a, b) && Chained(b, c)
    ensures Chained(Compose(a, b), c) && Chained(a, Compose(b, c))
    ensures Compose(Compose(a, b), c) == Compose(a, Compose(b, c))
  {
    hide Compose, Apply, InputLen, OutputLen, Canonical, NonEmptyOps;
    ChainedNonEmpty(a, b);
    ChainedNonEmpty(b, c);
    ComposeChains(a, b);
    ComposeChains(b, c);
    ChainedNonEmpty(Compose(a, b), c);
    ChainedNonEmpty(a, Compose(b, c));
    ComposeChains(Compose(a, b), c);
    ComposeChains(a, Compose(b, c));
    forall doc: string | |doc| == InputLen(a)
      ensures Apply(Compose(Compose(a, b), c), doc) == Apply(Compose(a, Compose(b, c)), doc)
    {
      ComposeIsSequence(Compose(a, b), c, doc);
      ComposeIsSequence(a, b, doc);
      ComposeIsSequence(a, Compose(b, c), doc);
      ComposeIsSequence(b, c, Apply(a, doc));
    }
    EffectDeterminesChange(Compose(Compose(a, b), c), Compose(a, Compose(b, c)));
  }

  function Identity(n: nat): Ops { PushRetain([], n) }

  lemma IdentityApplies(doc: string)
    ensures Canonical(Identity(|doc|)) && InputLen(Identity(|doc|)) == |doc| == OutputLen(Identity(|doc|))
    ensures Apply(Identity(|doc|), doc) == doc
  {
    assert InputLen([]) == 0 && ApplyFrom([], 0, doc, 0) == "" && doc[0..|doc|] == doc;
    PushRetainApplies([], |doc|, doc);
    ApplyLen(Identity(|doc|), 0, doc, 0);
  }

  /** The no-op change is a unit on both sides. */
  lemma ComposeIdentity(a: Ops)
    requires Canonical(a)
    ensures Chained(Identity(InputLen(a)), a) && Compose(Identity(InputLen(a)), a) == a
    ensures Chained(a, Identity(OutputLen(a))) && Compose(a, Identity(OutputLen(a))) == a
  {
    var n, m := InputLen(a), OutputLen(a);
    var doc: string, after: string := seq(n, i => ' '), seq(m, i => ' ');
    IdentityApplies(doc);
    IdentityApplies(after);
    ComposeChains(Identity(n), a);
    ComposeChains(a, Identity(m));
    hide Compose, Apply, InputLen, OutputLen, Canonical, Identity;
    forall doc: string | |doc| == n
      ensures Apply(Compose(Identity(n), a), doc) == Apply(a, doc) == Apply(Compose(a, Identity(m)), doc)
    {
      IdentityApplies(doc);
      ComposeIsSequence(Identity(n), a, doc);
      ComposeIsSequence(a, Identity(m), doc);
      IdentityApplies(Apply(a, doc));
    }
    EffectDeterminesChange(Compose(Identity(n), a), a);
    EffectDeterminesChange(Compose(a, Identity(m)), a);
  }
}
