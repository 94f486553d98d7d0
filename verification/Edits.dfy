/** Reference view of a change: a list of range replacements, spliced into a document.

    Nothing here looks at operations. Splicing, merging two edit lists and moving a position
    over an edit list are the yardsticks the operation traversals are measured against. */
module Edits {

  datatype Edit = Edit(start: nat, end: nat, text: string)

  /** Edits in document order that do not overlap, all inside `at..len`. */
  ghost predicate Ordered(edits: seq<Edit>, at: nat, len: nat) {
    && at <= len
    && (forall i :: 0 <= i < |edits| ==> at <= edits[i].start <= edits[i].end <= len)
    && (forall i, j :: 0 <= i < j < |edits| ==> edits[i].end <= edits[j].start)
  }

  /** Maximal edits: each changes something and untouched text lies between any two. */
  ghost predicate Separated(edits: seq<Edit>) {
    && (forall i :: 0 <= i < |edits| ==> edits[i].start < edits[i].end || edits[i].text != "")
    && (forall i, j :: 0 <= i < j < |edits| ==> edits[i].end < edits[j].start)
  }

  /** `doc[at..]` with every edit made. */
  function Splice(doc: string, at: nat, edits: seq<Edit>): string
    requires Ordered(edits, at, |doc|)
    decreases |edits|
  {
    if edits == [] then doc[at..]
    else
      var e := edits[0];
      doc[at..e.start] + (e.text + Splice(doc, e.end, edits[1..]))
  }

  /** Two edit lists over one document, interleaved; at the same point `ours` comes first. */
  function Merge(ours: seq<Edit>, theirs: seq<Edit>): seq<Edit>
    decreases |ours| + |theirs|
  {
    if ours == [] then theirs
    else if theirs == [] then ours
    else if ours[0].end <= theirs[0].start then [ours[0]] + Merge(ours[1..], theirs)
    else [theirs[0]] + Merge(ours, theirs[1..])
  }

  predicate Apart(x: Edit, y: Edit) { x.end <= y.start || y.end <= x.start }

  ghost predicate AllApart(ours: seq<Edit>, theirs: seq<Edit>) {
    forall i, j :: 0 <= i < |ours| && 0 <= j < |theirs| ==> Apart(ours[i], theirs[j])
  }

  /** Where position `p` of the document lands once `edits` are made, when `at` lands on `out`. */
  function Move(edits: seq<Edit>, at: nat, out: nat, p: nat): nat
    decreases |edits|
  {
    if edits == [] || p < edits[0].start then out + Sub(p, at)
    else if p < edits[0].end then out + Sub(edits[0].start, at)
    else Move(edits[1..], edits[0].end, out + Sub(edits[0].start, at) + |edits[0].text|, p)
  }

  function Sub(x: nat, y: nat): nat { if x <= y then 0 else x - y }

  lemma OrderedTail(edits: seq<Edit>, at: nat, len: nat)
    requires Ordered(edits, at, len) && edits != []
    ensures at <= edits[0].start <= edits[0].end <= len && Ordered(edits[1..], edits[0].end, len)
  {
  }

  /** Text before the first edit is copied. */
  lemma SpliceSkips(doc: string, at: nat, to: nat, edits: seq<Edit>)
    requires Ordered(edits, at, |doc|) && Ordered(edits, to, |doc|) && at <= to
    ensures Splice(doc, at, edits) == doc[at..to] + Splice(doc, to, edits)
  {
    if edits == [] {
      assert doc[at..] == doc[at..to] + doc[to..];
    } else {
      var e := edits[0];
      var rest := e.text + Splice(doc, e.end, edits[1..]);
      SkipGlue(doc, at, to, e.start, rest);
    }
  }

  lemma SkipGlue(doc: string, at: nat, to: nat, start: nat, rest: string)
    requires at <= to <= start <= |doc|
    ensures doc[at..start] + rest == doc[at..to] + (doc[to..start] + rest)
  {
  }

  /** Edits strictly after a position cannot reach back to it. */
  lemma {:induction false} MoveBounds(edits: seq<Edit>, at: nat, out: nat, len: nat, p: nat)
    requires Ordered(edits, at, len) && at <= p <= len
    ensures out <= Move(edits, at, out, p)
    decreases |edits|
  {
    if edits != [] && edits[0].end <= p {
      OrderedTail(edits, at, len);
      MoveBounds(edits[1..], edits[0].end, out + (edits[0].start - at) + |edits[0].text|, len, p);
    }
  }

  lemma {:induction false} MoveMonotone(edits: seq<Edit>, at: nat, out: nat, len: nat, p: nat, q: nat)
    requires Ordered(edits, at, len) && at <= p <= q <= len
    ensures Move(edits, at, out, p) <= Move(edits, at, out, q)
    decreases |edits|
  {
    if edits != [] && edits[0].end <= q {
      OrderedTail(edits, at, len);
      var out' := out + (edits[0].start - at) + |edits[0].text|;
      if edits[0].end <= p {
        MoveMonotone(edits[1..], edits[0].end, out', len, p, q);
      } else {
        MoveBounds(edits[1..], edits[0].end, out', len, q);
      }
    }
  }

  lemma {:induction false} SpliceLen(doc: string, at: nat, edits: seq<Edit>, out: nat)
    requires Ordered(edits, at, |doc|)
    ensures out + |Splice(doc, at, edits)| == Move(edits, at, out, |doc|)
    decreases |edits|
  {
    if edits != [] {
      OrderedTail(edits, at, |doc|);
      SpliceLen(doc, edits[0].end, edits[1..], out + (edits[0].start - at) + |edits[0].text|);
    }
  }

  /** Re-basing the correspondence inside text no edit reaches. */
  lemma MoveRebase(edits: seq<Edit>, at: nat, out: nat, to: nat, len: nat, p: nat)
    requires Ordered(edits, at, len) && Ordered(edits, to, len) && at <= to <= p
    ensures Move(edits, at, out, p) == Move(edits, to, out + (to - at), p)
  {
  }

  lemma OrderedCons(e: Edit, rest: seq<Edit>, at: nat, len: nat)
    requires at <= e.start <= e.end && Ordered(rest, e.end, len)
    ensures Ordered([e] + rest, at, len) && ([e] + rest)[1..] == rest
  {
    var edits := [e] + rest;
    assert edits[1..] == rest;
    forall i | 0 <= i < |edits|
      ensures at <= edits[i].start <= edits[i].end <= len
    {
      assert i > 0 ==> edits[i] == rest[i - 1];
    }
    forall i, j | 0 <= i < j < |edits|
      ensures edits[i].end <= edits[j].start
    {
      assert edits[j] == rest[j - 1] && (i > 0 ==> edits[i] == rest[i - 1]);
    }
  }

  lemma OrderedFrom(edits: seq<Edit>, at: nat, to: nat, len: nat)
    requires Ordered(edits, at, len) && to <= len && (edits != [] ==> to <= edits[0].start)
    ensures Ordered(edits, to, len)
  {
  }

  lemma {:induction false} MergeOrdered(ours: seq<Edit>, theirs: seq<Edit>, at: nat, len: nat)
    requires Ordered(ours, at, len) && Ordered(theirs, at, len) && AllApart(ours, theirs)
    ensures Ordered(Merge(ours, theirs), at, len)
    decreases |ours| + |theirs|
  {
    if ours != [] && theirs != [] {
      var h, a := ours[0], theirs[0];
      assert Apart(h, a);
      if h.end <= a.start {
        OrderedTail(ours, at, len);
        OrderedFrom(theirs, at, h.end, len);
        MergeOrdered(ours[1..], theirs, h.end, len);
        OrderedCons(h, Merge(ours[1..], theirs), at, len);
      } else {
        OrderedTail(theirs, at, len);
        OrderedFrom(ours, at, a.end, len);
        MergeOrdered(ours, theirs[1..], a.end, len);
        OrderedCons(a, Merge(ours, theirs[1..]), at, len);
      }
    }
  }

  /** One edit carried over `ours`, both of its ends moved the same way. */
  function MoveEdit(ours: seq<Edit>, at: nat, out: nat, e: Edit): Edit {
    Edit(Move(ours, at, out, e.start), Move(ours, at, out, e.end), e.text)
  }

  function MoveEdits(ours: seq<Edit>, at: nat, out: nat, theirs: seq<Edit>): (moved: seq<Edit>)
    ensures |moved| == |theirs|
  {
    seq(|theirs|, j requires 0 <= j < |theirs| => MoveEdit(ours, at, out, theirs[j]))
  }

  /** Moving keeps a list of edits in order, apart and inside the new document. */
  lemma MoveEditsOrdered(ours: seq<Edit>, at: nat, out: nat, theirs: seq<Edit>, doc: string, after: string)
    requires Ordered(ours, at, |doc|) && Ordered(theirs, at, |doc|)
    requires out <= |after| && after[out..] == Splice(doc, at, ours)
    ensures Ordered(MoveEdits(ours, at, out, theirs), out, |after|)
  {
    var moved, len := MoveEdits(ours, at, out, theirs), |doc|;
    SpliceLen(doc, at, ours, out);
    forall i | 0 <= i < |moved|
      ensures out <= moved[i].start <= moved[i].end <= |after|
    {
      MoveBounds(ours, at, out, len, theirs[i].start);
      MoveMonotone(ours, at, out, len, theirs[i].start, theirs[i].end);
      MoveMonotone(ours, at, out, len, theirs[i].end, len);
    }
    forall i, j | 0 <= i < j < |moved|
      ensures moved[i].end <= moved[j].start
    {
      MoveMonotone(ours, at, out, len, theirs[i].end, theirs[j].start);
    }
  }

  // ----- the merge theorem ----------------------------------------------------------

  /** Text inserted exactly where a non-empty edit ends: the edit's moved end lies behind it. */
  ghost predicate Swallows(a: Edit, h: Edit) { a.start < a.end == h.start == h.end }

  ghost predicate AnySwallowed(ours: seq<Edit>, theirs: seq<Edit>) {
    exists i, j :: 0 <= i < |ours| && 0 <= j < |theirs| && Swallows(theirs[j], ours[i])
  }

  /** The situation while both lists are walked: `at` of the document has become `out`. */
  ghost predicate Walk(ours: seq<Edit>, theirs: seq<Edit>, at: nat, out: nat, doc: string, after: string) {
    && Ordered(ours, at, |doc|) && Separated(ours)
    && Ordered(theirs, at, |doc|) && AllApart(ours, theirs)
    && out <= |after| && after[out..] == Splice(doc, at, ours)
  }

  lemma WalkHeads(ours: seq<Edit>, theirs: seq<Edit>, at: nat, out: nat, doc: string, after: string)
    requires Walk(ours, theirs, at, out, doc, after)
    ensures at <= |doc|
    ensures ours != [] ==> at <= ours[0].start <= ours[0].end <= |doc|
    ensures theirs != [] ==> at <= theirs[0].start <= theirs[0].end <= |doc|
  {
  }

  /** Making our edit: what follows it in both documents still corresponds. */
  lemma WalkOurs(ours: seq<Edit>, theirs: seq<Edit>, at: nat, out: nat, doc: string, after: string)
    requires Walk(ours, theirs, at, out, doc, after)
    requires ours != [] && (theirs != [] ==> ours[0].end <= theirs[0].start)
    ensures var h := ours[0]; var out' := out + Sub(h.start, at) + |h.text|;
            && Walk(ours[1..], theirs, h.end, out', doc, after)
            && after[out..out'] == doc[at..h.start] + h.text
            && MoveEdits(ours, at, out, theirs) == MoveEdits(ours[1..], h.end, out', theirs)
  {
    var h := ours[0];
    OrderedTail(ours, at, |doc|);
    OrderedFrom(theirs, at, h.end, |doc|);
    SplitTail(after, out, doc[at..h.start] + h.text, Splice(doc, h.end, ours[1..]));
  }

  lemma SplitTail(s: string, k: nat, x: string, y: string)
    requires k <= |s| && (s[k..] == x + y)
    ensures k + |x| <= |s| && s[k..k + |x|] == x && s[k + |x|..] == y
  {
    assert s[k..k + |x|] == s[k..][..|x|];
    assert s[k + |x|..] == s[k..][|x|..];
  }

  /** Making their edit before our next one, when it swallows nothing. */
  lemma WalkTheirs(ours: seq<Edit>, theirs: seq<Edit>, at: nat, out: nat, doc: string, after: string)
    requires Walk(ours, theirs, at, out, doc, after) && theirs != []
    requires ours != [] ==> ours[0].end > theirs[0].start && !Swallows(theirs[0], ours[0])
    ensures var a := theirs[0]; var to := out + Sub(a.end, at);
            && Walk(ours, theirs[1..], a.end, to, doc, after)
            && MoveEdit(ours, at, out, a) == Edit(out + (a.start - at), to, a.text)
            && after[out..out + (a.start - at)] == doc[at..a.start]
            && MoveEdits(ours, at, out, theirs[1..]) == MoveEdits(ours, a.end, to, theirs[1..])
  {
    var a, n := theirs[0], |doc|;
    assert ours != [] ==> Apart(ours[0], a);
    OrderedTail(theirs, at, n);
    OrderedFrom(ours, at, a.end, n);
    MovePast(ours, theirs[1..], at, out, a.end, n);
    hide Move;
    SpliceSkips(doc, at, a.end, ours);
    SplitTail(after, out, doc[at..a.end], Splice(doc, a.end, ours));
    PrefixesAgree(doc, at, after, out, a.start - at, a.end - at);
  }

  lemma PrefixesAgree(s: string, i: nat, t: string, j: nat, n: nat, len: nat)
    requires n <= len && i + len <= |s| && j + len <= |t| && t[j..j + len] == s[i..i + len]
    ensures t[j..j + n] == s[i..i + n]
  {
    assert s[i..i + n] == s[i..i + len][..n] && t[j..j + n] == t[j..j + len][..n];
  }

  lemma MovePast(ours: seq<Edit>, theirs: seq<Edit>, at: nat, out: nat, to: nat, len: nat)
    requires Ordered(ours, at, len) && Ordered(ours, to, len) && Ordered(theirs, to, len) && at <= to
    ensures MoveEdits(ours, at, out, theirs) == MoveEdits(ours, to, out + (to - at), theirs)
  {
    forall j | 0 <= j < |theirs|
      ensures MoveEdit(ours, at, out, theirs[j]) == MoveEdit(ours, to, out + (to - at), theirs[j])
    {
      MoveRebase(ours, at, out, to, len, theirs[j].start);
      MoveRebase(ours, at, out, to, len, theirs[j].end);
    }
  }

  /** Making their edit when our next one inserts exactly at its end: our text falls inside. */
  lemma WalkSwallow(ours: seq<Edit>, theirs: seq<Edit>, at: nat, out: nat, doc: string, after: string)
    requires Walk(ours, theirs, at, out, doc, after) && theirs != [] && ours != []
    requires Swallows(theirs[0], ours[0])
    ensures var a := theirs[0]; var to := out + Sub(a.end, at) + |ours[0].text|;
            && Walk(ours[1..], theirs[1..], a.end, to, doc, after)
            && MoveEdit(ours, at, out, a) == Edit(out + (a.start - at), to, a.text)
            && after[out..out + (a.start - at)] == doc[at..a.start]
            && MoveEdits(ours, at, out, theirs[1..]) == MoveEdits(ours[1..], a.end, to, theirs[1..])
  {
    var a, n := theirs[0], |doc|;
    OrderedTail(theirs, at, n);
    OrderedTail(ours, at, n);
    MoveSwallow(ours, theirs, at, out, n);
    SwallowText(ours, theirs, at, out, doc, after);
    SwallowApart(ours, theirs);
  }

  lemma SwallowApart(ours: seq<Edit>, theirs: seq<Edit>)
    requires Separated(ours) && AllApart(ours, theirs) && theirs != [] && ours != []
    ensures Separated(ours[1..]) && AllApart(ours[1..], theirs[1..])
  {
  }

  lemma WalkText(ours: seq<Edit>, theirs: seq<Edit>, at: nat, out: nat, doc: string, after: string)
    requires Walk(ours, theirs, at, out, doc, after) && ours != []
    ensures at <= ours[0].start <= ours[0].end <= |doc| && Ordered(ours[1..], ours[0].end, |doc|) && out <= |after|
    ensures after[out..] == doc[at..ours[0].start] + (ours[0].text + Splice(doc, ours[0].end, ours[1..]))
  {
    OrderedTail(ours, at, |doc|);
  }

  lemma SwallowAt(a: Edit, h: Edit, at: nat)
    requires Swallows(a, h) && at <= a.start
    ensures a.start < a.end == h.start == h.end && Sub(a.end, at) == a.end - at
  {
  }

  lemma SwallowText(ours: seq<Edit>, theirs: seq<Edit>, at: nat, out: nat, doc: string, after: string)
    requires Walk(ours, theirs, at, out, doc, after) && theirs != [] && ours != []
    requires Swallows(theirs[0], ours[0])
    ensures var a := theirs[0]; var to := out + Sub(a.end, at) + |ours[0].text|;
            && to <= |after| && Ordered(ours[1..], a.end, |doc|)
            && after[to..] == Splice(doc, a.end, ours[1..])
            && after[out..out + (a.start - at)] == doc[at..a.start]
  {
    hide *;
    var a, h := theirs[0], ours[0];
    WalkHeads(ours, theirs, at, out, doc, after);
    WalkText(ours, theirs, at, out, doc, after);
    SwallowAt(a, h, at);
    SplitAround(after, out, doc, at, a.start, h.start, h.text, Splice(doc, h.end, ours[1..]));
  }

  lemma SplitAround(s: string, out: nat, doc: string, at: nat, i: nat, j: nat, y: string, z: string)
    requires at <= i <= j <= |doc| && out <= |s| && s[out..] == doc[at..j] + (y + z)
    ensures out + (j - at) + |y| <= |s| && s[out + (j - at) + |y|..] == z
    ensures s[out..out + (i - at)] == doc[at..i]
  {
    SplitTail(s, out, doc[at..j], y + z);
    SplitTail(s, out + (j - at), y, z);
    PrefixesAgree(doc, at, s, out, i - at, j - at);
  }

  lemma MoveSwallow(ours: seq<Edit>, theirs: seq<Edit>, at: nat, out: nat, len: nat)
    requires Ordered(ours, at, len) && Separated(ours) && Ordered(theirs, at, len)
    requires ours != [] && theirs != [] && Swallows(theirs[0], ours[0])
    ensures var a := theirs[0]; var to := out + Sub(a.end, at) + |ours[0].text|;
            && MoveEdit(ours, at, out, a) == Edit(out + (a.start - at), to, a.text)
            && MoveEdits(ours, at, out, theirs[1..]) == MoveEdits(ours[1..], a.end, to, theirs[1..])
  {
    var a := theirs[0];
    var to := out + Sub(a.end, at) + |ours[0].text|;
    assert |ours| > 1 ==> ours[1..][0] == ours[1] && ours[0].end < ours[1].start;
    OrderedTail(theirs, at, len);
    assert Move(ours, at, out, a.end) == to;
    forall j | 0 <= j < |theirs[1..]|
      ensures MoveEdit(ours, at, out, theirs[1..][j]) == MoveEdit(ours[1..], a.end, to, theirs[1..][j])
    {
    }
  }

  /** How the text with moved edits compares with the merged text: shorter by exactly what
      moved edits swallow, and equal when they swallow nothing. */
  ghost predicate Close(lost: nat, swallowed: bool, moved: string, merged: string) {
    && (lost == 0 <==> !swallowed)
    && |moved| + lost == |merged|
    && (lost == 0 ==> moved == merged)
  }

  /** One edit made: the text before it, its own text, and what follows. */
  function Made(before: string, text: string, rest: string): string { before + (text + rest) }

  lemma CloseMade(lost: nat, swallowed: bool, x: string, t: string, moved: string, merged: string)
    requires Close(lost, swallowed, moved, merged)
    ensures Close(lost, swallowed, Made(x, t, moved), Made(x, t, merged))
  {
  }

  lemma CloseSwallow(lost: nat, swallowed: bool, x: string, t: string, gap: string, h: string, moved: string, merged: string)
    requires Close(lost, swallowed, moved, merged) && gap == "" && h != ""
    ensures Close(lost + |h|, true, Made(x, t, moved), Made(x, t, Made(gap, h, merged)))
  {
  }

  ghost predicate BothOrdered(ours: seq<Edit>, theirs: seq<Edit>, at: nat, out: nat, doc: string, after: string) {
    Ordered(MoveEdits(ours, at, out, theirs), out, |after|) && Ordered(Merge(ours, theirs), at, |doc|)
  }

  ghost function MovedText(ours: seq<Edit>, theirs: seq<Edit>, at: nat, out: nat, doc: string, after: string): string {
    if BothOrdered(ours, theirs, at, out, doc, after) then Splice(after, out, MoveEdits(ours, at, out, theirs)) else ""
  }

  ghost function MergedText(ours: seq<Edit>, theirs: seq<Edit>, at: nat, out: nat, doc: string, after: string): string {
    if BothOrdered(ours, theirs, at, out, doc, after) then Splice(doc, at, Merge(ours, theirs)) else ""
  }

  function Cut(s: string, i: nat, j: nat): string { if i <= j <= |s| then s[i..j] else "" }

  lemma WalkOrdered(ours: seq<Edit>, theirs: seq<Edit>, at: nat, out: nat, doc: string, after: string)
    requires Walk(ours, theirs, at, out, doc, after)
    ensures BothOrdered(ours, theirs, at, out, doc, after)
  {
    MoveEditsOrdered(ours, at, out, theirs, doc, after);
    MergeOrdered(ours, theirs, at, |doc|);
  }

  lemma SpliceCons(doc: string, at: nat, e: Edit, rest: seq<Edit>)
    requires Ordered([e] + rest, at, |doc|)
    ensures at <= e.start <= e.end <= |doc| && Ordered(rest, e.end, |doc|)
    ensures Splice(doc, at, [e] + rest) == doc[at..e.start] + (e.text + Splice(doc, e.end, rest))
  {
    assert ([e] + rest)[0] == e && ([e] + rest)[1..] == rest;
    OrderedTail([e] + rest, at, |doc|);
  }

  /** Both texts, when our edit comes next. */
  lemma TextsOurs(ours: seq<Edit>, theirs: seq<Edit>, at: nat, out: nat, doc: string, after: string)
    requires Walk(ours, theirs, at, out, doc, after)
    requires ours != [] && theirs != [] && ours[0].end <= theirs[0].start
    ensures var h := ours[0]; var out' := out + Sub(h.start, at) + |h.text|;
            && BothOrdered(ours, theirs, at, out, doc, after)
            && BothOrdered(ours[1..], theirs, h.end, out', doc, after)
            && MovedText(ours, theirs, at, out, doc, after) ==
               Made(Cut(doc, at, h.start), h.text, MovedText(ours[1..], theirs, h.end, out', doc, after))
            && MergedText(ours, theirs, at, out, doc, after) ==
               Made(Cut(doc, at, h.start), h.text, MergedText(ours[1..], theirs, h.end, out', doc, after))
  {
    hide Splice, Move, Walk, Ordered, Merge, MoveEdits, Separated, AllApart;
    var h := ours[0];
    WalkHeads(ours, theirs, at, out, doc, after);
    var out' := out + Sub(h.start, at) + |h.text|;
    WalkOurs(ours, theirs, at, out, doc, after);
    WalkOrdered(ours, theirs, at, out, doc, after);
    WalkOrdered(ours[1..], theirs, h.end, out', doc, after);
    MergeOursFirst(ours, theirs);
    SpliceSkips(after, out, out', MoveEdits(ours, at, out, theirs));
    SpliceCons(doc, at, h, Merge(ours[1..], theirs));
  }

  lemma MovedCons(ours: seq<Edit>, theirs: seq<Edit>, at: nat, out: nat)
    requires theirs != []
    ensures MoveEdits(ours, at, out, theirs) == [MoveEdit(ours, at, out, theirs[0])] + MoveEdits(ours, at, out, theirs[1..])
  {
  }

  /** Both texts, when their edit comes next and swallows nothing. */
  lemma TextsTheirs(ours: seq<Edit>, theirs: seq<Edit>, at: nat, out: nat, doc: string, after: string)
    requires Walk(ours, theirs, at, out, doc, after) && theirs != []
    requires ours != [] ==> ours[0].end > theirs[0].start && !Swallows(theirs[0], ours[0])
    ensures var a := theirs[0]; var to := out + Sub(a.end, at);
            && BothOrdered(ours, theirs, at, out, doc, after)
            && BothOrdered(ours, theirs[1..], a.end, to, doc, after)
            && MovedText(ours, theirs, at, out, doc, after) ==
               Made(Cut(doc, at, a.start), a.text, MovedText(ours, theirs[1..], a.end, to, doc, after))
            && MergedText(ours, theirs, at, out, doc, after) ==
               Made(Cut(doc, at, a.start), a.text, MergedText(ours, theirs[1..], a.end, to, doc, after))
  {
    hide Splice, Move, Walk, Ordered, Merge, MoveEdits, Separated, AllApart;
    var a := theirs[0];
    WalkHeads(ours, theirs, at, out, doc, after);
    var to := out + Sub(a.end, at);
    WalkTheirs(ours, theirs, at, out, doc, after);
    WalkOrdered(ours, theirs, at, out, doc, after);
    WalkOrdered(ours, theirs[1..], a.end, to, doc, after);
    MovedCons(ours, theirs, at, out);
    MergeTheirsFirst(ours, theirs);
    SpliceCons(after, out, MoveEdit(ours, at, out, a), MoveEdits(ours, a.end, to, theirs[1..]));
    SpliceCons(doc, at, a, Merge(ours, theirs[1..]));
  }

  lemma MergeOursFirst(ours: seq<Edit>, theirs: seq<Edit>)
    requires ours != [] && theirs != [] && ours[0].end <= theirs[0].start
    ensures Merge(ours, theirs) == [ours[0]] + Merge(ours[1..], theirs)
  {
  }

  lemma MergeTheirsFirst(ours: seq<Edit>, theirs: seq<Edit>)
    requires theirs != [] && (ours != [] ==> ours[0].end > theirs[0].start)
    ensures Merge(ours, theirs) == [theirs[0]] + Merge(ours, theirs[1..])
  {
  }

  /** Both texts, when their edit comes next and swallows our insertion at its end. */
  lemma TextsSwallow(ours: seq<Edit>, theirs: seq<Edit>, at: nat, out: nat, doc: string, after: string)
    requires Walk(ours, theirs, at, out, doc, after) && ours != [] && theirs != [] && Swallows(theirs[0], ours[0])
    ensures var a, h := theirs[0], ours[0]; var to := out + Sub(a.end, at) + |h.text|;
            && BothOrdered(ours, theirs, at, out, doc, after)
            && BothOrdered(ours[1..], theirs[1..], a.end, to, doc, after)
            && MovedText(ours, theirs, at, out, doc, after) ==
               Made(Cut(doc, at, a.start), a.text, MovedText(ours[1..], theirs[1..], a.end, to, doc, after))
            && MergedText(ours, theirs, at, out, doc, after) ==
               Made(Cut(doc, at, a.start), a.text,
                 Made(Cut(doc, a.end, a.end), h.text, MergedText(ours[1..], theirs[1..], a.end, to, doc, after)))
  {
    hide Splice, Move, Walk, Ordered, Merge, MoveEdits, Separated, AllApart;
    var a, h := theirs[0], ours[0];
    WalkHeads(ours, theirs, at, out, doc, after);
    var to := out + Sub(a.end, at) + |h.text|;
    WalkSwallow(ours, theirs, at, out, doc, after);
    WalkOrdered(ours, theirs, at, out, doc, after);
    WalkOrdered(ours[1..], theirs[1..], a.end, to, doc, after);
    MovedCons(ours, theirs, at, out);
    MergeTies(ours, theirs, at, out, doc, after);
    var merged := Merge(ours[1..], theirs[1..]);
    SpliceCons(after, out, MoveEdit(ours, at, out, a), MoveEdits(ours[1..], a.end, to, theirs[1..]));
    SpliceCons(doc, at, a, [h] + merged);
    SpliceCons(doc, a.end, h, merged);
  }

  lemma MergeTies(ours: seq<Edit>, theirs: seq<Edit>, at: nat, out: nat, doc: string, after: string)
    requires Walk(ours, theirs, at, out, doc, after) && ours != [] && theirs != [] && Swallows(theirs[0], ours[0])
    ensures Merge(ours, theirs) == [theirs[0]] + ([ours[0]] + Merge(ours[1..], theirs[1..]))
  {
    assert Merge(ours, theirs) == [theirs[0]] + Merge(ours, theirs[1..]);
    if |theirs| > 1 {
      assert theirs[0].end <= theirs[1].start;
    } else {
      assert ours == [ours[0]] + ours[1..] && Merge(ours[1..], theirs[1..]) == ours[1..];
    }
  }

  lemma SwallowsOurs(ours: seq<Edit>, theirs: seq<Edit>, at: nat, out: nat, doc: string, after: string)
    requires Walk(ours, theirs, at, out, doc, after)
    requires ours != [] && theirs != [] && ours[0].end <= theirs[0].start
    ensures AnySwallowed(ours, theirs) <==> AnySwallowed(ours[1..], theirs)
  {
    if AnySwallowed(ours, theirs) {
      var i, j :| 0 <= i < |ours| && 0 <= j < |theirs| && Swallows(theirs[j], ours[i]);
      assert Swallows(theirs[j], ours[1..][i - 1]);
    }
    if AnySwallowed(ours[1..], theirs) {
      var i, j :| 0 <= i < |ours[1..]| && 0 <= j < |theirs| && Swallows(theirs[j], ours[1..][i]);
      assert Swallows(theirs[j], ours[i + 1]);
    }
  }

  lemma SwallowsTheirs(ours: seq<Edit>, theirs: seq<Edit>, at: nat, out: nat, doc: string, after: string)
    requires Walk(ours, theirs, at, out, doc, after) && theirs != []
    requires ours != [] ==> ours[0].end > theirs[0].start && !Swallows(theirs[0], ours[0])
    ensures AnySwallowed(ours, theirs) <==> AnySwallowed(ours, theirs[1..])
  {
    if AnySwallowed(ours, theirs) {
      var i, j :| 0 <= i < |ours| && 0 <= j < |theirs| && Swallows(theirs[j], ours[i]);
      assert Apart(ours[0], theirs[0]);
      assert Swallows(theirs[1..][j - 1], ours[i]);
    }
    if AnySwallowed(ours, theirs[1..]) {
      var i, j :| 0 <= i < |ours| && 0 <= j < |theirs[1..]| && Swallows(theirs[1..][j], ours[i]);
      assert Swallows(theirs[j + 1], ours[i]);
    }
  }

  lemma MergeDone(ours: seq<Edit>, at: nat, out: nat, doc: string, after: string)
    requires Walk(ours, [], at, out, doc, after)
    ensures BothOrdered(ours, [], at, out, doc, after)
    ensures Close(0, AnySwallowed(ours, []), MovedText(ours, [], at, out, doc, after),
                  MergedText(ours, [], at, out, doc, after))
  {
    WalkOrdered(ours, [], at, out, doc, after);
    assert Merge(ours, []) == ours && MoveEdits(ours, at, out, []) == [];
  }

  lemma {:induction false} MergeSplices(ours: seq<Edit>, theirs: seq<Edit>, at: nat, out: nat, doc: string, after: string)
    returns (lost: nat)
    requires Walk(ours, theirs, at, out, doc, after)
    ensures BothOrdered(ours, theirs, at, out, doc, after)
    ensures Close(lost, AnySwallowed(ours, theirs), MovedText(ours, theirs, at, out, doc, after),
                  MergedText(ours, theirs, at, out, doc, after))
    decreases |ours| + |theirs|, 1
  {
    hide *;
    if theirs == [] {
      lost := 0;
      MergeDone(ours, at, out, doc, after);
    } else if ours != [] && ours[0].end <= theirs[0].start {
      lost := MergeOurs(ours, theirs, at, out, doc, after);
    } else if ours == [] || !Swallows(theirs[0], ours[0]) {
      lost := MergeTheirs(ours, theirs, at, out, doc, after);
    } else {
      lost := MergeSwallow(ours, theirs, at, out, doc, after);
    }
  }

  lemma {:induction false} MergeOurs(ours: seq<Edit>, theirs: seq<Edit>, at: nat, out: nat, doc: string, after: string)
    returns (lost: nat)
    requires Walk(ours, theirs, at, out, doc, after)
    requires ours != [] && theirs != [] && ours[0].end <= theirs[0].start
    ensures BothOrdered(ours, theirs, at, out, doc, after)
    ensures Close(lost, AnySwallowed(ours, theirs), MovedText(ours, theirs, at, out, doc, after),
                  MergedText(ours, theirs, at, out, doc, after))
    decreases |ours| + |theirs|, 0
  {
    hide *;
    var h := ours[0];
    var out' := out + Sub(h.start, at) + |h.text|;
    WalkOurs(ours, theirs, at, out, doc, after);
    TextsOurs(ours, theirs, at, out, doc, after);
    SwallowsOurs(ours, theirs, at, out, doc, after);
    lost := MergeSplices(ours[1..], theirs, h.end, out', doc, after);
    CloseMade(lost, AnySwallowed(ours, theirs), Cut(doc, at, h.start), h.text,
              MovedText(ours[1..], theirs, h.end, out', doc, after),
              MergedText(ours[1..], theirs, h.end, out', doc, after));
  }

  lemma {:induction false} MergeTheirs(ours: seq<Edit>, theirs: seq<Edit>, at: nat, out: nat, doc: string, after: string)
    returns (lost: nat)
    requires Walk(ours, theirs, at, out, doc, after) && theirs != []
    requires ours != [] ==> ours[0].end > theirs[0].start && !Swallows(theirs[0], ours[0])
    ensures BothOrdered(ours, theirs, at, out, doc, after)
    ensures Close(lost, AnySwallowed(ours, theirs), MovedText(ours, theirs, at, out, doc, after),
                  MergedText(ours, theirs, at, out, doc, after))
    decreases |ours| + |theirs|, 0
  {
    hide *;
    var a := theirs[0];
    var to := out + Sub(a.end, at);
    WalkTheirs(ours, theirs, at, out, doc, after);
    TextsTheirs(ours, theirs, at, out, doc, after);
    SwallowsTheirs(ours, theirs, at, out, doc, after);
    lost := MergeSplices(ours, theirs[1..], a.end, to, doc, after);
    CloseMade(lost, AnySwallowed(ours, theirs), Cut(doc, at, a.start), a.text,
                MovedText(ours, theirs[1..], a.end, to, doc, after),
                MergedText(ours, theirs[1..], a.end, to, doc, after));
  }

  lemma {:induction false} MergeSwallow(ours: seq<Edit>, theirs: seq<Edit>, at: nat, out: nat, doc: string, after: string)
    returns (lost: nat)
    requires Walk(ours, theirs, at, out, doc, after) && ours != [] && theirs != [] && Swallows(theirs[0], ours[0])
    ensures BothOrdered(ours, theirs, at, out, doc, after)
    ensures Close(lost, AnySwallowed(ours, theirs), MovedText(ours, theirs, at, out, doc, after),
                  MergedText(ours, theirs, at, out, doc, after))
    decreases |ours| + |theirs|, 0
  {
    hide *;
    SwallowLoses(ours, theirs, at, out, doc, after);
    var a, h := theirs[0], ours[0];
    var to := out + Sub(a.end, at) + |h.text|;
    WalkSwallow(ours, theirs, at, out, doc, after);
    TextsSwallow(ours, theirs, at, out, doc, after);
    var rest := MergeSplices(ours[1..], theirs[1..], a.end, to, doc, after);
    lost := rest + |h.text|;
    CloseSwallow(rest, AnySwallowed(ours[1..], theirs[1..]), Cut(doc, at, a.start), a.text, Cut(doc, a.end, a.end), h.text,
                 MovedText(ours[1..], theirs[1..], a.end, to, doc, after),
                 MergedText(ours[1..], theirs[1..], a.end, to, doc, after));
  }

  lemma SwallowLoses(ours: seq<Edit>, theirs: seq<Edit>, at: nat, out: nat, doc: string, after: string)
    requires Walk(ours, theirs, at, out, doc, after) && ours != [] && theirs != [] && Swallows(theirs[0], ours[0])
    ensures AnySwallowed(ours, theirs) == true && ours[0].text != "" && Cut(doc, theirs[0].end, theirs[0].end) == ""
  {
    assert Swallows(theirs[0], ours[0]);
  }

  // ----- what a moved range holds ----------------------------------------------------

  /** The text inserted, with nothing replaced, at exactly `p`. */
  function InsertionAt(edits: seq<Edit>, p: nat): string
    decreases |edits|
  {
    if edits == [] then ""
    else if edits[0].start == p == edits[0].end then edits[0].text
    else InsertionAt(edits[1..], p)
  }

  lemma {:induction false} NoInsertionBefore(edits: seq<Edit>, at: nat, len: nat, p: nat)
    requires Ordered(edits, at, len) && (edits != [] ==> p < edits[0].start || (p == edits[0].start < edits[0].end))
    ensures InsertionAt(edits, p) == ""
    decreases |edits|
  {
    if edits != [] {
      OrderedTail(edits, at, len);
      assert |edits| > 1 ==> edits[1..][0] == edits[1] && edits[0].end <= edits[1].start;
      NoInsertionBefore(edits[1..], edits[0].end, len, p);
    }
  }

  /** A non-empty range that no edit reaches into holds the same characters afterwards,
      followed by whatever was inserted exactly at its end. */
  lemma {:induction false} RangeMoves(edits: seq<Edit>, at: nat, out: nat, doc: string, after: string, s: nat, e: nat)
    requires Ordered(edits, at, |doc|) && Separated(edits) && at <= s < e <= |doc|
    requires forall k :: 0 <= k < |edits| ==> Apart(edits[k], Edit(s, e, ""))
    requires out <= |after| && after[out..] == Splice(doc, at, edits)
    ensures Move(edits, at, out, s) <= Move(edits, at, out, e) <= |after|
    ensures after[Move(edits, at, out, s)..Move(edits, at, out, e)] == doc[s..e] + InsertionAt(edits, e)
    decreases |edits|
  {
    if edits != [] && edits[0].end <= s {
      var h := edits[0];
      WalkOurs(edits, [], at, out, doc, after);
      RangeMoves(edits[1..], h.end, out + Sub(h.start, at) + |h.text|, doc, after, s, e);
    } else {
      RangeBefore(edits, at, out, doc, after, s, e);
    }
  }

  /** Text carried over, read from a later start; `t` is what was inserted behind it. */
  lemma RangeCopied(doc: string, at: nat, after: string, out: nat, s: nat, e: nat, t: string, rest: string)
    requires at <= s <= e <= |doc| && out <= |after| && after[out..] == doc[at..e] + (t + rest)
    ensures out + (e - at) + |t| <= |after|
    ensures after[out + (s - at)..out + (e - at) + |t|] == doc[s..e] + t
  {
    var x, y := doc[at..s], doc[s..e];
    assert doc[at..e] + (t + rest) == x + ((y + t) + rest);
    SplitTail(after, out, x, (y + t) + rest);
    SplitTail(after, out + |x|, y + t, rest);
  }

  lemma RangeBefore(edits: seq<Edit>, at: nat, out: nat, doc: string, after: string, s: nat, e: nat)
    requires Ordered(edits, at, |doc|) && Separated(edits) && at <= s < e <= |doc|
    requires edits != [] ==> !(edits[0].end <= s) && Apart(edits[0], Edit(s, e, ""))
    requires out <= |after| && after[out..] == Splice(doc, at, edits)
    ensures Move(edits, at, out, s) <= Move(edits, at, out, e) <= |after|
    ensures after[Move(edits, at, out, s)..Move(edits, at, out, e)] == doc[s..e] + InsertionAt(edits, e)
  {
    hide *;
    MoveBefore(edits, at, out, |doc|, s, e);
    var t := InsertionAt(edits, e);
    var rest := SpliceBehind(edits, at, out, doc, s, e);
    RangeCopied(doc, at, after, out, s, e, t, rest);
  }

  lemma MoveBefore(edits: seq<Edit>, at: nat, out: nat, len: nat, s: nat, e: nat)
    requires Ordered(edits, at, len) && Separated(edits) && at <= s < e <= len
    requires edits != [] ==> !(edits[0].end <= s) && Apart(edits[0], Edit(s, e, ""))
    ensures Move(edits, at, out, s) == out + (s - at)
    ensures Move(edits, at, out, e) == out + (e - at) + |InsertionAt(edits, e)|
  {
    if edits != [] && edits[0].start == e == edits[0].end {
      assert |edits| > 1 ==> edits[1..][0] == edits[1] && edits[0].end < edits[1].start;
    } else {
      NoInsertionBefore(edits, at, len, e);
    }
  }

  lemma SpliceBehind(edits: seq<Edit>, at: nat, out: nat, doc: string, s: nat, e: nat) returns (rest: string)
    requires Ordered(edits, at, |doc|) && Separated(edits) && at <= s < e <= |doc|
    requires edits != [] ==> !(edits[0].end <= s) && Apart(edits[0], Edit(s, e, ""))
    ensures Splice(doc, at, edits) == doc[at..e] + (InsertionAt(edits, e) + rest)
  {
    if edits != [] && edits[0].start == e == edits[0].end {
      OrderedTail(edits, at, |doc|);
      rest := Splice(doc, e, edits[1..]);
    } else {
      NoInsertionBefore(edits, at, |doc|, e);
      OrderedFrom(edits, at, e, |doc|);
      SpliceSkips(doc, at, e, edits);
      rest := Splice(doc, e, edits);
      assert "" + rest == rest;
    }
  }
}
