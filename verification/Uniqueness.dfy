/** A list of maximal edits is determined by what it does to documents. */
module Uniqueness {
  import opened Edits

  /** The two lists have the same effect on every document of length `len`, from `at` on. */
  ghost predicate SameEffect(xs: seq<Edit>, ys: seq<Edit>, at: nat, len: nat) {
    && Ordered(xs, at, len) && Ordered(ys, at, len)
    && forall doc: string :: |doc| == len ==> Splice(doc, at, xs) == Splice(doc, at, ys)
  }

  /** What stands at one place of a spliced document, whichever document it is. */
  datatype Cell = Kept(p: nat) | Fixed(c: char) | End

  /** The cell `k` places behind `at`, up to the first one behind the first edit. */
  function CellAt(xs: seq<Edit>, at: nat, len: nat, k: nat): Cell
    requires Ordered(xs, at, len) && (xs == [] || k <= xs[0].start - at + |xs[0].text|)
  {
    if xs == [] || k < xs[0].start - at then if at + k < len then Kept(at + k) else End
    else if k - (xs[0].start - at) < |xs[0].text| then Fixed(xs[0].text[k - (xs[0].start - at)])
    else if xs[0].end < len then Kept(xs[0].end) else End
  }

  ghost predicate Shows(cell: Cell, text: string, k: nat, doc: string) {
    match cell
    case Kept(p) => k < |text| && p < |doc| && text[k] == doc[p]
    case Fixed(c) => k < |text| && text[k] == c
    case End => |text| <= k
  }

  lemma CellShows(xs: seq<Edit>, at: nat, doc: string, k: nat)
    requires Ordered(xs, at, |doc|) && Separated(xs) && (xs == [] || k <= xs[0].start - at + |xs[0].text|)
    ensures Shows(CellAt(xs, at, |doc|, k), Splice(doc, at, xs), k, doc)
  {
    hide Ordered, Separated, Splice;
    if xs == [] {
      SpliceEmpty(doc, at);
    } else {
      SpliceHead(doc, at, xs);
      TailStarts(xs, doc);
      HeadShows(xs[0], at, doc, Splice(doc, xs[0].end, xs[1..]), k);
    }
  }

  lemma SpliceEmpty(doc: string, at: nat)
    requires Ordered([], at, |doc|)
    ensures at <= |doc| && Splice(doc, at, []) == doc[at..]
  {
  }

  lemma SpliceHead(doc: string, at: nat, xs: seq<Edit>)
    requires Ordered(xs, at, |doc|) && xs != []
    ensures at <= xs[0].start <= xs[0].end <= |doc| && Ordered(xs[1..], xs[0].end, |doc|)
    ensures Splice(doc, at, xs) == doc[at..xs[0].start] + (xs[0].text + Splice(doc, xs[0].end, xs[1..]))
  {
    OrderedTail(xs, at, |doc|);
  }

  /** Behind an edit the next character of the document survives, if there is one. */
  lemma TailStarts(xs: seq<Edit>, doc: string)
    requires xs != [] && Separated(xs) && xs[0].end <= |doc| && Ordered(xs[1..], xs[0].end, |doc|)
    ensures var tail := Splice(doc, xs[0].end, xs[1..]);
            if xs[0].end < |doc| then tail != "" && tail[0] == doc[xs[0].end] else tail == ""
  {
    assert |xs| > 1 ==> xs[1..][0] == xs[1] && xs[0].end < xs[1].start <= |doc|;
  }

  lemma HeadShows(e: Edit, at: nat, doc: string, tail: string, k: nat)
    requires at <= e.start <= e.end <= |doc| && k <= e.start - at + |e.text|
    requires if e.end < |doc| then tail != "" && tail[0] == doc[e.end] else tail == ""
    ensures var text := doc[at..e.start] + (e.text + tail);
            && (k < e.start - at ==> k < |text| && text[k] == doc[at + k])
            && (e.start - at <= k < e.start - at + |e.text| ==> k < |text| && text[k] == e.text[k - (e.start - at)])
            && (k == e.start - at + |e.text| ==>
                  if e.end < |doc| then k < |text| && text[k] == doc[e.end] else |text| == k)
  {
  }

  /** Two cells that agree on every document are the same cell. */
  lemma CellsAgree(xs: seq<Edit>, ys: seq<Edit>, at: nat, len: nat, k: nat)
    requires SameEffect(xs, ys, at, len) && Separated(xs) && Separated(ys)
    requires xs == [] || k <= xs[0].start - at + |xs[0].text|
    requires ys == [] || k <= ys[0].start - at + |ys[0].text|
    ensures CellAt(xs, at, len, k) == CellAt(ys, at, len, k)
  {
    var x, y := CellAt(xs, at, len, k), CellAt(ys, at, len, k);
    var p := if x.Kept? then x.p else if y.Kept? then y.p else 0;
    var c := if x.Fixed? then x.c else if y.Fixed? then y.c else 'z';
    var here := if c == 'a' then 'b' else 'a';
    var there := if c == 'a' then 'd' else if c == 'd' then 'e' else 'd';
    var doc: string := seq(len, i requires 0 <= i < len => if i == p then here else there);
    CellShows(xs, at, doc, k);
    CellShows(ys, at, doc, k);
    assert Splice(doc, at, xs) == Splice(doc, at, ys);
  }

  lemma StartsAgree(xs: seq<Edit>, ys: seq<Edit>, at: nat, len: nat)
    requires SameEffect(xs, ys, at, len) && Separated(xs) && Separated(ys) && xs != []
    ensures ys != [] && ys[0].start <= xs[0].start
  {
    if ys == [] || xs[0].start < ys[0].start {
      CellsAgree(xs, ys, at, len, xs[0].start - at);
    }
  }

  lemma TextsAgree(xs: seq<Edit>, ys: seq<Edit>, at: nat, len: nat, k: nat)
    requires SameEffect(xs, ys, at, len) && Separated(xs) && Separated(ys) && xs != [] && ys != []
    requires xs[0].start == ys[0].start && k <= |xs[0].text| && k <= |ys[0].text|
    ensures xs[0].text[..k] == ys[0].text[..k]
    decreases k
  {
    if k > 0 {
      TextsAgree(xs, ys, at, len, k - 1);
      CellsAgree(xs, ys, at, len, xs[0].start - at + (k - 1));
      assert xs[0].text[..k] == xs[0].text[..k - 1] + [xs[0].text[k - 1]];
      assert ys[0].text[..k] == ys[0].text[..k - 1] + [ys[0].text[k - 1]];
    }
  }

  lemma HeadsAgree(xs: seq<Edit>, ys: seq<Edit>, at: nat, len: nat)
    requires SameEffect(xs, ys, at, len) && Separated(xs) && Separated(ys) && xs != [] && ys != []
    ensures xs[0] == ys[0]
  {
    var x, y := xs[0], ys[0];
    StartsAgree(xs, ys, at, len);
    StartsAgree(ys, xs, at, len);
    var k := if |x.text| < |y.text| then |x.text| else |y.text|;
    TextsAgree(xs, ys, at, len, k);
    CellsAgree(xs, ys, at, len, x.start - at + k);
    assert x.text[..k] == y.text[..k] && x.text == x.text[..|x.text|] && y.text == y.text[..|y.text|];
  }

  lemma TailsSame(xs: seq<Edit>, ys: seq<Edit>, at: nat, len: nat)
    requires SameEffect(xs, ys, at, len) && xs != [] && ys != [] && xs[0] == ys[0]
    ensures SameEffect(xs[1..], ys[1..], xs[0].end, len)
  {
    var e := xs[0];
    OrderedTail(xs, at, len);
    OrderedTail(ys, at, len);
    forall doc: string | |doc| == len
      ensures Splice(doc, e.end, xs[1..]) == Splice(doc, e.end, ys[1..])
    {
      assert Splice(doc, at, xs) == Splice(doc, at, ys);
      CancelFront(doc[at..e.start], e.text, Splice(doc, e.end, xs[1..]), Splice(doc, e.end, ys[1..]));
    }
  }

  lemma CancelFront(x: string, t: string, y: string, z: string)
    requires x + (t + y) == x + (t + z)
    ensures y == z
  {
    assert y == (x + (t + y))[|x| + |t|..];
    assert z == (x + (t + z))[|x| + |t|..];
  }

  /** Maximal edits with the same effect on every document are the same edits. */
  lemma {:induction false} EffectDeterminesEdits(xs: seq<Edit>, ys: seq<Edit>, at: nat, len: nat)
    requires SameEffect(xs, ys, at, len) && Separated(xs) && Separated(ys)
    ensures xs == ys
    decreases |xs|
  {
    hide *;
    if xs == [] {
      if ys != [] {
        SameEffectBack(xs, ys, at, len);
        StartsAgree(ys, xs, at, len);
      }
    } else {
      StartsAgree(xs, ys, at, len);
      HeadsAgree(xs, ys, at, len);
      TailsSeparated(xs);
      TailsSeparated(ys);
      TailsSame(xs, ys, at, len);
      EffectDeterminesEdits(xs[1..], ys[1..], xs[0].end, len);
      SameHeadAndTail(xs, ys);
    }
  }

  lemma SameEffectBack(xs: seq<Edit>, ys: seq<Edit>, at: nat, len: nat)
    requires SameEffect(xs, ys, at, len)
    ensures SameEffect(ys, xs, at, len)
  {
  }

  lemma TailsSeparated(xs: seq<Edit>)
    requires Separated(xs) && xs != []
    ensures Separated(xs[1..])
  {
  }

  lemma SameHeadAndTail(xs: seq<Edit>, ys: seq<Edit>)
    requires xs != [] && ys != [] && xs[0] == ys[0] && xs[1..] == ys[1..]
    ensures xs == ys
  {
    assert xs == [xs[0]] + xs[1..] && ys == [ys[0]] + ys[1..];
  }
}
