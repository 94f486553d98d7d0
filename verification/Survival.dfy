/** What accepting moved edits leaves behind, also where it loses text: exactly our edits but
    for the insertions swallowed, together with theirs. */
module Survival {
  import opened Edits

  ghost predicate Swallowed(theirs: seq<Edit>, h: Edit) {
    exists j :: 0 <= j < |theirs| && Swallows(theirs[j], h)
  }

  /** Our edits, without the insertions that one of theirs swallows. */
  ghost function Survivors(ours: seq<Edit>, theirs: seq<Edit>): seq<Edit>
    decreases |ours|
  {
    if ours == [] then []
    else if Swallowed(theirs, ours[0]) then Survivors(ours[1..], theirs)
    else [ours[0]] + Survivors(ours[1..], theirs)
  }

  lemma {:induction false} SurvivorsOrdered(ours: seq<Edit>, theirs: seq<Edit>, at: nat, len: nat)
    requires Ordered(ours, at, len)
    ensures Ordered(Survivors(ours, theirs), at, len)
    decreases |ours|
  {
    if ours != [] {
      OrderedTail(ours, at, len);
      SurvivorsOrdered(ours[1..], theirs, ours[0].end, len);
      OrderedCons(ours[0], Survivors(ours[1..], theirs), at, len);
    }
  }

  lemma {:induction false} SurvivorsApart(ours: seq<Edit>, theirs: seq<Edit>, others: seq<Edit>)
    requires AllApart(ours, others)
    ensures AllApart(Survivors(ours, theirs), others)
    decreases |ours|
  {
    if ours != [] {
      SurvivorsApart(ours[1..], theirs, others);
    }
  }

  lemma {:induction false} SameSurvivors(ours: seq<Edit>, xs: seq<Edit>, ys: seq<Edit>)
    requires forall i :: 0 <= i < |ours| ==> (Swallowed(xs, ours[i]) <==> Swallowed(ys, ours[i]))
    ensures Survivors(ours, xs) == Survivors(ours, ys)
    decreases |ours|
  {
    if ours != [] {
      SameSurvivors(ours[1..], xs, ys);
    }
  }

  /** Nothing is lost exactly when nothing is swallowed. */
  lemma {:induction false} AllSurvive(ours: seq<Edit>, theirs: seq<Edit>)
    ensures Survivors(ours, theirs) == ours <==> !AnySwallowed(ours, theirs)
    ensures |Survivors(ours, theirs)| <= |ours|
    decreases |ours|
  {
    if ours != [] {
      var rest := ours[1..];
      AllSurvive(rest, theirs);
      assert AnySwallowed(ours, theirs) <==> Swallowed(theirs, ours[0]) || AnySwallowed(rest, theirs) by {
        forall i, j | 0 <= i < |rest| && 0 <= j < |theirs| && Swallows(theirs[j], rest[i])
          ensures Swallows(theirs[j], ours[i + 1])
        {
        }
        forall i, j | 0 < i < |ours| && 0 <= j < |theirs| && Swallows(theirs[j], ours[i])
          ensures Swallows(theirs[j], rest[i - 1])
        {
        }
      }
      assert ours == [ours[0]] + rest;
    }
  }

  /** The first survivor ends behind a point that all our edits end behind. */
  lemma {:induction false} HeadBehind(ours: seq<Edit>, theirs: seq<Edit>, p: nat)
    requires forall i :: 0 <= i < |ours| ==> ours[i].end > p
    ensures Survivors(ours, theirs) != [] ==> Survivors(ours, theirs)[0].end > p
    decreases |ours|
  {
    if ours != [] {
      HeadBehind(ours[1..], theirs, p);
    }
  }

  ghost function MergeSurvivors(ours: seq<Edit>, theirs: seq<Edit>): seq<Edit> { Merge(Survivors(ours, theirs), theirs) }

  /** Our edit lies before all of theirs: it survives, and comes first. */
  lemma KeptOurs(ours: seq<Edit>, theirs: seq<Edit>, len: nat, at: nat)
    requires Ordered(theirs, at, len)
    requires ours != [] && theirs != [] && ours[0].end <= theirs[0].start
    ensures MergeSurvivors(ours, theirs) == [ours[0]] + MergeSurvivors(ours[1..], theirs)
  {
    forall j | 0 <= j < |theirs|
      ensures !Swallows(theirs[j], ours[0])
    {
      assert theirs[0].start <= theirs[j].start;
    }
    var s := Survivors(ours, theirs);
    assert s[0] == ours[0] && s[1..] == Survivors(ours[1..], theirs);
    MergeOursFirst(s, theirs);
  }

  /** Dropping an edit of theirs that reaches none of ours. */
  lemma StillSwallowed(ours: seq<Edit>, theirs: seq<Edit>)
    requires theirs != [] && forall i :: 0 <= i < |ours| ==> !Swallows(theirs[0], ours[i])
    ensures Survivors(ours, theirs) == Survivors(ours, theirs[1..])
  {
    forall i | 0 <= i < |ours|
      ensures Swallowed(theirs, ours[i]) <==> Swallowed(theirs[1..], ours[i])
    {
      var h := ours[i];
      if Swallowed(theirs, h) {
        var j :| 0 <= j < |theirs| && Swallows(theirs[j], h);
        assert theirs[1..][j - 1] == theirs[j];
      }
      if Swallowed(theirs[1..], h) {
        var j :| 0 <= j < |theirs[1..]| && Swallows(theirs[1..][j], h);
        assert theirs[j + 1] == theirs[1..][j];
      }
    }
    SameSurvivors(ours, theirs, theirs[1..]);
  }

  /** Their edit comes before all of ours and swallows nothing. */
  lemma KeptTheirs(ours: seq<Edit>, theirs: seq<Edit>, at: nat, len: nat)
    requires Ordered(ours, at, len) && Separated(ours) && AllApart(ours, theirs) && theirs != []
    requires ours != [] ==> ours[0].end > theirs[0].start && !Swallows(theirs[0], ours[0])
    ensures MergeSurvivors(ours, theirs) == [theirs[0]] + MergeSurvivors(ours, theirs[1..])
  {
    var a := theirs[0];
    forall i | 0 <= i < |ours|
      ensures ours[i].end > a.start && !Swallows(a, ours[i])
    {
      assert Apart(ours[0], a);
      assert i > 0 ==> ours[0].end < ours[i].start;
    }
    StillSwallowed(ours, theirs);
    HeadBehind(ours, theirs, a.start);
    MergeTheirsFirst(Survivors(ours, theirs), theirs);
  }

  /** Their edit swallows our next insertion, which is lost. */
  lemma KeptSwallow(ours: seq<Edit>, theirs: seq<Edit>, at: nat, len: nat)
    requires Ordered(ours, at, len) && Separated(ours) && ours != [] && theirs != [] && Swallows(theirs[0], ours[0])
    ensures MergeSurvivors(ours, theirs) == [theirs[0]] + MergeSurvivors(ours[1..], theirs[1..])
  {
    var a, rest := theirs[0], ours[1..];
    assert Swallowed(theirs, ours[0]);
    forall i | 0 <= i < |rest|
      ensures rest[i].end > a.start && !Swallows(a, rest[i])
    {
      assert ours[0].end < ours[i + 1].start;
    }
    StillSwallowed(rest, theirs);
    HeadBehind(rest, theirs, a.start);
    MergeTheirsFirst(Survivors(rest, theirs), theirs);
  }

  ghost function KeptText(ours: seq<Edit>, theirs: seq<Edit>, at: nat, doc: string): string {
    if Ordered(MergeSurvivors(ours, theirs), at, |doc|) then Splice(doc, at, MergeSurvivors(ours, theirs)) else ""
  }

  lemma SurvivorsMergeOrdered(ours: seq<Edit>, theirs: seq<Edit>, at: nat, out: nat, doc: string, after: string)
    requires Walk(ours, theirs, at, out, doc, after)
    ensures Ordered(MergeSurvivors(ours, theirs), at, |doc|)
  {
    SurvivorsOrdered(ours, theirs, at, |doc|);
    SurvivorsApart(ours, theirs, theirs);
    MergeOrdered(Survivors(ours, theirs), theirs, at, |doc|);
  }

  lemma KeptTextCons(ours: seq<Edit>, theirs: seq<Edit>, e: Edit, more: seq<Edit>, rest: seq<Edit>, at: nat, doc: string)
    requires Ordered(MergeSurvivors(ours, theirs), at, |doc|) && MergeSurvivors(ours, theirs) == [e] + MergeSurvivors(more, rest)
    ensures KeptText(ours, theirs, at, doc) == Made(Cut(doc, at, e.start), e.text, KeptText(more, rest, e.end, doc))
  {
    SpliceCons(doc, at, e, MergeSurvivors(more, rest));
  }

  lemma KeptDone(ours: seq<Edit>, at: nat, out: nat, doc: string, after: string)
    requires Walk(ours, [], at, out, doc, after)
    ensures MovedText(ours, [], at, out, doc, after) == KeptText(ours, [], at, doc)
  {
    MergeDone(ours, at, out, doc, after);
    assert !AnySwallowed(ours, []);
    AllSurvive(ours, []);
  }

  lemma WalkParts(ours: seq<Edit>, theirs: seq<Edit>, at: nat, out: nat, doc: string, after: string)
    requires Walk(ours, theirs, at, out, doc, after)
    ensures Ordered(ours, at, |doc|) && Separated(ours) && Ordered(theirs, at, |doc|) && AllApart(ours, theirs)
  {
  }

  lemma StepOurs(ours: seq<Edit>, theirs: seq<Edit>, at: nat, out: nat, doc: string, after: string)
    requires Walk(ours, theirs, at, out, doc, after)
    requires ours != [] && theirs != [] && ours[0].end <= theirs[0].start
    ensures var h := ours[0]; var out' := out + Sub(h.start, at) + |h.text|; var before := Cut(doc, at, h.start);
            && Walk(ours[1..], theirs, h.end, out', doc, after)
            && MovedText(ours, theirs, at, out, doc, after) ==
               Made(before, h.text, MovedText(ours[1..], theirs, h.end, out', doc, after))
            && KeptText(ours, theirs, at, doc) == Made(before, h.text, KeptText(ours[1..], theirs, h.end, doc))
  {
    hide *;
    WalkParts(ours, theirs, at, out, doc, after);
    WalkOurs(ours, theirs, at, out, doc, after);
    TextsOurs(ours, theirs, at, out, doc, after);
    SurvivorsMergeOrdered(ours, theirs, at, out, doc, after);
    KeptOurs(ours, theirs, |doc|, at);
    KeptTextCons(ours, theirs, ours[0], ours[1..], theirs, at, doc);
  }

  lemma StepTheirs(ours: seq<Edit>, theirs: seq<Edit>, at: nat, out: nat, doc: string, after: string)
    requires Walk(ours, theirs, at, out, doc, after) && theirs != []
    requires ours != [] ==> ours[0].end > theirs[0].start && !Swallows(theirs[0], ours[0])
    ensures var a := theirs[0]; var to := out + Sub(a.end, at); var before := Cut(doc, at, a.start);
            && Walk(ours, theirs[1..], a.end, to, doc, after)
            && MovedText(ours, theirs, at, out, doc, after) ==
               Made(before, a.text, MovedText(ours, theirs[1..], a.end, to, doc, after))
            && KeptText(ours, theirs, at, doc) == Made(before, a.text, KeptText(ours, theirs[1..], a.end, doc))
  {
    hide *;
    WalkParts(ours, theirs, at, out, doc, after);
    WalkTheirs(ours, theirs, at, out, doc, after);
    TextsTheirs(ours, theirs, at, out, doc, after);
    SurvivorsMergeOrdered(ours, theirs, at, out, doc, after);
    KeptTheirs(ours, theirs, at, |doc|);
    KeptTextCons(ours, theirs, theirs[0], ours, theirs[1..], at, doc);
  }

  lemma StepSwallow(ours: seq<Edit>, theirs: seq<Edit>, at: nat, out: nat, doc: string, after: string)
    requires Walk(ours, theirs, at, out, doc, after) && ours != [] && theirs != [] && Swallows(theirs[0], ours[0])
    ensures var a := theirs[0]; var to := out + Sub(a.end, at) + |ours[0].text|; var before := Cut(doc, at, a.start);
            && Walk(ours[1..], theirs[1..], a.end, to, doc, after)
            && MovedText(ours, theirs, at, out, doc, after) ==
               Made(before, a.text, MovedText(ours[1..], theirs[1..], a.end, to, doc, after))
            && KeptText(ours, theirs, at, doc) == Made(before, a.text, KeptText(ours[1..], theirs[1..], a.end, doc))
  {
    hide *;
    WalkParts(ours, theirs, at, out, doc, after);
    WalkSwallow(ours, theirs, at, out, doc, after);
    TextsSwallow(ours, theirs, at, out, doc, after);
    SurvivorsMergeOrdered(ours, theirs, at, out, doc, after);
    KeptSwallow(ours, theirs, at, |doc|);
    KeptTextCons(ours, theirs, theirs[0], ours[1..], theirs[1..], at, doc);
  }

  /** Splicing the moved edits into the changed text is, in every case, splicing into the
      original what survives of ours together with all of theirs. */
  lemma {:induction false} MovedIsKept(ours: seq<Edit>, theirs: seq<Edit>, at: nat, out: nat, doc: string, after: string)
    requires Walk(ours, theirs, at, out, doc, after)
    ensures MovedText(ours, theirs, at, out, doc, after) == KeptText(ours, theirs, at, doc)
    decreases |ours| + |theirs|
  {
    hide *;
    SurvivorsMergeOrdered(ours, theirs, at, out, doc, after);
    if theirs == [] {
      KeptDone(ours, at, out, doc, after);
    } else if ours != [] && ours[0].end <= theirs[0].start {
      StepOurs(ours, theirs, at, out, doc, after);
      MovedIsKept(ours[1..], theirs, ours[0].end, out + Sub(ours[0].start, at) + |ours[0].text|, doc, after);
    } else if ours == [] || !Swallows(theirs[0], ours[0]) {
      StepTheirs(ours, theirs, at, out, doc, after);
      MovedIsKept(ours, theirs[1..], theirs[0].end, out + Sub(theirs[0].end, at), doc, after);
    } else {
      StepSwallow(ours, theirs, at, out, doc, after);
      MovedIsKept(ours[1..], theirs[1..], theirs[0].end, out + Sub(theirs[0].end, at) + |ours[0].text|, doc, after);
    }
  }
}
