/** Placing an edit whose `old` text may be the whole file or only the lines it touches. */
module Anchoring {
  import opened Options

  datatype AnchorFailure = NotFound | Ambiguous

  predicate OccursAt(text: string, fragment: string, i: nat) {
    i + |fragment| <= |text| && text[i..i + |fragment|] == fragment
  }

  /** The leftmost occurrence that starts at `from` or later. */
  function FindFrom(text: string, fragment: string, from: nat): (found: Option<nat>)
    ensures found.Some? ==> from <= found.value && OccursAt(text, fragment, found.value)
    ensures found.Some? ==> forall i :: from <= i < found.value ==> !OccursAt(text, fragment, i)
    ensures found.None? ==> forall i :: from <= i ==> !OccursAt(text, fragment, i)
    decreases |text| - from
  {
    if from + |fragment| > |text| then None
    else if OccursAt(text, fragment, from) then Some(from)
    else FindFrom(text, fragment, from + 1)
  }

  /** The text the buffer would have; matches are looked for one behind the other, so the second
      search starts where the first match ends. */
  function WholeFile(current: string, fragment: string, replacement: string): Result<string, AnchorFailure> {
    if fragment == current then Ok(replacement)
    else if fragment == "" then Err(Ambiguous)
    else match FindFrom(current, fragment, 0)
      case None => Err(NotFound)
      case Some(at) =>
        if FindFrom(current, fragment, at + |fragment|).Some? then Err(Ambiguous)
        else Ok(current[..at] + replacement + current[at + |fragment|..])
  }

  ghost predicate FirstAt(text: string, fragment: string, at: nat) {
    OccursAt(text, fragment, at) && forall i :: 0 <= i < at ==> !OccursAt(text, fragment, i)
  }

  /** The fragment's leftmost occurrence is at `at` and none starts behind it. */
  ghost predicate OnlyAt(text: string, fragment: string, at: nat) {
    FirstAt(text, fragment, at) && forall i :: at + |fragment| <= i ==> !OccursAt(text, fragment, i)
  }

  /** When a fragment is placed, and what each refusal means. */
  lemma FragmentIsPlaced(current: string, fragment: string, replacement: string)
    requires fragment != current
    ensures WholeFile(current, fragment, replacement).Ok? <==>
            fragment != "" && exists at: nat :: OnlyAt(current, fragment, at)
    ensures WholeFile(current, fragment, replacement) == Err(NotFound) <==>
            fragment != "" && forall i: nat :: !OccursAt(current, fragment, i)
    ensures fragment == "" ==> WholeFile(current, fragment, replacement) == Err(Ambiguous)
    ensures forall at: nat :: WholeFile(current, fragment, replacement).Ok? && FirstAt(current, fragment, at) ==>
              WholeFile(current, fragment, replacement).value == current[..at] + replacement + current[at + |fragment|..]
  {
    var found := FindFrom(current, fragment, 0);
    if fragment != "" && found.Some? {
      FirstIsUnique(current, fragment, found.value);
      if WholeFile(current, fragment, replacement).Ok? {
        assert OnlyAt(current, fragment, found.value);
      }
    }
  }

  lemma FirstIsUnique(text: string, fragment: string, first: nat)
    requires OccursAt(text, fragment, first) && forall i :: 0 <= i < first ==> !OccursAt(text, fragment, i)
    ensures forall at: nat :: FirstAt(text, fragment, at) ==> at == first
  {
  }

  /** Every character outside the window the fragment was found in survives, in place. */
  lemma OutsideSurvives(current: string, fragment: string, replacement: string, at: nat)
    requires fragment != current && WholeFile(current, fragment, replacement).Ok? && FirstAt(current, fragment, at)
    ensures var text := WholeFile(current, fragment, replacement).value;
            && |text| == |current| - |fragment| + |replacement|
            && text[..at] == current[..at] && text[at..at + |replacement|] == replacement
            && text[at + |replacement|..] == current[at + |fragment|..]
  {
    FragmentIsPlaced(current, fragment, replacement);
  }

  // ----- overlapping occurrences ------------------------------------------------------

  /** Some proper non-empty beginning of the fragment is also its end. */
  ghost predicate Bordered(fragment: string) {
    exists b :: 0 < b < |fragment| && Border(fragment, b)
  }

  ghost predicate Border(fragment: string, b: nat)
    requires b <= |fragment|
  {
    fragment[..b] == fragment[|fragment| - b..]
  }

  ghost predicate OccursTwice(text: string, fragment: string) {
    exists i, j :: 0 <= i < j && OccursAt(text, fragment, i) && OccursAt(text, fragment, j)
  }

  /** Two occurrences that overlap give the fragment a border. */
  lemma OverlapIsBorder(text: string, fragment: string, i: nat, j: nat)
    requires OccursAt(text, fragment, i) && OccursAt(text, fragment, j) && i < j < i + |fragment|
    ensures Bordered(fragment)
  {
    var n := |fragment|;
    var b := i + n - j;
    assert fragment[..b] == text[j..j + n][..b] == text[j..i + n];
    assert fragment[n - b..] == text[i..i + n][j - i..] == text[j..i + n];
    assert Border(fragment, b);
  }

  /** A text in which a bordered fragment occurs twice, overlapping, and is placed all the same. */
  lemma BorderSlipsThrough(fragment: string, b: nat, replacement: string)
    requires 0 < b < |fragment| && Border(fragment, b)
    ensures var text := fragment + fragment[b..];
            text != fragment && WholeFile(text, fragment, replacement).Ok? && OccursTwice(text, fragment)
  {
    var n, text := |fragment|, fragment + fragment[b..];
    assert OccursAt(text, fragment, 0);
    assert text[n - b..n - b + n] == fragment[n - b..] + fragment[b..] == fragment[..b] + fragment[b..] == fragment;
    assert OccursAt(text, fragment, n - b);
    assert FirstAt(text, fragment, 0);
    FragmentIsPlaced(text, fragment, replacement);
  }

  ghost predicate PlacedOnlyWhenUnique(fragment: string) {
    forall current, replacement :: current != fragment && WholeFile(current, fragment, replacement).Ok? ==>
      !OccursTwice(current, fragment)
  }

  /** A fragment that appears more than once is refused in every text exactly when the fragment
      cannot overlap itself. */
  lemma RefusedWhenTwice(fragment: string)
    ensures PlacedOnlyWhenUnique(fragment) <==> !Bordered(fragment)
  {
    if Bordered(fragment) {
      var b :| 0 < b < |fragment| && Border(fragment, b);
      BorderSlipsThrough(fragment, b, "");
      assert !PlacedOnlyWhenUnique(fragment);
    } else {
      forall current, replacement | current != fragment && WholeFile(current, fragment, replacement).Ok?
        ensures !OccursTwice(current, fragment)
      {
        if OccursTwice(current, fragment) {
          var i, j :| 0 <= i < j && OccursAt(current, fragment, i) && OccursAt(current, fragment, j);
          PlacedHasNoSecond(current, fragment, replacement, i, j);
          OverlapIsBorder(current, fragment, i, j);
        }
      }
    }
  }

  lemma PlacedHasNoSecond(current: string, fragment: string, replacement: string, i: nat, j: nat)
    requires current != fragment && WholeFile(current, fragment, replacement).Ok?
    requires i < j && OccursAt(current, fragment, i) && OccursAt(current, fragment, j)
    ensures j < i + |fragment|
  {
  }
}
