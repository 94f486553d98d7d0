/** The text-search overlay: a capped list of results, kept in path order while batches arrive. */
module Searching {
  import opened Options
  import opened Sorting

  const TEXT_MATCH_LIMIT: nat := 1_000
  const VISIBLE_LIMIT: nat := 200

  /** A path by its components. */
  type Path = seq<string>

  datatype SearchMatch = SearchMatch(path: Path, line: Option<nat>, column: Option<nat>, text: Option<string>)

  datatype Order = Less | Same | More
  {
    function Flip(): Order {
      match this
      case Less => More
      case Same => Same
      case More => Less
    }

    function Then(next: Order): Order { if Same? then next else this }
  }

  function CompareNat(a: nat, b: nat): Order { if a < b then Less else if a == b then Same else More }

  function CompareChar(a: char, b: char): Order { CompareNat(a as nat, b as nat) }

  /** Absent comes before present. */
  function CompareOption(a: Option<nat>, b: Option<nat>): Order {
    match (a, b)
    case (None, None) => Same
    case (None, Some(_)) => Less
    case (Some(_), None) => More
    case (Some(x), Some(y)) => CompareNat(x, y)
  }

  /** Element by element from `i`, the shorter first. */
  function CompareSeq<T>(a: seq<T>, b: seq<T>, compare: (T, T) -> Order, i: nat): Order
    decreases |a| - i
  {
    if i >= |a| then (if i >= |b| then Same else Less)
    else if i >= |b| then More
    else compare(a[i], b[i]).Then(CompareSeq(a, b, compare, i + 1))
  }

  function CompareText(a: string, b: string): Order { CompareSeq(a, b, CompareChar, 0) }

  function ComparePath(a: Path, b: Path): Order { CompareSeq(a, b, CompareText, 0) }

  function CompareMatch(a: SearchMatch, b: SearchMatch): Order {
    ComparePath(a.path, b.path).Then(CompareOption(a.line, b.line)).Then(CompareOption(a.column, b.column))
  }

  predicate Le(a: SearchMatch, b: SearchMatch) { !CompareMatch(a, b).More? }

  // ---- the order is one ----------------------------------------------------------------------

  /** What comparing `a` with `b` and `b` with `c` says of `a` and `c`. */
  predicate Chains(ab: Order, bc: Order, ac: Order) {
    && (ab.Same? ==> ac == bc)
    && (bc.Same? ==> ac == ab)
    && (ab.Less? && bc.Less? ==> ac.Less?)
    && (ab.More? && bc.More? ==> ac.More?)
  }

  ghost predicate Comparison<T(!new)>(compare: (T, T) -> Order) {
    && (forall a, b :: compare(b, a) == compare(a, b).Flip())
    && (forall a, b, c :: Chains(compare(a, b), compare(b, c), compare(a, c)))
  }

  lemma {:induction false} SeqFlips<T(!new)>(a: seq<T>, b: seq<T>, compare: (T, T) -> Order, i: nat)
    requires Comparison(compare)
    ensures CompareSeq(b, a, compare, i) == CompareSeq(a, b, compare, i).Flip()
    decreases |a| - i
  {
    if i < |a| && i < |b| {
      SeqFlips(a, b, compare, i + 1);
      assert compare(b[i], a[i]) == compare(a[i], b[i]).Flip();
    }
  }

  lemma {:induction false} SeqChains<T(!new)>(a: seq<T>, b: seq<T>, c: seq<T>, compare: (T, T) -> Order, i: nat)
    requires Comparison(compare)
    ensures Chains(CompareSeq(a, b, compare, i), CompareSeq(b, c, compare, i), CompareSeq(a, c, compare, i))
    decreases |a| + |b| + |c| - i
  {
    if i < |a| && i < |b| && i < |c| {
      SeqChains(a, b, c, compare, i + 1);
      assert Chains(compare(a[i], b[i]), compare(b[i], c[i]), compare(a[i], c[i]));
    }
  }

  lemma TextIsCompared()
    ensures Comparison(CompareText)
  {
    assert Comparison(CompareChar);
    forall a, b { SeqFlips(a, b, CompareChar, 0); }
    forall a, b, c { SeqChains(a, b, c, CompareChar, 0); }
  }

  lemma PathsAreCompared()
    ensures Comparison(ComparePath)
  {
    hide CompareText;
    TextIsCompared();
    forall a, b { SeqFlips(a, b, CompareText, 0); }
    forall a, b, c { SeqChains(a, b, c, CompareText, 0); }
  }

  lemma ThenChains(ab: Order, bc: Order, ac: Order, xy: Order, yz: Order, xz: Order)
    requires Chains(ab, bc, ac) && Chains(xy, yz, xz)
    ensures Chains(ab.Then(xy), bc.Then(yz), ac.Then(xz))
  {
  }

  lemma MatchesChain(a: SearchMatch, b: SearchMatch, c: SearchMatch)
    ensures Chains(CompareMatch(a, b), CompareMatch(b, c), CompareMatch(a, c))
    ensures CompareMatch(b, a) == CompareMatch(a, b).Flip()
  {
    hide ComparePath, Chains, CompareOption;
    PathsAreCompared();
    OptionsChain(a.line, b.line, c.line);
    OptionsChain(a.column, b.column, c.column);
    assert Chains(ComparePath(a.path, b.path), ComparePath(b.path, c.path), ComparePath(a.path, c.path));
    assert ComparePath(b.path, a.path) == ComparePath(a.path, b.path).Flip();
    ThenChains(ComparePath(a.path, b.path), ComparePath(b.path, c.path), ComparePath(a.path, c.path),
               CompareOption(a.line, b.line), CompareOption(b.line, c.line), CompareOption(a.line, c.line));
    ThenChains(ComparePath(a.path, b.path).Then(CompareOption(a.line, b.line)),
               ComparePath(b.path, c.path).Then(CompareOption(b.line, c.line)),
               ComparePath(a.path, c.path).Then(CompareOption(a.line, c.line)),
               CompareOption(a.column, b.column), CompareOption(b.column, c.column), CompareOption(a.column, c.column));
  }

  lemma OptionsChain(a: Option<nat>, b: Option<nat>, c: Option<nat>)
    ensures Chains(CompareOption(a, b), CompareOption(b, c), CompareOption(a, c))
    ensures CompareOption(b, a) == CompareOption(a, b).Flip()
  {
  }

  lemma MatchesAreOrdered()
    ensures TotalPreorder(Le)
  {
    hide CompareMatch;
    forall a, b ensures Le(a, b) || Le(b, a) {
      MatchesChain(a, b, a);
    }
    forall a, b, c | Le(a, b) && Le(b, c) ensures Le(a, c) {
      MatchesChain(a, b, c);
    }
  }

  // ---- and it is the one by path, line and column --------------------------------------------

  /** `a` is a proper beginning of `b`, or the first place where they differ decides. */
  ghost predicate Lexical<T>(a: seq<T>, b: seq<T>, below: (T, T) -> bool) {
    exists k: nat :: DecidedAt(a, b, below, k)
  }

  ghost predicate DecidedAt<T>(a: seq<T>, b: seq<T>, below: (T, T) -> bool, k: nat) {
    k <= |a| && k < |b| && a[..k] == b[..k] && (k < |a| ==> below(a[k], b[k]))
  }

  ghost predicate Decides<T(!new)>(compare: (T, T) -> Order, below: (T, T) -> bool) {
    forall x, y :: (compare(x, y).Same? <==> x == y) && (compare(x, y).Less? <==> below(x, y) && x != y)
  }

  lemma SameFront<T>(a: seq<T>, b: seq<T>, i: nat)
    requires i <= |a| && i <= |b| && a[..i] == b[..i]
    ensures forall j :: 0 <= j < i ==> a[j] == b[j]
  {
    assert forall j :: 0 <= j < i ==> a[j] == a[..i][j] && b[j] == b[..i][j];
  }

  lemma NotDecided<T(!new)>(a: seq<T>, b: seq<T>, below: (T, T) -> bool, i: nat)
    requires i <= |a| && i <= |b| && a[..i] == b[..i] && forall x :: !below(x, x)
    ensures Lexical(a, b, below) ==> i < |b| && exists k: nat :: i <= k && DecidedAt(a, b, below, k)
  {
    SameFront(a, b, i);
    if Lexical(a, b, below) {
      var k: nat :| DecidedAt(a, b, below, k);
    }
  }

  lemma {:induction false} SeqIsLexical<T(!new)>(a: seq<T>, b: seq<T>, compare: (T, T) -> Order, below: (T, T) -> bool, i: nat)
    requires Decides(compare, below) && forall x :: !below(x, x)
    requires i <= |a| && i <= |b| && a[..i] == b[..i]
    ensures CompareSeq(a, b, compare, i).Same? <==> a == b
    ensures CompareSeq(a, b, compare, i).Less? <==> Lexical(a, b, below)
    decreases |a| - i
  {
    hide Lexical, DecidedAt;
    if i == |a| || i == |b| {
      DecidedAtEnd(a, b, below, i);
    } else if a[i] == b[i] {
      assert a[..i + 1] == a[..i] + [a[i]] && b[..i + 1] == b[..i] + [b[i]];
      SeqIsLexical(a, b, compare, below, i + 1);
    } else {
      DecidedHere(a, b, below, i);
    }
  }

  lemma DecidedAtEnd<T(!new)>(a: seq<T>, b: seq<T>, below: (T, T) -> bool, i: nat)
    requires i <= |a| && i <= |b| && a[..i] == b[..i] && forall x :: !below(x, x)
    requires i == |a| || i == |b|
    ensures Lexical(a, b, below) <==> i < |b|
    ensures a == b <==> i == |a| && i == |b|
  {
    NotDecided(a, b, below, i);
    if i < |b| {
      assert DecidedAt(a, b, below, i);
    }
    assert a[..|a|] == a && b[..|b|] == b;
  }

  lemma DecidedHere<T(!new)>(a: seq<T>, b: seq<T>, below: (T, T) -> bool, i: nat)
    requires i < |a| && i < |b| && a[..i] == b[..i] && a[i] != b[i] && forall x :: !below(x, x)
    ensures Lexical(a, b, below) <==> below(a[i], b[i])
  {
    NotDecided(a, b, below, i);
    if below(a[i], b[i]) {
      assert DecidedAt(a, b, below, i);
    }
    if Lexical(a, b, below) {
      var k: nat :| i <= k && DecidedAt(a, b, below, k);
      SameFront(a, b, k);
    }
  }

  predicate CharBelow(x: char, y: char) { x as int < y as int }

  ghost predicate TextBelow(x: string, y: string) { Lexical(x, y, CharBelow) }

  lemma TextIsLexical()
    ensures Decides(CompareText, TextBelow) && forall x :: !TextBelow(x, x)
  {
    assert Decides(CompareChar, CharBelow);
    forall x, y {
      SeqIsLexical(x, y, CompareChar, CharBelow, 0);
    }
  }

  /** Absent comes first, then the smaller. */
  predicate Earlier(x: Option<nat>, y: Option<nat>) { y.Some? && (x.None? || x.value < y.value) }

  /** Results are listed by path, component by component, then by line, then by column. */
  lemma ListedByPathLineColumn(a: SearchMatch, b: SearchMatch)
    ensures Le(a, b) <==>
              Lexical(a.path, b.path, TextBelow) ||
              (a.path == b.path && (Earlier(a.line, b.line) || (a.line == b.line && (Earlier(a.column, b.column) || a.column == b.column))))
  {
    hide CompareSeq, CompareText, Lexical;
    TextIsLexical();
    SeqIsLexical(a.path, b.path, CompareText, TextBelow, 0);
  }

  // ---- results -------------------------------------------------------------------------------

  function Cap(found: seq<SearchMatch>): seq<SearchMatch> {
    if |found| <= TEXT_MATCH_LIMIT then found else found[..TEXT_MATCH_LIMIT]
  }

  /** The first `n` finds, but for those in excluded files. */
  function Included(found: seq<SearchMatch>, excluded: set<Path>, n: nat): (kept: seq<SearchMatch>)
    requires n <= |found|
  {
    if n == 0 then []
    else if found[n - 1].path in excluded then Included(found, excluded, n - 1)
    else Included(found, excluded, n - 1) + [found[n - 1]]
  }

  /** All that was found since the list was last replaced, in path order, up to the limit. */
  function Results(found: seq<SearchMatch>): seq<SearchMatch> { Sort(Cap(found), Le) }

  function Shown(results: nat): seq<nat> {
    seq(if results < VISIBLE_LIMIT then results else VISIBLE_LIMIT, i => i)
  }

  /** The results are the first 1000 finds, none lost or made up, in order, finds of one place as they came. */
  lemma ResultsAreTheFirst(found: seq<SearchMatch>)
    ensures Sorted(Results(found), Le)
    ensures var first := if |found| < 1000 then found else found[..1000];
            && multiset(Results(found)) == multiset(first) && |Results(found)| == |first|
            && forall x :: Alike(Results(found), x, Le) == Alike(first, x, Le)
  {
    hide *;
    ResultsSortCap(found);
    CapIsFirst(found);
    MatchesAreOrdered();
    SortSorts(Cap(found), Le);
    forall x {
      SortKeepsTies(Cap(found), Le, x);
    }
  }

  lemma ResultsCounted(found: seq<SearchMatch>)
    ensures |Results(found)| == |Cap(found)|
  {
    hide *;
    ResultsSortCap(found);
    MatchesAreOrdered();
    SortSorts(Cap(found), Le);
  }

  lemma ResultsSortCap(found: seq<SearchMatch>)
    ensures Results(found) == Sort(Cap(found), Le)
  {
  }

  lemma CapIsFirst(found: seq<SearchMatch>)
    ensures Cap(found) == if |found| < 1000 then found else found[..1000]
  {
    assert found[..|found|] == found;
  }

  /** Of those the first 200 are visible, in the same order. */
  lemma ShownAreTheFirst(results: nat)
    ensures |Shown(results)| == if results < 200 then results else 200
    ensures forall i :: 0 <= i < |Shown(results)| ==> Shown(results)[i] == i
  {
  }

  /** A find is left out exactly when its file is excluded, and the others keep their order. */
  lemma {:induction false} IncludedOneByOne(a: seq<SearchMatch>, b: seq<SearchMatch>, excluded: set<Path>, n: nat)
    requires n <= |b|
    ensures Included(a + b, excluded, |a| + n) == Included(a, excluded, |a|) + Included(b, excluded, n)
    ensures n == 1 ==> Included(b, excluded, n) == if b[0].path in excluded then [] else [b[0]]
  {
    if n > 0 {
      IncludedOneByOne(a, b, excluded, n - 1);
      assert (a + b)[|a| + n - 1] == b[n - 1];
    } else {
      IncludedFront(a, b, excluded, |a|);
    }
  }

  lemma {:induction false} IncludedFront(a: seq<SearchMatch>, b: seq<SearchMatch>, excluded: set<Path>, n: nat)
    requires n <= |a|
    ensures Included(a + b, excluded, n) == Included(a, excluded, n)
  {
    if n > 0 {
      IncludedFront(a, b, excluded, n - 1);
    }
  }

  /** Sorting again with more behind sorts everything at once: equal finds stay in order of arrival. */
  lemma {:induction false} SortingResumes<T(!new)>(a: seq<T>, b: seq<T>, le: (T, T) -> bool)
    requires TotalPreorder(le)
    ensures Sort(Sort(a, le) + b, le) == Sort(a + b, le)
    decreases |b|
  {
    if b == [] {
      SortSorts(a, le);
      SortAlready(Sort(a, le), le);
      assert Sort(a, le) + b == Sort(a, le) && a + b == a;
    } else {
      var front, last := b[..|b| - 1], b[|b| - 1];
      SortingResumes(a, front, le);
      assert Sort(a, le) + b == Sort(a, le) + front + [last] && a + b == a + front + [last];
      SortStep(Sort(a, le) + front, last, le);
      SortStep(a + front, last, le);
    }
  }

  /** What still fits of `more`. */
  function Fitting(found: seq<SearchMatch>, more: seq<SearchMatch>): seq<SearchMatch> {
    if |found| >= TEXT_MATCH_LIMIT then []
    else if |more| <= TEXT_MATCH_LIMIT - |found| then more
    else more[..TEXT_MATCH_LIMIT - |found|]
  }

  /** A batch on top of what is shown gives what all finds together would. */
  lemma BatchesAddUp(found: seq<SearchMatch>, more: seq<SearchMatch>)
    ensures Sort(Results(found) + Fitting(found, more), Le) == Results(found + more)
  {
    MatchesAreOrdered();
    SortingResumes(Cap(found), Fitting(found, more), Le);
    assert Cap(found) + Fitting(found, more) == Cap(found + more);
  }

  /** A place in a list of `n`, moved back into it when it lies behind. */
  function Clamped(place: nat, n: nat): nat { if place < n then place else if n == 0 then 0 else n - 1 }

  /** That is the nearest place there is. */
  lemma ClampedIsNearest(place: nat, n: nat, other: nat)
    requires other < n
    ensures var c := Clamped(place, n);
            c < n && (if c < place then place - c else c - place) <= (if other < place then place - other else other - place)
  {
  }

  class SearchOverlay {
    var matches: seq<SearchMatch>
    var visible: seq<nat>
    var selected: nat
    var excludedPaths: set<Path>
    /** What was put in place at the last replacement, then every find outside the excluded files since. */
    ghost var found: seq<SearchMatch>

    ghost predicate Valid()
      reads this
    {
      && matches == Results(found)
      && visible == Shown(|matches|)
      && (visible != [] ==> selected < |visible|)
      && (visible == [] ==> selected == 0)
    }

    constructor ()
      ensures Valid() && found == [] && excludedPaths == {}
    {
      matches, visible, selected, excludedPaths, found := [], [], 0, {}, [];
    }

    method MoveDown()
      requires Valid()
      modifies this`selected
      ensures Valid()
      ensures visible != [] ==> selected == if old(selected) == |visible| - 1 then 0 else old(selected) + 1
    {
      hide Results, Shown;
      if visible != [] {
        Around(selected, |visible|);
        selected := (selected + 1) % |visible|;
      }
    }

    method MoveUp()
      requires Valid()
      modifies this`selected
      ensures Valid()
      ensures visible != [] ==> selected == if old(selected) == 0 then |visible| - 1 else old(selected) - 1
    {
      hide Results, Shown;
      if visible != [] {
        Around(selected, |visible|);
        selected := (selected + |visible| - 1) % |visible|;
      }
    }

    /** The selected result: there is one whenever anything is shown. */
    method Selected() returns (selection: Option<SearchMatch>)
      requires Valid()
      ensures selection.None? <==> found == []
      ensures selection.Some? ==> selected < |Results(found)| && selection.value == Results(found)[selected]
    {
      hide Results, Cap;
      ResultsCounted(found);
      CapIsEmpty(found);
      if selected < |visible| {
        return Some(matches[visible[selected]]);
      }
      selection := None;
    }

    method ReplaceResults(results: seq<SearchMatch>)
      modifies this`matches, this`visible, this`selected, this`found
      ensures Valid() && found == results && selected == Clamped(old(selected), |visible|)
    {
      hide Results, CompareMatch;
      matches := results[..if |results| < TEXT_MATCH_LIMIT then |results| else TEXT_MATCH_LIMIT];
      found := results;
      CapTakes(results);
      Refilter();
    }

    method AppendResults(results: seq<SearchMatch>)
      requires Valid()
      modifies this`matches, this`visible, this`selected, this`found
      ensures Valid() && found == old(found) + Included(results, excludedPaths, |results|)
      ensures selected == old(selected)
    {
      hide Results, CompareMatch, Cap, Sort;
      ResultsCounted(found);
      var remaining := if TEXT_MATCH_LIMIT < |matches| then 0 else TEXT_MATCH_LIMIT - |matches|;
      var taken := [];
      for i := 0 to |results|
        invariant taken == Fit(Included(results, excludedPaths, i), remaining)
      {
        if results[i].path !in excludedPaths && |taken| < remaining {
          taken := taken + [results[i]];
        }
      }
      ghost var more := Included(results, excludedPaths, |results|);
      FitsTheRest(found, more);
      BatchesAddUp(found, more);
      CapGrows(found, more);
      matches := matches + taken;
      found := found + more;
      ResultsCounted(found);
      Refilter();
    }

    method SetLiveResults(live: seq<SearchMatch>, paths: set<Path>)
      modifies this
      ensures Valid() && found == live && excludedPaths == paths && selected == Clamped(old(selected), |visible|)
    {
      excludedPaths := paths;
      ReplaceResults(live);
    }

    method Refilter()
      modifies this`matches, this`visible, this`selected
      ensures matches == Sort(old(matches), Le) && visible == Shown(|matches|)
      ensures selected == Clamped(old(selected), |visible|)
    {
      matches := Sort(matches, Le);
      visible := Shown(|matches|);
      if selected >= |visible| {
        selected := if |visible| == 0 then 0 else |visible| - 1;
      }
    }
  }

  function Fit(more: seq<SearchMatch>, room: nat): seq<SearchMatch> { if |more| <= room then more else more[..room] }

  lemma FitsTheRest(found: seq<SearchMatch>, more: seq<SearchMatch>)
    ensures Fitting(found, more) == Fit(more, if TEXT_MATCH_LIMIT < |Cap(found)| then 0 else TEXT_MATCH_LIMIT - |Cap(found)|)
  {
  }

  lemma CapTakes(found: seq<SearchMatch>)
    ensures Cap(found) == found[..if |found| < TEXT_MATCH_LIMIT then |found| else TEXT_MATCH_LIMIT]
    ensures Sort(Cap(found), Le) == Results(found)
  {
  }

  lemma CapIsEmpty(found: seq<SearchMatch>)
    ensures |Cap(found)| == 0 <==> found == []
  {
  }

  lemma CapGrows(found: seq<SearchMatch>, more: seq<SearchMatch>)
    ensures |Cap(found)| <= |Cap(found + more)|
  {
  }

  lemma TimesIsMonotone(x: int, y: int, n: nat)
    ensures x <= y ==> x * n <= y * n
  {
  }

  lemma OnceAround(i: nat, n: nat)
    requires i < n
    ensures i % n == i && (i + n) % n == i
  {
    var q := (i + n) / n;
    TimesIsMonotone(2, q, n);
    TimesIsMonotone(q, 0, n);
    assert q * n <= i + n < q * n + n;
  }

  /** Counting around `n` places. */
  lemma Around(i: nat, n: nat)
    requires i < n
    ensures (i + 1) % n == if i == n - 1 then 0 else i + 1
    ensures (i + n - 1) % n == if i == 0 then n - 1 else i - 1
  {
    if i == n - 1 {
      OnceAround(0, n);
    } else {
      OnceAround(i + 1, n);
    }
    if i == 0 {
      OnceAround(n - 1, n);
    } else {
      OnceAround(i - 1, n);
      assert i + n - 1 == (i - 1) + n;
    }
  }
}
