/** Text as lines, each keeping its line break, and the char offsets where lines start. */
module Lines {

  /** Chars up to and including the first line break, or the whole text. */
  function LineLen(text: string): (n: nat)
    requires text != ""
    ensures 1 <= n <= |text|
  {
    if text[0] == '\n' || |text| == 1 then 1 else 1 + LineLen(text[1..])
  }

  function SplitLines(text: string): seq<string> {
    if text == "" then [] else [text[..LineLen(text)]] + SplitLines(text[LineLen(text)..])
  }

  function Concat(lines: seq<string>): string {
    if lines == [] then "" else lines[0] + Concat(lines[1..])
  }

  /** Chars in the first `k` lines. */
  function Offset(lines: seq<string>, k: nat): nat
    requires k <= |lines|
  {
    if k == 0 then 0 else Offset(lines, k - 1) + |lines[k - 1]|
  }

  lemma {:induction false} ConcatSplit(text: string)
    ensures Concat(SplitLines(text)) == text
    decreases |text|
  {
    if text != "" {
      var n := LineLen(text);
      ConcatSplit(text[n..]);
      var lines := SplitLines(text);
      assert lines[0] == text[..n] && lines[1..] == SplitLines(text[n..]);
    }
  }

  lemma {:induction false} ConcatAppend(a: seq<string>, b: seq<string>)
    ensures Concat(a + b) == Concat(a) + Concat(b)
  {
    if a == [] {
      assert a + b == b;
    } else {
      ConcatAppend(a[1..], b);
      assert (a + b)[0] == a[0] && (a + b)[1..] == a[1..] + b;
      JoinAssoc(a[0], Concat(a[1..]), Concat(b));
    }
  }

  lemma JoinAssoc(x: string, y: string, z: string)
    ensures x + (y + z) == (x + y) + z
  {
  }

  lemma {:induction false} OffsetIsLength(lines: seq<string>, k: nat)
    requires k <= |lines|
    ensures Offset(lines, k) == |Concat(lines[..k])|
  {
    if k > 0 {
      OffsetIsLength(lines, k - 1);
      assert lines[..k] == lines[..k - 1] + [lines[k - 1]];
      ConcatAppend(lines[..k - 1], [lines[k - 1]]);
      assert [lines[k - 1]][1..] == [];
    }
  }

  /** The text between two line starts is those lines. */
  lemma LinesBetween(lines: seq<string>, a: nat, b: nat)
    requires a <= b <= |lines|
    ensures Offset(lines, a) <= Offset(lines, b) <= |Concat(lines)|
    ensures Concat(lines)[Offset(lines, a)..Offset(lines, b)] == Concat(lines[a..b])
  {
    hide Concat, Offset;
    OffsetIsLength(lines, a);
    OffsetIsLength(lines, b);
    assert lines == lines[..b] + lines[b..] && lines[..b] == lines[..a] + lines[a..b];
    ConcatAppend(lines[..b], lines[b..]);
    ConcatAppend(lines[..a], lines[a..b]);
    MiddleOf(Concat(lines[..a]), Concat(lines[a..b]), Concat(lines[b..]));
  }

  lemma MiddleOf(x: string, y: string, z: string)
    ensures ((x + y) + z)[|x|..|x + y|] == y
  {
  }

  lemma ConcatFrom(lines: seq<string>, a: nat, b: nat)
    requires a <= b <= |lines|
    ensures Concat(lines[a..]) == Concat(lines[a..b]) + Concat(lines[b..])
  {
    assert lines[a..] == lines[a..b] + lines[b..];
    ConcatAppend(lines[a..b], lines[b..]);
  }

  /** No line is empty, and a line break ends every line but perhaps the last, and stands nowhere else. */
  ghost predicate AreLines(lines: seq<string>) {
    && (forall k :: 0 <= k < |lines| ==> lines[k] != "")
    && (forall k, j :: 0 <= k < |lines| && 0 <= j < |lines[k]| - 1 ==> lines[k][j] != '\n')
    && (forall k :: 0 <= k < |lines| - 1 ==> lines[k][|lines[k]| - 1] == '\n')
  }

  lemma {:induction false} LineEnds(text: string)
    requires text != ""
    ensures var n := LineLen(text);
            && (forall j :: 0 <= j < n - 1 ==> text[j] != '\n')
            && (text[n - 1] == '\n' || n == |text|)
    decreases |text|
  {
    if text[0] != '\n' && |text| > 1 {
      LineEnds(text[1..]);
      assert forall j :: 0 < j < |text| ==> text[j] == text[1..][j - 1];
    }
  }

  lemma {:induction false} OneLineEnd(text: string, n: nat)
    requires 1 <= n <= |text| && (text[n - 1] == '\n' || n == |text|)
    requires forall j :: 0 <= j < n - 1 ==> text[j] != '\n'
    ensures LineLen(text) == n
    decreases |text|
  {
    if n > 1 {
      assert text[0] != '\n';
      assert text[1..][n - 2] == text[n - 1];
      OneLineEnd(text[1..], n - 1);
    }
  }

  lemma {:induction false} SplitsIntoLines(text: string)
    ensures AreLines(SplitLines(text))
    decreases |text|
  {
    if text != "" {
      hide LineLen;
      var n := LineLen(text);
      LineEnds(text);
      SplitsIntoLines(text[n..]);
      LinesCons(text[..n], SplitLines(text[n..]));
    }
  }

  lemma LinesCons(line: string, rest: seq<string>)
    requires AreLines(rest) && line != "" && forall j :: 0 <= j < |line| - 1 ==> line[j] != '\n'
    requires rest == [] || line[|line| - 1] == '\n'
    ensures AreLines([line] + rest)
  {
    var lines := [line] + rest;
    assert forall k :: 0 < k < |lines| ==> lines[k] == rest[k - 1];
  }

  /** There is only one way to read a text as lines. */
  lemma {:induction false} LinesAreSplit(lines: seq<string>)
    requires AreLines(lines)
    ensures SplitLines(Concat(lines)) == lines
    decreases |lines|
  {
    if lines != [] {
      hide LineLen, AreLines, Concat;
      var line, rest := lines[0], lines[1..];
      LinesTail(lines);
      LinesAreSplit(rest);
      ConcatCons(line, rest);
      var text := line + Concat(rest);
      assert text[..|line|] == line && text[|line|..] == Concat(rest);
      FirstLineEnds(line, rest);
      assert lines == [line] + rest;
    }
  }

  lemma LinesTail(lines: seq<string>)
    requires AreLines(lines) && lines != []
    ensures AreLines(lines[1..]) && lines[0] != "" && forall j :: 0 <= j < |lines[0]| - 1 ==> lines[0][j] != '\n'
    ensures lines[1..] == [] || lines[0][|lines[0]| - 1] == '\n'
  {
  }

  lemma ConcatCons(line: string, rest: seq<string>)
    ensures Concat([line] + rest) == line + Concat(rest)
  {
    assert ([line] + rest)[1..] == rest;
  }

  lemma FirstLineEnds(line: string, rest: seq<string>)
    requires line != "" && forall j :: 0 <= j < |line| - 1 ==> line[j] != '\n'
    requires rest == [] || line[|line| - 1] == '\n'
    ensures LineLen(line + Concat(rest)) == |line|
  {
    hide LineLen, Concat;
    if rest == [] {
      NoLines();
    }
    OneLineEnd(line + Concat(rest), |line|);
  }

  lemma NoLines()
    ensures Concat([]) == ""
  {
  }

  lemma OffsetSteps(lines: seq<string>, i: nat)
    ensures Offset(lines, 0) == 0
    ensures i < |lines| ==> Offset(lines, i + 1) == Offset(lines, i) + |lines[i]|
  {
  }

  /** The start of every line, and the end of the text last. */
  method LineOffsets(text: string) returns (offsets: seq<nat>)
    ensures var lines := SplitLines(text);
            && |offsets| == |lines| + 1
            && forall k :: 0 <= k <= |lines| ==> offsets[k] == Offset(lines, k)
  {
    hide *;
    var lines := SplitLines(text);
    OffsetSteps(lines, 0);
    offsets := [];
    var acc, i := 0, 0;
    while i < |lines|
      invariant 0 <= i <= |lines| && acc == Offset(lines, i)
      invariant |offsets| == i && forall k :: 0 <= k < i ==> offsets[k] == Offset(lines, k)
    {
      OffsetSteps(lines, i);
      offsets := offsets + [acc];
      acc := acc + |lines[i]|;
      i := i + 1;
    }
    offsets := offsets + [acc];
  }
}
