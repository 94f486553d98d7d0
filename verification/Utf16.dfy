/** Char offsets as protocol positions, counted in UTF-16 code units within a line (RFC 2781, section 2). */
module Utf16 {

  const WORD: nat := 0x1_0000_0000

  function Units(c: char): (n: nat)
    ensures 1 <= n <= 2
  {
    if c as int < 0x1_0000 then 1 else 2
  }

  /** Code units of the chars from `from` up to `to`. */
  function Width(text: string, from: nat, to: nat): nat
    requires from <= to <= |text|
  {
    if from == to then 0 else Width(text, from, to - 1) + Units(text[to - 1])
  }

  /** Line breaks before `offset`: the line it is on. */
  function LineAt(text: string, offset: nat): nat
    requires offset <= |text|
  {
    if offset == 0 then 0 else LineAt(text, offset - 1) + if text[offset - 1] == '\n' then 1 else 0
  }

  /** The first offset behind the next `breaks` line breaks, or the end. */
  function StartFrom(text: string, breaks: nat, i: nat): (start: nat)
    requires i <= |text|
    ensures i <= start <= |text|
    decreases |text| - i
  {
    if breaks == 0 then i
    else if i == |text| then i
    else StartFrom(text, if text[i] == '\n' then breaks - 1 else breaks, i + 1)
  }

  function LineStart(text: string, line: nat): nat { StartFrom(text, line, 0) }

  function LineCount(text: string): nat { LineAt(text, |text|) + 1 }

  /** Where a line's content ends: at its line break, if it has one. */
  function LineEnd(text: string, line: nat): (end: nat)
    ensures end <= |text|
  {
    var start, next := LineStart(text, line), LineStart(text, line + 1);
    if start < next && text[next - 1] == '\n' then next - 1 else next
  }

  /** The char holding code unit `units` of the chars from `i` up to `end`. */
  function CharFrom(text: string, i: nat, end: nat, units: nat): (at: nat)
    requires i <= end <= |text|
    ensures i <= at <= end
    decreases end - i
  {
    if i == end || units < Units(text[i]) then i else CharFrom(text, i + 1, end, units - Units(text[i]))
  }

  datatype Position = Position(line: nat, character: nat)
  {
    predicate Before(other: Position) {
      line < other.line || (line == other.line && character < other.character)
    }
  }

  /** Before it is cut to 32 bits. */
  function FullPosition(text: string, offset: nat): Position {
    var at := if offset < |text| then offset else |text|;
    var line := LineAt(text, at);
    StartsBefore(text, at);
    Position(line, Width(text, LineStart(text, line), at))
  }

  function Utf16Position(text: string, offset: nat): Position {
    var full := FullPosition(text, offset);
    Position(full.line % WORD, full.character % WORD)
  }

  function OffsetFromUtf16(text: string, line: nat, character: nat): (offset: nat)
    ensures offset <= |text|
  {
    if line >= LineCount(text) then |text|
    else
      var start, end := LineStart(text, line), LineEnd(text, line);
      LineSpan(text, line);
      var width := Width(text, start, end);
      CharFrom(text, start, end, if character < width then character else width)
  }

  // ---- lines ---------------------------------------------------------------------------------

  /** Line breaks from `i` up to `to`. */
  lemma {:induction false} LineAtGrows(text: string, i: nat, to: nat)
    requires i <= to <= |text|
    ensures LineAt(text, i) <= LineAt(text, to)
  {
    if i < to {
      LineAtGrows(text, i, to - 1);
    }
  }

  /** Where the search stops: on the wanted line, just behind its opening break. */
  lemma {:induction false} StartFromLands(text: string, breaks: nat, i: nat)
    requires i <= |text|
    ensures var start := StartFrom(text, breaks, i);
            if LineAt(text, i) + breaks <= LineAt(text, |text|)
            then LineAt(text, start) == LineAt(text, i) + breaks && (start > i ==> text[start - 1] == '\n') &&
                 (breaks > 0 ==> start > i)
            else start == |text|
    decreases |text| - i
  {
    if breaks > 0 && i < |text| {
      StartFromLands(text, if text[i] == '\n' then breaks - 1 else breaks, i + 1);
    } else {
      LineAtGrows(text, i, |text|);
    }
  }

  /** Every offset is at or behind the start of its line. */
  lemma StartsBefore(text: string, offset: nat)
    requires offset <= |text|
    ensures LineStart(text, LineAt(text, offset)) <= offset
  {
    var line := LineAt(text, offset);
    var start := LineStart(text, line);
    LineAtGrows(text, offset, |text|);
    StartFromLands(text, line, 0);
    if offset < start {
      LineAtGrows(text, offset, start - 1);
    }
  }

  /** The offsets on a line are those from its start to its content's end. */
  lemma LineSpan(text: string, line: nat)
    requires line < LineCount(text)
    ensures LineStart(text, line) <= LineEnd(text, line)
    ensures forall o :: 0 <= o <= |text| ==>
              (LineAt(text, o) == line <==> LineStart(text, line) <= o <= LineEnd(text, line))
  {
    var start, end := LineStart(text, line), LineEnd(text, line);
    StartFromLands(text, line, 0);
    StartFromLands(text, line + 1, 0);
    EndsOnLine(text, line);
    forall o | 0 <= o <= |text| ensures LineAt(text, o) == line <==> start <= o <= end {
      if o < start {
        LineAtGrows(text, o, start - 1);
      } else if o <= end {
        LineAtGrows(text, start, o);
        LineAtGrows(text, o, end);
      } else {
        LineAtGrows(text, end + 1, o);
      }
    }
  }

  /** A line's content ends on that line, at the document's end or just before a break. */
  lemma EndsOnLine(text: string, line: nat)
    requires line < LineCount(text)
    ensures var end := LineEnd(text, line);
            LineStart(text, line) <= end && LineAt(text, end) == line && (end < |text| ==> text[end] == '\n')
  {
    var start, next := LineStart(text, line), LineStart(text, line + 1);
    StartFromLands(text, line, 0);
    StartFromLands(text, line + 1, 0);
    if next < start {
      LineAtGrows(text, next, start);
    }
    if line + 1 < LineCount(text) {
      assert next > 0 && text[next - 1] == '\n' && LineAt(text, next - 1) == line;
      if next <= start {
        LineAtGrows(text, next, start);
      }
    } else if start < next && text[next - 1] == '\n' {
      LineAtGrows(text, start, next - 1);
    }
  }

  // ---- code units ----------------------------------------------------------------------------

  lemma {:induction false} WidthSplits(text: string, from: nat, middle: nat, to: nat)
    requires from <= middle <= to <= |text|
    ensures Width(text, from, to) == Width(text, from, middle) + Width(text, middle, to)
    ensures Width(text, middle, to) >= to - middle
  {
    if middle < to {
      WidthSplits(text, from, middle, to - 1);
    }
  }

  /** The char found is the last one at or before `units`. */
  lemma {:induction false} CharFromIsLast(text: string, i: nat, end: nat, units: nat)
    requires i <= end <= |text|
    ensures var at := CharFrom(text, i, end, units);
            Width(text, i, at) <= units && (at < end ==> units < Width(text, i, at + 1))
    decreases end - i
  {
    if i < end {
      WidthSplits(text, i, i, i + 1);
      if units >= Units(text[i]) {
        CharFromIsLast(text, i + 1, end, units - Units(text[i]));
        var at := CharFrom(text, i, end, units);
        WidthSplits(text, i, i + 1, at);
        if at < end {
          WidthSplits(text, i, i + 1, at + 1);
        }
      }
    }
  }

  /** What a position means: the greatest offset on that line not past it, however far out it is; past the last
      line, the document's end. */
  lemma PositionsClamp(text: string, line: nat, character: nat, o: nat)
    requires o <= |text|
    ensures var r := OffsetFromUtf16(text, line, character);
            if line < LineCount(text)
            then && LineAt(text, r) == line && LineStart(text, line) <= r
                 && Width(text, LineStart(text, line), r) <= character
                 && (r < o && LineAt(text, o) == line ==> character < FullPosition(text, o).character)
            else r == |text|
  {
    if line < LineCount(text) {
      LineSpan(text, line);
      var start, end := LineStart(text, line), LineEnd(text, line);
      var r := OffsetFromUtf16(text, line, character);
      var width := Width(text, start, end);
      CharFromIsLast(text, start, end, if character < width then character else width);
      if LineAt(text, o) == line && r < o {
        WidthSplits(text, start, r + 1, o);
        WidthSplits(text, start, o, end);
      }
    }
  }

  /** The full position of an offset leads back to it. */
  lemma FullRoundTrip(text: string, offset: nat)
    requires offset <= |text|
    ensures var p := FullPosition(text, offset); OffsetFromUtf16(text, p.line, p.character) == offset
  {
    var p := FullPosition(text, offset);
    StartsBefore(text, offset);
    LineAtGrows(text, offset, |text|);
    var r := OffsetFromUtf16(text, p.line, p.character);
    PositionsClamp(text, p.line, p.character, offset);
    if r > offset {
      WidthSplits(text, LineStart(text, p.line), offset, r);
    }
  }

  /** Positions rise with offsets. */
  lemma PositionsRise(text: string, a: nat, b: nat)
    requires a < b <= |text|
    ensures FullPosition(text, a).Before(FullPosition(text, b))
  {
    LineAtGrows(text, a, b);
    StartsBefore(text, a);
    if LineAt(text, a) == LineAt(text, b) {
      WidthSplits(text, LineStart(text, LineAt(text, a)), a, b);
    }
  }

  predicate Fits(p: Position) { p.line < 0x1_0000_0000 && p.character < 0x1_0000_0000 }

  /** Positions that fit 32 bits rise too. */
  lemma Utf16PositionsRise(text: string, a: nat, b: nat)
    requires a < b <= |text| && Fits(FullPosition(text, a)) && Fits(FullPosition(text, b))
    ensures Utf16Position(text, a).Before(Utf16Position(text, b))
  {
    hide FullPosition;
    PositionsRise(text, a, b);
    Cut(FullPosition(text, a));
    Cut(FullPosition(text, b));
  }

  lemma Cut(p: Position)
    ensures p.line % WORD <= p.line && p.character % WORD <= p.character
    ensures Fits(p) <==> p.line % WORD == p.line && p.character % WORD == p.character
  {
  }

  /** Positions order what they lead to: a position before that of `offset` leads short of it. */
  lemma LowerLeadsLower(text: string, offset: nat, p: Position)
    requires offset <= |text| && p.Before(FullPosition(text, offset))
    ensures OffsetFromUtf16(text, p.line, p.character) < offset
  {
    var full := FullPosition(text, offset);
    StartsBefore(text, offset);
    LineAtGrows(text, offset, |text|);
    PositionsClamp(text, p.line, p.character, offset);
    var r := OffsetFromUtf16(text, p.line, p.character);
    if r >= offset {
      LineAtGrows(text, offset, r);
      WidthSplits(text, LineStart(text, full.line), offset, r);
    }
  }

  /** An offset comes back from its protocol position exactly when line and column fit 32 bits. */
  lemma Utf16RoundTrip(text: string, offset: nat)
    requires offset <= |text|
    ensures var p := Utf16Position(text, offset);
            OffsetFromUtf16(text, p.line, p.character) == offset <==> Fits(FullPosition(text, offset))
  {
    hide FullPosition, OffsetFromUtf16;
    var full := FullPosition(text, offset);
    Cut(full);
    if Fits(full) {
      FullRoundTrip(text, offset);
    } else {
      LowerLeadsLower(text, offset, Utf16Position(text, offset));
    }
  }

  /** Text of fewer than 2^31 chars always fits. */
  lemma ShortTextFits(text: string, offset: nat)
    requires |text| < 0x8000_0000
    ensures Fits(FullPosition(text, offset))
  {
    var at := if offset < |text| then offset else |text|;
    StartsBefore(text, at);
    FewBreaks(text, at);
    NarrowEnough(text, LineStart(text, LineAt(text, at)), at);
  }

  lemma {:induction false} FewBreaks(text: string, offset: nat)
    requires offset <= |text|
    ensures LineAt(text, offset) <= offset
  {
    if offset > 0 {
      FewBreaks(text, offset - 1);
    }
  }

  lemma {:induction false} NarrowEnough(text: string, from: nat, to: nat)
    requires from <= to <= |text|
    ensures Width(text, from, to) <= 2 * (to - from)
  {
    if from < to {
      NarrowEnough(text, from, to - 1);
    }
  }

  // ---- against the encoding ------------------------------------------------------------------

  /** A char's code units: itself, or a high and a low surrogate. */
  function Encoded(c: char): (units: seq<nat>)
    ensures |units| == 1 <==> (c as int) < 0x1_0000
  {
    var code := c as int;
    if code < 0x1_0000 then [code] else [0xD800 + (code - 0x1_0000) / 0x400, 0xDC00 + (code - 0x1_0000) % 0x400]
  }

  function EncodedText(text: string): seq<nat> {
    if text == "" then [] else Encoded(text[0]) + EncodedText(text[1..])
  }

  predicate IsHigh(unit: nat) { 0xD800 <= unit < 0xDC00 }

  predicate IsLow(unit: nat) { 0xDC00 <= unit < 0xE000 }

  /** The first char that code units stand for, and how many of them; what stands for none is replaced. */
  function FirstChar(units: seq<nat>): (char, nat)
    requires units != []
  {
    if IsHigh(units[0]) && |units| > 1 && IsLow(units[1])
    then ((0x1_0000 + (units[0] - 0xD800) * 0x400 + (units[1] - 0xDC00)) as char, 2)
    else if !IsHigh(units[0]) && !IsLow(units[0]) && units[0] < 0x1_0000 then (units[0] as char, 1)
    else ('\U{FFFD}', 1)
  }

  function Decoded(units: seq<nat>): string {
    if units == [] then "" else [FirstChar(units).0] + Decoded(units[FirstChar(units).1..])
  }

  /** Units tell chars apart: no surrogate stands for a char by itself, and a pair stands for the char it was made
      of, whatever follows. */
  lemma FirstCharDecodes(c: char, rest: seq<nat>)
    ensures Encoded(c) + rest != [] && FirstChar(Encoded(c) + rest) == (c, |Encoded(c)|)
    ensures forall u :: u in Encoded(c) ==> u < 0x1_0000
    ensures |Encoded(c)| == 2 ==> IsHigh(Encoded(c)[0]) && IsLow(Encoded(c)[1])
  {
    var code, units := c as int, Encoded(c) + rest;
    if code >= 0x1_0000 {
      var over := code - 0x1_0000;
      assert units[0] == 0xD800 + over / 0x400 && units[1] == 0xDC00 + over % 0x400;
      assert over / 0x400 < 0x400 && over / 0x400 * 0x400 + over % 0x400 == over;
    }
  }

  lemma {:induction false} DecodingGivesText(text: string)
    ensures Decoded(EncodedText(text)) == text
  {
    hide FirstChar, Encoded;
    if text != "" {
      var rest := EncodedText(text[1..]);
      FirstCharDecodes(text[0], rest);
      assert (Encoded(text[0]) + rest)[|Encoded(text[0])|..] == rest;
      DecodingGivesText(text[1..]);
    }
  }

  lemma {:induction false} EncodedAppends(text: string, c: char)
    ensures EncodedText(text + [c]) == EncodedText(text) + Encoded(c)
  {
    hide Encoded;
    if text == "" {
      assert [c][1..] == "" && text + [c] == [c] && EncodedText([c]) == Encoded(c) + [];
    } else {
      assert (text + [c])[0] == text[0] && (text + [c])[1..] == text[1..] + [c];
      EncodedAppends(text[1..], c);
    }
  }

  /** The width of a stretch of text is the number of its code units. */
  lemma {:induction false} WidthIsEncoded(text: string, from: nat, to: nat)
    requires from <= to <= |text|
    ensures Width(text, from, to) == |EncodedText(text[from..to])|
  {
    hide Encoded, EncodedText;
    NothingEncoded();
    if from < to {
      WidthIsEncoded(text, from, to - 1);
      UnitsAreEncoded(text[to - 1]);
      assert text[from..to] == text[from..to - 1] + [text[to - 1]];
      EncodedAppends(text[from..to - 1], text[to - 1]);
    } else {
      assert text[from..to] == "";
    }
  }

  lemma NothingEncoded()
    ensures EncodedText("") == []
  {
  }

  lemma UnitsAreEncoded(c: char)
    ensures Units(c) == |Encoded(c)|
  {
  }

  lemma {:induction false} LinesAreBreaks(text: string, offset: nat)
    requires offset <= |text|
    ensures LineAt(text, offset) == multiset(text[..offset])['\n']
  {
    if offset > 0 {
      LinesAreBreaks(text, offset - 1);
      assert text[..offset] == text[..offset - 1] + [text[offset - 1]];
    }
  }

  /** A position says how many line breaks come before the offset and how many code units of its line. */
  lemma PositionCounts(text: string, offset: nat)
    requires offset <= |text|
    ensures var p := FullPosition(text, offset);
            && p.line == multiset(text[..offset])['\n']
            && exists start: nat :: start <= offset && (start == 0 || text[start - 1] == '\n')
                 && '\n' !in text[start..offset] && p.character == |EncodedText(text[start..offset])|
  {
    hide EncodedText;
    var line := LineAt(text, offset);
    var start := LineStart(text, line);
    LinesAreBreaks(text, offset);
    StartsBefore(text, offset);
    WidthIsEncoded(text, start, offset);
    LineAtGrows(text, offset, |text|);
    StartFromLands(text, line, 0);
    forall i | start <= i < offset
      ensures text[i] != '\n'
    {
      LineAtGrows(text, start, i);
      LineAtGrows(text, i + 1, offset);
    }
  }
}
