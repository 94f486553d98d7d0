/** The chord grammar of a keymap file, and its printer. */
module Keymap {
  import opened Options
  import opened Decimals

  type byte = n: nat | n < 256

  datatype Key =
    | Char(c: char)
    | Enter | Esc | Tab | BackTab | Backspace | Delete
    | Up | Down | Left | Right | Home | End | PageUp | PageDown
    | F(n: byte)

  datatype Mods = Mods(ctrl: bool, alt: bool, shift: bool)

  const NO_MODS := Mods(false, false, false)

  datatype Chord = Chord(key: Key, mods: Mods)

  datatype ChordError = NoKey(text: string) | UnknownModifier(part: string) | UnknownKey(name: string)

  function Lower(c: char): char {
    if 'A' <= c <= 'Z' then (c as int + 32) as char else c
  }

  function LowerAll(text: string): string {
    if text == "" then "" else [Lower(text[0])] + LowerAll(text[1..])
  }

  /** The pieces between plus signs. */
  function Split(text: string): (parts: seq<string>)
    ensures parts != []
    decreases |text|
  {
    var i := PlusFrom(text, 0);
    if i == |text| then [text] else [text[..i]] + Split(text[i + 1..])
  }

  function PlusFrom(text: string, from: nat): (i: nat)
    requires from <= |text|
    ensures from <= i <= |text| && (i < |text| ==> text[i] == '+') && forall j :: from <= j < i ==> text[j] != '+'
    decreases |text| - from
  {
    if from == |text| || text[from] == '+' then from else PlusFrom(text, from + 1)
  }

  /** An 8-bit number in digits, with or without a plus sign in front. */
  function ParseByte(text: string): Option<byte> {
    var digits := if |text| > 1 && text[0] == '+' then text[1..] else text;
    if Numeral(digits) && Value(digits) < 256 then Some(Value(digits)) else None
  }

  function Named(lower: string): Option<Key> {
    if lower == "enter" then Some(Enter)
    else if lower == "esc" || lower == "escape" then Some(Esc)
    else if lower == "tab" then Some(Tab)
    else if lower == "backtab" then Some(BackTab)
    else if lower == "backspace" then Some(Backspace)
    else if lower == "delete" || lower == "del" then Some(Delete)
    else if lower == "up" then Some(Up)
    else if lower == "down" then Some(Down)
    else if lower == "left" then Some(Left)
    else if lower == "right" then Some(Right)
    else if lower == "home" then Some(Home)
    else if lower == "end" then Some(End)
    else if lower == "pageup" then Some(PageUp)
    else if lower == "pagedown" then Some(PageDown)
    else if lower == "space" then Some(Char(' '))
    else None
  }

  function Function(lower: string): Option<byte> {
    if lower != "" && lower[0] == 'f' then ParseByte(lower[1..]) else None
  }

  function ParseKey(text: string): Result<Key, ChordError> {
    var lower := LowerAll(text);
    if Named(lower).Some? then Ok(Named(lower).value)
    else if Function(lower).Some? then Ok(F(Function(lower).value))
    else if text == "" then Err(NoKey(text))
    else if |text| > 1 then Err(UnknownKey(text))
    else Ok(Char(text[0]))
  }

  function WithMod(mods: Mods, lower: string): Result<Mods, ChordError> {
    if lower == "ctrl" then Ok(mods.(ctrl := true))
    else if lower == "alt" then Ok(mods.(alt := true))
    else if lower == "shift" then Ok(mods.(shift := true))
    else Err(UnknownModifier(lower))
  }

  /** The first `n` parts read as modifiers. */
  function ModsOf(parts: seq<string>, n: nat): Result<Mods, ChordError>
    requires n <= |parts|
  {
    if n == 0 then Ok(NO_MODS)
    else match ModsOf(parts, n - 1)
         case Err(error) => Err(error)
         case Ok(mods) => WithMod(mods, LowerAll(parts[n - 1]))
  }

  function ParseParts(text: string, names: seq<string>, key: string): Result<Chord, ChordError> {
    if key == "" then Err(NoKey(text))
    else match ModsOf(names, |names|)
         case Err(error) => Err(error)
         case Ok(mods) =>
           match ParseKey(key)
           case Err(error) => Err(error)
           case Ok(k) => Ok(Chord(k, mods))
  }

  function Parse(text: string): Result<Chord, ChordError> {
    var parts := Split(text);
    ParseParts(text, parts[..|parts| - 1], parts[|parts| - 1])
  }

  method ParseChord(text: string) returns (chord: Result<Chord, ChordError>)
    ensures chord == Parse(text)
  {
    hide Split, ParseKey, LowerAll;
    var parts := Split(text);
    var names, key := parts[..|parts| - 1], parts[|parts| - 1];
    if key == "" {
      return Err(NoKey(text));
    }
    var mods := NO_MODS;
    for i := 0 to |names|
      invariant ModsOf(names, i) == Ok(mods)
    {
      var lower := LowerAll(names[i]);
      if lower == "ctrl" {
        mods := mods.(ctrl := true);
      } else if lower == "alt" {
        mods := mods.(alt := true);
      } else if lower == "shift" {
        mods := mods.(shift := true);
      } else {
        UnknownStays(names, i + 1, |names|);
        return Err(UnknownModifier(lower));
      }
    }
    match ParseKey(key) {
      case Err(error) => chord := Err(error);
      case Ok(k) => chord := Ok(Chord(k, mods));
    }
  }

  lemma {:induction false} UnknownStays(parts: seq<string>, m: nat, n: nat)
    requires m <= n <= |parts| && ModsOf(parts, m).Err?
    ensures ModsOf(parts, n) == ModsOf(parts, m)
  {
    if m < n {
      UnknownStays(parts, m, n - 1);
    }
  }

  // ---- printing ------------------------------------------------------------------------------

  function RenderKey(key: Key): string {
    match key
    case Char(c) => if c == ' ' then "space" else [c]
    case Enter => "enter"
    case Esc => "esc"
    case Tab => "tab"
    case BackTab => "backtab"
    case Backspace => "backspace"
    case Delete => "delete"
    case Up => "up"
    case Down => "down"
    case Left => "left"
    case Right => "right"
    case Home => "home"
    case End => "end"
    case PageUp => "pageup"
    case PageDown => "pagedown"
    case F(n) => "f" + Decimal(n)
  }

  /** The modifiers a chord has, in printing order. */
  function ModNames(mods: Mods): seq<string> {
    (if mods.ctrl then ["ctrl"] else []) + (if mods.alt then ["alt"] else []) + if mods.shift then ["shift"] else []
  }

  /** The names, each followed by a plus sign, and then the key. */
  function Join(names: seq<string>, key: string): string {
    if names == [] then key else names[0] + "+" + Join(names[1..], key)
  }

  function Render(chord: Chord): string { Join(ModNames(chord.mods), RenderKey(chord.key)) }

  method RenderChord(chord: Chord) returns (out: string)
    ensures out == Render(chord)
  {
    hide RenderKey;
    out := "";
    if chord.mods.ctrl {
      out := out + "ctrl+";
    }
    if chord.mods.alt {
      out := out + "alt+";
    }
    if chord.mods.shift {
      out := out + "shift+";
    }
    out := out + RenderKey(chord.key);
    RenderUnfolds(chord);
  }

  function When(held: bool, names: seq<string>): seq<string> { if held then names else [] }

  function Prefix(held: bool, text: string): string { if held then text else "" }

  lemma RenderUnfolds(chord: Chord)
    ensures Render(chord) ==
            (if chord.mods.ctrl then "ctrl+" else "") + (if chord.mods.alt then "alt+" else "") +
            (if chord.mods.shift then "shift+" else "") + RenderKey(chord.key)
  {
    hide RenderKey, Join;
    var m, key := chord.mods, RenderKey(chord.key);
    var alt, shift := When(m.alt, ["alt"]), When(m.shift, ["shift"]);
    assert ModNames(m) == When(m.ctrl, ["ctrl"]) + (alt + (shift + []));
    assert "ctrl" + "+" == "ctrl+" && "alt" + "+" == "alt+" && "shift" + "+" == "shift+";
    JoinFront(m.ctrl, "ctrl", "ctrl+", alt + (shift + []), key);
    JoinFront(m.alt, "alt", "alt+", shift + [], key);
    JoinFront(m.shift, "shift", "shift+", [], key);
    JoinNone(key);
    Regroup(Prefix(m.ctrl, "ctrl+"), Prefix(m.alt, "alt+"), Prefix(m.shift, "shift+"), key);
  }

  lemma JoinFront(held: bool, name: string, printed: string, rest: seq<string>, key: string)
    requires name + "+" == printed
    ensures Join(When(held, [name]) + rest, key) == Prefix(held, printed) + Join(rest, key)
  {
    if held {
      assert ([name] + rest)[1..] == rest;
    } else {
      assert [] + rest == rest;
    }
  }

  lemma JoinNone(key: string)
    ensures Join([], key) == key
  {
  }

  lemma Regroup(a: string, b: string, c: string, d: string)
    ensures a + (b + (c + d)) == a + b + c + d
  {
  }

  // ---- the printer undone --------------------------------------------------------------------

  predicate PlusFree(text: string) { forall i :: 0 <= i < |text| ==> text[i] != '+' }

  lemma {:induction false} PlusFromFirst(text: string, from: nat, at: nat)
    requires from <= at <= |text| && (at < |text| ==> text[at] == '+') && forall j :: from <= j < at ==> text[j] != '+'
    ensures PlusFrom(text, from) == at
    decreases |text| - from
  {
    if from < at {
      PlusFromFirst(text, from + 1, at);
    }
  }

  lemma SplitPlusFree(text: string)
    requires PlusFree(text)
    ensures Split(text) == [text]
  {
    PlusFromFirst(text, 0, |text|);
  }

  lemma SplitFirst(name: string, rest: string)
    requires PlusFree(name)
    ensures Split(name + "+" + rest) == [name] + Split(rest)
  {
    var text := name + "+" + rest;
    PlusFromFirst(text, 0, |name|);
    assert text[..|name|] == name && text[|name| + 1..] == rest;
  }

  lemma {:induction false} SplitJoin(names: seq<string>, key: string)
    requires forall n :: n in names ==> PlusFree(n)
    ensures Split(Join(names, key)) == names + Split(key)
  {
    hide Split;
    if names != [] {
      SplitJoin(names[1..], key);
      SplitFirst(names[0], Join(names[1..], key));
    }
  }

  lemma ModNamesArePlain(mods: Mods)
    ensures forall n :: n in ModNames(mods) ==> n == "ctrl" || n == "alt" || n == "shift"
  {
  }

  lemma NamesArePlusFree()
    ensures PlusFree("ctrl") && PlusFree("alt") && PlusFree("shift")
  {
  }

  lemma {:induction false} LowerLength(text: string)
    ensures |LowerAll(text)| == |text|
    ensures forall i :: 0 <= i < |text| ==> LowerAll(text)[i] == Lower(text[i])
  {
    if text != "" {
      LowerLength(text[1..]);
    }
  }

  lemma LowerStays(text: string)
    requires forall i :: 0 <= i < |text| ==> !('A' <= text[i] <= 'Z')
    ensures LowerAll(text) == text
  {
    LowerLength(text);
  }

  lemma ModNamesRead(mods: Mods)
    ensures ModsOf(ModNames(mods), |ModNames(mods)|) == Ok(mods)
  {
    hide LowerAll;
    LowerStays("ctrl");
    LowerStays("alt");
    LowerStays("shift");
    var names := ModNames(mods);
    ModNamesArePlain(mods);
    if |names| > 0 {
      assert ModsOf(names, 0) == Ok(NO_MODS);
      if |names| > 1 {
        assert ModsOf(names, 1).Ok?;
        if |names| > 2 {
          assert ModsOf(names, 2).Ok?;
        }
      }
    }
  }

  lemma FunctionKeyReads(n: byte)
    ensures ParseKey("f" + Decimal(n)) == Ok(F(n)) && PlusFree("f" + Decimal(n))
  {
    hide Decimal, Value;
    DecimalRoundTrip(n);
    var text, digits := "f" + Decimal(n), Decimal(n);
    assert text[1..] == digits;
    LowerStays(text);
    assert IsDigit(digits[0]);
    NoNameIsFunction(text);
  }

  lemma NoNameIsFunction(lower: string)
    requires lower != "" && lower[0] == 'f'
    ensures Named(lower).None?
  {
  }

  lemma CharKeyReads(c: char)
    ensures c != ' ' ==> ParseKey([c]) == Ok(Char(c))
    ensures ParseKey("space") == Ok(Char(' '))
  {
    hide LowerAll;
    LowerLength([c]);
    LowerStays("space");
    var lower := LowerAll([c]);
    assert lower[1..] == "";
    assert Named(lower).None? by {
      hide Named;
      ShortNamesNothing(lower);
    }
  }

  lemma ShortNamesNothing(lower: string)
    requires |lower| == 1
    ensures Named(lower).None?
  {
  }

  lemma NameReads(key: Key)
    requires !key.Char? && !key.F?
    ensures Named(RenderKey(key)) == Some(key)
  {
  }

  lemma NameIsSmall(key: Key)
    requires !key.Char? && !key.F?
    ensures RenderKey(key) != "" && forall i :: 0 <= i < |RenderKey(key)| ==> 'a' <= RenderKey(key)[i] <= 'z'
  {
  }

  lemma NamedKeyReads(key: Key)
    requires !key.Char? && !key.F?
    ensures ParseKey(RenderKey(key)) == Ok(key) && PlusFree(RenderKey(key)) && RenderKey(key) != ""
  {
    hide LowerAll, Named, RenderKey;
    NameReads(key);
    NameIsSmall(key);
    LowerStays(RenderKey(key));
  }

  lemma KeyReads(key: Key)
    requires key != Char('+')
    ensures ParseKey(RenderKey(key)) == Ok(key) && PlusFree(RenderKey(key)) && RenderKey(key) != ""
  {
    hide ParseKey, Decimal;
    match key {
      case Char(c) => CharKeyReads(c);
      case F(n) => FunctionKeyReads(n);
      case _ => NamedKeyReads(key);
    }
  }

  lemma PlusSplits()
    ensures Split("+") == ["", ""]
  {
    assert "+" == "" + "+" + "";
    SplitFirst("", "");
    SplitPlusFree("");
  }

  /** A printed chord reads back as itself, and the only one that does not is a plus key, which the separator
      makes unprintable. */
  lemma ChordRoundTrip(chord: Chord)
    ensures Parse(Render(chord)) == Ok(chord) <==> chord.key != Char('+')
  {
    hide Split, Join, RenderKey, ParseKey, ModsOf, ModNames, PlusFree;
    var names, key := ModNames(chord.mods), RenderKey(chord.key);
    ModNamesArePlain(chord.mods);
    NamesArePlusFree();
    SplitJoin(names, key);
    if chord.key == Char('+') {
      PlusPrints();
      PlusSplits();
      assert (names + ["", ""])[|names| + 1] == "";
    } else {
      KeyReads(chord.key);
      SplitPlusFree(key);
      assert (names + [key])[..|names|] == names;
      ModNamesRead(chord.mods);
    }
  }

  lemma PlusPrints()
    ensures RenderKey(Char('+')) == "+"
  {
  }

  // ---- what parsing looks at -----------------------------------------------------------------

  /** Some part among the first `n` is this name in some case. */
  ghost predicate Mentions(parts: seq<string>, n: nat, lower: string)
    requires n <= |parts|
  {
    exists i :: 0 <= i < n && LowerAll(parts[i]) == lower
  }

  predicate IsMod(lower: string) { lower == "ctrl" || lower == "alt" || lower == "shift" }

  /** Modifiers are read from exactly the names mentioned, all of which must be known. */
  lemma {:induction false} ModsAreThoseMentioned(parts: seq<string>, n: nat)
    requires n <= |parts|
    ensures ModsOf(parts, n).Ok? <==> forall lower :: Mentions(parts, n, lower) ==> IsMod(lower)
    ensures ModsOf(parts, n).Ok? ==>
              ModsOf(parts, n).value == Mods(Mentions(parts, n, "ctrl"), Mentions(parts, n, "alt"), Mentions(parts, n, "shift"))
  {
    hide LowerAll, Mentions;
    if n == 0 {
      forall lower { MentionsGrow(parts, n, lower); }
    } else {
      ModsAreThoseMentioned(parts, n - 1);
      forall lower { MentionsGrow(parts, n, lower); }
      assert Mentions(parts, n, LowerAll(parts[n - 1]));
      assert forall lower :: Mentions(parts, n - 1, lower) ==> Mentions(parts, n, lower);
    }
  }

  lemma MentionsGrow(parts: seq<string>, n: nat, lower: string)
    requires n <= |parts|
    ensures n == 0 ==> !Mentions(parts, n, lower)
    ensures n > 0 ==> (Mentions(parts, n, lower) <==> Mentions(parts, n - 1, lower) || LowerAll(parts[n - 1]) == lower)
  {
    hide LowerAll;
  }

  /** The same modifier names, whatever their case, order and number. */
  ghost predicate SameNames(a: seq<string>, b: seq<string>) {
    forall lower :: Mentions(a, |a|, lower) <==> Mentions(b, |b|, lower)
  }

  lemma SameNamesSameMods(a: seq<string>, b: seq<string>)
    requires SameNames(a, b)
    ensures ModsOf(a, |a|).Ok? <==> ModsOf(b, |b|).Ok?
    ensures ModsOf(a, |a|).Ok? ==> ModsOf(a, |a|) == ModsOf(b, |b|)
  {
    hide LowerAll, ModsOf, Mentions;
    ModsAreThoseMentioned(a, |a|);
    ModsAreThoseMentioned(b, |b|);
  }

  /** Keys with names are read whatever their case; single characters are not. */
  lemma KeyCase(a: string, b: string)
    requires LowerAll(a) == LowerAll(b)
    ensures ParseKey(a).Ok? <==> ParseKey(b).Ok?
    ensures ParseKey(a).Ok? && (|a| > 1 || a == b) ==> ParseKey(a) == ParseKey(b)
  {
    hide LowerAll;
    LowerLength(a);
    LowerLength(b);
  }

  /** Parsing ignores the order, case and repetition of modifiers, and the case of a named key. */
  lemma ParsingIgnoresForm(x: string, y: string)
    requires var xs, ys := Split(x), Split(y);
             && SameNames(xs[..|xs| - 1], ys[..|ys| - 1])
             && LowerAll(xs[|xs| - 1]) == LowerAll(ys[|ys| - 1])
             && (|xs[|xs| - 1]| > 1 || xs[|xs| - 1] == ys[|ys| - 1])
    ensures Parse(x).Ok? <==> Parse(y).Ok?
    ensures Parse(x).Ok? ==> Parse(x) == Parse(y)
  {
    hide Split, LowerAll, ModsOf, ParseKey, SameNames;
    var xs, ys := Split(x), Split(y);
    SameNamesSameMods(xs[..|xs| - 1], ys[..|ys| - 1]);
    KeyCase(xs[|xs| - 1], ys[|ys| - 1]);
    LowerLength(xs[|xs| - 1]);
    LowerLength(ys[|ys| - 1]);
  }

  /** ASCII case, letter by letter. */
  lemma LowerFoldsLetters(c: char)
    ensures forall i :: 0 <= i < 26 ==> Lower("ABCDEFGHIJKLMNOPQRSTUVWXYZ"[i]) == "abcdefghijklmnopqrstuvwxyz"[i]
    ensures c !in "ABCDEFGHIJKLMNOPQRSTUVWXYZ" ==> Lower(c) == c
  {
    var capitals := "ABCDEFGHIJKLMNOPQRSTUVWXYZ";
    if 'A' <= c <= 'Z' {
      assert capitals[c as int - 65] == c;
    }
  }

  /** The names a key answers to, in small letters; a printable key but the space and a function key have none. */
  function Spellings(key: Key): set<string> {
    match key
    case Enter => {"enter"}
    case Esc => {"esc", "escape"}
    case Tab => {"tab"}
    case BackTab => {"backtab"}
    case Backspace => {"backspace"}
    case Delete => {"delete", "del"}
    case Up => {"up"}
    case Down => {"down"}
    case Left => {"left"}
    case Right => {"right"}
    case Home => {"home"}
    case End => {"end"}
    case PageUp => {"pageup"}
    case PageDown => {"pagedown"}
    case Char(c) => if c == ' ' then {"space"} else {}
    case F(_) => {}
  }

  lemma NamedIsSpelled(lower: string)
    ensures Named(lower).Some? ==> lower in Spellings(Named(lower).value)
  {
  }

  lemma SpelledIsNamed(lower: string, key: Key)
    requires lower in Spellings(key)
    ensures Named(lower) == Some(key)
  {
  }

  lemma NamedBySpelling(lower: string, key: Key)
    ensures Named(lower) == Some(key) <==> lower in Spellings(key)
  {
    hide Named, Spellings;
    NamedIsSpelled(lower);
    if lower in Spellings(key) {
      SpelledIsNamed(lower, key);
    }
  }

  /** A number behind the letter. */
  predicate Numbers(lower: string, n: nat) {
    && |lower| > 1 && lower[0] == 'f'
    && ((Numeral(lower[1..]) && Value(lower[1..]) == n) ||
        (|lower| > 2 && lower[1] == '+' && Numeral(lower[2..]) && Value(lower[2..]) == n))
  }

  /** Every spelling a key is read from, and nothing else: its names in any case, the letter f with its number, or the
      very character. */
  lemma KeySpellings(text: string, key: Key)
    ensures ParseKey(text) == Ok(key) <==>
              || LowerAll(text) in Spellings(key)
              || (key.F? && Numbers(LowerAll(text), key.n))
              || (key.Char? && text == [key.c])
  {
    hide LowerAll, Named, Spellings, Numeral, Value;
    var lower := LowerAll(text);
    LowerLength(text);
    NamedBySpelling(lower, key);
    if Named(lower).Some? {
      NamedBySpelling(lower, Named(lower).value);
      NamesAreLong(lower);
    }
    if key.F? {
      FunctionNumbers(lower, key.n);
    }
    if Function(lower).Some? {
      FunctionNumbers(lower, Function(lower).value);
    }
  }

  lemma NamesAreLong(lower: string)
    requires Named(lower).Some?
    ensures |lower| > 1 && lower[0] != 'f'
  {
  }

  lemma FunctionNumbers(lower: string, n: byte)
    ensures Function(lower) == Some(n) <==> Numbers(lower, n)
  {
  }

  /** Splitting only takes out the plus signs. */
  lemma {:induction false} JoinSplit(text: string)
    ensures var parts := Split(text); Join(parts[..|parts| - 1], parts[|parts| - 1]) == text
    decreases |text|
  {
    var i := PlusFrom(text, 0);
    if i < |text| {
      hide Split;
      JoinSplit(text[i + 1..]);
      SplitAt(text, i);
      JoinFirst(text[..i], Split(text[i + 1..]));
      CutAtPlus(text, i);
    }
  }

  lemma {:induction false} UnknownIsMentioned(parts: seq<string>, n: nat)
    requires n <= |parts| && ModsOf(parts, n).Err?
    ensures ModsOf(parts, n).error.UnknownModifier?
    ensures var part := ModsOf(parts, n).error.part; !IsMod(part) && Mentions(parts, n, part)
  {
    hide LowerAll, Mentions;
    if ModsOf(parts, n - 1).Err? {
      UnknownIsMentioned(parts, n - 1);
    }
    MentionsGrow(parts, n, ModsOf(parts, n).error.part);
  }

  /** What is refused names the part at fault: nothing behind the last plus sign, a name that is no modifier, or more
      than one character that names no key. */
  lemma RefusalsSayWhy(text: string)
    requires Parse(text).Err?
    ensures var parts := Split(text);
            var names, key := parts[..|parts| - 1], parts[|parts| - 1];
            match Parse(text).error
            case NoKey(named) => named == text && key == ""
            case UnknownModifier(part) => !IsMod(part) && Mentions(names, |names|, part)
            case UnknownKey(name) => name == key && |key| > 1 && forall k :: ParseKey(key) != Ok(k)
  {
    hide Split, LowerAll, Mentions, Named, Function, ModsOf;
    var parts := Split(text);
    var names := parts[..|parts| - 1];
    if ModsOf(names, |names|).Err? {
      UnknownIsMentioned(names, |names|);
    }
  }

  lemma SplitAt(text: string, i: nat)
    requires i == PlusFrom(text, 0) && i < |text|
    ensures Split(text) == [text[..i]] + Split(text[i + 1..])
  {
  }

  lemma JoinFirst(name: string, parts: seq<string>)
    requires parts != []
    ensures var all := [name] + parts;
            Join(all[..|all| - 1], all[|all| - 1]) == name + "+" + Join(parts[..|parts| - 1], parts[|parts| - 1])
  {
    hide Join;
    assert ([name] + parts)[..|parts|] == [name] + parts[..|parts| - 1];
    JoinCons(name, parts[..|parts| - 1], parts[|parts| - 1]);
  }

  lemma CutAtPlus(text: string, i: nat)
    requires i < |text| && text[i] == '+'
    ensures text == text[..i] + "+" + text[i + 1..]
  {
  }

  lemma JoinCons(name: string, rest: seq<string>, key: string)
    ensures Join([name] + rest, key) == name + "+" + Join(rest, key)
  {
    assert ([name] + rest)[1..] == rest;
  }

  lemma {:induction false} SplitIsPlusFree(text: string)
    ensures forall part :: part in Split(text) ==> PlusFree(part)
    decreases |text|
  {
    var i := PlusFrom(text, 0);
    if i < |text| {
      SplitIsPlusFree(text[i + 1..]);
    }
  }

  lemma PlusFreeKey(text: string)
    requires PlusFree(text) && ParseKey(text).Ok?
    ensures ParseKey(text).value != Char('+')
  {
    hide LowerAll, Function;
  }

  /** Printing what was read gives a text that reads the same: the printer's form is canonical. */
  lemma PrintingNormalises(text: string)
    requires Parse(text).Ok?
    ensures Parse(Render(Parse(text).value)) == Parse(text)
  {
    hide Split, Render, ParseKey, ModsOf, PlusFree;
    var parts := Split(text);
    SplitIsPlusFree(text);
    PlusFreeKey(parts[|parts| - 1]);
    ChordRoundTrip(Parse(text).value);
  }
}
