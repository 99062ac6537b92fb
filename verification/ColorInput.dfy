/** The line chart's per-series colour inputs: validating and normalising
    typed hex colours, falling back to a default colour for an invalid one,
    and the colour lines of the text copied to the clipboard. */
module ColorInput {
  import opened JsText

  predicate IsHexDigit(c: char) {
    '0' <= c <= '9' || 'a' <= c <= 'f' || 'A' <= c <= 'F'
  }

  /** `#` followed by exactly six hex digits. */
  predicate IsHexColor(t: string) {
    |t| == 7 && t[0] == '#' && forall k :: 1 <= k < 7 ==> IsHexDigit(t[k])
  }

  // ---------------------------------------------------------------------
  // The pattern /^#([0-9a-fA-F]{6})$/

  /** `[0-9a-fA-F]*$`: the rest of the input is hex digits, read one at a
      time. */
  function MatchHexRun(u: string): bool
    decreases |u|
  {
    u == [] || (IsHexDigit(u[0]) && MatchHexRun(u[1..]))
  }

  /** The anchored pattern matched left to right: `#`, then a run of hex
      digits that is exactly six long and ends the input. */
  function MatchHexPattern(t: string): bool {
    |t| == 7 && t[0] == '#' && MatchHexRun(t[1..])
  }

  lemma {:induction false} MatchHexRunIff(u: string)
    ensures MatchHexRun(u) <==> forall k :: 0 <= k < |u| ==> IsHexDigit(u[k])
    decreases |u|
  {
    if u != [] {
      MatchHexRunIff(u[1..]);
      assert forall k :: 1 <= k < |u| ==> u[k] == u[1..][k - 1];
    }
  }

  /** The pattern accepts exactly the strings `#` + six hex digits. */
  lemma MatchHexPatternIff(t: string)
    ensures MatchHexPattern(t) <==> IsHexColor(t)
  {
    if |t| > 0 {
      MatchHexRunIff(t[1..]);
      assert forall k :: 1 <= k < |t| ==> t[k] == t[1..][k - 1];
    }
  }

  /** `isValidHex`: the trimmed input matches the pattern. */
  predicate IsValidHex(v: string) {
    MatchHexPattern(Trim(v))
  }

  /** A hex colour has nothing to trim, so it is valid as it stands. */
  lemma HexColorIsValid(t: string)
    requires IsHexColor(t)
    ensures IsTrimmed(t) && Trim(t) == t
    ensures IsValidHex(t)
  {
    assert !IsWhitespace(t[6]) by { assert IsHexDigit(t[6]); }
    TrimOfTrimmed(t);
    MatchHexPatternIff(t);
  }

  /** A value is a valid hex colour exactly when, once trimmed, it is seven
      characters long, starts with `#` and has six hex digits after it. */
  lemma IsValidHexIff(v: string)
    ensures IsValidHex(v) <==> var t := Trim(v);
      |t| == 7 && t[0] == '#' && forall k :: 1 <= k < 7 ==> IsHexDigit(t[k])
  {
    MatchHexPatternIff(Trim(v));
  }

  // ---------------------------------------------------------------------
  // Normalising, falling back

  /** `normalizeHex`: trim, then put a `#` in front of a non-empty value that
      lacks one. */
  function NormalizeHex(v: string): (r: string)
    ensures r == Trim(v) || r == "#" + Trim(v)
    ensures r == [] <==> AllWhitespace(v)
    ensures r != [] ==> r[0] == '#'
    ensures Trim(v) != [] && Trim(v)[0] == '#' ==> r == Trim(v)
  {
    TrimEmptyIff(v);
    var s := Trim(v);
    if s != [] && s[0] != '#' then "#" + s else s
  }

  /** A normalised value has nothing left to trim. */
  lemma NormalizedIsTrimmed(v: string)
    ensures IsTrimmed(NormalizeHex(v)) && Trim(NormalizeHex(v)) == NormalizeHex(v)
  {
    var s := Trim(v);
    var r := NormalizeHex(v);
    if s != [] && s[0] != '#' {
      assert r[|r| - 1] == s[|s| - 1];
    }
    TrimOfTrimmed(r);
  }

  /** Normalising twice is normalising once. */
  lemma NormalizeHexIdempotent(v: string)
    ensures NormalizeHex(NormalizeHex(v)) == NormalizeHex(v)
  {
    NormalizedIsTrimmed(v);
  }

  /** For a trimmed string, passing `isValidHex` is being a hex colour. */
  lemma TrimmedValidIff(t: string)
    requires IsTrimmed(t)
    ensures IsValidHex(t) <==> IsHexColor(t)
  {
    TrimOfTrimmed(t);
    MatchHexPatternIff(t);
  }

  /** Putting `#` in front of a non-empty string makes a hex colour only
      when the string did not start with `#`, and the string itself is then
      no hex colour. */
  lemma HashPrefixShape(s: string)
    ensures !IsHexColor("#")
    ensures s != [] && s[0] == '#' ==> !IsHexColor("#" + s)
    ensures s != [] && s[0] != '#' ==> !IsHexColor(s)
  {
    if s != [] && s[0] == '#' {
      assert ("#" + s)[1] == '#';
    }
  }

  /** A normalised value is valid exactly when the trimmed input was a hex
      colour with or without its leading `#`. */
  lemma NormalizeHexValidIff(v: string)
    ensures IsValidHex(NormalizeHex(v)) <==> IsHexColor(Trim(v)) || IsHexColor("#" + Trim(v))
  {
    NormalizedIsTrimmed(v);
    TrimmedValidIff(NormalizeHex(v));
    HashPrefixShape(Trim(v));
  }

  /** `getColor(v, fallback)`: the value itself when it is a valid hex colour,
      otherwise the fallback; so a valid fallback always yields a valid
      colour. */
  function GetColor(v: string, fallback: string): (r: string)
    ensures IsValidHex(v) ==> r == v
    ensures !IsValidHex(v) ==> r == fallback
    ensures IsValidHex(fallback) ==> IsValidHex(r)
  {
    if IsValidHex(v) then v else fallback
  }

  // ---------------------------------------------------------------------
  // The colour state and the copied text

  /** The four series whose colours can be edited. */
  datatype Series = PvPress | UuPress | PvStory | UuStory

  /** The colour of each series as currently stored. */
  datatype ColorSet = ColorSet(pvPress: string, uuPress: string, pvStory: string, uuStory: string)

  /** The colours the page starts with, which are also the fallbacks. */
  const DefaultColors := ColorSet("#3b82f6", "#10b981", "#a855f7", "#f59e0b")

  function Field(c: ColorSet, s: Series): string {
    match s
    case PvPress => c.pvPress
    case UuPress => c.uuPress
    case PvStory => c.pvStory
    case UuStory => c.uuStory
  }

  function WithField(c: ColorSet, s: Series, value: string): ColorSet {
    match s
    case PvPress => c.(pvPress := value)
    case UuPress => c.(uuPress := value)
    case PvStory => c.(pvStory := value)
    case UuStory => c.(uuStory := value)
  }

  function Fallback(s: Series): string {
    Field(DefaultColors, s)
  }

  /** The label that starts each colour line of the copied text. */
  function Label(s: Series): string {
    match s
    case PvPress => "PV（プレス）"
    case UuPress => "UU（プレス）"
    case PvStory => "PV（ストーリー）"
    case UuStory => "UU（ストーリー）"
  }

  /** Every fallback colour is a valid hex colour. */
  lemma FallbacksValid(s: Series)
    ensures IsHexColor(Fallback(s)) && IsValidHex(Fallback(s))
  {
    var f := Fallback(s);
    assert IsHexColor(f) by {
      match s
      case PvPress => assert f == "#3b82f6";
      case UuPress => assert f == "#10b981";
      case PvStory => assert f == "#a855f7";
      case UuStory => assert f == "#f59e0b";
    }
    HexColorIsValid(f);
  }

  /** A value typed into a hex field is stored normalised. */
  function TypeHex(c: ColorSet, s: Series, raw: string): ColorSet {
    WithField(c, s, NormalizeHex(raw))
  }

  /** A value the colour picker reports: always `#` and six hex digits. */
  type PickedColor = t: string | IsHexColor(t) witness "#000000"

  /** A colour chosen with the picker is stored as reported. */
  function PickColor(c: ColorSet, s: Series, picked: PickedColor): ColorSet {
    WithField(c, s, picked)
  }

  /** Every stored colour has no whitespace at either end. */
  predicate StoredTrimmed(c: ColorSet) {
    forall s: Series :: IsTrimmed(Field(c, s))
  }

  /** The initial colours are trimmed. */
  lemma DefaultsStoredTrimmed()
    ensures StoredTrimmed(DefaultColors)
  {
    forall s: Series ensures IsTrimmed(Field(DefaultColors, s)) {
      FallbacksValid(s);
      HexColorIsValid(Fallback(s));
    }
  }

  /** Storing a value in one series changes that series and no other. */
  lemma FieldOfWithField(c: ColorSet, s: Series, value: string, s': Series)
    ensures Field(WithField(c, s, value), s') == if s' == s then value else Field(c, s')
  {
  }

  /** Storing a trimmed value keeps every stored colour trimmed. */
  lemma WithFieldKeepsTrimmed(c: ColorSet, s: Series, value: string)
    requires StoredTrimmed(c) && IsTrimmed(value)
    ensures StoredTrimmed(WithField(c, s, value))
  {
    forall s': Series ensures IsTrimmed(Field(WithField(c, s, value), s')) {
      FieldOfWithField(c, s, value, s');
    }
  }

  /** Typing or picking keeps every stored colour trimmed. */
  lemma ColorEditsKeepTrimmed(c: ColorSet, s: Series, raw: string, picked: PickedColor)
    requires StoredTrimmed(c)
    ensures StoredTrimmed(TypeHex(c, s, raw))
    ensures StoredTrimmed(PickColor(c, s, picked))
  {
    NormalizedIsTrimmed(raw);
    HexColorIsValid(picked);
    WithFieldKeepsTrimmed(c, s, NormalizeHex(raw));
    WithFieldKeepsTrimmed(c, s, picked);
  }

  /** The colour line of one series: its label, then the colour it is drawn
      with. */
  function ColorLine(c: ColorSet, s: Series): string {
    Label(s) + ": " + GetColor(Field(c, s), Fallback(s))
  }

  /** The four colour lines, in the order PV press, UU press, PV story, UU
      story. */
  function ColorLines(c: ColorSet): seq<string> {
    [ColorLine(c, PvPress), ColorLine(c, UuPress), ColorLine(c, PvStory), ColorLine(c, UuStory)]
  }

  /** `buildHexText` with the serialised colours given as `json`. */
  function BuildHexText(c: ColorSet, json: string): string {
    JoinLines(ColorLines(c) + ["", "JSON:", json])
  }

  /** Each colour line is its label followed by a valid hex colour, whatever
      is stored. */
  lemma ColorLineCarriesValidHex(c: ColorSet, s: Series)
    ensures var prefix := Label(s) + ": ";
      && prefix <= ColorLine(c, s)
      && IsValidHex(ColorLine(c, s)[|prefix|..])
  {
    FallbacksValid(s);
    var prefix := Label(s) + ": ";
    assert ColorLine(c, s)[|prefix|..] == GetColor(Field(c, s), Fallback(s));
  }

  lemma HexColorNoNewline(t: string)
    requires IsHexColor(t)
    ensures NoNewline(t)
  {
    assert forall k :: 1 <= k < 7 ==> t[k] != '\n';
  }

  /** What precedes the colour on a colour line is free of newlines. */
  lemma LinePrefixNoNewline(s: Series)
    ensures NoNewline(Label(s) + ": ")
  {
    match s
    case PvPress =>
    case UuPress =>
    case PvStory =>
    case UuStory =>
  }

  /** A trimmed stored colour resolves to exactly `#` and six hex digits. */
  lemma ResolvedColorIsExact(c: ColorSet, s: Series)
    requires IsTrimmed(Field(c, s))
    ensures IsHexColor(GetColor(Field(c, s), Fallback(s)))
  {
    FallbacksValid(s);
    TrimOfTrimmed(Field(c, s));
    MatchHexPatternIff(Field(c, s));
  }

  /** So the colour line of a trimmed stored colour is a single line. */
  lemma ColorLineIsOneLine(c: ColorSet, s: Series)
    requires IsTrimmed(Field(c, s))
    ensures NoNewline(ColorLine(c, s))
  {
    var g := GetColor(Field(c, s), Fallback(s));
    ResolvedColorIsExact(c, s);
    HexColorNoNewline(g);
    LinePrefixNoNewline(s);
    ConcatNoNewline(Label(s) + ": ", g);
  }

  /** The text layout on its own: newline-free lines, an empty line, the
      heading, then the serialised colours. */
  lemma TextLayoutSplits(head: seq<string>, json: string)
    requires |head| >= 1
    requires forall k :: 0 <= k < |head| ==> NoNewline(head[k])
    ensures SplitLines(JoinLines(head + ["", "JSON:", json])) == head + ["", "JSON:"] + SplitLines(json)
  {
    var lines := head + ["", "JSON:"];
    assert forall k :: 0 <= k < |lines| ==> NoNewline(lines[k]);
    assert head + ["", "JSON:", json] == lines + [json];
    JoinLinesAppend(lines, json);
    SplitJoinLines(lines, json);
  }

  lemma NoNewlineLines(l0: string, l1: string, l2: string, l3: string)
    requires NoNewline(l0) && NoNewline(l1) && NoNewline(l2) && NoNewline(l3)
    ensures forall k :: 0 <= k < 4 ==> NoNewline([l0, l1, l2, l3][k])
  {
  }

  /** With the colours as the page stores them, the copied text's first four
      lines are exactly the four colour lines, followed by an empty line, the
      `JSON:` heading and the lines of the serialised colours. */
  lemma HexTextLines(c: ColorSet, json: string)
    requires StoredTrimmed(c)
    ensures SplitLines(BuildHexText(c, json)) == ColorLines(c) + ["", "JSON:"] + SplitLines(json)
  {
    var head := ColorLines(c);
    var l0, l1, l2, l3 := ColorLine(c, PvPress), ColorLine(c, UuPress), ColorLine(c, PvStory), ColorLine(c, UuStory);
    assert head == [l0, l1, l2, l3];
    assert IsTrimmed(Field(c, PvPress)) && IsTrimmed(Field(c, UuPress));
    assert IsTrimmed(Field(c, PvStory)) && IsTrimmed(Field(c, UuStory));
    ColorLineIsOneLine(c, PvPress);
    ColorLineIsOneLine(c, UuPress);
    ColorLineIsOneLine(c, PvStory);
    ColorLineIsOneLine(c, UuStory);
    NoNewlineLines(l0, l1, l2, l3);
    TextLayoutSplits(head, json);
  }
}
