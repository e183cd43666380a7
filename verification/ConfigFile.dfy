/** The settings file: config_save prints it, config_load scans it back (main/config/config.c). */
module ConfigFile {
  import opened HidScaling
  import opened WireBytes
  import opened Text

  /** deskflow_config_t */
  datatype Config = Config(
    server: string, port: u16, deviceName: string, keepAwake: bool, jiggleInterval: u16,
    screenWidth: u16, screenHeight: u16, scaling: u16, keyboardLayout: byte, vlanId: i16)

  /** The strings fit char server[64] and char device_name[32]. */
  predicate Storable(c: Config) {
    |c.server| < 64 && |c.deviceName| < 32
  }

  const DEFAULTS: Config := Config("192.168.1.10", 24800, "deskflow-client", false, 30, 1920, 1080, 100, 0, -1)

  // ---- scanf ----

  /** One directive of a scanf format: white space, a literal character, %d, or %<max>[^<stop>]. */
  datatype Directive = White | Literal(c: char) | Int | Until(max: nat, stop: set<char>)

  datatype Value = IntValue(n: int) | TextValue(s: string)

  /** The longest prefix of at most `max` characters outside `stop`. */
  function Span(input: string, max: nat, stop: set<char>): (s: string)
    ensures s <= input && |s| <= max && forall c <- s :: c !in stop
  {
    if max == 0 || input == "" || input[0] in stop then "" else [input[0]] + Span(input[1..], max - 1, stop)
  }

  /** The conversions fscanf completes before the first mismatch. */
  function Scanf(format: seq<Directive>, input: string): seq<Value>
    decreases |format|
  {
    if format == [] then []
    else match format[0]
      case White => Scanf(format[1..], SkipSpaces(input))
      case Literal(c) => if input != "" && input[0] == c then Scanf(format[1..], input[1..]) else []
      case Int => (
        match ScanInteger(input)
        case NoNumber => []
        case Number(n, rest) => [IntValue(n)] + Scanf(format[1..], rest))
      case Until(max, stop) =>
        var s := Span(input, max, stop);
        if s == "" then [] else [TextValue(s)] + Scanf(format[1..], input[|s|..])
  }

  /** The directives that plain format text stands for. */
  function Plain(text: string): seq<Directive> {
    if text == "" then [] else [if IsSpace(text[0]) then White else Literal(text[0])] + Plain(text[1..])
  }

  // ---- the file layout ----

  /** A field of the settings file: the text before it and its scanf conversion. */
  datatype Field = Field(before: string, conversion: Directive)

  const LAYOUT: seq<Field> := [
    Field("{ \"server\": \"", Until(63, {'\"'})),
    Field("\",\n \"port\": ", Int),
    Field(",\n \"device_name\": \"", Until(31, {'\"'})),
    Field("\",\n \"screen_width\": ", Int),
    Field(",\n \"screen_height\": ", Int),
    Field(",\n \"scaling\": ", Int),
    Field(",\n \"jiggle_interval\": ", Int),
    Field(",\n \"keep_awake\": ", Until(7, {',', '\n'})),
    Field(",\n \"keyboard_layout\": ", Int),
    Field(",\n \"vlan_id\": ", Int)]

  function Show(v: Value): string {
    match v
    case IntValue(n) => SignedDecimal(n)
    case TextValue(s) => s
  }

  /** The printed text from field `k` on. */
  function PrintFrom(layout: seq<Field>, values: seq<Value>, k: nat): string
    requires k <= |layout| == |values|
    decreases |layout| - k
  {
    if k == |layout| then "}" else layout[k].before + (Show(values[k]) + PrintFrom(layout, values, k + 1))
  }

  function FormatFrom(layout: seq<Field>, k: nat): seq<Directive>
    requires k <= |layout|
    decreases |layout| - k
  {
    if k == |layout| then Plain("}")
    else Plain(layout[k].before) + ([layout[k].conversion] + FormatFrom(layout, k + 1))
  }

  function ValuesOf(c: Config): seq<Value> {
    [TextValue(c.server), IntValue(c.port), TextValue(c.deviceName), IntValue(c.screenWidth),
     IntValue(c.screenHeight), IntValue(c.scaling), IntValue(c.jiggleInterval),
     TextValue(if c.keepAwake then "true" else "false"), IntValue(c.keyboardLayout), IntValue(c.vlanId)]
  }

  /** What config_save writes. */
  function Render(c: Config): string {
    PrintFrom(LAYOUT, ValuesOf(c), 0)
  }

  function IntOf(v: Value): int {
    if v.IntValue? then v.n else 0
  }

  function TextOf(v: Value): string {
    if v.TextValue? then v.s else ""
  }

  /** What config_load makes of ten conversions, with the C narrowing of each int. */
  function FromValues(vs: seq<Value>): Config
    requires |vs| == 10
  {
    Config(TextOf(vs[0]), ToU16(IntOf(vs[1])), TextOf(vs[2]), TextOf(vs[7]) == "true", ToU16(IntOf(vs[6])),
           ToU16(IntOf(vs[3])), ToU16(IntOf(vs[4])), ToU16(IntOf(vs[5])), IntOf(vs[8]) % 0x100,
           SignedU16(ToU16(IntOf(vs[9]))))
  }

  function Conversions(text: string): seq<Value> {
    Scanf(FormatFrom(LAYOUT, 0), text)
  }

  function Load(text: string): Config {
    var vs := Conversions(text);
    if |vs| == 10 then FromValues(vs) else DEFAULTS
  }

  // ---- scanning what was printed ----

  /** The character that follows field `k` in the printed text. */
  function NextChar(layout: seq<Field>, k: nat): char
    requires k < |layout| && forall f <- layout :: f.before != ""
  {
    if k + 1 == |layout| then '}' else layout[k + 1].before[0]
  }

  /** Value `v` is one that `conversion`, met before character `next`, reads back unchanged. */
  predicate ReadsBack(conversion: Directive, v: Value, next: char) {
    match conversion
    case Int => v.IntValue? && !IsDigit(next)
    case Until(max, stop) =>
      v.TextValue? && v.s != "" && |v.s| <= max && (forall c <- v.s :: c !in stop) && next in stop
    case _ => false
  }

  ghost predicate Scannable(layout: seq<Field>, values: seq<Value>) {
    && |layout| == |values|
    && (forall f <- layout :: f.before != "")
    && (forall k :: 0 <= k < |layout| ==> FieldScannable(layout, values, k))
  }

  ghost predicate FieldScannable(layout: seq<Field>, values: seq<Value>, k: nat)
    requires k < |layout| == |values| && forall f <- layout :: f.before != ""
  {
    && ReadsBack(layout[k].conversion, values[k], NextChar(layout, k))
    && (IsSpace(layout[k].before[|layout[k].before| - 1]) ==> !IsSpace(Show(values[k])[0]))
  }

  lemma {:induction false} SkipTwice(s: string)
    ensures SkipSpaces(SkipSpaces(s)) == SkipSpaces(s)
    decreases |s|
  {
    if s != "" && IsSpace(s[0]) {
      SkipTwice(s[1..]);
    }
  }

  predicate AllSpace(s: string) {
    forall c <- s :: IsSpace(c)
  }

  /** `text` is `pattern` with each white-space character replaced by any amount of white space, none included. */
  ghost predicate Reindents(text: string, pattern: string)
    decreases |pattern|
  {
    if pattern == "" then text == ""
    else if IsSpace(pattern[0]) then
      exists k :: 0 <= k <= |text| && AllSpace(text[..k]) && Reindents(text[k..], pattern[1..])
    else text != "" && text[0] == pattern[0] && Reindents(text[1..], pattern[1..])
  }

  lemma {:induction false} SpacesAreSkipped(spaces: string, s: string)
    requires AllSpace(spaces)
    ensures SkipSpaces(spaces + s) == SkipSpaces(s)
    decreases |spaces|
  {
    if spaces == "" {
      assert spaces + s == s;
    } else {
      assert spaces[0] in spaces && (spaces + s)[1..] == spaces[1..] + s;
      SpacesAreSkipped(spaces[1..], s);
    }
  }

  lemma WhiteMatches(text: string, k: nat, format: seq<Directive>, input: string)
    requires k <= |text| && AllSpace(text[..k])
    ensures Scanf([White] + format, text + input) == Scanf(format, SkipSpaces(text[k..] + input))
    ensures Scanf([White] + format, SkipSpaces(text + input)) == Scanf(format, SkipSpaces(text[k..] + input))
  {
    assert ([White] + format)[1..] == format;
    assert text + input == text[..k] + (text[k..] + input);
    SpacesAreSkipped(text[..k], text[k..] + input);
    SkipTwice(text + input);
  }

  lemma LiteralMatches(text: string, format: seq<Directive>, input: string)
    requires text != "" && !IsSpace(text[0])
    ensures Scanf([Literal(text[0])] + format, text + input) == Scanf(format, text[1..] + input)
    ensures SkipSpaces(text + input) == text + input
  {
    assert ([Literal(text[0])] + format)[1..] == format;
    assert (text + input)[1..] == text[1..] + input;
  }

  /** Format text matches any re-indentation of itself, even after leading white space has been skipped already. */
  lemma {:induction false} PlainMatches(text: string, pattern: string, format: seq<Directive>, input: string,
                                        skipped: bool)
    requires Reindents(text, pattern) && input != ""
    requires (if pattern == "" then skipped else IsSpace(pattern[|pattern| - 1])) ==> !IsSpace(input[0])
    ensures Scanf(Plain(pattern) + format, if skipped then SkipSpaces(text + input) else text + input) ==
            Scanf(format, input)
    decreases |pattern|
  {
    if pattern == "" {
      assert Plain(pattern) + format == format && text + input == input;
    } else {
      var rest := pattern[1..];
      assert Plain(pattern) + format == [Plain(pattern)[0]] + (Plain(rest) + format);
      assert rest != "" ==> rest[|rest| - 1] == pattern[|pattern| - 1];
      if IsSpace(pattern[0]) {
        var k :| 0 <= k <= |text| && AllSpace(text[..k]) && Reindents(text[k..], rest);
        WhiteMatches(text, k, Plain(rest) + format, input);
        PlainMatches(text[k..], rest, format, input, true);
      } else {
        LiteralMatches(text, Plain(rest) + format, input);
        PlainMatches(text[1..], rest, format, input, false);
      }
    }
  }

  lemma {:induction false} SelfReindents(text: string)
    ensures Reindents(text, text)
    decreases |text|
  {
    if text != "" {
      SelfReindents(text[1..]);
      assert AllSpace(text[..1]) || !IsSpace(text[0]);
    }
  }

  lemma {:induction false} SpanStops(s: string, rest: string, max: nat, stop: set<char>)
    requires |s| <= max && (forall c <- s :: c !in stop) && rest != "" && rest[0] in stop
    ensures Span(s + rest, max, stop) == s
    decreases |s|
  {
    if s == "" {
      assert s + rest == rest;
    } else {
      assert (s + rest)[1..] == s[1..] + rest;
      assert s[0] in s;
      SpanStops(s[1..], rest, max - 1, stop);
    }
  }

  lemma ConversionReadsBack(conversion: Directive, v: Value, rest: string, format: seq<Directive>)
    requires rest != "" && ReadsBack(conversion, v, rest[0])
    ensures Scanf([conversion] + format, Show(v) + rest) == [v] + Scanf(format, rest)
  {
    assert ([conversion] + format)[1..] == format;
    if conversion.Int? {
      ScanPrinted(v.n, rest);
    } else {
      SpanStops(v.s, rest, conversion.max, conversion.stop);
      assert (v.s + rest)[|v.s|..] == rest;
    }
  }

  lemma PrintStarts(layout: seq<Field>, values: seq<Value>, k: nat)
    requires k < |layout| == |values| && forall f <- layout :: f.before != ""
    ensures PrintFrom(layout, values, k + 1) != "" && PrintFrom(layout, values, k + 1)[0] == NextChar(layout, k)
  {
  }

  lemma FieldReadsBack(before: string, f: Field, v: Value, rest: string, after: seq<Directive>)
    requires Reindents(before, f.before) && f.before != "" && rest != "" && ReadsBack(f.conversion, v, rest[0])
    requires IsSpace(f.before[|f.before| - 1]) ==> !IsSpace(Show(v)[0])
    ensures Scanf(Plain(f.before) + ([f.conversion] + after), before + (Show(v) + rest)) == [v] + Scanf(after, rest)
  {
    PlainMatches(before, f.before, [f.conversion] + after, Show(v) + rest, false);
    ConversionReadsBack(f.conversion, v, rest, after);
  }

  /** The same fields, with other white space between them. */
  ghost predicate ReindentsAll(loose: seq<Field>, layout: seq<Field>) {
    && |loose| == |layout|
    && (forall f <- layout :: f.before != "" && !IsSpace(f.before[0]))
    && (forall k :: 0 <= k < |layout| ==> Reindents(loose[k].before, layout[k].before))
  }

  lemma LoosePrintStarts(loose: seq<Field>, layout: seq<Field>, values: seq<Value>, k: nat)
    requires ReindentsAll(loose, layout) && k < |layout| == |values|
    ensures PrintFrom(loose, values, k + 1) != "" && PrintFrom(loose, values, k + 1)[0] == NextChar(layout, k)
  {
    if k + 1 < |layout| {
      assert layout[k + 1] in layout && Reindents(loose[k + 1].before, layout[k + 1].before);
    }
  }

  /** A scanf format reads every scannable list of values back from a text printed with any white space where the
      format has some, and with none where it has none. */
  lemma {:induction false} ScanReindented(layout: seq<Field>, loose: seq<Field>, values: seq<Value>, k: nat)
    requires Scannable(layout, values) && ReindentsAll(loose, layout) && k <= |layout|
    ensures Scanf(FormatFrom(layout, k), PrintFrom(loose, values, k)) == values[k..]
    decreases |layout| - k
  {
    if k == |layout| {
      assert Plain("}") == [Literal('}')] + Plain("");
    } else {
      assert layout[k] in layout && FieldScannable(layout, values, k);
      LoosePrintStarts(loose, layout, values, k);
      FieldReadsBack(loose[k].before, layout[k], values[k], PrintFrom(loose, values, k + 1), FormatFrom(layout, k + 1));
      ScanReindented(layout, loose, values, k + 1);
      assert values[k..] == [values[k]] + values[k + 1..];
    }
  }

  /** In particular from the text printed with the format's own white space. */
  lemma ScanPrint(layout: seq<Field>, values: seq<Value>, k: nat)
    requires Scannable(layout, values) && k <= |layout| && forall f <- layout :: !IsSpace(f.before[0])
    ensures Scanf(FormatFrom(layout, k), PrintFrom(layout, values, k)) == values[k..]
  {
    forall j | 0 <= j < |layout|
      ensures Reindents(layout[j].before, layout[j].before)
    {
      SelfReindents(layout[j].before);
    }
    ScanReindented(layout, layout, values, k);
  }

  lemma FieldReadsItselfBack(f: Field, v: Value, rest: string, after: seq<Directive>)
    requires f.before != "" && rest != "" && ReadsBack(f.conversion, v, rest[0])
    requires IsSpace(f.before[|f.before| - 1]) ==> !IsSpace(Show(v)[0])
    ensures Scanf(Plain(f.before) + ([f.conversion] + after), f.before + (Show(v) + rest)) == [v] + Scanf(after, rest)
  {
    SelfReindents(f.before);
    FieldReadsBack(f.before, f, v, rest, after);
  }

  lemma EmptyFieldStops(f: Field, rest: string, after: seq<Directive>)
    requires f.before != "" && !IsSpace(f.before[|f.before| - 1]) && rest != ""
    requires f.conversion.Until? && rest[0] in f.conversion.stop
    ensures Scanf(Plain(f.before) + ([f.conversion] + after), f.before + ("" + rest)) == []
  {
    assert "" + rest == rest && ([f.conversion] + after)[1..] == after;
    SelfReindents(f.before);
    PlainMatches(f.before, f.before, [f.conversion] + after, rest, false);
  }

  /** An empty string field matches no character: scanning stops there, with the values before it. */
  lemma {:induction false} ScanStops(layout: seq<Field>, values: seq<Value>, k: nat, end: nat)
    requires |layout| == |values| && k <= end < |layout| && (forall f <- layout :: f.before != "")
    requires forall j :: k <= j < end ==> FieldScannable(layout, values, j)
    requires layout[end].conversion.Until? && values[end] == TextValue("")
    requires NextChar(layout, end) in layout[end].conversion.stop
    requires !IsSpace(layout[end].before[|layout[end].before| - 1])
    ensures Scanf(FormatFrom(layout, k), PrintFrom(layout, values, k)) == values[k..end]
    decreases end - k
  {
    PrintStarts(layout, values, k);
    var f, rest, after := layout[k], PrintFrom(layout, values, k + 1), FormatFrom(layout, k + 1);
    if k == end {
      EmptyFieldStops(f, rest, after);
    } else {
      assert f in layout && FieldScannable(layout, values, k);
      FieldReadsItselfBack(f, values[k], rest, after);
      ScanStops(layout, values, k + 1, end);
      assert values[k..end] == [values[k]] + values[k + 1..end];
    }
  }

  // ---- what scanf can produce at all ----

  predicate Producible(conversion: Directive, v: Value) {
    match conversion
    case Int => v.IntValue?
    case Until(max, stop) => v.TextValue? && v.s != "" && |v.s| <= max && forall c <- v.s :: c !in stop
    case _ => false
  }

  lemma {:induction false} PlainConsumes(text: string, format: seq<Directive>, input: string) returns (rest: string)
    ensures Scanf(Plain(text) + format, input) == [] || Scanf(Plain(text) + format, input) == Scanf(format, rest)
    decreases |text|
  {
    rest := input;
    if text == "" {
      assert Plain(text) + format == format;
    } else {
      assert (Plain(text) + format)[1..] == Plain(text[1..]) + format;
      if IsSpace(text[0]) {
        rest := PlainConsumes(text[1..], format, SkipSpaces(input));
      } else if input != "" && input[0] == text[0] {
        rest := PlainConsumes(text[1..], format, input[1..]);
      }
    }
  }

  predicate Converting(layout: seq<Field>) {
    forall f <- layout :: f.conversion.Int? || f.conversion.Until?
  }

  /** Every completed conversion yields a value of its own kind. */
  lemma {:induction false} ScanProduces(layout: seq<Field>, k: nat, input: string)
    requires k <= |layout| && Converting(layout)
    ensures var vs := Scanf(FormatFrom(layout, k), input);
            |vs| <= |layout| - k && forall j :: 0 <= j < |vs| ==> Producible(layout[k + j].conversion, vs[j])
    decreases |layout| - k
  {
    if k == |layout| {
      var rest := PlainConsumes("}", [], input);
      assert Plain("}") + [] == Plain("}");
    } else {
      var f := layout[k];
      assert f in layout;
      var after := FormatFrom(layout, k + 1);
      var rest := PlainConsumes(f.before, [f.conversion] + after, input);
      assert ([f.conversion] + after)[1..] == after;
      if f.conversion.Int? {
        var n := ScanInteger(rest);
        if n.Number? {
          ScanProduces(layout, k + 1, n.rest);
        }
      } else {
        var s := Span(rest, f.conversion.max, f.conversion.stop);
        ScanProduces(layout, k + 1, rest[|s|..]);
      }
    }
  }

  // ---- the round trip ----

  /** A string the file can hold. */
  predicate Quotable(s: string) {
    s != "" && '\"' !in s
  }

  /** All the text of the layout that the round trip depends on: how each piece begins and ends. */
  lemma LayoutFacts(k: nat)
    requires k < 10
    ensures |LAYOUT| == 10 && LAYOUT[k].before != ""
    ensures LAYOUT[k].before[0] == if k == 0 then '{' else if k == 1 || k == 3 then '\"' else ','
    ensures IsSpace(LAYOUT[k].before[|LAYOUT[k].before| - 1]) <==> k != 0 && k != 2
    ensures LAYOUT[k].conversion == if k == 0 then Until(63, {'\"'}) else if k == 2 then Until(31, {'\"'})
                                    else if k == 7 then Until(7, {',', '\n'}) else Int
  {
  }

  lemma ShowsNoSpace(v: Value)
    requires v.IntValue? || v == TextValue("true") || v == TextValue("false")
    ensures Show(v) != "" && !IsSpace(Show(v)[0])
  {
  }

  lemma ValueFacts(c: Config, k: nat)
    requires Storable(c) && k < 10 && (k == 0 ==> Quotable(c.server)) && (k == 2 ==> Quotable(c.deviceName))
    ensures |ValuesOf(c)| == 10
    ensures var v := ValuesOf(c)[k];
            if k == 0 then v == TextValue(c.server) else if k == 2 then v == TextValue(c.deviceName)
            else if k == 7 then v == TextValue("true") || v == TextValue("false") else v.IntValue?
    ensures Show(ValuesOf(c)[k]) != ""
  {
  }

  lemma NextCharFacts(k: nat)
    requires k < 10 && forall f <- LAYOUT :: f.before != ""
    ensures |LAYOUT| == 10
    ensures NextChar(LAYOUT, k) == if k == 0 || k == 2 then '\"' else if k == 9 then '}' else ','
  {
    LayoutFacts(k);
    if k < 9 {
      LayoutFacts(k + 1);
    }
  }

  /** What each field's text can hold is read back by its conversion before what follows it. */
  lemma ValueReadsBack(c: Config, k: nat, conversion: Directive, v: Value, next: char)
    requires Storable(c) && k < 10 && (k == 0 ==> Quotable(c.server)) && (k == 2 ==> Quotable(c.deviceName))
    requires conversion == if k == 0 then Until(63, {'\"'}) else if k == 2 then Until(31, {'\"'})
                           else if k == 7 then Until(7, {',', '\n'}) else Int
    requires if k == 0 then v == TextValue(c.server) else if k == 2 then v == TextValue(c.deviceName)
             else if k == 7 then v == TextValue("true") || v == TextValue("false") else v.IntValue?
    requires next == if k == 0 || k == 2 then '\"' else if k == 9 then '}' else ','
    ensures ReadsBack(conversion, v, next)
  {
  }

  lemma FieldIsScannable(c: Config, k: nat)
    requires Storable(c) && k < 10 && (k == 0 ==> Quotable(c.server)) && (k == 2 ==> Quotable(c.deviceName))
    requires forall f <- LAYOUT :: f.before != ""
    ensures |LAYOUT| == |ValuesOf(c)| == 10 && FieldScannable(LAYOUT, ValuesOf(c), k)
  {
    LayoutFacts(k);
    NextCharFacts(k);
    ValueFacts(c, k);
    var v := ValuesOf(c)[k];
    ValueReadsBack(c, k, LAYOUT[k].conversion, v, NextChar(LAYOUT, k));
    if k != 0 && k != 2 {
      ShowsNoSpace(v);
    }
  }

  lemma LayoutIsText()
    ensures forall f <- LAYOUT :: f.before != ""
  {
    forall f | f in LAYOUT
      ensures f.before != ""
    {
      var k :| 0 <= k < |LAYOUT| && LAYOUT[k] == f;
      LayoutFacts(k);
    }
  }

  lemma LayoutStartsPlain()
    ensures forall f <- LAYOUT :: f.before != "" && !IsSpace(f.before[0])
  {
    forall f | f in LAYOUT
      ensures f.before != "" && !IsSpace(f.before[0])
    {
      var k :| 0 <= k < |LAYOUT| && LAYOUT[k] == f;
      LayoutFacts(k);
    }
  }

  lemma LayoutScannable(c: Config)
    requires Storable(c) && Quotable(c.server) && Quotable(c.deviceName)
    ensures Scannable(LAYOUT, ValuesOf(c))
  {
    LayoutIsText();
    forall k | 0 <= k < 10
      ensures FieldScannable(LAYOUT, ValuesOf(c), k)
    {
      FieldIsScannable(c, k);
    }
  }

  lemma ValuesRoundTrip(c: Config)
    ensures FromValues(ValuesOf(c)) == c
  {
  }

  lemma QuotableRoundTrip(c: Config)
    requires Storable(c) && Quotable(c.server) && Quotable(c.deviceName)
    ensures Conversions(Render(c)) == ValuesOf(c)
  {
    LayoutScannable(c);
    LayoutStartsPlain();
    ScanPrint(LAYOUT, ValuesOf(c), 0);
  }

  /** So the file may be re-indented by hand: any amount of white space where the layout has some, and none where it has
      none, still loads the same configuration. */
  lemma ReindentedFileLoads(c: Config, loose: seq<Field>)
    requires Storable(c) && Quotable(c.server) && Quotable(c.deviceName) && ReindentsAll(loose, LAYOUT)
    ensures |loose| == |ValuesOf(c)| && Load(PrintFrom(loose, ValuesOf(c), 0)) == c
  {
    LayoutScannable(c);
    ScanReindented(LAYOUT, loose, ValuesOf(c), 0);
    ValuesRoundTrip(c);
  }

  lemma LayoutConverts()
    ensures Converting(LAYOUT) && |LAYOUT| == 10
  {
    LayoutFacts(0);
    forall f | f in LAYOUT
      ensures f.conversion.Int? || f.conversion.Until?
    {
      var k :| 0 <= k < |LAYOUT| && LAYOUT[k] == f;
      LayoutFacts(k);
    }
  }

  lemma ProducedText(layout: seq<Field>, input: string, k: nat, max: nat)
    requires Converting(layout) && k < |layout| && layout[k].conversion == Until(max, {'\"'})
    requires |Scanf(FormatFrom(layout, 0), input)| == |layout|
    ensures Quotable(TextOf(Scanf(FormatFrom(layout, 0), input)[k]))
  {
    ScanProduces(layout, 0, input);
    assert Producible(layout[0 + k].conversion, Scanf(FormatFrom(layout, 0), input)[k]);
  }

  /** Whatever the file holds, ten conversions only ever yield quotable strings. */
  lemma LoadedIsQuotable(text: string)
    ensures |Conversions(text)| == 10 ==> Quotable(Load(text).server) && Quotable(Load(text).deviceName)
  {
    if |Conversions(text)| == 10 {
      LayoutConverts();
      LayoutFacts(0);
      LayoutFacts(2);
      ProducedText(LAYOUT, text, 0, 63);
      ProducedText(LAYOUT, text, 2, 31);
    }
  }

  /** Loading what was saved completes all ten conversions and restores every field, a negative VLAN id included,
      exactly when both strings are non-empty and free of quotes. */
  lemma FileRoundTripIff(c: Config)
    requires Storable(c)
    ensures |Conversions(Render(c))| == 10 && Load(Render(c)) == c <==> Quotable(c.server) && Quotable(c.deviceName)
  {
    if Quotable(c.server) && Quotable(c.deviceName) {
      QuotableRoundTrip(c);
      ValuesRoundTrip(c);
    } else if |Conversions(Render(c))| == 10 {
      LoadedIsQuotable(Render(c));
    }
  }

  /** The empty string is in the file, between quotes. */
  lemma EmptyField(c: Config, end: nat)
    requires (end == 0 && c.server == "") || (end == 2 && c.deviceName == "")
    ensures |LAYOUT| == |ValuesOf(c)| == 10 && (forall f <- LAYOUT :: f.before != "")
    ensures LAYOUT[end].conversion.Until? && ValuesOf(c)[end] == TextValue("")
    ensures NextChar(LAYOUT, end) in LAYOUT[end].conversion.stop
    ensures !IsSpace(LAYOUT[end].before[|LAYOUT[end].before| - 1])
  {
    LayoutIsText();
    LayoutFacts(end);
    NextCharFacts(end);
  }

  lemma StopsAt(c: Config, end: nat)
    requires Storable(c)
    requires (end == 0 && c.server == "") || (end == 2 && c.deviceName == "" && Quotable(c.server))
    ensures |Conversions(Render(c))| == end
  {
    EmptyField(c, end);
    forall j | 0 <= j < end
      ensures FieldScannable(LAYOUT, ValuesOf(c), j)
    {
      FieldIsScannable(c, j);
    }
    StopsAtField(LAYOUT, ValuesOf(c), end);
  }

  lemma StopsAtField(layout: seq<Field>, values: seq<Value>, end: nat)
    requires |layout| == |values| && end < |layout| && (forall f <- layout :: f.before != "")
    requires forall j :: 0 <= j < end ==> FieldScannable(layout, values, j)
    requires layout[end].conversion.Until? && values[end] == TextValue("")
    requires NextChar(layout, end) in layout[end].conversion.stop
    requires !IsSpace(layout[end].before[|layout[end].before| - 1])
    ensures |Scanf(FormatFrom(layout, 0), PrintFrom(layout, values, 0))| == end
  {
    ScanStops(layout, values, 0, end);
  }

  /** What loading a saved configuration without quotes gives: the same again, or, if one of the strings is empty, the
      defaults for every field. */
  lemma SavedThenLoaded(c: Config)
    requires Storable(c) && '\"' !in c.server && '\"' !in c.deviceName
    ensures Load(Render(c)) == if c.server != "" && c.deviceName != "" then c else DEFAULTS
  {
    if c.server == "" {
      StopsAt(c, 0);
    } else if c.deviceName == "" {
      StopsAt(c, 2);
    } else {
      FileRoundTripIff(c);
    }
  }

  // ---- the code ----

  datatype Option<T> = None | Some(value: T)
  datatype Status = Saved | NotMounted | CannotOpen

  /** The static configuration and the settings file on the USB stick. */
  class ConfigStore {
    var current: Config
    var mounted: bool
    var file: Option<string>

    constructor (file: Option<string>, mounted: bool)
      ensures current == DEFAULTS && this.mounted == mounted && this.file == file
    {
      current, this.mounted, this.file := DEFAULTS, mounted, file;
    }

    /** config_save; `opens` says whether fopen succeeds. */
    method Save(cfg: Config, opens: bool) returns (status: Status)
      modifies this`current, this`file
      ensures status == if !mounted then NotMounted else if !opens then CannotOpen else Saved
      ensures status == Saved ==> file == Some(Render(cfg)) && current == cfg
      ensures status != Saved ==> file == old(file) && current == old(current)
    {
      if !mounted {
        return NotMounted;
      }
      if !opens {
        return CannotOpen;
      }
      file := Some(Render(cfg));
      current := cfg;
      status := Saved;
    }

    method StoreValues(vs: seq<Value>)
      requires |vs| == 10
      modifies this`current
      ensures current == FromValues(vs)
    {
      current := current.(server := TextOf(vs[0]), port := ToU16(IntOf(vs[1])), deviceName := TextOf(vs[2]));
      current := current.(screenWidth := ToU16(IntOf(vs[3])), screenHeight := ToU16(IntOf(vs[4])),
                          scaling := ToU16(IntOf(vs[5])));
      current := current.(jiggleInterval := ToU16(IntOf(vs[6])), keepAwake := TextOf(vs[7]) == "true",
                          keyboardLayout := IntOf(vs[8]) % 0x100, vlanId := SignedU16(ToU16(IntOf(vs[9]))));
    }

    /** config_load */
    method LoadFile()
      modifies this`current
      ensures current == if mounted && file.Some? then Load(file.value) else DEFAULTS
    {
      current := DEFAULTS;
      if !mounted || file.None? {
        return;
      }
      var vs := Conversions(file.value);
      if |vs| == 10 {
        StoreValues(vs);
      }
    }
  }
}
