/** The settings texts written out: the file, with and without white space, and the text of the web API
    (main/config/config.c, main/web/web_server.c). */
module SettingsTexts {
  import opened HidScaling
  import opened WireBytes
  import opened Text
  import opened ConfigFile
  import opened WebSettings

  // ---- the file ----

  function FileEnd(c: Config): string {
    ",\n \"jiggle_interval\": " + (Decimal(c.jiggleInterval)
    + (",\n \"keep_awake\": " + ((if c.keepAwake then "true" else "false")
    + (",\n \"keyboard_layout\": " + (Decimal(c.keyboardLayout)
    + (",\n \"vlan_id\": " + (SignedDecimal(c.vlanId) + "}")))))))
  }

  function FileMiddle(c: Config): string {
    "\",\n \"screen_width\": " + (Decimal(c.screenWidth)
    + (",\n \"screen_height\": " + (Decimal(c.screenHeight)
    + (",\n \"scaling\": " + (Decimal(c.scaling) + FileEnd(c))))))
  }

  function FileText(c: Config): string {
    "{ \"server\": \"" + (c.server
    + ("\",\n \"port\": " + (Decimal(c.port)
    + (",\n \"device_name\": \"" + (c.deviceName + FileMiddle(c))))))
  }

  lemma EndIsPrinted(c: Config)
    ensures PrintFrom(LAYOUT, ValuesOf(c), 6) == FileEnd(c)
  {
    assert PrintFrom(LAYOUT, ValuesOf(c), 10) == "}";
    assert PrintFrom(LAYOUT, ValuesOf(c), 8) ==
           ",\n \"keyboard_layout\": " + (Decimal(c.keyboardLayout)
           + (",\n \"vlan_id\": " + (SignedDecimal(c.vlanId) + "}")));
  }

  lemma MiddleIsPrinted(c: Config)
    ensures PrintFrom(LAYOUT, ValuesOf(c), 3) == FileMiddle(c)
  {
    EndIsPrinted(c);
    assert PrintFrom(LAYOUT, ValuesOf(c), 5) == ",\n \"scaling\": " + (Decimal(c.scaling) + FileEnd(c));
  }

  /** The file as config_save writes it. */
  lemma FileIs(c: Config)
    ensures Render(c) == FileText(c)
  {
    MiddleIsPrinted(c);
    assert PrintFrom(LAYOUT, ValuesOf(c), 2) == ",\n \"device_name\": \"" + (c.deviceName + FileMiddle(c));
  }

  // ---- the web text ----

  function WebEnd(c: Config): string {
    ",\"jiggle_interval\":" + (Decimal(c.jiggleInterval)
    + (",\"keep_awake\":" + ((if c.keepAwake then "1" else "0")
    + (",\"keyboard_layout\":" + (Decimal(c.keyboardLayout)
    + (",\"vlan_id\":" + (SignedDecimal(c.vlanId) + "}")))))))
  }

  function WebMiddle(c: Config): string {
    ",\"screen_width\":" + (Decimal(c.screenWidth)
    + (",\"screen_height\":" + (Decimal(c.screenHeight)
    + (",\"scaling\":" + (Decimal(c.scaling) + WebEnd(c))))))
  }

  function WebName(c: Config): string {
    ",\"device_name\":\"" + (c.deviceName + ("\"" + WebMiddle(c)))
  }

  function WebText(c: Config): string {
    "{\"server\":\"" + (c.server + ("\",\"port\":" + (Decimal(c.port) + WebName(c))))
  }

  lemma EndLabels()
    ensures "," + Key("jiggle_interval") == ",\"jiggle_interval\":" && "," + Key("keep_awake") == ",\"keep_awake\":"
  {
  }

  lemma LastLabels()
    ensures "," + Key("keyboard_layout") == ",\"keyboard_layout\":" && "," + Key("vlan_id") == ",\"vlan_id\":"
  {
  }

  lemma MiddleLabels()
    ensures "," + Key("screen_width") == ",\"screen_width\":" && "," + Key("screen_height") == ",\"screen_height\":"
    ensures "," + Key("scaling") == ",\"scaling\":"
  {
  }

  lemma FirstLabels()
    ensures "{" + Key("server") + "\"" == "{\"server\":\"" && "\"" + ("," + Key("port")) == "\",\"port\":"
    ensures "," + Key("device_name") + "\"" == ",\"device_name\":\""
  {
  }

  lemma TailStep(ms: seq<Member>, k: nat, key: string, value: string, rest: string)
    requires k < |ms| && key == "," + Key(ms[k].name) && ms[k].value == value && Tail(ms[k + 1..]) == rest
    ensures Tail(ms[k..]) == key + (value + rest)
  {
    assert ms[k..][1..] == ms[k + 1..];
    assert Tail(ms[k..]) == "," + (Key(ms[k].name) + (value + rest));
  }

  lemma EndOfMembers(c: Config, ms: seq<Member>)
    requires |ms| == 10
    requires ms[6] == Member("jiggle_interval", Decimal(c.jiggleInterval))
    requires ms[7] == Member("keep_awake", if c.keepAwake then "1" else "0")
    requires ms[8] == Member("keyboard_layout", Decimal(c.keyboardLayout))
    requires ms[9] == Member("vlan_id", SignedDecimal(c.vlanId))
    ensures Tail(ms[6..]) == WebEnd(c)
  {
    EndLabels();
    LastLabels();
    var vlan := ",\"vlan_id\":" + (SignedDecimal(c.vlanId) + "}");
    var layout := ",\"keyboard_layout\":" + (Decimal(c.keyboardLayout) + vlan);
    var awake := ",\"keep_awake\":" + ((if c.keepAwake then "1" else "0") + layout);
    TailStep(ms, 9, ",\"vlan_id\":", SignedDecimal(c.vlanId), "}");
    TailStep(ms, 8, ",\"keyboard_layout\":", Decimal(c.keyboardLayout), vlan);
    TailStep(ms, 7, ",\"keep_awake\":", if c.keepAwake then "1" else "0", layout);
    TailStep(ms, 6, ",\"jiggle_interval\":", Decimal(c.jiggleInterval), awake);
  }

  lemma MiddleOfMembers(c: Config, ms: seq<Member>)
    requires |ms| == 10 && Tail(ms[6..]) == WebEnd(c)
    requires ms[3] == Member("screen_width", Decimal(c.screenWidth))
    requires ms[4] == Member("screen_height", Decimal(c.screenHeight)) && ms[5] == Member("scaling", Decimal(c.scaling))
    ensures Tail(ms[3..]) == WebMiddle(c)
  {
    MiddleLabels();
    var scaling := ",\"scaling\":" + (Decimal(c.scaling) + WebEnd(c));
    TailStep(ms, 5, ",\"scaling\":", Decimal(c.scaling), WebEnd(c));
    TailStep(ms, 4, ",\"screen_height\":", Decimal(c.screenHeight), scaling);
    TailStep(ms, 3, ",\"screen_width\":", Decimal(c.screenWidth),
             ",\"screen_height\":" + (Decimal(c.screenHeight) + scaling));
  }

  lemma QuotedStep(ms: seq<Member>, k: nat, key: string, s: string, rest: string)
    requires k < |ms| && key == "," + Key(ms[k].name) && ms[k].value == Quoted(s) && Tail(ms[k + 1..]) == rest
    ensures Tail(ms[k..]) == (key + "\"") + (s + ("\"" + rest))
  {
    TailStep(ms, k, key, Quoted(s), rest);
    assert key + (Quoted(s) + rest) == (key + "\"") + (s + ("\"" + rest));
  }

  lemma NameOfMembers(c: Config, ms: seq<Member>)
    requires |ms| == 10 && Tail(ms[3..]) == WebMiddle(c) && ms[2] == Member("device_name", Quoted(c.deviceName))
    ensures Tail(ms[2..]) == WebName(c)
  {
    FirstLabels();
    QuotedStep(ms, 2, "," + Key("device_name"), c.deviceName, WebMiddle(c));
  }

  lemma WholeText(ms: seq<Member>, server: string, port: string, key: string, rest: string)
    requires |ms| > 1 && ms[0] == Member("server", Quoted(server)) && ms[1].value == port && Tail(ms[2..]) == rest
    requires key == "," + Key(ms[1].name)
    ensures "{" + MemberText(ms) == ("{" + Key("server") + "\"") + (server + (("\"" + key) + (port + rest)))
  {
    TailStep(ms, 1, key, port, rest);
    FirstMember(server, ms, key + (port + rest));
    Requoted("{" + Key("server"), server, key, port + rest);
  }

  lemma Requoted(first: string, server: string, key: string, rest: string)
    ensures first + (Quoted(server) + (key + rest)) == (first + "\"") + (server + (("\"" + key) + rest))
  {
  }

  lemma FirstMember(server: string, ms: seq<Member>, rest: string)
    requires ms != [] && ms[0] == Member("server", Quoted(server)) && Tail(ms[1..]) == rest
    ensures "{" + MemberText(ms) == ("{" + Key("server")) + (Quoted(server) + rest)
  {
  }

  /** The text of the web API. */
  lemma WebIs(c: Config)
    ensures Json(c) == WebText(c)
  {
    var ms := Members(c);
    EndOfMembers(c, ms);
    MiddleOfMembers(c, ms);
    NameOfMembers(c, ms);
    FirstLabels();
    WholeText(ms, c.server, Decimal(c.port), "," + Key("port"), WebName(c));
  }

  // ---- white space ----

  function Squeeze(s: string): string {
    if s == "" then "" else (if IsSpace(s[0]) then "" else [s[0]]) + Squeeze(s[1..])
  }

  lemma {:induction false} SqueezeReindents(s: string)
    ensures Reindents(Squeeze(s), s)
    decreases |s|
  {
    if s != "" {
      SqueezeReindents(s[1..]);
      if IsSpace(s[0]) {
        assert Squeeze(s)[..0] == "" && Squeeze(s)[0..] == Squeeze(s[1..]);
      }
    }
  }

  /** The layout without any white space. */
  function Compact(layout: seq<Field>): seq<Field> {
    seq(|layout|, k requires 0 <= k < |layout| => layout[k].(before := Squeeze(layout[k].before)))
  }

  /** A file without any white space between its values loads the same. */
  lemma CompactFileLoads(c: Config)
    requires Storable(c) && Quotable(c.server) && Quotable(c.deviceName)
    ensures |Compact(LAYOUT)| == |ValuesOf(c)| && Load(PrintFrom(Compact(LAYOUT), ValuesOf(c), 0)) == c
  {
    LayoutStartsPlain();
    LayoutReindents(LAYOUT);
    ReindentedFileLoads(c, Compact(LAYOUT));
  }

  lemma LayoutReindents(layout: seq<Field>)
    requires forall f <- layout :: f.before != "" && !IsSpace(f.before[0])
    ensures ReindentsAll(Compact(layout), layout)
  {
    forall k | 0 <= k < |layout|
      ensures Reindents(Compact(layout)[k].before, layout[k].before)
    {
      SqueezeReindents(layout[k].before);
    }
  }

  /** A file that does not begin with the brace, were it only for white space before it, gives the defaults. */
  lemma BraceComesFirst(text: string)
    requires text == "" || text[0] != '{'
    ensures Load(text) == Config("192.168.1.10", 24800, "deskflow-client", false, 30, 1920, 1080, 100, 0, -1)
  {
    LayoutFacts(0);
    FormatBegins(LAYOUT, text);
  }

  /** What a file that is read in full gives: numbers are cut down to the width of their fields, and only the text
      "true" turns the switch on. */
  lemma LoadedFieldsAre(text: string)
    requires |Conversions(text)| == 10
    ensures var vs, c := Conversions(text), Load(text);
            && c.port == IntOf(vs[1]) % 65536 && c.screenWidth == IntOf(vs[3]) % 65536
            && c.screenHeight == IntOf(vs[4]) % 65536 && c.scaling == IntOf(vs[5]) % 65536
            && c.jiggleInterval == IntOf(vs[6]) % 65536 && c.keyboardLayout == IntOf(vs[8]) % 256
            && (c.keepAwake <==> TextOf(vs[7]) == "true")
            && c.vlanId % 65536 == IntOf(vs[9]) % 65536 && -32768 <= c.vlanId < 32768
            && c.server == TextOf(vs[0]) && c.deviceName == TextOf(vs[2])
  {
    ValuesGive(Conversions(text));
  }

  lemma ValuesGive(vs: seq<Value>)
    requires |vs| == 10
    ensures var c := FromValues(vs);
            && c.port == IntOf(vs[1]) % 65536 && c.screenWidth == IntOf(vs[3]) % 65536
            && c.screenHeight == IntOf(vs[4]) % 65536 && c.scaling == IntOf(vs[5]) % 65536
            && c.jiggleInterval == IntOf(vs[6]) % 65536 && c.keyboardLayout == IntOf(vs[8]) % 256
            && (c.keepAwake <==> TextOf(vs[7]) == "true")
            && c.vlanId % 65536 == IntOf(vs[9]) % 65536 && -32768 <= c.vlanId < 32768
            && c.server == TextOf(vs[0]) && c.deviceName == TextOf(vs[2])
  {
  }

  lemma FormatBegins(layout: seq<Field>, text: string)
    requires layout != [] && layout[0].before != "" && layout[0].before[0] == '{'
    requires text == "" || text[0] != '{'
    ensures Scanf(FormatFrom(layout, 0), text) == []
  {
    assert Plain(layout[0].before)[0] == Literal('{');
  }
}
