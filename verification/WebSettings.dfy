/** The web API's settings text: settings_get_handler prints it, settings_post_handler searches it for
    keys (main/web/web_server.c). */
module WebSettings {
  import opened HidScaling
  import opened WireBytes
  import opened Text
  import opened ConfigFile

  // ---- C string searching ----

  /** strstr, then the pointer moved past the match. */
  function After(text: string, pattern: string): Option<string> {
    if pattern <= text then Some(text[|pattern|..])
    else if text == "" then None
    else After(text[1..], pattern)
  }

  /** strchr for a quote, as an offset. */
  function QuoteAt(text: string): (at: Option<nat>)
    ensures at.Some? ==> at.value < |text| && text[at.value] == '\"' && '\"' !in text[..at.value]
    ensures at.None? ==> '\"' !in text
  {
    if text == "" then None
    else if text[0] == '\"' then Some(0)
    else
      var rest := QuoteAt(text[1..]);
      if rest.None? then None else Some(rest.value + 1)
  }

  function Key(name: string): string {
    "\"" + name + "\":"
  }

  function Quoted(s: string): string {
    "\"" + s + "\""
  }

  // ---- the GET text ----

  datatype Member = Member(name: string, value: string)

  const NAMES: seq<string> := [
    "server", "port", "device_name", "screen_width", "screen_height", "scaling",
    "jiggle_interval", "keep_awake", "keyboard_layout", "vlan_id"]

  function Members(c: Config): seq<Member> {
    [Member("server", Quoted(c.server)), Member("port", Decimal(c.port)), Member("device_name", Quoted(c.deviceName)),
     Member("screen_width", Decimal(c.screenWidth)), Member("screen_height", Decimal(c.screenHeight)),
     Member("scaling", Decimal(c.scaling)), Member("jiggle_interval", Decimal(c.jiggleInterval)),
     Member("keep_awake", if c.keepAwake then "1" else "0"), Member("keyboard_layout", Decimal(c.keyboardLayout)),
     Member("vlan_id", SignedDecimal(c.vlanId))]
  }

  function Tail(ms: seq<Member>): string
    decreases |ms|, 1
  {
    if ms == [] then "}" else "," + MemberText(ms)
  }

  function MemberText(ms: seq<Member>): string
    requires ms != []
    decreases |ms|, 0
  {
    Key(ms[0].name) + (ms[0].value + Tail(ms[1..]))
  }

  /** The text snprintf would produce with room enough. */
  function Json(c: Config): string {
    "{" + MemberText(Members(c))
  }

  const GET_BUFFER: nat := 256

  datatype Response = Complete(text: string) | Overlong

  /** settings_get_handler sends as many bytes as the text needed, from a buffer of 256. */
  function GetResponse(c: Config): Response {
    if |Json(c)| < GET_BUFFER then Complete(Json(c)) else Overlong
  }

  // ---- the POST extraction ----

  /** The text before the next quote, if there is one and the field can hold it. */
  function UpToQuote(s: string, size: nat, was: string): string {
    match QuoteAt(s)
    case None => was
    case Some(n) => if n < size then s[..n] else was
  }

  function ReadString(buf: string, name: string, size: nat, was: string): string {
    match After(buf, Key(name) + "\"")
    case None => was
    case Some(s) => UpToQuote(s, size, was)
  }

  function ReadUnsigned(buf: string, name: string, was: nat): nat {
    match After(buf, Key(name))
    case None => was
    case Some(s) => StrToUl(s)
  }

  predicate ValidVlan(vlan: int) {
    vlan == -1 || 1 <= vlan <= 4094
  }

  function ReadVlan(buf: string, was: i16): i16 {
    match After(buf, Key("vlan_id"))
    case None => was
    case Some(s) =>
      var vid := SignedU16(ToU16(StrToL(s)));
      if ValidVlan(vid) then vid else was
  }

  function PostStrings(buf: string, cfg: Config): Config {
    cfg.(server := ReadString(buf, "server", 64, cfg.server),
         deviceName := ReadString(buf, "device_name", 32, cfg.deviceName))
  }

  function PostScreen(buf: string, cfg: Config): Config {
    cfg.(port := ToU16(ReadUnsigned(buf, "port", cfg.port)),
         screenWidth := ToU16(ReadUnsigned(buf, "screen_width", cfg.screenWidth)),
         screenHeight := ToU16(ReadUnsigned(buf, "screen_height", cfg.screenHeight)),
         scaling := ToU16(ReadUnsigned(buf, "scaling", cfg.scaling)))
  }

  function PostBehaviour(buf: string, cfg: Config): Config {
    cfg.(jiggleInterval := ToU16(ReadUnsigned(buf, "jiggle_interval", cfg.jiggleInterval)),
         keepAwake := ReadUnsigned(buf, "keep_awake", if cfg.keepAwake then 1 else 0) != 0,
         keyboardLayout := ReadUnsigned(buf, "keyboard_layout", cfg.keyboardLayout) % 0x100,
         vlanId := ReadVlan(buf, cfg.vlanId))
  }

  /** The configuration after every field whose key occurs in the text has been replaced. */
  function ApplyPost(buf: string, was: Config): Config {
    PostBehaviour(buf, PostScreen(buf, PostStrings(buf, was)))
  }

  // ---- finding keys ----

  predicate QuoteFree(s: string) {
    '\"' !in s
  }

  /** A member name: no quote inside, and it does not begin like the text after a quote elsewhere. */
  predicate IsName(s: string) {
    s != "" && QuoteFree(s) && s[0] != ':' && s[0] != ',' && s[0] != '}'
  }

  /** A member value that cannot hide a key. */
  ghost predicate Benign(v: string) {
    QuoteFree(v) || (exists s :: v == Quoted(s) && QuoteFree(s))
  }

  lemma {:induction false} AfterPlain(plain: string, rest: string, pattern: string)
    requires QuoteFree(plain) && pattern != "" && pattern[0] == '\"'
    ensures After(plain + rest, pattern) == After(rest, pattern)
    decreases |plain|
  {
    if plain == "" {
      assert plain + rest == rest;
    } else {
      assert plain[0] in plain;
      assert (plain + rest)[1..] == plain[1..] + rest;
      assert !(pattern <= plain + rest) by {
        assert (plain + rest)[0] == plain[0];
      }
      AfterPlain(plain[1..], rest, pattern);
    }
  }

  /** A key matches at a quote only if the quoted text there is its name and a colon follows. */
  lemma KeyMatches(name: string, more: string, s: string, rest: string)
    requires QuoteFree(name) && QuoteFree(s)
    requires Key(name) + more <= Quoted(s) + rest
    ensures name == s && rest != "" && rest[0] == ':'
  {
    var pattern, text := Key(name) + more, Quoted(s) + rest;
    assert forall i :: 0 <= i < |pattern| ==> pattern[i] == text[i];
    assert forall i :: 0 <= i < |name| ==> pattern[1 + i] == name[i];
    assert forall i :: 0 <= i < |s| ==> text[1 + i] == s[i];
    assert pattern[1 + |name|] == '\"' && text[1 + |s|] == '\"';
    assert pattern[2 + |name|] == ':';
  }

  lemma MissAtQuote(s: string, rest: string, name: string, more: string)
    requires IsName(name) && QuoteFree(s) && rest != "" && rest[0] != '\"' && rest[0] != name[0]
    requires s == name ==> rest[0] != ':'
    ensures After(Quoted(s) + rest, Key(name) + more) == After(rest, Key(name) + more)
  {
    var pattern := Key(name) + more;
    var text := Quoted(s) + rest;
    if pattern <= text {
      KeyMatches(name, more, s, rest);
    }
    assert text[1..] == s + ("\"" + rest);
    AfterPlain(s, "\"" + rest, pattern);
    assert pattern[1] == name[0] && ("\"" + rest)[1] == rest[0];
    assert ("\"" + rest)[1..] == rest;
  }

  /** A member under another name, with a benign value, is passed over. */
  lemma SkipMember(ms: seq<Member>, name: string, more: string)
    requires ms != [] && IsName(name) && IsName(ms[0].name) && ms[0].name != name && Benign(ms[0].value)
    ensures After(MemberText(ms), Key(name) + more) == After(Tail(ms[1..]), Key(name) + more)
  {
    var pattern := Key(name) + more;
    var n, v, tail := ms[0].name, ms[0].value, Tail(ms[1..]);
    assert MemberText(ms) == Quoted(n) + (":" + (v + tail));
    MissAtQuote(n, ":" + (v + tail), name, more);
    AfterPlain(":", v + tail, pattern);
    if QuoteFree(v) {
      AfterPlain(v, tail, pattern);
    } else {
      var s :| v == Quoted(s) && QuoteFree(s);
      MissAtQuote(s, tail, name, more);
    }
  }

  /** Every key first occurs at its own member: searching for it yields the member's value and what follows. */
  lemma {:induction false} FindMember(ms: seq<Member>, i: nat, more: string)
    requires i < |ms| && (forall j :: 0 <= j <= i ==> IsName(ms[j].name))
    requires forall j :: 0 <= j < i ==> ms[j].name != ms[i].name && Benign(ms[j].value)
    requires more <= ms[i].value
    ensures After(MemberText(ms), Key(ms[i].name) + more) == Some(ms[i].value[|more|..] + Tail(ms[i + 1..]))
    decreases i
  {
    var pattern := Key(ms[i].name) + more;
    if i == 0 {
      var value, tail := ms[0].value, Tail(ms[1..]);
      assert value + tail == more + (value[|more|..] + tail);
      assert MemberText(ms) == pattern + (value[|more|..] + tail);
    } else {
      SkipMember(ms, ms[i].name, more);
      AfterPlain(",", MemberText(ms[1..]), pattern);
      FindMember(ms[1..], i - 1, more);
      assert ms[1..][i..] == ms[i + 1..];
    }
  }

  lemma NamesAreNames(i: nat)
    requires i < 10
    ensures IsName(NAMES[i])
  {
  }

  lemma NamesDiffer(i: nat, j: nat)
    requires j < i < 10
    ensures NAMES[j] != NAMES[i]
  {
  }

  lemma MembersAreNamed(c: Config, i: nat)
    requires i < 10
    ensures Members(c)[i].name == NAMES[i]
  {
  }

  lemma MemberIsBenign(c: Config, i: nat)
    requires i < 10 && (i == 0 ==> QuoteFree(c.server)) && (i == 2 ==> QuoteFree(c.deviceName))
    ensures Benign(Members(c)[i].value)
  {
  }

  /** Key number `i` cannot be found before its own member. */
  ghost predicate Searchable(ms: seq<Member>, i: nat) {
    i < |ms| && (forall j :: 0 <= j <= i ==> IsName(ms[j].name)) &&
    (forall j :: 0 <= j < i ==> ms[j].name != ms[i].name && Benign(ms[j].value))
  }

  lemma SettingsSearchable(c: Config, i: nat)
    requires i < 10 && (i > 0 ==> QuoteFree(c.server)) && (i > 2 ==> QuoteFree(c.deviceName))
    ensures Searchable(Members(c), i) && Members(c)[i].name == NAMES[i]
  {
    var ms := Members(c);
    forall j | 0 <= j <= i
      ensures IsName(ms[j].name) && ms[j].name == NAMES[j]
    {
      NamesAreNames(j);
      MembersAreNamed(c, j);
    }
    forall j | 0 <= j < i
      ensures ms[j].name != ms[i].name && Benign(ms[j].value)
    {
      NamesDiffer(i, j);
      MemberIsBenign(c, j);
    }
  }

  lemma Locate(ms: seq<Member>, i: nat, more: string)
    requires Searchable(ms, i) && more <= ms[i].value
    ensures After("{" + MemberText(ms), Key(ms[i].name) + more) == Some(ms[i].value[|more|..] + Tail(ms[i + 1..]))
  {
    AfterPlain("{", MemberText(ms), Key(ms[i].name) + more);
    FindMember(ms, i, more);
  }

  lemma LocateValue(ms: seq<Member>, i: nat)
    requires Searchable(ms, i)
    ensures After("{" + MemberText(ms), Key(ms[i].name)) == Some(ms[i].value + Tail(ms[i + 1..]))
  {
    Locate(ms, i, "");
    assert Key(ms[i].name) + "" == Key(ms[i].name) && ms[i].value[0..] == ms[i].value;
  }

  lemma NumberIsRead(n: nat, rest: string)
    requires n < 0x1_0000 && !StartsWithDigit(rest)
    ensures StrToUl(Decimal(n) + rest) == n
  {
    ScanPrinted(n, rest);
  }

  lemma ReadsNumber(ms: seq<Member>, i: nat, n: nat, was: nat)
    requires Searchable(ms, i) && ms[i].value == Decimal(n) && n < 0x1_0000
    ensures ReadUnsigned("{" + MemberText(ms), ms[i].name, was) == n
  {
    LocateValue(ms, i);
    TailIsNoDigit(ms[i + 1..]);
    NumberIsRead(n, Tail(ms[i + 1..]));
  }

  /** Everything before the first quote is read, so a quote-free string is read whole. */
  lemma FirstQuote(s: string, rest: string, size: nat, was: string)
    requires |s| < size
    ensures var r := UpToQuote(s + ("\"" + rest), size, was);
            r <= s && QuoteFree(r) && (QuoteFree(s) ==> r == s)
  {
    var text := s + ("\"" + rest);
    assert text[|s|] == '\"';
    var n := QuoteAt(text).value;
    assert n <= |s|;
    assert text[..n] == s[..n];
    if n < |s| {
      assert s[n] == '\"';
    }
  }

  lemma Unquoted(s: string, rest: string)
    ensures "\"" <= Quoted(s) && Quoted(s)[1..] + rest == s + ("\"" + rest)
  {
  }

  lemma ReadsString(ms: seq<Member>, i: nat, s: string, size: nat, was: string)
    requires Searchable(ms, i) && ms[i].value == Quoted(s) && |s| < size
    ensures var r := ReadString("{" + MemberText(ms), ms[i].name, size, was);
            r <= s && QuoteFree(r) && (QuoteFree(s) ==> r == s)
  {
    Locate(ms, i, "\"");
    Unquoted(s, Tail(ms[i + 1..]));
    FirstQuote(s, Tail(ms[i + 1..]), size, was);
  }

  lemma TailIsNoDigit(ms: seq<Member>)
    ensures Tail(ms) != "" && Tail(ms)[0] != '-' && !IsDigit(Tail(ms)[0])
  {
  }

  lemma ReadsVlan(c: Config, was: i16)
    requires QuoteFree(c.server) && QuoteFree(c.deviceName)
    ensures ReadVlan(Json(c), was) == if ValidVlan(c.vlanId) then c.vlanId else was
  {
    SettingsSearchable(c, 9);
    LocateValue(Members(c), 9);
    TailIsNoDigit(Members(c)[10..]);
    ScanPrinted(c.vlanId, Tail(Members(c)[10..]));
    I16RoundTrip(c.vlanId, 0);
  }

  lemma ReadsServer(c: Config, was: string)
    requires |c.server| < 64
    ensures var r := ReadString(Json(c), "server", 64, was); QuoteFree(r) && (QuoteFree(c.server) ==> r == c.server)
  {
    SettingsSearchable(c, 0);
    ReadsString(Members(c), 0, c.server, 64, was);
  }

  lemma ReadsDeviceName(c: Config, was: string)
    requires |c.deviceName| < 32 && QuoteFree(c.server)
    ensures var r := ReadString(Json(c), "device_name", 32, was);
            QuoteFree(r) && (QuoteFree(c.deviceName) ==> r == c.deviceName)
  {
    SettingsSearchable(c, 2);
    ReadsString(Members(c), 2, c.deviceName, 32, was);
  }

  lemma ReadsSetting(c: Config, i: nat, name: string, n: nat, was: nat)
    requires i < 10 && QuoteFree(c.server) && QuoteFree(c.deviceName)
    requires Members(c)[i] == Member(name, Decimal(n)) && n < 0x1_0000
    ensures ReadUnsigned(Json(c), name, was) == n == ToU16(n)
  {
    SettingsSearchable(c, i);
    ReadsNumber(Members(c), i, n, was);
  }

  lemma StringsRead(c: Config, cfg: Config)
    requires Storable(c) && QuoteFree(c.server) && QuoteFree(c.deviceName)
    ensures PostStrings(Json(c), cfg) == cfg.(server := c.server, deviceName := c.deviceName)
  {
    ReadsServer(c, cfg.server);
    ReadsDeviceName(c, cfg.deviceName);
  }

  lemma ReadsScreenSize(c: Config, cfg: Config)
    requires QuoteFree(c.server) && QuoteFree(c.deviceName)
    ensures ToU16(ReadUnsigned(Json(c), "screen_width", cfg.screenWidth)) == c.screenWidth
    ensures ToU16(ReadUnsigned(Json(c), "screen_height", cfg.screenHeight)) == c.screenHeight
  {
    ReadsSetting(c, 3, "screen_width", c.screenWidth, cfg.screenWidth);
    ReadsSetting(c, 4, "screen_height", c.screenHeight, cfg.screenHeight);
  }

  lemma ScreenRead(c: Config, cfg: Config)
    requires QuoteFree(c.server) && QuoteFree(c.deviceName)
    ensures PostScreen(Json(c), cfg) == cfg.(port := c.port, screenWidth := c.screenWidth,
                                             screenHeight := c.screenHeight, scaling := c.scaling)
  {
    ReadsScreenSize(c, cfg);
    ReadsSetting(c, 1, "port", c.port, cfg.port);
    ReadsSetting(c, 5, "scaling", c.scaling, cfg.scaling);
  }

  lemma ReadsKeepAwake(c: Config, was: nat)
    requires QuoteFree(c.server) && QuoteFree(c.deviceName)
    ensures (ReadUnsigned(Json(c), "keep_awake", was) != 0) == c.keepAwake
  {
    assert Decimal(1) == "1" && Decimal(0) == "0";
    ReadsSetting(c, 7, "keep_awake", if c.keepAwake then 1 else 0, was);
  }

  lemma BehaviourRead(c: Config, cfg: Config)
    requires QuoteFree(c.server) && QuoteFree(c.deviceName)
    ensures PostBehaviour(Json(c), cfg) ==
            cfg.(jiggleInterval := c.jiggleInterval, keepAwake := c.keepAwake, keyboardLayout := c.keyboardLayout,
                 vlanId := if ValidVlan(c.vlanId) then c.vlanId else cfg.vlanId)
  {
    ReadsSetting(c, 6, "jiggle_interval", c.jiggleInterval, cfg.jiggleInterval);
    ReadsKeepAwake(c, if cfg.keepAwake then 1 else 0);
    ReadsSetting(c, 8, "keyboard_layout", c.keyboardLayout, cfg.keyboardLayout);
    ReadsVlan(c, cfg.vlanId);
  }

  lemma QuoteFreeRoundTrip(c: Config, prior: Config)
    requires Storable(c) && QuoteFree(c.server) && QuoteFree(c.deviceName)
    ensures ApplyPost(Json(c), prior) == c.(vlanId := if ValidVlan(c.vlanId) then c.vlanId else prior.vlanId)
  {
    StringsRead(c, prior);
    var first := prior.(server := c.server, deviceName := c.deviceName);
    ScreenRead(c, first);
    BehaviourRead(c, first.(port := c.port, screenWidth := c.screenWidth,
                            screenHeight := c.screenHeight, scaling := c.scaling));
  }

  /** Posting back the text that was got restores the configuration from every prior one, exactly when neither
      string contains a quote and the VLAN id is valid. */
  lemma WebRoundTripIff(c: Config)
    requires Storable(c)
    ensures (forall prior :: ApplyPost(Json(c), prior) == c) <==>
            QuoteFree(c.server) && QuoteFree(c.deviceName) && ValidVlan(c.vlanId)
  {
    forall prior
      ensures QuoteFree(c.server) && QuoteFree(c.deviceName) && ValidVlan(c.vlanId) ==> ApplyPost(Json(c), prior) == c
    {
      if QuoteFree(c.server) && QuoteFree(c.deviceName) {
        QuoteFreeRoundTrip(c, prior);
      }
    }
    if !QuoteFree(c.server) {
      ReadsServer(c, DEFAULTS.server);
      assert ApplyPost(Json(c), DEFAULTS) != c;
    } else if !QuoteFree(c.deviceName) {
      ReadsDeviceName(c, DEFAULTS.deviceName);
      assert ApplyPost(Json(c), DEFAULTS) != c;
    } else if !ValidVlan(c.vlanId) {
      QuoteFreeRoundTrip(c, DEFAULTS);
      assert ApplyPost(Json(c), DEFAULTS) != c;
    }
  }

  // ---- what any posted text can do ----

  lemma StringFits(buf: string, name: string, size: nat, was: string)
    requires |was| < size && QuoteFree(was)
    ensures |ReadString(buf, name, size, was)| < size && QuoteFree(ReadString(buf, name, size, was))
  {
  }

  /** Whatever is posted, a stored configuration stays within its buffers, free of quotes, and on a VLAN that is valid
      or the one it was on. */
  lemma PostedIsSound(buf: string, prior: Config)
    requires Storable(prior) && QuoteFree(prior.server) && QuoteFree(prior.deviceName)
    ensures var c := ApplyPost(buf, prior);
            && Storable(c) && QuoteFree(c.server) && QuoteFree(c.deviceName)
            && (ValidVlan(c.vlanId) || c.vlanId == prior.vlanId)
  {
    StringFits(buf, "server", 64, prior.server);
    StringFits(buf, "device_name", 32, prior.deviceName);
  }

  /** A posted configuration that is saved comes back at the next load if and only if neither string was posted empty;
      otherwise every setting falls back to its default. */
  lemma PostedThenLoaded(buf: string, prior: Config)
    requires Storable(prior) && QuoteFree(prior.server) && QuoteFree(prior.deviceName)
    ensures var c := ApplyPost(buf, prior);
            Load(Render(c)) == if c.server != "" && c.deviceName != "" then c else DEFAULTS
  {
    PostedIsSound(buf, prior);
    SavedThenLoaded(ApplyPost(buf, prior));
  }

  const EMPTY_SERVER: string := "{\"server\":\"\"}"

  /** Posting an empty server is accepted; after saving and loading, all settings are gone. */
  lemma EmptyServerLosesSettings(prior: Config)
    requires Storable(prior) && QuoteFree(prior.server) && QuoteFree(prior.deviceName)
    ensures ApplyPost(EMPTY_SERVER, prior).server == ""
    ensures Load(Render(ApplyPost(EMPTY_SERVER, prior))) == DEFAULTS
  {
    EmptyServerIsRead(prior.server);
    PostedThenLoaded(EMPTY_SERVER, prior);
  }

  lemma EmptyServerIsRead(was: string)
    ensures ReadString(EMPTY_SERVER, "server", 64, was) == ""
  {
    var pattern := Key("server") + "\"";
    assert EMPTY_SERVER == "{" + (pattern + "\"}");
    AfterPlain("{", pattern + "\"}", pattern);
    assert After(pattern + "\"}", pattern) == Some("\"}");
  }

  // ---- the length of the response ----

  /** What members `i` onwards take up, each with its quotes, colon and separator. */
  function SizeFrom(ms: seq<Member>, i: nat): nat
    decreases |ms| - i
  {
    if i >= |ms| then 0 else |ms[i].name| + |ms[i].value| + 4 + SizeFrom(ms, i + 1)
  }

  lemma {:induction false} SizeOfTail(ms: seq<Member>, i: nat)
    requires i <= |ms|
    ensures |Tail(ms[i..])| == SizeFrom(ms, i) + 1
    decreases |ms| - i
  {
    if i < |ms| {
      SizeOfTail(ms, i + 1);
      assert ms[i..][1..] == ms[i + 1..];
      assert |MemberText(ms[i..])| == |ms[i].name| + 3 + (|ms[i].value| + |Tail(ms[i + 1..])|);
    }
  }

  lemma SizeOfTen(ms: seq<Member>)
    requires |ms| == 10
    ensures SizeFrom(ms, 0) == 40 + |ms[0].name| + |ms[1].name| + |ms[2].name| + |ms[3].name| + |ms[4].name|
                               + |ms[5].name| + |ms[6].name| + |ms[7].name| + |ms[8].name| + |ms[9].name|
                               + |ms[0].value| + |ms[1].value| + |ms[2].value| + |ms[3].value| + |ms[4].value|
                               + |ms[5].value| + |ms[6].value| + |ms[7].value| + |ms[8].value| + |ms[9].value|
  {
    assert SizeFrom(ms, 10) == 0;
    assert SizeFrom(ms, 8) == |ms[8].name| + |ms[8].value| + 4 + (|ms[9].name| + |ms[9].value| + 4);
    assert SizeFrom(ms, 6) == |ms[6].name| + |ms[6].value| + 4 + (|ms[7].name| + |ms[7].value| + 4 + SizeFrom(ms, 8));
    assert SizeFrom(ms, 4) == |ms[4].name| + |ms[4].value| + 4 + (|ms[5].name| + |ms[5].value| + 4 + SizeFrom(ms, 6));
    assert SizeFrom(ms, 2) == |ms[2].name| + |ms[2].value| + 4 + (|ms[3].name| + |ms[3].value| + 4 + SizeFrom(ms, 4));
  }

  /** The number of digits the numeric settings take. */
  function Digits(c: Config): nat {
    |Decimal(c.port)| + |Decimal(c.screenWidth)| + |Decimal(c.screenHeight)| + |Decimal(c.scaling)|
    + |Decimal(c.jiggleInterval)| + |Decimal(c.keyboardLayout)| + |SignedDecimal(c.vlanId)|
  }

  lemma RenderedLength(c: Config)
    ensures |Json(c)| == 146 + |c.server| + |c.deviceName| + Digits(c)
  {
    var ms := Members(c);
    SizeOfTail(ms, 0);
    assert ms[0..] == ms;
    SizeOfTen(ms);
  }

  function PowerOfTen(k: nat): nat {
    if k == 0 then 1 else 10 * PowerOfTen(k - 1)
  }

  /** A number takes at most `k` digits exactly when it is below 10 to the `k`. */
  lemma {:induction false} DecimalLength(n: nat, k: nat)
    requires k > 0
    ensures |Decimal(n)| <= k <==> n < PowerOfTen(k)
  {
    if k == 1 {
      assert PowerOfTen(1) == 10;
      assert n >= 10 ==> |Decimal(n)| == |Decimal(n / 10)| + 1;
    } else if n < 10 {
      assert PowerOfTen(k) >= 10 by {
        PowerOfTenAtLeast(k);
      }
    } else {
      DecimalLength(n / 10, k - 1);
    }
  }

  lemma {:induction false} PowerOfTenAtLeast(k: nat)
    requires k > 0
    ensures PowerOfTen(k) >= 10
  {
    if k > 1 {
      PowerOfTenAtLeast(k - 1);
    }
  }

  lemma DigitsBound(c: Config)
    ensures 7 <= Digits(c) <= 34
  {
    assert PowerOfTen(3) == 1000 && PowerOfTen(5) == 100000;
    DecimalLength(c.port, 5);
    DecimalLength(c.screenWidth, 5);
    DecimalLength(c.screenHeight, 5);
    DecimalLength(c.scaling, 5);
    DecimalLength(c.jiggleInterval, 5);
    DecimalLength(c.keyboardLayout, 3);
    DecimalLength(if c.vlanId < 0 then -(c.vlanId as int) else c.vlanId as int, 5);
  }

  /** The response is the whole text exactly when strings and digits together take at most 109 characters;
      strings of at most 75 characters always fit. */
  lemma GetIsCompleteIff(c: Config)
    ensures GetResponse(c).Complete? <==> |c.server| + |c.deviceName| + Digits(c) <= 109
    ensures |c.server| + |c.deviceName| <= 75 ==> GetResponse(c) == Complete(Json(c))
  {
    RenderedLength(c);
    DigitsBound(c);
  }

  /** Two strings of the longest stored length do not fit next to an ordinary screen size. */
  lemma LongestStringsDoNotFit(c: Config)
    requires |c.server| == 63 && |c.deviceName| == 31
    requires c.port >= 10000 && c.screenWidth >= 1000 && c.screenHeight >= 1000
    ensures Storable(c) && GetResponse(c).Overlong?
  {
    RenderedLength(c);
    assert PowerOfTen(4) == 10000 && PowerOfTen(3) == 1000;
    DecimalLength(c.port, 4);
    DecimalLength(c.screenWidth, 3);
    DecimalLength(c.screenHeight, 3);
  }

  /** GET then POST restores a stored configuration, whatever was configured in between, exactly when the text
      fits, the strings hold no quote and the VLAN id is valid. */
  lemma GetThenPostIff(c: Config)
    requires Storable(c)
    ensures (GetResponse(c).Complete? && forall prior :: ApplyPost(GetResponse(c).text, prior) == c) <==>
            |c.server| + |c.deviceName| + Digits(c) <= 109 && QuoteFree(c.server) && QuoteFree(c.deviceName)
            && ValidVlan(c.vlanId)
  {
    GetIsCompleteIff(c);
    WebRoundTripIff(c);
  }

  // ---- the code ----

  /** One numeric field: looked up, converted and truncated, or kept. */
  method ReadU16(buf: string, name: string, was: u16) returns (n: u16)
    ensures n == ToU16(ReadUnsigned(buf, name, was))
  {
    n := was;
    var s := After(buf, Key(name));
    if s.Some? {
      n := ToU16(StrToUl(s.value));
    }
  }

  method StoreScreen(buf: string, current: Config) returns (cfg: Config)
    ensures cfg == PostScreen(buf, current)
  {
    var port := ReadU16(buf, "port", current.port);
    var width := ReadU16(buf, "screen_width", current.screenWidth);
    var height := ReadU16(buf, "screen_height", current.screenHeight);
    var scaling := ReadU16(buf, "scaling", current.scaling);
    cfg := current.(port := port, screenWidth := width, screenHeight := height, scaling := scaling);
  }

  method StoreBehaviour(buf: string, current: Config) returns (cfg: Config)
    ensures cfg == PostBehaviour(buf, current)
  {
    var interval := ReadU16(buf, "jiggle_interval", current.jiggleInterval);
    var awake := current.keepAwake;
    var s := After(buf, Key("keep_awake"));
    if s.Some? {
      awake := StrToUl(s.value) != 0;
    }
    var layout := current.keyboardLayout;
    s := After(buf, Key("keyboard_layout"));
    if s.Some? {
      layout := StrToUl(s.value) % 0x100;
    }
    var vlan := ReadVlan(buf, current.vlanId);
    cfg := current.(jiggleInterval := interval, keepAwake := awake, keyboardLayout := layout, vlanId := vlan);
  }

  /** The field extraction of settings_post_handler on a copy of the current configuration. */
  method SettingsPost(buf: string, current: Config) returns (cfg: Config)
    ensures cfg == ApplyPost(buf, current)
    ensures Storable(current) && QuoteFree(current.server) && QuoteFree(current.deviceName) ==>
              && Storable(cfg) && QuoteFree(cfg.server) && QuoteFree(cfg.deviceName)
              && (ValidVlan(cfg.vlanId) || cfg.vlanId == current.vlanId)
              && Load(Render(cfg)) == (if cfg.server != "" && cfg.deviceName != "" then cfg else DEFAULTS)
  {
    cfg := current;
    cfg := cfg.(server := ReadString(buf, "server", 64, cfg.server));
    cfg := cfg.(deviceName := ReadString(buf, "device_name", 32, cfg.deviceName));
    cfg := StoreScreen(buf, cfg);
    cfg := StoreBehaviour(buf, cfg);
    if Storable(current) && QuoteFree(current.server) && QuoteFree(current.deviceName) {
      PostedIsSound(buf, current);
      PostedThenLoaded(buf, current);
    }
  }
}
