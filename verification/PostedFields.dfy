/** What a posted text does to each setting (settings_post_handler in main/web/web_server.c). */
module PostedFields {
  import opened HidScaling
  import opened WireBytes
  import opened Text
  import opened ConfigFile
  import opened WebSettings

  // ---- the first occurrence of a key ----

  /** The pattern stands at position `i` of the text. */
  ghost predicate At(text: string, pattern: string, i: nat) {
    i + |pattern| <= |text| && text[i..i + |pattern|] == pattern
  }

  ghost predicate Absent(text: string, pattern: string) {
    forall i: nat :: !At(text, pattern, i)
  }

  ghost predicate FirstAt(text: string, pattern: string, i: nat) {
    At(text, pattern, i) && forall j: nat :: j < i ==> !At(text, pattern, j)
  }

  lemma AtHead(text: string, pattern: string)
    ensures At(text, pattern, 0) <==> pattern <= text
  {
  }

  lemma AtLater(text: string, pattern: string, i: nat)
    requires text != ""
    ensures At(text, pattern, i + 1) <==> At(text[1..], pattern, i)
  {
    if i + 1 + |pattern| <= |text| {
      assert text[1..][i..i + |pattern|] == text[i + 1..i + 1 + |pattern|];
    }
  }

  /** What is found is what follows the first occurrence, and nothing is found only if there is none. */
  lemma {:induction false} FoundIff(text: string, pattern: string)
    ensures After(text, pattern).None? <==> Absent(text, pattern)
    ensures forall i: nat :: FirstAt(text, pattern, i) ==> After(text, pattern) == Some(text[i + |pattern|..])
    decreases |text|
  {
    AtHead(text, pattern);
    if text == "" {
      if pattern != "" {
        assert forall i: nat :: !At(text, pattern, i);
      }
    } else if !(pattern <= text) {
      FoundIff(text[1..], pattern);
      FoundLater(text, pattern);
    }
  }

  lemma FoundLater(text: string, pattern: string)
    requires text != "" && !(pattern <= text)
    ensures Absent(text, pattern) <==> Absent(text[1..], pattern)
    ensures forall i: nat :: FirstAt(text, pattern, i) ==>
              i > 0 && FirstAt(text[1..], pattern, i - 1) && text[1..][i - 1 + |pattern|..] == text[i + |pattern|..]
  {
    AtHead(text, pattern);
    forall i: nat
      ensures At(text, pattern, i + 1) <==> At(text[1..], pattern, i)
    {
      AtLater(text, pattern, i);
    }
    forall i: nat | At(text, pattern, i)
      ensures i > 0 && At(text[1..], pattern, i - 1)
    {
      AtLater(text, pattern, i - 1);
    }
  }

  // ---- numbers ----

  /** strtoul and strtol on a printed number: exact within range, the nearest bound beyond it, and, for strtoul, the
      complement of a negative number. */
  lemma NumbersAreConverted(n: int, rest: string)
    requires !StartsWithDigit(rest)
    ensures StrToUl(SignedDecimal(n) + rest) ==
            if -4294967295 <= n < 0 then 4294967296 + n else if 0 <= n <= 4294967295 then n else 4294967295
    ensures StrToL(SignedDecimal(n) + rest) ==
            if n < -2147483648 then -2147483648 else if n > 2147483647 then 2147483647 else n
  {
    ScanPrinted(n, rest);
  }

  /** White space before a number does not matter, and where no number stands zero is read. */
  lemma OtherwiseZero(spaces: string, s: string)
    requires AllSpace(spaces)
    ensures StrToUl(spaces + s) == StrToUl(s) && StrToL(spaces + s) == StrToL(s)
    ensures s == "" || !(IsSpace(s[0]) || IsDigit(s[0]) || s[0] == '+' || s[0] == '-') ==>
              StrToUl(s) == 0 && StrToL(s) == 0
  {
    SpacesAreSkipped(spaces, s);
  }

  /** A numeric setting keeps its value if its key does not occur, and otherwise takes the number after the first
      occurrence, cut down to the width of the field. */
  ghost predicate NumberPosted(buf: string, key: string, was: nat, now: nat, modulus: nat)
    requires modulus > 0
  {
    && (Absent(buf, key) ==> now == was)
    && forall i: nat :: FirstAt(buf, key, i) ==> now == StrToUl(buf[i + |key|..]) % modulus
  }

  lemma NumberIsPosted(buf: string, name: string, key: string, was: nat, modulus: nat)
    requires was < modulus && key == Key(name)
    ensures NumberPosted(buf, key, was, ReadUnsigned(buf, name, was) % modulus, modulus)
  {
    FoundIff(buf, key);
  }

  lemma ScreenKeys()
    ensures Key("port") == "\"port\":" && Key("screen_width") == "\"screen_width\":"
    ensures Key("screen_height") == "\"screen_height\":" && Key("scaling") == "\"scaling\":"
  {
  }

  lemma BehaviourKeys()
    ensures Key("jiggle_interval") == "\"jiggle_interval\":" && Key("keyboard_layout") == "\"keyboard_layout\":"
    ensures Key("keep_awake") == "\"keep_awake\":" && Key("vlan_id") == "\"vlan_id\":"
  {
  }

  lemma ScreenIsPosted(buf: string, was: Config)
    ensures var c := PostScreen(buf, was);
            && NumberPosted(buf, "\"port\":", was.port, c.port, 65536)
            && NumberPosted(buf, "\"screen_width\":", was.screenWidth, c.screenWidth, 65536)
            && NumberPosted(buf, "\"screen_height\":", was.screenHeight, c.screenHeight, 65536)
            && NumberPosted(buf, "\"scaling\":", was.scaling, c.scaling, 65536)
  {
    ScreenKeys();
    NumberIsPosted(buf, "port", "\"port\":", was.port, 65536);
    NumberIsPosted(buf, "screen_width", "\"screen_width\":", was.screenWidth, 65536);
    NumberIsPosted(buf, "screen_height", "\"screen_height\":", was.screenHeight, 65536);
    NumberIsPosted(buf, "scaling", "\"scaling\":", was.scaling, 65536);
  }

  lemma BehaviourIsPosted(buf: string, was: Config)
    ensures var c := PostBehaviour(buf, was);
            && NumberPosted(buf, "\"jiggle_interval\":", was.jiggleInterval, c.jiggleInterval, 65536)
            && NumberPosted(buf, "\"keyboard_layout\":", was.keyboardLayout, c.keyboardLayout, 256)
  {
    BehaviourKeys();
    NumberIsPosted(buf, "jiggle_interval", "\"jiggle_interval\":", was.jiggleInterval, 65536);
    NumberIsPosted(buf, "keyboard_layout", "\"keyboard_layout\":", was.keyboardLayout, 256);
  }

  /** The six numeric settings of a posted text. */
  lemma NumbersArePosted(buf: string, was: Config)
    ensures var c := ApplyPost(buf, was);
            && NumberPosted(buf, "\"port\":", was.port, c.port, 65536)
            && NumberPosted(buf, "\"screen_width\":", was.screenWidth, c.screenWidth, 65536)
            && NumberPosted(buf, "\"screen_height\":", was.screenHeight, c.screenHeight, 65536)
            && NumberPosted(buf, "\"scaling\":", was.scaling, c.scaling, 65536)
            && NumberPosted(buf, "\"jiggle_interval\":", was.jiggleInterval, c.jiggleInterval, 65536)
            && NumberPosted(buf, "\"keyboard_layout\":", was.keyboardLayout, c.keyboardLayout, 256)
  {
    var first := PostStrings(buf, was);
    ScreenIsPosted(buf, first);
    BehaviourIsPosted(buf, PostScreen(buf, first));
  }

  // ---- the switch and the VLAN id ----

  /** The switch is off exactly for a number of zero, or no number at all. */
  ghost predicate SwitchPosted(buf: string, was: bool, now: bool) {
    && (Absent(buf, "\"keep_awake\":") ==> now == was)
    && forall i: nat :: FirstAt(buf, "\"keep_awake\":", i) ==> (now <==> StrToUl(buf[i + 13..]) != 0)
  }

  /** The VLAN id changes to -1 or 1..4094 only. */
  ghost predicate VlanPosted(buf: string, was: int, now: int) {
    && (Absent(buf, "\"vlan_id\":") ==> now == was)
    && forall i: nat :: FirstAt(buf, "\"vlan_id\":", i) ==>
         var low := StrToL(buf[i + 10..]) % 65536;
         now == if low == 65535 then -1 else if 1 <= low <= 4094 then low else was
  }

  lemma SwitchAndVlanArePosted(buf: string, was: Config)
    ensures SwitchPosted(buf, was.keepAwake, ApplyPost(buf, was).keepAwake)
    ensures VlanPosted(buf, was.vlanId, ApplyPost(buf, was).vlanId)
  {
    BehaviourKeys();
    SwitchIsPosted(buf, was.keepAwake);
    VlanIsPosted(buf, was.vlanId);
  }

  lemma SwitchIsPosted(buf: string, was: bool)
    ensures SwitchPosted(buf, was, ReadUnsigned(buf, "keep_awake", if was then 1 else 0) != 0)
  {
    BehaviourKeys();
    FoundIff(buf, "\"keep_awake\":");
  }

  lemma VlanIsPosted(buf: string, was: i16)
    ensures VlanPosted(buf, was, ReadVlan(buf, was))
  {
    BehaviourKeys();
    FoundIff(buf, "\"vlan_id\":");
  }

  // ---- the strings ----

  /** The first quote is at position `n`. */
  predicate EndsAt(s: string, n: nat) {
    n < |s| && s[n] == '\"' && '\"' !in s[..n]
  }

  /** A string setting takes the text between the quotes behind its key, if there are two and it is shorter than the
      field, and keeps its value otherwise. */
  ghost predicate StringPosted(buf: string, key: string, size: nat, was: string, now: string) {
    && (Absent(buf, key) ==> now == was)
    && forall i: nat :: FirstAt(buf, key, i) ==>
         var s := buf[i + |key|..];
         && (forall n: nat :: EndsAt(s, n) ==> now == if n < size then s[..n] else was)
         && ('\"' !in s ==> now == was)
  }

  lemma UpToQuoteIs(s: string, size: nat, was: string)
    ensures forall n: nat :: EndsAt(s, n) ==> UpToQuote(s, size, was) == if n < size then s[..n] else was
    ensures '\"' !in s ==> UpToQuote(s, size, was) == was
  {
    forall n: nat | EndsAt(s, n)
      ensures QuoteAt(s) == Some(n)
    {
      assert s[n] in s;
    }
  }

  lemma StringIsPosted(buf: string, name: string, key: string, size: nat, was: string)
    requires key == Key(name) + "\""
    ensures StringPosted(buf, key, size, was, ReadString(buf, name, size, was))
  {
    FoundIff(buf, key);
    forall i: nat | FirstAt(buf, key, i)
      ensures ReadString(buf, name, size, was) == UpToQuote(buf[i + |key|..], size, was)
    {
    }
    forall s: string
      ensures forall n: nat :: EndsAt(s, n) ==> UpToQuote(s, size, was) == if n < size then s[..n] else was
      ensures '\"' !in s ==> UpToQuote(s, size, was) == was
    {
      UpToQuoteIs(s, size, was);
    }
  }

  lemma StringKeys()
    ensures Key("server") + "\"" == "\"server\":\"" && Key("device_name") + "\"" == "\"device_name\":\""
  {
  }

  /** The two string settings of a posted text. */
  lemma StringsArePosted(buf: string, was: Config)
    ensures StringPosted(buf, "\"server\":\"", 64, was.server, ApplyPost(buf, was).server)
    ensures StringPosted(buf, "\"device_name\":\"", 32, was.deviceName, ApplyPost(buf, was).deviceName)
  {
    StringKeys();
    StringIsPosted(buf, "server", "\"server\":\"", 64, was.server);
    StringIsPosted(buf, "device_name", "\"device_name\":\"", 32, was.deviceName);
  }
}
