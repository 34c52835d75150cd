/**
  The four-channel receiver client (ad4d.py): the key registry and command
  addressing, the `REP` reply grammar, and the post-I/O half of
  `send_command` (frame cutting, bulk merge and single-key correlation),
  together with the checks `main` makes before a `SET` is sent.
 */
module Ad4d {
  import opened Text
  import Exchange

  // ---------------------------------------------------------------------------
  // Key registry and addressing
  // ---------------------------------------------------------------------------

  const DeviceGetOnlyKeys: seq<string> := [
    "DEVICE_ID", "MODEL", "FW_VER", "RF_BAND", "TRANSMISSION_MODE",
    "QUADVERSITY_MODE", "ENCRYPTION_MODE"
  ]

  const DeviceGetSetKeys: seq<string> := ["DEVICE_ID"]

  const ChannelGetSetKeys: seq<string> := [
    "CHAN_NAME", "AUDIO_GAIN", "AUDIO_MUTE", "FREQUENCY", "GROUP_CHANNEL",
    "METER_RATE", "FLASH"
  ]

  const ChannelGetOnlyKeys: seq<string> := [
    "FD_MODE", "ENCRYPTION_STATUS", "INTERFERENCE_STATUS", "UNREGISTERED_TX_STATUS",
    "AUDIO_LEVEL_PEAK", "AUDIO_LEVEL_RMS", "CHAN_QUALITY", "RSSI", "ANTENNA_STATUS",
    "TX_BATT_MINS", "TX_BATT_TYPE", "TX_MODEL", "TX_DEVICE_ID", "TX_POWER_LEVEL"
  ]

  const AllKeys: seq<string> := DeviceGetOnlyKeys + DeviceGetSetKeys + ChannelGetSetKeys + ChannelGetOnlyKeys

  /** The keys the bulk read asks every channel for, in request order. */
  const ChannelKeys: seq<string> := ChannelGetSetKeys + ChannelGetOnlyKeys

  /** The channel arguments a channel-level key accepts. */
  const Channels: seq<string> := ["1", "2", "3", "4"]

  /** Keys whose SET value the device expects inside one pair of braces. */
  const BraceKeys: set<string> := {
    "CHAN_NAME", "DEVICE_ID", "GROUP_CHANNEL", "GROUP_CHANNEL2", "TX_DEVICE_ID", "SLOT_TX_DEVICE_ID"
  }

  predicate IsDeviceKey(k: string) {
    k in DeviceGetOnlyKeys || k in DeviceGetSetKeys
  }

  /**
    The address of a key on the wire: the bare key for a device-level key,
    `c KEY` for a channel-level key on channel c in 1..4.
   */
  function BuildCommand(channel: Option<string>, key: string): (r: Result<string>)
    ensures r.Ok? ==> Upper(key) in AllKeys && EndsWith(r.value, Upper(key))
  {
    var k := Upper(key);
    if k !in AllKeys then Err("Unknown key: " + k)
    else if IsDeviceKey(k) then Ok(k)
    else if channel.None? || channel.value !in Channels then
      Err("Channel must be 1\U{2013}4 for channel-level keys")
    else
      assert EndsWith(channel.value + " " + k, k) by {
        assert (channel.value + " " + k)[|channel.value| + 1..] == k;
      }
      Ok(channel.value + " " + k)
  }

  /** A registry key typed with any of its letters in lower case addresses what the key itself does. */
  lemma KeyCaseIgnored(channel: Option<string>, key: string, k: string)
    requires k in AllKeys && CaseVariant(key, k)
    ensures BuildCommand(channel, key) == BuildCommand(channel, k)
  {
    assert IsKey(k) by { RegistryKeysAreKeys(); }
    KeyAt(k);
    UpperOfCaseVariant(key, k);
  }

  /** A key outside the registry, once upper-cased, never yields a command. */
  lemma UnknownKeyRejected(channel: Option<string>, key: string)
    requires Upper(key) !in AllKeys
    ensures BuildCommand(channel, key).Err?
  {
  }

  /** A device-level key is addressed by its bare upper-cased name, whatever the channel. */
  lemma DeviceKeyIsBare(channel: Option<string>, key: string)
    requires IsDeviceKey(Upper(key))
    ensures BuildCommand(channel, key) == Ok(Upper(key))
  {
  }

  /**
    A channel-level key is addressed as `c KEY` exactly when the channel is
    one of 1..4; any other channel, or none, is an error.
   */
  lemma ChannelKeyAddressing(channel: Option<string>, key: string)
    requires Upper(key) in ChannelKeys
    ensures BuildCommand(channel, key).Ok? <==> channel.Some? && channel.value in Channels
    ensures BuildCommand(channel, key).Ok? ==> BuildCommand(channel, key).value == channel.value + " " + Upper(key)
  {
    ChannelKeysAreNotDeviceKeys();
    assert Upper(key) in AllKeys;
  }

  /** The two scopes of the registry do not overlap. */
  lemma ChannelKeysAreNotDeviceKeys()
    ensures forall k :: k in ChannelKeys ==> k in AllKeys && !IsDeviceKey(k)
  {
    assert forall k :: k in ChannelGetSetKeys ==> !IsDeviceKey(k);
    assert forall k :: k in ChannelGetOnlyKeys ==> !IsDeviceKey(k);
  }

  // ---------------------------------------------------------------------------
  // The `REP` reply grammar
  // ---------------------------------------------------------------------------

  /** A channel number as the grammar captures it: one decimal digit. */
  type Digit = d: int | 0 <= d <= 9

  /** One parsed reply: its channel, if the reply named one, its key and its value. */
  datatype Rep = Rep(channel: Option<Digit>, key: string, value: string)

  /** The characters of the value group `[^>}]`. */
  predicate ValueChar(c: char) { c != '>' && c != '}' }

  predicate ValueText(v: string) {
    forall i :: 0 <= i < |v| ==> ValueChar(v[i])
  }

  /**
    What may follow the value (`\}?\s*>?$`): at most one closing brace, then
    spaces, then at most one `>`, then the end of the line.
   */
  predicate TailOk(x: string) {
    var y := if x != [] && x[0] == '}' then x[1..] else x;
    var z := TrimStart(y, IsSpace);
    z == [] || z == ">"
  }

  /**
    The lazy value group `([^>}]+?)` tried on `u` from length `n` on: the
    shortest value of at least `n` characters after which the tail matches.
   */
  function LazyFrom(u: string, n: nat): (r: Option<nat>)
    requires 1 <= n <= |u| + 1 && ValueText(u[..n - 1])
    ensures r.Some? ==> n <= r.value <= |u| && ValueText(u[..r.value]) && TailOk(u[r.value..])
    ensures r.Some? ==> forall m :: n <= m < r.value ==> !TailOk(u[m..])
    decreases |u| - n
  {
    if n > |u| || !ValueChar(u[n - 1]) then None
    else
      assert u[..n] == u[..n - 1] + [u[n - 1]];
      if TailOk(u[n..]) then Some(n) else LazyFrom(u, n + 1)
  }

  /** The optional brace `\{?` and the value: with the brace if that matches, else without it. */
  function MatchValue(t: string): (r: Option<string>)
    ensures r.Some? ==> r.value != [] && ValueText(r.value)
  {
    var braced := if t != [] && t[0] == '{' then LazyFrom(t[1..], 1) else None;
    if braced.Some? then Some(t[1..][..braced.value])
    else match LazyFrom(t, 1)
      case Some(n) => Some(t[..n])
      case None => None
  }

  /**
    The separator `\s+` before the value gives back spaces one by one: the
    value is tried after `j` spaces, then after fewer, down to one.
   */
  function TryTails(after: string, j: nat): (r: Option<string>)
    requires j <= |after|
    ensures r.Some? ==> r.value != [] && ValueText(r.value)
  {
    if j == 0 then None
    else match MatchValue(after[j..])
      case Some(v) => Some(v)
      case None => TryTails(after, j - 1)
  }

  datatype KeyValue = KeyValue(key: string, value: string)

  /** A stripped window of value text is value text. */
  lemma StripValueText(v: string)
    requires ValueText(v)
    ensures ValueText(Strip(v))
  {
    var a := Span(v, IsSpace);
    var r := Strip(v);
    assert forall i :: 0 <= i < |r| ==> r[i] == v[a + i];
  }

  /** `([A-Z0-9_]+)\s+\{?([^>}]+?)\}?\s*>?$` with the value stripped. */
  function KeyValueOf(c: string): (r: Option<KeyValue>)
    ensures r.Some? ==> IsKey(r.value.key) && ValueText(r.value.value) && Trimmed(r.value.value)
  {
    var k := Span(c, IsKeyChar);
    if k == 0 then None
    else
      var after := c[k..];
      match TryTails(after, Span(after, IsSpace))
      case None => None
      case Some(v) =>
        StripValueText(v);
        Some(KeyValue(c[..k], Strip(v)))
  }

  /** The prefix `<\s*REP\s+` of a stripped line; what follows it, if it is there. */
  function AfterRep(s: string): (c: Option<string>)
    ensures c.Some? ==> c.value == [] || NotSpace(c.value[0])
  {
    if s == [] || s[0] != '<' then None
    else
      var a := TrimStart(s[1..], IsSpace);
      if !StartsWith(a, "REP") then None
      else
        var b := a[3..];
        var w := Span(b, IsSpace);
        if w == 0 then None else Some(b[w..])
  }

  /**
    `(?:(\d)\s+)?` and the key/value part: the optional channel group is
    tried first; when the rest does not match after it, the whole text is
    matched without a channel.
   */
  function RepBody(c: string): (r: Option<Rep>)
    ensures r.Some? ==> IsKey(r.value.key) && ValueText(r.value.value) && Trimmed(r.value.value)
  {
    var channelled := if |c| >= 2 && IsDigit(c[0]) && IsSpace(c[1])
      then KeyValueOf(TrimStart(c[1..], IsSpace)) else None;
    if channelled.Some? then
      var d: Digit := c[0] as int - '0' as int;
      Some(Rep(Some(d), channelled.value.key, channelled.value.value))
    else match KeyValueOf(c)
      case None => None
      case Some(kv) => Some(Rep(None, kv.key, kv.value))
  }

  /**
    `parse_report_line`: a reply line, stripped, parsed by the grammar; a
    line outside the grammar gives None. The key is registry-shaped and the
    value is trimmed and free of `>` and `}`.
   */
  function ParseReportLine(line: string): (r: Option<Rep>)
    ensures r.Some? ==> IsKey(r.value.key) && ValueText(r.value.value) && Trimmed(r.value.value)
  {
    match AfterRep(Strip(line))
    case None => None
    case Some(c) => RepBody(c)
  }

  /** The key the correlation loop compares with the expected address. */
  function MatchKey(r: Rep): (k: string)
    ensures EndsWith(k, r.key)
  {
    match r.channel
    case None => r.key
    case Some(ch) =>
      var k := [DigitChar(ch)] + " " + r.key;
      assert k[2..] == r.key;
      k
  }

  // Reply round trips ----------------------------------------------------------

  /** A value the device writes unbraced: non-empty, trimmed, free of `>`/`}` and not opening with `{`. */
  predicate PlainValue(v: string) {
    v != [] && Trimmed(v) && ValueText(v) && v[0] != '{'
  }

  /** A value the device writes inside braces: non-empty, trimmed and free of `>`/`}`. */
  predicate BracedValue(v: string) {
    v != [] && Trimmed(v) && ValueText(v)
  }

  /** The lazy value stops at the first length whose tail matches. */
  lemma {:induction false} LazyFromReaches(u: string, n: nat, target: nat)
    requires 1 <= n <= target <= |u|
    requires ValueText(u[..target]) && TailOk(u[target..])
    requires forall m :: n <= m < target ==> !TailOk(u[m..])
    ensures ValueText(u[..n - 1])
    ensures LazyFrom(u, n) == Some(target)
    decreases target - n
  {
    ValuePrefix(u, n - 1, target);
    assert ValueChar(u[n - 1]) by {
      assert u[n - 1] == u[..target][n - 1];
    }
    if n < target {
      ValuePrefix(u, n, target);
      LazyFromReaches(u, n + 1, target);
      assert !TailOk(u[n..]);
    }
  }

  /** A shorter prefix of value text is value text. */
  lemma ValuePrefix(u: string, a: nat, b: nat)
    requires a <= b <= |u| && ValueText(u[..b])
    ensures ValueText(u[..a])
  {
    assert forall i :: 0 <= i < a ==> u[..a][i] == u[..b][i];
  }

  /** Inside a trimmed value, no tail ` >` or `} >` can be matched early. */
  lemma NoEarlyTail(v: string, tail: string, m: nat)
    requires v != [] && Trimmed(v) && ValueText(v)
    requires |tail| >= 2
    requires 1 <= m < |v|
    ensures !TailOk((v + tail)[m..])
  {
    var x := (v + tail)[m..];
    assert x[0] == v[m];
    var n := Span(x, IsSpace);
    assert x[|v| - 1 - m] == v[|v| - 1];
    assert n <= |v| - 1 - m;
  }

  /** The value group stops right before the closing tail. */
  lemma LazyValueOf(v: string, tail: string)
    requires v != [] && Trimmed(v) && ValueText(v)
    requires tail == " >" || tail == "} >"
    ensures LazyFrom(v + tail, 1) == Some(|v|)
  {
    var u := v + tail;
    assert u[..|v|] == v;
    assert u[|v|..] == tail;
    assert TrimStart(" >", IsSpace) == ">";
    forall m | 1 <= m < |v| ensures !TailOk(u[m..]) {
      NoEarlyTail(v, tail, m);
    }
    LazyFromReaches(u, 1, |v|);
  }

  /** The key is the run of key characters before the first space. */
  lemma KeySpan(key: string, rest: string)
    requires IsKey(key) && rest != [] && IsSpace(rest[0])
    ensures Span(key + rest, IsKeyChar) == |key|
    ensures (key + rest)[..|key|] == key && (key + rest)[|key|..] == rest
  {
    KeyAt(key);
    SpanConcat(key, rest, IsKeyChar);
  }

  /** One space, then a non-space character. */
  lemma SingleSpace(x: string)
    requires |x| >= 2 && IsSpace(x[0]) && NotSpace(x[1])
    ensures Span(x, IsSpace) == 1
  {
    assert x[1..][0] == x[1];
  }

  /** The key/value part is the key followed by the value the separator and value groups find. */
  lemma KeyValueAfterKey(key: string, after: string, raw: string)
    requires IsKey(key) && after != [] && IsSpace(after[0])
    requires TryTails(after, Span(after, IsSpace)) == Some(raw)
    ensures KeyValueOf(key + after) == Some(KeyValue(key, Strip(raw)))
  {
    KeySpan(key, after);
  }

  /** An unbraced value runs up to the closing ` >`. */
  lemma MatchPlain(v: string)
    requires PlainValue(v)
    ensures MatchValue(v + " >") == Some(v)
  {
    LazyValueOf(v, " >");
    assert (v + " >")[..|v|] == v;
  }

  /** A braced value runs up to the closing `} >`, without the braces. */
  lemma MatchBraced(v: string)
    requires BracedValue(v)
    ensures MatchValue("{" + v + "} >") == Some(v)
  {
    var t := "{" + v + "} >";
    assert t[1..] == v + "} >";
    LazyValueOf(v, "} >");
    assert (v + "} >")[..|v|] == v;
  }

  /** `KEY value >` yields the key and the value. */
  lemma KeyValuePlain(key: string, v: string)
    requires IsKey(key) && PlainValue(v)
    ensures KeyValueOf(key + (" " + v + " >")) == Some(KeyValue(key, v))
  {
    var after := " " + v + " >";
    SingleSpace(after);
    assert after[1..] == v + " >";
    MatchPlain(v);
    assert TryTails(after, 1) == Some(v);
    KeyValueAfterKey(key, after, v);
    StripKeeps(v);
  }

  /** `KEY {value} >` yields the key and the value without its braces. */
  lemma KeyValueBraced(key: string, v: string)
    requires IsKey(key) && BracedValue(v)
    ensures KeyValueOf(key + (" {" + v + "} >")) == Some(KeyValue(key, v))
  {
    var after := " {" + v + "} >";
    SingleSpace(after);
    assert after[1..] == "{" + v + "} >";
    MatchBraced(v);
    assert TryTails(after, 1) == Some(v);
    KeyValueAfterKey(key, after, v);
    StripKeeps(v);
  }

  /** `< REP ` followed by a non-space character leaves everything after the one space. */
  lemma AfterRepPrefix(rest: string)
    requires rest != [] && NotSpace(rest[0])
    ensures AfterRep("< REP " + rest) == Some(rest)
  {
    var s := "< REP " + rest;
    assert s[1..] == " " + ("REP " + rest);
    SingleSpace(s[1..]);
    var a := TrimStart(s[1..], IsSpace);
    assert a == "REP " + rest;
    var b := a[3..];
    assert b == " " + rest;
    SingleSpace(b);
    assert b[1..] == rest;
  }

  /** A channel digit and one space before a key/value part select the channel branch. */
  lemma RepBodyChannel(d: Digit, rest: string, kv: KeyValue)
    requires rest != [] && NotSpace(rest[0])
    requires KeyValueOf(rest) == Some(kv)
    ensures RepBody([DigitChar(d)] + " " + rest) == Some(Rep(Some(d), kv.key, kv.value))
  {
    var c := [DigitChar(d)] + " " + rest;
    var t := " " + rest;
    DropHead(DigitChar(d), " ", rest);
    SingleSpace(t);
    assert TrimStart(t, IsSpace) == rest;
    assert c[1] == t[0];
    RepBodyChannelled(c, d, kv);
  }

  lemma RepBodyChannelled(c: string, d: Digit, kv: KeyValue)
    requires |c| >= 2 && c[0] == DigitChar(d) && IsSpace(c[1])
    requires KeyValueOf(TrimStart(c[1..], IsSpace)) == Some(kv)
    ensures RepBody(c) == Some(Rep(Some(d), kv.key, kv.value))
  {
  }

  lemma DropHead(x: char, sep: string, rest: string)
    ensures ([x] + sep + rest)[0] == x && ([x] + sep + rest)[1..] == sep + rest
  {
    assert [x] + sep + rest == [x] + (sep + rest);
  }

  /** A key/value part that does not open with a digit and a space is a device-level reply. */
  lemma RepBodyDevice(rest: string, kv: KeyValue)
    requires !(|rest| >= 2 && IsDigit(rest[0]) && IsSpace(rest[1]))
    requires KeyValueOf(rest) == Some(kv)
    ensures RepBody(rest) == Some(Rep(None, kv.key, kv.value))
  {
  }

  /** A reply line that names channel d before a key/value part parses with that channel. */
  lemma ParseWithChannel(d: Digit, rest: string, kv: KeyValue)
    requires rest != [] && NotSpace(rest[0]) && NotSpace(rest[|rest| - 1])
    requires KeyValueOf(rest) == Some(kv)
    ensures ParseReportLine("< REP " + ([DigitChar(d)] + " " + rest)) == Some(Rep(Some(d), kv.key, kv.value))
  {
    var body := [DigitChar(d)] + " " + rest;
    var s := "< REP " + body;
    assert s[|s| - 1] == rest[|rest| - 1];
    assert NotSpace(body[0]);
    StripKeeps(s);
    AfterRepPrefix(body);
    RepBodyChannel(d, rest, kv);
  }

  /** A reply line without a channel digit parses as a device-level reply. */
  lemma ParseWithoutChannel(rest: string, kv: KeyValue)
    requires rest != [] && NotSpace(rest[0]) && NotSpace(rest[|rest| - 1])
    requires !(|rest| >= 2 && IsDigit(rest[0]) && IsSpace(rest[1]))
    requires KeyValueOf(rest) == Some(kv)
    ensures ParseReportLine("< REP " + rest) == Some(Rep(None, kv.key, kv.value))
  {
    var s := "< REP " + rest;
    assert s[|s| - 1] == rest[|rest| - 1];
    StripKeeps(s);
    AfterRepPrefix(rest);
    RepBodyDevice(rest, kv);
  }

  /** The key/value part of a reply line: `KEY value >` or `KEY {value} >`. */
  function KeyValueText(key: string, value: string, braced: bool): string {
    key + (if braced then " {" + value + "} >" else " " + value + " >")
  }

  /**
    The line a device writes for a reply: `< REP [c ]KEY value >`, with the
    value inside one pair of braces or bare.
   */
  function ReplyText(r: Rep, braced: bool): (line: string)
    ensures StartsWith(line, "< REP ")
  {
    var kv := KeyValueText(r.key, r.value, braced);
    var body := match r.channel
      case None => kv
      case Some(d) => [DigitChar(d)] + " " + kv;
    assert ("< REP " + body)[..6] == "< REP ";
    "< REP " + body
  }

  /** A value the device can write: bare values may not open with a brace. */
  predicate WritableValue(v: string, braced: bool) {
    if braced then BracedValue(v) else PlainValue(v)
  }

  /** The key/value part of a written reply reads back as its key and value. */
  lemma KeyValueRoundTrip(key: string, v: string, braced: bool)
    requires IsKey(key) && WritableValue(v, braced)
    ensures KeyValueOf(KeyValueText(key, v, braced)) == Some(KeyValue(key, v))
    ensures var kv := KeyValueText(key, v, braced);
      kv != [] && kv[0] == key[0] && kv[|kv| - 1] == '>' && (|key| >= 2 ==> kv[1] == key[1])
      && (|key| == 1 ==> |kv| >= 2 && kv[1] == ' ')
  {
    if braced {
      KeyValueBraced(key, v);
      KeyThenTail(key, " {" + v + "} >");
    } else {
      KeyValuePlain(key, v);
      KeyThenTail(key, " " + v + " >");
    }
  }

  /** The ends of a key followed by a tail that opens with a space and closes with `>`. */
  lemma KeyThenTail(key: string, t: string)
    requires key != [] && |t| >= 2 && t[0] == ' ' && t[|t| - 1] == '>'
    ensures var kv := key + t;
      kv != [] && kv[0] == key[0] && kv[|kv| - 1] == '>' && (|key| >= 2 ==> kv[1] == key[1])
      && (|key| == 1 ==> |kv| >= 2 && kv[1] == ' ')
  {
  }

  /**
    Round trip of the reply grammar: parsing the line a device writes for a
    reply gives that reply back, channel, key and value, with the braces
    around a braced value excluded. (A one-character digit key without a
    channel would be read as a channel number, so it is excluded.)
   */
  lemma ReplyRoundTrip(r: Rep, braced: bool)
    requires IsKey(r.key) && WritableValue(r.value, braced)
    requires r.channel.None? ==> |r.key| >= 2 || !IsDigit(r.key[0])
    ensures ParseReportLine(ReplyText(r, braced)) == Some(r)
  {
    var kv := KeyValueText(r.key, r.value, braced);
    KeyValueRoundTrip(r.key, r.value, braced);
    KeyAt(r.key);
    match r.channel {
      case None =>
        ParseWithoutChannel(kv, KeyValue(r.key, r.value));
      case Some(d) =>
        ParseWithChannel(d, kv, KeyValue(r.key, r.value));
    }
  }

  /** The channel argument that addresses a reply's scope. */
  function ChannelArg(ch: Option<Digit>): Option<string> {
    match ch
    case None => None
    case Some(d) => Some([DigitChar(d)])
  }

  /**
    The match key of a reply in its key's scope (a device key without a
    channel, a channel key on channel 1..4) is the address build_command
    gives for that channel and key, so the reply to a GET is recognised.
   */
  lemma MatchKeyIsAddress(r: Rep)
    requires r.key in AllKeys
    requires r.channel.None? <==> IsDeviceKey(r.key)
    requires r.channel.Some? ==> 1 <= r.channel.value <= 4
    ensures BuildCommand(ChannelArg(r.channel), r.key) == Ok(MatchKey(r))
  {
    RegistryKeysAreKeys();
    KeyAt(r.key);
    UpperKeepsKey(r.key);
    if r.channel.Some? {
      ChannelArgValid(r.channel.value);
    }
  }

  /** The channels 1..4 render as the channel arguments build_command accepts. */
  lemma ChannelArgValid(d: Digit)
    requires 1 <= d <= 4
    ensures [DigitChar(d)] in Channels
  {
    if d == 1 { assert [DigitChar(d)] == Channels[0]; }
    else if d == 2 { assert [DigitChar(d)] == Channels[1]; }
    else if d == 3 { assert [DigitChar(d)] == Channels[2]; }
    else { assert [DigitChar(d)] == Channels[3]; }
  }

  /** Every registry key is made of key characters and is at least two long. */
  lemma RegistryKeysAreKeys()
    ensures forall k :: k in AllKeys ==> IsKey(k) && |k| >= 2
    ensures forall k :: k in ChannelKeys ==> k in AllKeys
  {
    DeviceKeysAreKeys();
    ChannelSetKeysAreKeys();
    ChannelGetKeysAreKeys();
    forall k | k in AllKeys ensures IsKey(k) && |k| >= 2 {
      assert k in DeviceGetOnlyKeys || k in ChannelGetSetKeys || k in ChannelGetOnlyKeys;
    }
  }

  lemma DeviceKeysAreKeys()
    ensures forall k :: k in DeviceGetOnlyKeys ==> IsKey(k)
    ensures forall k :: k in DeviceGetOnlyKeys ==> |k| >= 2
  {
  }

  lemma ChannelSetKeysAreKeys()
    ensures forall k :: k in ChannelGetSetKeys ==> IsKey(k)
    ensures forall k :: k in ChannelGetSetKeys ==> |k| >= 2
  {
  }

  lemma ChannelGetKeysAreKeys()
    ensures forall k :: k in ChannelGetOnlyKeys ==> IsKey(k)
    ensures forall k :: k in ChannelGetOnlyKeys ==> |k| >= 2
  {
    ChannelGetKeysShape();
    ChannelGetKeysLong();
  }

  lemma ChannelGetKeysShape()
    ensures forall k :: k in ChannelGetOnlyKeys ==> IsKey(k)
  {
    ChannelGetKeysFront();
    ChannelGetKeysBack();
    forall k | k in ChannelGetOnlyKeys ensures IsKey(k) {
      var i :| 0 <= i < |ChannelGetOnlyKeys| && ChannelGetOnlyKeys[i] == k;
    }
  }

  lemma ChannelGetKeysFront()
    ensures forall i :: 0 <= i < 7 ==> IsKey(ChannelGetOnlyKeys[i])
  {
  }

  lemma ChannelGetKeysBack()
    ensures forall i :: 7 <= i < 14 ==> IsKey(ChannelGetOnlyKeys[i])
  {
  }

  lemma ChannelGetKeysLong()
    ensures forall k :: k in ChannelGetOnlyKeys ==> |k| >= 2
  {
  }

  // ---------------------------------------------------------------------------
  // The exchange: frames, bulk merge and single-key correlation
  // ---------------------------------------------------------------------------

  /** The reply keyword the received text is cut on. */
  const Marker: string := "< REP "

  lemma MarkerAvoidsErr()
    ensures !Contains(Marker, "ERR")
  {
    forall k | 0 <= k <= |Marker| ensures !StartsWith(Marker[k..], "ERR") {
      if k + 3 <= |Marker| {
        assert Marker[k..][0] == Marker[k] && Marker[k..][1] == Marker[k + 1];
        assert Marker[k] != 'E' || Marker[k + 1] != 'R' by {
          assert k == 0 || k == 1 || k == 2 || k == 3;
        }
      }
    }
  }

  /**
    The candidate frames of the received text: every part between reply
    keywords that is not blank and does not contain `ERR`, stripped, with
    the keyword put back in front. No frame contains `ERR` at all.
   */
  function ReplyFrames(raw: string): (fs: seq<string>)
    ensures forall f :: f in fs ==> StartsWith(f, Marker) && !Contains(f, "ERR")
  {
    var fs := Exchange.Frames(raw, Marker, true);
    Exchange.CandidateBodiesAvoidErr(Split(raw, Marker), Marker);
    MarkerAvoidsErr();
    forall f | f in fs ensures !Contains(f, "ERR") {
      assert f == Marker + f[|Marker|..];
      Exchange.NoErrAcrossSpace(Marker, f[|Marker|..]);
    }
    fs
  }

  /** The parse of every frame, in arrival order. */
  function Parses(lines: seq<string>): (ps: seq<Option<Rep>>)
    ensures |ps| == |lines|
  {
    if lines == [] then [] else Parses(lines[..|lines| - 1]) + [ParseReportLine(lines[|lines| - 1])]
  }

  lemma {:induction false} ParsesAt(lines: seq<string>, i: nat)
    requires i < |lines|
    ensures Parses(lines)[i] == ParseReportLine(lines[i])
  {
    if i < |lines| - 1 {
      ParsesAt(lines[..|lines| - 1], i);
    }
  }

  /** The entries the bulk loop keeps: one per frame that parsed, in order. */
  function Kept(ps: seq<Option<Rep>>): (es: seq<Exchange.Entry<string>>)
    ensures |es| <= |ps|
  {
    if ps == [] then []
    else
      var rest := Kept(ps[..|ps| - 1]);
      match ps[|ps| - 1]
      case None => rest
      case Some(r) => rest + [Exchange.Entry(r.channel, r.key, r.value)]
  }

  /** The bulk entries of the received frames. */
  function Entries(lines: seq<string>): seq<Exchange.Entry<string>> {
    Kept(Parses(lines))
  }

  /** The bulk parse loop: keep every frame that parses, in order. */
  method CollectEntries(lines: seq<string>) returns (entries: seq<Exchange.Entry<string>>)
    ensures entries == Entries(lines)
  {
    entries := [];
    for i := 0 to |lines|
      invariant entries == Kept(Parses(lines[..i]))
    {
      assert lines[..i + 1][..i] == lines[..i];
      var parsed := ParseReportLine(lines[i]);
      if parsed.Some? {
        entries := entries + [Exchange.Entry(parsed.value.channel, parsed.value.key, parsed.value.value)];
      }
    }
    assert lines[..|lines|] == lines;
  }

  /** A parsed frame answers the request: it parsed and, unless any frame will do, its match key is the expected one. */
  predicate Hits(p: Option<Rep>, expected: Option<string>) {
    p.Some? && (expected.None? || MatchKey(p.value) == expected.value)
  }

  /** The index of the first frame, in arrival order, that answers the request. */
  function FirstHit(ps: seq<Option<Rep>>, expected: Option<string>): (r: Option<nat>)
    ensures r.Some? ==> r.value < |ps| && Hits(ps[r.value], expected)
    ensures r.Some? ==> forall j :: 0 <= j < r.value ==> !Hits(ps[j], expected)
    ensures r.None? ==> forall j :: 0 <= j < |ps| ==> !Hits(ps[j], expected)
  {
    if ps == [] then None
    else if Hits(ps[0], expected) then Some(0)
    else match FirstHit(ps[1..], expected)
      case None =>
        assert forall j :: 1 <= j < |ps| ==> ps[j] == ps[1..][j - 1];
        None
      case Some(i) =>
        assert forall j :: 1 <= j <= i ==> ps[j] == ps[1..][j - 1];
        Some(i + 1)
  }

  /** What a single-key exchange returns once the frames are in. */
  datatype Answer =
    | Silent              // None: a SET was acknowledged, or text mode found nothing
    | Value(text: string) // text mode: the value of the matching frame
    | Formatted(rep: Rep) // other modes: the matching frame, handed to the formatter
    | FormattedEmpty      // other modes, nothing matched: the formatter's rendering of {}

  /** Reference definition of the single-key result. */
  function Answered(lines: seq<string>, command: string, expected: Option<string>, textMode: bool): Answer {
    var ps := Parses(lines);
    match FirstHit(ps, expected)
    case None => if textMode then Silent else FormattedEmpty
    case Some(i) =>
      var r := ps[i].value;
      if StartsWith(command, "SET") then Silent
      else if textMode then Value(r.value)
      else Formatted(r)
  }

  /** The single-key scan: the first frame that answers decides the result. */
  method Correlate(lines: seq<string>, command: string, expected: Option<string>, textMode: bool) returns (a: Answer)
    ensures a == Answered(lines, command, expected, textMode)
  {
    ghost var ps := Parses(lines);
    var i := 0;
    while i < |lines|
      invariant 0 <= i <= |lines|
      invariant forall j :: 0 <= j < i ==> !Hits(ps[j], expected)
    {
      var parsed := ParseReportLine(lines[i]);
      assert parsed == ps[i] by { ParsesAt(lines, i); }
      if Hits(parsed, expected) {
        assert Answered(lines, command, expected, textMode) == if StartsWith(command, "SET") then Silent
          else if textMode then Value(parsed.value.value) else Formatted(parsed.value) by {
          FirstHitAt(Parses(lines), expected, i);
          AnsweredByHit(lines, command, expected, textMode, i);
        }
        if StartsWith(command, "SET") {
          return Silent;
        }
        if !textMode {
          return Formatted(parsed.value);
        }
        return Value(parsed.value.value);
      }
      assert forall j :: 0 <= j < i + 1 ==> !Hits(ps[j], expected) by {
        forall j | 0 <= j < i + 1 ensures !Hits(ps[j], expected) {
          if j == i {
            assert ps[j] == parsed;
          }
        }
      }
      i := i + 1;
    }
    assert FirstHit(Parses(lines), expected) == None;
    a := if textMode then Silent else FormattedEmpty;
  }

  /** Unfolding the reference result at the first frame that answers. */
  lemma AnsweredByHit(lines: seq<string>, command: string, expected: Option<string>, textMode: bool, i: nat)
    requires FirstHit(Parses(lines), expected) == Some(i)
    ensures var r := Parses(lines)[i].value;
      Answered(lines, command, expected, textMode)
      == if StartsWith(command, "SET") then Silent else if textMode then Value(r.value) else Formatted(r)
  {
  }

  /** The first frame that answers is the one FirstHit finds. */
  lemma FirstHitAt(ps: seq<Option<Rep>>, expected: Option<string>, i: nat)
    requires i < |ps| && Hits(ps[i], expected)
    requires forall j :: 0 <= j < i ==> !Hits(ps[j], expected)
    ensures FirstHit(ps, expected) == Some(i)
  {
    var h := FirstHit(ps, expected);
    assert h.Some?;
    assert h.value >= i;
    assert !(h.value > i);
  }

  /**
    In text mode a GET answers with the value of the first frame that
    answers it.
   */
  lemma GetAnswersFirstHit(lines: seq<string>, command: string, expected: Option<string>, i: nat)
    requires !StartsWith(command, "SET") && i < |lines|
    requires Hits(Parses(lines)[i], expected) && forall j :: 0 <= j < i ==> !Hits(Parses(lines)[j], expected)
    ensures Answered(lines, command, expected, true) == Value(Parses(lines)[i].value.value)
  {
    FirstHitAt(Parses(lines), expected, i);
  }

  /** In text mode a GET that no frame answers gives nothing. */
  lemma GetWithoutHit(lines: seq<string>, command: string, expected: Option<string>)
    requires forall j :: 0 <= j < |lines| ==> !Hits(Parses(lines)[j], expected)
    ensures Answered(lines, command, expected, true) == Silent
  {
  }

  /** A SET is never answered with a value: text mode says nothing, matched or not. */
  lemma SetIsSilent(lines: seq<string>, command: string, expected: Option<string>, textMode: bool)
    requires StartsWith(command, "SET")
    ensures Answered(lines, command, expected, textMode) == (if textMode || FirstHit(Parses(lines), expected).Some? then Silent else FormattedEmpty)
  {
  }

  // The bulk request -----------------------------------------------------------

  /** `GET KEY` for every device-level read-only key. */
  function DeviceGets(): (cmds: seq<string>)
    ensures |cmds| == |DeviceGetOnlyKeys|
  {
    seq(|DeviceGetOnlyKeys|, i requires 0 <= i < |DeviceGetOnlyKeys| => "GET " + DeviceGetOnlyKeys[i])
  }

  /** `GET c KEY` for every channel key, in registry order. */
  function ChannelGets(ch: string): (cmds: seq<string>)
    ensures |cmds| == |ChannelKeys|
  {
    seq(|ChannelKeys|, i requires 0 <= i < |ChannelKeys| => "GET " + ch + " " + ChannelKeys[i])
  }

  /** The channel requests for several channels, one channel after the other. */
  function ChannelGetsFor(chs: seq<string>): seq<string> {
    if chs == [] then [] else ChannelGetsFor(chs[..|chs| - 1]) + ChannelGets(chs[|chs| - 1])
  }

  /** The bulk request list: the device keys, then every channel key for channels 1 to 4. */
  function BulkCommands(): seq<string> {
    DeviceGets() + ChannelGetsFor(Channels)
  }

  /** Building the bulk request list: the device requests, extended channel by channel. */
  method BulkRequest() returns (cmds: seq<string>)
    ensures cmds == BulkCommands()
  {
    cmds := DeviceGets();
    for c := 0 to |Channels|
      invariant cmds == DeviceGets() + ChannelGetsFor(Channels[..c])
    {
      assert Channels[..c + 1][..c] == Channels[..c];
      cmds := cmds + ChannelGets(Channels[c]);
    }
    assert Channels[..|Channels|] == Channels;
  }

  lemma {:induction false} ChannelGetsForLength(chs: seq<string>)
    ensures |ChannelGetsFor(chs)| == 21 * |chs|
  {
    assert |ChannelKeys| == 21;
    if chs != [] {
      ChannelGetsForLength(chs[..|chs| - 1]);
    }
  }

  /** Where channel c's request for key i sits in the channel part of the list. */
  lemma {:induction false} ChannelGetsForAt(chs: seq<string>, c: nat, i: nat)
    requires c < |chs| && i < 21
    ensures |ChannelGetsFor(chs)| == 21 * |chs|
    ensures ChannelGetsFor(chs)[21 * c + i] == "GET " + chs[c] + " " + ChannelKeys[i]
  {
    assert |ChannelKeys| == 21;
    var init := chs[..|chs| - 1];
    ChannelGetsForLength(chs);
    ChannelGetsForLength(init);
    if c < |chs| - 1 {
      ChannelGetsForAt(init, c, i);
      assert 21 * c + i < 21 * |init|;
    } else {
      assert 21 * c + i == 21 * |init| + i;
    }
  }

  /** Upper-casing leaves every registry key unchanged. */
  lemma RegistryKeysUpper()
    ensures forall k :: k in AllKeys ==> Upper(k) == k
  {
    RegistryKeysAreKeys();
    forall k | k in AllKeys ensures Upper(k) == k {
      KeyAt(k);
      UpperKeepsKey(k);
    }
  }

  /** The i-th bulk request reads device key i, at its build_command address. */
  lemma BulkDeviceAt(i: nat)
    requires i < 7
    ensures |BulkCommands()| == 91
    ensures BuildCommand(None, DeviceGetOnlyKeys[i]) == Ok(DeviceGetOnlyKeys[i])
    ensures BulkCommands()[i] == "GET " + DeviceGetOnlyKeys[i]
  {
    RegistryKeysUpper();
    ChannelGetsForLength(Channels);
    assert DeviceGetOnlyKeys[i] in AllKeys;
  }

  /** Request 7 + 21c + i reads channel key i on channel c + 1, at its build_command address. */
  lemma BulkChannelAt(c: nat, i: nat)
    requires c < 4 && i < 21
    ensures |BulkCommands()| == 91
    ensures BuildCommand(Some(Channels[c]), ChannelKeys[i]) == Ok(Channels[c] + " " + ChannelKeys[i])
    ensures BulkCommands()[7 + 21 * c + i] == "GET " + Channels[c] + " " + ChannelKeys[i]
  {
    RegistryKeysUpper();
    ChannelKeysAreNotDeviceKeys();
    assert ChannelKeys[i] in ChannelKeys;
    ChannelKeyAddressing(Some(Channels[c]), ChannelKeys[i]);
    ChannelGetsForAt(Channels, c, i);
  }

  /**
    The bulk request list holds 91 requests, and each one is `GET` followed
    by the address build_command gives: the seven device keys first, then
    the 21 channel keys for each of the channels 1 to 4.
   */
  lemma BulkCommandsAddressed()
    ensures |BulkCommands()| == 91
    ensures forall i :: 0 <= i < 7 ==>
      BuildCommand(None, DeviceGetOnlyKeys[i]) == Ok(DeviceGetOnlyKeys[i])
      && BulkCommands()[i] == "GET " + DeviceGetOnlyKeys[i]
    ensures forall c, i :: 0 <= c < 4 && 0 <= i < 21 ==>
      BuildCommand(Some(Channels[c]), ChannelKeys[i]) == Ok(Channels[c] + " " + ChannelKeys[i])
      && BulkCommands()[7 + 21 * c + i] == "GET " + Channels[c] + " " + ChannelKeys[i]
  {
    BulkDeviceAt(0);
    forall i | 0 <= i < 7
      ensures BuildCommand(None, DeviceGetOnlyKeys[i]) == Ok(DeviceGetOnlyKeys[i])
      ensures BulkCommands()[i] == "GET " + DeviceGetOnlyKeys[i]
    {
      BulkDeviceAt(i);
    }
    forall c, i | 0 <= c < 4 && 0 <= i < 21
      ensures BuildCommand(Some(Channels[c]), ChannelKeys[i]) == Ok(Channels[c] + " " + ChannelKeys[i])
      ensures BulkCommands()[7 + 21 * c + i] == "GET " + Channels[c] + " " + ChannelKeys[i]
    {
      BulkChannelAt(c, i);
    }
  }

  // One exchange with the receiver ----------------------------------------------

  /** A request line as written to the socket: `< cmd >` and CR LF. */
  function RequestLine(cmd: string): string {
    "< " + cmd + " >\r\n"
  }

  /** Everything written for a list of requests, in order. */
  function Wire(cmds: seq<string>): string {
    if cmds == [] then [] else Wire(cmds[..|cmds| - 1]) + RequestLine(cmds[|cmds| - 1])
  }

  /** What `send_command` is asked for: one command, or the bulk read. */
  datatype Request =
    | Single(command: string, expected: Option<string>, textMode: bool)
    | Bulk

  /**
    The connection attempt: refused with an error; open, with what the socket
    delivers; or open, with the write of request number `at` raising (the
    last request's when `at` is past the end).
   */
  datatype Link =
    | Refused(reason: string)
    | Connected(replies: seq<Exchange.Recv>)
    | WriteFailed(at: nat, reason: string)

  /** The index of the write that raises among `n` requests. */
  function FailingWrite(at: nat, n: nat): (k: nat)
    ensures k <= n && (n > 0 ==> k < n)
    ensures at < n ==> k == at
  {
    if at < n then at else if n == 0 then 0 else n - 1
  }

  /** What `send_command` returns. */
  datatype Outcome =
    | Replied(answer: Answer)                      // single-key mode
    | Table(snapshot: Exchange.Snapshot<string>)   // bulk mode, before formatting
    | Failed(message: string)                      // any exception: `(error: …)`

  /** The text written to the socket and the result returned. */
  datatype Transcript = Transcript(sent: string, outcome: Outcome)

  function Requested(request: Request): seq<string> {
    match request
    case Bulk => BulkCommands()
    case Single(command, _, _) => [command]
  }

  function ErrorText(reason: string): string {
    "(error: " + reason + ")"
  }

  /** Reference definition of one exchange, from the connection to the returned result. */
  function Exchanged(request: Request, link: Link): Transcript {
    match link
    case Refused(reason) => Transcript([], Failed(ErrorText(reason)))
    case WriteFailed(at, reason) =>
      var cmds := Requested(request);
      Transcript(Wire(cmds[..FailingWrite(at, |cmds|)]), Failed(ErrorText(reason)))
    case Connected(replies) =>
      var sent := Wire(Requested(request));
      match Exchange.Drain(replies)
      case DrainFailed(reason) => Transcript(sent, Failed(ErrorText(reason)))
      case Received(raw) =>
        var lines := ReplyFrames(raw);
        match request
        case Bulk => Transcript(sent, Table(Exchange.Merged(Entries(lines))))
        case Single(command, expected, textMode) =>
          Transcript(sent, Replied(Answered(lines, command, expected, textMode)))
  }

  /**
    `send_command`: write the requests, drain the socket, cut the text into
    frames, then merge them (bulk) or pick the first one that answers.
   */
  method SendCommand(request: Request, link: Link) returns (t: Transcript)
    ensures t == Exchanged(request, link)
  {
    if link.Refused? {
      return Transcript([], Failed(ErrorText(link.reason)));
    }
    var cmds: seq<string>;
    if request.Bulk? {
      cmds := BulkRequest();
      assert |cmds| > 0 by { BulkDeviceAt(0); }
    } else {
      cmds := [request.command];
    }
    var failAt := if link.WriteFailed? then FailingWrite(link.at, |cmds|) else |cmds|;
    var sent: string := [];
    for k := 0 to |cmds|
      invariant sent == Wire(cmds[..k])
      invariant link.WriteFailed? ==> k <= failAt
    {
      if link.WriteFailed? && k == failAt {
        return Transcript(sent, Failed(ErrorText(link.reason)));
      }
      assert cmds[..k + 1][..k] == cmds[..k];
      sent := sent + RequestLine(cmds[k]);
    }
    assert cmds[..|cmds|] == cmds;
    var drained := Exchange.DrainSocket(link.replies);
    if drained.DrainFailed? {
      return Transcript(sent, Failed(ErrorText(drained.reason)));
    }
    var lines := ReplyFrames(drained.raw);
    if request.Bulk? {
      var entries := CollectEntries(lines);
      var merged := Exchange.Merge(entries);
      return Transcript(sent, Table(merged));
    }
    var answer := Correlate(lines, request.command, request.expected, request.textMode);
    return Transcript(sent, Replied(answer));
  }

  /** Writing two lists of requests in turn writes their concatenation. */
  lemma {:induction false} WireAppend(a: seq<string>, b: seq<string>)
    ensures Wire(a + b) == Wire(a) + Wire(b)
    decreases |b|
  {
    if b == [] {
      assert a + b == a;
    } else {
      var c := b[..|b| - 1];
      assert (a + b)[..|a + b| - 1] == a + c && (a + b)[|a + b| - 1] == b[|b| - 1];
      WireAppend(a, c);
    }
  }

  /**
    A write that raises ends the exchange with its error: what reached the
    socket is the requests before the failing one, a proper prefix of the
    full request text, and nothing is read.
   */
  lemma WriteFailureReported(request: Request, at: nat, reason: string)
    ensures var t := Exchanged(request, WriteFailed(at, reason));
      && t.outcome == Failed(ErrorText(reason))
      && StartsWith(Wire(Requested(request)), t.sent)
      && |t.sent| < |Wire(Requested(request))|
  {
    var cmds := Requested(request);
    assert |cmds| > 0 by {
      if request.Bulk? {
        BulkDeviceAt(0);
      }
    }
    WirePrefix(cmds, FailingWrite(at, |cmds|));
  }

  /** The requests before number k are written as a proper prefix of the whole text. */
  lemma WirePrefix(cmds: seq<string>, k: nat)
    requires k < |cmds|
    ensures StartsWith(Wire(cmds), Wire(cmds[..k])) && |Wire(cmds[..k])| < |Wire(cmds)|
  {
    assert cmds == cmds[..k] + cmds[k..];
    WireAppend(cmds[..k], cmds[k..]);
    var rest := cmds[k..];
    assert rest[..|rest| - 1] + [rest[|rest| - 1]] == rest;
    WireAppend(rest[..|rest| - 1], [rest[|rest| - 1]]);
    assert Wire([rest[|rest| - 1]]) == RequestLine(rest[|rest| - 1]);
  }

  // The checks `main` makes before a SET ------------------------------------------

  /** What `main` does with `--set`: refuse with a message, or send one command. */
  datatype SetPlan = SetRefused(message: string) | SetSend(command: string)

  /** The value as written after the address: in one pair of braces for the brace keys. */
  function SetValue(key: string, v: string): (w: string)
    ensures |w| == |v| || |w| == |v| + 2
  {
    if Upper(key) in BraceKeys then "{" + v + "}" else v
  }

  /**
    `--set`: build the address (an error is reported as `Error: …`), refuse
    the device-level read-only keys, require a value, then send
    `SET <address> <value>`.
   */
  function PrepareSet(channel: Option<string>, key: string, value: Option<string>): (p: SetPlan)
    ensures p.SetSend? ==> Upper(key) in AllKeys && Upper(key) !in DeviceGetOnlyKeys && value.Some?
    ensures p.SetSend? ==> StartsWith(p.command, "SET ")
  {
    match BuildCommand(channel, key)
    case Err(m) => SetRefused("Error: " + m)
    case Ok(address) =>
      if Upper(key) in DeviceGetOnlyKeys then
        SetRefused("Error: " + Upper(key) + " is read-only and cannot be set")
      else if value.None? then
        SetRefused("Error: --value is required for --set")
      else
        var command := "SET " + address + " " + SetValue(key, value.value);
        assert command[..4] == "SET ";
        SetSend(command)
  }

  /** A device-level read-only key (DEVICE_ID among them) is never sent a SET. */
  lemma SetRefusesReadOnly(channel: Option<string>, key: string, value: Option<string>)
    requires Upper(key) in DeviceGetOnlyKeys
    ensures PrepareSet(channel, key, value) == SetRefused("Error: " + Upper(key) + " is read-only and cannot be set")
  {
    assert Upper(key) in AllKeys;
  }

  /** An addressable, writable key without a value is refused. */
  lemma SetNeedsValue(channel: Option<string>, key: string)
    requires BuildCommand(channel, key).Ok? && Upper(key) !in DeviceGetOnlyKeys
    ensures PrepareSet(channel, key, None) == SetRefused("Error: --value is required for --set")
  {
  }

  /**
    Otherwise the SET goes out to the address build_command gives, with the
    value wrapped in exactly one pair of braces if and only if the key is a
    brace key, and unchanged otherwise.
   */
  lemma SetCommandShape(channel: Option<string>, key: string, v: string)
    requires BuildCommand(channel, key).Ok? && Upper(key) !in DeviceGetOnlyKeys
    ensures var w := SetValue(key, v);
      PrepareSet(channel, key, Some(v)) == SetSend("SET " + BuildCommand(channel, key).value + " " + w)
      && (w == "{" + v + "}" <==> Upper(key) in BraceKeys)
      && (Upper(key) !in BraceKeys ==> w == v)
  {
  }

  /**
    Only the device-level read-only keys are refused: a channel-level
    read-only key on a valid channel is sent like any other.
   */
  lemma SetSendsChannelReadOnly(channel: string, key: string, v: string)
    requires Upper(key) in ChannelGetOnlyKeys && channel in Channels
    ensures PrepareSet(Some(channel), key, Some(v)).SetSend?
  {
    ChannelKeysAreNotDeviceKeys();
    assert Upper(key) in ChannelKeys;
    ChannelKeyAddressing(Some(channel), key);
  }

  // End-to-end properties of an exchange ------------------------------------------

  /** A reply the device can write and the frame cutter keeps intact. */
  predicate Deliverable(r: Rep, braced: bool) {
    IsKey(r.key) && WritableValue(r.value, braced)
    && (r.channel.None? ==> |r.key| >= 2 || !IsDigit(r.key[0]))
    && Exchange.GoodBody(ReplyText(r, braced)[|Marker|..], Marker, true)
  }

  /** The frame bodies of a list of replies, each after its reply keyword. */
  function Bodies(reps: seq<Rep>, braced: bool): (bs: seq<string>)
    ensures |bs| == |reps|
  {
    seq(|reps|, i requires 0 <= i < |reps| => ReplyText(reps[i], braced)[|Marker|..])
  }

  /** The bulk entries a list of replies stands for. */
  function EntriesOf(reps: seq<Rep>): (es: seq<Exchange.Entry<string>>)
    ensures |es| == |reps|
  {
    seq(|reps|, i requires 0 <= i < |reps| => Exchange.Entry(reps[i].channel, reps[i].key, reps[i].value))
  }

  /** Frames that all parsed become one entry each, in order. */
  lemma {:induction false} KeptAll(ps: seq<Option<Rep>>, reps: seq<Rep>)
    requires |ps| == |reps|
    requires forall i :: 0 <= i < |ps| ==> ps[i] == Some(reps[i])
    ensures Kept(ps) == EntriesOf(reps)
  {
    if ps != [] {
      var n := |ps| - 1;
      KeptAll(ps[..n], reps[..n]);
      assert EntriesOf(reps[..n]) == EntriesOf(reps)[..n];
      assert EntriesOf(reps) == EntriesOf(reps)[..n] + [EntriesOf(reps)[n]];
    }
  }

  lemma MarkerIsGood()
    ensures Exchange.GoodMarker(Marker)
  {
  }

  /** The frames cut from a stream of deliverable replies are exactly the reply lines. */
  lemma FramesOfReplies(reps: seq<Rep>, braced: bool)
    requires forall i :: 0 <= i < |reps| ==> Deliverable(reps[i], braced)
    ensures var lines := ReplyFrames(Exchange.Stream(Bodies(reps, braced), Marker));
      |lines| == |reps| && forall i :: 0 <= i < |reps| ==> Parses(lines)[i] == Some(reps[i])
  {
    var bodies := Bodies(reps, braced);
    MarkerIsGood();
    forall b | b in bodies ensures Exchange.GoodBody(b, Marker, true) {
      var i :| 0 <= i < |bodies| && bodies[i] == b;
      assert Deliverable(reps[i], braced);
    }
    Exchange.FramesOfStream(bodies, Marker, true);
    var lines := Exchange.Framed(bodies, Marker);
    forall i | 0 <= i < |reps| ensures Parses(lines)[i] == Some(reps[i]) {
      ParsesAt(lines, i);
      var line := ReplyText(reps[i], braced);
      assert line == Marker + line[|Marker|..];
      assert lines[i] == line;
      ReplyRoundTrip(reps[i], braced);
    }
  }

  /** One data chunk drains to exactly its text. */
  lemma DrainOne(raw: string)
    ensures Exchange.Drain([Exchange.Data(raw)]) == Exchange.Received(raw)
  {
    assert raw + [] == raw;
  }

  /** Over one data chunk, a single request is answered from the frames of that chunk. */
  lemma ExchangedSingle(command: string, expected: Option<string>, textMode: bool, raw: string)
    ensures Exchanged(Single(command, expected, textMode), Connected([Exchange.Data(raw)]))
      == Transcript(Wire([command]), Replied(Answered(ReplyFrames(raw), command, expected, textMode)))
  {
    DrainOne(raw);
  }

  /** Over one data chunk, the bulk read merges the entries of that chunk's frames. */
  lemma ExchangedBulk(request: Request, raw: string)
    requires request.Bulk?
    ensures Exchanged(request, Connected([Exchange.Data(raw)]))
      == Transcript(Wire(Requested(request)), Table(Exchange.Merged(Entries(ReplyFrames(raw)))))
  {
    DrainOne(raw);
  }

  lemma GetIsNotSet(addr: string)
    ensures !StartsWith("GET " + addr, "SET")
  {
    assert ("GET " + addr)[0] == 'G';
  }

  /** A GET whose only frame parses to the reply it addresses reads that reply's value. */
  lemma OnlyFrameAnswers(lines: seq<string>, r: Rep, command: string)
    requires |lines| == 1 && Parses(lines)[0] == Some(r)
    requires !StartsWith(command, "SET")
    ensures Answered(lines, command, Some(MatchKey(r)), true) == Value(r.value)
  {
    FirstHitAt(Parses(lines), Some(MatchKey(r)), 0);
  }

  /** A single request over one data chunk whose first frame answers it with `r`. */
  lemma SingleAnswered(r: Rep, raw: string)
    requires |ReplyFrames(raw)| == 1
    requires Parses(ReplyFrames(raw))[0] == Some(r)
    ensures var addr := MatchKey(r);
      Exchanged(Single("GET " + addr, Some(addr), true), Connected([Exchange.Data(raw)]))
      == Transcript(RequestLine("GET " + addr), Replied(Value(r.value)))
  {
    var addr := MatchKey(r);
    ExchangedSingle("GET " + addr, Some(addr), true, raw);
    GetIsNotSet(addr);
    OnlyFrameAnswers(ReplyFrames(raw), r, "GET " + addr);
    assert Wire(["GET " + addr]) == RequestLine("GET " + addr);
  }

  /** The bulk request over one data chunk whose frames all parse, as `reps`. */
  lemma BulkAnswered(request: Request, reps: seq<Rep>, raw: string)
    requires request.Bulk?
    requires |ReplyFrames(raw)| == |reps|
    requires forall i :: 0 <= i < |reps| ==> Parses(ReplyFrames(raw))[i] == Some(reps[i])
    ensures Exchanged(request, Connected([Exchange.Data(raw)]))
      == Transcript(Wire(Requested(request)), Table(Exchange.Merged(EntriesOf(reps))))
  {
    ExchangedBulk(request, raw);
    KeptAll(Parses(ReplyFrames(raw)), reps);
    assert Entries(ReplyFrames(raw)) == EntriesOf(reps);
  }

  /** One deliverable reply is cut into one frame, which parses back to it. */
  lemma SingleFrame(r: Rep, braced: bool)
    requires Deliverable(r, braced)
    ensures var lines := ReplyFrames(Exchange.Stream([ReplyText(r, braced)[|Marker|..]], Marker));
      |lines| == 1 && Parses(lines)[0] == Some(r)
  {
    assert Bodies([r], braced) == [ReplyText(r, braced)[|Marker|..]];
    FramesOfReplies([r], braced);
  }

  /** A well-formed reply for a registry key can be delivered. */
  lemma RegistryReplyDeliverable(r: Rep, braced: bool)
    requires r.key in AllKeys
    requires WritableValue(r.value, braced)
    requires Exchange.GoodBody(ReplyText(r, braced)[|Marker|..], Marker, true)
    ensures Deliverable(r, braced)
  {
    RegistryKeysAreKeys();
  }

  /**
    A GET of a registry key in its scope, answered by the device with one
    reply line for that key, returns the reply's value in text mode; what
    was written is the one request line.
   */
  lemma GetRoundTrip(r: Rep, braced: bool)
    requires r.key in AllKeys
    requires r.channel.None? <==> IsDeviceKey(r.key)
    requires r.channel.Some? ==> 1 <= r.channel.value <= 4
    requires WritableValue(r.value, braced)
    requires Exchange.GoodBody(ReplyText(r, braced)[|Marker|..], Marker, true)
    ensures BuildCommand(ChannelArg(r.channel), r.key) == Ok(MatchKey(r))
    ensures var addr := MatchKey(r);
      Exchanged(Single("GET " + addr, Some(addr), true), Connected([Exchange.Data(Exchange.Stream([ReplyText(r, braced)[|Marker|..]], Marker))]))
      == Transcript(RequestLine("GET " + addr), Replied(Value(r.value)))
  {
    MatchKeyIsAddress(r);
    RegistryReplyDeliverable(r, braced);
    SingleFrame(r, braced);
    SingleAnswered(r, Exchange.Stream([ReplyText(r, braced)[|Marker|..]], Marker));
  }

  /**
    The bulk read, answered with one reply line per slot, returns the merge
    of those replies in arrival order; what was written is the 91 request
    lines.
   */
  lemma BulkRoundTrip(request: Request, reps: seq<Rep>, braced: bool)
    requires request.Bulk?
    requires forall i :: 0 <= i < |reps| ==> Deliverable(reps[i], braced)
    ensures Exchanged(request, Connected([Exchange.Data(Exchange.Stream(Bodies(reps, braced), Marker))]))
      == Transcript(Wire(Requested(request)), Table(Exchange.Merged(EntriesOf(reps))))
  {
    FramesOfReplies(reps, braced);
    BulkAnswered(request, reps, Exchange.Stream(Bodies(reps, braced), Marker));
  }
}
