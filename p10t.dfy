/**
  The two-channel transmitter client (p10t.py): the key registry and command
  addressing, the token-based `REPORT` reply parser, and the post-I/O half
  of `send_command` (frame cutting, bulk merge and single-key correlation),
  together with the checks `main` makes before a `SET` is sent.
 */
module P10t {
  import opened Text
  import Exchange

  // ---------------------------------------------------------------------------
  // Key registry and addressing
  // ---------------------------------------------------------------------------

  const DeviceGetOnlyKeys: seq<string> := ["DEVICE_NAME"]

  const DeviceGetSetKeys: seq<string> := []

  const ChannelGetSetKeys: seq<string> := [
    "CHAN_NAME", "AUDIO_IN_LVL", "GROUP_CHAN", "FREQUENCY", "RF_TX_LVL",
    "RF_MUTE", "AUDIO_TX_MODE", "AUDIO_IN_LINE_LVL", "METER_RATE"
  ]

  const AllKeys: seq<string> := DeviceGetOnlyKeys + DeviceGetSetKeys + ChannelGetSetKeys

  /** The channel arguments a channel-level key accepts. */
  const Channels: seq<string> := ["1", "2"]

  predicate IsDeviceKey(k: string) {
    k in DeviceGetOnlyKeys || k in DeviceGetSetKeys
  }

  /**
    The address of a key on the wire: the bare key for DEVICE_NAME, `c KEY`
    for a channel-level key on channel 1 or 2.
   */
  function BuildCommand(channel: Option<string>, key: string): (r: Result<string>)
    ensures r.Ok? ==> Upper(key) in AllKeys && EndsWith(r.value, Upper(key))
  {
    var k := Upper(key);
    if k !in AllKeys then Err("Unknown key: " + k)
    else if IsDeviceKey(k) then Ok(k)
    else if channel.None? || channel.value !in Channels then
      Err("Channel must be 1 or 2 for channel-level keys")
    else
      assert EndsWith(channel.value + " " + k, k) by {
        assert (channel.value + " " + k)[|channel.value| + 1..] == k;
      }
      Ok(channel.value + " " + k)
  }

  /** A registry key typed with any of its letters in lower case addresses what the key itself does. */
  lemma KeyCaseIgnored(channel: Option<string>, key: string, k: string)
    requires k in AllKeys && CaseVariant(key, k)
    ensures BuildCommand(channel, key) == BuildCommand(channel, k)
  {
    assert IsKey(k) by { RegistryKeysAreKeys(); }
    KeyAt(k);
    UpperOfCaseVariant(key, k);
  }

  /** A key outside the registry, once upper-cased, never yields a command. */
  lemma UnknownKeyRejected(channel: Option<string>, key: string)
    requires Upper(key) !in AllKeys
    ensures BuildCommand(channel, key) == Err("Unknown key: " + Upper(key))
  {
  }

  /** DEVICE_NAME is addressed by its bare name, whatever the channel. */
  lemma DeviceNameIsBare(channel: Option<string>, key: string)
    requires Upper(key) == "DEVICE_NAME"
    ensures BuildCommand(channel, key) == Ok("DEVICE_NAME")
  {
    assert Upper(key) in AllKeys;
  }

  /**
    A channel-level key is addressed as `c KEY` exactly when the channel is
    1 or 2; any other channel, or none, is an error.
   */
  lemma ChannelKeyAddressing(channel: Option<string>, key: string)
    requires Upper(key) in ChannelGetSetKeys
    ensures BuildCommand(channel, key).Ok? <==> channel.Some? && channel.value in Channels
    ensures BuildCommand(channel, key).Ok? ==> BuildCommand(channel, key).value == channel.value + " " + Upper(key)
  {
    ChannelKeysAreNotDeviceKeys();
  }

  /** The two scopes of the registry do not overlap. */
  lemma ChannelKeysAreNotDeviceKeys()
    ensures forall k :: k in ChannelGetSetKeys ==> k in AllKeys && !IsDeviceKey(k)
  {
  }

  /** Every registry key is made of key characters. */
  lemma RegistryKeysAreKeys()
    ensures forall k :: k in AllKeys ==> IsKey(k)
  {
    assert forall k :: k in ChannelGetSetKeys ==> IsKey(k);
    assert IsKey("DEVICE_NAME");
  }

  // ---------------------------------------------------------------------------
  // The `REPORT` reply parser
  // ---------------------------------------------------------------------------

  /** The characters `strip("<> ")` removes from both ends of a frame. */
  const Strippable: set<char> := {'<', '>', ' '}

  /** The whitespace tokens of a frame once its angle brackets are stripped. */
  function Tokens(line: string): (ts: seq<string>)
    ensures forall t :: t in ts ==> IsWord(t)
  {
    Words(StripChars(line, Strippable))
  }

  /** The channel numbers the parser recognises. */
  type ChannelNo = c: int | 1 <= c <= 2 witness 1

  /** The channel number as `str(int)` renders it. */
  function ChannelText(c: ChannelNo): (t: string)
    ensures t in Channels && IsWord(t)
  {
    if c == 1 then "1" else "2"
  }

  /**
    One parsed report: its channel, if the second token was 1 or 2, its key,
    and its value, which a channel report may lack.
   */
  datatype Report = Report(channel: Option<ChannelNo>, key: string, value: Option<string>)

  /**
    `parse_report_line`: nothing unless at least three tokens remain and the
    first is `REPORT`; a second token of 1 or 2 makes a channel report with
    the third token as key and the fourth, if any, as value; otherwise a
    device report with the second token as key and the third as value.
    Tokens after the value are ignored and braces are kept.
   */
  function ParseReportLine(line: string): (r: Option<Report>)
    ensures r.None? <==> |Tokens(line)| < 3 || Tokens(line)[0] != "REPORT"
    ensures r.Some? ==> IsWord(r.value.key) && (r.value.value.Some? ==> IsWord(r.value.value.value))
    ensures r.Some? && r.value.channel.None? ==> r.value.value.Some? && r.value.key !in Channels
  {
    ParseTokens(Tokens(line))
  }

  /** The branches of `parse_report_line` once the frame is split into tokens. */
  function ParseTokens(parts: seq<string>): (r: Option<Report>)
    ensures r.None? <==> |parts| < 3 || parts[0] != "REPORT"
    ensures r.Some? ==> r.value.key in parts && (r.value.value.Some? ==> r.value.value.value in parts)
    ensures r.Some? && r.value.channel.None? ==> r.value.value.Some? && r.value.key !in Channels
  {
    if |parts| < 3 || parts[0] != "REPORT" then None
    else if parts[1] == "1" || parts[1] == "2" then
      var ch: ChannelNo := if parts[1] == "1" then 1 else 2;
      Some(Report(Some(ch), parts[2], if |parts| > 3 then Some(parts[3]) else None))
    else
      Some(Report(None, parts[1], Some(parts[2])))
  }

  /** The address a report answers: `c KEY` for a channel report, the bare key otherwise. */
  function MatchKey(r: Report): (k: string)
    ensures EndsWith(k, r.key)
  {
    match r.channel
    case None => r.key
    case Some(c) =>
      var k := ChannelText(c) + " " + r.key;
      assert k[2..] == r.key;
      k
  }

  // Report round trips ---------------------------------------------------------

  /** The tokens a device writes after `REPORT` for a report. */
  function ReportArgs(r: Report): (args: seq<string>)
    ensures args != []
  {
    (match r.channel case None => [] case Some(c) => [ChannelText(c)])
    + [r.key]
    + (match r.value case None => [] case Some(v) => [v])
  }

  /** The token a report line ends with. */
  function LastToken(r: Report): string {
    match r.value
    case None => r.key
    case Some(v) => v
  }

  /** A frame with the given tokens: `< ` then the tokens with single spaces, then ` >`. */
  function LineOf(ts: seq<string>): string {
    "< " + Join(ts, " ") + " >"
  }

  /** The frame a device writes for a report. */
  function ReportText(r: Report): string {
    LineOf(["REPORT"] + ReportArgs(r))
  }

  /**
    A report the parser gives back unchanged: words for key and value, a
    value whenever there is no channel, a device key that is not 1 or 2, and
    a last character that `strip("<> ")` would not eat.
   */
  predicate Writable(r: Report) {
    IsWord(r.key)
    && (r.value.Some? ==> IsWord(r.value.value))
    && (r.channel.None? ==> r.value.Some? && r.key !in Channels)
    && EndsClear(LastToken(r))
  }

  /** A token whose last character `strip("<> ")` would not eat. */
  predicate EndsClear(w: string) {
    w != [] && w[|w| - 1] !in Strippable
  }

  /** The tokens of a frame written with single spaces are the tokens written. */
  lemma TokensOfLine(ts: seq<string>)
    requires forall i :: 0 <= i < |ts| ==> IsWord(ts[i])
    requires ts != [] && ts[0] != [] && ts[0][0] !in Strippable
    requires EndsClear(ts[|ts| - 1])
    ensures Tokens(LineOf(ts)) == ts
  {
    var core := Join(ts, " ");
    JoinEnds(ts, " ");
    assert core[0] == ts[0][0];
    assert core[|core| - 1] == ts[|ts| - 1][|ts[|ts| - 1]| - 1];
    assert forall i :: 0 <= i < |"< "| ==> "< "[i] in Strippable;
    assert forall i :: 0 <= i < |" >"| ==> " >"[i] in Strippable;
    StripCharsAround("< ", core, " >", Strippable);
    WordsOfJoin(ts);
  }

  /** The tokens of a writable report's frame. */
  lemma ReportTokens(r: Report, more: seq<string>)
    requires Writable(r)
    requires forall i :: 0 <= i < |more| ==> IsWord(more[i])
    requires more != [] ==> EndsClear(more[|more| - 1])
    ensures Tokens(LineOf(["REPORT"] + ReportArgs(r) + more)) == ["REPORT"] + ReportArgs(r) + more
  {
    var ts := ["REPORT"] + ReportArgs(r) + more;
    var args := ReportArgs(r);
    assert args[|args| - 1] == LastToken(r);
    forall i | 0 <= i < |ts| ensures IsWord(ts[i]) {
      if i == 0 {
        assert ts[0] == "REPORT";
      } else if i <= |args| {
        assert ts[i] == args[i - 1];
      } else {
        assert ts[i] == more[i - 1 - |args|];
      }
    }
    if more == [] {
      assert ts[|ts| - 1] == LastToken(r);
    } else {
      assert ts[|ts| - 1] == more[|more| - 1];
    }
    TokensOfLine(ts);
  }

  /** Parsing the tokens of a writable report, followed by any extra tokens, gives the report. */
  lemma ParseArgs(r: Report, more: seq<string>, line: string)
    requires Writable(r)
    requires Tokens(line) == ["REPORT"] + ReportArgs(r) + more
    requires r.value.None? ==> more == []
    ensures ParseReportLine(line) == Some(r)
  {
    var parts := Tokens(line);
    if r.channel.None? {
      assert parts == ["REPORT", r.key, r.value.value] + more;
      ParseDeviceTokens(r, more);
    } else if r.value.Some? {
      assert parts == ["REPORT", ChannelText(r.channel.value), r.key, r.value.value] + more;
      ParseChannelTokens(r, more);
    } else {
      assert parts == ["REPORT", ChannelText(r.channel.value), r.key];
      ParseBareChannelTokens(r);
    }
  }

  lemma ParseChannelTokens(r: Report, more: seq<string>)
    requires r.channel.Some? && r.value.Some?
    ensures ParseTokens(["REPORT", ChannelText(r.channel.value), r.key, r.value.value] + more) == Some(r)
  {
    var parts := ["REPORT", ChannelText(r.channel.value), r.key, r.value.value] + more;
    assert parts[1] == ChannelText(r.channel.value) && parts[2] == r.key && parts[3] == r.value.value;
  }

  lemma ParseBareChannelTokens(r: Report)
    requires r.channel.Some? && r.value.None?
    ensures ParseTokens(["REPORT", ChannelText(r.channel.value), r.key]) == Some(r)
  {
  }

  lemma ParseDeviceTokens(r: Report, more: seq<string>)
    requires r.channel.None? && r.value.Some? && r.key !in Channels
    ensures ParseTokens(["REPORT", r.key, r.value.value] + more) == Some(r)
  {
    var parts := ["REPORT", r.key, r.value.value] + more;
    assert parts[1] == r.key && parts[2] == r.value.value;
  }

  /** A device writes a report; the parser reads back exactly that report. */
  lemma ReportRoundTrip(r: Report)
    requires Writable(r)
    ensures ParseReportLine(ReportText(r)) == Some(r)
  {
    ReportTokens(r, []);
    assert ["REPORT"] + ReportArgs(r) + [] == ["REPORT"] + ReportArgs(r);
    ParseArgs(r, [], ReportText(r));
  }

  /**
    Only one token is kept as the value: a report followed by further
    tokens parses to the same report, the rest of a multi-word value lost.
   */
  lemma ExtraTokensIgnored(r: Report, more: seq<string>)
    requires Writable(r) && r.value.Some?
    requires forall i :: 0 <= i < |more| ==> IsWord(more[i])
    requires more != [] ==> EndsClear(more[|more| - 1])
    ensures ParseReportLine(LineOf(["REPORT"] + ReportArgs(r) + more)) == Some(r)
  {
    ReportTokens(r, more);
    ParseArgs(r, more, LineOf(["REPORT"] + ReportArgs(r) + more));
  }

  /** A two-word name keeps only its first word: `Lead Vocal` is read as `Lead`. */
  lemma MultiWordValueTruncated()
    ensures ParseReportLine(LineOf(["REPORT", "1", "CHAN_NAME", "Lead", "Vocal"]))
      == Some(Report(Some(1), "CHAN_NAME", Some("Lead")))
  {
    var r := Report(Some(1), "CHAN_NAME", Some("Lead"));
    assert ["REPORT"] + ReportArgs(r) + ["Vocal"] == ["REPORT", "1", "CHAN_NAME", "Lead", "Vocal"];
    ExtraTokensIgnored(r, ["Vocal"]);
  }

  /** Braces around a value are part of the value: they are never stripped. */
  lemma BracesKept(c: ChannelNo, key: string, v: string)
    requires IsWord(key) && IsWord(v)
    ensures var r := Report(Some(c), key, Some("{" + v + "}"));
      ParseReportLine(ReportText(r)) == Some(r)
  {
    var w := "{" + v + "}";
    assert IsWord(w) by {
      forall i | 0 <= i < |w| ensures NotSpace(w[i]) {
        if 0 < i < |w| - 1 {
          assert w[i] == v[i - 1];
        }
      }
    }
    ReportRoundTrip(Report(Some(c), key, Some(w)));
  }

  /** A channel report for a registry key answers the address build_command gives. */
  function ChannelArg(c: Option<ChannelNo>): Option<string> {
    match c
    case None => None
    case Some(n) => Some(ChannelText(n))
  }

  /**
    The match key of a report in its key's scope (DEVICE_NAME without a
    channel, a channel key on channel 1 or 2) is the address build_command
    gives for that channel and key, so the reply to a GET is recognised.
   */
  lemma MatchKeyIsAddress(r: Report)
    requires r.key in AllKeys
    requires r.channel.None? <==> IsDeviceKey(r.key)
    ensures BuildCommand(ChannelArg(r.channel), r.key) == Ok(MatchKey(r))
  {
    RegistryKeysAreKeys();
    KeyAt(r.key);
  }

  // ---------------------------------------------------------------------------
  // The exchange: frames, bulk merge and single-key correlation
  // ---------------------------------------------------------------------------

  /** The reply keyword the received text is cut on. */
  const Marker: string := "< REPORT "

  /**
    The candidate frames of the received text: every part between reply
    keywords that is not blank, stripped, with the keyword put back in
    front. Unlike the four-channel client, frames with `ERR` are kept.
   */
  function ReplyFrames(raw: string): (fs: seq<string>)
    ensures forall f :: f in fs ==> StartsWith(f, Marker)
  {
    Exchange.Frames(raw, Marker, false)
  }

  /** The parse of every frame, in arrival order. */
  function Parses(lines: seq<string>): (ps: seq<Option<Report>>)
    ensures |ps| == |lines|
  {
    if lines == [] then [] else Parses(lines[..|lines| - 1]) + [ParseReportLine(lines[|lines| - 1])]
  }

  lemma {:induction false} ParsesAt(lines: seq<string>, i: nat)
    requires i < |lines|
    ensures Parses(lines)[i] == ParseReportLine(lines[i])
  {
    var init := lines[..|lines| - 1];
    assert Parses(lines) == Parses(init) + [ParseReportLine(lines[|lines| - 1])];
    if i < |lines| - 1 {
      ParsesAt(init, i);
      assert init[i] == lines[i];
    }
  }

  /** The entries the bulk loop keeps: one per frame that parsed, in order. */
  function Kept(ps: seq<Option<Report>>): (es: seq<Exchange.Entry<Option<string>>>)
    ensures |es| <= |ps|
  {
    if ps == [] then []
    else
      var rest := Kept(ps[..|ps| - 1]);
      match ps[|ps| - 1]
      case None => rest
      case Some(r) => rest + [Exchange.Entry(r.channel, r.key, r.value)]
  }

  /** The bulk entries of the received frames. */
  function Entries(lines: seq<string>): seq<Exchange.Entry<Option<string>>> {
    Kept(Parses(lines))
  }

  /** The bulk parse loop: keep every frame that parses, in order. */
  method CollectEntries(lines: seq<string>) returns (entries: seq<Exchange.Entry<Option<string>>>)
    ensures entries == Entries(lines)
  {
    entries := [];
    for i := 0 to |lines|
      invariant entries == Kept(Parses(lines[..i]))
    {
      assert lines[..i + 1][..i] == lines[..i];
      var parsed := ParseReportLine(lines[i]);
      if parsed.Some? {
        entries := entries + [Exchange.Entry(parsed.value.channel, parsed.value.key, parsed.value.value)];
      }
    }
    assert lines[..|lines|] == lines;
  }

  /** A parsed frame answers the request when its match key is the expected key; no key matches nothing. */
  predicate Hits(p: Option<Report>, expected: Option<string>) {
    p.Some? && expected.Some? && MatchKey(p.value) == expected.value
  }

  /** The index of the first frame, in arrival order, that answers the request. */
  function FirstHit(ps: seq<Option<Report>>, expected: Option<string>): (r: Option<nat>)
    ensures r.Some? ==> r.value < |ps| && Hits(ps[r.value], expected)
    ensures r.Some? ==> forall j :: 0 <= j < r.value ==> !Hits(ps[j], expected)
    ensures r.None? ==> forall j :: 0 <= j < |ps| ==> !Hits(ps[j], expected)
  {
    if ps == [] then None
    else if Hits(ps[0], expected) then Some(0)
    else match FirstHit(ps[1..], expected)
      case None =>
        NoHitShift(ps, p => Hits(p, expected));
        None
      case Some(i) =>
        HitShift(ps, p => Hits(p, expected), i);
        Some(i + 1)
  }

  /** No element of the tail hits, nor does the head: none of the list hits. */
  lemma NoHitShift<T>(ps: seq<T>, hit: T -> bool)
    requires ps != [] && !hit(ps[0])
    requires forall j :: 0 <= j < |ps[1..]| ==> !hit(ps[1..][j])
    ensures forall j :: 0 <= j < |ps| ==> !hit(ps[j])
  {
    forall j | 1 <= j < |ps| ensures !hit(ps[j]) {
      assert ps[j] == ps[1..][j - 1];
    }
  }

  /** The first hit of the tail, one place on, is the first hit of the list when the head misses. */
  lemma HitShift<T>(ps: seq<T>, hit: T -> bool, i: nat)
    requires ps != [] && !hit(ps[0]) && i < |ps[1..]| && hit(ps[1..][i])
    requires forall j :: 0 <= j < i ==> !hit(ps[1..][j])
    ensures hit(ps[i + 1])
    ensures forall j :: 0 <= j < i + 1 ==> !hit(ps[j])
  {
    assert ps[i + 1] == ps[1..][i];
    forall j | 1 <= j < i + 1 ensures !hit(ps[j]) {
      assert ps[j] == ps[1..][j - 1];
    }
  }

  /** What a single-key exchange returns once the frames are in. */
  datatype Answer =
    | Value(value: Option<string>) // text mode: the value of the matching frame (None if it had none)
    | Formatted(report: Report)    // other modes: the matching frame, handed to the formatter
    | NoMatch                      // text mode, nothing matched: "(no match)"
    | FormattedEmpty               // other modes, nothing matched: the formatter's rendering of {}

  /** Reference definition of the single-key result; a SET is answered like a GET. */
  function Answered(lines: seq<string>, expected: Option<string>, textMode: bool): Answer {
    var ps := Parses(lines);
    match FirstHit(ps, expected)
    case None => if textMode then NoMatch else FormattedEmpty
    case Some(i) => if textMode then Value(ps[i].value.value) else Formatted(ps[i].value)
  }

  /** The single-key scan: the first frame that answers decides the result. */
  method Correlate(lines: seq<string>, expected: Option<string>, textMode: bool) returns (a: Answer)
    ensures a == Answered(lines, expected, textMode)
  {
    var i := 0;
    while i < |lines|
      invariant 0 <= i <= |lines|
      invariant forall j :: 0 <= j < i ==> !Hits(Parses(lines)[j], expected)
    {
      var parsed := ParseReportLine(lines[i]);
      ParsesAt(lines, i);
      if Hits(parsed, expected) {
        FirstHitAt(Parses(lines), expected, i);
        if !textMode {
          return Formatted(parsed.value);
        }
        return Value(parsed.value.value);
      }
      MissExtends(Parses(lines), expected, i);
      i := i + 1;
    }
    assert FirstHit(Parses(lines), expected) == None;
    a := if textMode then NoMatch else FormattedEmpty;
  }

  /** One more frame that does not answer extends the run of frames that do not. */
  lemma MissExtends(ps: seq<Option<Report>>, expected: Option<string>, i: nat)
    requires i < |ps| && !Hits(ps[i], expected)
    requires forall j :: 0 <= j < i ==> !Hits(ps[j], expected)
    ensures forall j :: 0 <= j < i + 1 ==> !Hits(ps[j], expected)
  {
  }

  /** The first frame that answers is the one FirstHit finds. */
  lemma FirstHitAt(ps: seq<Option<Report>>, expected: Option<string>, i: nat)
    requires i < |ps| && Hits(ps[i], expected)
    requires forall j :: 0 <= j < i ==> !Hits(ps[j], expected)
    ensures FirstHit(ps, expected) == Some(i)
  {
    var h := FirstHit(ps, expected);
    assert h.Some?;
    assert h.value >= i;
    assert !(h.value > i);
  }

  /** In text mode the value of the first frame that answers is returned, for a GET and a SET alike. */
  lemma AnswersFirstHit(lines: seq<string>, expected: Option<string>, i: nat)
    requires i < |lines|
    requires Hits(Parses(lines)[i], expected) && forall j :: 0 <= j < i ==> !Hits(Parses(lines)[j], expected)
    ensures Answered(lines, expected, true) == Value(Parses(lines)[i].value.value)
  {
    FirstHitAt(Parses(lines), expected, i);
  }

  /** In text mode, when no frame answers, the result is "(no match)". */
  lemma NoHitIsNoMatch(lines: seq<string>, expected: Option<string>)
    requires forall j :: 0 <= j < |lines| ==> !Hits(Parses(lines)[j], expected)
    ensures Answered(lines, expected, true) == NoMatch
  {
    NoHitNone(Parses(lines), expected);
  }

  /** Without an expected key nothing answers: text mode gives "(no match)". */
  lemma NothingExpectedIsNoMatch(lines: seq<string>)
    ensures Answered(lines, None, true) == NoMatch
  {
    FirstHitNothing(Parses(lines));
  }

  /** Without an expected key no frame answers. */
  lemma FirstHitNothing(ps: seq<Option<Report>>)
    ensures FirstHit(ps, None) == None
  {
    assert forall j :: 0 <= j < |ps| ==> !Hits(ps[j], None);
    NoHitNone(ps, None);
  }

  /** When no frame answers, FirstHit finds none. */
  lemma {:induction false} NoHitNone(ps: seq<Option<Report>>, expected: Option<string>)
    requires forall j :: 0 <= j < |ps| ==> !Hits(ps[j], expected)
    ensures FirstHit(ps, expected) == None
  {
    if ps != [] {
      assert !Hits(ps[0], expected);
      assert forall j :: 0 <= j < |ps| - 1 ==> ps[1..][j] == ps[j + 1];
      NoHitNone(ps[1..], expected);
    }
  }

  // The bulk request -----------------------------------------------------------

  /** `GET KEY` for every device-level read-only key. */
  function DeviceGets(): (cmds: seq<string>)
    ensures |cmds| == |DeviceGetOnlyKeys|
  {
    seq(|DeviceGetOnlyKeys|, i requires 0 <= i < |DeviceGetOnlyKeys| => "GET " + DeviceGetOnlyKeys[i])
  }

  /** `GET c KEY` for every channel key, in registry order. */
  function ChannelGets(ch: string): (cmds: seq<string>)
    ensures |cmds| == |ChannelGetSetKeys|
  {
    seq(|ChannelGetSetKeys|, i requires 0 <= i < |ChannelGetSetKeys| => "GET " + ch + " " + ChannelGetSetKeys[i])
  }

  /** The channel requests for several channels, one channel after the other. */
  function ChannelGetsFor(chs: seq<string>): seq<string> {
    if chs == [] then [] else ChannelGetsFor(chs[..|chs| - 1]) + ChannelGets(chs[|chs| - 1])
  }

  /** The bulk request list: DEVICE_NAME, then every channel key for channel 1 and then channel 2. */
  function BulkCommands(): seq<string> {
    DeviceGets() + ChannelGetsFor(Channels)
  }

  /** Building the bulk request list: the device requests, extended channel by channel. */
  method BulkRequest() returns (cmds: seq<string>)
    ensures cmds == BulkCommands()
  {
    cmds := DeviceGets();
    for c := 0 to |Channels|
      invariant cmds == DeviceGets() + ChannelGetsFor(Channels[..c])
    {
      assert Channels[..c + 1][..c] == Channels[..c];
      cmds := cmds + ChannelGets(Channels[c]);
    }
    assert Channels[..|Channels|] == Channels;
  }

  lemma {:induction false} ChannelGetsForLength(chs: seq<string>)
    ensures |ChannelGetsFor(chs)| == 9 * |chs|
  {
    if chs != [] {
      ChannelGetsForLength(chs[..|chs| - 1]);
    }
  }

  /** Where channel c's request for key i sits in the channel part of the list. */
  lemma {:induction false} ChannelGetsForAt(chs: seq<string>, c: nat, i: nat)
    requires c < |chs| && i < 9
    ensures |ChannelGetsFor(chs)| == 9 * |chs|
    ensures ChannelGetsFor(chs)[9 * c + i] == "GET " + chs[c] + " " + ChannelGetSetKeys[i]
  {
    var init := chs[..|chs| - 1];
    ChannelGetsForLength(chs);
    ChannelGetsForLength(init);
    if c < |chs| - 1 {
      ChannelGetsForAt(init, c, i);
      assert 9 * c + i < 9 * |init|;
    } else {
      assert 9 * c + i == 9 * |init| + i;
    }
  }

  /**
    The bulk request list holds 19 requests, each `GET` followed by the
    address build_command gives: DEVICE_NAME first, then the nine channel
    keys for channel 1 and then for channel 2.
   */
  lemma BulkCommandsAddressed()
    ensures |BulkCommands()| == 19
    ensures BuildCommand(None, "DEVICE_NAME") == Ok("DEVICE_NAME") && BulkCommands()[0] == "GET DEVICE_NAME"
    ensures forall c, i :: 0 <= c < 2 && 0 <= i < 9 ==>
      BuildCommand(Some(Channels[c]), ChannelGetSetKeys[i]) == Ok(Channels[c] + " " + ChannelGetSetKeys[i])
      && BulkCommands()[1 + 9 * c + i] == "GET " + Channels[c] + " " + ChannelGetSetKeys[i]
  {
    BulkLength();
    BulkFirst();
    DeviceNameUpper();
    DeviceNameIsBare(None, "DEVICE_NAME");
    forall c, i | 0 <= c < 2 && 0 <= i < 9
      ensures BuildCommand(Some(Channels[c]), ChannelGetSetKeys[i]) == Ok(Channels[c] + " " + ChannelGetSetKeys[i])
      ensures BulkCommands()[1 + 9 * c + i] == "GET " + Channels[c] + " " + ChannelGetSetKeys[i]
    {
      BulkChannelAt(c, i);
    }
  }

  lemma BulkLength()
    ensures |BulkCommands()| == 19
  {
    ChannelGetsForLength(Channels);
  }

  lemma BulkFirst()
    ensures BulkCommands()[0] == "GET DEVICE_NAME"
  {
    BulkLength();
    assert DeviceGets()[0] == "GET DEVICE_NAME";
  }

  lemma DeviceNameUpper()
    ensures Upper("DEVICE_NAME") == "DEVICE_NAME"
  {
    var k := "DEVICE_NAME";
    forall i | 0 <= i < |k| ensures IsKeyChar(k[i]) {
    }
    UpperKeepsKey(k);
  }

  lemma BulkChannelAt(c: nat, i: nat)
    requires c < 2 && i < 9
    ensures |BulkCommands()| == 19
    ensures BuildCommand(Some(Channels[c]), ChannelGetSetKeys[i]) == Ok(Channels[c] + " " + ChannelGetSetKeys[i])
    ensures BulkCommands()[1 + 9 * c + i] == "GET " + Channels[c] + " " + ChannelGetSetKeys[i]
  {
    RegistryKeysAreKeys();
    var k := ChannelGetSetKeys[i];
    assert k in AllKeys;
    KeyAt(k);
    ChannelKeyAddressing(Some(Channels[c]), k);
    ChannelGetsForAt(Channels, c, i);
  }

  // One exchange with the transmitter --------------------------------------------

  /** A request line as written to the socket: `< cmd >` and CR LF. */
  function RequestLine(cmd: string): string {
    "< " + cmd + " >\r\n"
  }

  /** Everything written for a list of requests, in order. */
  function Wire(cmds: seq<string>): string {
    if cmds == [] then [] else Wire(cmds[..|cmds| - 1]) + RequestLine(cmds[|cmds| - 1])
  }

  /** What `send_command` is asked for: one command, or the bulk read. */
  datatype Request =
    | Single(command: string, expected: Option<string>, textMode: bool)
    | Bulk

  /**
    The connection attempt: refused with an error; open, with what the socket
    delivers; or open, with the write of request number `at` raising (the
    last request's when `at` is past the end).
   */
  datatype Link =
    | Refused(reason: string)
    | Connected(replies: seq<Exchange.Recv>)
    | WriteFailed(at: nat, reason: string)

  /** The index of the write that raises among `n` requests. */
  function FailingWrite(at: nat, n: nat): (k: nat)
    ensures k <= n && (n > 0 ==> k < n)
    ensures at < n ==> k == at
  {
    if at < n then at else if n == 0 then 0 else n - 1
  }

  /** What `send_command` returns. */
  datatype Outcome =
    | Replied(answer: Answer)                              // single-key mode
    | Table(snapshot: Exchange.Snapshot<Option<string>>)   // bulk mode, before formatting
    | Failed(message: string)                              // any exception: `(error: …)`

  /** The text written to the socket and the result returned. */
  datatype Transcript = Transcript(sent: string, outcome: Outcome)

  function Requested(request: Request): seq<string> {
    match request
    case Bulk => BulkCommands()
    case Single(command, _, _) => [command]
  }

  function ErrorText(reason: string): string {
    "(error: " + reason + ")"
  }

  /** Reference definition of one exchange, from the connection to the returned result. */
  function Exchanged(request: Request, link: Link): Transcript {
    match link
    case Refused(reason) => Transcript([], Failed(ErrorText(reason)))
    case WriteFailed(at, reason) =>
      var cmds := Requested(request);
      Transcript(Wire(cmds[..FailingWrite(at, |cmds|)]), Failed(ErrorText(reason)))
    case Connected(replies) =>
      var sent := Wire(Requested(request));
      match Exchange.Drain(replies)
      case DrainFailed(reason) => Transcript(sent, Failed(ErrorText(reason)))
      case Received(raw) =>
        var lines := ReplyFrames(raw);
        match request
        case Bulk => Transcript(sent, Table(Exchange.Merged(Entries(lines))))
        case Single(_, expected, textMode) =>
          Transcript(sent, Replied(Answered(lines, expected, textMode)))
  }

  /**
    `send_command`: write the requests, drain the socket, cut the text into
    frames, then merge them (bulk) or pick the first one that answers.
   */
  method SendCommand(request: Request, link: Link) returns (t: Transcript)
    ensures t == Exchanged(request, link)
  {
    if link.Refused? {
      return Transcript([], Failed(ErrorText(link.reason)));
    }
    var cmds: seq<string>;
    if request.Bulk? {
      cmds := BulkRequest();
      assert |cmds| > 0 by { BulkLength(); }
    } else {
      cmds := [request.command];
    }
    var failAt := if link.WriteFailed? then FailingWrite(link.at, |cmds|) else |cmds|;
    var sent: string := [];
    for k := 0 to |cmds|
      invariant sent == Wire(cmds[..k])
      invariant link.WriteFailed? ==> k <= failAt
    {
      if link.WriteFailed? && k == failAt {
        return Transcript(sent, Failed(ErrorText(link.reason)));
      }
      assert cmds[..k + 1][..k] == cmds[..k];
      sent := sent + RequestLine(cmds[k]);
    }
    assert cmds[..|cmds|] == cmds;
    var drained := Exchange.DrainSocket(link.replies);
    if drained.DrainFailed? {
      return Transcript(sent, Failed(ErrorText(drained.reason)));
    }
    var lines := ReplyFrames(drained.raw);
    if request.Bulk? {
      var entries := CollectEntries(lines);
      var merged := Exchange.Merge(entries);
      return Transcript(sent, Table(merged));
    }
    var answer := Correlate(lines, request.expected, request.textMode);
    return Transcript(sent, Replied(answer));
  }

  /** Writing two lists of requests in turn writes their concatenation. */
  lemma {:induction false} WireAppend(a: seq<string>, b: seq<string>)
    ensures Wire(a + b) == Wire(a) + Wire(b)
    decreases |b|
  {
    if b == [] {
      assert a + b == a;
    } else {
      var c := b[..|b| - 1];
      assert (a + b)[..|a + b| - 1] == a + c && (a + b)[|a + b| - 1] == b[|b| - 1];
      WireAppend(a, c);
    }
  }

  /**
    A write that raises ends the exchange with its error: what reached the
    socket is the requests before the failing one, a proper prefix of the
    full request text, and nothing is read.
   */
  lemma WriteFailureReported(request: Request, at: nat, reason: string)
    ensures var t := Exchanged(request, WriteFailed(at, reason));
      && t.outcome == Failed(ErrorText(reason))
      && StartsWith(Wire(Requested(request)), t.sent)
      && |t.sent| < |Wire(Requested(request))|
  {
    var cmds := Requested(request);
    assert |cmds| > 0 by {
      if request.Bulk? {
        BulkLength();
      }
    }
    WirePrefix(cmds, FailingWrite(at, |cmds|));
  }

  /** The requests before number k are written as a proper prefix of the whole text. */
  lemma WirePrefix(cmds: seq<string>, k: nat)
    requires k < |cmds|
    ensures StartsWith(Wire(cmds), Wire(cmds[..k])) && |Wire(cmds[..k])| < |Wire(cmds)|
  {
    assert cmds == cmds[..k] + cmds[k..];
    WireAppend(cmds[..k], cmds[k..]);
    var rest := cmds[k..];
    assert rest[..|rest| - 1] + [rest[|rest| - 1]] == rest;
    WireAppend(rest[..|rest| - 1], [rest[|rest| - 1]]);
    assert Wire([rest[|rest| - 1]]) == RequestLine(rest[|rest| - 1]);
  }

  // The checks `main` makes before a SET ------------------------------------------

  /** What `main` does with `--set`: refuse with a message, or send one command and wait for its key. */
  datatype SetPlan = SetRefused(message: string) | SetSend(command: string, expected: string)

  /**
    `--set`: build the address (an error is reported as `Error: …`), refuse
    DEVICE_NAME, require a value, then send `SET <address> <value>` as given,
    expecting a report for the address.
   */
  function PrepareSet(channel: Option<string>, key: string, value: Option<string>): (p: SetPlan)
    ensures p.SetSend? ==> Upper(key) in ChannelGetSetKeys && value.Some?
    ensures p.SetSend? ==> BuildCommand(channel, key) == Ok(p.expected)
  {
    match BuildCommand(channel, key)
    case Err(m) => SetRefused("Error: " + m)
    case Ok(address) =>
      if Upper(key) in DeviceGetOnlyKeys then
        SetRefused("Error: " + Upper(key) + " is read-only and cannot be set")
      else if value.None? then
        SetRefused("Error: --value is required for --set")
      else
        SetSend("SET " + address + " " + value.value, address)
  }

  /** DEVICE_NAME is never sent a SET. */
  lemma SetRefusesDeviceName(channel: Option<string>, key: string, value: Option<string>)
    requires Upper(key) == "DEVICE_NAME"
    ensures PrepareSet(channel, key, value) == SetRefused("Error: " + Upper(key) + " is read-only and cannot be set")
  {
    DeviceNameIsBare(channel, key);
  }

  /**
    A channel key on channel 1 or 2 with a value is sent as
    `SET c KEY value`, the value unwrapped, and the reply is awaited under `c KEY`.
   */
  lemma SetCommandShape(channel: string, key: string, v: string)
    requires Upper(key) in ChannelGetSetKeys && channel in Channels
    ensures PrepareSet(Some(channel), key, Some(v))
      == SetSend("SET " + channel + " " + Upper(key) + " " + v, channel + " " + Upper(key))
  {
    ChannelKeyAddressing(Some(channel), key);
    ChannelKeysAreNotDeviceKeys();
    var k := Upper(key);
    assert BuildCommand(Some(channel), key) == Ok(channel + " " + k);
    assert !IsDeviceKey(k);
    assert k !in DeviceGetOnlyKeys;
  }

  // End-to-end properties of an exchange ------------------------------------------

  /** A report the device can write and the frame cutter keeps intact. */
  predicate Deliverable(r: Report) {
    Writable(r) && Exchange.Framable(ReportText(r)[|Marker|..], Marker)
  }

  /** A report's frame is the keyword followed by its body. */
  lemma ReportTextAfterMarker(r: Report)
    ensures |Marker| <= |ReportText(r)| && ReportText(r) == Marker + ReportText(r)[|Marker|..]
  {
    var args := ReportArgs(r);
    var ts := ["REPORT"] + args;
    assert ts[1..] == args;
    var j := Join(args, " ");
    assert Join(ts, " ") == "REPORT" + " " + j;
    assert ReportText(r) == Marker + (j + " >");
  }

  /** The frame bodies of a list of reports, each after its reply keyword. */
  function Bodies(reps: seq<Report>): (bs: seq<string>)
    ensures |bs| == |reps|
  {
    seq(|reps|, i requires 0 <= i < |reps| => ReportText(reps[i])[|Marker|..])
  }

  /** The bulk entries a list of reports stands for. */
  function EntriesOf(reps: seq<Report>): (es: seq<Exchange.Entry<Option<string>>>)
    ensures |es| == |reps|
  {
    seq(|reps|, i requires 0 <= i < |reps| => Exchange.Entry(reps[i].channel, reps[i].key, reps[i].value))
  }

  /** Frames that all parsed become one entry each, in order. */
  lemma {:induction false} KeptAll(ps: seq<Option<Report>>, reps: seq<Report>)
    requires |ps| == |reps|
    requires forall i :: 0 <= i < |ps| ==> ps[i] == Some(reps[i])
    ensures Kept(ps) == EntriesOf(reps)
  {
    if ps != [] {
      var n := |ps| - 1;
      KeptAll(ps[..n], reps[..n]);
      assert EntriesOf(reps[..n]) == EntriesOf(reps)[..n];
      assert EntriesOf(reps) == EntriesOf(reps)[..n] + [EntriesOf(reps)[n]];
    }
  }

  lemma MarkerIsGood()
    ensures Exchange.GoodMarker(Marker)
  {
  }

  /** The frames cut from a stream of deliverable reports are exactly the report lines, `ERR` or not. */
  lemma FramesOfReports(reps: seq<Report>)
    requires forall i :: 0 <= i < |reps| ==> Deliverable(reps[i])
    ensures var lines := ReplyFrames(Exchange.Stream(Bodies(reps), Marker));
      |lines| == |reps| && forall i :: 0 <= i < |reps| ==> Parses(lines)[i] == Some(reps[i])
  {
    var bodies := Bodies(reps);
    MarkerIsGood();
    forall b | b in bodies ensures Exchange.GoodBody(b, Marker, false) {
      var i :| 0 <= i < |bodies| && bodies[i] == b;
      assert Deliverable(reps[i]);
    }
    Exchange.FramesOfStream(bodies, Marker, false);
    var lines := Exchange.Framed(bodies, Marker);
    forall i | 0 <= i < |reps| ensures Parses(lines)[i] == Some(reps[i]) {
      ParsesAt(lines, i);
      ReportTextAfterMarker(reps[i]);
      assert lines[i] == ReportText(reps[i]);
      ReportRoundTrip(reps[i]);
    }
  }

  /** One data chunk drains to exactly its text. */
  lemma DrainOne(raw: string)
    ensures Exchange.Drain([Exchange.Data(raw)]) == Exchange.Received(raw)
  {
    assert raw + [] == raw;
  }

  /** Over one data chunk, a single request is answered from the frames of that chunk. */
  lemma ExchangedSingle(command: string, expected: Option<string>, textMode: bool, raw: string)
    ensures Exchanged(Single(command, expected, textMode), Connected([Exchange.Data(raw)]))
      == Transcript(Wire([command]), Replied(Answered(ReplyFrames(raw), expected, textMode)))
  {
    DrainOne(raw);
  }

  /** Over one data chunk, the bulk read merges the entries of that chunk's frames. */
  lemma ExchangedBulk(request: Request, raw: string)
    requires request.Bulk?
    ensures Exchanged(request, Connected([Exchange.Data(raw)]))
      == Transcript(Wire(Requested(request)), Table(Exchange.Merged(Entries(ReplyFrames(raw)))))
  {
    DrainOne(raw);
  }

  /** A request whose only frame parses to the report it addresses reads that report's value. */
  lemma OnlyFrameAnswers(lines: seq<string>, r: Report)
    requires |lines| == 1 && Parses(lines)[0] == Some(r)
    ensures Answered(lines, Some(MatchKey(r)), true) == Value(r.value)
  {
    OnlyFrameHits(Parses(lines), r);
  }

  lemma OnlyFrameHits(ps: seq<Option<Report>>, r: Report)
    requires |ps| == 1 && ps[0] == Some(r)
    ensures FirstHit(ps, Some(MatchKey(r))) == Some(0)
  {
    FirstHitAt(ps, Some(MatchKey(r)), 0);
  }

  /** A single request over one data chunk whose one frame is the report it addresses. */
  lemma SingleAnswered(command: string, r: Report, raw: string)
    requires |ReplyFrames(raw)| == 1
    requires Parses(ReplyFrames(raw))[0] == Some(r)
    ensures Exchanged(Single(command, Some(MatchKey(r)), true), Connected([Exchange.Data(raw)]))
      == Transcript(RequestLine(command), Replied(Value(r.value)))
  {
    ExchangedSingle(command, Some(MatchKey(r)), true, raw);
    OnlyFrameAnswers(ReplyFrames(raw), r);
    assert Wire([command]) == RequestLine(command);
  }

  /** One deliverable report is cut into one frame, which parses back to it. */
  lemma SingleFrame(r: Report)
    requires Deliverable(r)
    ensures var lines := ReplyFrames(Exchange.Stream([ReportText(r)[|Marker|..]], Marker));
      |lines| == 1 && Parses(lines)[0] == Some(r)
  {
    assert Bodies([r]) == [ReportText(r)[|Marker|..]];
    FramesOfReports([r]);
  }

  /**
    A request for a registry key in its scope, GET or SET alike, answered
    by one report for that key, returns the report's value in text mode;
    what was written is the one request line.
   */
  lemma RequestRoundTrip(command: string, r: Report)
    requires r.key in AllKeys
    requires r.channel.None? <==> IsDeviceKey(r.key)
    requires Deliverable(r)
    ensures BuildCommand(ChannelArg(r.channel), r.key) == Ok(MatchKey(r))
    ensures Exchanged(Single(command, Some(MatchKey(r)), true), Connected([Exchange.Data(Exchange.Stream([ReportText(r)[|Marker|..]], Marker))]))
      == Transcript(RequestLine(command), Replied(Value(r.value)))
  {
    assert BuildCommand(ChannelArg(r.channel), r.key) == Ok(MatchKey(r)) by {
      MatchKeyIsAddress(r);
    }
    var raw := Exchange.Stream([ReportText(r)[|Marker|..]], Marker);
    SingleFrame(r);
    assert |ReplyFrames(raw)| == 1 && Parses(ReplyFrames(raw))[0] == Some(r);
    SingleAnswered(command, r, raw);
  }

  /** The bulk request over one data chunk whose frames all parse, as `reps`. */
  lemma BulkAnswered(request: Request, reps: seq<Report>, raw: string)
    requires request.Bulk?
    requires |ReplyFrames(raw)| == |reps|
    requires forall i :: 0 <= i < |reps| ==> Parses(ReplyFrames(raw))[i] == Some(reps[i])
    ensures Exchanged(request, Connected([Exchange.Data(raw)]))
      == Transcript(Wire(Requested(request)), Table(Exchange.Merged(EntriesOf(reps))))
  {
    ExchangedBulk(request, raw);
    KeptAll(Parses(ReplyFrames(raw)), reps);
    assert Entries(ReplyFrames(raw)) == EntriesOf(reps);
  }

  /**
    The bulk read, answered with one report line per slot, returns the
    merge of those reports in arrival order; what was written is the 19
    request lines.
   */
  lemma BulkRoundTrip(request: Request, reps: seq<Report>)
    requires request.Bulk?
    requires forall i :: 0 <= i < |reps| ==> Deliverable(reps[i])
    ensures Exchanged(request, Connected([Exchange.Data(Exchange.Stream(Bodies(reps), Marker))]))
      == Transcript(Wire(Requested(request)), Table(Exchange.Merged(EntriesOf(reps))))
  {
    FramesOfReports(reps);
    BulkAnswered(request, reps, Exchange.Stream(Bodies(reps), Marker));
  }
}
