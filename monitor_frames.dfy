/**
  The four line grammars of the telemetry monitor (monitor.py), each written
  out as the scan Python's `re.match` performs for that pattern: the match
  is anchored at the start of the line only, and every greedy group is
  resolved the one way backtracking can make the rest of the pattern fit.
  Each scan is split into stages, one per piece of the pattern.
 */
module MonitorFrames {
  import opened Text

  /** A reply the monitor stores: device-scoped or channel-scoped. */
  datatype Reply =
    | DeviceReply(key: string, value: string)
    | ChannelReply(channel: string, key: string, value: string)

  /** A non-empty run of decimal digits. */
  predicate IsNumber(s: string) {
    s != [] && forall i :: 0 <= i < |s| ==> IsDigit(s[i])
  }

  /** A literal prefix is seen, and skipped, as written. */
  lemma PrefixOf(pre: string, s: string)
    ensures StartsWith(pre + s, pre) && (pre + s)[|pre|..] == s
  {
    assert (pre + s)[..|pre|] == pre;
  }

  /** A run of `p` characters followed by one that is not is exactly what Span measures. */
  lemma RunThen(a: string, b: string, p: char -> bool)
    requires forall i :: 0 <= i < |a| ==> p(a[i])
    requires b == [] || !p(b[0])
    ensures Span(a + b, p) == |a| && (a + b)[..|a|] == a && (a + b)[|a|..] == b
  {
    SpanConcat(a, b, p);
    assert (a + b)[..|a|] == a;
  }

  // ---------------------------------------------------------------------------
  // `< REP (\S+)\s+{([^}]*)} >`: a device reply with a braced value
  // ---------------------------------------------------------------------------

  /**
    The key is the whole run of non-space characters after `< REP `, then
    at least one space, then `{`; the value is everything up to the first
    `}`, which must be followed by ` >`. The value is returned stripped.
   */
  function DeviceReplyMatch(line: string): (r: Option<Reply>)
    ensures r.Some? ==> r.value.DeviceReply? && IsWord(r.value.key) && Trimmed(r.value.value)
  {
    if StartsWith(line, "< REP ") then DeviceKey(line[6..]) else None
  }

  function DeviceKey(s: string): (r: Option<Reply>)
    ensures r.Some? ==> r.value.DeviceReply? && IsWord(r.value.key) && Trimmed(r.value.value)
  {
    var n := Span(s, NotSpace);
    if n == 0 then None else DeviceGap(s[..n], s[n..])
  }

  function DeviceGap(key: string, t: string): (r: Option<Reply>)
    requires IsWord(key)
    ensures r.Some? ==> r.value.DeviceReply? && IsWord(r.value.key) && Trimmed(r.value.value)
  {
    var m := Span(t, IsSpace);
    if m == 0 then None else DeviceBody(key, t[m..])
  }

  function DeviceBody(key: string, u: string): (r: Option<Reply>)
    requires IsWord(key)
    ensures r.Some? ==> r.value.DeviceReply? && IsWord(r.value.key) && Trimmed(r.value.value)
  {
    if u == [] || u[0] != '{' then None
    else
      var body := u[1..];
      match Find(body, "}")
      case None => None
      case Some(i) =>
        if StartsWith(body[i..], "} >") then Some(DeviceReply(key, Strip(body[..i]))) else None
  }

  /** A device reply written as `< REP KEY {value} >` is read back with its value stripped. */
  lemma DeviceReplyRoundTrip(key: string, v: string, tail: string)
    requires IsWord(key) && '}' !in v
    ensures DeviceReplyMatch("< REP " + key + " {" + v + "} >" + tail) == Some(DeviceReply(key, Strip(v)))
  {
    var u := "{" + v + "}" + (" >" + tail);
    var t := " " + u;
    assert "< REP " + key + " {" + v + "} >" + tail == "< REP " + (key + t);
    PrefixOf("< REP ", key + t);
    RunThen(key, t, NotSpace);
    RunThen(" ", u, IsSpace);
    DeviceBodyOf(key, v, tail);
  }

  lemma DeviceBodyOf(key: string, v: string, tail: string)
    requires IsWord(key) && '}' !in v
    ensures DeviceBody(key, "{" + v + "}" + (" >" + tail)) == Some(DeviceReply(key, Strip(v)))
  {
    var body := v + ("} >" + tail);
    assert ("{" + v + "}" + (" >" + tail))[1..] == body;
    FirstBrace(v, "} >" + tail);
    assert body[|v|..] == "} >" + tail;
    PrefixOf("} >", tail);
    assert body[..|v|] == v;
  }

  /** The first `}` after a text without one is the one that follows it. */
  lemma FirstBrace(v: string, rest: string)
    requires '}' !in v && rest != [] && rest[0] == '}'
    ensures Find(v + rest, "}") == Some(|v|)
  {
    var s := v + rest;
    assert s[|v|..][..1] == "}";
    forall k | 0 <= k < |v| ensures !StartsWith(s[k..], "}") {
      assert s[k..][0] == v[k];
    }
    FindFirst(s, "}", |v|);
  }

  // ---------------------------------------------------------------------------
  // `< REP (\d+) (\S+)\s+(\S+) >`: a channel reply
  // ---------------------------------------------------------------------------

  /**
    After `< REP `: the whole digit run and one space, the whole non-space
    run (the key), at least one space, the whole next non-space run (the
    value), then ` >`.
   */
  function ChannelReplyMatch(line: string): (r: Option<Reply>)
    ensures r.Some? ==> r.value.ChannelReply? && IsNumber(r.value.channel)
    ensures r.Some? ==> IsWord(r.value.key) && IsWord(r.value.value)
  {
    if StartsWith(line, "< REP ") then ChannelNumber(line[6..]) else None
  }

  function ChannelNumber(s: string): (r: Option<Reply>)
    ensures r.Some? ==> r.value.ChannelReply? && IsNumber(r.value.channel)
    ensures r.Some? ==> IsWord(r.value.key) && IsWord(r.value.value)
  {
    var d := Span(s, IsDigit);
    var s1 := s[d..];
    if d == 0 || s1 == [] || s1[0] != ' ' then None else ChannelKey(s[..d], s1[1..])
  }

  function ChannelKey(ch: string, s: string): (r: Option<Reply>)
    requires IsNumber(ch)
    ensures r.Some? ==> r.value.ChannelReply? && IsNumber(r.value.channel)
    ensures r.Some? ==> IsWord(r.value.key) && IsWord(r.value.value)
  {
    var w := Span(s, NotSpace);
    if w == 0 then None else ChannelGap(ch, s[..w], s[w..])
  }

  function ChannelGap(ch: string, key: string, s: string): (r: Option<Reply>)
    requires IsNumber(ch) && IsWord(key)
    ensures r.Some? ==> r.value.ChannelReply? && IsNumber(r.value.channel)
    ensures r.Some? ==> IsWord(r.value.key) && IsWord(r.value.value)
  {
    var m := Span(s, IsSpace);
    if m == 0 then None else ChannelValue(ch, key, s[m..])
  }

  function ChannelValue(ch: string, key: string, s: string): (r: Option<Reply>)
    requires IsNumber(ch) && IsWord(key)
    ensures r.Some? ==> r.value.ChannelReply? && IsNumber(r.value.channel)
    ensures r.Some? ==> IsWord(r.value.key) && IsWord(r.value.value)
  {
    var v := Span(s, NotSpace);
    if v == 0 || !StartsWith(s[v..], " >") then None else Some(ChannelReply(ch, key, s[..v]))
  }

  /** A channel reply written as `< REP c KEY value >` is read back as written. */
  lemma ChannelReplyRoundTrip(ch: string, key: string, v: string, tail: string)
    requires IsNumber(ch) && IsWord(key) && IsWord(v)
    ensures ChannelReplyMatch("< REP " + ch + " " + key + " " + v + " >" + tail) == Some(ChannelReply(ch, key, v))
  {
    var s4 := v + (" >" + tail);
    var s2 := key + (" " + s4);
    var s := ch + (" " + s2);
    assert "< REP " + ch + " " + key + " " + v + " >" + tail == "< REP " + s;
    PrefixOf("< REP ", s);
    RunThen(ch, " " + s2, IsDigit);
    assert (" " + s2)[1..] == s2;
    ChannelKeyOf(ch, key, v, tail);
  }

  lemma ChannelKeyOf(ch: string, key: string, v: string, tail: string)
    requires IsNumber(ch) && IsWord(key) && IsWord(v)
    ensures ChannelKey(ch, key + (" " + (v + (" >" + tail)))) == Some(ChannelReply(ch, key, v))
  {
    var s4 := v + (" >" + tail);
    RunThen(key, " " + s4, NotSpace);
    RunThen(" ", s4, IsSpace);
    RunThen(v, " >" + tail, NotSpace);
    PrefixOf(" >", tail);
  }

  // ---------------------------------------------------------------------------
  // handle_response's choice between the two reply grammars
  // ---------------------------------------------------------------------------

  /** The device grammar is tried first; the channel grammar only when it fails. */
  function Classify(line: string): (r: Option<Reply>)
    ensures DeviceReplyMatch(line).Some? ==> r == DeviceReplyMatch(line)
    ensures DeviceReplyMatch(line).None? ==> r == ChannelReplyMatch(line)
  {
    var d := DeviceReplyMatch(line);
    if d.Some? then d else ChannelReplyMatch(line)
  }

  /** The device grammar rejects a line whose second run does not open with `{`. */
  lemma NotDevice(ch: string, rest: string)
    requires IsWord(ch) && rest != [] && rest[0] != '{' && NotSpace(rest[0])
    ensures DeviceReplyMatch("< REP " + ch + " " + rest) == None
  {
    var t := " " + rest;
    assert "< REP " + ch + " " + rest == "< REP " + (ch + t);
    PrefixOf("< REP ", ch + t);
    RunThen(ch, t, NotSpace);
    RunThen(" ", rest, IsSpace);
  }

  /** Digits are not spaces, so a channel number is a word. */
  lemma NumberIsWord(ch: string)
    requires IsNumber(ch)
    ensures IsWord(ch)
  {
    forall i | 0 <= i < |ch| ensures NotSpace(ch[i]) {
      assert IsDigit(ch[i]);
    }
  }

  /** A channel reply whose key does not open with `{` is classified as that channel reply. */
  lemma ClassifyChannel(ch: string, key: string, v: string)
    requires IsNumber(ch) && IsWord(key) && IsWord(v) && key[0] != '{'
    ensures Classify("< REP " + ch + " " + key + " " + v + " >") == Some(ChannelReply(ch, key, v))
  {
    var rest := key + " " + v + " >";
    assert "< REP " + ch + " " + key + " " + v + " >" == "< REP " + ch + " " + rest;
    NumberIsWord(ch);
    NotDevice(ch, rest);
    ChannelReplyRoundTrip(ch, key, v, []);
    assert "< REP " + ch + " " + key + " " + v + " >" + [] == "< REP " + ch + " " + rest;
  }

  /**
    When a line fits both grammars, the device reading wins: such a line is
    stored as device key `1` with value `v`, not as channel 1's key `{v}`.
   */
  lemma DeviceGrammarFirst(v: string)
    requires IsWord(v) && '}' !in v
    ensures ChannelReplyMatch("< REP 1 " + ("{" + v + "}") + " > >") == Some(ChannelReply("1", "{" + v + "}", ">"))
    ensures Classify("< REP 1 " + ("{" + v + "}") + " > >") == Some(DeviceReply("1", v))
  {
    ChannelReadingOfBraced(v);
    DeviceReadingOfBraced(v);
  }

  lemma ChannelReadingOfBraced(v: string)
    requires IsWord(v)
    ensures ChannelReplyMatch("< REP 1 " + ("{" + v + "}") + " > >") == Some(ChannelReply("1", "{" + v + "}", ">"))
  {
    var key := "{" + v + "}";
    var s2 := key + (" " + (">" + (" >" + [])));
    assert "< REP 1 " + key + " > >" == "< REP " + ("1" + (" " + s2));
    assert IsNumber("1") && IsWord(">");
    BracedIsWord(v);
    PrefixOf("< REP ", "1" + (" " + s2));
    RunThen("1", " " + s2, IsDigit);
    assert (" " + s2)[1..] == s2;
    ChannelKeyOf("1", key, ">", []);
  }

  lemma DeviceReadingOfBraced(v: string)
    requires IsWord(v) && '}' !in v
    ensures DeviceReplyMatch("< REP 1 " + ("{" + v + "}") + " > >") == Some(DeviceReply("1", v))
  {
    var u := "{" + v + "}" + (" >" + " >");
    BracedLine(v);
    assert IsWord("1");
    PrefixOf("< REP ", "1" + (" " + u));
    RunThen("1", " " + u, NotSpace);
    RunThen(" ", u, IsSpace);
    DeviceBodyOf("1", v, " >");
    StripKeeps(v);
  }

  lemma BracedLine(v: string)
    ensures "< REP 1 " + ("{" + v + "}") + " > >" == "< REP " + ("1" + (" " + ("{" + v + "}" + (" >" + " >"))))
  {
  }

  lemma BracedIsWord(v: string)
    requires IsWord(v)
    ensures IsWord("{" + v + "}")
  {
    var key := "{" + v + "}";
    forall i | 0 <= i < |key| ensures NotSpace(key[i]) {
      if 0 < i < |key| - 1 {
        assert key[i] == v[i - 1];
      }
    }
  }

  /** A channel value with a space in it fits neither grammar, braces or not. */
  lemma SpacedValueUnparsed(ch: string, key: string, a: string, b: string)
    requires IsNumber(ch) && IsWord(key) && IsWord(a) && IsWord(b) && key[0] != '{' && b[0] != '>'
    ensures Classify("< REP " + ch + " " + key + " " + a + " " + b + " >") == None
  {
    var s4 := a + (" " + (b + " >"));
    var s2 := key + (" " + s4);
    assert "< REP " + ch + " " + key + " " + a + " " + b + " >" == "< REP " + ch + " " + s2;
    NumberIsWord(ch);
    NotDevice(ch, s2);
    assert "< REP " + ch + " " + s2 == "< REP " + (ch + (" " + s2));
    PrefixOf("< REP ", ch + (" " + s2));
    RunThen(ch, " " + s2, IsDigit);
    assert (" " + s2)[1..] == s2;
    SecondWordRejected(ch, key, a, b);
  }

  lemma SecondWordRejected(ch: string, key: string, a: string, b: string)
    requires IsNumber(ch) && IsWord(key) && IsWord(a) && IsWord(b) && b[0] != '>'
    ensures ChannelKey(ch, key + (" " + (a + (" " + (b + " >"))))) == None
  {
    var s4 := a + (" " + (b + " >"));
    RunThen(key, " " + s4, NotSpace);
    RunThen(" ", s4, IsSpace);
    RunThen(a, " " + (b + " >"), NotSpace);
    assert (" " + (b + " >"))[1] == b[0];
  }

  // ---------------------------------------------------------------------------
  // `< REPORT (\S+)(?: (\S+))?(?: (.+))? >`: a report line (passive mode)
  // ---------------------------------------------------------------------------

  /** The index of the first line feed, or the length when there is none. */
  function LineEnd(s: string): (e: nat)
    ensures e <= |s| && (e < |s| ==> s[e] == '\n')
    ensures forall i :: 0 <= i < e ==> s[i] != '\n'
  {
    if s == [] || s[0] == '\n' then 0 else 1 + LineEnd(s[1..])
  }

  /**
    After `< REPORT `: the whole non-space run, then a space, then either
    `>` at once, or at least one character before a later ` >` on the same
    line (`.` stops at a line feed).
   */
  predicate ReportMatches(line: string) {
    StartsWith(line, "< REPORT ") && ReportRest(line[9..])
  }

  predicate ReportRest(s: string) {
    var n := Span(s, NotSpace);
    n > 0 && ReportTail(s[n..])
  }

  predicate ReportTail(t: string) {
    |t| >= 2 && t[0] == ' '
    && (t[1] == '>' || (2 <= LineEnd(t) && Contains(t[2..LineEnd(t)], " >")))
  }

  /** Every report the two-channel device writes, `< REPORT w rest >`, fits the pattern. */
  lemma ReportLineMatches(w: string, rest: string)
    requires IsWord(w) && rest != [] && '\n' !in rest
    ensures ReportMatches("< REPORT " + w + " " + rest + " >")
  {
    var t := " " + (rest + " >");
    assert "< REPORT " + w + " " + rest + " >" == "< REPORT " + (w + t);
    PrefixOf("< REPORT ", w + t);
    RunThen(w, t, NotSpace);
    ReportTailOf(rest);
  }

  lemma ReportTailOf(rest: string)
    requires rest != [] && '\n' !in rest
    ensures ReportTail(" " + (rest + " >"))
  {
    var t := " " + (rest + " >");
    assert forall i :: 0 <= i < |t| ==> t[i] != '\n' by {
      forall i | 0 <= i < |t| ensures t[i] != '\n' {
        if 1 <= i < 1 + |rest| {
          assert t[i] == rest[i - 1];
        }
      }
    }
    assert LineEnd(t) == |t|;
    var u := t[2..];
    assert t[2..LineEnd(t)] == u;
    assert u[|u| - 2..][..2] == " >";
    assert StartsWith(u[|u| - 2..], " >");
  }

  // ---------------------------------------------------------------------------
  // `< SAMPLE (\d+) ALL (.+) >`: a metering sample
  // ---------------------------------------------------------------------------

  /** A sample: its channel digits and the text of its readings. */
  datatype Sample = Sample(channel: string, raw: string)

  /** ` >` starts at position q of w. */
  predicate ClosesAt(w: string, q: int) {
    0 <= q && q + 2 <= |w| && w[q] == ' ' && w[q + 1] == '>'
  }

  /** The last position p >= 1 where ` >` starts within `w`. */
  function LastClose(w: string): (p: Option<nat>)
    ensures p.Some? ==> 1 <= p.value && ClosesAt(w, p.value)
    ensures p.Some? ==> forall q :: p.value < q ==> !ClosesAt(w, q)
    ensures p.None? ==> forall q :: 1 <= q ==> !ClosesAt(w, q)
  {
    if |w| < 3 then None
    else if w[|w| - 2] == ' ' && w[|w| - 1] == '>' then Some(|w| - 2)
    else
      var r := LastClose(w[..|w| - 1]);
      assert forall q :: ClosesAt(w, q) && q + 2 <= |w| - 1 ==> ClosesAt(w[..|w| - 1], q);
      r
  }

  /**
    After `< SAMPLE `: the whole digit run, then ` ALL `, then the longest
    non-empty text on the same line that is followed by ` >`.
   */
  function SampleMatch(line: string): (r: Option<Sample>)
    ensures r.Some? ==> IsNumber(r.value.channel) && r.value.raw != [] && '\n' !in r.value.raw
  {
    if StartsWith(line, "< SAMPLE ") then SampleNumber(line[9..]) else None
  }

  function SampleNumber(s: string): (r: Option<Sample>)
    ensures r.Some? ==> IsNumber(r.value.channel) && r.value.raw != [] && '\n' !in r.value.raw
  {
    var d := Span(s, IsDigit);
    if d == 0 || !StartsWith(s[d..], " ALL ") then None else SampleReadings(s[..d], s[d..][5..])
  }

  function SampleReadings(ch: string, u: string): (r: Option<Sample>)
    requires IsNumber(ch)
    ensures r.Some? ==> IsNumber(r.value.channel) && r.value.raw != [] && '\n' !in r.value.raw
  {
    var w := u[..LineEnd(u)];
    match LastClose(w)
    case None => None
    case Some(p) =>
      assert forall i :: 0 <= i < p ==> w[..p][i] == u[i];
      Some(Sample(ch, w[..p]))
  }

  /** A sample written as `< SAMPLE c ALL readings >`, alone on its line, is read back as written. */
  lemma SampleRoundTrip(ch: string, raw: string, tail: string)
    requires IsNumber(ch) && raw != [] && '\n' !in raw
    requires tail == [] || tail[0] == '\n'
    ensures SampleMatch("< SAMPLE " + ch + " ALL " + raw + " >" + tail) == Some(Sample(ch, raw))
  {
    var u := raw + (" >" + tail);
    var t := " ALL " + u;
    assert "< SAMPLE " + ch + " ALL " + raw + " >" + tail == "< SAMPLE " + (ch + t);
    PrefixOf("< SAMPLE ", ch + t);
    RunThen(ch, t, IsDigit);
    PrefixOf(" ALL ", u);
    SampleReadingsOf(ch, raw, tail);
  }

  lemma SampleReadingsOf(ch: string, raw: string, tail: string)
    requires IsNumber(ch) && raw != [] && '\n' !in raw
    requires tail == [] || tail[0] == '\n'
    ensures SampleReadings(ch, raw + (" >" + tail)) == Some(Sample(ch, raw))
  {
    var u := raw + (" >" + tail);
    assert u == (raw + " >") + tail;
    LineEndAfter(raw + " >", tail);
    var w := u[..|raw| + 2];
    assert w == raw + " >";
    assert ClosesAt(w, |raw|);
    assert w[..|raw|] == raw;
  }

  lemma LineEndAfter(a: string, tail: string)
    requires '\n' !in a && (tail == [] || tail[0] == '\n')
    ensures LineEnd(a + tail) == |a|
  {
    if a != [] {
      assert (a + tail)[1..] == a[1..] + tail;
      LineEndAfter(a[1..], tail);
    }
  }
}
