/**
  The telemetry monitor (monitor.py): it reads reply, report and sample
  lines from a receiver, writes what it recognises into Redis hashes and
  into the journal, and keeps reconnecting with de-duplicated status
  notifications. Redis is a map of hashes; the journal is the sequence of
  `log(message, **fields)` calls; the socket is a sequence of read outcomes.
 */
module Monitor {
  import opened Text
  import opened MonitorFrames

  // ---------------------------------------------------------------------------
  // The Redis hashes and the journal
  // ---------------------------------------------------------------------------

  /** Redis: hash name -> field -> value. */
  type Store = map<string, map<string, string>>

  /** HGET: the value of one field of one hash, if any. */
  function Get(st: Store, hash: string, field: string): Option<string> {
    if hash in st && field in st[hash] then Some(st[hash][field]) else None
  }

  /** HSET of one field: that field now holds the value, every other field keeps its own. */
  function HSet(st: Store, hash: string, field: string, value: string): (r: Store)
    ensures forall h, f :: Get(r, h, f) == (if h == hash && f == field then Some(value) else Get(st, h, f))
  {
    var fields := if hash in st then st[hash] else map[];
    st[hash := fields[field := value]]
  }

  /** One journal record: the message and its structured fields. */
  datatype Entry = Entry(message: string, fields: map<string, string>)

  /** What the monitor has written so far: the hashes and the journal. */
  datatype Sink = Sink(store: Store, journal: seq<Entry>)

  /** The `PRIORITY=4` (warning) field of the journal. */
  const Warning: map<string, string> := map["PRIORITY" := "4"]

  /** Appends one record to the journal. */
  function Log(s: Sink, e: Entry): Sink {
    Sink(s.store, s.journal + [e])
  }

  // ---------------------------------------------------------------------------
  // handle_response
  // ---------------------------------------------------------------------------

  /** The hash a reply is stored in: `host:device` or `host:channel:N`. */
  function HashOf(host: string, r: Reply): string {
    match r
    case DeviceReply(_, _) => host + ":device"
    case ChannelReply(c, _, _) => host + ":channel:" + c
  }

  /** Keys that carry an audio level. */
  predicate IsLevelKey(key: string) {
    StartsWith(key, "AUDIO_IN_LVL_") || StartsWith(key, "AUDIO_LEVEL_")
  }

  /** The journal fields of a stored reply. */
  function MetricFields(host: string, device: string, r: Reply): (f: map<string, string>)
    ensures {"REDIS_KEY", "SHURE_HOST", "SHURE_DEVICE", "SHURE_KEY", "SHURE_VALUE", "SHURE_METRIC"} <= f.Keys
    ensures f.Keys <= {"REDIS_KEY", "SHURE_HOST", "SHURE_DEVICE", "SHURE_KEY", "SHURE_VALUE", "SHURE_METRIC", "SHURE_CHANNEL", "SHURE_SIDE"}
    ensures f["REDIS_KEY"] == HashOf(host, r) && f["SHURE_HOST"] == host && f["SHURE_DEVICE"] == device
    ensures f["SHURE_KEY"] == r.key && f["SHURE_VALUE"] == r.value
    ensures f["SHURE_METRIC"] == (if IsLevelKey(r.key) then "AUDIO_LEVEL" else Upper(r.key))
    ensures "SHURE_CHANNEL" in f <==> r.ChannelReply? && r.channel != []
    ensures "SHURE_CHANNEL" in f ==> f["SHURE_CHANNEL"] == r.channel
    ensures "SHURE_SIDE" in f <==> IsLevelKey(r.key) && (EndsWith(r.key, "_L") || EndsWith(r.key, "_R"))
    ensures "SHURE_SIDE" in f ==> (f["SHURE_SIDE"] == "L" <==> EndsWith(r.key, "_L"))
    ensures "SHURE_SIDE" in f ==> f["SHURE_SIDE"] in {"L", "R"}
  {
    var base := map[
      "REDIS_KEY" := HashOf(host, r), "SHURE_HOST" := host, "SHURE_DEVICE" := device,
      "SHURE_KEY" := r.key, "SHURE_VALUE" := r.value, "SHURE_METRIC" := Upper(r.key)];
    var scoped := if r.ChannelReply? && r.channel != [] then base["SHURE_CHANNEL" := r.channel] else base;
    if !IsLevelKey(r.key) then scoped
    else
      var level := scoped["SHURE_METRIC" := "AUDIO_LEVEL"];
      if EndsWith(r.key, "_L") then level["SHURE_SIDE" := "L"]
      else if EndsWith(r.key, "_R") then level["SHURE_SIDE" := "R"]
      else level
  }

  /** The journal record of a stored reply. */
  function MetricEntry(host: string, device: string, r: Reply): Entry {
    Entry(HashOf(host, r) + " " + r.key + " = " + r.value, MetricFields(host, device, r))
  }

  /**
    A recognised reply sets exactly one field, (its hash, its key) to its
    value, and adds its metric record; any other line only adds a warning.
   */
  function Respond(host: string, device: string, s: Sink, line: string): (r: Sink)
    ensures |r.journal| == |s.journal| + 1 && r.journal[..|s.journal|] == s.journal
    ensures Classify(line).None? ==>
      r.store == s.store && r.journal[|s.journal|] == Entry(host + ": unparsed line: " + line, Warning)
    ensures Classify(line).Some? ==>
      var rep := Classify(line).value;
      && r.journal[|s.journal|] == MetricEntry(host, device, rep)
      && forall h, f :: Get(r.store, h, f) ==
           (if h == HashOf(host, rep) && f == rep.key then Some(rep.value) else Get(s.store, h, f))
  {
    match Classify(line)
    case None => Log(s, Entry(host + ": unparsed line: " + line, Warning))
    case Some(rep) =>
      Log(Sink(HSet(s.store, HashOf(host, rep), rep.key, rep.value), s.journal), MetricEntry(host, device, rep))
  }

  /** Respond, by the outcome of the classification. */
  lemma RespondCases(host: string, device: string, s: Sink, line: string, rep: Option<Reply>)
    requires rep == Classify(line)
    ensures rep.None? ==> Respond(host, device, s, line) == Log(s, Entry(host + ": unparsed line: " + line, Warning))
    ensures rep.Some? ==>
              Respond(host, device, s, line) ==
              Log(Sink(HSet(s.store, HashOf(host, rep.value), rep.value.key, rep.value.value), s.journal),
                  MetricEntry(host, device, rep.value))
  {
  }

  /** A device reply `< REP KEY {value} >` sets KEY of `host:device` to the stripped value. */
  lemma DeviceReplyStored(host: string, device: string, s: Sink, key: string, v: string)
    requires IsWord(key) && '}' !in v
    ensures Get(Respond(host, device, s, "< REP " + key + " {" + v + "} >").store, host + ":device", key)
      == Some(Strip(v))
  {
    DeviceReplyRoundTrip(key, v, []);
    assert "< REP " + key + " {" + v + "} >" + [] == "< REP " + key + " {" + v + "} >";
  }

  /** A channel reply `< REP N KEY value >` sets KEY of `host:channel:N` to the value. */
  lemma ChannelReplyStored(host: string, device: string, s: Sink, ch: string, key: string, v: string)
    requires IsNumber(ch) && IsWord(key) && IsWord(v) && key[0] != '{'
    ensures Get(Respond(host, device, s, "< REP " + ch + " " + key + " " + v + " >").store, host + ":channel:" + ch, key)
      == Some(v)
  {
    ClassifyChannel(ch, key, v);
  }

  // ---------------------------------------------------------------------------
  // handle_sample
  // ---------------------------------------------------------------------------

  /** The readings of a sample, in the order the receiver sends them. */
  const SampleKeys: seq<string> := [
    "CHANNEL_QUALITY", "AUDIO_LED_BITMAP", "AUDIO_LEVEL_PEAK", "AUDIO_LEVEL_RMS",
    "ANTENNA_STATUS", "RSSI_LED_BITMAP_A", "RSSI_A", "RSSI_LED_BITMAP_B", "RSSI_B"]

  /** The sample keys are nine distinct names. */
  lemma SampleKeysDistinct()
    ensures |SampleKeys| == 9
    ensures forall i, j :: 0 <= i < j < |SampleKeys| ==> SampleKeys[i] != SampleKeys[j]
  {
  }

  /** Python's `zip`: pairs up to the shorter of the two sequences. */
  function Zip(keys: seq<string>, values: seq<string>): (z: seq<(string, string)>)
    ensures |z| == (if |keys| < |values| then |keys| else |values|)
    ensures forall i :: 0 <= i < |z| ==> z[i] == (keys[i], values[i])
  {
    if keys == [] || values == [] then [] else [(keys[0], values[0])] + Zip(keys[1..], values[1..])
  }

  /** The journal record of one sample reading. */
  function SampleEntry(host: string, device: string, hash: string, ch: string, k: string, v: string): Entry {
    Entry(hash + " " + k + " = " + v, map[
      "REDIS_KEY" := hash, "SHURE_HOST" := host, "SHURE_DEVICE" := device,
      "SHURE_CHANNEL" := ch, "SHURE_KEY" := k, "SHURE_VALUE" := v, "SHURE_METRIC" := k])
  }

  /** The readings written one after the other, as the loop over the pairs does. */
  function WriteReadings(host: string, device: string, s: Sink, hash: string, ch: string,
                         pairs: seq<(string, string)>): Sink
  {
    if pairs == [] then s
    else
      var before := WriteReadings(host, device, s, hash, ch, pairs[..|pairs| - 1]);
      var (k, v) := pairs[|pairs| - 1];
      Log(Sink(HSet(before.store, hash, k, v), before.journal), SampleEntry(host, device, hash, ch, k, v))
  }

  /** One more pair written after the first i. */
  lemma ReadingStep(host: string, device: string, s: Sink, hash: string, ch: string,
                    pairs: seq<(string, string)>, i: nat)
    requires i < |pairs|
    ensures var before := WriteReadings(host, device, s, hash, ch, pairs[..i]);
      WriteReadings(host, device, s, hash, ch, pairs[..i + 1])
      == Log(Sink(HSet(before.store, hash, pairs[i].0, pairs[i].1), before.journal),
             SampleEntry(host, device, hash, ch, pairs[i].0, pairs[i].1))
  {
    assert pairs[..i + 1][..i] == pairs[..i];
  }

  /** No pair names field f. */
  predicate Unnamed(pairs: seq<(string, string)>, f: string) {
    forall i :: 0 <= i < |pairs| ==> pairs[i].0 != f
  }

  /** Writing distinct readings: each lands in its own field, in order, and nothing else changes. */
  lemma {:induction false} ReadingsWritten(host: string, device: string, s: Sink, hash: string, ch: string,
                                           pairs: seq<(string, string)>)
    requires forall i, j :: 0 <= i < j < |pairs| ==> pairs[i].0 != pairs[j].0
    ensures var r := WriteReadings(host, device, s, hash, ch, pairs);
      && |r.journal| == |s.journal| + |pairs| && r.journal[..|s.journal|] == s.journal
      && (forall i :: 0 <= i < |pairs| ==>
            r.journal[|s.journal| + i] == SampleEntry(host, device, hash, ch, pairs[i].0, pairs[i].1))
      && (forall i :: 0 <= i < |pairs| ==> Get(r.store, hash, pairs[i].0) == Some(pairs[i].1))
      && (forall h, f :: h != hash || Unnamed(pairs, f) ==> Get(r.store, h, f) == Get(s.store, h, f))
  {
    if pairs != [] {
      var init := pairs[..|pairs| - 1];
      ReadingsWritten(host, device, s, hash, ch, init);
      var before := WriteReadings(host, device, s, hash, ch, init);
      var r := WriteReadings(host, device, s, hash, ch, pairs);
      assert r.journal == before.journal + [SampleEntry(host, device, hash, ch, pairs[|pairs| - 1].0, pairs[|pairs| - 1].1)];
      forall h, f | h != hash || Unnamed(pairs, f) ensures Get(r.store, h, f) == Get(s.store, h, f) {
        if h == hash {
          assert pairs[|pairs| - 1].0 != f;
          assert Unnamed(init, f) by {
            forall i | 0 <= i < |init| ensures init[i].0 != f {
              assert init[i] == pairs[i];
            }
          }
        }
      }
      forall i | 0 <= i < |pairs| ensures Get(r.store, hash, pairs[i].0) == Some(pairs[i].1) {
        if i < |pairs| - 1 {
          assert init[i] == pairs[i];
        }
      }
      forall i | 0 <= i < |pairs|
        ensures r.journal[|s.journal| + i] == SampleEntry(host, device, hash, ch, pairs[i].0, pairs[i].1)
      {
        if i < |pairs| - 1 {
          assert init[i] == pairs[i];
        }
      }
    }
  }

  /** handle_sample: the sample keys zipped with the whitespace-separated readings. */
  function Sampled(host: string, device: string, s: Sink, m: Sample): Sink {
    var hash := host + ":channel:" + m.channel;
    WriteReadings(host, device, s, hash, m.channel, Zip(SampleKeys, Words(m.raw)))
  }

  /**
    A sample writes min(9, number of readings) fields of `host:channel:N`,
    the i-th reading under the i-th sample key, one journal record each in
    that order; extra readings are ignored and nothing else changes.
   */
  lemma SampleWritten(host: string, device: string, s: Sink, m: Sample)
    ensures var r := Sampled(host, device, s, m);
      var n := if |Words(m.raw)| < 9 then |Words(m.raw)| else 9;
      var hash := host + ":channel:" + m.channel;
      && |r.journal| == |s.journal| + n && r.journal[..|s.journal|] == s.journal
      && (forall i :: 0 <= i < n ==> Get(r.store, hash, SampleKeys[i]) == Some(Words(m.raw)[i]))
      && (forall i :: 0 <= i < n ==>
            r.journal[|s.journal| + i] == SampleEntry(host, device, hash, m.channel, SampleKeys[i], Words(m.raw)[i]))
      && (forall i :: n <= i < 9 ==> Get(r.store, hash, SampleKeys[i]) == Get(s.store, hash, SampleKeys[i]))
      && (forall h, f :: h != hash || f !in SampleKeys ==> Get(r.store, h, f) == Get(s.store, h, f))
  {
    SampleKeysDistinct();
    ZipWritten(host, device, s, host + ":channel:" + m.channel, m.channel, SampleKeys, Words(m.raw));
  }

  /** Writing distinct keys zipped with values: the first min(|keys|, |values|) pairs, and nothing else. */
  lemma ZipWritten(host: string, device: string, s: Sink, hash: string, ch: string,
                   keys: seq<string>, values: seq<string>)
    requires forall i, j :: 0 <= i < j < |keys| ==> keys[i] != keys[j]
    ensures var r := WriteReadings(host, device, s, hash, ch, Zip(keys, values));
      var n := if |values| < |keys| then |values| else |keys|;
      && |r.journal| == |s.journal| + n && r.journal[..|s.journal|] == s.journal
      && (forall i :: 0 <= i < n ==> Get(r.store, hash, keys[i]) == Some(values[i]))
      && (forall i :: 0 <= i < n ==>
            r.journal[|s.journal| + i] == SampleEntry(host, device, hash, ch, keys[i], values[i]))
      && (forall i :: n <= i < |keys| ==> Get(r.store, hash, keys[i]) == Get(s.store, hash, keys[i]))
      && (forall h, f :: h != hash || f !in keys ==> Get(r.store, h, f) == Get(s.store, h, f))
  {
    var pairs := Zip(keys, values);
    ReadingsWritten(host, device, s, hash, ch, pairs);
    forall f | f !in keys ensures Unnamed(pairs, f) {
      forall i | 0 <= i < |pairs| ensures pairs[i].0 != f {
        assert pairs[i].0 == keys[i];
      }
    }
    forall i | |pairs| <= i < |keys| ensures Unnamed(pairs, keys[i]) {
      forall j | 0 <= j < |pairs| ensures pairs[j].0 != keys[i] {
        assert pairs[j].0 == keys[j];
      }
    }
  }

  // ---------------------------------------------------------------------------
  // process_raw_data
  // ---------------------------------------------------------------------------

  /** A part (between two `<`) that becomes a sample line. */
  predicate IsSamplePart(part: string) {
    Strip(part) != [] && StartsWith("< " + Strip(part), "< SAMPLE")
  }

  /** A part that is not a sample: skipped when blank, otherwise handled as a reply line. */
  function ReplyPart(host: string, device: string, s: Sink, part: string): Sink {
    var p := Strip(part);
    if p == [] then s else Respond(host, device, s, "< " + p)
  }

  /** A sample part: handled when its line matches the sample grammar, dropped otherwise. */
  function SamplePart(host: string, device: string, s: Sink, part: string): Sink {
    match SampleMatch("< " + Strip(part))
    case Some(m) => Sampled(host, device, s, m)
    case None => s
  }

  /**
    The parts of a polled chunk, in order: blank parts are skipped, a
    sample part is handled (when it matches) and ends the chunk, every
    other part is handled as a reply line.
   */
  function ProcessParts(host: string, device: string, s: Sink, parts: seq<string>): Sink
    decreases |parts|
  {
    if parts == [] then s
    else if IsSamplePart(parts[0]) then SamplePart(host, device, s, parts[0])
    else ProcessParts(host, device, ReplyPart(host, device, s, parts[0]), parts[1..])
  }

  /** One turn of the parts loop. */
  lemma ProcessStep(host: string, device: string, s: Sink, parts: seq<string>, i: nat)
    requires i < |parts|
    ensures ProcessParts(host, device, s, parts[i..]) ==
      if IsSamplePart(parts[i]) then SamplePart(host, device, s, parts[i])
      else ProcessParts(host, device, ReplyPart(host, device, s, parts[i]), parts[i + 1..])
  {
    assert parts[i..][0] == parts[i] && parts[i..][1..] == parts[i + 1..];
  }

  /** process_raw_data: the chunk split on `<`. */
  function Processed(host: string, device: string, s: Sink, raw: string): Sink {
    ProcessParts(host, device, s, Split(raw, "<"))
  }

  /** Once a sample part has been reached, whatever follows it in the chunk is never looked at. */
  lemma {:induction false} RestIgnoredAfterSample(host: string, device: string, s: Sink,
                                                  parts: seq<string>, more: seq<string>)
    requires exists i :: 0 <= i < |parts| && IsSamplePart(parts[i])
    ensures ProcessParts(host, device, s, parts + more) == ProcessParts(host, device, s, parts)
    decreases |parts|
  {
    assert (parts + more)[0] == parts[0];
    if !IsSamplePart(parts[0]) {
      assert (parts + more)[1..] == parts[1..] + more;
      var i :| 0 <= i < |parts| && IsSamplePart(parts[i]);
      assert IsSamplePart(parts[1..][i - 1]);
      RestIgnoredAfterSample(host, device, ReplyPart(host, device, s, parts[0]), parts[1..], more);
    }
  }

  /** Parts with nothing but spaces change nothing. */
  lemma {:induction false} BlankPartsSkipped(host: string, device: string, s: Sink, blank: seq<string>, parts: seq<string>)
    requires forall i :: 0 <= i < |blank| ==> Strip(blank[i]) == []
    ensures ProcessParts(host, device, s, blank + parts) == ProcessParts(host, device, s, parts)
  {
    if blank != [] {
      assert (blank + parts)[1..] == blank[1..] + parts;
      assert (blank + parts)[0] == blank[0];
      assert !IsSamplePart(blank[0]);
      assert ReplyPart(host, device, s, blank[0]) == s;
      BlankPartsSkipped(host, device, s, blank[1..], parts);
    } else {
      assert blank + parts == parts;
    }
  }

  // ---------------------------------------------------------------------------
  // run_polling_monitor and poll_command
  // ---------------------------------------------------------------------------

  /** The commands of one polling round, in order. */
  const PollCommands: seq<string> := [
    "GET DEVICE_NAME", "GET DEVICE_ID", "GET MODEL", "GET SERIAL_NUMBER", "GET FW_VER",
    "GET ENCRYPTION_MODE", "GET FIRMWARE_UPDATE_PROGRESS", "GET EVENT_LOG_STATUS",
    "GET NETWORK_IP_ADDR", "GET NETWORK_SUBNET_MASK", "GET NETWORK_MAC_ADDR",
    "GET NETWORK_GATEWAY", "GET DEVICE_NOTES", "GET LOCATION",
    "GET 1 CHAN_NAME", "GET 1 FREQUENCY", "GET 1 AUDIO_GAIN", "GET 1 AUDIO_MUTE",
    "GET 1 ANTENNA_STATUS", "GET 1 AUDIO_LEVEL_RMS", "GET 1 AUDIO_LEVEL_PEAK",
    "GET 1 TX_DEVICE_ID", "GET 1 TX_BATT_MINS", "GET 1 TX_BATT_CHARGE_PERCENT",
    "GET 1 TX_MODEL", "GET 1 TX_LOCK", "GET 1 TX_TALK_SWITCH",
    "GET 2 CHAN_NAME", "GET 2 FREQUENCY", "GET 2 AUDIO_GAIN", "GET 2 AUDIO_MUTE",
    "GET 2 ANTENNA_STATUS", "GET 2 AUDIO_LEVEL_RMS", "GET 2 AUDIO_LEVEL_PEAK",
    "GET 2 TX_DEVICE_ID", "GET 2 TX_BATT_MINS", "GET 2 TX_BATT_CHARGE_PERCENT",
    "GET 2 TX_MODEL", "GET 2 TX_LOCK", "GET 2 TX_TALK_SWITCH"]

  /** init_metering: both channels are asked to meter every 1000 ms. */
  const MeteringRequest: string := "< SET 1 METER_RATE 1000 >\n< SET 2 METER_RATE 1000 >\n"

  /** One command as written to the socket. */
  function CommandLine(cmd: string): string {
    "< " + cmd + " >\n"
  }

  /** What one poll of the socket gave: a chunk, a read timeout, or another error. */
  datatype Poll = Received(raw: string) | PollTimeout | PollFailure(reason: string)

  /** poll_command's answer: keep polling unless the error was not a timeout. */
  predicate KeepsPolling(outcome: Poll) {
    !outcome.PollFailure?
  }

  /** The effect of one poll: a chunk is processed, a timeout does nothing, an error is logged. */
  function PollOnce(host: string, device: string, s: Sink, outcome: Poll): Sink {
    match outcome
    case Received(raw) => Processed(host, device, s, raw)
    case PollTimeout => s
    case PollFailure(e) => Log(s, Entry("polling error: " + e, Warning))
  }

  /** The polls of a run, in order, up to and including the first failure. */
  function Polling(host: string, device: string, s: Sink, outcomes: seq<Poll>): Sink
    decreases |outcomes|
  {
    if outcomes == [] then s
    else
      var next := PollOnce(host, device, s, outcomes[0]);
      if KeepsPolling(outcomes[0]) then Polling(host, device, next, outcomes[1..]) else next
  }

  /** How many commands a run writes: up to and including the first failed one. */
  function Attempted(outcomes: seq<Poll>): (n: nat)
    ensures n <= |outcomes|
    ensures forall k :: 0 <= k < n - 1 ==> KeepsPolling(outcomes[k])
    ensures n < |outcomes| ==> 0 < n && !KeepsPolling(outcomes[n - 1])
  {
    if outcomes == [] then 0
    else if !KeepsPolling(outcomes[0]) then 1
    else 1 + Attempted(outcomes[1..])
  }

  /** The k-th command polled: the rounds repeat the command list without end. */
  function CommandAt(k: nat): string
    decreases k
  {
    if k < |PollCommands| then PollCommands[k] else CommandAt(k - |PollCommands|)
  }

  /** The first n commands of the endless polling rounds. */
  function CommandsSent(n: nat): string {
    if n == 0 then [] else CommandsSent(n - 1) + CommandLine(CommandAt(n - 1))
  }

  /** The first poll of a run, and what it leaves to the rest of the run. */
  lemma PollingAt(host: string, device: string, s: Sink, outcomes: seq<Poll>, i: nat)
    requires i < |outcomes|
    ensures var next := PollOnce(host, device, s, outcomes[i]);
      Polling(host, device, s, outcomes[i..]) ==
        (if KeepsPolling(outcomes[i]) then Polling(host, device, next, outcomes[i + 1..]) else next)
    ensures Attempted(outcomes[i..]) == (if KeepsPolling(outcomes[i]) then 1 + Attempted(outcomes[i + 1..]) else 1)
  {
    var rest := outcomes[i..];
    assert rest[0] == outcomes[i] && rest[1..] == outcomes[i + 1..];
  }

  /** A round of polling starts at position p. */
  predicate RoundStart(p: nat) {
    forall j :: 0 <= j < |PollCommands| ==> CommandAt(p + j) == PollCommands[j]
  }

  /** Polling starts with a round. */
  lemma FirstRound()
    ensures RoundStart(0)
  {
  }

  /** A full round is followed by the next one. */
  lemma NextRound(p: nat)
    requires RoundStart(p)
    ensures RoundStart(p + |PollCommands|)
  {
    forall j | 0 <= j < |PollCommands| ensures CommandAt(p + |PollCommands| + j) == PollCommands[j] {
      assert p + |PollCommands| + j - |PollCommands| == p + j;
    }
  }

  /** A failed poll ends the run: later outcomes are never consulted. */
  lemma {:induction false} PollingStopsAtFailure(host: string, device: string, s: Sink,
                                                 pre: seq<Poll>, e: string, post: seq<Poll>)
    requires forall k :: 0 <= k < |pre| ==> KeepsPolling(pre[k])
    ensures Polling(host, device, s, pre + [PollFailure(e)] + post) == Polling(host, device, s, pre + [PollFailure(e)])
    decreases |pre|
  {
    var all := pre + [PollFailure(e)] + post;
    if pre == [] {
      assert all[0] == PollFailure(e);
      assert (pre + [PollFailure(e)])[0] == PollFailure(e);
    } else {
      var cut := pre + [PollFailure(e)];
      assert all[0] == pre[0] && cut[0] == pre[0];
      assert all[1..] == pre[1..] + [PollFailure(e)] + post;
      assert cut[1..] == pre[1..] + [PollFailure(e)];
      assert forall k :: 0 <= k < |pre[1..]| ==> KeepsPolling(pre[1..][k]);
      var t := PollOnce(host, device, s, pre[0]);
      PollingStep(host, device, s, all);
      PollingStep(host, device, s, cut);
      PollingStopsAtFailure(host, device, t, pre[1..], e, post);
    }
  }

  /** One turn of the polling loop that keeps going. */
  lemma PollingStep(host: string, device: string, s: Sink, outcomes: seq<Poll>)
    requires outcomes != [] && KeepsPolling(outcomes[0])
    ensures Polling(host, device, s, outcomes) == Polling(host, device, PollOnce(host, device, s, outcomes[0]), outcomes[1..])
  {
  }

  /** ... and no command after the failed one is written. */
  lemma {:induction false} AttemptedUpToFailure(pre: seq<Poll>, e: string, post: seq<Poll>)
    requires forall k :: 0 <= k < |pre| ==> KeepsPolling(pre[k])
    ensures Attempted(pre + [PollFailure(e)] + post) == |pre| + 1
  {
    var all := pre + [PollFailure(e)] + post;
    if pre == [] {
      assert all[0] == PollFailure(e);
    } else {
      assert all[0] == pre[0];
      assert all[1..] == pre[1..] + [PollFailure(e)] + post;
      assert forall k :: 0 <= k < |pre[1..]| ==> KeepsPolling(pre[1..][k]);
      AttemptedUpToFailure(pre[1..], e, post);
    }
  }

  // ---------------------------------------------------------------------------
  // run_passive_monitor: line reassembly
  // ---------------------------------------------------------------------------

  /** Lines, each followed by its line feed. */
  function Terminated(lines: seq<string>): string {
    if lines == [] then [] else lines[0] + "\n" + Terminated(lines[1..])
  }

  /** The complete lines of a buffer and the unterminated tail left over. */
  datatype Cut = Cut(lines: seq<string>, rest: string)

  /** The extraction loop: takes lines off the front of the buffer up to each line feed. */
  function SplitLines(buf: string): Cut
    decreases |buf|
  {
    var e := LineEnd(buf);
    if e == |buf| then Cut([], buf)
    else
      var c := SplitLines(buf[e + 1..]);
      Cut([buf[..e]] + c.lines, c.rest)
  }

  /**
    The lines, each with its line feed, followed by the leftover, give back
    the buffer; the leftover holds no line feed, and neither does any line.
   */
  lemma {:induction false} SplitRejoins(buf: string)
    ensures Terminated(SplitLines(buf).lines) + SplitLines(buf).rest == buf
    ensures '\n' !in SplitLines(buf).rest
    ensures forall i :: 0 <= i < |SplitLines(buf).lines| ==> '\n' !in SplitLines(buf).lines[i]
    decreases |buf|
  {
    var e := LineEnd(buf);
    if e < |buf| {
      var head, tail := buf[..e], buf[e + 1..];
      SplitStep(buf, e);
      SplitRejoins(tail);
      LineCut(buf, e);
      RejoinCase(buf, head, tail, SplitLines(tail), SplitLines(buf));
    } else {
      assert SplitLines(buf) == Cut([], buf);
    }
  }

  /** The recursive case of SplitRejoins: one more line in front. */
  lemma RejoinCase(buf: string, head: string, tail: string, c: Cut, r: Cut)
    requires buf == head + "\n" + tail && '\n' !in head
    requires Terminated(c.lines) + c.rest == tail && '\n' !in c.rest
    requires forall i :: 0 <= i < |c.lines| ==> '\n' !in c.lines[i]
    requires r == Cut([head] + c.lines, c.rest)
    ensures Terminated(r.lines) + r.rest == buf
    ensures '\n' !in r.rest
    ensures forall i :: 0 <= i < |r.lines| ==> '\n' !in r.lines[i]
  {
    RejoinStep(head, c.lines, c.rest);
    forall i | 0 <= i < |r.lines| ensures '\n' !in r.lines[i] {
      if i > 0 {
        assert r.lines[i] == c.lines[i - 1];
      }
    }
  }

  lemma RejoinStep(head: string, lines: seq<string>, rest: string)
    ensures Terminated([head] + lines) + rest == head + "\n" + (Terminated(lines) + rest)
  {
    var l := [head] + lines;
    assert l[0] == head && l[1..] == lines;
  }

  /** A line feed already in the buffer is still the first one after more data arrives. */
  lemma LineEndKept(a: string, b: string)
    requires LineEnd(a) < |a|
    ensures LineEnd(a + b) == LineEnd(a)
  {
    var e := LineEnd(a);
    assert (a + b)[e] == a[e];
  }

  /**
    The tail is kept across reads: splitting what has arrived so far and
    then the leftover with the next chunk gives the same lines as splitting
    everything at once ...
   */
  lemma {:induction false} SplitAcrossReads(a: string, b: string)
    ensures SplitLines(a + b).lines == SplitLines(a).lines + SplitLines(SplitLines(a).rest + b).lines
    decreases |a|
  {
    var e := LineEnd(a);
    if e == |a| {
      assert SplitLines(a) == Cut([], a);
    } else {
      SplitAcrossReads(a[e + 1..], b);
      SplitAcrossLine(a, b, e);
    }
  }

  lemma SplitAcrossLine(a: string, b: string, e: nat)
    requires e == LineEnd(a) < |a|
    requires SplitLines(a[e + 1..] + b).lines
      == SplitLines(a[e + 1..]).lines + SplitLines(SplitLines(a[e + 1..]).rest + b).lines
    ensures SplitLines(a + b).lines == SplitLines(a).lines + SplitLines(SplitLines(a).rest + b).lines
  {
    var x, a1 := a[..e], a[e + 1..];
    SplitPrefix(a, b, e);
    var c1 := SplitLines(a1);
    var c2 := SplitLines(c1.rest + b);
    Regroup(x, c1.lines, c2.lines, SplitLines(a).lines, SplitLines(a + b).lines, SplitLines(a1 + b).lines);
  }

  lemma Regroup(x: string, l1: seq<string>, l2: seq<string>, la: seq<string>, lab: seq<string>, l1b: seq<string>)
    requires la == [x] + l1 && lab == [x] + l1b && l1b == l1 + l2
    ensures lab == la + l2
  {
    assert [x] + (l1 + l2) == ([x] + l1) + l2;
  }

  /** ... and the same leftover. */
  lemma {:induction false} LeftoverAcrossReads(a: string, b: string)
    ensures SplitLines(a + b).rest == SplitLines(SplitLines(a).rest + b).rest
    decreases |a|
  {
    var e := LineEnd(a);
    if e == |a| {
      assert SplitLines(a) == Cut([], a);
    } else {
      SplitPrefix(a, b, e);
      LeftoverAcrossReads(a[e + 1..], b);
    }
  }

  /** A complete line already in the buffer is taken off first whatever arrives after it. */
  lemma SplitPrefix(a: string, b: string, e: nat)
    requires e == LineEnd(a) < |a|
    ensures SplitLines(a) == Cut([a[..e]] + SplitLines(a[e + 1..]).lines, SplitLines(a[e + 1..]).rest)
    ensures SplitLines(a + b) == Cut([a[..e]] + SplitLines(a[e + 1..] + b).lines, SplitLines(a[e + 1..] + b).rest)
  {
    LineEndKept(a, b);
    assert (a + b)[e + 1..] == a[e + 1..] + b;
    assert (a + b)[..e] == a[..e];
    SplitStep(a, e);
    SplitStep(a + b, e);
  }

  /** The buffer is its first line, the line feed, and what follows. */
  lemma LineCut(buf: string, e: nat)
    requires e < |buf| && buf[e] == '\n'
    requires forall i :: 0 <= i < e ==> buf[i] != '\n'
    ensures buf == buf[..e] + "\n" + buf[e + 1..] && '\n' !in buf[..e]
  {
    var head := buf[..e];
    assert forall i :: 0 <= i < e ==> head[i] == buf[i];
    assert '\n' !in head;
    assert buf[..e + 1] == head + "\n";
    assert buf == buf[..e + 1] + buf[e + 1..];
  }

  /** One turn of the extraction loop. */
  lemma SplitStep(buf: string, e: nat)
    requires e == LineEnd(buf) < |buf|
    ensures SplitLines(buf) == Cut([buf[..e]] + SplitLines(buf[e + 1..]).lines, SplitLines(buf[e + 1..]).rest)
  {
  }

  // ---------------------------------------------------------------------------
  // run_passive_monitor: handling the extracted lines
  // ---------------------------------------------------------------------------

  /** A sample line: handled when it matches the sample grammar, dropped otherwise. */
  function SampleLine(host: string, device: string, s: Sink, line: string): Sink {
    match SampleMatch(line)
    case Some(m) => Sampled(host, device, s, m)
    case None => s
  }

  /** The sink after some lines, and whether one of them raised. */
  datatype Consumed = Consumed(sink: Sink, crashed: bool)

  /**
    The extracted lines, stripped, in order: samples are handled, other
    lines are logged as unparsed, and a line that fits the report pattern
    raises (its six-argument call to the four-parameter handle_response is
    a TypeError), which ends the session.
   */
  function ConsumeLines(host: string, device: string, s: Sink, lines: seq<string>): Consumed
    decreases |lines|
  {
    if lines == [] then Consumed(s, false)
    else
      var line := Strip(lines[0]);
      if StartsWith(line, "< SAMPLE") then ConsumeLines(host, device, SampleLine(host, device, s, line), lines[1..])
      else if ReportMatches(line) then Consumed(s, true)
      else ConsumeLines(host, device, Log(s, Entry(host + ": unparsed line: " + line, map[])), lines[1..])
  }

  /** Handling two batches of lines one after the other is handling them together. */
  lemma {:induction false} ConsumeAppend(host: string, device: string, s: Sink, l1: seq<string>, l2: seq<string>)
    ensures ConsumeLines(host, device, s, l1 + l2) ==
      var c := ConsumeLines(host, device, s, l1);
      if c.crashed then c else ConsumeLines(host, device, c.sink, l2)
    decreases |l1|
  {
    if l1 == [] {
      assert l1 + l2 == l2;
    } else {
      assert (l1 + l2)[0] == l1[0];
      assert (l1 + l2)[1..] == l1[1..] + l2;
      var line := Strip(l1[0]);
      if StartsWith(line, "< SAMPLE") {
        ConsumeAppend(host, device, SampleLine(host, device, s, line), l1[1..], l2);
      } else if !ReportMatches(line) {
        ConsumeAppend(host, device, Log(s, Entry(host + ": unparsed line: " + line, map[])), l1[1..], l2);
      }
    }
  }

  /** Every report the two-channel device writes ends the session, before any later line is looked at. */
  lemma ReportLineCrashes(host: string, device: string, s: Sink, w: string, rest: string, more: seq<string>)
    requires IsWord(w) && rest != [] && '\n' !in rest
    ensures ConsumeLines(host, device, s, ["< REPORT " + w + " " + rest + " >"] + more) == Consumed(s, true)
  {
    var line := "< REPORT " + w + " " + rest + " >";
    ReportLineMatches(w, rest);
    assert line[0] == '<' && line[|line| - 1] == '>';
    StripKeeps(line);
    assert line[2] == 'R';
    assert !StartsWith(line, "< SAMPLE") by {
      assert "< SAMPLE"[2] == 'S';
    }
    assert (["< REPORT " + w + " " + rest + " >"] + more)[0] == line;
  }

  // ---------------------------------------------------------------------------
  // run_passive_monitor: the session
  // ---------------------------------------------------------------------------

  /** What one read of the socket gave: data (empty when the peer closed), a timeout, or an error. */
  datatype Read = Data(chunk: string) | ReadTimeout | ReadFailure(reason: string)

  /** How a passive session ends; `Stopped` is the shutdown flag seen with no read left. */
  datatype PassiveEnd = PeerClosed | ReadFailed | Crashed | Stopped

  datatype Session = Session(sink: Sink, end: PassiveEnd)

  /**
    The read loop: timeouts are skipped, an error is logged and ends the
    session, an empty read ends it, and data is appended to the buffer,
    whose complete lines are then handled.
   */
  function Passive(host: string, device: string, s: Sink, buf: string, received: seq<Read>): Session
    decreases |received|
  {
    if received == [] then Session(s, Stopped)
    else
      match received[0]
      case ReadTimeout => Passive(host, device, s, buf, received[1..])
      case ReadFailure(e) => Session(Log(s, Entry("read error: " + e, Warning)), ReadFailed)
      case Data(chunk) =>
        if chunk == [] then Session(s, PeerClosed)
        else
          var cut := SplitLines(buf + chunk);
          var c := ConsumeLines(host, device, s, cut.lines);
          if c.crashed then Session(c.sink, Crashed)
          else Passive(host, device, c.sink, cut.rest, received[1..])
  }

  /** How the data is cut into reads does not matter: two reads in a row act as one read of both. */
  lemma TwoReadsAsOne(host: string, device: string, s: Sink, buf: string, a: string, b: string, more: seq<Read>)
    requires a != [] && b != []
    ensures Passive(host, device, s, buf, [Data(a), Data(b)] + more) == Passive(host, device, s, buf, [Data(a + b)] + more)
  {
    var two := [Data(a), Data(b)] + more;
    var one := [Data(a + b)] + more;
    assert two[0] == Data(a) && two[1..] == [Data(b)] + more;
    assert two[1..][0] == Data(b) && two[1..][1..] == more;
    assert one[0] == Data(a + b) && one[1..] == more;
    assert buf + (a + b) == (buf + a) + b;
    SplitAcrossReads(buf + a, b);
    LeftoverAcrossReads(buf + a, b);
    var cut1 := SplitLines(buf + a);
    ConsumeAppend(host, device, s, cut1.lines, SplitLines(cut1.rest + b).lines);
  }

  // ---------------------------------------------------------------------------
  // main: reconnection and status notifications
  // ---------------------------------------------------------------------------

  /** The connection status main keeps in last_status. */
  datatype Status = Connected | Waiting

  /** How a monitoring session ended: normally, with a socket error, or with any other exception. */
  datatype Ending = Finished | Dropped(reason: string) | Raised(reason: string)

  /** One turn of the reconnect loop: the connection failed, or a session ran. */
  datatype Attempt = Unreachable(reason: string) | Ran(ending: Ending)

  /** A passive session that crashed ended with the TypeError of the report dispatch. */
  function PassiveEnding(end: PassiveEnd): Ending {
    if end == Crashed then Raised("handle_response() takes 4 positional arguments but 6 were given")
    else Finished
  }

  /**
    A passive session never drops the status back to waiting: however it
    ends, the turn notifies at most `connected` and leaves the status there.
   */
  lemma PassiveStaysConnected(last: Option<Status>, end: PassiveEnd)
    ensures Said(last, Ran(PassiveEnding(end))) == Notify(last, Connected)
    ensures Settled(Ran(PassiveEnding(end))) == Connected
  {
  }

  /** The text sent to the service manager for a status. */
  function StatusText(st: Status): string {
    match st
    case Connected => "connected"
    case Waiting => "waiting for device..."
  }

  /** Notify a status only when it differs from the last one notified. */
  function Notify(last: Option<Status>, st: Status): seq<string> {
    if last == Some(st) then [] else [StatusText(st)]
  }

  /** The statuses one attempt passes through, in order. */
  function Visits(a: Attempt): seq<Status> {
    match a
    case Unreachable(_) => [Waiting]
    case Ran(Dropped(_)) => [Connected, Waiting]
    case Ran(_) => [Connected]
  }

  /** The status an attempt leaves behind. */
  function Settled(a: Attempt): Status {
    if a.Unreachable? || a.ending.Dropped? then Waiting else Connected
  }

  /**
    The notifications of one turn of the reconnect loop: a connection
    notifies `connected`, a socket error (on connecting or during the
    session) notifies `waiting for device...`, each only when it changes the
    status; any other exception leaves the status alone.
   */
  function Said(last: Option<Status>, a: Attempt): seq<string> {
    match a
    case Unreachable(_) => Notify(last, Waiting)
    case Ran(Dropped(_)) => Notify(last, Connected) + Notify(Some(Connected), Waiting)
    case Ran(_) => Notify(last, Connected)
  }

  /** The notifications of the reconnect loop over a run of attempts. */
  function Notices(last: Option<Status>, attempts: seq<Attempt>): seq<string>
    decreases |attempts|
  {
    if attempts == [] then []
    else Said(last, attempts[0]) + Notices(Some(Settled(attempts[0])), attempts[1..])
  }

  /** The statuses the attempts pass through, in order, repeats included. */
  function Trail(attempts: seq<Attempt>): seq<Status>
    decreases |attempts|
  {
    if attempts == [] then [] else Visits(attempts[0]) + Trail(attempts[1..])
  }

  /** A trail with each repeat of the status before it removed. */
  function Changes(last: Option<Status>, trail: seq<Status>): seq<Status>
    decreases |trail|
  {
    if trail == [] then []
    else if last == Some(trail[0]) then Changes(last, trail[1..])
    else [trail[0]] + Changes(Some(trail[0]), trail[1..])
  }

  function Texts(sts: seq<Status>): seq<string> {
    if sts == [] then [] else [StatusText(sts[0])] + Texts(sts[1..])
  }

  lemma {:induction false} TextsAppend(a: seq<Status>, b: seq<Status>)
    ensures Texts(a + b) == Texts(a) + Texts(b)
  {
    if a == [] {
      assert a + b == b;
    } else {
      assert (a + b)[0] == a[0] && (a + b)[1..] == a[1..] + b;
      TextsAppend(a[1..], b);
    }
  }

  /** The loop's notifications are exactly the status changes along the trail of attempts. */
  lemma {:induction false} NoticesAreChanges(last: Option<Status>, attempts: seq<Attempt>)
    ensures Notices(last, attempts) == Texts(Changes(last, Trail(attempts)))
    decreases |attempts|
  {
    if attempts != [] {
      NoticesAreChanges(Some(Settled(attempts[0])), attempts[1..]);
      AttemptChanges(last, attempts[0], Trail(attempts[1..]));
    }
  }

  /** One attempt's notifications are the changes along its own visits. */
  lemma AttemptChanges(last: Option<Status>, a: Attempt, rest: seq<Status>)
    ensures Texts(Changes(last, Visits(a) + rest)) == Said(last, a) + Texts(Changes(Some(Settled(a)), rest))
  {
    match a
    case Unreachable(_) =>
      ChangesStep(last, Waiting, rest);
    case Ran(Dropped(_)) =>
      assert Visits(a) + rest == [Connected] + ([Waiting] + rest);
      ChangesStep(last, Connected, [Waiting] + rest);
      ChangesStep(Some(Connected), Waiting, rest);
    case Ran(_) =>
      ChangesStep(last, Connected, rest);
  }

  /** The first status of a trail, as notified. */
  lemma ChangesStep(last: Option<Status>, st: Status, rest: seq<Status>)
    ensures Texts(Changes(last, [st] + rest)) == Notify(last, st) + Texts(Changes(Some(st), rest))
  {
    var t := [st] + rest;
    assert t[0] == st && t[1..] == rest;
    if last != Some(st) {
      TextsAppend([st], Changes(Some(st), rest));
    }
  }

  /**
    The changes never repeat the status before them: the first differs from
    the last status notified and each differs from the one before it; and
    the status the trail ends in is the last change, or the status notified
    before when there was none.
   */
  lemma {:induction false} ChangesAlternate(last: Option<Status>, trail: seq<Status>)
    ensures var c := Changes(last, trail);
      && (c != [] ==> last != Some(c[0]))
      && (forall i :: 0 <= i < |c| - 1 ==> c[i] != c[i + 1])
      && (trail != [] ==> Some(trail[|trail| - 1]) == if c == [] then last else Some(c[|c| - 1]))
    decreases |trail|
  {
    if trail != [] {
      var c := Changes(last, trail);
      var d := Changes(Some(trail[0]), trail[1..]);
      if trail[1..] != [] {
        assert trail[1..][|trail[1..]| - 1] == trail[|trail| - 1];
      }
      if last == Some(trail[0]) {
        ChangesAlternate(last, trail[1..]);
      } else {
        ChangesAlternate(Some(trail[0]), trail[1..]);
        assert c == [trail[0]] + d;
        forall i | 0 <= i < |c| - 1 ensures c[i] != c[i + 1] {
          if i > 0 {
            assert c[i] == d[i - 1] && c[i + 1] == d[i];
          }
        }
      }
    }
  }

  /** The `PRIORITY=3` (error) field of the journal. */
  const Failure: map<string, string> := map["PRIORITY" := "3"]

  /** The record main writes when the device cannot be reached. */
  function UnreachableEntry(host: string, reason: string): Entry {
    Entry(host + " unreachable: " + reason, Failure)
  }

  /**
    main's own journal records for one turn of the reconnect loop: every
    connection is recorded; a socket error is recorded only when it changes
    the status to waiting (a session that ran had just set it to connected);
    any other exception is always recorded as a crash.
   */
  function Recorded(host: string, port: string, last: Option<Status>, a: Attempt): seq<Entry> {
    match a
    case Unreachable(e) => if last == Some(Waiting) then [] else [UnreachableEntry(host, e)]
    case Ran(ending) =>
      [Entry("connected to " + host + ":" + port, map[])]
      + match ending
        case Finished => []
        case Dropped(e) => [UnreachableEntry(host, e)]
        case Raised(e) => [Entry(host + " monitor crashed: " + e, Failure)]
  }

  /** main's own journal records over a run of attempts. */
  function Journal(host: string, port: string, last: Option<Status>, attempts: seq<Attempt>): seq<Entry>
    decreases |attempts|
  {
    if attempts == [] then []
    else Recorded(host, port, last, attempts[0]) + Journal(host, port, Some(Settled(attempts[0])), attempts[1..])
  }

  /** A record of the device being unreachable. */
  predicate IsUnreachableEntry(host: string, e: Entry) {
    e.fields == Failure && StartsWith(e.message, host + " unreachable: ")
  }

  function UnreachableCount(host: string, es: seq<Entry>): nat {
    if es == [] then 0
    else (if IsUnreachableEntry(host, es[0]) then 1 else 0) + UnreachableCount(host, es[1..])
  }

  function WaitingCount(ns: seq<string>): nat {
    if ns == [] then 0
    else (if ns[0] == StatusText(Waiting) then 1 else 0) + WaitingCount(ns[1..])
  }

  lemma {:induction false} UnreachableCountAppend(host: string, a: seq<Entry>, b: seq<Entry>)
    ensures UnreachableCount(host, a + b) == UnreachableCount(host, a) + UnreachableCount(host, b)
  {
    if a == [] {
      assert a + b == b;
    } else {
      assert (a + b)[0] == a[0] && (a + b)[1..] == a[1..] + b;
      UnreachableCountAppend(host, a[1..], b);
    }
  }

  lemma {:induction false} WaitingCountAppend(a: seq<string>, b: seq<string>)
    ensures WaitingCount(a + b) == WaitingCount(a) + WaitingCount(b)
  {
    if a == [] {
      assert a + b == b;
    } else {
      assert (a + b)[0] == a[0] && (a + b)[1..] == a[1..] + b;
      WaitingCountAppend(a[1..], b);
    }
  }

  /** A crash record is not an unreachable record. */
  lemma CrashIsNotUnreachable(host: string, e: string)
    ensures !IsUnreachableEntry(host, Entry(host + " monitor crashed: " + e, Failure))
  {
    var m := host + " monitor crashed: " + e;
    assert m[|host| + 1] == 'm';
    assert (host + " unreachable: ")[|host| + 1] == 'u';
  }

  /**
    In one turn, main records the device as unreachable exactly as often as
    it tells the service manager it is waiting for the device.
   */
  lemma TurnRecordsWaiting(host: string, port: string, last: Option<Status>, a: Attempt)
    ensures UnreachableCount(host, Recorded(host, port, last, a)) == WaitingCount(Said(last, a))
  {
    match a
    case Unreachable(e) =>
      if last != Some(Waiting) {
        assert StartsWith(UnreachableEntry(host, e).message, host + " unreachable: ");
      }
    case Ran(ending) =>
      var c := Entry("connected to " + host + ":" + port, map[]);
      assert !IsUnreachableEntry(host, c) by {
        assert "PRIORITY" in Failure && "PRIORITY" !in c.fields;
      }
      match ending
      case Finished =>
      case Dropped(e) =>
        assert StartsWith(UnreachableEntry(host, e).message, host + " unreachable: ");
        UnreachableCountAppend(host, [c], [UnreachableEntry(host, e)]);
        WaitingCountAppend(Notify(last, Connected), Notify(Some(Connected), Waiting));
      case Raised(e) =>
        CrashIsNotUnreachable(host, e);
        UnreachableCountAppend(host, [c], [Entry(host + " monitor crashed: " + e, Failure)]);
  }

  /**
    Over the whole run, the unreachable records in the journal pair up with
    the `waiting for device...` notifications: neither is repeated while the
    device stays away.
   */
  lemma {:induction false} JournalMatchesNotices(host: string, port: string, last: Option<Status>, attempts: seq<Attempt>)
    ensures UnreachableCount(host, Journal(host, port, last, attempts)) == WaitingCount(Notices(last, attempts))
    decreases |attempts|
  {
    if attempts != [] {
      var a := attempts[0];
      var next := Some(Settled(a));
      JournalMatchesNotices(host, port, next, attempts[1..]);
      TurnRecordsWaiting(host, port, last, a);
      UnreachableCountAppend(host, Recorded(host, port, last, a), Journal(host, port, next, attempts[1..]));
      WaitingCountAppend(Said(last, a), Notices(next, attempts[1..]));
    }
  }

  /** Every turn records its connection first, and only an attempt that connected does. */
  lemma ConnectionRecorded(host: string, port: string, last: Option<Status>, a: Attempt)
    ensures a.Ran? <==> Recorded(host, port, last, a) != [] && Recorded(host, port, last, a)[0] == Entry("connected to " + host + ":" + port, map[])
  {
    if a.Unreachable? && Recorded(host, port, last, a) != [] {
      assert Recorded(host, port, last, a)[0].fields == Failure;
      assert "PRIORITY" in Failure;
    }
  }

  /**
    main's reconnect loop, one attempt at a time, with last_status: the
    service manager is told of a status only when it changes, and main's own
    journal records are written as the turns go.
   */
  method Supervise(host: string, port: string, attempts: seq<Attempt>) returns (notices: seq<string>, records: seq<Entry>)
    ensures notices == Notices(None, attempts)
    ensures records == Journal(host, port, None, attempts)
  {
    var last: Option<Status> := None;
    notices, records := [], [];
    for i := 0 to |attempts|
      invariant notices + Notices(last, attempts[i..]) == Notices(None, attempts)
      invariant records + Journal(host, port, last, attempts[i..]) == Journal(host, port, None, attempts)
    {
      NoticesStep(last, attempts, i);
      JournalStep(host, port, last, attempts, i);
      var said, written, next := Turn(host, port, last, attempts[i]);
      Associative(notices, said, Notices(next, attempts[i + 1..]));
      Associative(records, written, Journal(host, port, next, attempts[i + 1..]));
      notices, records, last := notices + said, records + written, next;
    }
  }

  /** One turn of the reconnect loop: its notifications, its journal records and the new last_status. */
  method Turn(host: string, port: string, last: Option<Status>, a: Attempt)
    returns (said: seq<string>, records: seq<Entry>, next: Option<Status>)
    ensures said == Said(last, a) && records == Recorded(host, port, last, a)
    ensures next == Some(Settled(a))
  {
    said, records, next := [], [], last;
    match a {
    case Unreachable(e) =>
      if next != Some(Waiting) {
        records := records + [UnreachableEntry(host, e)];
        said := said + [StatusText(Waiting)];
        next := Some(Waiting);
      }
    case Ran(ending) =>
      records := records + [Entry("connected to " + host + ":" + port, map[])];
      if next != Some(Connected) {
        said := said + [StatusText(Connected)];
        next := Some(Connected);
      }
      match ending {
      case Finished =>
      case Dropped(e) =>
        if next != Some(Waiting) {
          records := records + [UnreachableEntry(host, e)];
          said := said + [StatusText(Waiting)];
          next := Some(Waiting);
        }
      case Raised(e) =>
        records := records + [Entry(host + " monitor crashed: " + e, Failure)];
      }
    }
  }

  lemma Associative<T>(a: seq<T>, b: seq<T>, c: seq<T>)
    ensures (a + b) + c == a + (b + c)
  {
  }

  lemma NoticesStep(last: Option<Status>, attempts: seq<Attempt>, i: nat)
    requires i < |attempts|
    ensures Notices(last, attempts[i..]) == Said(last, attempts[i]) + Notices(Some(Settled(attempts[i])), attempts[i + 1..])
  {
    assert attempts[i..][0] == attempts[i] && attempts[i..][1..] == attempts[i + 1..];
  }

  lemma JournalStep(host: string, port: string, last: Option<Status>, attempts: seq<Attempt>, i: nat)
    requires i < |attempts|
    ensures Journal(host, port, last, attempts[i..])
      == Recorded(host, port, last, attempts[i]) + Journal(host, port, Some(Settled(attempts[i])), attempts[i + 1..])
  {
    assert attempts[i..][0] == attempts[i] && attempts[i..][1..] == attempts[i + 1..];
  }

  // ---------------------------------------------------------------------------
  // The monitor: its Redis hashes, its journal, what it wrote to the socket
  // and its receive buffer
  // ---------------------------------------------------------------------------

  class Monitor {
    const host: string
    const device: string
    var store: Store
    var journal: seq<Entry>
    var sent: string
    var buffer: string

    function State(): Sink
      reads this
    {
      Sink(store, journal)
    }

    constructor(host: string, device: string)
      ensures this.host == host && this.device == device
      ensures store == map[] && journal == [] && sent == [] && buffer == []
    {
      this.host := host;
      this.device := device;
      store := map[];
      journal := [];
      sent := [];
      buffer := [];
    }

    /** handle_response: the line is recognised, then stored and recorded, or reported as unparsed. */
    method HandleResponse(line: string)
      modifies this
      ensures State() == Respond(host, device, old(State()), line)
      ensures sent == old(sent) && buffer == old(buffer)
    {
      var recognised := Classify(line);
      RespondCases(host, device, State(), line, recognised);
      if recognised.None? {
        journal := journal + [Entry(host + ": unparsed line: " + line, Warning)];
        return;
      }
      var rep := recognised.value;
      store := HSet(store, HashOf(host, rep), rep.key, rep.value);
      journal := journal + [MetricEntry(host, device, rep)];
    }

    /** handle_sample: one field and one record per (key, reading) pair, in order. */
    method HandleSample(ch: string, raw: string)
      modifies this
      ensures State() == Sampled(host, device, old(State()), Sample(ch, raw))
      ensures sent == old(sent) && buffer == old(buffer)
    {
      var hash := host + ":channel:" + ch;
      var pairs := Zip(SampleKeys, Words(raw));
      for i := 0 to |pairs|
        invariant State() == WriteReadings(host, device, old(State()), hash, ch, pairs[..i])
        invariant sent == old(sent) && buffer == old(buffer)
      {
        ReadingStep(host, device, old(State()), hash, ch, pairs, i);
        var (k, v) := pairs[i];
        store := HSet(store, hash, k, v);
        journal := journal + [SampleEntry(host, device, hash, ch, k, v)];
      }
      assert pairs[..|pairs|] == pairs;
    }

    /** process_raw_data: the parts of a chunk, up to the first sample part. */
    method ProcessRawData(raw: string)
      modifies this
      ensures State() == Processed(host, device, old(State()), raw)
      ensures sent == old(sent) && buffer == old(buffer)
    {
      var parts := Split(raw, "<");
      var i := 0;
      while i < |parts|
        invariant 0 <= i <= |parts|
        invariant ProcessParts(host, device, State(), parts[i..]) == Processed(host, device, old(State()), raw)
        invariant sent == old(sent) && buffer == old(buffer)
      {
        ProcessStep(host, device, State(), parts, i);
        var part := Strip(parts[i]);
        if part == [] {
          i := i + 1;
          continue;
        }
        var line := "< " + part;
        if StartsWith(line, "< SAMPLE") {
          var m := SampleMatch(line);
          if m.Some? {
            HandleSample(m.value.channel, m.value.raw);
          }
          return;
        }
        HandleResponse(line);
        i := i + 1;
      }
    }

    /** poll_command: write the command, then handle what the read gave. */
    method PollCommand(cmd: string, outcome: Poll) returns (ok: bool)
      modifies this
      ensures ok <==> KeepsPolling(outcome)
      ensures State() == PollOnce(host, device, old(State()), outcome)
      ensures sent == old(sent) + CommandLine(cmd) && buffer == old(buffer)
    {
      sent := sent + CommandLine(cmd);
      match outcome
      case PollTimeout =>
        return true;
      case PollFailure(e) =>
        journal := journal + [Entry("polling error: " + e, Warning)];
        return false;
      case Received(raw) =>
        ProcessRawData(raw);
        return true;
    }

    /**
      run_polling_monitor: ask for metering, then poll the commands round
      after round until a poll fails or no outcome is left (which stands for
      the shutdown flag).
     */
    method RunPolling(outcomes: seq<Poll>) returns (polled: nat)
      modifies this
      ensures polled == Attempted(outcomes)
      ensures State() == Polling(host, device, old(State()), outcomes)
      ensures sent == old(sent) + MeteringRequest + CommandsSent(polled)
      ensures buffer == old(buffer)
    {
      sent := sent + MeteringRequest;
      polled := 0;
      FirstRound();
      while polled < |outcomes|
        invariant polled <= |outcomes| && RoundStart(polled)
        invariant Polling(host, device, State(), outcomes[polled..]) == Polling(host, device, old(State()), outcomes)
        invariant polled + Attempted(outcomes[polled..]) == Attempted(outcomes)
        invariant sent == old(sent) + MeteringRequest + CommandsSent(polled)
        invariant buffer == old(buffer)
        decreases |outcomes| - polled
      {
        var going;
        polled, going := PollRound(outcomes, polled, old(sent) + MeteringRequest);
        if !going {
          return;
        }
      }
    }

    /**
      One pass over the command list, from position start of the outcomes:
      `going` is false when a poll failed or the outcomes ran out.
     */
    method PollRound(outcomes: seq<Poll>, start: nat, ghost prefix: string) returns (polled: nat, going: bool)
      requires start <= |outcomes| && RoundStart(start)
      requires sent == prefix + CommandsSent(start)
      modifies this
      ensures start <= polled <= |outcomes|
      ensures sent == prefix + CommandsSent(polled) && buffer == old(buffer)
      ensures going ==> polled == start + |PollCommands| && RoundStart(polled)
      ensures going ==> Polling(host, device, State(), outcomes[polled..]) == Polling(host, device, old(State()), outcomes[start..])
      ensures going ==> polled + Attempted(outcomes[polled..]) == start + Attempted(outcomes[start..])
      ensures !going ==> State() == Polling(host, device, old(State()), outcomes[start..])
      ensures !going ==> polled == start + Attempted(outcomes[start..])
    {
      polled := start;
      for j := 0 to |PollCommands|
        invariant polled == start + j <= |outcomes|
        invariant Polling(host, device, State(), outcomes[polled..]) == Polling(host, device, old(State()), outcomes[start..])
        invariant polled + Attempted(outcomes[polled..]) == start + Attempted(outcomes[start..])
        invariant sent == prefix + CommandsSent(polled) && buffer == old(buffer)
      {
        if polled == |outcomes| {
          return polled, false;
        }
        PollingAt(host, device, State(), outcomes, polled);
        assert CommandAt(polled) == PollCommands[j];
        var ok := PollCommand(PollCommands[j], outcomes[polled]);
        Associative(prefix, CommandsSent(polled), CommandLine(PollCommands[j]));
        polled := polled + 1;
        if !ok {
          return polled, false;
        }
      }
      NextRound(start);
      going := true;
    }

    /** The extraction loop of run_passive_monitor, after a chunk has been appended. */
    method Feed(chunk: string) returns (crashed: bool)
      modifies this
      ensures var c := ConsumeLines(host, device, old(State()), SplitLines(old(buffer) + chunk).lines);
        crashed == c.crashed && State() == c.sink
      ensures !crashed ==> buffer == SplitLines(old(buffer) + chunk).rest
      ensures sent == old(sent)
    {
      buffer := buffer + chunk;
      crashed := false;
      while '\n' in buffer
        invariant ConsumeLines(host, device, State(), SplitLines(buffer).lines)
          == ConsumeLines(host, device, old(State()), SplitLines(old(buffer) + chunk).lines)
        invariant SplitLines(buffer).rest == SplitLines(old(buffer) + chunk).rest
        invariant sent == old(sent) && !crashed
        decreases |buffer|
      {
        var e := LineEnd(buffer);
        SplitStep(buffer, e);
        ghost var all := SplitLines(buffer).lines;
        var line := buffer[..e];
        buffer := buffer[e + 1..];
        assert all[0] == line && all[1..] == SplitLines(buffer).lines;
        line := Strip(line);
        if StartsWith(line, "< SAMPLE") {
          var m := SampleMatch(line);
          if m.Some? {
            HandleSample(m.value.channel, m.value.raw);
          }
        } else if ReportMatches(line) {
          crashed := true;
          return;
        } else {
          journal := journal + [Entry(host + ": unparsed line: " + line, map[])];
        }
      }
      assert SplitLines(buffer) == Cut([], buffer);
    }

    /** run_passive_monitor: reads until the peer closes, a read fails or a line raises. */
    method RunPassive(received: seq<Read>) returns (end: PassiveEnd)
      modifies this
      ensures Session(State(), end) == Passive(host, device, old(State()), [], received)
      ensures sent == old(sent)
    {
      buffer := [];
      var i := 0;
      while i < |received|
        invariant 0 <= i <= |received|
        invariant Passive(host, device, State(), buffer, received[i..]) == Passive(host, device, old(State()), [], received)
        invariant sent == old(sent)
      {
        assert received[i..][0] == received[i] && received[i..][1..] == received[i + 1..];
        match received[i]
        case ReadTimeout =>
          i := i + 1;
        case ReadFailure(e) =>
          journal := journal + [Entry("read error: " + e, Warning)];
          return ReadFailed;
        case Data(chunk) =>
          if chunk == [] {
            return PeerClosed;
          }
          var crashed := Feed(chunk);
          if crashed {
            return Crashed;
          }
          i := i + 1;
      }
      return Stopped;
    }
  }
}
