/**
  The post-I/O half of a one-shot exchange, written the same way in both
  receiver clients (ad4d.py and p10t.py `send_command`): draining the socket
  inside the read window, cutting the received text into candidate frames on
  the reply keyword, and folding parsed frames into a two-level snapshot.
 */
module Exchange {
  import opened Text

  // ---------------------------------------------------------------------------
  // Draining the socket
  // ---------------------------------------------------------------------------

  /** What one turn of the drain loop sees, as the clock and the socket report it. */
  datatype Recv =
    | Data(chunk: string)       // recv returned bytes (already decoded)
    | Closed                    // recv returned no bytes: the peer closed
    | TimedOut                  // recv raised the socket timeout
    | WindowOver                // the read deadline had passed before this turn
    | Failed(reason: string)    // recv raised any other error

  /** The drain either yields the received text or the transport error that ended it. */
  datatype Drained = Received(raw: string) | DrainFailed(reason: string)

  /** The chunks concatenated in arrival order (`b"".join(chunks)`). */
  function Concat(chunks: seq<string>): string {
    if chunks == [] then [] else Concat(chunks[..|chunks| - 1]) + chunks[|chunks| - 1]
  }

  function Prepend(head: string, d: Drained): Drained {
    match d
    case Received(raw) => Received(head + raw)
    case DrainFailed(_) => d
  }

  /**
    Reference definition of the drain: the text of the data chunks that
    arrive before the first turn that stops the loop; a transport error in
    that turn replaces the whole result. An exhausted event list is the
    window closing.
   */
  function Drain(events: seq<Recv>): Drained {
    if events == [] then Received([])
    else match events[0]
      case Data(c) => Prepend(c, Drain(events[1..]))
      case Failed(r) => DrainFailed(r)
      case _ => Received([])
  }

  /** Nothing that happens after the loop has stopped reaches the result. */
  lemma {:induction false} DrainIgnoresLaterEvents(events: seq<Recv>, later: seq<Recv>, k: nat)
    requires k < |events| && !events[k].Data?
    requires forall j :: 0 <= j < k ==> events[j].Data?
    ensures Drain(events + later) == Drain(events)
    decreases k
  {
    if k > 0 {
      assert (events + later)[1..] == events[1..] + later;
      DrainIgnoresLaterEvents(events[1..], later, k - 1);
    } else {
      assert (events + later)[0] == events[0];
    }
  }

  /** A drain that only ever sees data delivers every chunk, in order. */
  lemma {:induction false} DrainAllData(chunks: seq<string>)
    ensures Drain(seq(|chunks|, i requires 0 <= i < |chunks| => Data(chunks[i]))) == Received(ConcatFront(chunks))
  {
    var events := seq(|chunks|, i requires 0 <= i < |chunks| => Data(chunks[i]));
    if chunks != [] {
      DrainAllData(chunks[1..]);
      assert events[1..] == seq(|chunks[1..]|, i requires 0 <= i < |chunks[1..]| => Data(chunks[1..][i]));
    }
  }

  /** Concatenation unfolded from the front, the order the drain consumes chunks in. */
  function ConcatFront(chunks: seq<string>): string {
    if chunks == [] then [] else chunks[0] + ConcatFront(chunks[1..])
  }

  lemma PrependTwice(a: string, b: string, d: Drained)
    ensures Prepend(a, Prepend(b, d)) == Prepend(a + b, d)
  {
    if d.Received? {
      assert a + (b + d.raw) == (a + b) + d.raw;
    }
  }

  /** The recv loop: append each chunk until the window closes, the peer closes or a read times out. */
  method DrainSocket(events: seq<Recv>) returns (d: Drained)
    ensures d == Drain(events)
  {
    var chunks: seq<string> := [];
    var i := 0;
    while i < |events| && events[i].Data?
      invariant 0 <= i <= |events|
      invariant Drain(events) == Prepend(Concat(chunks), Drain(events[i..]))
    {
      assert events[i..][0] == events[i] && events[i..][1..] == events[i + 1..];
      assert Drain(events[i..]) == Prepend(events[i].chunk, Drain(events[i + 1..]));
      PrependTwice(Concat(chunks), events[i].chunk, Drain(events[i + 1..]));
      chunks := chunks + [events[i].chunk];
      assert Concat(chunks) == Concat(chunks[..|chunks| - 1]) + events[i].chunk;
      i := i + 1;
    }
    if i < |events| && events[i].Failed? {
      return DrainFailed(events[i].reason);
    }
    d := Received(Concat(chunks));
  }

  // ---------------------------------------------------------------------------
  // Cutting the received text into candidate frames
  // ---------------------------------------------------------------------------

  /**
    Each non-blank part between reply keywords becomes `marker + part.strip()`;
    with `dropErr`, parts that contain `ERR` are discarded as well.
   */
  function Candidates(parts: seq<string>, marker: string, dropErr: bool): (fs: seq<string>)
    ensures |fs| <= |parts|
    ensures forall f :: f in fs ==> StartsWith(f, marker) && |f| > |marker|
  {
    if parts == [] then []
    else
      var body := Strip(parts[0]);
      var keep := body != [] && !(dropErr && Contains(parts[0], "ERR"));
      var rest := Candidates(parts[1..], marker, dropErr);
      assert StartsWith(marker + body, marker);
      if keep then [marker + body] + rest else rest
  }

  /** The candidate frames of a received text (the list comprehension after the drain). */
  function Frames(raw: string, marker: string, dropErr: bool): (fs: seq<string>)
    requires marker != []
    ensures forall f :: f in fs ==> StartsWith(f, marker)
  {
    Candidates(Split(raw, marker), marker, dropErr)
  }

  /** With the error filter on, the body of every candidate is free of `ERR`. */
  lemma {:induction false} CandidateBodiesAvoidErr(parts: seq<string>, marker: string)
    ensures forall f :: f in Candidates(parts, marker, true) ==> !Contains(f[|marker|..], "ERR")
  {
    if parts != [] {
      var rest := Candidates(parts[1..], marker, true);
      CandidateBodiesAvoidErr(parts[1..], marker);
      var body := Strip(parts[0]);
      if body != [] && !Contains(parts[0], "ERR") {
        StripAvoidsErr(parts[0]);
        assert (marker + body)[|marker|..] == body;
        assert Candidates(parts, marker, true) == [marker + body] + rest;
      } else {
        assert Candidates(parts, marker, true) == rest;
      }
    }
  }

  lemma StripAvoidsErr(part: string)
    requires !Contains(part, "ERR")
    ensures !Contains(Strip(part), "ERR")
  {
    var i := Span(part, IsSpace);
    var r := Strip(part);
    assert r == part[i..i + |r|];
    WindowAvoids(part, i, i + |r|, "ERR");
  }

  /** `ERR` cannot straddle a text that ends in a space and the text after it. */
  lemma NoErrAcrossSpace(a: string, b: string)
    requires a != [] && a[|a| - 1] == ' '
    requires !Contains(a, "ERR") && !Contains(b, "ERR")
    ensures !Contains(a + b, "ERR")
  {
    AvoidsConcat(a, b, "ERR");
  }

  /** The reply stream a device writes for a list of frame bodies: `marker body CR LF` per frame. */
  function Stream(bodies: seq<string>, marker: string): string {
    if bodies == [] then [] else marker + bodies[0] + "\r\n" + Stream(bodies[1..], marker)
  }

  /** A body the splitter keeps whole: stripped, non-blank, and without the keyword. */
  predicate Framable(body: string, marker: string) {
    body != [] && NotSpace(body[0]) && NotSpace(body[|body| - 1]) && !Contains(body, marker)
  }

  /** A body that survives the candidate filter: framable, and free of `ERR` when the filter drops those. */
  predicate GoodBody(body: string, marker: string, dropErr: bool) {
    Framable(body, marker) && (dropErr ==> !Contains(body, "ERR"))
  }

  /** A keyword the splitter can find unambiguously after a line end. */
  predicate GoodMarker(marker: string) {
    marker != [] && '\n' !in marker && '\r' !in marker
  }

  /** Cutting a device's reply stream gives back exactly its frames, keyword first. */
  lemma {:induction false} FramesOfStream(bodies: seq<string>, marker: string, dropErr: bool)
    requires GoodMarker(marker)
    requires forall b :: b in bodies ==> GoodBody(b, marker, dropErr)
    ensures Frames(Stream(bodies, marker), marker, dropErr)
         == Framed(bodies, marker)
  {
    if bodies == [] {
      assert Split([], marker) == [[]];
    } else {
      var s := Stream(bodies, marker);
      assert Find(s, marker) == Some(0) by { assert s[..|marker|] == marker; }
      assert s[|marker|..] == bodies[0] + "\r\n" + Stream(bodies[1..], marker);
      SplitStreamTail(bodies, marker);
      assert Split(s, marker) == [[]] + SegmentsOf(bodies);
      assert Strip([]) == [];
      CandidatesOfSegments(bodies, marker, dropErr);
    }
  }

  /** Each body with the keyword in front, as the splitter rebuilds the frames. */
  function Framed(bodies: seq<string>, marker: string): (fs: seq<string>)
    ensures |fs| == |bodies|
    ensures forall i :: 0 <= i < |bodies| ==> fs[i] == marker + bodies[i]
  {
    if bodies == [] then [] else [marker + bodies[0]] + Framed(bodies[1..], marker)
  }

  /** The parts after the first keyword: each body followed by its line end. */
  function SegmentsOf(bodies: seq<string>): seq<string> {
    if bodies == [] then [] else [bodies[0] + "\r\n"] + SegmentsOf(bodies[1..])
  }

  lemma {:induction false} SplitStreamTail(bodies: seq<string>, marker: string)
    requires bodies != []
    requires GoodMarker(marker)
    requires forall b :: b in bodies ==> Framable(b, marker)
    ensures Split(bodies[0] + "\r\n" + Stream(bodies[1..], marker), marker) == SegmentsOf(bodies)
  {
    var seg := bodies[0] + "\r\n";
    assert bodies[0] in bodies;
    SegmentAvoidsMarker(bodies[0], marker);
    if |bodies| == 1 {
      assert bodies[0] + "\r\n" + Stream(bodies[1..], marker) == seg;
      FindAbsent(seg, marker);
    } else {
      var rest := Stream(bodies[1..], marker);
      var tail := bodies[1] + "\r\n" + Stream(bodies[2..], marker);
      assert rest == marker + tail;
      assert seg + rest == seg + marker + tail;
      FindAfterSegment(seg, marker, tail);
      assert (seg + marker + tail)[..|seg|] == seg;
      assert (seg + marker + tail)[|seg| + |marker|..] == tail;
      SplitStreamTail(bodies[1..], marker);
      assert bodies[1..][1..] == bodies[2..];
    }
  }

  lemma FindAbsent(s: string, marker: string)
    requires marker != [] && !Contains(s, marker)
    ensures Find(s, marker) == None
  {
  }

  /** A body followed by CR LF contains no keyword that lacks both characters. */
  lemma SegmentAvoidsMarker(body: string, marker: string)
    requires GoodMarker(marker) && !Contains(body, marker)
    ensures !Contains(body + "\r\n", marker)
  {
    AvoidsForeign("\r\n", marker);
    AvoidsConcat(body, "\r\n", marker);
  }

  /** Find stops at the keyword that follows a segment ending in a line feed. */
  lemma FindAfterSegment(seg: string, marker: string, tail: string)
    requires GoodMarker(marker)
    requires seg == [] || seg[|seg| - 1] == '\n'
    requires !Contains(seg, marker)
    ensures Find(seg + marker + tail, marker) == Some(|seg|)
  {
    var s := seg + marker + tail;
    assert s[|seg|..][..|marker|] == marker;
    forall k | 0 <= k < |seg| ensures !StartsWith(s[k..], marker) {
      if k + |marker| <= |seg| {
        assert s[k..][..|marker|] == seg[k..][..|marker|];
      } else {
        assert s[k..][|seg| - 1 - k] == '\n';
        assert marker[|seg| - 1 - k] in marker;
      }
    }
    FindFirst(s, marker, |seg|);
  }

  lemma {:induction false} CandidatesOfSegments(bodies: seq<string>, marker: string, dropErr: bool)
    requires GoodMarker(marker)
    requires forall b :: b in bodies ==> GoodBody(b, marker, dropErr)
    ensures Candidates([[]] + SegmentsOf(bodies), marker, dropErr)
         == Framed(bodies, marker)
  {
    assert ([[]] + SegmentsOf(bodies))[1..] == SegmentsOf(bodies);
    CandidatesOfSegmentsTail(bodies, marker, dropErr);
  }

  lemma {:induction false} CandidatesOfSegmentsTail(bodies: seq<string>, marker: string, dropErr: bool)
    requires GoodMarker(marker)
    requires forall b :: b in bodies ==> GoodBody(b, marker, dropErr)
    ensures Candidates(SegmentsOf(bodies), marker, dropErr) == Framed(bodies, marker)
  {
    if bodies != [] {
      var b := bodies[0];
      assert b in bodies;
      var segs := SegmentsOf(bodies);
      assert segs == [b + "\r\n"] + SegmentsOf(bodies[1..]);
      CandidatesKeep(b, SegmentsOf(bodies[1..]), marker, dropErr);
      assert forall x :: x in bodies[1..] ==> x in bodies;
      CandidatesOfSegmentsTail(bodies[1..], marker, dropErr);
    }
  }

  /** A good body's line survives the candidate filter as keyword plus body. */
  lemma CandidatesKeep(b: string, more: seq<string>, marker: string, dropErr: bool)
    requires GoodBody(b, marker, dropErr)
    ensures Candidates([b + "\r\n"] + more, marker, dropErr)
         == [marker + b] + Candidates(more, marker, dropErr)
  {
    var parts := [b + "\r\n"] + more;
    StripSegment(b);
    if dropErr {
      SegmentAvoidsMarker(b, "ERR");
    }
    assert parts[0] == b + "\r\n";
    assert parts[1..] == more;
  }

  /** Stripping a line drops exactly its CR LF ending. */
  lemma StripSegment(b: string)
    requires b != [] && NotSpace(b[0]) && NotSpace(b[|b| - 1])
    ensures Strip(b + "\r\n") == b
  {
    var seg := b + "\r\n";
    assert seg[0] == b[0];
    assert Span(seg, IsSpace) == 0;
    assert seg[..|seg| - 1] == b + "\r";
    assert (b + "\r")[..|b|] == b;
  }

  // ---------------------------------------------------------------------------
  // Folding parsed frames into a snapshot
  // ---------------------------------------------------------------------------

  /** One parsed reply: its channel (none for a device-level key), key and value. */
  datatype Entry<V> = Entry(channel: Option<int>, key: string, value: V)

  /**
    The bulk result: device-level keys at the top, channel keys under their
    channel number. (The source keeps both in one dict; device keys are
    strings and channel numbers ints, so the two never collide.)
   */
  datatype Snapshot<V> = Snapshot(device: map<string, V>, channels: map<int, map<string, V>>)

  /** The value a snapshot holds for a key in a scope, if any. */
  function Lookup<V>(s: Snapshot<V>, channel: Option<int>, key: string): Option<V> {
    match channel
    case None => if key in s.device then Some(s.device[key]) else None
    case Some(ch) =>
      if ch in s.channels && key in s.channels[ch] then Some(s.channels[ch][key]) else None
  }

  /** One `update` of the bulk loop: the entry's key lands in its scope, replacing any earlier value. */
  function Put<V>(s: Snapshot<V>, e: Entry<V>): Snapshot<V> {
    match e.channel
    case None => s.(device := s.device[e.key := e.value])
    case Some(ch) =>
      var inner := if ch in s.channels then s.channels[ch] else map[];
      s.(channels := s.channels[ch := inner[e.key := e.value]])
  }

  /** The snapshot left by folding the entries in arrival order into an empty one. */
  function Merged<V>(entries: seq<Entry<V>>): Snapshot<V> {
    if entries == [] then Snapshot(map[], map[])
    else Put(Merged(entries[..|entries| - 1]), entries[|entries| - 1])
  }

  /** Reference definition: the value of the last entry, in arrival order, for a slot. */
  function LastWrite<V>(entries: seq<Entry<V>>, channel: Option<int>, key: string): Option<V> {
    if entries == [] then None
    else
      var e := entries[|entries| - 1];
      if e.channel == channel && e.key == key then Some(e.value)
      else LastWrite(entries[..|entries| - 1], channel, key)
  }

  /** Every slot of the merged snapshot holds the last value sent for it, and only sent slots exist. */
  lemma {:induction false} MergedIsLastWrite<V>(entries: seq<Entry<V>>, channel: Option<int>, key: string)
    ensures Lookup(Merged(entries), channel, key) == LastWrite(entries, channel, key)
  {
    if entries != [] {
      MergedIsLastWrite(entries[..|entries| - 1], channel, key);
    }
  }

  /** A slot is filled exactly when some frame carried it. */
  lemma {:induction false} LastWriteExists<V>(entries: seq<Entry<V>>, channel: Option<int>, key: string)
    ensures LastWrite(entries, channel, key).Some?
        <==> exists i :: 0 <= i < |entries| && entries[i].channel == channel && entries[i].key == key
  {
    if entries != [] {
      var init := entries[..|entries| - 1];
      LastWriteExists(init, channel, key);
      if exists i :: 0 <= i < |init| && init[i].channel == channel && init[i].key == key {
        var i :| 0 <= i < |init| && init[i].channel == channel && init[i].key == key;
        assert entries[i] == init[i];
      }
      if exists i :: 0 <= i < |entries| && entries[i].channel == channel && entries[i].key == key {
        var i :| 0 <= i < |entries| && entries[i].channel == channel && entries[i].key == key;
        if i < |init| { assert init[i] == entries[i]; }
      }
    }
  }

  /** A later frame for the same slot overwrites an earlier one. */
  lemma LaterFrameWins<V>(entries: seq<Entry<V>>, e: Entry<V>)
    ensures Lookup(Merged(entries + [e]), e.channel, e.key) == Some(e.value)
  {
    assert (entries + [e])[..|entries|] == entries;
  }

  /** Every channel table of a merged snapshot holds at least one key. */
  predicate NoEmptyChannel<V>(s: Snapshot<V>) {
    forall ch :: ch in s.channels ==> s.channels[ch] != map[]
  }

  lemma {:induction false} MergedNoEmptyChannel<V>(entries: seq<Entry<V>>)
    ensures NoEmptyChannel(Merged(entries))
  {
    if entries != [] {
      MergedNoEmptyChannel(entries[..|entries| - 1]);
      var e := entries[|entries| - 1];
      if e.channel.Some? {
        var s := Merged(entries);
        assert e.key in s.channels[e.channel.value];
      }
    }
  }

  /** Two snapshots without empty channel tables are equal when every lookup agrees. */
  lemma SnapshotExt<V>(s1: Snapshot<V>, s2: Snapshot<V>)
    requires NoEmptyChannel(s1) && NoEmptyChannel(s2)
    requires forall c: Option<int>, k: string :: Lookup(s1, c, k) == Lookup(s2, c, k)
    ensures s1 == s2
  {
    forall k | true ensures (k in s1.device <==> k in s2.device) && (k in s1.device ==> s1.device[k] == s2.device[k]) {
      assert Lookup(s1, None, k) == Lookup(s2, None, k);
    }
    assert s1.device == s2.device;
    forall ch | ch in s1.channels ensures ch in s2.channels {
      var k :| k in s1.channels[ch];
      assert Lookup(s1, Some(ch), k) == Lookup(s2, Some(ch), k);
    }
    forall ch | ch in s2.channels ensures ch in s1.channels {
      var k :| k in s2.channels[ch];
      assert Lookup(s1, Some(ch), k) == Lookup(s2, Some(ch), k);
    }
    forall ch | ch in s1.channels ensures s1.channels[ch] == s2.channels[ch] {
      forall k | true ensures (k in s1.channels[ch] <==> k in s2.channels[ch])
        && (k in s1.channels[ch] ==> s1.channels[ch][k] == s2.channels[ch][k]) {
        assert Lookup(s1, Some(ch), k) == Lookup(s2, Some(ch), k);
      }
    }
    assert s1.channels == s2.channels;
  }

  /** No two entries address the same slot. */
  predicate DistinctSlots<V>(entries: seq<Entry<V>>) {
    forall i, j :: 0 <= i < j < |entries| ==>
      entries[i].channel != entries[j].channel || entries[i].key != entries[j].key
  }

  lemma {:induction false} LastWriteOfDistinct<V>(entries: seq<Entry<V>>, e: Entry<V>)
    requires DistinctSlots(entries)
    ensures LastWrite(entries, e.channel, e.key) == Some(e.value) <==> e in entries
  {
    if entries != [] {
      var init := entries[..|entries| - 1];
      var last := entries[|entries| - 1];
      assert entries == init + [last];
      LastWriteOfDistinct(init, e);
    }
  }

  /**
    Arrival order does not matter when frames address distinct slots: any
    reordering merges to the same snapshot. (Frames for the same slot are
    resolved by arrival order, see LaterFrameWins.)
   */
  lemma MergeOrderIndependent<V>(a: seq<Entry<V>>, b: seq<Entry<V>>)
    requires DistinctSlots(a) && DistinctSlots(b)
    requires multiset(a) == multiset(b)
    ensures Merged(a) == Merged(b)
  {
    forall c: Option<int>, k: string ensures Lookup(Merged(a), c, k) == Lookup(Merged(b), c, k) {
      MergedIsLastWrite(a, c, k);
      MergedIsLastWrite(b, c, k);
      var la := LastWrite(a, c, k);
      var lb := LastWrite(b, c, k);
      if la.Some? {
        LastWriteOfDistinct(a, Entry(c, k, la.value));
        assert Entry(c, k, la.value) in multiset(b);
        LastWriteOfDistinct(b, Entry(c, k, la.value));
      }
      if lb.Some? {
        LastWriteOfDistinct(b, Entry(c, k, lb.value));
        assert Entry(c, k, lb.value) in multiset(a);
        LastWriteOfDistinct(a, Entry(c, k, lb.value));
      }
    }
    MergedNoEmptyChannel(a);
    MergedNoEmptyChannel(b);
    SnapshotExt(Merged(a), Merged(b));
  }

  /**
    The bulk loop: pop the channel marker off each entry and update the top
    level or the channel's table, creating the table on first use.
   */
  method Merge<V>(entries: seq<Entry<V>>) returns (merged: Snapshot<V>)
    ensures merged == Merged(entries)
  {
    var device: map<string, V> := map[];
    var channels: map<int, map<string, V>> := map[];
    for i := 0 to |entries|
      invariant Snapshot(device, channels) == Merged(entries[..i])
    {
      var e := entries[i];
      assert entries[..i + 1][..i] == entries[..i];
      match e.channel {
        case None =>
          device := device[e.key := e.value];
        case Some(ch) =>
          if ch !in channels {
            channels := channels[ch := map[]];
          }
          channels := channels[ch := channels[ch][e.key := e.value]];
      }
    }
    assert entries[..|entries|] == entries;
    merged := Snapshot(device, channels);
  }
}
