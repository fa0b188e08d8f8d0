/** Stream declarations as text (src/netchan_srp_helper.c): printing them
    (`_advertise_stream`) and finding stream ID and destination in a message
    (`find_stream_id`, `find_dst`). */
module MrpStream {
  import opened MachineInts
  import opened MrpText

  // ---------------------------------------------------------------------
  // Printing

  /** What `snprintf` leaves in a buffer of the given size. */
  function Snprintf(size: nat, t: string): string
    requires size > 0
  {
    if |t| < size then t else t[..size - 1]
  }

  const STREAM_MSG_SZ: nat := 129

  /** The part of a stream declaration behind the destination. */
  function StreamTail(vid: int, pktsz: int, interval: int, prio: int, latency: int): string {
    TailText(Hex4(vid, true), Dec(pktsz), Dec(interval), Dec(I32(prio * 32)), Dec(latency))
  }

  function TailText(vid: string, pktsz: string, interval: string, prio: string, latency: string): string {
    "V=" + (vid + ("," + ("Z=" + (pktsz + ("," +
    ("I=" + (interval + ("," + ("P=" + (prio + ("," + ("L=" + latency))))))))))))
  }

  function StreamText(advertise: bool, sid: seq<byte>, dst: seq<byte>, tail: string): string {
    (if advertise then "S++:" else "S--:") + "S=" + HexBytes(sid, true) + ",A=" + HexBytes(dst, true) + "," + tail
  }

  /** The message `_advertise_stream` sends. */
  function StreamMessage(advertise: bool, sid: seq<byte>, dst: seq<byte>,
                         vid: int, pktsz: int, interval: int, prio: int, latency: int): string {
    Snprintf(STREAM_MSG_SZ, StreamText(advertise, sid, dst, StreamTail(vid, pktsz, interval, prio, latency)))
  }

  /** The message is never cut off: 104 characters at most. */
  lemma StreamMessageFits(advertise: bool, sid: seq<byte>, dst: seq<byte>,
                          vid: int, pktsz: int, interval: int, prio: int, latency: int)
    requires |sid| == 8 && |dst| == 6
    requires IsInt32(pktsz) && IsInt32(interval) && IsInt32(latency)
    ensures |StreamMessage(advertise, sid, dst, vid, pktsz, interval, prio, latency)| <= 104
    ensures StreamMessage(advertise, sid, dst, vid, pktsz, interval, prio, latency) ==
            StreamText(advertise, sid, dst, StreamTail(vid, pktsz, interval, prio, latency))
  {
    Hex4Facts(vid, true);
    DecLength(pktsz);
    DecLength(interval);
    DecLength(I32(prio * 32));
    DecLength(latency);
    assert |StreamTail(vid, pktsz, interval, prio, latency)| <= 2 + 8 + 4 * (3 + 11);
  }

  /** An advertisement and a withdrawal of a stream differ in the second and
      third character, and in nothing else. */
  lemma StreamMessageKind(sid: seq<byte>, dst: seq<byte>,
                          vid: int, pktsz: int, interval: int, prio: int, latency: int)
    requires |sid| == 8 && |dst| == 6
    requires IsInt32(pktsz) && IsInt32(interval) && IsInt32(latency)
    ensures var up := StreamMessage(true, sid, dst, vid, pktsz, interval, prio, latency);
            var down := StreamMessage(false, sid, dst, vid, pktsz, interval, prio, latency);
            && |up| == |down| >= 38 && up[..4] == "S++:" && down[..4] == "S--:" && up[4..] == down[4..]
            && up[4..6] == "S=" && up[6..22] == HexBytes(sid, true)
            && up[22..25] == ",A=" && up[25..37] == HexBytes(dst, true) && up[37] == ','
  {
    StreamMessageFits(true, sid, dst, vid, pktsz, interval, prio, latency);
    StreamMessageFits(false, sid, dst, vid, pktsz, interval, prio, latency);
    hide HexBytes, StreamTail, StreamMessage;
    KindsOf(HexBytes(sid, true), HexBytes(dst, true), StreamTail(vid, pktsz, interval, prio, latency));
  }

  lemma KindsOf(a: string, b: string, tail: string)
    requires |a| == 16 && |b| == 12
    ensures var up := "S++:" + "S=" + a + ",A=" + b + "," + tail;
            var down := "S--:" + "S=" + a + ",A=" + b + "," + tail;
            && |up| == |down| >= 38 && up[..4] == "S++:" && down[..4] == "S--:" && up[4..] == down[4..]
            && up[4..6] == "S=" && up[6..22] == a && up[22..25] == ",A=" && up[25..37] == b && up[37] == ','
  {
  }

  /** Stream declarations print their hex digits in upper case. */
  lemma StreamMessageInCase(advertise: bool, sid: seq<byte>, dst: seq<byte>,
                            vid: int, pktsz: int, interval: int, prio: int, latency: int)
    requires |sid| == 8 && |dst| == 6
    requires IsInt32(pktsz) && IsInt32(interval) && IsInt32(latency)
    ensures InCase(StreamMessage(advertise, sid, dst, vid, pktsz, interval, prio, latency), true)
  {
    StreamMessageFits(advertise, sid, dst, vid, pktsz, interval, prio, latency);
    Hex4InCase(vid, true);
    DecInCase(pktsz, true);
    DecInCase(interval, true);
    DecInCase(I32(prio * 32), true);
    DecInCase(latency, true);
    HexBytesInCase(sid, true);
    HexBytesInCase(dst, true);
    hide Hex4, Dec, HexBytes, I32, StreamMessage;
    TailInCase(Hex4(vid, true), Dec(pktsz), Dec(interval), Dec(I32(prio * 32)), Dec(latency));
  }

  lemma TailInCase(vid: string, pktsz: string, interval: string, prio: string, latency: string)
    requires InCase(vid, true) && InCase(pktsz, true) && InCase(interval, true) && InCase(prio, true)
    requires InCase(latency, true)
    ensures InCase(TailText(vid, pktsz, interval, prio, latency), true)
  {
  }

  /** The message `_listener_join_stream` sends; 27 characters. */
  function ListenerMessage(join: bool, sid: seq<byte>): string {
    Snprintf(STREAM_MSG_SZ - 1, (if join then "S+L:L=" else "S-L:L=") + HexBytes(sid, false) +
                                (if join then ", D=2" else ", D=3"))
  }

  // ---------------------------------------------------------------------
  // Searching

  /** Where the search for `tag` followed by '=' ends. */
  function SeekTag(buf: string, tag: char, i: nat): (r: nat)
    requires i < |buf|
    ensures i <= r < |buf|
    decreases |buf| - i
  {
    if (buf[i] == tag && At(buf, i + 1) == '=') || i + 1 == |buf| then i else SeekTag(buf, tag, i + 1)
  }

  /** First `c` from `i` on, or the end. */
  function Seek(buf: string, c: char, i: nat): (r: nat)
    requires i <= |buf|
    ensures i <= r <= |buf|
    decreases |buf| - i
  {
    if i == |buf| || buf[i] == c then i else Seek(buf, c, i + 1)
  }

  lemma {:induction false} SeekIs(buf: string, c: char, i: nat, r: nat)
    requires i <= r < |buf| && buf[r] == c && forall j :: i <= j < r ==> buf[j] != c
    ensures Seek(buf, c, i) == r
    decreases r - i
  {
    if i < r {
      SeekIs(buf, c, i + 1, r);
    }
  }

  lemma {:induction false} SeekTagIs(buf: string, tag: char, i: nat, r: nat)
    requires i <= r < |buf| && buf[r] == tag && At(buf, r + 1) == '='
    requires forall j :: i <= j < r ==> !(buf[j] == tag && At(buf, j + 1) == '=')
    ensures SeekTag(buf, tag, i) == r
    decreases r - i
  {
    if i < r {
      SeekTagIs(buf, tag, i + 1, r);
    }
  }

  predicate PadOk(pad: string, next: char) {
    next !in pad && (pad != "" ==> !IsDigit(pad[0], 10))
  }

  lemma DecChars(n: int)
    ensures forall i :: 0 <= i < |Dec(n)| ==> Dec(n)[i] == '-' || IsDigit(Dec(n)[i], 10)
  {
  }

  /** A `%d` followed by a pad and a letter: the number is read and the search
      finds the letter. */
  lemma NumberThenTag(buf: string, i: nat, n: int, pad: string, tag: char)
    requires PadOk(pad, tag) && !IsDigit(tag, 10) && tag != '-'
    requires Stands(buf, i, Dec(n)) && Stands(buf, i + |Dec(n)|, pad)
    requires Stands(buf, i + |Dec(n)| + |pad|, [tag, '='])
    ensures ScanDec(buf, i) == Some(n)
    ensures Seek(buf, tag, i) == i + |Dec(n)| + |pad|
  {
    var d := i + |Dec(n)|;
    var q := d + |pad|;
    StandsAt(buf, q, [tag, '='], 0);
    if pad != "" {
      StandsAt(buf, d, pad, 0);
    }
    DecRoundTrip(buf, i, n);
    DecChars(n);
    forall j | i <= j < q
      ensures buf[j] != tag
    {
      if j < d {
        StandsAt(buf, i, Dec(n), j - i);
      } else {
        StandsAt(buf, d, pad, j - d);
      }
    }
    SeekIs(buf, tag, i, q);
  }

  /** `count` bytes written as two hex digits each; None when a conversion
      fails. */
  function ScanBytes(buf: string, start: nat, count: nat): (r: Option<seq<byte>>)
    ensures r.Some? ==> |r.value| == count
    decreases count
  {
    if count == 0 then Some([])
    else
      var first := ScanHex(buf, start, 2);
      Join(if first.Some? then Some([first.value % 256]) else None, ScanBytes(buf, start + 2, count - 1))
  }

  function Join(a: Option<seq<byte>>, b: Option<seq<byte>>): Option<seq<byte>> {
    if a.Some? && b.Some? then Some(a.value + b.value) else None
  }

  lemma JoinAssociative(a: Option<seq<byte>>, b: Option<seq<byte>>, c: Option<seq<byte>>)
    ensures Join(Join(a, b), c) == Join(a, Join(b, c))
    ensures Join(Some([]), a) == a && Join(a, Some([])) == a
  {
    if a.Some? && b.Some? && c.Some? {
      assert (a.value + b.value) + c.value == a.value + (b.value + c.value);
    }
    if a.Some? {
      assert [] + a.value == a.value && a.value + [] == a.value;
    }
  }

  lemma ScanBytesStep(buf: string, i: nat, b: byte, rest: seq<byte>)
    requires ScanHex(buf, i, 2) == Some(b) && ScanBytes(buf, i + 2, |rest|) == Some(rest)
    ensures ScanBytes(buf, i, |rest| + 1) == Some([b] + rest)
  {
    assert b % 256 == b;
  }

  lemma {:induction false} BytesRoundTrip(buf: string, i: nat, bs: seq<byte>, upper: bool)
    requires Stands(buf, i, HexBytes(bs, upper))
    ensures ScanBytes(buf, i, |bs|) == Some(bs)
    decreases |bs|
  {
    if bs != [] {
      StandsParts(buf, i, Hex2(bs[0], upper), HexBytes(bs[1..], upper));
      Hex2RoundTrip(buf, i, bs[0], upper);
      BytesRoundTrip(buf, i + 2, bs[1..], upper);
      ScanBytesStep(buf, i, bs[0], bs[1..]);
      assert [bs[0]] + bs[1..] == bs;
    }
  }

  lemma {:induction false} HexBytesDigits(bs: seq<byte>, upper: bool)
    ensures forall i :: 0 <= i < |HexBytes(bs, upper)| ==> IsDigit(HexBytes(bs, upper)[i], 16)
  {
    if bs != [] {
      DigitRoundTrip(bs[0] / 16, upper);
      DigitRoundTrip(bs[0] % 16, upper);
      HexBytesDigits(bs[1..], upper);
    }
  }

  /** What a search yields: how far to move on, and the bytes when it got as far
      as converting them. */
  datatype Field = Field(end: nat, bytes: Option<seq<byte>>)

  function FindField(buf: string, tag: char, count: nat): Field {
    if |buf| == 0 then Field(0, None)
    else
      var idx := SeekTag(buf, tag, 0);
      var end := Seek(buf, ',', idx);
      if end == |buf| then Field(0, None) else Field(end, ScanBytes(buf, idx + 2, count))
  }

  /** The shared body of `find_stream_id` and `find_dst`. */
  method FindHexField(buf: string, tag: char, count: nat) returns (f: Field)
    ensures f == FindField(buf, tag, count)
  {
    var len := |buf|;
    var idx := 0;
    while !(At(buf, idx) == tag && At(buf, idx + 1) == '=') && idx + 1 < len
      invariant idx <= len && (len > 0 ==> idx < len && SeekTag(buf, tag, idx) == SeekTag(buf, tag, 0))
    {
      idx := idx + 1;
    }
    if idx == len {
      return Field(0, None);
    }
    var start := idx + 2;
    ghost var found := idx;
    while idx < len && buf[idx] != ','
      invariant found <= idx <= len && Seek(buf, ',', idx) == Seek(buf, ',', found)
    {
      idx := idx + 1;
    }
    if idx == len {
      return Field(0, None);
    }
    var end := idx;
    var bytes := ScanHexBytes(buf, start, count);
    return Field(end, bytes);
  }

  /** The conversion loop of both. */
  method ScanHexBytes(buf: string, start: nat, count: nat) returns (bytes: Option<seq<byte>>)
    ensures bytes == ScanBytes(buf, start, count)
  {
    hide ScanHex, Join;
    bytes := Some([]);
    JoinAssociative(ScanBytes(buf, start, count), None, None);
    for i := 0 to count
      invariant ScanBytes(buf, start, count) == Join(bytes, ScanBytes(buf, start + i * 2, count - i))
    {
      var id := ScanHex(buf, start + i * 2, 2);
      var one := if id.Some? then Some([id.value % 256]) else None;
      JoinAssociative(bytes, one, ScanBytes(buf, start + i * 2 + 2, count - i - 1));
      bytes := Join(bytes, one);
    }
    JoinAssociative(bytes, None, None);
  }

  /** `find_stream_id`: nothing is looked for in less than two characters. */
  method FindStreamId(buf: string) returns (f: Field)
    ensures f == if |buf| < 2 then Field(0, None) else FindField(buf, 'S', 8)
  {
    if |buf| < 2 {
      return Field(0, None);
    }
    f := FindHexField(buf, 'S', 8);
  }

  /** `find_dst`. */
  method FindDst(buf: string) returns (f: Field)
    ensures f == FindField(buf, 'A', 6)
  {
    f := FindHexField(buf, 'A', 6);
  }

  /** A tagged run of bytes is found and read whatever surrounds it, provided the
      tag does not occur before. */
  lemma FieldRoundTrip(buf: string, p: nat, tag: char, bs: seq<byte>, upper: bool)
    requires tag != ','
    requires forall j :: 0 <= j < p && j < |buf| ==> !(buf[j] == tag && At(buf, j + 1) == '=')
    requires Stands(buf, p, [tag, '=']) && Stands(buf, p + 2, HexBytes(bs, upper))
    requires Stands(buf, p + 2 + 2 * |bs|, ",")
    ensures FindField(buf, tag, |bs|) == Field(p + 2 + 2 * |bs|, Some(bs))
  {
    StandsAt(buf, p, [tag, '='], 0);
    StandsAt(buf, p, [tag, '='], 1);
    SeekTagIs(buf, tag, 0, p);
    HexThenComma(buf, p + 2, HexBytes(bs, upper), bs, upper);
    SeekIs(buf, ',', p, p + 2 + 2 * |bs|);
    BytesRoundTrip(buf, p + 2, bs, upper);
  }

  lemma HexThenComma(buf: string, i: nat, t: string, bs: seq<byte>, upper: bool)
    requires t == HexBytes(bs, upper) && Stands(buf, i, t) && Stands(buf, i + |t|, ",")
    ensures buf[i + |t|] == ',' && forall j :: i <= j < i + |t| ==> buf[j] != ','
  {
    StandsAt(buf, i + |t|, ",", 0);
    HexBytesDigits(bs, upper);
    forall j | i <= j < i + |t|
      ensures buf[j] != ','
    {
      StandsAt(buf, i, t, j - i);
    }
  }

  /** Where the pieces of a declaration stand, from position `p` on. */
  lemma Layout(buf: string, p: nat, a: string, b: string)
    requires |a| == 16 && |b| == 12 && Stands(buf, p, "S=" + a + ",A=" + b + ",")
    ensures Stands(buf, p, "S=") && Stands(buf, p + 2, a) && Stands(buf, p + 18, ",")
    ensures Stands(buf, p + 19, "A=") && Stands(buf, p + 21, b) && Stands(buf, p + 33, ",")
  {
    StandsParts(buf, p, "S=" + a + ",A=" + b, ",");
    StandsParts(buf, p, "S=" + a + ",A=", b);
    assert "S=" + a + ",A=" == "S=" + a + "," + "A=";
    StandsParts(buf, p, "S=" + a + ",", "A=");
    StandsParts(buf, p, "S=" + a, ",");
    StandsParts(buf, p, "S=", a);
  }

  lemma StandsInSuffix(buf: string, from: nat, i: nat, t: string)
    requires from <= i && Stands(buf, i, t)
    ensures Stands(buf[from..], i - from, t)
  {
  }

  /** Round trip: in the text of any declaration, whatever comes before and
      after, the two searches recover stream ID and destination exactly. */
  lemma DeclarationRoundTrip(buf: string, p: nat, sid: seq<byte>, dst: seq<byte>, upper: bool)
    requires |sid| == 8 && |dst| == 6
    requires Stands(buf, p, "S=" + HexBytes(sid, upper) + ",A=" + HexBytes(dst, upper) + ",")
    requires forall j :: 0 <= j < p ==> !(buf[j] == 'S' && At(buf, j + 1) == '=')
    ensures FindField(buf, 'S', 8) == Field(p + 18, Some(sid))
    ensures FindField(buf[p + 18..], 'A', 6) == Field(15, Some(dst))
  {
    Layout(buf, p, HexBytes(sid, upper), HexBytes(dst, upper));
    FieldRoundTrip(buf, p, 'S', sid, upper);
    DstRoundTrip(buf, p + 18, dst, upper);
  }

  lemma DstRoundTrip(buf: string, q: nat, dst: seq<byte>, upper: bool)
    requires |dst| == 6 && Stands(buf, q, ",") && Stands(buf, q + 1, "A=")
    requires Stands(buf, q + 3, HexBytes(dst, upper)) && Stands(buf, q + 15, ",")
    ensures FindField(buf[q..], 'A', 6) == Field(15, Some(dst))
  {
    StandsInSuffix(buf, q, q, ",");
    StandsInSuffix(buf, q, q + 1, "A=");
    StandsInSuffix(buf, q, q + 3, HexBytes(dst, upper));
    StandsInSuffix(buf, q, q + 15, ",");
    StandsAt(buf[q..], 0, ",", 0);
    FieldRoundTrip(buf[q..], 1, 'A', dst, upper);
  }

  /** The library's own messages are of that form. */
  lemma StreamMessageRoundTrip(advertise: bool, sid: seq<byte>, dst: seq<byte>,
                               vid: int, pktsz: int, interval: int, prio: int, latency: int)
    requires |sid| == 8 && |dst| == 6
    requires IsInt32(pktsz) && IsInt32(interval) && IsInt32(latency)
    ensures var msg := StreamMessage(advertise, sid, dst, vid, pktsz, interval, prio, latency);
            var f := FindField(msg, 'S', 8);
            && f.bytes == Some(sid) && f.end <= |msg|
            && FindField(msg[f.end..], 'A', 6).bytes == Some(dst)
  {
    StreamMessageFits(advertise, sid, dst, vid, pktsz, interval, prio, latency);
    var msg := StreamMessage(advertise, sid, dst, vid, pktsz, interval, prio, latency);
    StreamTextLayout(advertise, HexBytes(sid, true), HexBytes(dst, true),
                     StreamTail(vid, pktsz, interval, prio, latency), msg);
    DeclarationRoundTrip(msg, 4, sid, dst, true);
  }

  lemma StreamTextLayout(advertise: bool, a: string, b: string, tail: string, msg: string)
    requires |a| == 16 && |b| == 12
    requires msg == (if advertise then "S++:" else "S--:") + "S=" + a + ",A=" + b + "," + tail
    ensures Stands(msg, 4, "S=" + a + ",A=" + b + ",")
    ensures forall j :: 0 <= j < 4 ==> !(msg[j] == 'S' && At(msg, j + 1) == '=')
  {
  }

  // ---------------------------------------------------------------------
  // The other fields

  datatype Traffic = Traffic(vid: int, pktsz: int, interval: int, rank: int, latency: int)

  /** Reference reading of the fields behind the destination, tag by tag. */
  function ReadTail(buf: string, v: nat): Option<Traffic> {
    if v + 2 > |buf| then None
    else
      var z := Seek(buf, 'Z', v + 2);
      if z + 2 > |buf| then None
      else
        var i := Seek(buf, 'I', z + 2);
        if i + 2 > |buf| then None
        else
          var p := Seek(buf, 'P', i + 2);
          if p + 2 > |buf| then None
          else
            var l := Seek(buf, 'L', p + 2);
            if l + 2 > |buf| then None
            else
              var vid := ScanVid(buf, v + 2);
              var pktsz, interval := ScanDec(buf, z + 2), ScanDec(buf, i + 2);
              var rank, latency := ScanDec(buf, p + 2), ScanDec(buf, l + 2);
              if vid.Some? && pktsz.Some? && interval.Some? && rank.Some? && latency.Some?
              then Some(Traffic(vid.value, pktsz.value, interval.value, rank.value, latency.value))
              else None
  }

  /** Where the pieces of a tail stand. */
  lemma TailLayout(buf: string, v: nat, vid: string, pktsz: string, interval: string, prio: string, latency: string)
    returns (z: nat, i: nat, p: nat, l: nat)
    requires Stands(buf, v, TailText(vid, pktsz, interval, prio, latency))
    ensures z == v + 2 + |vid| + 1 && i == z + 2 + |pktsz| + 1
    ensures p == i + 2 + |interval| + 1 && l == p + 2 + |prio| + 1
    ensures Stands(buf, v + 2, vid) && Stands(buf, v + 2 + |vid|, ",") && Stands(buf, z, "Z=")
    ensures Stands(buf, z + 2, pktsz) && Stands(buf, z + 2 + |pktsz|, ",") && Stands(buf, i, "I=")
    ensures Stands(buf, i + 2, interval) && Stands(buf, i + 2 + |interval|, ",") && Stands(buf, p, "P=")
    ensures Stands(buf, p + 2, prio) && Stands(buf, p + 2 + |prio|, ",") && Stands(buf, l, "L=")
    ensures Stands(buf, l + 2, latency)
  {
    hide Stands;
    var t4 := "L=" + latency;
    var t3 := "P=" + (prio + ("," + t4));
    var t2 := "I=" + (interval + ("," + t3));
    var t1 := "Z=" + (pktsz + ("," + t2));
    z := ValueLayout(buf, v, "V=", vid, t1);
    i := ValueLayout(buf, z, "Z=", pktsz, t2);
    p := ValueLayout(buf, i, "I=", interval, t3);
    l := ValueLayout(buf, p, "P=", prio, t4);
    StandsParts(buf, l, "L=", latency);
  }

  lemma ValueLayout(buf: string, i: nat, tag: string, value: string, rest: string) returns (next: nat)
    requires |tag| == 2 && Stands(buf, i, tag + (value + ("," + rest)))
    ensures next == i + 2 + |value| + 1
    ensures Stands(buf, i, tag) && Stands(buf, i + 2, value) && Stands(buf, i + 2 + |value|, ",")
    ensures Stands(buf, next, rest)
  {
    hide Stands;
    next := i + 2 + |value| + 1;
    StandsParts(buf, i, tag, value + ("," + rest));
    StandsParts(buf, i + 2, value, "," + rest);
    StandsParts(buf, i + 2 + |value|, ",", rest);
  }

  /** A VLAN followed by a comma and a tag beyond the hex digits. */
  lemma VidThenTag(buf: string, i: nat, vid: int)
    requires IsInt32(vid) && Stands(buf, i, Hex4(vid, true)) && Stands(buf, i + |Hex4(vid, true)|, ",")
    requires Stands(buf, i + |Hex4(vid, true)| + 1, "Z=")
    ensures ScanVid(buf, i) == Some(vid) && Seek(buf, 'Z', i) == i + |Hex4(vid, true)| + 1
  {
    var t := Hex4(vid, true);
    StandsAt(buf, i + |t|, ",", 0);
    StandsAt(buf, i + |t| + 1, "Z=", 0);
    VidRoundTrip(buf, i, vid, true);
    Hex4Facts(vid, true);
    forall j | i <= j < i + |t| + 1
      ensures buf[j] != 'Z'
    {
      if j < i + |t| {
        StandsAt(buf, i, t, j - i);
      }
    }
    SeekIs(buf, 'Z', i, i + |t| + 1);
  }

  lemma LastNumber(buf: string, i: nat, n: int)
    requires Stands(buf, i, Dec(n)) && i + |Dec(n)| == |buf|
    ensures ScanDec(buf, i) == Some(n)
  {
    DecRoundTrip(buf, i, n);
  }

  /** VLAN, frame size, interval, priority times 32 and latency of a declaration
      are all recovered, each from its own tag. */
  lemma StreamTailRoundTrip(buf: string, v: nat, t: Traffic, prio: int)
    requires IsInt32(t.vid) && t.rank == I32(prio * 32)
    requires Stands(buf, v, StreamTail(t.vid, t.pktsz, t.interval, prio, t.latency))
    requires |buf| == v + |StreamTail(t.vid, t.pktsz, t.interval, prio, t.latency)|
    ensures ReadTail(buf, v) == Some(t)
  {
    hide Dec, Hex4, ScanDec, ScanVid, Seek, I32, ReadTail, Stands;
    var z, i, p, l := TailLayout(buf, v, Hex4(t.vid, true), Dec(t.pktsz), Dec(t.interval), Dec(t.rank), Dec(t.latency));
    VidThenTag(buf, v + 2, t.vid);
    NumberThenTag(buf, z + 2, t.pktsz, ",", 'I');
    NumberThenTag(buf, i + 2, t.interval, ",", 'P');
    NumberThenTag(buf, p + 2, t.rank, ",", 'L');
    LastNumber(buf, l + 2, t.latency);
    StandsWithin(buf, l, "L=");
    TailCombine(buf, t, v, z, i, p, l);
  }

  lemma StandsWithin(buf: string, i: nat, t: string)
    requires Stands(buf, i, t)
    ensures i + |t| <= |buf|
  {
  }

  lemma TailCombine(buf: string, t: Traffic, v: nat, z: nat, i: nat, p: nat, l: nat)
    requires v + 2 <= z && z + 2 <= i && i + 2 <= p && p + 2 <= l && l + 2 <= |buf|
    requires ScanVid(buf, v + 2) == Some(t.vid) && Seek(buf, 'Z', v + 2) == z
    requires ScanDec(buf, z + 2) == Some(t.pktsz) && Seek(buf, 'I', z + 2) == i
    requires ScanDec(buf, i + 2) == Some(t.interval) && Seek(buf, 'P', i + 2) == p
    requires ScanDec(buf, p + 2) == Some(t.rank) && Seek(buf, 'L', p + 2) == l
    requires ScanDec(buf, l + 2) == Some(t.latency)
    ensures ReadTail(buf, v) == Some(t)
  {
    hide ScanDec, ScanVid, Seek;
  }

  /** In the library's own message they stand from position 38 on. */
  lemma StreamMessageTail(advertise: bool, sid: seq<byte>, dst: seq<byte>, t: Traffic, prio: int)
    requires |sid| == 8 && |dst| == 6 && IsInt32(t.vid) && t.rank == I32(prio * 32)
    requires IsInt32(t.pktsz) && IsInt32(t.interval) && IsInt32(t.latency)
    ensures ReadTail(StreamMessage(advertise, sid, dst, t.vid, t.pktsz, t.interval, prio, t.latency), 38) == Some(t)
  {
    hide HexBytes, StreamTail, ReadTail;
    StreamMessageFits(advertise, sid, dst, t.vid, t.pktsz, t.interval, prio, t.latency);
    var tail := StreamTail(t.vid, t.pktsz, t.interval, prio, t.latency);
    var head := (if advertise then "S++:" else "S--:") + "S=" + HexBytes(sid, true) + ",A=" + HexBytes(dst, true) + ",";
    StandsBehind(head, tail);
    StreamTailRoundTrip(head + tail, 38, t, prio);
  }
}
