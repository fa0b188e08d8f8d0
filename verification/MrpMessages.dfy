/** The texts that the messages of a handler's trace are sent as, and that they
    tell what was meant. */
module MrpMessages {
  import opened MachineInts
  import opened MrpText
  import opened MrpStream
  import opened Lifecycle

  /** What else goes into a stream declaration. */
  datatype Traits = Traits(dst: seq<byte>, vid: int, pktsz: int, interval: int, prio: int, latency: int) {
    predicate Fits() {
      |dst| == 6 && IsInt32(pktsz) && IsInt32(interval) && IsInt32(latency)
    }
  }

  /** The text of a message: `nc_mrp_advertise_stream_class_a`,
      `nc_mrp_unadvertise_stream_class_a`, `nc_mrp_send_ready` and
      `nc_mrp_send_leave`. */
  function TextOf(msg: Msg, sid: nat, p: Traits): string {
    match msg
    case Advertise => StreamMessage(true, ToLE(sid, 8), p.dst, p.vid, p.pktsz, p.interval, p.prio, p.latency)
    case Unadvertise => StreamMessage(false, ToLE(sid, 8), p.dst, p.vid, p.pktsz, p.interval, p.prio, p.latency)
    case ListenerReady => ListenerMessage(true, ToLE(sid, 8))
    case ListenerLeave => ListenerMessage(false, ToLE(sid, 8))
  }

  lemma ListenerParts(join: bool, sid: seq<byte>)
    requires |sid| == 8
    ensures var t := ListenerMessage(join, sid);
            && |t| == 27 && t[..6] == (if join then "S+L:L=" else "S-L:L=")
            && t[6..22] == HexBytes(sid, false) && t[22..] == (if join then ", D=2" else ", D=3")
  {
  }

  /** The first four characters tell the kind of a message, and behind the next
      two the stream can be read. */
  lemma TextTells(msg: Msg, sid: nat, p: Traits)
    requires p.Fits() && sid < TWO64
    ensures var t := TextOf(msg, sid, p);
            && |t| >= 22
            && t[..4] == (match msg
                          case Advertise => "S++:"
                          case Unadvertise => "S--:"
                          case ListenerReady => "S+L:"
                          case ListenerLeave => "S-L:")
            && var bytes := ScanBytes(t, 6, 8); bytes.Some? && FromLE(bytes.value) == sid
  {
    hide HexBytes, ScanBytes, StreamMessage, ListenerMessage, ToLE, FromLE;
    var bs := ToLE(sid, 8);
    Pow256Values();
    LERoundTrip(sid, 8);
    StreamMessageKind(bs, p.dst, p.vid, p.pktsz, p.interval, p.prio, p.latency);
    ListenerParts(true, bs);
    ListenerParts(false, bs);
    var t := TextOf(msg, sid, p);
    var upper := msg == Advertise || msg == Unadvertise;
    if msg == Unadvertise {
      var up := StreamMessage(true, bs, p.dst, p.vid, p.pktsz, p.interval, p.prio, p.latency);
      assert t[6..22] == t[4..][2..18] == up[4..][2..18] == up[6..22];
    }
    if !upper {
      assert t[..4] == t[..6][..4];
    }
    assert Stands(t, 6, HexBytes(bs, upper));
    BytesRoundTrip(t, 6, bs, upper);
  }

  /** So two messages sent as the same text are the same message about the same
      stream, whatever the streams' traits. */
  lemma TextDetermines(m1: Msg, s1: nat, p1: Traits, m2: Msg, s2: nat, p2: Traits)
    requires p1.Fits() && p2.Fits() && s1 < TWO64 && s2 < TWO64
    requires TextOf(m1, s1, p1) == TextOf(m2, s2, p2)
    ensures m1 == m2 && s1 == s2
  {
    hide TextOf, ScanBytes;
    TextTells(m1, s1, p1);
    TextTells(m2, s2, p2);
    KindsDiffer();
  }

  lemma KindsDiffer()
    ensures "S++:" != "S--:" && "S++:" != "S+L:" && "S++:" != "S-L:"
    ensures "S--:" != "S+L:" && "S--:" != "S-L:" && "S+L:" != "S-L:"
  {
    assert "S++:"[1] == '+' && "S--:"[1] == '-' && "S+L:"[1] == '+' && "S-L:"[1] == '-';
    assert "S++:"[2] == '+' && "S--:"[2] == '-' && "S+L:"[2] == 'L' && "S-L:"[2] == 'L';
  }
}
