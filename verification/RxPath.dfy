/** From the receive thread to the reader (src/netchan.c, `nh_feed_pdu_ts`,
    `nh_std_cb`, `_chan_read`, `chan_stop`, `nh_remove_rx`), with each channel's
    pipe as the bytes in it.

    A read is two steps: entering, which checks the channel, and finishing, once
    the pipe has bytes.  Everything else may happen in between. */
module RxPath {
  import opened MachineInts
  import opened AvtpFrame
  import opened StreamTable
  import CaptureTime

  // ---------------------------------------------------------------------
  // Pipe records

  const META_SZ: nat := 20

  /** What a callback publishes and a reader gets: `struct pipe_meta`. */
  datatype Sample = Sample(hwNs: nat, ptpNs: nat, stamp: nat, payload: seq<byte>) {
    predicate Fits(size: nat) {
      hwNs < TWO64 && ptpNs < TWO64 && stamp < TWO32 && |payload| == size
    }
  }

  function Encode(x: Sample): (r: seq<byte>)
    ensures |r| == META_SZ + |x.payload|
  {
    ToLE(x.hwNs, 8) + ToLE(x.ptpNs, 8) + ToLE(x.stamp, 4) + x.payload
  }

  function Decode(r: seq<byte>): Sample
    requires |r| >= META_SZ
  {
    Sample(FromLE(r[..8]), FromLE(r[8..16]), FromLE(r[16..20]), r[20..])
  }

  lemma Parts(a: seq<byte>, b: seq<byte>, c: seq<byte>, d: seq<byte>)
    requires |a| == 8 && |b| == 8 && |c| == 4
    ensures var r := a + b + c + d;
            r[..8] == a && r[8..16] == b && r[16..20] == c && r[20..] == d
  {
  }

  /** What a callback writes into the pipe, a reader reads out of it. */
  lemma RecordRoundTrip(x: Sample)
    requires x.Fits(|x.payload|)
    ensures Decode(Encode(x)) == x
  {
    Pow256Values();
    LERoundTrip(x.hwNs, 8);
    LERoundTrip(x.ptpNs, 8);
    LERoundTrip(x.stamp, 4);
    Parts(ToLE(x.hwNs, 8), ToLE(x.ptpNs, 8), ToLE(x.stamp, 4), x.payload);
  }

  /** Where the fields of a record stand. */
  lemma RecordLayout(x: Sample)
    ensures var r := Encode(x);
            && |r| == 20 + |x.payload| && r[..8] == ToLE(x.hwNs, 8) && r[8..16] == ToLE(x.ptpNs, 8)
            && r[16..20] == ToLE(x.stamp, 4) && r[20..] == x.payload
  {
    Parts(ToLE(x.hwNs, 8), ToLE(x.ptpNs, 8), ToLE(x.stamp, 4), x.payload);
  }

  function EncodeAll(xs: seq<Sample>): seq<byte> {
    if xs == [] then [] else Encode(xs[0]) + EncodeAll(xs[1..])
  }

  lemma Associative(a: seq<byte>, b: seq<byte>, c: seq<byte>)
    ensures a + (b + c) == (a + b) + c
  {
  }

  lemma {:induction false} EncodeAllAppend(xs: seq<Sample>, x: Sample)
    ensures EncodeAll(xs + [x]) == EncodeAll(xs) + Encode(x)
  {
    if xs == [] {
      assert [x][1..] == [];
    } else {
      EncodeAllAppend(xs[1..], x);
      assert (xs + [x])[1..] == xs[1..] + [x];
      Associative(Encode(xs[0]), EncodeAll(xs[1..]), Encode(x));
    }
  }

  // ---------------------------------------------------------------------
  // One Rx channel

  /** `attached` is a non-NULL handler pointer; `got` is what its reads have
      returned so far. */
  datatype Rx = Rx(sid: nat, size: nat, pipe: seq<byte>, meta: seq<byte>, attached: bool,
                   ready: bool, stopping: bool, waiting: bool, got: seq<Sample>) {
    predicate WellFormed() {
      |meta| == META_SZ + size
    }

    /** The part of `chan_valid` that varies for an Rx channel. */
    predicate Usable() {
      attached && ready && sid != 0 && size > 0
    }

    function SampleOf(frame: seq<byte>, hwNs: nat, ptpNs: nat): Sample {
      Sample(hwNs, ptpNs, StampOf(frame), BodyOf(frame, size))
    }

    /** `nh_feed_pdu_ts` after the lookup, with `nh_std_cb`. */
    function Publish(frame: seq<byte>, hwNs: nat, ptpNs: nat): Rx {
      var record := Encode(SampleOf(frame, hwNs, ptpNs));
      this.(meta := record, pipe := pipe + record)
    }

    /** `_chan_read` up to the blocking read. */
    function Enter(): Rx {
      if !Usable() || stopping then this else this.(waiting := true)
    }

    /** `_chan_read` from the blocking read on; it stays blocked while there is
        nothing in the pipe. */
    function Finish(): Rx
      requires WellFormed()
    {
      if !waiting || pipe == [] then this
      else
        var n := if |pipe| < META_SZ + size then |pipe| else META_SZ + size;
        var buf := pipe[..n] + meta[n..];
        var after := this.(pipe := pipe[n..], meta := buf, waiting := false);
        if after.Usable() then after.(got := got + [Decode(buf)]) else after
    }

    /** A notification sets or clears `ready`. */
    function Notify(isReady: bool): Rx {
      this.(ready := isReady)
    }

    /** `nh_remove_rx` of a listed channel: the table entry stays. */
    function Remove(): Rx {
      this.(attached := false)
    }

    /** `chan_stop`: kicks a blocked reader with `size` zero bytes; does nothing
        to a removed channel. */
    function Stop(): Rx {
      if !attached then this
      else if stopping then this.(ready := false)
      else this.(ready := false, stopping := true, pipe := pipe + seq(size, _ => 0))
    }
  }

  function NewRx(sid: nat, size: nat, memory: seq<byte>, ready: bool): Rx {
    Rx(sid, size, [], memory, true, ready, false, false, [])
  }

  // ---------------------------------------------------------------------
  // The handler

  datatype Event =
    | Open(sid: nat, size: nat, memory: seq<byte>, srp: bool)
    | Feed(frame: seq<byte>, hwNs: nat, ptpNs: nat)
    | EnterRead(ch: nat)
    | FinishRead(ch: nat)
    | Notified(ch: nat, isReady: bool)
    | StopChannel(ch: nat)
    | Removed(ch: nat)

  /** Receive buffer of `nh_runner` behind the Ethernet header. */
  const RX_BUFFER_SZ: nat := 1522 - 14

  /** What callers and the kernel guarantee: admitted sizes, a whole receive
      buffer, 64-bit clocks. */
  predicate Legal(e: Event) {
    match e
    case Open(sid, size, memory, _) => sid < TWO64 && 1 <= size <= 1476 && |memory| == META_SZ + size
    case Feed(frame, hwNs, ptpNs) => |frame| == RX_BUFFER_SZ && hwNs < TWO64 && ptpNs < TWO64
    case _ => true
  }

  datatype Handler = Handler(table: seq<Slot>, chans: seq<Rx>) {
    predicate WellFormed() {
      && (forall c :: 0 <= c < |chans| ==> chans[c].WellFormed() && 1 <= chans[c].size <= 1476)
      && (forall i :: 0 <= i < |table| && table[i].Used? ==> table[i].owner < |chans|)
    }
  }

  function Step(h: Handler, e: Event): (t: Handler)
    requires h.WellFormed() && Legal(e)
    ensures t.WellFormed() && |t.table| == |h.table|
  {
    match e
    case Open(sid, size, memory, srp) =>
      Handler(Register(h.table, sid, |h.chans|), h.chans + [NewRx(sid, size, memory, !srp)])
    case Feed(frame, hwNs, ptpNs) =>
      var i := Lookup(h.table, StreamIdOf(frame));
      if i < 0 then h
      else
        var o := h.table[i].owner;
        h.(chans := h.chans[o := h.chans[o].Publish(frame, hwNs, ptpNs)])
    case EnterRead(c) => if c < |h.chans| then h.(chans := h.chans[c := h.chans[c].Enter()]) else h
    case FinishRead(c) => if c < |h.chans| then h.(chans := h.chans[c := h.chans[c].Finish()]) else h
    case Notified(c, r) => if c < |h.chans| then h.(chans := h.chans[c := h.chans[c].Notify(r)]) else h
    case StopChannel(c) => if c < |h.chans| then h.(chans := h.chans[c := h.chans[c].Stop()]) else h
    case Removed(c) => if c < |h.chans| then h.(chans := h.chans[c := h.chans[c].Remove()]) else h
  }

  predicate LegalRun(es: seq<Event>) {
    forall i :: 0 <= i < |es| ==> Legal(es[i])
  }

  /** The state after a run on a handler with `n` table slots. */
  function Run(n: nat, es: seq<Event>): (h: Handler)
    requires LegalRun(es)
    ensures h.WellFormed() && |h.table| == n
  {
    if es == [] then Handler(EmptyTable(n), [])
    else Step(Run(n, es[..|es| - 1]), es[|es| - 1])
  }

  // ---------------------------------------------------------------------
  // What was fed, told from the events alone

  function Opens(es: seq<Event>): (rs: seq<Event>)
    ensures forall i :: 0 <= i < |rs| ==> rs[i].Open?
  {
    if es == [] then []
    else
      var last := es[|es| - 1];
      Opens(es[..|es| - 1]) + (if last.Open? then [last] else [])
  }

  /** The samples of the frames that arrived for channel `c`'s stream since it
      was opened. */
  function Fed(es: seq<Event>, c: nat): seq<Sample> {
    if es == [] then []
    else
      var past := es[..|es| - 1];
      var last := es[|es| - 1];
      if last.Feed? && c < |Opens(past)| && StreamIdOf(last.frame) == Opens(past)[c].sid
      then Fed(past, c) + [Sample(last.hwNs, last.ptpNs, StampOf(last.frame), BodyOf(last.frame, Opens(past)[c].size))]
      else Fed(past, c)
  }

  /** No other channel of the handler has this one's stream. */
  predicate OnlyReceiver(es: seq<Event>, c: nat) {
    c < |Opens(es)| && forall d :: 0 <= d < |Opens(es)| && d != c ==> Opens(es)[d].sid != Opens(es)[c].sid
  }

  // ---------------------------------------------------------------------
  // The table after a run

  function Requests(es: seq<Event>): (rs: seq<Request>)
    ensures |rs| == |Opens(es)|
  {
    var os := Opens(es);
    seq(|os|, i requires 0 <= i < |os| => Request(os[i].sid, i))
  }

  lemma StepChannels(h: Handler, e: Event)
    requires h.WellFormed() && Legal(e)
    ensures var t := Step(h, e);
            && |t.chans| == |h.chans| + (if e.Open? then 1 else 0)
            && (forall c :: 0 <= c < |h.chans| ==>
                  t.chans[c].sid == h.chans[c].sid && t.chans[c].size == h.chans[c].size)
            && (e.Open? ==> t.chans[|h.chans|].sid == e.sid && t.chans[|h.chans|].size == e.size)
  {
    hide Encode, Decode;
  }

  lemma {:induction false} RunChannels(n: nat, es: seq<Event>)
    requires LegalRun(es)
    ensures |Run(n, es).chans| == |Opens(es)|
    ensures forall c :: 0 <= c < |Opens(es)| ==>
              Run(n, es).chans[c].sid == Opens(es)[c].sid && Run(n, es).chans[c].size == Opens(es)[c].size
  {
    hide Step;
    if es != [] {
      RunChannels(n, es[..|es| - 1]);
      StepChannels(Run(n, es[..|es| - 1]), es[|es| - 1]);
    }
  }

  lemma {:induction false} RunTable(n: nat, es: seq<Event>)
    requires LegalRun(es)
    ensures Run(n, es).table == Build(n, Requests(es))
  {
    if es != [] {
      var past := es[..|es| - 1];
      var last := es[|es| - 1];
      RunTable(n, past);
      RunChannels(n, past);
      if last.Open? {
        assert Requests(es)[..|Requests(past)|] == Requests(past);
        assert Requests(es)[|Requests(past)|] == Request(last.sid, |Opens(past)|);
      } else {
        assert Requests(es) == Requests(past);
      }
    }
  }

  /** Dispatch: a frame reaches channel `c` exactly when it carries its stream. */
  lemma Dispatch(n: nat, es: seq<Event>, c: nat, q: nat)
    requires LegalRun(es) && OnlyReceiver(es, c) && c < n
    ensures var i := Lookup(Run(n, es).table, q);
            q == Opens(es)[c].sid <==> i >= 0 && Run(n, es).table[i].owner == c
  {
    var reqs := Requests(es);
    RunTable(n, es);
    FirstWins(n, reqs, q);
    var k := First(Granted(n, reqs), q);
    if q == Opens(es)[c].sid {
      assert Granted(n, reqs)[c].sid == q;
      assert k == c;
    }
  }

  // ---------------------------------------------------------------------
  // What reads take out of the pipe

  /** A read that ends here takes a sample: the reader is blocked, there are
      bytes and no stop has come. */
  predicate Takes(rx: Rx) {
    rx.waiting && rx.pipe != [] && !rx.stopping
  }

  /** How many samples reads have taken from channel `c`, returned or not. */
  function Taken(n: nat, es: seq<Event>, c: nat): nat
    requires LegalRun(es)
  {
    if es == [] then 0
    else
      var past := es[..|es| - 1];
      var h := Run(n, past);
      Taken(n, past, c) +
      (if es[|es| - 1] == FinishRead(c) && c < |h.chans| && Takes(h.chans[c]) then 1 else 0)
  }

  /** Which of the samples taken were taken while the channel was usable. */
  function Kept(n: nat, es: seq<Event>, c: nat): seq<nat>
    requires LegalRun(es)
  {
    if es == [] then []
    else
      var past := es[..|es| - 1];
      var h := Run(n, past);
      Kept(n, past, c) +
      (if es[|es| - 1] == FinishRead(c) && c < |h.chans| && Takes(h.chans[c]) && h.chans[c].Usable()
       then [Taken(n, past, c)] else [])
  }

  predicate Ascending(s: seq<nat>, bound: nat) {
    && (forall i, j :: 0 <= i < j < |s| ==> s[i] < s[j])
    && (forall i :: 0 <= i < |s| ==> s[i] < bound)
  }

  /** The elements of `xs` at the given places. */
  predicate Picks<T(==)>(ys: seq<T>, xs: seq<T>, places: seq<nat>) {
    |ys| == |places| && Ascending(places, |xs|) && forall i :: 0 <= i < |ys| ==> ys[i] == xs[places[i]]
  }

  // ---------------------------------------------------------------------
  // First in, first out

  /** What holds of a channel at every point of every run.  Of the samples
      `fed`, the first `taken` have been taken, the others are queued until the
      stop; those `kept` are what reads have returned, but for one that may
      follow the stop. */
  predicate InOrder(rx: Rx, fed: seq<Sample>, taken: nat, kept: seq<nat>) {
    && taken <= |fed|
    && (forall i :: 0 <= i < |fed| ==> fed[i].Fits(rx.size))
    && (!rx.stopping ==> rx.pipe == EncodeAll(fed[taken..]))
    && (rx.waiting ==> rx.sid != 0 && rx.size > 0)
    && Ascending(kept, taken)
    && |kept| <= |rx.got| <= |kept| + (if rx.stopping && !rx.waiting then 1 else 0)
    && Picks(rx.got[..|kept|], fed, kept)
  }

  lemma PublishKeepsOrder(rx: Rx, fed: seq<Sample>, taken: nat, kept: seq<nat>,
                          frame: seq<byte>, hwNs: nat, ptpNs: nat)
    requires InOrder(rx, fed, taken, kept) && rx.size <= 1476 && Legal(Feed(frame, hwNs, ptpNs))
    ensures InOrder(rx.Publish(frame, hwNs, ptpNs), fed + [rx.SampleOf(frame, hwNs, ptpNs)], taken, kept)
  {
    hide Encode, EncodeAll, StampOf;
    var x := rx.SampleOf(frame, hwNs, ptpNs);
    StampBound(frame);
    EncodeAllAppend(fed[taken..], x);
    assert (fed + [x])[taken..] == fed[taken..] + [x];
  }

  lemma StampBound(frame: seq<byte>)
    ensures StampOf(frame) < TWO32
  {
    Pow256Values();
    FromBEBound(Slice(frame, 12, 4));
  }

  lemma {:induction false} FromBEBound(s: seq<byte>)
    ensures |s| <= 4 ==> FromBE(s) < Pow256(4)
    ensures FromBE(s) < Pow256(|s|)
  {
    Pow256Values();
    if s != [] {
      FromBEBound(s[..|s| - 1]);
    }
    if |s| <= 4 {
      assert Pow256(0) == 1 && Pow256(1) == 256 && Pow256(3) == 0x100_0000;
    }
  }

  /** The oldest record of a queue, and the rest. */
  lemma QueueHead(pipe: seq<byte>, fed: seq<Sample>, taken: nat, size: nat)
    requires taken <= |fed| && pipe == EncodeAll(fed[taken..]) && pipe != []
    requires forall i :: 0 <= i < |fed| ==> fed[i].Fits(size)
    ensures taken < |fed| && |pipe| >= META_SZ + size
    ensures pipe[..META_SZ + size] == Encode(fed[taken]) && Decode(Encode(fed[taken])) == fed[taken]
    ensures pipe[META_SZ + size..] == EncodeAll(fed[taken + 1..])
  {
    var queue := fed[taken..];
    assert queue != [];
    assert queue[0] == fed[taken] && queue[1..] == fed[taken + 1..];
    RecordRoundTrip(queue[0]);
  }

  lemma FinishKeepsOrder(rx: Rx, fed: seq<Sample>, taken: nat, kept: seq<nat>)
    requires rx.WellFormed() && InOrder(rx, fed, taken, kept)
    ensures InOrder(rx.Finish(), fed, if Takes(rx) then taken + 1 else taken,
                    if Takes(rx) && rx.Usable() then kept + [taken] else kept)
  {
    hide Encode, EncodeAll, Decode;
    if Takes(rx) {
      QueueHead(rx.pipe, fed, taken, rx.size);
      var n := META_SZ + rx.size;
      assert rx.pipe[..n] + rx.meta[n..] == Encode(fed[taken]);
      assert rx.Usable() ==> rx.Finish().got == rx.got + [fed[taken]];
    }
  }

  lemma {:induction false} OnlyReceiverBefore(es: seq<Event>, c: nat, i: nat)
    requires OnlyReceiver(es, c) && i <= |es| && c < |Opens(es[..i])|
    ensures OnlyReceiver(es[..i], c)
  {
    if i == |es| {
      assert es[..i] == es;
    } else {
      var past := es[..|es| - 1];
      assert past[..i] == es[..i];
      OpensGrow(past, i);
      assert forall d :: 0 <= d < |Opens(past)| ==> Opens(es)[d] == Opens(past)[d];
      OnlyReceiverBefore(past, c, i);
    }
  }

  lemma {:induction false} OpensGrow(es: seq<Event>, i: nat)
    requires i <= |es|
    ensures Opens(es[..i]) <= Opens(es)
  {
    if i == |es| {
      assert es[..i] == es;
    } else {
      assert es[..|es| - 1][..i] == es[..i];
      OpensGrow(es[..|es| - 1], i);
    }
  }

  /** A channel not opened yet has been fed nothing. */
  lemma {:induction false} FedNothing(es: seq<Event>, c: nat)
    requires c >= |Opens(es)|
    ensures Fed(es, c) == []
  {
    if es != [] {
      FedNothing(es[..|es| - 1], c);
    }
  }

  /** Nor has anything been taken from it. */
  lemma {:induction false} TakenNothing(n: nat, es: seq<Event>, c: nat)
    requires LegalRun(es) && c >= |Opens(es)|
    ensures Taken(n, es, c) == 0 && Kept(n, es, c) == []
  {
    if es != [] {
      RunChannels(n, es[..|es| - 1]);
      TakenNothing(n, es[..|es| - 1], c);
    }
  }

  /** What an event does to the only receiver of a stream, numbered `c`. */
  function Heard(rx: Rx, e: Event, c: nat): Rx
    requires rx.WellFormed()
  {
    match e
    case Open(_, _, _, _) => rx
    case Feed(frame, hwNs, ptpNs) =>
      if StreamIdOf(frame) == rx.sid then rx.Publish(frame, hwNs, ptpNs) else rx
    case EnterRead(d) => if d == c then rx.Enter() else rx
    case FinishRead(d) => if d == c then rx.Finish() else rx
    case Notified(d, r) => if d == c then rx.Notify(r) else rx
    case StopChannel(d) => if d == c then rx.Stop() else rx
    case Removed(d) => if d == c then rx.Remove() else rx
  }

  /** Isolation: the handler with all its channels gives this one what it would
      get alone. */
  lemma StepHeard(n: nat, es: seq<Event>, c: nat, e: Event)
    requires LegalRun(es) && OnlyReceiver(es, c) && c < n && Legal(e)
    ensures c < |Run(n, es).chans| && c < |Step(Run(n, es), e).chans|
    ensures Step(Run(n, es), e).chans[c] == Heard(Run(n, es).chans[c], e, c)
  {
    RunChannels(n, es);
    if e.Feed? {
      Dispatch(n, es, c, StreamIdOf(e.frame));
    }
  }

  lemma HeardKeepsOrder(rx: Rx, e: Event, c: nat, fed: seq<Sample>, taken: nat, kept: seq<nat>)
    requires rx.WellFormed() && rx.size <= 1476 && Legal(e) && InOrder(rx, fed, taken, kept)
    ensures var more := if e.Feed? && StreamIdOf(e.frame) == rx.sid
                        then [rx.SampleOf(e.frame, e.hwNs, e.ptpNs)] else [];
            var takes := e == FinishRead(c) && Takes(rx);
            InOrder(Heard(rx, e, c), fed + more, taken + (if takes then 1 else 0),
                    kept + (if takes && rx.Usable() then [taken] else []))
  {
    assert fed + [] == fed && kept + [] == kept;
    match e {
      case Open(_, _, _, _) =>
      case Feed(frame, hwNs, ptpNs) =>
        if StreamIdOf(frame) == rx.sid {
          PublishKeepsOrder(rx, fed, taken, kept, frame, hwNs, ptpNs);
        }
      case EnterRead(d) =>
      case FinishRead(d) =>
        FinishKeepsOrder(rx, fed, taken, kept);
      case Notified(d, r) =>
      case StopChannel(d) =>
      case Removed(d) =>
    }
  }

  /** FIFO over every interleaving, whatever is notified and whenever stop or
      removal come: the samples taken from a channel are, in order, the first that
      arrived for its stream, payload and time stamps; the reads return exactly
      those taken while the channel was usable, and after the stop at most one
      sample more.  Frames of other streams never show. */
  lemma {:induction false} TakenInOrder(n: nat, es: seq<Event>, c: nat)
    requires LegalRun(es) && OnlyReceiver(es, c) && c < n
    ensures c < |Run(n, es).chans|
    ensures InOrder(Run(n, es).chans[c], Fed(es, c), Taken(n, es, c), Kept(n, es, c))
  {
    hide InOrder, Takes, Heard, Step;
    RunChannels(n, es);
    if es != [] {
      var past := es[..|es| - 1];
      RunChannels(n, past);
      if c < |Opens(past)| {
        OnlyReceiverBefore(es, c, |past|);
        TakenInOrder(n, past, c);
        StepHeard(n, past, c, es[|es| - 1]);
        assert Fed(past, c) + [] == Fed(past, c);
        HeardKeepsOrder(Run(n, past).chans[c], es[|es| - 1], c, Fed(past, c), Taken(n, past, c), Kept(n, past, c));
      } else {
        JustOpened(n, es, c);
      }
    }
  }

  lemma JustOpened(n: nat, es: seq<Event>, c: nat)
    requires es != [] && LegalRun(es) && |Opens(es[..|es| - 1])| <= c < |Opens(es)|
    ensures c < |Run(n, es).chans|
    ensures InOrder(Run(n, es).chans[c], Fed(es, c), Taken(n, es, c), Kept(n, es, c))
  {
    hide Encode, Decode;
    var past := es[..|es| - 1];
    RunChannels(n, past);
    FedNothing(past, c);
    TakenNothing(n, past, c);
  }

  // ---------------------------------------------------------------------
  // Reads get on

  /** A queue is empty exactly when all its records were taken. */
  lemma QueueEmpty(fed: seq<Sample>, taken: nat)
    requires taken <= |fed|
    ensures EncodeAll(fed[taken..]) == [] <==> taken == |fed|
  {
    if taken < |fed| {
      assert fed[taken..] != [];
      assert |Encode(fed[taken..][0])| >= META_SZ;
    }
  }

  lemma HeardRead(rx: Rx, c: nat, fed: seq<Sample>, taken: nat, kept: seq<nat>)
    requires rx.WellFormed() && InOrder(rx, fed, taken, kept) && rx.Usable() && !rx.stopping
    ensures var entered := Heard(rx, EnterRead(c), c);
            && entered.WellFormed() && entered.waiting && (Takes(entered) <==> taken < |fed|)
            && var after := Heard(entered, FinishRead(c), c);
               if taken < |fed| then after.got == rx.got + [fed[taken]] && !after.waiting else after == entered
  {
    hide Encode, EncodeAll, Decode;
    QueueEmpty(fed, taken);
    if taken < |fed| {
      QueueHead(rx.pipe, fed, taken, rx.size);
      assert rx.pipe[..META_SZ + rx.size] + rx.meta[META_SZ + rx.size..] == Encode(fed[taken]);
    }
  }

  lemma RunAppend(n: nat, es: seq<Event>, e: Event, c: nat)
    requires LegalRun(es) && Legal(e) && !e.Open? && !e.Feed? && OnlyReceiver(es, c) && c < n
    ensures LegalRun(es + [e]) && OnlyReceiver(es + [e], c) && Fed(es + [e], c) == Fed(es, c)
    ensures c < |Run(n, es).chans| && c < |Run(n, es + [e]).chans|
    ensures Run(n, es).chans[c].WellFormed() && Run(n, es + [e]).chans[c] == Heard(Run(n, es).chans[c], e, c)
    ensures Taken(n, es + [e], c) ==
            Taken(n, es, c) + if e == FinishRead(c) && Takes(Run(n, es).chans[c]) then 1 else 0
  {
    hide Heard, Takes;
    assert (es + [e])[..|es|] == es;
    RunChannels(n, es);
    StepHeard(n, es, c, e);
    hide Step;
  }

  /** Progress: at any point of any run, a read of a usable channel that is not
      stopped is admitted and returns, at once, the oldest sample not taken yet;
      it stays blocked exactly when every sample that arrived has been taken. */
  lemma ReadGetsNext(n: nat, es: seq<Event>, c: nat)
    requires LegalRun(es) && OnlyReceiver(es, c) && c < n
    requires c < |Run(n, es).chans| && Run(n, es).chans[c].Usable() && !Run(n, es).chans[c].stopping
    ensures var more := es + [EnterRead(c)] + [FinishRead(c)];
            && LegalRun(more) && c < |Run(n, more).chans| && Taken(n, es, c) <= |Fed(es, c)|
            && var before, after := Run(n, es).chans[c], Run(n, more).chans[c];
               if Taken(n, es, c) < |Fed(es, c)|
               then && after.got == before.got + [Fed(es, c)[Taken(n, es, c)]] && !after.waiting
                    && Taken(n, more, c) == Taken(n, es, c) + 1
               else after.got == before.got && after.waiting && Taken(n, more, c) == Taken(n, es, c)
  {
    TakenInOrder(n, es, c);
    RunAppend(n, es, EnterRead(c), c);
    RunAppend(n, es + [EnterRead(c)], FinishRead(c), c);
    HeardRead(Run(n, es).chans[c], c, Fed(es, c), Taken(n, es, c), Kept(n, es, c));
    hide Run, Heard, Takes, Taken, Fed, Kept;
  }

  // ---------------------------------------------------------------------
  // Nothing lost, nothing made up

  /** The reads have returned exactly the samples taken before the stop. */
  predicate Exact(n: nat, es: seq<Event>, c: nat)
    requires LegalRun(es)
  {
    var h := Run(n, es);
    c < |h.chans| ==>
      Taken(n, es, c) <= |Fed(es, c)| && h.chans[c].got == Fed(es, c)[..Taken(n, es, c)]
  }

  /** A blocked read ends on a channel that is not usable though not stopped, or
      usable though stopped. */
  predicate Crossed(rx: Rx) {
    rx.waiting && rx.pipe != [] && rx.Usable() == rx.stopping
  }

  predicate CrossedAt(n: nat, es: seq<Event>, k: nat, c: nat)
    requires LegalRun(es) && k < |es|
  {
    var h := Run(n, es[..k]);
    es[k] == FinishRead(c) && c < |h.chans| && Crossed(h.chans[c])
  }

  lemma HeardExact(rx: Rx, e: Event, c: nat, fed: seq<Sample>, more: seq<Sample>, taken: nat, kept: seq<nat>)
    requires rx.WellFormed() && InOrder(rx, fed, taken, kept) && rx.got == fed[..taken]
    ensures var takes := e == FinishRead(c) && Takes(rx);
            var now := taken + if takes then 1 else 0;
            now <= |fed + more| &&
            (Heard(rx, e, c).got == (fed + more)[..now] <==> !(e == FinishRead(c) && Crossed(rx)))
  {
    hide Encode, EncodeAll, Decode;
    assert (fed + more)[..taken] == fed[..taken];
    if e == FinishRead(c) && Takes(rx) {
      QueueHead(rx.pipe, fed, taken, rx.size);
      assert rx.pipe[..META_SZ + rx.size] + rx.meta[META_SZ + rx.size..] == Encode(fed[taken]);
      assert (fed + more)[..taken + 1] == fed[..taken] + [fed[taken]];
    }
  }

  lemma ExactStep(n: nat, es: seq<Event>, k: nat, c: nat)
    requires LegalRun(es) && OnlyReceiver(es, c) && c < n && k < |es| && Exact(n, es[..k], c)
    ensures Exact(n, es[..k + 1], c) <==> !CrossedAt(n, es, k, c)
  {
    hide InOrder, Takes, Heard, Step, Crossed;
    var past, now := es[..k], es[..k + 1];
    assert now[..k] == past && now[k] == es[k];
    RunChannels(n, past);
    RunChannels(n, now);
    if c < |Opens(past)| {
      OnlyReceiverBefore(es, c, k);
      TakenInOrder(n, past, c);
      StepHeard(n, past, c, es[k]);
      var more := Fed(now, c)[|Fed(past, c)|..];
      assert Fed(now, c) == Fed(past, c) + more;
      HeardExact(Run(n, past).chans[c], es[k], c, Fed(past, c), more, Taken(n, past, c), Kept(n, past, c));
    } else if c < |Opens(now)| {
      OpenedExact(n, now, c);
    }
  }

  lemma OpenedExact(n: nat, es: seq<Event>, c: nat)
    requires es != [] && LegalRun(es) && |Opens(es[..|es| - 1])| <= c < |Opens(es)|
    ensures Exact(n, es, c)
  {
    RunChannels(n, es[..|es| - 1]);
    FedNothing(es[..|es| - 1], c);
    TakenNothing(n, es[..|es| - 1], c);
  }

  lemma {:induction false} ExactUpTo(n: nat, es: seq<Event>, i: nat, c: nat)
    requires LegalRun(es) && OnlyReceiver(es, c) && c < n && i <= |es|
    requires forall k :: 0 <= k < i ==> !CrossedAt(n, es, k, c)
    ensures Exact(n, es[..i], c)
  {
    if i > 0 {
      ExactUpTo(n, es, i - 1, c);
      ExactStep(n, es, i - 1, c);
    }
  }

  /** At every point of a run the reads have returned, one by one, the first
      samples that arrived, none lost before the stop and none returned after
      it, exactly when no blocked read ends with `ready` cleared or the channel
      removed before the stop, or with `ready` set after it. */
  lemma FifoIff(n: nat, es: seq<Event>, c: nat)
    requires LegalRun(es) && OnlyReceiver(es, c) && c < n
    ensures (forall i :: 0 <= i <= |es| ==> Exact(n, es[..i], c)) <==>
            (forall k :: 0 <= k < |es| ==> !CrossedAt(n, es, k, c))
  {
    if forall i :: 0 <= i <= |es| ==> Exact(n, es[..i], c) {
      forall k | 0 <= k < |es|
        ensures !CrossedAt(n, es, k, c)
      {
        assert Exact(n, es[..k], c) && Exact(n, es[..k + 1], c);
        ExactStep(n, es, k, c);
      }
    }
    if forall k :: 0 <= k < |es| ==> !CrossedAt(n, es, k, c) {
      forall i | 0 <= i <= |es|
        ensures Exact(n, es[..i], c)
      {
        ExactUpTo(n, es, i, c);
      }
    }
  }

  /** Nothing changes its mind about the channel while a reader is blocked in it:
      before the stop no notification takes `ready` away and no removal comes,
      after it no notification gives `ready` back. */
  predicate Calm(n: nat, es: seq<Event>, c: nat)
    requires LegalRun(es)
  {
    forall i :: 0 <= i < |es| && c < |Run(n, es[..i]).chans| ==>
      CalmStep(Run(n, es[..i]).chans[c], es[i], c)
  }

  predicate CalmStep(rx: Rx, e: Event, c: nat) {
    && (e.Notified? && e.ch == c && rx.waiting ==> e.isReady != rx.stopping)
    && (e.Removed? && e.ch == c && rx.waiting ==> rx.stopping)
  }

  lemma HeardCalm(rx: Rx, e: Event, c: nat)
    requires rx.WellFormed() && (rx.waiting ==> rx.Usable() != rx.stopping) && CalmStep(rx, e, c)
    ensures var after := Heard(rx, e, c); after.waiting ==> after.Usable() != after.stopping
  {
  }

  lemma {:induction false} CalmReaders(n: nat, es: seq<Event>, i: nat, c: nat)
    requires LegalRun(es) && OnlyReceiver(es, c) && c < n && Calm(n, es, c) && i <= |es|
    ensures c < |Run(n, es[..i]).chans| ==>
              var rx := Run(n, es[..i]).chans[c];
              rx.waiting ==> rx.Usable() != rx.stopping
  {
    hide Heard;
    if i > 0 {
      CalmReaders(n, es, i - 1, c);
      assert es[..i][..i - 1] == es[..i - 1];
      RunChannels(n, es[..i - 1]);
      RunChannels(n, es[..i]);
      if c < |Opens(es[..i - 1])| {
        hide Step;
        OnlyReceiverBefore(es, c, i - 1);
        StepHeard(n, es[..i - 1], c, es[i - 1]);
        HeardCalm(Run(n, es[..i - 1]).chans[c], es[i - 1], c);
      }
    }
  }

  /** So in calm runs what was returned is a prefix of what arrived. */
  lemma FifoDelivery(n: nat, es: seq<Event>, c: nat)
    requires LegalRun(es) && OnlyReceiver(es, c) && c < n && Calm(n, es, c)
    ensures c < |Run(n, es).chans|
    ensures Run(n, es).chans[c].got <= Fed(es, c)
    ensures Exact(n, es, c)
  {
    RunChannels(n, es);
    forall k | 0 <= k < |es|
      ensures !CrossedAt(n, es, k, c)
    {
      CalmReaders(n, es, k, c);
    }
    ExactUpTo(n, es, |es|, c);
    assert es[..|es|] == es;
  }

  // ---------------------------------------------------------------------
  // Runs without notifications

  predicate NoNotice(es: seq<Event>) {
    forall i :: 0 <= i < |es| ==> !es[i].Notified?
  }

  /** Without notifications `ready` only goes away, and only by the stop. */
  predicate QuietOrder(rx: Rx, fed: seq<Sample>, taken: nat) {
    && rx.got <= fed
    && (rx.stopping ==> !rx.ready)
    && (rx.Usable() ==> |rx.got| == taken)
    && (rx.waiting && !rx.stopping ==> rx.ready && rx.sid != 0 && rx.size > 0)
  }

  lemma HeardQuiet(rx: Rx, e: Event, c: nat, fed: seq<Sample>, more: seq<Sample>, taken: nat, kept: seq<nat>)
    requires rx.WellFormed() && InOrder(rx, fed, taken, kept) && QuietOrder(rx, fed, taken) && !e.Notified?
    ensures QuietOrder(Heard(rx, e, c), fed + more, taken + if e == FinishRead(c) && Takes(rx) then 1 else 0)
  {
    hide Encode, EncodeAll, Decode;
    if e == FinishRead(c) && Takes(rx) {
      QueueHead(rx.pipe, fed, taken, rx.size);
      assert rx.pipe[..META_SZ + rx.size] + rx.meta[META_SZ + rx.size..] == Encode(fed[taken]);
    }
  }

  lemma {:induction false} QuietInOrder(n: nat, es: seq<Event>, c: nat)
    requires LegalRun(es) && OnlyReceiver(es, c) && c < n && NoNotice(es)
    ensures c < |Run(n, es).chans| && QuietOrder(Run(n, es).chans[c], Fed(es, c), Taken(n, es, c))
  {
    hide InOrder, QuietOrder, Takes, Heard, Step, Kept;
    RunChannels(n, es);
    var past := es[..|es| - 1];
    RunChannels(n, past);
    if c < |Opens(past)| {
      OnlyReceiverBefore(es, c, |past|);
      QuietInOrder(n, past, c);
      TakenInOrder(n, past, c);
      StepHeard(n, past, c, es[|es| - 1]);
      var more := Fed(es, c)[|Fed(past, c)|..];
      assert Fed(es, c) == Fed(past, c) + more;
      HeardQuiet(Run(n, past).chans[c], es[|es| - 1], c, Fed(past, c), more, Taken(n, past, c), Kept(n, past, c));
    } else {
      OpenedQuiet(n, es, c);
    }
  }

  lemma OpenedQuiet(n: nat, es: seq<Event>, c: nat)
    requires es != [] && LegalRun(es) && |Opens(es[..|es| - 1])| <= c < |Opens(es)|
    ensures c < |Run(n, es).chans| && QuietOrder(Run(n, es).chans[c], Fed(es, c), Taken(n, es, c))
  {
    RunChannels(n, es[..|es| - 1]);
    FedNothing(es[..|es| - 1], c);
    TakenNothing(n, es[..|es| - 1], c);
  }

  /** A blocked read ends, with a sample in the pipe, on a channel removed before
      its stop. */
  predicate RemovedAt(n: nat, es: seq<Event>, k: nat, c: nat)
    requires LegalRun(es) && k < |es|
  {
    var h := Run(n, es[..k]);
    es[k] == FinishRead(c) && c < |h.chans| && Takes(h.chans[c]) && !h.chans[c].attached
  }

  lemma QuietCrossed(n: nat, es: seq<Event>, k: nat, c: nat)
    requires LegalRun(es) && OnlyReceiver(es, c) && c < n && NoNotice(es) && k < |es|
    ensures CrossedAt(n, es, k, c) <==> RemovedAt(n, es, k, c)
  {
    RunChannels(n, es[..k]);
    if c < |Opens(es[..k])| {
      OnlyReceiverBefore(es, c, k);
      QuietInOrder(n, es[..k], c);
    }
  }

  /** Without notifications, what was returned is always a prefix of what
      arrived, and nothing is ever lost or made up exactly when no blocked read
      ends, with a sample in the pipe, on a channel removed before its stop. */
  lemma QuietFifoIff(n: nat, es: seq<Event>, c: nat)
    requires LegalRun(es) && OnlyReceiver(es, c) && c < n && NoNotice(es)
    ensures c < |Run(n, es).chans| && Run(n, es).chans[c].got <= Fed(es, c)
    ensures (forall i :: 0 <= i <= |es| ==> Exact(n, es[..i], c)) <==>
            (forall k :: 0 <= k < |es| ==> !RemovedAt(n, es, k, c))
  {
    QuietInOrder(n, es, c);
    FifoIff(n, es, c);
    forall k | 0 <= k < |es|
      ensures CrossedAt(n, es, k, c) <==> RemovedAt(n, es, k, c)
    {
      QuietCrossed(n, es, k, c);
    }
  }

  /** End to end: what `chan_update` put into a frame is the sample a receiver
      with matching attributes gets from the buffer the frame arrived in, and the
      capture time rebuilt from it is the talker's, one nanosecond late after a
      wrap, when the frame is read within one turn of the low word. */
  lemma EndToEnd(rx: Rx, seqnr: byte, ts: nat, data: seq<byte>, buffer: seq<byte>, hwNs: nat, ptpNs: nat)
    requires rx.sid < TWO64 && rx.size < 0x1_0000 && |data| == rx.size
    requires Header(rx.sid, rx.size, seqnr, true, ts % TWO32) + data <= buffer
    ensures StreamIdOf(buffer) == rx.sid
    ensures rx.SampleOf(buffer, hwNs, ptpNs) == Sample(hwNs, ptpNs, ts % TWO32, data)
    ensures ts <= ptpNs < ts + TWO32 && ptpNs < TWO64 ==>
              CaptureTime.Rebuild(ptpNs, StampOf(buffer)) ==
              if CaptureTime.Wrapped(ts, ptpNs) then ts + 1 else ts
  {
    FrameRoundTrip(rx.sid, rx.size, seqnr, true, ts % TWO32, data, buffer);
    if ts <= ptpNs < ts + TWO32 && ptpNs < TWO64 {
      CaptureTime.RebuildInWindow(ts, ptpNs);
    }
  }

  /** The receive buffers that arrived for channel `c`'s stream. */
  function Buffers(es: seq<Event>, c: nat): seq<seq<byte>> {
    if es == [] then []
    else
      var past := es[..|es| - 1];
      var last := es[|es| - 1];
      if last.Feed? && c < |Opens(past)| && StreamIdOf(last.frame) == Opens(past)[c].sid
      then Buffers(past, c) + [last.frame]
      else Buffers(past, c)
  }

  lemma {:induction false} FedFromBuffers(es: seq<Event>, c: nat, j: nat)
    requires c < |Opens(es)|
    ensures |Buffers(es, c)| == |Fed(es, c)|
    ensures j < |Fed(es, c)| ==>
              Fed(es, c)[j].stamp == StampOf(Buffers(es, c)[j]) &&
              Fed(es, c)[j].payload == BodyOf(Buffers(es, c)[j], Opens(es)[c].size)
  {
    var past := es[..|es| - 1];
    if c < |Opens(past)| {
      FedFromBuffers(past, c, j);
    } else {
      FedNothing(past, c);
      BuffersNone(past, c);
    }
  }

  lemma {:induction false} BuffersNone(es: seq<Event>, c: nat)
    requires c >= |Opens(es)|
    ensures Buffers(es, c) == []
  {
    if es != [] {
      BuffersNone(es[..|es| - 1], c);
    }
  }

  /** What arrives for channel `c` are frames of one talker with its attributes,
      in the order sent, some of them lost: buffer `j` holds the frame of update
      `sent[j]`. */
  predicate FromTalker(es: seq<Event>, c: nat, updates: seq<Update>, sent: seq<nat>) {
    && c < |Opens(es)| && |sent| == |Buffers(es, c)| && Ascending(sent, |updates|)
    && forall j :: 0 <= j < |sent| ==>
         |updates[sent[j]].data| == Opens(es)[c].size &&
         TalkerFrame(Opens(es)[c].sid, Opens(es)[c].size, updates, sent[j]) <= Buffers(es, c)[j]
  }

  /** The update behind a sample. */
  predicate CarriesUpdate(x: Sample, u: Update) {
    && x.payload == u.data && x.stamp == u.ts % TWO32
    && (u.ts <= x.ptpNs < u.ts + TWO32 ==>
         CaptureTime.Rebuild(x.ptpNs, x.stamp) == if CaptureTime.Wrapped(u.ts, x.ptpNs) then u.ts + 1 else u.ts)
  }

  lemma FedCarries(es: seq<Event>, c: nat, updates: seq<Update>, sent: seq<nat>, j: nat)
    requires FromTalker(es, c, updates, sent) && j < |sent|
    requires Legal(Opens(es)[c]) && |Fed(es, c)| == |sent| && Fed(es, c)[j].Fits(Opens(es)[c].size)
    ensures CarriesUpdate(Fed(es, c)[j], updates[sent[j]])
  {
    hide Header;
    var o := Opens(es)[c];
    var u := updates[sent[j]];
    FedFromBuffers(es, c, j);
    FrameRoundTrip(o.sid, o.size, sent[j] % 256, true, u.ts % TWO32, u.data, Buffers(es, c)[j]);
    var x := Fed(es, c)[j];
    if u.ts <= x.ptpNs < u.ts + TWO32 {
      CaptureTime.RebuildInWindow(u.ts, x.ptpNs);
    }
  }

  /** From talker to reader over whole runs, frames lost on the way or not: the
      samples returned before the stop hold, in the talker's order and without
      repetition, data and capture times of updates the talker made. */
  lemma TalkerToReader(n: nat, es: seq<Event>, c: nat, updates: seq<Update>, sent: seq<nat>)
    requires LegalRun(es) && OnlyReceiver(es, c) && c < n && FromTalker(es, c, updates, sent)
    ensures c < |Run(n, es).chans|
    ensures var rx := Run(n, es).chans[c];
            var kept := Kept(n, es, c);
            && |kept| <= |rx.got| <= |kept| + (if rx.stopping then 1 else 0)
            && Ascending(kept, |sent|)
            && (forall i, j :: 0 <= i < j < |kept| ==> sent[kept[i]] < sent[kept[j]])
            && (forall i :: 0 <= i < |kept| ==> CarriesUpdate(rx.got[i], updates[sent[kept[i]]]))
  {
    hide CarriesUpdate, TalkerFrame;
    TakenInOrder(n, es, c);
    RunChannels(n, es);
    OpensLegal(es);
    FedFromBuffers(es, c, 0);
    var rx := Run(n, es).chans[c];
    var kept := Kept(n, es, c);
    forall i | 0 <= i < |kept|
      ensures CarriesUpdate(rx.got[i], updates[sent[kept[i]]])
    {
      assert rx.got[..|kept|][i] == Fed(es, c)[kept[i]];
      FedCarries(es, c, updates, sent, kept[i]);
    }
  }

  lemma {:induction false} OpensLegal(es: seq<Event>)
    requires LegalRun(es)
    ensures LegalRun(Opens(es))
  {
    if es != [] {
      OpensLegal(es[..|es| - 1]);
    }
  }

  // ---------------------------------------------------------------------
  // What a crossed read does

  /** A notification that takes `ready` away under a blocked reader costs a
      sample: the next one returned is the second that arrived. */
  lemma UnreadyLosesSample(rx: Rx, f1: seq<byte>, f2: seq<byte>, hwNs: nat, ptpNs: nat)
    requires rx.WellFormed() && rx.Usable() && rx.size <= 1476 && !rx.stopping && rx.pipe == [] && rx.got == []
    requires Legal(Feed(f1, hwNs, ptpNs)) && Legal(Feed(f2, hwNs, ptpNs))
    ensures Crossed(rx.Enter().Publish(f1, hwNs, ptpNs).Notify(false))
    ensures var dropped := rx.Enter().Publish(f1, hwNs, ptpNs).Notify(false).Finish();
            dropped.WellFormed() &&
            var resumed := dropped.Notify(true).Publish(f2, hwNs, ptpNs).Enter();
            resumed.WellFormed() && resumed.Finish().got == [rx.SampleOf(f2, hwNs, ptpNs)]
  {
    var n := META_SZ + rx.size;
    var r1, r2 := Encode(rx.SampleOf(f1, hwNs, ptpNs)), Encode(rx.SampleOf(f2, hwNs, ptpNs));
    assert |r1| == n && |r2| == n;
    var entered := rx.Enter().Publish(f1, hwNs, ptpNs).Notify(false);
    assert entered.pipe == r1 && r1[n..] == [];
    var dropped := entered.Finish();
    assert dropped.pipe == [] && dropped.got == [];
    var resumed := dropped.Notify(true).Publish(f2, hwNs, ptpNs).Enter();
    assert resumed.pipe == r2 && r2[..n] + resumed.meta[n..] == r2;
    StampBound(f2);
    RecordRoundTrip(rx.SampleOf(f2, hwNs, ptpNs));
  }

  /** So does a removal: the sample goes nowhere, and no read is admitted any
      more. */
  lemma RemovalLosesSample(rx: Rx, frame: seq<byte>, hwNs: nat, ptpNs: nat)
    requires rx.WellFormed() && rx.Usable() && rx.size <= 1476 && !rx.stopping && rx.pipe == [] && rx.got == []
    requires Legal(Feed(frame, hwNs, ptpNs))
    ensures var removed := rx.Enter().Remove().Publish(frame, hwNs, ptpNs);
            removed.WellFormed() && Crossed(removed) &&
            var after := removed.Finish();
            after.got == [] && after.pipe == [] && !after.waiting && after.Enter() == after
  {
    var removed := rx.Enter().Remove().Publish(frame, hwNs, ptpNs);
    assert |removed.pipe| == META_SZ + rx.size;
  }

  /** A notification that gives `ready` back after the stop lets a blocked
      reader return a sample that nobody sent: the stop's zero bytes over
      whatever the callback area held. */
  lemma RevivalReturnsJunk(rx: Rx)
    requires rx.WellFormed() && rx.Usable() && !rx.stopping && rx.pipe == [] && rx.got == []
    ensures var kicked := rx.Enter().Stop().Notify(true);
            kicked.WellFormed() && Crossed(kicked) &&
            kicked.Finish().got == [Decode(seq(rx.size, _ => 0) + rx.meta[rx.size..])]
  {
    var kicked := rx.Enter().Stop().Notify(true);
    assert kicked.pipe == seq(rx.size, _ => 0);
    assert kicked.pipe[..rx.size] == kicked.pipe;
  }

  /** Opened, reader blocked, removed, fed, read ended. */
  function RemovedReader(sid: nat, size: nat, memory: seq<byte>, frame: seq<byte>): seq<Event> {
    [Open(sid, size, memory, false), EnterRead(0), Removed(0), Feed(frame, 0, 0), FinishRead(0)]
  }

  /** A run with one channel has come to this. */
  predicate Solo(n: nat, es: seq<Event>, o: Event, rx: Rx, fed: seq<Sample>, taken: nat) {
    && o.Open? && LegalRun(es) && Opens(es) == [o] && Run(n, es).chans == [rx]
    && Fed(es, 0) == fed && Taken(n, es, 0) == taken && NoNotice(es)
  }

  lemma SoloStart(n: nat, o: Event)
    requires o.Open? && Legal(o)
    ensures Solo(n, [o], o, NewRx(o.sid, o.size, o.memory, !o.srp), [], 0)
  {
    assert [o][..0] == [];
  }

  lemma SoloStep(n: nat, es: seq<Event>, o: Event, rx: Rx, fed: seq<Sample>, taken: nat, e: Event)
    requires Solo(n, es, o, rx, fed, taken) && n > 0 && Legal(e) && !e.Open? && !e.Notified?
    ensures rx.WellFormed() && rx.sid == o.sid
    ensures Solo(n, es + [e], o, Heard(rx, e, 0),
                 fed + (if e.Feed? && StreamIdOf(e.frame) == o.sid
                        then [Sample(e.hwNs, e.ptpNs, StampOf(e.frame), BodyOf(e.frame, o.size))] else []),
                 taken + (if e == FinishRead(0) && Takes(rx) then 1 else 0))
  {
    assert (es + [e])[..|es|] == es;
    RunChannels(n, es);
    RunChannels(n, es + [e]);
    StepHeard(n, es, 0, e);
    hide Step, Heard, Takes;
    assert fed + [] == fed;
  }

  /** Such a run loses the sample, on every handler with a slot. */
  lemma RemovedReaderExample(n: nat, sid: nat, size: nat, memory: seq<byte>, frame: seq<byte>)
    requires n > 0 && 0 < sid && Legal(Open(sid, size, memory, false)) && Legal(Feed(frame, 0, 0))
    requires StreamIdOf(frame) == sid
    ensures var es := RemovedReader(sid, size, memory, frame);
            && LegalRun(es) && OnlyReceiver(es, 0) && NoNotice(es) && |Run(n, es).chans| == 1
            && Run(n, es).chans[0].got == [] && |Fed(es, 0)| == 1 && Taken(n, es, 0) == 1 && !Exact(n, es, 0)
  {
    var o := Open(sid, size, memory, false);
    var rx := NewRx(sid, size, memory, true);
    RemovalLosesSample(rx, frame, 0, 0);
    RemovedSolo(n, o, frame);
    var es4 := [o] + [EnterRead(0)] + [Removed(0)] + [Feed(frame, 0, 0)];
    var removed := rx.Enter().Remove().Publish(frame, 0, 0);
    assert Crossed(removed);
    var x := Sample(0, 0, StampOf(frame), BodyOf(frame, size));
    SoloStep(n, es4, o, removed, [x], 0, FinishRead(0));
    assert RemovedReader(sid, size, memory, frame) == es4 + [FinishRead(0)];
  }

  lemma RemovedSolo(n: nat, o: Event, frame: seq<byte>)
    requires n > 0 && o.Open? && 0 < o.sid && !o.srp && Legal(o) && Legal(Feed(frame, 0, 0))
    requires StreamIdOf(frame) == o.sid
    ensures Solo(n, [o] + [EnterRead(0)] + [Removed(0)] + [Feed(frame, 0, 0)], o,
                 NewRx(o.sid, o.size, o.memory, true).Enter().Remove().Publish(frame, 0, 0),
                 [Sample(0, 0, StampOf(frame), BodyOf(frame, o.size))], 0)
  {
    hide Solo, Encode;
    var rx := NewRx(o.sid, o.size, o.memory, true);
    var none: seq<Sample> := [];
    var x := Sample(0, 0, StampOf(frame), BodyOf(frame, o.size));
    assert none + [] == none && none + [x] == [x];
    SoloStart(n, o);
    SoloStep(n, [o], o, rx, [], 0, EnterRead(0));
    SoloStep(n, [o] + [EnterRead(0)], o, rx.Enter(), [], 0, Removed(0));
    SoloStep(n, [o] + [EnterRead(0)] + [Removed(0)], o, rx.Enter().Remove(), [], 0, Feed(frame, 0, 0));
  }
}
