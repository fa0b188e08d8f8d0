/** Creation, SRP signalling, stopping and removal of channels as one transition
    system (src/netchan.c, src/netchan_srp_client.c).  Each library function is
    one step; clock ticks, notifications from the network and the success of
    every message are inputs. */
module Lifecycle {
  import opened MachineInts
  import opened ChannelList
  import opened StreamTable
  import opened CaptureTime

  /** The part of `struct channel` that matters here.  `attached` is a non-NULL
      handler pointer; `prio` is the Tx socket priority. */
  datatype Chan = Chan(tx: bool, sid: nat, sc: StreamClass, prio: int,
                       attached: bool, ready: bool, stopping: bool)

  datatype Msg = Advertise | Unadvertise | ListenerReady | ListenerLeave

  /** A message handed to the MRP daemon's socket, by whom, and whether the
      hand-over worked. */
  datatype Sent = Sent(msg: Msg, ch: nat, sid: nat, ok: bool)

  datatype Net = Net(srp: bool, chans: map<nat, Chan>, nextId: nat,
                     tx: ChanList<nat>, rx: ChanList<nat>, table: seq<Slot>,
                     trace: seq<Sent>, tasPrio: int, cbsPrio: int) {
    function Say(msg: Msg, ch: nat, sid: nat, ok: bool): Net {
      this.(trace := trace + [Sent(msg, ch, sid, ok)])
    }

    function SetReady(ch: nat, ready: bool): Net
      requires ch in chans
    {
      this.(chans := chans[ch := chans[ch].(ready := ready)])
    }

    /** Priority for a new socket of the class. */
    function PrioOf(sc: StreamClass): int {
      if sc == Tas then tasPrio else cbsPrio
    }
  }

  const DEFAULT_TX_TAS_SOCKET_PRIO := 3
  const DEFAULT_TX_CBS_SOCKET_PRIO := 2

  function Start(srp: bool, n: nat): Net {
    Net(srp, map[], 0, EmptyList(), EmptyList(), EmptyTable(n), [],
        DEFAULT_TX_TAS_SOCKET_PRIO, DEFAULT_TX_CBS_SOCKET_PRIO)
  }

  /** List walk for the first channel of a stream. */
  function Find(chans: map<nat, Chan>, chain: seq<nat>, sid: nat): (r: Option<nat>)
    ensures r.Some? ==> r.value in chain && r.value in chans && chans[r.value].sid == sid
  {
    if chain == [] then None
    else if chain[0] in chans && chans[chain[0]].sid == sid then Some(chain[0])
    else Find(chans, chain[1..], sid)
  }

  function FindTx(h: Net, sid: nat): Option<nat> {
    Find(h.chans, h.tx.chain, sid)
  }

  /** `get_rx_chan_from_sid`: only walks when the table knows the stream. */
  function FindRx(h: Net, sid: nat): Option<nat> {
    if Lookup(h.table, sid) < 0 then None else Find(h.chans, h.rx.chain, sid)
  }

  /** `chan_stop`. */
  function StopOne(h: Net, ch: nat, ok: bool): Net {
    if ch !in h.chans || !h.chans[ch].attached then h
    else
      var c := h.chans[ch];
      if c.stopping then h.SetReady(ch, false)
      else
        var t := h.(chans := h.chans[ch := c.(ready := false, stopping := true)]);
        if !h.srp then t
        else t.Say(if c.tx then Unadvertise else ListenerLeave, ch, c.sid, ok)
  }

  /** One of the two list walks of `nh_stop`. */
  function StopList(h: Net, chain: seq<nat>, fails: set<nat>): Net
    decreases |chain|
  {
    if chain == [] then h
    else StopList(StopOne(h, chain[0], chain[0] !in fails), chain[1..], fails)
  }

  /** `nc_srp_new_talker`. */
  function Announce(h: Net, ch: nat, ok: bool): Net {
    if ch !in h.chans || !h.chans[ch].attached || h.chans[ch].stopping then h
    else h.Say(Advertise, ch, h.chans[ch].sid, ok)
  }

  /** One pass of `nc_srp_talker_announce` over the Tx list. */
  function AnnounceList(h: Net, chain: seq<nat>, fails: set<nat>): Net
    decreases |chain|
  {
    if chain == [] then h
    else
      var ch := chain[0];
      var t := if ch in h.chans && !h.chans[ch].ready && !h.chans[ch].stopping
               then Announce(h, ch, ch !in fails) else h;
      AnnounceList(t, chain[1..], fails)
  }

  /** `nh_remove_tx` or `nh_remove_rx`, by the channel's kind. */
  function Detached(h: Net, ch: nat): Net {
    if ch !in h.chans || !h.chans[ch].attached then h
    else
      var c := h.chans[ch];
      var listed := ch in (if c.tx then h.tx.chain else h.rx.chain);
      if !listed then h
      else
        var t := h.(chans := h.chans[ch := c.(attached := false)]);
        if c.tx then t.(tx := h.tx.Remove(ch)) else t.(rx := h.rx.Remove(ch))
  }

  /** `chan_destroy`: stop, unlink, free. */
  function Destroyed(h: Net, ch: nat, ok: bool): Net {
    var t := Detached(StopOne(h, ch, ok), ch);
    t.(chans := t.chans - {ch})
  }

  datatype Event =
    | CreateTx(sid: nat, sc: StreamClass, advertised: bool, unadvertised: bool)
    | CreateFailed(sid: nat, ok: bool)
    | CreateRx(sid: nat, sc: StreamClass)
    | AnnouncePass(fails: set<nat>)
    | ListenerNew(sid: nat)
    | ListenerLeaving(sid: nat)
    | TalkerNew(sid: nat, ok: bool)
    | TalkerLeave(sid: nat, ok: bool)
    | Stop(ch: nat, ok: bool)
    | StopAll(fails: set<nat>)
    | Destroy(ch: nat, ok: bool)
    | Detach(ch: nat)
    | SetPrio(sc: StreamClass, prio: int)

  /** `chan_create_tx` up to the announcement. */
  function NewTx(h: Net, sid: nat, sc: StreamClass): Net {
    h.(chans := h.chans[h.nextId := Chan(true, sid, sc, h.PrioOf(sc), true, !h.srp, false)],
       tx := h.tx.Add(h.nextId), nextId := h.nextId + 1)
  }

  /** `chan_create_rx`. */
  function NewRx(h: Net, sid: nat, sc: StreamClass): Net {
    h.(chans := h.chans[h.nextId := Chan(false, sid, sc, 0, true, !h.srp, false)],
       rx := h.rx.Add(h.nextId), table := Register(h.table, sid, h.nextId), nextId := h.nextId + 1)
  }

  /** `chan_create_tx` for a socket that could be made.  In SRP mode a talker
      that cannot be announced is destroyed again. */
  function CreatedTx(h: Net, sid: nat, sc: StreamClass, advertised: bool, unadvertised: bool): Net {
    var t := NewTx(h, sid, sc);
    if !h.srp then t
    else
      var a := Announce(t, h.nextId, advertised);
      if advertised then a else Destroyed(a, h.nextId, unadvertised)
  }

  /** A creation that fails once the handler is set: no pipe, no Tx socket, no
      callback area.  The half-made channel has no Tx socket and no list has it,
      so it is stopped as a listener. */
  function FailedCreate(h: Net, sid: nat, ok: bool): Net {
    var t := h.(nextId := h.nextId + 1);
    if h.srp then t.Say(ListenerLeave, h.nextId, sid, ok) else t
  }

  /** `nh_notify_talker_Lnew` and `nh_notify_talker_Lleaving`. */
  function HearListener(h: Net, sid: nat, isNew: bool): Net {
    var found := FindTx(h, sid);
    if found.Some? then h.SetReady(found.value, isNew) else h
  }

  /** `nh_notify_listener_Tnew` and `nh_notify_listener_Tleave`: declare to the
      network first, and follow suit only when that worked. */
  function HearTalker(h: Net, sid: nat, isNew: bool, ok: bool): Net {
    var found := FindRx(h, sid);
    if found.Some? then
      var t := h.Say(if isNew then ListenerReady else ListenerLeave, found.value, sid, ok);
      if ok then t.SetReady(found.value, isNew) else t
    else h
  }

  /** `nh_stop`. */
  function StoppedAll(h: Net, fails: set<nat>): Net {
    StopList(StopList(h, h.tx.chain, fails), h.rx.chain, fails)
  }

  /** `nh_set_tx_prio`. */
  function PrioSet(h: Net, sc: StreamClass, prio: int): Net {
    if prio < 0 || prio > 8 || h.tx.chain != [] then h
    else if sc == Tas then h.(tasPrio := prio)
    else h.(cbsPrio := prio)
  }

  function Step(h: Net, e: Event): Net {
    match e
    case CreateTx(sid, sc, advertised, unadvertised) => CreatedTx(h, sid, sc, advertised, unadvertised)
    case CreateFailed(sid, ok) => FailedCreate(h, sid, ok)
    case CreateRx(sid, sc) => NewRx(h, sid, sc)
    case AnnouncePass(fails) => if h.srp then AnnounceList(h, h.tx.chain, fails) else h
    case ListenerNew(sid) => HearListener(h, sid, true)
    case ListenerLeaving(sid) => HearListener(h, sid, false)
    case TalkerNew(sid, ok) => HearTalker(h, sid, true, ok)
    case TalkerLeave(sid, ok) => HearTalker(h, sid, false, ok)
    case Stop(ch, ok) => StopOne(h, ch, ok)
    case StopAll(fails) => StoppedAll(h, fails)
    case Destroy(ch, ok) => Destroyed(h, ch, ok)
    case Detach(ch) => Detached(h, ch)
    case SetPrio(sc, prio) => PrioSet(h, sc, prio)
  }

  /** The state after a run on a handler with `n` table slots. */
  function Run(srp: bool, n: nat, es: seq<Event>): Net {
    if es == [] then Start(srp, n) else Step(Run(srp, n, es[..|es| - 1]), es[|es| - 1])
  }

  // ---------------------------------------------------------------------
  // Well-formed states

  ghost predicate Listed(h: Net, chain: seq<nat>, tx: bool) {
    && Distinct(chain)
    && forall ch :: ch in chain ==> ch in h.chans && h.chans[ch].tx == tx && h.chans[ch].attached
  }

  ghost predicate WF(h: Net) {
    && (forall ch :: ch in h.chans ==> ch < h.nextId)
    && Listed(h, h.tx.chain, true)
    && Listed(h, h.rx.chain, false)
  }

  predicate SameIdentity(c: Chan, d: Chan) {
    c.tx == d.tx && c.sid == d.sid && c.sc == d.sc && c.prio == d.prio && c.attached == d.attached
  }

  /** Only flags and messages differ. */
  ghost predicate SameExceptFlags(h: Net, t: Net) {
    && t.srp == h.srp && t.nextId == h.nextId && t.tx == h.tx && t.rx == h.rx && t.table == h.table
    && t.tasPrio == h.tasPrio && t.cbsPrio == h.cbsPrio
    && t.chans.Keys == h.chans.Keys
    && (forall ch :: ch in h.chans ==>
         SameIdentity(h.chans[ch], t.chans[ch]) && (h.chans[ch].stopping ==> t.chans[ch].stopping))
  }

  lemma FlagsTrans(a: Net, b: Net, c: Net)
    requires SameExceptFlags(a, b) && SameExceptFlags(b, c)
    ensures SameExceptFlags(a, c)
  {
  }

  lemma FlagsKeepWF(h: Net, t: Net)
    requires WF(h) && SameExceptFlags(h, t)
    ensures WF(t)
  {
  }

  lemma StopOneFlags(h: Net, ch: nat, ok: bool)
    ensures SameExceptFlags(h, StopOne(h, ch, ok))
  {
  }

  lemma {:induction false} StopListFlags(h: Net, chain: seq<nat>, fails: set<nat>)
    ensures SameExceptFlags(h, StopList(h, chain, fails))
    decreases |chain|
  {
    if chain != [] {
      var t := StopOne(h, chain[0], chain[0] !in fails);
      StopOneFlags(h, chain[0], chain[0] !in fails);
      StopListFlags(t, chain[1..], fails);
      FlagsTrans(h, t, StopList(t, chain[1..], fails));
    }
  }

  lemma {:induction false} AnnounceListFlags(h: Net, chain: seq<nat>, fails: set<nat>)
    ensures SameExceptFlags(h, AnnounceList(h, chain, fails))
    ensures AnnounceList(h, chain, fails).chans == h.chans
    decreases |chain|
  {
    if chain != [] {
      var ch := chain[0];
      var t := if ch in h.chans && !h.chans[ch].ready && !h.chans[ch].stopping
               then Announce(h, ch, ch !in fails) else h;
      AnnounceListFlags(t, chain[1..], fails);
    }
  }

  /** Events that create or remove nothing. */
  predicate Structural(e: Event) {
    e.CreateTx? || e.CreateFailed? || e.CreateRx? || e.Destroy? || e.Detach? || e.SetPrio?
  }

  lemma StoppedAllFlags(h: Net, fails: set<nat>)
    ensures SameExceptFlags(h, StoppedAll(h, fails))
  {
    var t := StopList(h, h.tx.chain, fails);
    StopListFlags(h, h.tx.chain, fails);
    StopListFlags(t, h.rx.chain, fails);
    FlagsTrans(h, t, StopList(t, h.rx.chain, fails));
  }

  lemma HearTalkerFlags(h: Net, sid: nat, isNew: bool, ok: bool)
    ensures SameExceptFlags(h, HearTalker(h, sid, isNew, ok))
  {
  }

  lemma HearListenerFlags(h: Net, sid: nat, isNew: bool)
    ensures SameExceptFlags(h, HearListener(h, sid, isNew))
  {
  }

  lemma StepFlags(h: Net, e: Event)
    requires !Structural(e)
    ensures SameExceptFlags(h, Step(h, e))
  {
    match e
    case AnnouncePass(fails) => AnnounceListFlags(h, h.tx.chain, fails);
    case ListenerNew(sid) => HearListenerFlags(h, sid, true);
    case ListenerLeaving(sid) => HearListenerFlags(h, sid, false);
    case TalkerNew(sid, ok) => HearTalkerFlags(h, sid, true, ok);
    case TalkerLeave(sid, ok) => HearTalkerFlags(h, sid, false, ok);
    case Stop(ch, ok) => StopOneFlags(h, ch, ok);
    case StopAll(fails) => StoppedAllFlags(h, fails);
  }

  lemma AddListed(h: Net, l: ChanList<nat>, t: Net, tx: bool, ch: nat)
    requires Listed(h, l.chain, tx) && ch !in l.chain
    requires forall d :: d in h.chans ==> d in t.chans && t.chans[d] == h.chans[d]
    requires ch in t.chans && t.chans[ch].tx == tx && t.chans[ch].attached
    ensures Listed(t, l.Add(ch).chain, tx)
  {
  }

  lemma DetachedWF(h: Net, ch: nat)
    requires WF(h)
    ensures WF(Detached(h, ch))
    ensures ch in h.tx.chain || ch in h.rx.chain ==>
              ch !in Detached(h, ch).tx.chain && ch !in Detached(h, ch).rx.chain
  {
    WithoutFacts(h.tx.chain, ch);
    WithoutFacts(h.rx.chain, ch);
    forall d | d in Without(h.tx.chain, ch) ensures d in h.tx.chain && d != ch {
      WithoutMember(h.tx.chain, ch, d);
    }
    forall d | d in Without(h.rx.chain, ch) ensures d in h.rx.chain && d != ch {
      WithoutMember(h.rx.chain, ch, d);
    }
  }

  lemma DestroyedWF(h: Net, ch: nat, ok: bool)
    requires WF(h)
    ensures WF(Destroyed(h, ch, ok))
  {
    var s := StopOne(h, ch, ok);
    StopOneFlags(h, ch, ok);
    FlagsKeepWF(h, s);
    DetachedWF(s, ch);
    var t := Detached(s, ch);
    assert ch !in t.tx.chain && ch !in t.rx.chain;
  }

  lemma CreatedTxWF(h: Net, sid: nat, sc: StreamClass, advertised: bool, unadvertised: bool)
    requires WF(h)
    ensures WF(NewTx(h, sid, sc)) && WF(CreatedTx(h, sid, sc, advertised, unadvertised))
  {
    var t := NewTx(h, sid, sc);
    AddListed(h, h.tx, t, true, h.nextId);
    assert WF(t);
    var a := Announce(t, h.nextId, advertised);
    FlagsKeepWF(t, a);
    DestroyedWF(a, h.nextId, unadvertised);
  }

  lemma NewRxWF(h: Net, sid: nat, sc: StreamClass)
    requires WF(h)
    ensures WF(NewRx(h, sid, sc))
  {
    AddListed(h, h.rx, NewRx(h, sid, sc), false, h.nextId);
  }

  lemma StepWF(h: Net, e: Event)
    requires WF(h)
    ensures WF(Step(h, e))
  {
    if !Structural(e) {
      StepFlags(h, e);
      FlagsKeepWF(h, Step(h, e));
    } else {
      match e
      case CreateTx(sid, sc, adv, unadv) => CreatedTxWF(h, sid, sc, adv, unadv);
      case CreateFailed(_, _) =>
      case CreateRx(sid, sc) => NewRxWF(h, sid, sc);
      case Destroy(ch, ok) => DestroyedWF(h, ch, ok);
      case Detach(ch) => DetachedWF(h, ch);
      case SetPrio(_, _) =>
    }
  }

  lemma {:induction false} RunWF(srp: bool, n: nat, es: seq<Event>)
    ensures WF(Run(srp, n, es)) && Run(srp, n, es).srp == srp
  {
    if es != [] {
      RunWF(srp, n, es[..|es| - 1]);
      StepWF(Run(srp, n, es[..|es| - 1]), es[|es| - 1]);
      StepSrp(Run(srp, n, es[..|es| - 1]), es[|es| - 1]);
    }
  }

  lemma StepSrp(h: Net, e: Event)
    ensures Step(h, e).srp == h.srp
  {
    if !Structural(e) {
      StepFlags(h, e);
    }
  }
}
