/** The signalling system and the receive path as two views of one handler.
    Channels are numbered over all creations in `Lifecycle` and over listeners
    in `RxPath`; the registrations of a run map one to the other. */
module JointRuns {
  import opened MachineInts
  import opened ChannelList
  import opened StreamTable
  import opened CaptureTime
  import opened Lifecycle
  import opened StopSafety
  import opened HandlerLists
  import AvtpFrame
  import RxPath

  // ---------------------------------------------------------------------
  // What signalling does to the receive path

  /** The listener's place among the listeners. */
  function Rank(regs: seq<Request>, ch: nat): (r: nat)
    ensures r <= |regs| && (r < |regs| ==> regs[r].owner == ch)
    ensures forall i :: 0 <= i < r ==> regs[i].owner != ch
  {
    if regs == [] || regs[0].owner == ch then 0 else 1 + Rank(regs[1..], ch)
  }

  function StopEffect(h: Net, regs: seq<Request>, ch: nat): seq<RxPath.Event> {
    if ch in h.chans && h.chans[ch].attached && !h.chans[ch].tx then [RxPath.StopChannel(Rank(regs, ch))] else []
  }

  function StopEffects(h: Net, regs: seq<Request>, chain: seq<nat>): (xs: seq<RxPath.Event>)
    ensures RxPath.LegalRun(xs)
  {
    if chain == [] then [] else StopEffect(h, regs, chain[0]) + StopEffects(h, regs, chain[1..])
  }

  function RemoveEffect(h: Net, regs: seq<Request>, ch: nat): seq<RxPath.Event> {
    if ch in h.chans && h.chans[ch].attached && !h.chans[ch].tx && ch in h.rx.chain
    then [RxPath.Removed(Rank(regs, ch))] else []
  }

  function TalkerEffect(h: Net, regs: seq<Request>, sid: nat, isNew: bool, ok: bool): seq<RxPath.Event> {
    var found := FindRx(h, sid);
    if found.Some? && ok then [RxPath.Notified(Rank(regs, found.value), isNew)] else []
  }

  /** What the receive path sees of a signalling step. */
  function Effects(h: Net, regs: seq<Request>, e: Event): (xs: seq<RxPath.Event>)
    ensures RxPath.LegalRun(xs)
  {
    match e
    case TalkerNew(sid, ok) => TalkerEffect(h, regs, sid, true, ok)
    case TalkerLeave(sid, ok) => TalkerEffect(h, regs, sid, false, ok)
    case Stop(ch, _) => StopEffect(h, regs, ch)
    case StopAll(_) => StopEffects(h, regs, h.rx.chain)
    case Destroy(ch, _) => StopEffect(h, regs, ch) + RemoveEffect(h, regs, ch)
    case Detach(ch) => RemoveEffect(h, regs, ch)
    case _ => []
  }

  // ---------------------------------------------------------------------
  // Agreement

  /** A live listener has the same stream and flags in both views. */
  predicate SameListener(c: Chan, rx: RxPath.Rx) {
    !c.tx && c.sid == rx.sid && c.attached == rx.attached && c.ready == rx.ready && c.stopping == rx.stopping
  }

  ghost predicate Agree(h: Net, regs: seq<Request>, chans: seq<RxPath.Rx>) {
    && |chans| == |regs|
    && (forall i, j :: 0 <= i < j < |regs| ==> regs[i].owner != regs[j].owner)
    && (forall i :: 0 <= i < |regs| ==> regs[i].owner < h.nextId && regs[i].sid == chans[i].sid)
    && (forall ch :: ch in h.chans && !h.chans[ch].tx ==> Rank(regs, ch) < |regs|)
    && (forall i :: 0 <= i < |regs| && regs[i].owner in h.chans ==>
          SameListener(h.chans[regs[i].owner], chans[i]))
  }

  /** Nothing that a listener has changed. */
  ghost predicate SameListeners(h: Net, t: Net) {
    && h.nextId <= t.nextId
    && (forall ch :: ch in t.chans && ch < h.nextId ==> ch in h.chans)
    && (forall ch :: ch in t.chans && ch >= h.nextId ==> t.chans[ch].tx)
    && (forall ch :: ch in h.chans && ch in t.chans ==> t.chans[ch].tx == h.chans[ch].tx)
    && (forall ch :: ch in h.chans && ch in t.chans && !h.chans[ch].tx ==>
          t.chans[ch].sid == h.chans[ch].sid && t.chans[ch].attached == h.chans[ch].attached &&
          t.chans[ch].ready == h.chans[ch].ready && t.chans[ch].stopping == h.chans[ch].stopping)
  }

  lemma SameListenersAgree(h: Net, t: Net, regs: seq<Request>, chans: seq<RxPath.Rx>)
    requires WF(h) && Agree(h, regs, chans) && SameListeners(h, t)
    ensures Agree(t, regs, chans)
  {
  }

  /** One listener changed in both views alike. */
  lemma OneListenerAgrees(h: Net, t: Net, regs: seq<Request>, chans: seq<RxPath.Rx>, ch: nat, c: Chan, rx: RxPath.Rx)
    requires Agree(h, regs, chans) && ch in h.chans && !h.chans[ch].tx
    requires t.chans == h.chans[ch := c] && t.nextId == h.nextId
    requires c.sid == h.chans[ch].sid && SameListener(c, rx)
    ensures var r := Rank(regs, ch); r < |chans| && Agree(t, regs, chans[r := rx])
  {
  }

  lemma StopOneAgrees(h: Net, regs: seq<Request>, chans: seq<RxPath.Rx>, ch: nat, ok: bool)
    requires WF(h) && Agree(h, regs, chans)
    ensures var r := Rank(regs, ch);
            if StopEffect(h, regs, ch) == [] then Agree(StopOne(h, ch, ok), regs, chans)
            else r < |chans| && Agree(StopOne(h, ch, ok), regs, chans[r := chans[r].Stop()])
  {
    hide Agree;
    var t := StopOne(h, ch, ok);
    if StopEffect(h, regs, ch) == [] {
      SameListenersAgree(h, t, regs, chans);
    } else {
      Listener(h, regs, chans, ch);
      OneListenerAgrees(h, t, regs, chans, ch, t.chans[ch], chans[Rank(regs, ch)].Stop());
    }
  }

  lemma Listener(h: Net, regs: seq<Request>, chans: seq<RxPath.Rx>, ch: nat)
    requires Agree(h, regs, chans) && ch in h.chans && !h.chans[ch].tx
    ensures var r := Rank(regs, ch); r < |chans| && SameListener(h.chans[ch], chans[r])
  {
  }

  lemma ReadyAgrees(h: Net, regs: seq<Request>, chans: seq<RxPath.Rx>, ch: nat, ready: bool)
    requires Agree(h, regs, chans) && ch in h.chans && !h.chans[ch].tx
    ensures var r := Rank(regs, ch);
            r < |chans| && Agree(h.SetReady(ch, ready), regs, chans[r := chans[r].Notify(ready)])
  {
    hide Agree;
    Listener(h, regs, chans, ch);
    OneListenerAgrees(h, h.SetReady(ch, ready), regs, chans, ch, h.chans[ch].(ready := ready),
                      chans[Rank(regs, ch)].Notify(ready));
  }

  // ---------------------------------------------------------------------
  // Steps

  /** The receive path after further events. */
  function After(k: RxPath.Handler, xs: seq<RxPath.Event>): (t: RxPath.Handler)
    requires k.WellFormed() && RxPath.LegalRun(xs)
    ensures t.WellFormed()
  {
    if xs == [] then k else RxPath.Step(After(k, xs[..|xs| - 1]), xs[|xs| - 1])
  }

  lemma {:induction false} AfterConcat(k: RxPath.Handler, xs: seq<RxPath.Event>, ys: seq<RxPath.Event>)
    requires k.WellFormed() && RxPath.LegalRun(xs) && RxPath.LegalRun(ys)
    ensures RxPath.LegalRun(xs + ys) && After(k, xs + ys) == After(After(k, xs), ys)
  {
    if ys == [] {
      assert xs + ys == xs;
    } else {
      assert (xs + ys)[..|xs + ys| - 1] == xs + ys[..|ys| - 1];
      AfterConcat(k, xs, ys[..|ys| - 1]);
    }
  }

  lemma {:induction false} RunAfter(n: nat, rs: seq<RxPath.Event>, xs: seq<RxPath.Event>)
    requires RxPath.LegalRun(rs) && RxPath.LegalRun(xs)
    ensures RxPath.LegalRun(rs + xs) && RxPath.Run(n, rs + xs) == After(RxPath.Run(n, rs), xs)
  {
    if xs == [] {
      assert rs + xs == rs;
    } else {
      assert (rs + xs)[..|rs + xs| - 1] == rs + xs[..|xs| - 1];
      RunAfter(n, rs, xs[..|xs| - 1]);
    }
  }

  lemma AfterOne(k: RxPath.Handler, x: RxPath.Event)
    requires k.WellFormed() && RxPath.Legal(x)
    ensures RxPath.LegalRun([x]) && After(k, [x]) == RxPath.Step(k, x)
  {
    assert [x][..0] == [];
  }

  lemma StopStepAgrees(h: Net, regs: seq<Request>, k: RxPath.Handler, ch: nat, ok: bool)
    requires WF(h) && k.WellFormed() && Agree(h, regs, k.chans)
    ensures RxPath.LegalRun(StopEffect(h, regs, ch))
    ensures Agree(StopOne(h, ch, ok), regs, After(k, StopEffect(h, regs, ch)).chans)
  {
    hide Agree, StopOne;
    StopOneAgrees(h, regs, k.chans, ch, ok);
    AfterOne(k, RxPath.StopChannel(Rank(regs, ch)));
  }

  lemma {:induction false} SameStopEffects(h: Net, t: Net, regs: seq<Request>, chain: seq<nat>)
    requires SameExceptFlags(h, t)
    ensures StopEffects(t, regs, chain) == StopEffects(h, regs, chain)
  {
    if chain != [] {
      SameStopEffects(h, t, regs, chain[1..]);
    }
  }

  lemma {:induction false} StopListAgrees(h: Net, regs: seq<Request>, k: RxPath.Handler, chain: seq<nat>,
                                          fails: set<nat>)
    requires WF(h) && k.WellFormed() && Agree(h, regs, k.chans)
    ensures Agree(StopList(h, chain, fails), regs, After(k, StopEffects(h, regs, chain)).chans)
    decreases |chain|
  {
    hide Agree, StopOne, StopEffect;
    if chain != [] {
      var ok := chain[0] !in fails;
      var t := StopOne(h, chain[0], ok);
      var x := StopEffect(h, regs, chain[0]);
      StopStepAgrees(h, regs, k, chain[0], ok);
      StopOneFlags(h, chain[0], ok);
      FlagsKeepWF(h, t);
      SameStopEffects(h, t, regs, chain[1..]);
      StopListAgrees(t, regs, After(k, x), chain[1..], fails);
      AfterConcat(k, x, StopEffects(h, regs, chain[1..]));
    }
  }

  lemma {:induction false} TalkersHaveNoEffect(h: Net, regs: seq<Request>, chain: seq<nat>)
    requires forall ch :: ch in chain ==> ch in h.chans && h.chans[ch].tx
    ensures StopEffects(h, regs, chain) == []
  {
    if chain != [] {
      TalkersHaveNoEffect(h, regs, chain[1..]);
    }
  }

  lemma StopAllAgrees(h: Net, regs: seq<Request>, k: RxPath.Handler, fails: set<nat>)
    requires WF(h) && k.WellFormed() && Agree(h, regs, k.chans)
    ensures Agree(StoppedAll(h, fails), regs, After(k, StopEffects(h, regs, h.rx.chain)).chans)
  {
    hide Agree, StopList, StopEffects;
    var t := StopList(h, h.tx.chain, fails);
    StopListAgrees(h, regs, k, h.tx.chain, fails);
    TalkersHaveNoEffect(h, regs, h.tx.chain);
    StopListFlags(h, h.tx.chain, fails);
    FlagsKeepWF(h, t);
    SameStopEffects(h, t, regs, h.rx.chain);
    StopListAgrees(t, regs, k, h.rx.chain, fails);
  }

  lemma TalkerAgrees(h: Net, regs: seq<Request>, k: RxPath.Handler, sid: nat, isNew: bool, ok: bool)
    requires WF(h) && k.WellFormed() && Agree(h, regs, k.chans)
    ensures RxPath.LegalRun(TalkerEffect(h, regs, sid, isNew, ok))
    ensures Agree(HearTalker(h, sid, isNew, ok), regs, After(k, TalkerEffect(h, regs, sid, isNew, ok)).chans)
  {
    hide Agree, FindRx;
    var t := HearTalker(h, sid, isNew, ok);
    var found := FindRx(h, sid);
    if found.Some? && ok {
      Found(h, sid);
      var said := h.Say(if isNew then ListenerReady else ListenerLeave, found.value, sid, ok);
      SameListenersAgree(h, said, regs, k.chans);
      ReadyAgrees(said, regs, k.chans, found.value, isNew);
      AfterOne(k, RxPath.Notified(Rank(regs, found.value), isNew));
    } else {
      SameListenersAgree(h, t, regs, k.chans);
    }
  }

  lemma Found(h: Net, sid: nat)
    requires WF(h) && FindRx(h, sid).Some?
    ensures FindRx(h, sid).value in h.chans && !h.chans[FindRx(h, sid).value].tx
  {
  }

  lemma CreatedTxSame(h: Net, sid: nat, sc: StreamClass, adv: bool, unadv: bool)
    requires WF(h)
    ensures SameListeners(h, CreatedTx(h, sid, sc, adv, unadv))
  {
    hide Destroyed, Listed;
    if h.srp && !adv {
      UnannouncedGone(h, sid, sc, unadv);
    }
  }

  lemma UnannouncedGone(h: Net, sid: nat, sc: StreamClass, unadv: bool)
    requires WF(h) && h.srp
    ensures var t := CreatedTx(h, sid, sc, false, unadv); t.chans == h.chans && t.nextId == h.nextId + 1
  {
    hide Destroyed;
    var t := NewTx(h, sid, sc);
    var a := Announce(t, h.nextId, false);
    CreatedTxWF(h, sid, sc, false, unadv);
    FlagsKeepWF(t, a);
    DestroyedMeans(a, h.nextId, unadv);
    assert a.chans - {h.nextId} == h.chans;
  }

  lemma DetachedAgrees(h: Net, regs: seq<Request>, k: RxPath.Handler, ch: nat)
    requires WF(h) && k.WellFormed() && Agree(h, regs, k.chans)
    ensures RxPath.LegalRun(RemoveEffect(h, regs, ch))
    ensures Agree(Detached(h, ch), regs, After(k, RemoveEffect(h, regs, ch)).chans)
  {
    hide Agree, Listed;
    var t := Detached(h, ch);
    if RemoveEffect(h, regs, ch) == [] {
      SameListenersAgree(h, t, regs, k.chans);
    } else {
      var r := Rank(regs, ch);
      Listener(h, regs, k.chans, ch);
      OneListenerAgrees(h, t, regs, k.chans, ch, t.chans[ch], k.chans[r].Remove());
      AfterOne(k, RxPath.Removed(r));
    }
  }

  lemma DestroyedAgrees(h: Net, regs: seq<Request>, k: RxPath.Handler, ch: nat, ok: bool)
    requires WF(h) && k.WellFormed() && Agree(h, regs, k.chans)
    ensures RxPath.LegalRun(StopEffect(h, regs, ch) + RemoveEffect(h, regs, ch))
    ensures Agree(Destroyed(h, ch, ok), regs, After(k, StopEffect(h, regs, ch) + RemoveEffect(h, regs, ch)).chans)
  {
    hide Agree, StopOne, Detached, StopEffect;
    var s := StopOne(h, ch, ok);
    var t := Detached(s, ch);
    StopStepAgrees(h, regs, k, ch, ok);
    StopOneFlags(h, ch, ok);
    FlagsKeepWF(h, s);
    var k1 := After(k, StopEffect(h, regs, ch));
    assert RemoveEffect(s, regs, ch) == RemoveEffect(h, regs, ch);
    DetachedAgrees(s, regs, k1, ch);
    AfterConcat(k, StopEffect(h, regs, ch), RemoveEffect(h, regs, ch));
    DetachedWF(s, ch);
    DestroyedSame(t, Destroyed(h, ch, ok), ch);
    SameListenersAgree(t, Destroyed(h, ch, ok), regs, After(k1, RemoveEffect(h, regs, ch)).chans);
  }

  lemma DestroyedSame(s: Net, t: Net, ch: nat)
    requires WF(s) && t.chans == s.chans - {ch} && t.nextId == s.nextId
    ensures SameListeners(s, t)
  {
  }

  lemma OtherSame(h: Net, e: Event)
    requires WF(h)
    requires e.CreateFailed? || e.AnnouncePass? || e.ListenerNew? || e.ListenerLeaving? || e.SetPrio?
    ensures SameListeners(h, Step(h, e))
  {
    hide Find, AnnounceList;
    if e.AnnouncePass? {
      AnnounceListFlags(h, h.tx.chain, e.fails);
    }
  }

  /** A signalling step and its effects keep the two views in agreement. */
  lemma SignalAgrees(h: Net, regs: seq<Request>, k: RxPath.Handler, e: Event)
    requires WF(h) && k.WellFormed() && Agree(h, regs, k.chans) && !e.CreateRx?
    ensures Agree(Step(h, e), regs, After(k, Effects(h, regs, e)).chans)
  {
    hide Agree, SameListeners, CreatedTx, HearTalker, StopOne, Destroyed, Detached;
    hide StopEffect, RemoveEffect, TalkerEffect;
    match e
    case CreateTx(sid, sc, adv, unadv) =>
      CreatedTxSame(h, sid, sc, adv, unadv);
      SameListenersAgree(h, Step(h, e), regs, k.chans);
    case TalkerNew(sid, ok) => TalkerAgrees(h, regs, k, sid, true, ok);
    case TalkerLeave(sid, ok) => TalkerAgrees(h, regs, k, sid, false, ok);
    case Stop(ch, ok) => StopStepAgrees(h, regs, k, ch, ok);
    case StopAll(fails) => StopAllAgrees(h, regs, k, fails);
    case Destroy(ch, ok) => DestroyedAgrees(h, regs, k, ch, ok);
    case Detach(ch) => DetachedAgrees(h, regs, k, ch);
    case _ =>
      OtherSame(h, e);
      SameListenersAgree(h, Step(h, e), regs, k.chans);
  }

  lemma OpenAgrees(h: Net, regs: seq<Request>, k: RxPath.Handler, sid: nat, sc: StreamClass, o: RxPath.Event)
    requires WF(h) && k.WellFormed() && Agree(h, regs, k.chans)
    requires o.Open? && o.sid == sid && o.srp == h.srp && RxPath.Legal(o)
    ensures Agree(NewRx(h, sid, sc), regs + [Request(sid, h.nextId)], RxPath.Step(k, o).chans)
  {
    hide Register, Listed;
    var t := NewRx(h, sid, sc);
    var more := regs + [Request(sid, h.nextId)];
    var chans := k.chans + [RxPath.NewRx(sid, o.size, o.memory, !h.srp)];
    assert RxPath.Step(k, o).chans == chans;
    forall ch | ch in t.chans && !t.chans[ch].tx
      ensures Rank(more, ch) < |more|
    {
      var r := if ch == h.nextId then |regs| else Rank(regs, ch);
      assert more[r].owner == ch;
    }
    assert Agree(t, more, chans);
  }

  predicate IsData(d: RxPath.Event) {
    d.Feed? || d.EnterRead? || d.FinishRead?
  }

  lemma DataKeepsFlags(k: RxPath.Handler, d: RxPath.Event)
    requires k.WellFormed() && RxPath.Legal(d) && IsData(d)
    ensures var t := RxPath.Step(k, d);
            && |t.chans| == |k.chans|
            && forall i :: 0 <= i < |k.chans| ==>
                 t.chans[i].sid == k.chans[i].sid && t.chans[i].attached == k.chans[i].attached &&
                 t.chans[i].ready == k.chans[i].ready && t.chans[i].stopping == k.chans[i].stopping
  {
  }

  lemma DataAgrees(h: Net, regs: seq<Request>, k: RxPath.Handler, d: RxPath.Event)
    requires k.WellFormed() && Agree(h, regs, k.chans) && RxPath.Legal(d) && IsData(d)
    ensures Agree(h, regs, RxPath.Step(k, d).chans)
  {
    DataKeepsFlags(k, d);
    hide RxPath.Step;
  }

  // ---------------------------------------------------------------------
  // Joint runs

  /** What happens to a handler: a signalling step, a listener made with its
      size and callback memory, or a frame or read on the receive path. */
  datatype Act =
    | Signal(e: Event)
    | Listen(sid: nat, sc: StreamClass, size: nat, memory: seq<byte>)
    | Data(d: RxPath.Event)

  predicate Proper(a: Act) {
    match a
    case Signal(e) => !e.CreateRx?
    case Listen(sid, _, size, memory) => RxPath.Legal(RxPath.Open(sid, size, memory, false))
    case Data(d) => RxPath.Legal(d) && IsData(d)
  }

  predicate ProperRun(acts: seq<Act>) {
    forall i :: 0 <= i < |acts| ==> Proper(acts[i])
  }

  /** The run as the signalling system sees it. */
  function Signals(acts: seq<Act>): seq<Event> {
    if acts == [] then []
    else
      Signals(acts[..|acts| - 1]) +
      match acts[|acts| - 1]
      case Signal(e) => [e]
      case Listen(sid, sc, _, _) => [CreateRx(sid, sc)]
      case Data(_) => []
  }

  /** The run as the receive path sees it. */
  function Receives(srp: bool, n: nat, acts: seq<Act>): (rs: seq<RxPath.Event>)
    requires ProperRun(acts)
    ensures RxPath.LegalRun(rs)
  {
    if acts == [] then []
    else
      var past := Signals(acts[..|acts| - 1]);
      Receives(srp, n, acts[..|acts| - 1]) +
      match acts[|acts| - 1]
      case Signal(e) => Effects(Run(srp, n, past), Registrations(srp, n, past), e)
      case Listen(sid, _, size, memory) => [RxPath.Open(sid, size, memory, srp)]
      case Data(d) => [d]
  }

  lemma RunAppend(srp: bool, n: nat, es: seq<Event>, e: Event)
    ensures Run(srp, n, es + [e]) == Step(Run(srp, n, es), e)
    ensures Registrations(srp, n, es + [e]) ==
            Registrations(srp, n, es) + if e.CreateRx? then [Request(e.sid, Run(srp, n, es).nextId)] else []
  {
    assert (es + [e])[..|es|] == es;
  }

  /** Both systems describe one handler: after any joint run a live listener has
      the same stream and flags in both views. */
  lemma {:induction false} OneHandler(srp: bool, n: nat, acts: seq<Act>)
    requires ProperRun(acts)
    ensures var es := Signals(acts);
            Agree(Run(srp, n, es), Registrations(srp, n, es), RxPath.Run(n, Receives(srp, n, acts)).chans)
  {
    hide Agree, Step, RxPath.Step, Effects;
    if acts == [] {
      EmptyAgrees(srp, n);
    } else {
      var last := acts[|acts| - 1];
      var es := Signals(acts[..|acts| - 1]);
      var rs := Receives(srp, n, acts[..|acts| - 1]);
      var h, regs, k := Run(srp, n, es), Registrations(srp, n, es), RxPath.Run(n, rs);
      OneHandler(srp, n, acts[..|acts| - 1]);
      RunWF(srp, n, es);
      match last
      case Signal(e) =>
        RunAppend(srp, n, es, e);
        RunAfter(n, rs, Effects(h, regs, e));
        SignalAgrees(h, regs, k, e);
        assert regs + [] == regs;
      case Listen(sid, sc, size, memory) =>
        var o := RxPath.Open(sid, size, memory, srp);
        RunAppend(srp, n, es, CreateRx(sid, sc));
        ListenStep(h, sid, sc);
        RunAfter(n, rs, [o]);
        AfterOne(k, o);
        OpenAgrees(h, regs, k, sid, sc, o);
      case Data(d) =>
        assert es + [] == es;
        RunAfter(n, rs, [d]);
        AfterOne(k, d);
        DataAgrees(h, regs, k, d);
    }
  }

  lemma ListenStep(h: Net, sid: nat, sc: StreamClass)
    ensures Step(h, CreateRx(sid, sc)) == NewRx(h, sid, sc)
  {
  }

  lemma EmptyAgrees(srp: bool, n: nat)
    ensures Agree(Run(srp, n, []), Registrations(srp, n, []), RxPath.Run(n, []).chans)
  {
  }

  /** The checks in front of a read agree. */
  lemma ReadsAgree(srp: bool, n: nat, acts: seq<Act>, ch: nat)
    requires ProperRun(acts)
    requires var h := Run(srp, n, Signals(acts)); ch in h.chans && !h.chans[ch].tx
    ensures var k := RxPath.Run(n, Receives(srp, n, acts));
            var r := Rank(Registrations(srp, n, Signals(acts)), ch);
            r < |k.chans| &&
            (ReadAdmitted(Run(srp, n, Signals(acts)), ch) <==> k.chans[r].Usable() && !k.chans[r].stopping)
  {
    OneHandler(srp, n, acts);
    Listener(Run(srp, n, Signals(acts)), Registrations(srp, n, Signals(acts)),
             RxPath.Run(n, Receives(srp, n, acts)).chans, ch);
  }

  /** So do the tables: the same streams are known, to the same listeners. */
  lemma TablesAgree(srp: bool, n: nat, acts: seq<Act>, q: nat)
    requires ProperRun(acts)
    ensures var h, k := Run(srp, n, Signals(acts)), RxPath.Run(n, Receives(srp, n, acts));
            var regs := Registrations(srp, n, Signals(acts));
            var i, j := Lookup(h.table, q), Lookup(k.table, q);
            if i < 0 then j < 0
            else j >= 0 && k.table[j].owner < |regs| && regs[k.table[j].owner].owner == h.table[i].owner
  {
    hide Receives, Signals, Registrations, RxPath.Requests, RxPath.Run, Run;
    SameRequests(srp, n, acts);
    HandlerLists.RunTable(srp, n, Signals(acts));
    RxPath.RunTable(n, Receives(srp, n, acts));
    TablesMatch(n, Registrations(srp, n, Signals(acts)), RxPath.Requests(Receives(srp, n, acts)), q);
  }

  lemma TablesMatch(n: nat, regs: seq<Request>, reqs: seq<Request>, q: nat)
    requires |regs| == |reqs| && forall i :: 0 <= i < |regs| ==> regs[i].sid == reqs[i].sid && reqs[i].owner == i
    ensures var s, t := Build(n, regs), Build(n, reqs);
            var i, j := Lookup(s, q), Lookup(t, q);
            if i < 0 then j < 0
            else j >= 0 && t[j].owner < |regs| && regs[t[j].owner].owner == s[i].owner
  {
    hide Build, SlotOf;
    FirstWins(n, regs, q);
    FirstWins(n, reqs, q);
    assert forall i :: 0 <= i < |Granted(n, regs)| ==> Granted(n, regs)[i].sid == Granted(n, reqs)[i].sid;
    assert First(Granted(n, regs), q) == First(Granted(n, reqs), q);
  }

  lemma SameRequests(srp: bool, n: nat, acts: seq<Act>)
    requires ProperRun(acts)
    ensures var regs, reqs := Registrations(srp, n, Signals(acts)), RxPath.Requests(Receives(srp, n, acts));
            |regs| == |reqs| && forall i :: 0 <= i < |regs| ==> regs[i].sid == reqs[i].sid && reqs[i].owner == i
  {
    OneHandler(srp, n, acts);
    RxPath.RunChannels(n, Receives(srp, n, acts));
  }

  // ---------------------------------------------------------------------
  // First in, first out without notifications

  predicate Quiet(acts: seq<Act>) {
    forall i :: 0 <= i < |acts| && acts[i].Signal? ==> !acts[i].e.TalkerNew? && !acts[i].e.TalkerLeave?
  }

  lemma {:induction false} StopsNotice(h: Net, regs: seq<Request>, chain: seq<nat>)
    ensures RxPath.NoNotice(StopEffects(h, regs, chain))
  {
    if chain != [] {
      StopsNotice(h, regs, chain[1..]);
    }
  }

  lemma {:induction false} QuietReceives(srp: bool, n: nat, acts: seq<Act>)
    requires ProperRun(acts) && Quiet(acts)
    ensures RxPath.NoNotice(Receives(srp, n, acts))
  {
    if acts != [] {
      var last := acts[|acts| - 1];
      var es := Signals(acts[..|acts| - 1]);
      QuietReceives(srp, n, acts[..|acts| - 1]);
      if last.Signal? && last.e.StopAll? {
        StopsNotice(Run(srp, n, es), Registrations(srp, n, es), Run(srp, n, es).rx.chain);
      }
    }
  }

  /** Without talker notifications, as without SRP, what a listener's reads
      returned is a prefix of what arrived for its stream, through any creations,
      stops and removals; and nothing is ever lost or made up exactly when no
      blocked read ends, with a sample in the pipe, on a listener that
      `nh_remove_rx` took out before its stop. */
  lemma QuietFifo(srp: bool, n: nat, acts: seq<Act>, c: nat)
    requires ProperRun(acts) && Quiet(acts) && c < n
    requires RxPath.OnlyReceiver(Receives(srp, n, acts), c)
    ensures var rs := Receives(srp, n, acts);
            && c < |RxPath.Run(n, rs).chans|
            && RxPath.Run(n, rs).chans[c].got <= RxPath.Fed(rs, c)
            && ((forall i :: 0 <= i <= |rs| ==> RxPath.Exact(n, rs[..i], c)) <==>
                (forall k :: 0 <= k < |rs| ==> !RxPath.RemovedAt(n, rs, k, c)))
  {
    QuietReceives(srp, n, acts);
    RxPath.QuietFifoIff(n, Receives(srp, n, acts), c);
  }

  // ---------------------------------------------------------------------
  // A removal under a blocked reader

  /** Listen, block in a read, `nh_remove_rx`, a frame, the read ends. */
  function RemovedReader(sid: nat, sc: StreamClass, size: nat, memory: seq<byte>, frame: seq<byte>): seq<Act> {
    [Listen(sid, sc, size, memory), Data(RxPath.EnterRead(0)), Signal(Detach(0)),
     Data(RxPath.Feed(frame, 0, 0)), Data(RxPath.FinishRead(0))]
  }

  lemma ReceivesAppend(srp: bool, n: nat, acts: seq<Act>, a: Act)
    requires ProperRun(acts) && Proper(a)
    ensures ProperRun(acts + [a])
    ensures var past := Signals(acts);
            && Signals(acts + [a]) == past + (match a
                                              case Signal(e) => [e]
                                              case Listen(sid, sc, _, _) => [CreateRx(sid, sc)]
                                              case Data(_) => [])
            && Receives(srp, n, acts + [a]) ==
               Receives(srp, n, acts) +
               match a
               case Signal(e) => Effects(Run(srp, n, past), Registrations(srp, n, past), e)
               case Listen(sid, _, size, memory) => [RxPath.Open(sid, size, memory, srp)]
               case Data(d) => [d]
  {
    assert (acts + [a])[..|acts|] == acts;
  }

  lemma RemovedEffect(n: nat, sid: nat, sc: StreamClass)
    ensures var es := [CreateRx(sid, sc)];
            Effects(Run(false, n, es), Registrations(false, n, es), Detach(0)) == [RxPath.Removed(0)]
  {
    var es := [CreateRx(sid, sc)];
    assert es[..0] == [];
    assert Run(false, n, es).rx.chain == [0];
    assert Registrations(false, n, es) == [Request(sid, 0)];
  }

  /** The source of a loss without SRP and without a stop: the one sample that
      arrived was taken and not returned. */
  lemma RemovedReaderExample(n: nat, sid: nat, sc: StreamClass, size: nat, memory: seq<byte>, frame: seq<byte>)
    requires n > 0 && 0 < sid && RxPath.Legal(RxPath.Open(sid, size, memory, false))
    requires RxPath.Legal(RxPath.Feed(frame, 0, 0)) && AvtpFrame.StreamIdOf(frame) == sid
    ensures var acts := RemovedReader(sid, sc, size, memory, frame);
            && ProperRun(acts) && Quiet(acts)
            && var rs := Receives(false, n, acts);
               && |RxPath.Run(n, rs).chans| == 1 && RxPath.Run(n, rs).chans[0].got == []
               && |RxPath.Fed(rs, 0)| == 1 && RxPath.Taken(n, rs, 0) == 1 && !RxPath.Exact(n, rs, 0)
  {
    RemovedProjects(n, sid, sc, size, memory, frame);
    hide Receives, RxPath.Run, RxPath.Fed, RxPath.Taken, RxPath.Exact;
    RxPath.RemovedReaderExample(n, sid, size, memory, frame);
  }

  lemma RemovedProjects(n: nat, sid: nat, sc: StreamClass, size: nat, memory: seq<byte>, frame: seq<byte>)
    requires RxPath.Legal(RxPath.Open(sid, size, memory, false)) && RxPath.Legal(RxPath.Feed(frame, 0, 0))
    ensures var acts := RemovedReader(sid, sc, size, memory, frame);
            ProperRun(acts) && Receives(false, n, acts) == RxPath.RemovedReader(sid, size, memory, frame)
  {
    var o := Listen(sid, sc, size, memory);
    var enter, feed, finish := RxPath.EnterRead(0), RxPath.Feed(frame, 0, 0), RxPath.FinishRead(0);
    assert Receives(false, n, []) == [] && Signals([]) == [];
    hide Receives, Signals, Effects, Run, Registrations;
    ReceivesAppend(false, n, [], o);
    ReceivesAppend(false, n, [] + [o], Data(enter));
    ReceivesAppend(false, n, [] + [o] + [Data(enter)], Signal(Detach(0)));
    ReceivesAppend(false, n, [] + [o] + [Data(enter)] + [Signal(Detach(0))], Data(feed));
    ReceivesAppend(false, n, [] + [o] + [Data(enter)] + [Signal(Detach(0))] + [Data(feed)], Data(finish));
    assert Signals([] + [o] + [Data(enter)]) == [CreateRx(sid, sc)];
    RemovedEffect(n, sid, sc);
    assert RemovedReader(sid, sc, size, memory, frame) ==
           [] + [o] + [Data(enter)] + [Signal(Detach(0))] + [Data(feed)] + [Data(finish)];
    assert [] + [RxPath.Open(sid, size, memory, false)] + [enter] + [RxPath.Removed(0)] + [feed] + [finish] ==
           RxPath.RemovedReader(sid, size, memory, frame);
  }
}
