/** A listener's `ready` flag and what the network was told about it. */
module ListenerAgreement {
  import opened MachineInts
  import opened ChannelList
  import opened CaptureTime
  import opened Lifecycle
  import opened StopSafety

  predicate IsDeclaration(x: Sent, sid: nat) {
    x.ok && x.sid == sid && (x.msg == ListenerReady || x.msg == ListenerLeave)
  }

  /** The last listener declaration for the stream that was handed over. */
  function LastDeclared(trace: seq<Sent>, sid: nat): Option<Msg> {
    if trace == [] then None
    else if IsDeclaration(trace[|trace| - 1], sid) then Some(trace[|trace| - 1].msg)
    else LastDeclared(trace[..|trace| - 1], sid)
  }

  lemma LastDeclaredAppend(trace: seq<Sent>, x: Sent, sid: nat)
    ensures LastDeclared(trace + [x], sid) == if IsDeclaration(x, sid) then Some(x.msg) else LastDeclared(trace, sid)
  {
    assert (trace + [x])[..|trace|] == trace;
  }

  /** The streams of the channels a run creates or tries to create. */
  function Streams(es: seq<Event>): seq<nat> {
    if es == [] then []
    else
      var last := es[|es| - 1];
      Streams(es[..|es| - 1]) +
      (if last.CreateTx? || last.CreateFailed? || last.CreateRx? then [last.sid] else [])
  }

  /** A listener that is not stopping is ready exactly when its last successful
      declaration said so. */
  predicate Agrees(h: Net, ch: nat)
    requires ch in h.chans
  {
    var c := h.chans[ch];
    !c.tx && !c.stopping ==> (c.ready <==> LastDeclared(h.trace, c.sid) == Some(ListenerReady))
  }

  ghost predicate OwnStreams(h: Net, used: seq<nat>) {
    && (forall ch :: ch in h.chans ==> h.chans[ch].sid in used)
    && (forall a, b :: a in h.chans && b in h.chans && a != b ==> h.chans[a].sid != h.chans[b].sid)
  }

  ghost predicate AllAgree(h: Net, used: seq<nat>) {
    && OwnStreams(h, used)
    && (forall sid :: sid !in used ==> LastDeclared(h.trace, sid) == None)
    && (forall ch :: ch in h.chans ==> Agrees(h, ch))
  }

  lemma StopOneAgrees(h: Net, x: nat, ok: bool, used: seq<nat>)
    requires AllAgree(h, used)
    ensures AllAgree(StopOne(h, x, ok), used)
  {
  }

  lemma {:induction false} StopListAgrees(h: Net, chain: seq<nat>, fails: set<nat>, used: seq<nat>)
    requires AllAgree(h, used)
    ensures AllAgree(StopList(h, chain, fails), used)
    decreases |chain|
  {
    if chain != [] {
      StopOneAgrees(h, chain[0], chain[0] !in fails, used);
      StopListAgrees(StopOne(h, chain[0], chain[0] !in fails), chain[1..], fails, used);
    }
  }

  lemma {:induction false} AnnounceListDeclares(h: Net, chain: seq<nat>, fails: set<nat>, sid: nat)
    ensures LastDeclared(AnnounceList(h, chain, fails).trace, sid) == LastDeclared(h.trace, sid)
    decreases |chain|
  {
    if chain != [] {
      var x := chain[0];
      var t := if x in h.chans && !h.chans[x].ready && !h.chans[x].stopping
               then Announce(h, x, x !in fails) else h;
      if x in h.chans {
        LastDeclaredAppend(h.trace, Sent(Advertise, x, h.chans[x].sid, x !in fails), sid);
      }
      AnnounceListDeclares(t, chain[1..], fails, sid);
    }
  }

  lemma AnnounceListAgrees(h: Net, fails: set<nat>, used: seq<nat>)
    requires AllAgree(h, used)
    ensures AllAgree(AnnounceList(h, h.tx.chain, fails), used)
  {
    AnnounceListFlags(h, h.tx.chain, fails);
    forall sid
      ensures LastDeclared(AnnounceList(h, h.tx.chain, fails).trace, sid) == LastDeclared(h.trace, sid)
    {
      AnnounceListDeclares(h, h.tx.chain, fails, sid);
    }
  }

  lemma HearTalkerAgrees(h: Net, sid: nat, isNew: bool, ok: bool, used: seq<nat>)
    requires AllAgree(h, used)
    ensures AllAgree(HearTalker(h, sid, isNew, ok), used)
  {
  }

  lemma HearListenerAgrees(h: Net, sid: nat, isNew: bool, used: seq<nat>)
    requires WF(h) && AllAgree(h, used)
    ensures AllAgree(HearListener(h, sid, isNew), used)
  {
  }

  lemma DestroyedAgrees(h: Net, x: nat, ok: bool, used: seq<nat>)
    requires AllAgree(h, used)
    ensures AllAgree(Destroyed(h, x, ok), used)
  {
    StopOneAgrees(h, x, ok, used);
  }

  lemma AnnouncedAgrees(h: Net, sid: nat, sc: StreamClass, adv: bool, used: seq<nat>)
    requires WF(h) && h.srp && AllAgree(h, used) && sid !in used
    ensures AllAgree(Announce(NewTx(h, sid, sc), h.nextId, adv), used + [sid])
  {
    hide LastDeclared;
    var a := Announce(NewTx(h, sid, sc), h.nextId, adv);
    forall s
      ensures LastDeclared(a.trace, s) == LastDeclared(h.trace, s)
    {
      LastDeclaredAppend(h.trace, Sent(Advertise, h.nextId, sid, adv), s);
    }
  }

  lemma CreatedTxAgrees(h: Net, sid: nat, sc: StreamClass, adv: bool, unadv: bool, used: seq<nat>)
    requires WF(h) && h.srp && AllAgree(h, used) && sid !in used
    ensures AllAgree(CreatedTx(h, sid, sc, adv, unadv), used + [sid])
  {
    hide AllAgree, Announce, NewTx, Destroyed;
    AnnouncedAgrees(h, sid, sc, adv, used);
    DestroyedAgrees(Announce(NewTx(h, sid, sc), h.nextId, adv), h.nextId, unadv, used + [sid]);
  }

  lemma FailedCreateAgrees(h: Net, sid: nat, ok: bool, used: seq<nat>)
    requires AllAgree(h, used) && sid !in used
    ensures AllAgree(FailedCreate(h, sid, ok), used + [sid])
  {
  }

  lemma NewRxAgrees(h: Net, sid: nat, sc: StreamClass, used: seq<nat>)
    requires WF(h) && h.srp && AllAgree(h, used) && sid !in used
    ensures AllAgree(NewRx(h, sid, sc), used + [sid])
  {
  }

  lemma DetachedAgrees(h: Net, ch: nat, used: seq<nat>)
    requires AllAgree(h, used)
    ensures AllAgree(Detached(h, ch), used)
  {
  }

  lemma StepAgrees(h: Net, e: Event, used: seq<nat>)
    requires WF(h) && h.srp && AllAgree(h, used)
    requires e.CreateTx? || e.CreateFailed? || e.CreateRx? ==> e.sid !in used
    ensures AllAgree(Step(h, e), used + (if e.CreateTx? || e.CreateFailed? || e.CreateRx? then [e.sid] else []))
  {
    assert used + [] == used;
    match e
    case CreateTx(sid, sc, adv, unadv) => CreatedTxAgrees(h, sid, sc, adv, unadv, used);
    case CreateFailed(sid, ok) => FailedCreateAgrees(h, sid, ok, used);
    case CreateRx(sid, sc) => NewRxAgrees(h, sid, sc, used);
    case AnnouncePass(fails) => AnnounceListAgrees(h, fails, used);
    case ListenerNew(sid) => HearListenerAgrees(h, sid, true, used);
    case ListenerLeaving(sid) => HearListenerAgrees(h, sid, false, used);
    case TalkerNew(sid, ok) => HearTalkerAgrees(h, sid, true, ok, used);
    case TalkerLeave(sid, ok) => HearTalkerAgrees(h, sid, false, ok, used);
    case Stop(x, ok) => StopOneAgrees(h, x, ok, used);
    case StopAll(fails) =>
      StopListAgrees(h, h.tx.chain, fails, used);
      StopListAgrees(StopList(h, h.tx.chain, fails), h.rx.chain, fails, used);
    case Destroy(x, ok) => DestroyedAgrees(h, x, ok, used);
    case Detach(x) => DetachedAgrees(h, x, used);
    case SetPrio(_, _) =>
  }

  lemma {:induction false} RunAgrees(n: nat, es: seq<Event>)
    requires Distinct(Streams(es))
    ensures AllAgree(Run(true, n, es), Streams(es))
  {
    if es != [] {
      var past := es[..|es| - 1];
      var last := es[|es| - 1];
      var creates := last.CreateTx? || last.CreateFailed? || last.CreateRx?;
      assert Streams(past) == Streams(es)[..|Streams(past)|];
      if creates {
        assert Streams(es)[|Streams(past)|] == last.sid;
      }
      RunAgrees(n, past);
      RunWF(true, n, past);
      StepAgrees(Run(true, n, past), last, Streams(past));
    }
  }

  /** Agreement: in every state an SRP run with distinct streams reaches, for
      every pattern of send failures, a listener that is not stopping is ready
      exactly when the last declaration successfully sent for its stream was the
      ready one. */
  lemma ListenersAgree(n: nat, es: seq<Event>, ch: nat)
    requires Distinct(Streams(es))
    requires ch in Run(true, n, es).chans
    requires var c := Run(true, n, es).chans[ch]; !c.tx && !c.stopping
    ensures var h := Run(true, n, es);
            h.chans[ch].ready <==> LastDeclared(h.trace, h.chans[ch].sid) == Some(ListenerReady)
  {
    RunAgrees(n, es);
    assert Agrees(Run(true, n, es), ch);
  }
}
