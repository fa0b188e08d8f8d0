/** Who declares listeners to the network: only channels created as listeners,
    unless a channel failed while being made. */
module Declarations {
  import opened MachineInts
  import opened ChannelList
  import opened StreamTable
  import opened CaptureTime
  import opened Lifecycle
  import opened StopSafety
  import opened HandlerLists
  import ListenerAgreement

  predicate Declares(x: Sent) {
    x.msg == ListenerReady || x.msg == ListenerLeave
  }

  /** The message names a listener of the handler and its stream. */
  predicate ByListener(h: Net, x: Sent) {
    x.ch in h.chans && !h.chans[x.ch].tx && h.chans[x.ch].sid == x.sid
  }

  /** From `h` to `t` messages were only added, and the listener declarations
      among them come from listeners. */
  ghost predicate Adds(h: Net, t: Net) {
    && h.trace <= t.trace
    && forall i :: |h.trace| <= i < |t.trace| && Declares(t.trace[i]) ==> ByListener(h, t.trace[i])
  }

  lemma AddsTrans(a: Net, b: Net, c: Net)
    requires SameExceptFlags(a, b) && Adds(a, b) && Adds(b, c)
    ensures Adds(a, c)
  {
  }

  lemma StopOneAdds(h: Net, x: nat, ok: bool)
    ensures Adds(h, StopOne(h, x, ok))
  {
  }

  lemma {:induction false} StopListAdds(h: Net, chain: seq<nat>, fails: set<nat>)
    ensures Adds(h, StopList(h, chain, fails))
    decreases |chain|
  {
    if chain != [] {
      var t := StopOne(h, chain[0], chain[0] !in fails);
      StopOneAdds(h, chain[0], chain[0] !in fails);
      StopOneFlags(h, chain[0], chain[0] !in fails);
      StopListAdds(t, chain[1..], fails);
      AddsTrans(h, t, StopList(t, chain[1..], fails));
    }
  }

  lemma {:induction false} AnnounceListAdds(h: Net, chain: seq<nat>, fails: set<nat>)
    ensures Adds(h, AnnounceList(h, chain, fails))
    decreases |chain|
  {
    if chain != [] {
      var ch := chain[0];
      var t := if ch in h.chans && !h.chans[ch].ready && !h.chans[ch].stopping
               then Announce(h, ch, ch !in fails) else h;
      AnnounceListAdds(t, chain[1..], fails);
      AddsTrans(h, t, AnnounceList(t, chain[1..], fails));
    }
  }

  lemma StoppedAllAdds(h: Net, fails: set<nat>)
    ensures Adds(h, StoppedAll(h, fails))
  {
    var t := StopList(h, h.tx.chain, fails);
    StopListAdds(h, h.tx.chain, fails);
    StopListFlags(h, h.tx.chain, fails);
    StopListAdds(t, h.rx.chain, fails);
    AddsTrans(h, t, StopList(t, h.rx.chain, fails));
  }

  lemma CreatedTxAdds(h: Net, sid: nat, sc: StreamClass, adv: bool, unadv: bool)
    ensures Adds(h, CreatedTx(h, sid, sc, adv, unadv))
  {
    var t := NewTx(h, sid, sc);
    var a := Announce(t, h.nextId, adv);
    StopOneAdds(a, h.nextId, unadv);
  }

  lemma HearTalkerAdds(h: Net, sid: nat, isNew: bool, ok: bool)
    requires WF(h)
    ensures Adds(h, HearTalker(h, sid, isNew, ok))
  {
  }

  /** Every step but one lets only listeners declare. */
  lemma StepAdds(h: Net, e: Event)
    requires WF(h)
    ensures h.trace <= Step(h, e).trace
    ensures !h.srp || !e.CreateFailed? ==> Adds(h, Step(h, e))
    ensures h.srp && e.CreateFailed? ==>
              Step(h, e).trace == h.trace + [Sent(ListenerLeave, h.nextId, e.sid, e.ok)]
  {
    match e
    case CreateTx(sid, sc, adv, unadv) => CreatedTxAdds(h, sid, sc, adv, unadv);
    case AnnouncePass(fails) => AnnounceListAdds(h, h.tx.chain, fails);
    case TalkerNew(sid, ok) => HearTalkerAdds(h, sid, true, ok);
    case TalkerLeave(sid, ok) => HearTalkerAdds(h, sid, false, ok);
    case Stop(ch, ok) => StopOneAdds(h, ch, ok);
    case StopAll(fails) => StoppedAllAdds(h, fails);
    case Destroy(ch, ok) => StopOneAdds(h, ch, ok);
    case _ =>
  }

  /** Every listener declaration sent names a channel created as a listener. */
  ghost predicate OnlyListenersDeclare(trace: seq<Sent>, reqs: seq<Request>) {
    forall i :: 0 <= i < |trace| && Declares(trace[i]) ==> Request(trace[i].sid, trace[i].ch) in reqs
  }

  predicate HalfMade(es: seq<Event>) {
    exists k :: 0 <= k < |es| && es[k].CreateFailed?
  }

  /** A declaration in the name of a number no listener has or will have. */
  ghost predicate Stray(h: Net, reqs: seq<Request>, i: nat) {
    && i < |h.trace| && Declares(h.trace[i]) && h.trace[i].ch < h.nextId
    && forall r :: r in reqs ==> r.owner != h.trace[i].ch
  }

  lemma {:induction false} OwnersBelow(srp: bool, n: nat, es: seq<Event>)
    ensures forall r :: r in Registrations(srp, n, es) ==> r.owner < Run(srp, n, es).nextId
  {
    if es != [] {
      var past := es[..|es| - 1];
      OwnersBelow(srp, n, past);
      var h := Run(srp, n, past);
      forall r | r in Registrations(srp, n, es)
        ensures r.owner < Run(srp, n, es).nextId
      {
        if r in Registrations(srp, n, past) {
          StepGone(h, es[|es| - 1], r.owner);
        }
      }
    }
  }

  lemma {:induction false} DeclaredRightly(srp: bool, n: nat, es: seq<Event>)
    requires !srp || !HalfMade(es)
    ensures OnlyListenersDeclare(Run(srp, n, es).trace, Registrations(srp, n, es))
  {
    if es != [] {
      var past := es[..|es| - 1];
      var h := Run(srp, n, past);
      assert forall k :: 0 <= k < |past| ==> past[k] == es[k];
      DeclaredRightly(srp, n, past);
      RunWF(srp, n, past);
      RunRegistered(srp, n, past);
      StepAdds(h, es[|es| - 1]);
      DeclaredStep(h, Step(h, es[|es| - 1]), Registrations(srp, n, past), Registrations(srp, n, es));
    }
  }

  lemma DeclaredStep(h: Net, t: Net, reqs: seq<Request>, more: seq<Request>)
    requires OnlyListenersDeclare(h.trace, reqs) && AllRegistered(h, reqs) && Adds(h, t) && reqs <= more
    ensures OnlyListenersDeclare(t.trace, more)
  {
    forall i | 0 <= i < |t.trace| && Declares(t.trace[i])
      ensures Request(t.trace[i].sid, t.trace[i].ch) in more
    {
      if i < |h.trace| {
        assert t.trace[i] == h.trace[i];
      }
      assert Request(t.trace[i].sid, t.trace[i].ch) in reqs;
    }
  }

  lemma {:induction false} DeclaredWrongly(n: nat, es: seq<Event>) returns (i: nat)
    requires HalfMade(es)
    ensures Stray(Run(true, n, es), Registrations(true, n, es), i)
  {
    var past := es[..|es| - 1];
    var last := es[|es| - 1];
    var h := Run(true, n, past);
    hide Step, Stray, Registrations, WF;
    RunWF(true, n, past);
    NewOwners(true, n, es);
    if last.CreateFailed? {
      OwnersBelow(true, n, past);
      i := |h.trace|;
      StrayAppears(h, last, Registrations(true, n, past));
    } else {
      var k :| 0 <= k < |es| && es[k].CreateFailed?;
      assert past[k] == es[k];
      i := DeclaredWrongly(n, past);
      StrayKept(h, last, Registrations(true, n, past), Registrations(true, n, es), i);
    }
  }

  lemma NewOwners(srp: bool, n: nat, es: seq<Event>)
    requires es != []
    ensures var past := es[..|es| - 1];
            var reqs, more := Registrations(srp, n, past), Registrations(srp, n, es);
            && (forall r :: r in more ==> r in reqs || r.owner >= Run(srp, n, past).nextId)
            && (!es[|es| - 1].CreateRx? ==> more == reqs)
  {
  }

  lemma StrayAppears(h: Net, e: Event, reqs: seq<Request>)
    requires h.srp && e.CreateFailed? && forall r :: r in reqs ==> r.owner < h.nextId
    ensures Stray(Step(h, e), reqs, |h.trace|)
  {
  }

  lemma StrayKept(h: Net, e: Event, reqs: seq<Request>, more: seq<Request>, i: nat)
    requires WF(h) && Stray(h, reqs, i)
    requires forall r :: r in more ==> r in reqs || r.owner >= h.nextId
    ensures Stray(Step(h, e), more, i)
  {
    hide Step;
    StepAdds(h, e);
    StepGone(h, e, h.trace[i].ch);
    assert Step(h, e).trace[i] == h.trace[i];
  }

  /** Over every run, each listener declaration names a channel created as a
      listener exactly when SRP is off or no channel failed half-made. */
  lemma DeclaredIff(srp: bool, n: nat, es: seq<Event>)
    ensures OnlyListenersDeclare(Run(srp, n, es).trace, Registrations(srp, n, es)) <==> !srp || !HalfMade(es)
  {
    if srp && HalfMade(es) {
      var i := DeclaredWrongly(n, es);
      assert Request(Run(srp, n, es).trace[i].sid, Run(srp, n, es).trace[i].ch) !in Registrations(srp, n, es);
    } else {
      DeclaredRightly(srp, n, es);
    }
  }

  /** What it costs: a listener is ready, and the last the network heard of its
      stream is that the listener left. */
  lemma HalfMadeExample()
    ensures var h := Run(true, 1, [CreateRx(5, Tas), TalkerNew(5, true), CreateFailed(5, true)]);
            0 in h.chans && h.chans[0] == Chan(false, 5, Tas, 0, true, true, false) &&
            ListenerAgreement.LastDeclared(h.trace, 5) == Some(ListenerLeave)
  {
    var es := [CreateRx(5, Tas), TalkerNew(5, true), CreateFailed(5, true)];
    RunStep(true, 1, es, 0);
    RunStep(true, 1, es, 1);
    RunStep(true, 1, es, 2);
    assert es[..0] == [] && es[..3] == es;
    var h1 := Run(true, 1, es[..1]);
    assert h1.chans[0] == Chan(false, 5, Tas, 0, true, false, false) && h1.rx.chain == [0];
    RegisterLookup(EmptyTable(1), 5, 0, 5);
    assert FindRx(h1, 5) == Some(0);
    var h2 := Run(true, 1, es[..2]);
    assert h2.chans[0].ready;
  }

  // ---------------------------------------------------------------------
  // Whose stream a message names

  predicate ByTalker(x: Sent) {
    x.msg == Advertise || x.msg == Unadvertise
  }

  /** The message names the channel's own stream, and is of its kind. */
  predicate Own(h: Net, x: Sent) {
    x.ch in h.chans && x.sid == h.chans[x.ch].sid && (ByTalker(x) <==> h.chans[x.ch].tx)
  }

  /** From `h` to `t` messages were only added, each a channel's own, or one of
      the channel just made, for its stream. */
  ghost predicate AddsOwn(h: Net, t: Net, made: Option<nat>) {
    && h.trace <= t.trace
    && forall i :: |h.trace| <= i < |t.trace| ==>
         Own(h, t.trace[i]) || (t.trace[i].ch == h.nextId && made == Some(t.trace[i].sid))
  }

  lemma OwnTrans(a: Net, b: Net, c: Net, made: Option<nat>)
    requires SameExceptFlags(a, b) && AddsOwn(a, b, made) && AddsOwn(b, c, made)
    ensures AddsOwn(a, c, made)
  {
  }

  lemma StopOneOwn(h: Net, x: nat, ok: bool, made: Option<nat>)
    ensures AddsOwn(h, StopOne(h, x, ok), made)
  {
  }

  lemma {:induction false} StopListOwn(h: Net, chain: seq<nat>, fails: set<nat>, made: Option<nat>)
    ensures AddsOwn(h, StopList(h, chain, fails), made)
    decreases |chain|
  {
    if chain != [] {
      var t := StopOne(h, chain[0], chain[0] !in fails);
      StopOneOwn(h, chain[0], chain[0] !in fails, made);
      StopOneFlags(h, chain[0], chain[0] !in fails);
      StopListOwn(t, chain[1..], fails, made);
      OwnTrans(h, t, StopList(t, chain[1..], fails), made);
    }
  }

  lemma {:induction false} AnnounceListOwn(h: Net, chain: seq<nat>, fails: set<nat>, made: Option<nat>)
    requires forall ch :: ch in chain ==> ch in h.chans && h.chans[ch].tx
    ensures AddsOwn(h, AnnounceList(h, chain, fails), made)
    decreases |chain|
  {
    if chain != [] {
      var ch := chain[0];
      var t := if ch in h.chans && !h.chans[ch].ready && !h.chans[ch].stopping
               then Announce(h, ch, ch !in fails) else h;
      AnnounceListOwn(t, chain[1..], fails, made);
      OwnTrans(h, t, AnnounceList(t, chain[1..], fails), made);
    }
  }

  lemma StoppedAllOwn(h: Net, fails: set<nat>, made: Option<nat>)
    ensures AddsOwn(h, StoppedAll(h, fails), made)
  {
    var t := StopList(h, h.tx.chain, fails);
    StopListOwn(h, h.tx.chain, fails, made);
    StopListFlags(h, h.tx.chain, fails);
    StopListOwn(t, h.rx.chain, fails, made);
    OwnTrans(h, t, StopList(t, h.rx.chain, fails), made);
  }

  lemma CreatedTxOwn(h: Net, sid: nat, sc: StreamClass, adv: bool, unadv: bool)
    requires WF(h)
    ensures AddsOwn(h, CreatedTx(h, sid, sc, adv, unadv), Some(sid))
  {
    var a := Announce(NewTx(h, sid, sc), h.nextId, adv);
    StopOneOwn(a, h.nextId, unadv, None);
  }

  lemma HearTalkerOwn(h: Net, sid: nat, isNew: bool, ok: bool, made: Option<nat>)
    requires WF(h)
    ensures AddsOwn(h, HearTalker(h, sid, isNew, ok), made)
  {
  }

  /** The stream of the channel an event makes, or begins to. */
  function Makes(e: Event): Option<nat> {
    if e.CreateTx? || e.CreateFailed? || e.CreateRx? then Some(e.sid) else None
  }

  lemma StepOwn(h: Net, e: Event)
    requires WF(h)
    ensures AddsOwn(h, Step(h, e), Makes(e))
  {
    match e
    case CreateTx(s, sc, adv, unadv) => CreatedTxOwn(h, s, sc, adv, unadv);
    case AnnouncePass(fails) => AnnounceListOwn(h, h.tx.chain, fails, None);
    case TalkerNew(s, ok) => HearTalkerOwn(h, s, true, ok, None);
    case TalkerLeave(s, ok) => HearTalkerOwn(h, s, false, ok, None);
    case Stop(ch, ok) => StopOneOwn(h, ch, ok, None);
    case StopAll(fails) => StoppedAllOwn(h, fails, None);
    case Destroy(ch, ok) => StopOneOwn(h, ch, ok, None);
    case _ =>
  }

  /** The streams of channels and messages are those the numbers were made
      with. */
  ghost predicate Numbered(h: Net, streams: seq<nat>) {
    && |streams| == h.nextId
    && (forall ch :: ch in h.chans ==> ch < |streams| && h.chans[ch].sid == streams[ch])
    && (forall i :: 0 <= i < |h.trace| ==>
          h.trace[i].ch < |streams| && h.trace[i].sid == streams[h.trace[i].ch])
  }

  lemma NumberedStep(h: Net, e: Event, streams: seq<nat>, more: seq<nat>)
    requires WF(h) && Numbered(h, streams)
    requires more == streams + if Makes(e).Some? then [Makes(e).value] else []
    ensures Numbered(Step(h, e), more)
  {
    var t := Step(h, e);
    StepOwn(h, e);
    NextNumber(h, e);
    forall ch | ch in t.chans
      ensures ch < |more| && t.chans[ch].sid == more[ch]
    {
      if ch in h.chans {
        StepFollows(h, e, ch);
      } else if ch < h.nextId {
        StepGone(h, e, ch);
      } else {
        StepCreates(h, e, ch);
      }
    }
    MessagesNumbered(h, t, streams, more, Makes(e));
  }

  lemma NextNumber(h: Net, e: Event)
    ensures Step(h, e).nextId == h.nextId + if Makes(e).Some? then 1 else 0
  {
    if !Structural(e) {
      StepFlags(h, e);
    } else if e.CreateTx? {
      DestroyedGone(Announce(NewTx(h, e.sid, e.sc), h.nextId, e.advertised), h.nextId, e.unadvertised);
    } else if e.Destroy? {
      DestroyedGone(h, e.ch, e.ok);
    }
  }

  lemma MessagesNumbered(h: Net, t: Net, streams: seq<nat>, more: seq<nat>, made: Option<nat>)
    requires Numbered(h, streams) && AddsOwn(h, t, made)
    requires more == streams + if made.Some? then [made.value] else []
    ensures forall i :: 0 <= i < |t.trace| ==> t.trace[i].ch < |more| && t.trace[i].sid == more[t.trace[i].ch]
  {
    forall i | 0 <= i < |t.trace|
      ensures t.trace[i].ch < |more| && t.trace[i].sid == more[t.trace[i].ch]
    {
      if i < |h.trace| {
        assert t.trace[i] == h.trace[i];
      }
    }
  }

  /** Over every run every message, of talkers and listeners, names the stream
      that its channel was made with. */
  lemma {:induction false} MessagesNameOwnStream(srp: bool, n: nat, es: seq<Event>)
    ensures Numbered(Run(srp, n, es), ListenerAgreement.Streams(es))
  {
    if es != [] {
      var past := es[..|es| - 1];
      MessagesNameOwnStream(srp, n, past);
      RunWF(srp, n, past);
      NumberedStep(Run(srp, n, past), es[|es| - 1], ListenerAgreement.Streams(past), ListenerAgreement.Streams(es));
    }
  }
}
