/** What stopping a channel guarantees, whatever arrives afterwards. */
module StopSafety {
  import opened MachineInts
  import opened ChannelList
  import opened CaptureTime
  import opened Lifecycle

  // ---------------------------------------------------------------------
  // What the entry points let through

  /** The varying part of `chan_valid` for a channel of this system. */
  predicate ChanValid(c: Chan) {
    c.attached && c.ready && c.sid != 0
  }

  /** `_chan_read` gets past its checks. */
  predicate ReadAdmitted(h: Net, ch: nat) {
    ch in h.chans && ChanValid(h.chans[ch]) && !h.chans[ch].stopping
  }

  /** `chan_ready_timedwait` gets past its checks. */
  predicate WaitAdmitted(h: Net, ch: nat) {
    ch in h.chans && h.chans[ch].attached && !h.chans[ch].stopping
  }

  /** `chan_send`, `chan_send_now` and `chan_update` get past their checks. */
  predicate SendAdmitted(h: Net, ch: nat) {
    ch in h.chans && h.chans[ch].tx && ChanValid(h.chans[ch])
  }

  /** What a channel just made admits: waiting always, reading or sending at once
      exactly without SRP. */
  lemma CreatedAdmits(h: Net, sid: nat, sc: StreamClass, unadv: bool)
    requires sid != 0
    ensures var t := Step(h, CreateRx(sid, sc));
            WaitAdmitted(t, h.nextId) && (ReadAdmitted(t, h.nextId) <==> !h.srp) && !SendAdmitted(t, h.nextId)
    ensures var t := Step(h, CreateTx(sid, sc, true, unadv));
            WaitAdmitted(t, h.nextId) && (SendAdmitted(t, h.nextId) <==> !h.srp)
  {
  }

  // ---------------------------------------------------------------------
  // Steps

  /** A channel's past fixes its kind, stream, class and priority, and that it
      was stopped. */
  predicate Follows(c: Chan, d: Chan) {
    d.tx == c.tx && d.sid == c.sid && d.sc == c.sc && d.prio == c.prio && (c.stopping ==> d.stopping)
  }

  lemma DestroyedFollows(h: Net, x: nat, ok: bool, ch: nat)
    requires ch in h.chans && ch in Destroyed(h, x, ok).chans
    ensures Follows(h.chans[ch], Destroyed(h, x, ok).chans[ch])
    ensures !h.chans[ch].ready ==> !Destroyed(h, x, ok).chans[ch].ready
  {
  }

  lemma StepFollows(h: Net, e: Event, ch: nat)
    requires WF(h) && ch in h.chans && ch in Step(h, e).chans
    ensures Follows(h.chans[ch], Step(h, e).chans[ch])
  {
    if !Structural(e) {
      StepFlags(h, e);
    } else if e.CreateTx? {
      var a := Announce(NewTx(h, e.sid, e.sc), h.nextId, e.advertised);
      if h.srp && !e.advertised {
        DestroyedFollows(a, h.nextId, e.unadvertised, ch);
      }
    } else if e.Destroy? {
      DestroyedFollows(h, e.ch, e.ok, ch);
    }
  }

  lemma DestroyedGone(h: Net, x: nat, ok: bool)
    ensures Destroyed(h, x, ok).chans.Keys == h.chans.Keys - {x}
    ensures Destroyed(h, x, ok).nextId == h.nextId
  {
  }

  /** A number is never used again. */
  lemma StepGone(h: Net, e: Event, ch: nat)
    requires ch < h.nextId
    ensures ch < Step(h, e).nextId
    ensures ch !in h.chans ==> ch !in Step(h, e).chans
  {
    if !Structural(e) {
      StepFlags(h, e);
    } else if e.CreateTx? {
      DestroyedGone(Announce(NewTx(h, e.sid, e.sc), h.nextId, e.advertised), h.nextId, e.unadvertised);
    } else if e.Destroy? {
      DestroyedGone(h, e.ch, e.ok);
    }
  }

  lemma {:induction false} StopListReady(h: Net, chain: seq<nat>, fails: set<nat>, ch: nat)
    requires ch in h.chans && !h.chans[ch].ready
    ensures ch in StopList(h, chain, fails).chans && !StopList(h, chain, fails).chans[ch].ready
    decreases |chain|
  {
    if chain != [] {
      StopListReady(StopOne(h, chain[0], chain[0] !in fails), chain[1..], fails, ch);
    }
  }

  /** The event is a listener arriving for a stream whose first listed talker is
      this channel. */
  predicate Reaches(h: Net, e: Event, ch: nat) {
    e.ListenerNew? && FindTx(h, e.sid) == Some(ch)
  }

  /** Only that makes a talker that is not ready, ready. */
  lemma StepReady(h: Net, e: Event, ch: nat)
    requires WF(h) && ch in h.chans && h.chans[ch].tx && !h.chans[ch].ready && ch in Step(h, e).chans
    ensures Step(h, e).chans[ch].ready <==> Reaches(h, e, ch)
  {
    match e
    case CreateTx(sid, sc, adv, unadv) =>
      var a := Announce(NewTx(h, sid, sc), h.nextId, adv);
      if h.srp && !adv {
        DestroyedFollows(a, h.nextId, unadv, ch);
      }
    case AnnouncePass(fails) => AnnounceListFlags(h, h.tx.chain, fails);
    case StopAll(fails) =>
      StopListReady(h, h.tx.chain, fails, ch);
      StopListReady(StopList(h, h.tx.chain, fails), h.rx.chain, fails, ch);
    case Destroy(x, ok) => DestroyedFollows(h, x, ok, ch);
    case _ =>
  }

  /** The event is a listener leaving a stream whose first listed talker is this
      channel. */
  predicate Leaves(h: Net, e: Event, ch: nat) {
    e.ListenerLeaving? && FindTx(h, e.sid) == Some(ch)
  }

  lemma {:induction false} StopListSpares(h: Net, chain: seq<nat>, fails: set<nat>, ch: nat)
    requires ch in h.chans && h.chans[ch].ready
    ensures var t := StopList(h, chain, fails);
            ch in t.chans && (t.chans[ch].ready <==> ch !in chain || !h.chans[ch].attached)
    decreases |chain|
  {
    if chain != [] {
      var s := StopOne(h, chain[0], chain[0] !in fails);
      if chain[0] == ch && h.chans[ch].attached {
        StopListReady(s, chain[1..], fails, ch);
      } else {
        StopListSpares(s, chain[1..], fails, ch);
      }
    }
  }

  /** A ready talker stops being ready exactly by a listener leaving that finds
      it first, by its own stop while attached, or by a stop of all while
      listed. */
  lemma StepUnready(h: Net, e: Event, ch: nat)
    requires WF(h) && ch in h.chans && h.chans[ch].tx && h.chans[ch].ready && ch in Step(h, e).chans
    ensures !Step(h, e).chans[ch].ready <==>
            Leaves(h, e, ch) || (e.Stop? && e.ch == ch && h.chans[ch].attached) || (e.StopAll? && ch in h.tx.chain)
  {
    match e
    case CreateTx(sid, sc, adv, unadv) =>
      if h.srp && !adv {
        DestroyedSpares(Announce(NewTx(h, sid, sc), h.nextId, adv), h.nextId, unadv, ch);
      }
    case AnnouncePass(fails) => AnnounceListFlags(h, h.tx.chain, fails);
    case StopAll(fails) =>
      var s := StopList(h, h.tx.chain, fails);
      StopListSpares(h, h.tx.chain, fails, ch);
      StopListFlags(h, h.tx.chain, fails);
      if s.chans[ch].ready {
        StopListSpares(s, h.rx.chain, fails, ch);
      } else {
        StopListReady(s, h.rx.chain, fails, ch);
      }
    case Destroy(x, ok) => DestroyedSpares(h, x, ok, ch);
    case _ =>
  }

  lemma DestroyedSpares(h: Net, x: nat, ok: bool, ch: nat)
    requires ch in h.chans && ch in Destroyed(h, x, ok).chans
    ensures Destroyed(h, x, ok).chans[ch] == h.chans[ch]
  {
  }

  lemma QuietStep(h: Net, e: Event, ch: nat)
    requires WF(h) && ch < h.nextId && !Reaches(h, e, ch)
    requires ch in h.chans ==> h.chans[ch].tx && !h.chans[ch].ready
    ensures ch in Step(h, e).chans ==> !Step(h, e).chans[ch].ready
  {
    StepGone(h, e, ch);
    if ch in h.chans && ch in Step(h, e).chans {
      StepReady(h, e, ch);
    }
  }

  // ---------------------------------------------------------------------
  // Runs

  lemma RunStep(srp: bool, n: nat, es: seq<Event>, j: nat)
    requires j < |es|
    ensures Run(srp, n, es[..j + 1]) == Step(Run(srp, n, es[..j]), es[j])
  {
    assert es[..j + 1][..j] == es[..j];
  }

  /** The states a run passes through. */
  ghost function States(srp: bool, n: nat, es: seq<Event>): (hs: seq<Net>)
    ensures |hs| == |es| + 1 && forall i :: 0 <= i <= |es| ==> hs[i] == Run(srp, n, es[..i])
  {
    seq(|es| + 1, i requires 0 <= i <= |es| => Run(srp, n, es[..i]))
  }

  ghost predicate Linked(hs: seq<Net>, es: seq<Event>) {
    && |hs| == |es| + 1
    && (forall k :: 0 <= k <= |es| ==> WF(hs[k]))
    && (forall k :: 0 <= k < |es| ==> hs[k + 1] == Step(hs[k], es[k]))
  }

  lemma StatesLinked(srp: bool, n: nat, es: seq<Event>)
    ensures Linked(States(srp, n, es), es)
  {
    var hs := States(srp, n, es);
    forall k | 0 <= k <= |es|
      ensures WF(hs[k])
    {
      RunWF(srp, n, es[..k]);
    }
    forall k | 0 <= k < |es|
      ensures hs[k + 1] == Step(hs[k], es[k])
    {
      RunStep(srp, n, es, k);
    }
  }

  lemma KeptStep(h: Net, e: Event, c: Chan, ch: nat)
    requires WF(h) && ch < h.nextId && (ch in h.chans ==> Follows(c, h.chans[ch]))
    ensures ch < Step(h, e).nextId && (ch in Step(h, e).chans ==> Follows(c, Step(h, e).chans[ch]))
  {
    StepGone(h, e, ch);
    if ch in h.chans && ch in Step(h, e).chans {
      StepFollows(h, e, ch);
    }
  }

  lemma {:induction false} KeptFrom(hs: seq<Net>, es: seq<Event>, i: nat, j: nat, ch: nat)
    requires Linked(hs, es) && i <= j <= |es| && ch in hs[i].chans
    ensures ch < hs[j].nextId
    ensures ch in hs[j].chans ==> Follows(hs[i].chans[ch], hs[j].chans[ch])
    decreases j
  {
    if i < j {
      KeptFrom(hs, es, i, j - 1, ch);
      KeptStep(hs[j - 1], es[j - 1], hs[i].chans[ch], ch);
      assert hs[j - 1 + 1] == Step(hs[j - 1], es[j - 1]);
    }
  }

  lemma {:induction false} QuietFrom(hs: seq<Net>, es: seq<Event>, i: nat, j: nat, ch: nat)
    requires Linked(hs, es) && i <= j <= |es|
    requires ch in hs[i].chans && hs[i].chans[ch].tx && !hs[i].chans[ch].ready
    requires forall k :: i <= k < j ==> !Reaches(hs[k], es[k], ch)
    ensures ch in hs[j].chans ==> !hs[j].chans[ch].ready
    decreases j
  {
    if i < j {
      QuietFrom(hs, es, i, j - 1, ch);
      KeptFrom(hs, es, i, j - 1, ch);
      QuietStep(hs[j - 1], es[j - 1], ch);
      assert hs[j - 1 + 1] == Step(hs[j - 1], es[j - 1]);
    }
  }

  /** From any point of any run on, a channel either is gone for good or keeps
      its identity and, once stopping, stays so. */
  lemma StoppingForever(srp: bool, n: nat, es: seq<Event>, i: nat, j: nat, ch: nat)
    requires i <= j <= |es| && ch in Run(srp, n, es[..i]).chans
    ensures ch in Run(srp, n, es[..j]).chans ==>
              Follows(Run(srp, n, es[..i]).chans[ch], Run(srp, n, es[..j]).chans[ch])
  {
    StatesLinked(srp, n, es);
    KeptFrom(States(srp, n, es), es, i, j, ch);
  }

  /** Once a channel is stopping, no later read and no later timed wait is
      admitted, whatever notifications come. */
  lemma StoppedReadsRefused(srp: bool, n: nat, es: seq<Event>, i: nat, j: nat, ch: nat)
    requires i <= j <= |es| && ch in Run(srp, n, es[..i]).chans
    requires Run(srp, n, es[..i]).chans[ch].stopping
    ensures !ReadAdmitted(Run(srp, n, es[..j]), ch)
    ensures !WaitAdmitted(Run(srp, n, es[..j]), ch)
  {
    StoppingForever(srp, n, es, i, j, ch);
  }

  /** `chan_stop` does stop an attached channel and clears `ready`. */
  lemma StopStops(h: Net, ch: nat, ok: bool)
    requires ch in h.chans && h.chans[ch].attached
    ensures var t := Step(h, Stop(ch, ok));
            ch in t.chans && t.chans[ch].stopping && !t.chans[ch].ready
  {
  }

  lemma SendsIff(hs: seq<Net>, es: seq<Event>, i: nat, ch: nat)
    requires Linked(hs, es) && i <= |es| && ch in hs[i].chans
    requires var c := hs[i].chans[ch]; c.tx && c.stopping && !c.ready && c.sid != 0
    ensures (exists j :: i <= j <= |es| && SendAdmitted(hs[j], ch)) <==>
            (exists k :: i <= k < |es| && Reaches(hs[k], es[k], ch))
  {
    if k :| i <= k < |es| && Reaches(hs[k], es[k], ch) {
      KeptFrom(hs, es, i, k, ch);
      assert hs[k + 1] == HearListener(hs[k], es[k].sid, true);
      assert SendAdmitted(hs[k + 1], ch);
    } else {
      forall j | i <= j <= |es|
        ensures !SendAdmitted(hs[j], ch)
      {
        QuietFrom(hs, es, i, j, ch);
      }
    }
  }

  /** Sending on a talker that was stopped is admitted again at some later point
      exactly when a listener arrived for its stream while it was the first
      listed talker of it.  So the documented promise that sends fail after a
      stop holds precisely in the runs without such an arrival. */
  lemma StoppedSendsIff(srp: bool, n: nat, es: seq<Event>, i: nat, ch: nat)
    requires i <= |es| && ch in Run(srp, n, es[..i]).chans
    requires var c := Run(srp, n, es[..i]).chans[ch]; c.tx && c.stopping && !c.ready && c.sid != 0
    ensures (exists j :: i <= j <= |es| && SendAdmitted(Run(srp, n, es[..j]), ch)) <==>
            (exists k :: i <= k < |es| && Reaches(Run(srp, n, es[..k]), es[k], ch))
  {
    var hs := States(srp, n, es);
    StatesLinked(srp, n, es);
    SendsIff(hs, es, i, ch);
    if j :| i <= j <= |es| && SendAdmitted(hs[j], ch) {
      assert SendAdmitted(Run(srp, n, es[..j]), ch);
    }
    if k :| i <= k < |es| && Reaches(hs[k], es[k], ch) {
      assert Reaches(Run(srp, n, es[..k]), es[k], ch);
    }
  }

  /** Such an arrival does happen: create, stop, late listener. */
  lemma LateListenerExample(n: nat)
    ensures SendAdmitted(Run(true, n, [CreateTx(1, Tas, true, true), Stop(0, true), ListenerNew(1)]), 0)
  {
    var es := [CreateTx(1, Tas, true, true), Stop(0, true), ListenerNew(1)];
    RunStep(true, n, es, 0);
    RunStep(true, n, es, 1);
    RunStep(true, n, es, 2);
    assert es[..0] == [] && es[..3] == es;
    var h1 := Run(true, n, es[..1]);
    assert h1.chans[0] == Chan(true, 1, Tas, DEFAULT_TX_TAS_SOCKET_PRIO, true, false, false) && h1.tx.chain == [0];
    var h2 := Run(true, n, es[..2]);
    assert h2.tx.chain == [0] && h2.chans[0].sid == 1;
    assert FindTx(h2, 1) == Some(0);
  }
}
