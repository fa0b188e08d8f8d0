/** A talker's `ready` flag and the listener notifications that reached it. */
module TalkerAgreement {
  import opened MachineInts
  import opened ChannelList
  import opened CaptureTime
  import opened Lifecycle
  import opened StopSafety
  import opened HandlerLists

  /** What the last listener notification that found the channel first said:
      that one arrived, or that one is leaving. */
  function LastHeard(n: nat, es: seq<Event>, ch: nat): Option<bool> {
    if es == [] then None
    else
      var past := es[..|es| - 1];
      var last := es[|es| - 1];
      if (last.ListenerNew? || last.ListenerLeaving?) && FindTx(Run(true, n, past), last.sid) == Some(ch)
      then Some(last.ListenerNew?)
      else LastHeard(n, past, ch)
  }

  /** Only channels that exist are reached. */
  lemma {:induction false} UnmadeUnheard(n: nat, es: seq<Event>, ch: nat)
    requires ch >= Run(true, n, es).nextId
    ensures LastHeard(n, es, ch) == None
  {
    if es != [] {
      var past := es[..|es| - 1];
      var h := Run(true, n, past);
      RunWF(true, n, past);
      if ch < h.nextId {
        StepGone(h, es[|es| - 1], ch);
      } else {
        UnmadeUnheard(n, past, ch);
      }
    }
  }

  /** One step on a talker that is not stopping afterwards. */
  lemma TalkerStep(h: Net, e: Event, ch: nat)
    requires WF(h) && ch in h.chans && h.chans[ch].tx && ch in Step(h, e).chans && !Step(h, e).chans[ch].stopping
    ensures !h.chans[ch].stopping
    ensures Step(h, e).chans[ch].ready <==> Reaches(h, e, ch) || (h.chans[ch].ready && !Leaves(h, e, ch))
  {
    hide Step, FindTx;
    StepFollows(h, e, ch);
    if h.chans[ch].ready {
      StepUnready(h, e, ch);
      if e.Stop? && e.ch == ch && h.chans[ch].attached {
        StopStops(h, ch, e.ok);
      } else if e.StopAll? && ch in h.tx.chain {
        StopAllStops(h, e.fails, ch);
      }
    } else {
      StepReady(h, e, ch);
    }
  }

  lemma StopAllStops(h: Net, fails: set<nat>, ch: nat)
    requires WF(h) && ch in h.tx.chain
    ensures ch in Step(h, StopAll(fails)).chans && Step(h, StopAll(fails)).chans[ch].stopping
  {
    StopAllReachesListed(h, fails, ch);
  }

  /** Agreement: in every state an SRP run reaches, a talker that is not stopping
      is ready exactly when the last listener notification that reached it was
      an arrival. */
  lemma {:induction false} TalkersAgree(n: nat, es: seq<Event>, ch: nat)
    requires ch in Run(true, n, es).chans
    requires var c := Run(true, n, es).chans[ch]; c.tx && !c.stopping
    ensures Run(true, n, es).chans[ch].ready <==> LastHeard(n, es, ch) == Some(true)
  {
    if es != [] {
      var past := es[..|es| - 1];
      var last := es[|es| - 1];
      var h := Run(true, n, past);
      RunWF(true, n, past);
      if ch in h.chans {
        StepFollows(h, last, ch);
        TalkerStep(h, last, ch);
        TalkersAgree(n, past, ch);
      } else {
        StepCreatesIdle(h, last, ch);
        NewUnheard(n, es, ch);
      }
    }
  }

  lemma NewUnheard(n: nat, es: seq<Event>, ch: nat)
    requires es != [] && ch !in Run(true, n, es[..|es| - 1]).chans && ch in Run(true, n, es).chans
    ensures LastHeard(n, es, ch) == None
  {
    var past := es[..|es| - 1];
    var h := Run(true, n, past);
    RunWF(true, n, past);
    if ch < h.nextId {
      StepGone(h, es[|es| - 1], ch);
      assert false;
    }
    UnmadeUnheard(n, past, ch);
  }

  /** A listener that leaves takes the talker's permission to send with it. */
  lemma LeavingExample(n: nat)
    ensures var es := [CreateTx(1, Tas, true, true), ListenerNew(1), ListenerLeaving(1)];
            SendAdmitted(Run(true, n, es[..2]), 0) && !SendAdmitted(Run(true, n, es), 0)
  {
    var es := [CreateTx(1, Tas, true, true), ListenerNew(1), ListenerLeaving(1)];
    RunStep(true, n, es, 0);
    RunStep(true, n, es, 1);
    RunStep(true, n, es, 2);
    assert es[..0] == [] && es[..3] == es;
    var h1, h2 := Run(true, n, es[..1]), Run(true, n, es[..2]);
    assert h1.tx.chain == [0] && h1.chans[0].sid == 1;
    assert FindTx(h1, 1) == Some(0);
    assert h2.tx.chain == [0] && h2.chans[0].sid == 1;
    assert FindTx(h2, 1) == Some(0);
  }
}
