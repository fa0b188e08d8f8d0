/** What a talker tells the network over its life. */
module TalkerTrace {
  import opened Lifecycle
  import opened ChannelList
  import opened CaptureTime

  /** The talker messages of one channel, in order. */
  function Talks(trace: seq<Sent>, ch: nat): seq<Msg> {
    if trace == [] then []
    else
      var last := trace[|trace| - 1];
      Talks(trace[..|trace| - 1], ch) +
      (if last.ch == ch && (last.msg == Advertise || last.msg == Unadvertise) then [last.msg] else [])
  }

  /** Advertisements only, except perhaps for the very last message. */
  predicate AdvertisedThenSilent(ms: seq<Msg>) {
    && (forall i :: 0 <= i < |ms| - 1 ==> ms[i] == Advertise)
    && (ms != [] ==> ms[|ms| - 1] == Advertise || ms[|ms| - 1] == Unadvertise)
  }

  /** The last word was the withdrawal. */
  predicate Withdrawn(ms: seq<Msg>) {
    ms != [] && ms[|ms| - 1] == Unadvertise
  }

  ghost predicate TalkerOk(h: Net, ch: nat) {
    var ms := Talks(h.trace, ch);
    && AdvertisedThenSilent(ms)
    && (!h.srp || ch >= h.nextId ==> ms == [])
    && (ch in h.chans && !h.chans[ch].tx ==> ms == [])
    && (ch in h.chans && h.chans[ch].tx && h.srp ==> ms != [] && (Withdrawn(ms) <==> h.chans[ch].stopping))
  }

  lemma TalksAppend(trace: seq<Sent>, x: Sent, ch: nat)
    ensures Talks(trace + [x], ch) ==
            Talks(trace, ch) + (if x.ch == ch && (x.msg == Advertise || x.msg == Unadvertise) then [x.msg] else [])
  {
    assert (trace + [x])[..|trace|] == trace;
  }

  lemma StopOneOk(h: Net, x: nat, ok: bool, ch: nat)
    requires TalkerOk(h, ch) && (x in h.chans ==> x < h.nextId)
    ensures TalkerOk(StopOne(h, x, ok), ch)
  {
    hide Talks;
    if x in h.chans {
      var c := h.chans[x];
      TalksAppend(h.trace, Sent(if c.tx then Unadvertise else ListenerLeave, x, c.sid, ok), ch);
    }
  }

  lemma {:induction false} StopListOk(h: Net, chain: seq<nat>, fails: set<nat>, ch: nat)
    requires WF(h) && TalkerOk(h, ch)
    ensures TalkerOk(StopList(h, chain, fails), ch)
    decreases |chain|
  {
    if chain != [] {
      var ok := chain[0] !in fails;
      StopOneOk(h, chain[0], ok, ch);
      StopOneFlags(h, chain[0], ok);
      FlagsKeepWF(h, StopOne(h, chain[0], ok));
      StopListOk(StopOne(h, chain[0], ok), chain[1..], fails, ch);
    }
  }

  lemma AnnounceOk(h: Net, x: nat, ok: bool, ch: nat)
    requires WF(h) && h.srp && TalkerOk(h, ch) && x in h.chans && h.chans[x].tx
    ensures TalkerOk(Announce(h, x, ok), ch)
  {
    hide Talks;
    TalksAppend(h.trace, Sent(Advertise, x, h.chans[x].sid, ok), ch);
  }

  lemma {:induction false} AnnounceListOk(h: Net, chain: seq<nat>, fails: set<nat>, ch: nat)
    requires WF(h) && h.srp && TalkerOk(h, ch)
    requires forall x :: x in chain ==> x in h.chans && h.chans[x].tx
    ensures TalkerOk(AnnounceList(h, chain, fails), ch)
    decreases |chain|
  {
    if chain != [] {
      var x := chain[0];
      AnnounceOk(h, x, x !in fails, ch);
      var t := if x in h.chans && !h.chans[x].ready && !h.chans[x].stopping
               then Announce(h, x, x !in fails) else h;
      AnnounceListOk(t, chain[1..], fails, ch);
    }
  }

  lemma DestroyedOk(h: Net, x: nat, ok: bool, ch: nat)
    requires WF(h) && TalkerOk(h, ch)
    ensures TalkerOk(Destroyed(h, x, ok), ch)
  {
    StopOneOk(h, x, ok, ch);
  }

  lemma CreatedTxOk(h: Net, sid: nat, sc: StreamClass, adv: bool, unadv: bool, ch: nat)
    requires WF(h) && TalkerOk(h, ch)
    ensures TalkerOk(CreatedTx(h, sid, sc, adv, unadv), ch)
  {
    var t := NewTx(h, sid, sc);
    CreatedTxWF(h, sid, sc, adv, unadv);
    if h.srp {
      var a := Announce(t, h.nextId, adv);
      TalksAppend(h.trace, Sent(Advertise, h.nextId, sid, adv), ch);
      FlagsKeepWF(t, a);
      DestroyedOk(a, h.nextId, unadv, ch);
    }
  }

  lemma HearTalkerOk(h: Net, sid: nat, isNew: bool, ok: bool, ch: nat)
    requires TalkerOk(h, ch)
    ensures TalkerOk(HearTalker(h, sid, isNew, ok), ch)
  {
    var found := FindRx(h, sid);
    if found.Some? {
      TalksAppend(h.trace, Sent(if isNew then ListenerReady else ListenerLeave, found.value, sid, ok), ch);
    }
  }

  lemma HearListenerOk(h: Net, sid: nat, isNew: bool, ch: nat)
    requires TalkerOk(h, ch)
    ensures TalkerOk(HearListener(h, sid, isNew), ch)
  {
  }

  lemma StoppedAllOk(h: Net, fails: set<nat>, ch: nat)
    requires WF(h) && TalkerOk(h, ch)
    ensures TalkerOk(StoppedAll(h, fails), ch)
  {
    var t := StopList(h, h.tx.chain, fails);
    StopListOk(h, h.tx.chain, fails, ch);
    StopListFlags(h, h.tx.chain, fails);
    FlagsKeepWF(h, t);
    StopListOk(t, h.rx.chain, fails, ch);
  }

  lemma FailedTxOk(h: Net, sid: nat, ok: bool, ch: nat)
    requires WF(h) && TalkerOk(h, ch)
    ensures TalkerOk(FailedCreate(h, sid, ok), ch)
  {
    hide Talks;
    TalksAppend(h.trace, Sent(ListenerLeave, h.nextId, sid, ok), ch);
  }

  lemma QuietOk(h: Net, t: Net, ch: nat)
    requires TalkerOk(h, ch) && t.trace == h.trace && t.srp == h.srp && t.nextId >= h.nextId
    requires ch in t.chans ==>
               if ch in h.chans then t.chans[ch].tx == h.chans[ch].tx && t.chans[ch].stopping == h.chans[ch].stopping
               else ch >= h.nextId && !t.chans[ch].tx
    ensures TalkerOk(t, ch)
  {
  }

  lemma StepOk(h: Net, e: Event, ch: nat)
    requires WF(h) && TalkerOk(h, ch)
    ensures TalkerOk(Step(h, e), ch)
  {
    hide CreatedTx, FailedCreate, AnnounceList, HearListener, HearTalker, StopOne, StoppedAll, Destroyed;
    match e
    case CreateTx(sid, sc, adv, unadv) => CreatedTxOk(h, sid, sc, adv, unadv, ch);
    case AnnouncePass(fails) =>
      if h.srp { AnnounceListOk(h, h.tx.chain, fails, ch); }
    case ListenerNew(sid) => HearListenerOk(h, sid, true, ch);
    case ListenerLeaving(sid) => HearListenerOk(h, sid, false, ch);
    case TalkerNew(sid, ok) => HearTalkerOk(h, sid, true, ok, ch);
    case TalkerLeave(sid, ok) => HearTalkerOk(h, sid, false, ok, ch);
    case Stop(x, ok) => StopOneOk(h, x, ok, ch);
    case StopAll(fails) => StoppedAllOk(h, fails, ch);
    case Destroy(x, ok) => DestroyedOk(h, x, ok, ch);
    case CreateFailed(sid, ok) => FailedTxOk(h, sid, ok, ch);
    case CreateRx(_, _) => QuietOk(h, Step(h, e), ch);
    case Detach(_) => QuietOk(h, Step(h, e), ch);
    case SetPrio(_, _) => QuietOk(h, Step(h, e), ch);
  }

  /** Over every interleaving of creation, announcer passes, notifications,
      stops (repeated or of all channels), removal and destruction, a channel's
      talker messages are advertisements followed by at most one withdrawal,
      with nothing after it.  While a talker exists in SRP mode it has been
      advertised, and it has been withdrawn exactly when it is stopping; without
      SRP nothing is said. */
  lemma {:induction false} TalkerTraceShape(srp: bool, n: nat, es: seq<Event>, ch: nat)
    ensures var h := Run(srp, n, es);
            var ms := Talks(h.trace, ch);
            && AdvertisedThenSilent(ms)
            && (!srp ==> ms == [])
            && (srp && ch in h.chans && h.chans[ch].tx ==> ms != [] && (Withdrawn(ms) <==> h.chans[ch].stopping))
    ensures TalkerOk(Run(srp, n, es), ch)
  {
    RunWF(srp, n, es);
    if es != [] {
      TalkerTraceShape(srp, n, es[..|es| - 1], ch);
      RunWF(srp, n, es[..|es| - 1]);
      StepOk(Run(srp, n, es[..|es| - 1]), es[|es| - 1], ch);
    }
  }
}
