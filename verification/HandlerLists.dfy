/** The handler's lists and table over whole runs: which channels a walk
    reaches, that the table check in front of a walk changes nothing, what
    `nh_stop` reaches, and the socket priorities. */
module HandlerLists {
  import opened MachineInts
  import opened ChannelList
  import opened StreamTable
  import opened CaptureTime
  import opened Lifecycle
  import opened StopSafety

  // ---------------------------------------------------------------------
  // Table and list

  /** The registrations a run makes, in order. */
  function Registrations(srp: bool, n: nat, es: seq<Event>): seq<Request> {
    if es == [] then []
    else
      var past := es[..|es| - 1];
      var last := es[|es| - 1];
      Registrations(srp, n, past) +
      (if last.CreateRx? then [Request(last.sid, Run(srp, n, past).nextId)] else [])
  }

  lemma DestroyedTable(h: Net, x: nat, ok: bool)
    ensures Destroyed(h, x, ok).table == h.table
  {
  }

  lemma StepTable(h: Net, e: Event)
    ensures Step(h, e).table == if e.CreateRx? then Register(h.table, e.sid, h.nextId) else h.table
  {
    if !Structural(e) {
      StepFlags(h, e);
    } else if e.CreateTx? {
      DestroyedTable(Announce(NewTx(h, e.sid, e.sc), h.nextId, e.advertised), h.nextId, e.unadvertised);
    } else if e.Destroy? {
      DestroyedTable(h, e.ch, e.ok);
    }
  }

  lemma {:induction false} RunTable(srp: bool, n: nat, es: seq<Event>)
    ensures Run(srp, n, es).table == Build(n, Registrations(srp, n, es))
  {
    if es != [] {
      var past := es[..|es| - 1];
      RunTable(srp, n, past);
      StepTable(Run(srp, n, past), es[|es| - 1]);
      if es[|es| - 1].CreateRx? {
        BuildAppend(n, Registrations(srp, n, past), Request(es[|es| - 1].sid, Run(srp, n, past).nextId));
      } else {
        assert Registrations(srp, n, es) == Registrations(srp, n, past);
      }
    }
  }

  /** Whether the stream is among the registrations the table had room for. */
  predicate Indexed(srp: bool, n: nat, es: seq<Event>, sid: nat) {
    var granted := Granted(n, Registrations(srp, n, es));
    First(granted, sid) < |granted|
  }

  /** Whatever a run adds and removes, `get_rx_chan_from_sid` returns what a
      plain search of the Rx list returns, exactly unless the search finds a
      channel whose stream the table had no room for. */
  lemma IndexAgreesIff(srp: bool, n: nat, es: seq<Event>, sid: nat)
    ensures var h := Run(srp, n, es);
            FindRx(h, sid) == Find(h.chans, h.rx.chain, sid) <==>
            Find(h.chans, h.rx.chain, sid) == None || Indexed(srp, n, es, sid)
  {
    RunTable(srp, n, es);
    FirstWins(n, Registrations(srp, n, es), sid);
  }

  ghost predicate AllRegistered(h: Net, reqs: seq<Request>) {
    forall ch :: ch in h.chans && !h.chans[ch].tx ==> Request(h.chans[ch].sid, ch) in reqs
  }

  lemma StepRegistered(h: Net, e: Event, reqs: seq<Request>)
    requires WF(h) && AllRegistered(h, reqs)
    ensures AllRegistered(Step(h, e), reqs + (if e.CreateRx? then [Request(e.sid, h.nextId)] else []))
  {
    forall ch | ch in Step(h, e).chans && !Step(h, e).chans[ch].tx
      ensures Request(Step(h, e).chans[ch].sid, ch) in reqs + (if e.CreateRx? then [Request(e.sid, h.nextId)] else [])
    {
      if ch in h.chans {
        StepFollows(h, e, ch);
      } else if ch < h.nextId {
        StepGone(h, e, ch);
      } else {
        StepCreates(h, e, ch);
      }
    }
  }

  /** A new number belongs to the channel just created. */
  lemma StepCreates(h: Net, e: Event, ch: nat)
    requires WF(h) && ch >= h.nextId && ch in Step(h, e).chans
    ensures ch == h.nextId
    ensures (e.CreateTx? && Step(h, e).chans[ch].tx) || (e.CreateRx? && !Step(h, e).chans[ch].tx)
    ensures Step(h, e).chans[ch].sid == e.sid
  {
    if !Structural(e) {
      StepFlags(h, e);
    } else if e.CreateTx? {
      DestroyedGone(Announce(NewTx(h, e.sid, e.sc), h.nextId, e.advertised), h.nextId, e.unadvertised);
    } else if e.Destroy? {
      DestroyedGone(h, e.ch, e.ok);
    }
  }

  lemma {:induction false} RunRegistered(srp: bool, n: nat, es: seq<Event>)
    ensures AllRegistered(Run(srp, n, es), Registrations(srp, n, es))
  {
    if es != [] {
      var past := es[..|es| - 1];
      RunRegistered(srp, n, past);
      RunWF(srp, n, past);
      StepRegistered(Run(srp, n, past), es[|es| - 1], Registrations(srp, n, past));
    }
  }

  /** With no more Rx channels created than the table has slots, the check in
      front of the walk is a pure speed-up. */
  lemma IndexIsSpeedUp(srp: bool, n: nat, es: seq<Event>, sid: nat)
    requires |Registrations(srp, n, es)| <= n
    ensures var h := Run(srp, n, es);
            FindRx(h, sid) == Find(h.chans, h.rx.chain, sid)
  {
    var h := Run(srp, n, es);
    var reqs := Registrations(srp, n, es);
    IndexAgreesIff(srp, n, es, sid);
    var found := Find(h.chans, h.rx.chain, sid);
    if found.Some? {
      RunRegistered(srp, n, es);
      RunWF(srp, n, es);
      assert Request(sid, found.value) in reqs;
      assert Granted(n, reqs) == reqs;
      assert Indexed(srp, n, es, sid);
    }
  }

  // ---------------------------------------------------------------------
  // What creation and removal leave behind

  /** A listener made: every other channel is as it was; it is at the end of the
      Rx list exactly when the tail is in place; and it owns the lookup of its
      stream exactly when that had no owner and there was room, the lookup of
      any other stream being as it was. */
  lemma NewRxMeans(h: Net, sid: nat, sc: StreamClass, q: nat)
    requires WF(h) && NoGaps(h.table)
    ensures var t := NewRx(h, sid, sc);
            && t.chans.Keys == h.chans.Keys + {h.nextId} && h.nextId !in h.chans
            && (forall d :: d in h.chans ==> t.chans[d] == h.chans[d])
            && (t.rx.chain == h.rx.chain + [h.nextId] <==> h.rx.TailInPlace()) && t.tx == h.tx
            && var i := Lookup(t.table, q);
               if q == sid && Lookup(h.table, q) == -1 && !Full(h.table)
               then i >= 0 && t.table[i] == Used(sid, h.nextId)
               else i == Lookup(h.table, q) && (i >= 0 ==> t.table[i] == h.table[i])
  {
    RegisterLookup(h.table, sid, h.nextId, q);
    FullIff(h.table, sid);
  }

  /** A channel destroyed: it is gone, from both lists too; every other channel
      is as it was and listed as it was; in SRP mode one farewell goes out, and
      only for a channel neither detached nor stopped before. */
  lemma DestroyedMeans(h: Net, x: nat, ok: bool)
    requires WF(h)
    ensures var t := Destroyed(h, x, ok);
            && t.chans == h.chans - {x} && t.table == h.table && t.nextId == h.nextId
            && t.tx == h.tx.Remove(x) && t.rx == h.rx.Remove(x)
            && x !in t.tx.chain && x !in t.rx.chain
            && t.trace == h.trace + if h.srp && x in h.chans && h.chans[x].attached && !h.chans[x].stopping
                                    then [Sent(if h.chans[x].tx then Unadvertise else ListenerLeave, x,
                                               h.chans[x].sid, ok)]
                                    else []
  {
    var s := StopOne(h, x, ok);
    StopOneFlags(h, x, ok);
    FlagsKeepWF(h, s);
    DetachedLists(s, x);
    hide StopOne, Detached;
    assert Destroyed(h, x, ok).chans == h.chans - {x} by {
      StopOneOthers(h, x, ok);
    }
    StopOneSays(h, x, ok);
    WithoutFacts(h.tx.chain, x);
    WithoutFacts(h.rx.chain, x);
  }

  lemma DetachedLists(h: Net, x: nat)
    requires WF(h)
    ensures var t := Detached(h, x);
            && t.tx == h.tx.Remove(x) && t.rx == h.rx.Remove(x) && t.chans - {x} == h.chans - {x}
            && t.table == h.table && t.nextId == h.nextId && t.trace == h.trace
  {
    if x !in h.tx.chain {
      WithoutAbsent(h.tx.chain, x);
    }
    if x !in h.rx.chain {
      WithoutAbsent(h.rx.chain, x);
    }
  }

  lemma StopOneOthers(h: Net, x: nat, ok: bool)
    ensures StopOne(h, x, ok).chans - {x} == h.chans - {x}
  {
  }

  lemma StopOneSays(h: Net, x: nat, ok: bool)
    ensures StopOne(h, x, ok).trace ==
            h.trace + if h.srp && x in h.chans && h.chans[x].attached && !h.chans[x].stopping
                      then [Sent(if h.chans[x].tx then Unadvertise else ListenerLeave, x, h.chans[x].sid, ok)]
                      else []
  {
  }

  // ---------------------------------------------------------------------
  // Lost channels

  /** Every attached channel is reached from the head of its list. */
  ghost predicate AllListed(h: Net) {
    forall ch :: ch in h.chans && h.chans[ch].attached ==>
      ch in (if h.chans[ch].tx then h.tx.chain else h.rx.chain)
  }

  /** The event adds a channel, that stays, behind a tail pointer in place. */
  predicate AddsInPlace(h: Net, e: Event) {
    && (e.CreateTx? && (!h.srp || e.advertised) ==> h.tx.TailInPlace())
    && (e.CreateRx? ==> h.rx.TailInPlace())
  }

  lemma DetachedListed(h: Net, x: nat)
    requires WF(h) && AllListed(h)
    ensures AllListed(Detached(h, x))
  {
    var t := Detached(h, x);
    forall ch | ch in t.chans && t.chans[ch].attached
      ensures ch in (if t.chans[ch].tx then t.tx.chain else t.rx.chain)
    {
      if t != h {
        WithoutMember(h.tx.chain, x, ch);
        WithoutMember(h.rx.chain, x, ch);
      }
    }
  }

  lemma DestroyedListed(h: Net, x: nat, ok: bool)
    requires WF(h) && AllListed(h)
    ensures AllListed(Destroyed(h, x, ok))
  {
    StopOneFlags(h, x, ok);
    FlagsKeepWF(h, StopOne(h, x, ok));
    DetachedListed(StopOne(h, x, ok), x);
  }

  /** A talker that could not be announced leaves the lists' members alone. */
  lemma UnannouncedListed(h: Net, sid: nat, sc: StreamClass, unadv: bool)
    requires WF(h) && AllListed(h) && h.srp
    ensures AllListed(CreatedTx(h, sid, sc, false, unadv))
  {
    var t := NewTx(h, sid, sc);
    CreatedTxWF(h, sid, sc, false, unadv);
    var a := Announce(t, h.nextId, false);
    var s := StopOne(a, h.nextId, unadv);
    StopOneFlags(a, h.nextId, unadv);
    var d := CreatedTx(h, sid, sc, false, unadv);
    forall ch | ch in d.chans && d.chans[ch].attached
      ensures ch in (if d.chans[ch].tx then d.tx.chain else d.rx.chain)
    {
      DestroyedGone(a, h.nextId, unadv);
      assert ch in h.chans;
      FlagsKeepWF(t, a);
      FlagsKeepWF(a, s);
      WithoutMember(s.tx.chain, h.nextId, ch);
    }
  }

  lemma StepListedIff(h: Net, e: Event)
    requires WF(h) && AllListed(h)
    ensures AllListed(Step(h, e)) <==> AddsInPlace(h, e)
  {
    if !Structural(e) {
      StepFlags(h, e);
    } else {
      match e
      case CreateTx(sid, sc, adv, unadv) =>
        if h.srp && !adv {
          UnannouncedListed(h, sid, sc, unadv);
        } else {
          assert h.nextId in Step(h, e).chans;
          assert forall ch :: ch in h.chans ==> ch in Step(h, e).chans && Step(h, e).chans[ch] == h.chans[ch];
        }
      case CreateRx(sid, sc) =>
        assert h.nextId in Step(h, e).chans;
      case Destroy(x, ok) => DestroyedListed(h, x, ok);
      case Detach(x) => DetachedListed(h, x);
      case _ =>
    }
  }

  lemma {:induction false} ListedThroughout(srp: bool, n: nat, es: seq<Event>, i: nat)
    requires i <= |es|
    requires forall k :: 0 <= k < i ==> AddsInPlace(Run(srp, n, es[..k]), es[k])
    ensures AllListed(Run(srp, n, es[..i]))
  {
    if i > 0 {
      ListedThroughout(srp, n, es, i - 1);
      RunStep(srp, n, es, i - 1);
      RunWF(srp, n, es[..i - 1]);
      StepListedIff(Run(srp, n, es[..i - 1]), es[i - 1]);
    }
  }

  /** Every attached channel is on its list at every point of a run exactly when
      no channel is ever added behind a tail pointer left over from a removal. */
  lemma AllListedIff(srp: bool, n: nat, es: seq<Event>)
    ensures (forall i :: 0 <= i <= |es| ==> AllListed(Run(srp, n, es[..i]))) <==>
            (forall k :: 0 <= k < |es| ==> AddsInPlace(Run(srp, n, es[..k]), es[k]))
  {
    if forall i :: 0 <= i <= |es| ==> AllListed(Run(srp, n, es[..i])) {
      forall k | 0 <= k < |es|
        ensures AddsInPlace(Run(srp, n, es[..k]), es[k])
      {
        RunStep(srp, n, es, k);
        RunWF(srp, n, es[..k]);
        assert AllListed(Run(srp, n, es[..k + 1]));
        StepListedIff(Run(srp, n, es[..k]), es[k]);
      }
    }
    if forall k :: 0 <= k < |es| ==> AddsInPlace(Run(srp, n, es[..k]), es[k]) {
      forall i | 0 <= i <= |es|
        ensures AllListed(Run(srp, n, es[..i]))
      {
        ListedThroughout(srp, n, es, i);
      }
    }
  }

  // ---------------------------------------------------------------------
  // nh_stop

  lemma {:induction false} StopListStops(h: Net, chain: seq<nat>, fails: set<nat>, ch: nat)
    requires ch in chain && ch in h.chans && h.chans[ch].attached
    ensures var t := StopList(h, chain, fails);
            ch in t.chans && t.chans[ch].stopping && !t.chans[ch].ready
    decreases |chain|
  {
    var s := StopOne(h, chain[0], chain[0] !in fails);
    StopOneFlags(h, chain[0], chain[0] !in fails);
    if chain[0] == ch {
      StopListReady(s, chain[1..], fails, ch);
      StopListFlags(s, chain[1..], fails);
    } else {
      StopListStops(s, chain[1..], fails, ch);
    }
  }

  /** `nh_stop` reaches every listed channel... */
  lemma StopAllReachesListed(h: Net, fails: set<nat>, ch: nat)
    requires WF(h) && (ch in h.tx.chain || ch in h.rx.chain)
    ensures var t := StoppedAll(h, fails);
            ch in t.chans && t.chans[ch].stopping && !t.chans[ch].ready
  {
    var s := StopList(h, h.tx.chain, fails);
    StopListFlags(h, h.tx.chain, fails);
    if ch in h.rx.chain {
      StopListStops(s, h.rx.chain, fails, ch);
    } else {
      StopListStops(h, h.tx.chain, fails, ch);
      StopListReady(s, h.rx.chain, fails, ch);
      StopListFlags(s, h.rx.chain, fails);
    }
  }

  lemma {:induction false} StopListLeaves(h: Net, chain: seq<nat>, fails: set<nat>, ch: nat)
    requires ch !in chain && ch in h.chans
    ensures var t := StopList(h, chain, fails);
            ch in t.chans && t.chans[ch] == h.chans[ch]
    decreases |chain|
  {
    if chain != [] {
      StopListLeaves(StopOne(h, chain[0], chain[0] !in fails), chain[1..], fails, ch);
    }
  }

  /** ... and no other: afterwards a channel is stopping exactly when it is
      listed or was stopping already, and one not listed is as it was. */
  lemma StopAllIff(h: Net, fails: set<nat>, ch: nat)
    requires WF(h) && ch in h.chans
    ensures var t := StoppedAll(h, fails);
            var listed := ch in h.tx.chain || ch in h.rx.chain;
            ch in t.chans && (t.chans[ch].stopping <==> listed || h.chans[ch].stopping) &&
            (!listed ==> t.chans[ch] == h.chans[ch])
  {
    if ch in h.tx.chain || ch in h.rx.chain {
      StopAllReachesListed(h, fails, ch);
    } else {
      StopListLeaves(h, h.tx.chain, fails, ch);
      StopListLeaves(StopList(h, h.tx.chain, fails), h.rx.chain, fails, ch);
    }
  }

  lemma StopAllWhenListed(h: Net, fails: set<nat>, ch: nat)
    requires WF(h) && AllListed(h) && ch in h.chans && h.chans[ch].attached
    ensures var t := Step(h, StopAll(fails));
            ch in t.chans && t.chans[ch].stopping && !t.chans[ch].ready
  {
    StopAllReachesListed(h, fails, ch);
  }

  /** So, in a run that adds channels in place only, every channel still
      attached: all are stopping and none is ready afterwards. */
  lemma StopAllReachesAll(srp: bool, n: nat, es: seq<Event>, fails: set<nat>, ch: nat)
    requires forall k :: 0 <= k < |es| ==> AddsInPlace(Run(srp, n, es[..k]), es[k])
    requires ch in Run(srp, n, es).chans && Run(srp, n, es).chans[ch].attached
    ensures var t := Step(Run(srp, n, es), StopAll(fails));
            ch in t.chans && t.chans[ch].stopping && !t.chans[ch].ready
  {
    assert es[..|es|] == es;
    ListedThroughout(srp, n, es, |es|);
    RunWF(srp, n, es);
    StopAllWhenListed(Run(srp, n, es), fails, ch);
  }

  // ---------------------------------------------------------------------
  // Socket priorities

  ghost predicate PriosMatch(h: Net) {
    forall ch :: ch in h.tx.chain && ch in h.chans ==>
      h.chans[ch].prio == if h.chans[ch].sc == Tas then h.tasPrio else h.cbsPrio
  }

  lemma DetachedPrios(h: Net, x: nat)
    requires WF(h) && PriosMatch(h)
    ensures PriosMatch(Detached(h, x))
  {
    forall ch | ch in Detached(h, x).tx.chain
      ensures ch in h.tx.chain
    {
      WithoutMember(h.tx.chain, x, ch);
    }
  }

  lemma DestroyedPrios(h: Net, x: nat, ok: bool)
    requires WF(h) && PriosMatch(h)
    ensures PriosMatch(Destroyed(h, x, ok))
  {
    StopOneFlags(h, x, ok);
    FlagsKeepWF(h, StopOne(h, x, ok));
    DetachedPrios(StopOne(h, x, ok), x);
  }

  lemma CreatedTxPrios(h: Net, sid: nat, sc: StreamClass, adv: bool, unadv: bool)
    requires WF(h) && PriosMatch(h)
    ensures PriosMatch(CreatedTx(h, sid, sc, adv, unadv))
  {
    var t := NewTx(h, sid, sc);
    CreatedTxWF(h, sid, sc, adv, unadv);
    assert PriosMatch(t);
    var a := Announce(t, h.nextId, adv);
    FlagsKeepWF(t, a);
    DestroyedPrios(a, h.nextId, unadv);
  }

  lemma StepPrios(h: Net, e: Event)
    requires WF(h) && PriosMatch(h)
    ensures PriosMatch(Step(h, e))
  {
    if !Structural(e) {
      StepFlags(h, e);
    } else {
      match e
      case CreateTx(sid, sc, adv, unadv) => CreatedTxPrios(h, sid, sc, adv, unadv);
      case Destroy(x, ok) => DestroyedPrios(h, x, ok);
      case Detach(x) => DetachedPrios(h, x);
      case _ =>
    }
  }

  /** Every listed Tx channel's socket has the priority the handler holds for
      its class, over every run: `nh_set_tx_prio` only acts on an empty list. */
  lemma {:induction false} PrioritiesKept(srp: bool, n: nat, es: seq<Event>)
    ensures PriosMatch(Run(srp, n, es))
  {
    if es != [] {
      PrioritiesKept(srp, n, es[..|es| - 1]);
      RunWF(srp, n, es[..|es| - 1]);
      StepPrios(Run(srp, n, es[..|es| - 1]), es[|es| - 1]);
    }
  }

  lemma StepKeepsPriorities(h: Net, e: Event)
    requires !e.SetPrio?
    ensures Step(h, e).tasPrio == h.tasPrio && Step(h, e).cbsPrio == h.cbsPrio
  {
    if !Structural(e) {
      StepFlags(h, e);
    }
  }

  lemma {:induction false} PrioritiesUnset(srp: bool, n: nat, es: seq<Event>)
    requires forall k :: 0 <= k < |es| ==> !es[k].SetPrio?
    ensures Run(srp, n, es).tasPrio == 3 && Run(srp, n, es).cbsPrio == 2
  {
    if es != [] {
      PrioritiesUnset(srp, n, es[..|es| - 1]);
      StepKeepsPriorities(Run(srp, n, es[..|es| - 1]), es[|es| - 1]);
    }
  }

  /** While no priority was set, TAS sockets have 3 and the others 2. */
  lemma DefaultPriorities(srp: bool, n: nat, es: seq<Event>, ch: nat)
    requires forall k :: 0 <= k < |es| ==> !es[k].SetPrio?
    requires ch in Run(srp, n, es).tx.chain
    ensures var h := Run(srp, n, es); ch in h.chans && h.chans[ch].prio == if h.chans[ch].sc == Tas then 3 else 2
  {
    RunWF(srp, n, es);
    PrioritiesUnset(srp, n, es);
    PrioritiesKept(srp, n, es);
  }

  /** A priority is taken exactly when it is 0 to 8 and no Tx channel is listed;
      then the next channel of the class, and no other class, gets it. */
  lemma PriorityTaken(h: Net, sc: StreamClass, prio: int, e: Event)
    requires e.CreateTx? && e.advertised
    ensures var t := Step(Step(h, SetPrio(sc, prio)), e);
            var taken := 0 <= prio <= 8 && h.tx.chain == [] && (sc == Tas <==> e.sc == Tas);
            h.nextId in t.chans && t.chans[h.nextId].prio == if taken then prio else h.PrioOf(e.sc)
  {
  }

  // ---------------------------------------------------------------------
  // Readiness

  lemma StepCreatesIdle(h: Net, e: Event, ch: nat)
    requires WF(h) && ch !in h.chans && ch in Step(h, e).chans
    ensures Step(h, e).chans[ch].ready == !h.srp && !Step(h, e).chans[ch].stopping
  {
    if ch < h.nextId {
      StepGone(h, e, ch);
    } else if !Structural(e) {
      StepFlags(h, e);
    } else if e.CreateTx? {
      DestroyedGone(Announce(NewTx(h, e.sid, e.sc), h.nextId, e.advertised), h.nextId, e.unadvertised);
    } else if e.Destroy? {
      DestroyedGone(h, e.ch, e.ok);
    }
  }

  /** In SRP mode a talker is ready only if a listener has reached it. */
  lemma {:induction false} ReadyOnlyIfReached(n: nat, es: seq<Event>, ch: nat)
    requires ch in Run(true, n, es).chans
    requires Run(true, n, es).chans[ch].tx && Run(true, n, es).chans[ch].ready
    ensures exists k :: 0 <= k < |es| && Reaches(Run(true, n, es[..k]), es[k], ch)
  {
    if es != [] {
      var last := |es| - 1;
      var h := Run(true, n, es[..last]);
      RunWF(true, n, es[..last]);
      if ch !in h.chans {
        StepCreatesIdle(h, es[last], ch);
      } else {
        StepFollows(h, es[last], ch);
        if h.chans[ch].ready {
          ReadyOnlyIfReached(n, es[..last], ch);
          var k :| 0 <= k < last && Reaches(Run(true, n, es[..last][..k]), es[..last][k], ch);
          assert es[..last][..k] == es[..k];
        } else {
          StepReady(h, es[last], ch);
        }
      }
    }
  }
}
