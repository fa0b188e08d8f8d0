/** A handler together with the library calls made on it: the calls are a run of
    `Lifecycle` that leads to the handler's state, so the theorems on runs hold of
    the object. */
module HandlerHistory {
  import opened MachineInts
  import opened ChannelList
  import opened StreamTable
  import opened CaptureTime
  import opened Lifecycle
  import opened SrpHandler
  import HandlerLists
  import ListenerAgreement
  import TalkerTrace
  import TalkerAgreement
  import ListWalks

  class Session {
    const nh: NetHandler
    ghost var events: seq<Event>

    /** What a call may change. */
    ghost function Frame(): set<object>
      reads nh`made
    {
      {nh, nh.table, nh.table.slots, nh.txList, nh.rxList} + set c | c in nh.made
    }

    ghost predicate Valid()
      reads this, nh, nh.made, nh.table, nh.table.slots
      reads nh.txList, nh.txList.chain, nh.rxList, nh.rxList.chain
    {
      nh.Valid() && nh.View() == Run(nh.srp, nh.table.slots.Length, events)
    }

    constructor (srp: bool, n: nat)
      requires n > 0
      ensures Valid() && events == [] && nh.srp == srp && nh.table.slots.Length == n && fresh(nh) && fresh(Frame())
    {
      nh := new NetHandler(srp, n);
      events := [];
    }

    /** What holds of every object in use: lists and table are in order, sockets
        have the handler's priorities, a talker has sent what its state says, and
        listeners of distinct streams agree with what the network was told. */
    lemma RunFacts(ch: nat)
      requires Valid()
      ensures var h, n := nh.View(), nh.table.slots.Length;
              && WF(h) && HandlerLists.PriosMatch(h)
              && h.table == Build(n, HandlerLists.Registrations(nh.srp, n, events))
              && TalkerTrace.AdvertisedThenSilent(TalkerTrace.Talks(h.trace, ch))
              && (nh.srp && ch in h.chans && h.chans[ch].tx && !h.chans[ch].stopping ==>
                    (h.chans[ch].ready <==> TalkerAgreement.LastHeard(n, events, ch) == Some(true)))
              && (nh.srp && Distinct(ListenerAgreement.Streams(events)) && ch in h.chans ==>
                    ListenerAgreement.Agrees(h, ch))
    {
      hide NetHandler.View, NetHandler.Valid, Run;
      var n := nh.table.slots.Length;
      RunWF(nh.srp, n, events);
      HandlerLists.PrioritiesKept(nh.srp, n, events);
      HandlerLists.RunTable(nh.srp, n, events);
      TalkerTrace.TalkerTraceShape(nh.srp, n, events, ch);
      var h := nh.View();
      if nh.srp && ch in h.chans && h.chans[ch].tx && !h.chans[ch].stopping {
        TalkerAgreement.TalkersAgree(n, events, ch);
      }
      if nh.srp && Distinct(ListenerAgreement.Streams(events)) {
        ListenerAgreement.RunAgrees(n, events);
      }
    }

    ghost method Record(before: Net, e: Event)
      requires nh.Valid() && nh.View() == Step(before, e)
      requires before == Run(nh.srp, nh.table.slots.Length, events)
      modifies this`events
      ensures Valid() && events == old(events) + [e]
    {
      hide Step, NetHandler.View, NetHandler.Valid;
      assert (events + [e])[..|events|] == events;
      events := events + [e];
    }

    /** Listed channels are among those made. */
    lemma ListsFramed()
      requires nh.Valid()
      ensures forall c :: c in nh.txList.chain || c in nh.rxList.chain ==> c in nh.made
    {
      nh.Members(true);
      nh.Members(false);
    }

    /** `chan_create_tx`. */
    method CreateTx(sid: nat, sc: StreamClass, hasPipe: bool, hasSocket: bool, advertised: bool, withdrawn: bool)
      returns (ch: Channel?)
      requires Valid()
      modifies this`events, Frame()
      ensures Valid() && old(nh.made) <= nh.made
      ensures events == old(events) + [if hasPipe && hasSocket then Event.CreateTx(sid, sc, advertised, withdrawn)
                                       else CreateFailed(sid, withdrawn)]
      ensures ch != null <==> hasPipe && hasSocket && (advertised || !nh.srp)
      ensures ch != null ==> nh.Live(ch) && ch.id == |old(nh.made)|
    {
      hide NetHandler.View, NetHandler.ListValid, Run, CallbackTable.Valid, CreatedTx, FailedCreate;
      ghost var before := nh.View();
      ch := nh.ChanCreateTx(sid, sc, hasPipe, hasSocket, advertised, withdrawn);
      Record(before, if hasPipe && hasSocket then Event.CreateTx(sid, sc, advertised, withdrawn)
                     else CreateFailed(sid, withdrawn));
    }

    /** `chan_create_rx`. */
    method CreateRx(sid: nat, sc: StreamClass, hasPipe: bool, hasMemory: bool, withdrawn: bool)
      returns (ch: Channel?)
      requires Valid()
      modifies this`events, Frame()
      ensures Valid() && old(nh.made) <= nh.made
      ensures events == old(events) + [if hasPipe && hasMemory then Event.CreateRx(sid, sc)
                                       else CreateFailed(sid, withdrawn)]
      ensures ch != null <==> hasPipe && hasMemory
      ensures ch != null ==> nh.Live(ch) && ch.id == |old(nh.made)|
    {
      hide NetHandler.View, NetHandler.ListValid, Run, CallbackTable.Valid, NewRx, FailedCreate;
      ghost var before := nh.View();
      ch := nh.ChanCreateRx(sid, sc, hasPipe, hasMemory, withdrawn);
      Record(before, if hasPipe && hasMemory then Event.CreateRx(sid, sc)
                     else CreateFailed(sid, withdrawn));
    }

    /** `chan_stop`. */
    method Stop(ch: Channel, ok: bool) returns (stopped: bool)
      requires Valid() && nh.Live(ch)
      modifies this`events, Frame()
      ensures Valid() && old(nh.made) <= nh.made
      ensures events == old(events) + [Event.Stop(ch.id, ok)]
      ensures stopped <==> ch.attached && !old(ch.stopping)
    {
      hide NetHandler.View, NetHandler.ListValid, Run, CallbackTable.Valid, StopOne;
      ghost var before := nh.View();
      stopped := nh.ChanStop(ch, ok);
      Record(before, Event.Stop(ch.id, ok));
    }

    /** `nh_remove_tx` and `nh_remove_rx`. */
    method Remove(ch: Channel) returns (rc: int)
      requires Valid() && nh.Live(ch)
      modifies this`events, Frame()
      ensures Valid() && old(nh.made) <= nh.made
      ensures events == old(events) + [Detach(ch.id)]
      ensures rc == if !old(ch.attached) then -ENOMEM else if ch in old(nh.ListOf(ch.isTx).chain) then 0 else -1
    {
      hide NetHandler.View, NetHandler.ListValid, Run, CallbackTable.Valid, Detached;
      ghost var before := nh.View();
      ListsFramed();
      rc := nh.NhRemove(ch);
      Record(before, Detach(ch.id));
    }

    /** `chan_destroy`. */
    method Destroy(ch: Channel, ok: bool)
      requires Valid() && nh.Live(ch)
      modifies this`events, Frame()
      ensures Valid() && old(nh.made) <= nh.made
      ensures events == old(events) + [Event.Destroy(ch.id, ok)]
    {
      hide NetHandler.View, NetHandler.ListValid, Run, CallbackTable.Valid, Destroyed;
      ghost var before := nh.View();
      ListsFramed();
      nh.ChanDestroy(ch, ok);
      Record(before, Event.Destroy(ch.id, ok));
    }

    /** `nh_set_tx_prio`. */
    method SetTxPrio(sc: StreamClass, prio: int) returns (taken: bool)
      requires Valid()
      modifies this`events, Frame()
      ensures Valid() && old(nh.made) <= nh.made
      ensures events == old(events) + [SetPrio(sc, prio)]
      ensures taken <==> 0 <= prio <= 8 && nh.View().tx.chain == []
    {
      hide NetHandler.View, NetHandler.ListValid, Run, CallbackTable.Valid, PrioSet;
      ghost var before := nh.View();
      taken := nh.NhSetTxPrio(sc, prio);
      Record(before, SetPrio(sc, prio));
    }

    /** `nh_stop`. */
    method StopAll(fails: set<nat>)
      requires Valid()
      modifies this`events, Frame()
      ensures Valid() && old(nh.made) <= nh.made
      ensures events == old(events) + [Event.StopAll(fails)]
    {
      hide NetHandler.View, NetHandler.ListValid, Run, CallbackTable.Valid, StoppedAll;
      ghost var before := nh.View();
      nh.NhStop(fails);
      Record(before, Event.StopAll(fails));
    }

    /** One pass of the announcer. */
    method Announce(fails: set<nat>)
      requires Valid() && nh.srp
      modifies this`events, Frame()
      ensures Valid() && old(nh.made) <= nh.made
      ensures events == old(events) + [AnnouncePass(fails)]
      ensures exists places :: ListWalks.Announced(old(nh.View()), nh.View(), fails, places)
    {
      hide NetHandler.View, NetHandler.ListValid, Run, CallbackTable.Valid, AnnounceList;
      ghost var before := nh.View();
      nh.AnnouncePass(fails);
      Record(before, AnnouncePass(fails));
    }

    /** A listener notification for a talker. */
    method HearListener(sid: nat, isNew: bool) returns (known: bool)
      requires Valid()
      modifies this`events, Frame()
      ensures Valid() && old(nh.made) <= nh.made
      ensures events == old(events) + [if isNew then ListenerNew(sid) else ListenerLeaving(sid)]
      ensures known <==> FindTx(old(nh.View()), sid).Some?
      ensures forall i: nat :: FirstAt(nh.txList.chain, sid, i) ==> known && nh.txList.chain[i].ready == isNew
    {
      hide NetHandler.View, NetHandler.ListValid, Run, CallbackTable.Valid, Lifecycle.HearListener;
      ghost var before := nh.View();
      known := nh.NotifyTalker(sid, isNew);
      Record(before, if isNew then ListenerNew(sid) else ListenerLeaving(sid));
    }

    /** A talker notification for a listener. */
    method HearTalker(sid: nat, isNew: bool, ok: bool) returns (result: bool)
      requires Valid()
      modifies this`events, Frame()
      ensures Valid() && old(nh.made) <= nh.made
      ensures events == old(events) + [if isNew then TalkerNew(sid, ok) else TalkerLeave(sid, ok)]
      ensures var h := old(nh.View());
              var found := FindRx(h, sid);
              result <==> found.Some? && (isNew && !ok ==> h.chans[found.value].ready)
    {
      hide NetHandler.View, NetHandler.ListValid, Run, CallbackTable.Valid, Find, Lookup;
      ghost var before := nh.View();
      result := nh.NotifyListener(sid, isNew, ok);
      Record(before, if isNew then TalkerNew(sid, ok) else TalkerLeave(sid, ok));
    }
  }
}
