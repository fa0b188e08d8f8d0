/** The signalling functions in place (src/netchan.c, src/netchan_srp_client.c)
    on linked channels and the callback table: list walks, flag updates, linking
    and unlinking, each method proved against the step it performs in
    `Lifecycle`, where channels are numbers and lists are sequences. */
module SrpHandler {
  import opened MachineInts
  import opened ChannelList
  import opened StreamTable
  import opened CaptureTime
  import opened Lifecycle
  import ListWalks

  // ---------------------------------------------------------------------
  // Linked channels as numbers

  ghost function Value(c: Channel): Chan
    reads c`attached, c`ready, c`stopping
  {
    Chan(c.isTx, c.sid, c.sc, c.prio, c.attached, c.ready, c.stopping)
  }

  function Ids(s: seq<Channel>): (r: seq<nat>)
    ensures |r| == |s| && forall i :: 0 <= i < |s| ==> r[i] == s[i].id
  {
    seq(|s|, i requires 0 <= i < |s| => s[i].id)
  }

  function IdList(l: ChanList<Channel>): ChanList<nat> {
    ChanList(Ids(l.chain), match l.tail case None => None case Some(c) => Some(c.id))
  }

  /** Channels of the list with the same number are the same. */
  ghost predicate Tells(l: ChanList<Channel>, x: Channel) {
    && (forall c :: c in l.chain && c.id == x.id ==> c == x)
    && (forall c :: l.tail.Some? && c in l.chain && c.id == l.tail.value.id ==> c == l.tail.value)
  }

  lemma {:induction false} IdsWithout(s: seq<Channel>, x: Channel)
    requires forall c :: c in s && c.id == x.id ==> c == x
    ensures Ids(Without(s, x)) == Without(Ids(s), x.id)
  {
    if s != [] {
      assert Ids(s)[1..] == Ids(s[1..]);
      IdsWithout(s[1..], x);
      assert s[0] in s;
      assert Ids([s[0]] + Without(s[1..], x)) == [s[0].id] + Ids(Without(s[1..], x));
    }
  }

  /** Numbering commutes with the list operations. */
  lemma IdListCommutes(l: ChanList<Channel>, x: Channel)
    requires Tells(l, x)
    ensures IdList(l.Add(x)) == IdList(l).Add(x.id)
    ensures IdList(l.Remove(x)) == IdList(l).Remove(x.id)
  {
    IdsWithout(l.chain, x);
    if l.chain != [] {
      assert l.chain[|l.chain| - 1] in l.chain;
      assert l.TailInPlace() <==> IdList(l).TailInPlace();
      assert Ids(l.chain + [x]) == Ids(l.chain) + [x.id];
    }
  }

  /** The state with one more channel, in no list yet. */
  function Began(h: Net, isTx: bool, sid: nat, sc: StreamClass): Net {
    h.(chans := h.chans[h.nextId := Chan(isTx, sid, sc, if isTx then h.PrioOf(sc) else 0, true, false, false)],
       nextId := h.nextId + 1)
  }

  function Linked(h: Net, isTx: bool, ch: nat): Net {
    if isTx then h.(tx := h.tx.Add(ch)) else h.(rx := h.rx.Add(ch))
  }

  /** Destroying a channel that never got its socket, nor into a list. */
  lemma BeganFails(h: Net, sid: nat, sc: StreamClass, ok: bool)
    requires h.nextId !in h.chans && h.nextId !in h.rx.chain
    ensures Destroyed(Began(h, false, sid, sc), h.nextId, ok) == FailedCreate(h, sid, ok)
  {
    var t := Destroyed(Began(h, false, sid, sc), h.nextId, ok);
    assert t.chans == h.chans;
  }

  /** Place `i` of the chain has the first channel of the stream. */
  predicate FirstAt(chain: seq<Channel>, sid: nat, i: nat) {
    i < |chain| && chain[i].sid == sid && forall j :: 0 <= j < i ==> chain[j].sid != sid
  }

  /** The walk stops where `Find` does. */
  lemma {:induction false} FindAt(chans: map<nat, Chan>, ids: seq<nat>, sid: nat, i: nat)
    requires i <= |ids| && forall j :: 0 <= j < |ids| ==> ids[j] in chans
    requires forall j :: 0 <= j < i ==> chans[ids[j]].sid != sid
    requires i < |ids| ==> chans[ids[i]].sid == sid
    ensures Find(chans, ids, sid) == if i < |ids| then Some(ids[i]) else None
  {
    if i > 0 {
      FindAt(chans, ids[1..], sid, i - 1);
    }
  }

  // ---------------------------------------------------------------------
  // The handler

  class NetHandler {
    const srp: bool
    const table: CallbackTable
    const txList: LinkedChannels
    const rxList: LinkedChannels
    var nextId: nat
    var tasPrio: int
    var cbsPrio: int

    /** Every channel ever made, by number, and the numbers of those not freed. */
    ghost var made: seq<Channel>
    ghost var live: set<nat>

    /** Everything handed to the MRP daemon's socket. */
    ghost var trace: seq<Sent>

    ghost predicate Made(c: Channel)
      reads this`made
    {
      c.id < |made| && made[c.id] == c
    }

    /** A channel pointer callers may use. */
    ghost predicate Live(c: Channel)
      reads this`made, this`live
    {
      Made(c) && c.id in live
    }

    function ListOf(isTx: bool): LinkedChannels {
      if isTx then txList else rxList
    }

    ghost predicate ListValid(isTx: bool)
      reads this`made, this`live, ListOf(isTx), ListOf(isTx).chain`next, ListOf(isTx).chain`attached
    {
      var list := ListOf(isTx);
      && list.Valid()
      && (forall c :: c in list.chain ==> Live(c) && c.isTx == isTx && c.attached)
      && (list.tail != null ==> Made(list.tail) && list.tail.isTx == isTx)
    }

    ghost predicate Valid()
      reads this`made, this`live, this`nextId, table, table.slots
      reads txList, txList.chain`next, txList.chain`attached, rxList, rxList.chain`next, rxList.chain`attached
    {
      && table.Valid()
      && |made| == nextId && (forall i :: 0 <= i < |made| ==> made[i].id == i)
      && (forall i :: i in live ==> i < nextId)
      && txList != rxList && ListValid(true) && ListValid(false)
    }

    ghost function Chans(): map<nat, Chan>
      reads this`made, this`live, made`attached, made`ready, made`stopping
    {
      map i | i in live && i < |made| :: Value(made[i])
    }

    ghost function View(): Net
      reads this, made`attached, made`ready, made`stopping, txList, rxList, table, table.slots
    {
      Net(srp, Chans(), nextId, IdList(txList.View()), IdList(rxList.View()), table.slots[..],
          trace, tasPrio, cbsPrio)
    }

    /** `nh_create_init`, as far as it concerns channels. */
    constructor (srp: bool, n: nat)
      requires n > 0
      ensures Valid() && View() == Start(srp, n)
      ensures fresh(table) && fresh(table.slots) && fresh(txList) && fresh(rxList)
    {
      this.srp := srp;
      table := new CallbackTable(n);
      txList := new LinkedChannels();
      rxList := new LinkedChannels();
      nextId, made, live, trace := 0, [], {}, [];
      tasPrio, cbsPrio := DEFAULT_TX_TAS_SOCKET_PRIO, DEFAULT_TX_CBS_SOCKET_PRIO;
    }

    lemma Known(ch: Channel)
      requires Live(ch)
      ensures ch.id in Chans() && Chans()[ch.id] == Value(ch)
    {
    }

    /** Changing one channel changes one value. */
    twostate lemma OneChanged(ch: Channel)
      requires made == old(made) && live == old(live) && Live(ch)
      requires forall i :: 0 <= i < |made| ==> made[i].id == i
      requires forall c :: c in made && c != ch ==> Value(c) == old(Value(c))
      ensures Chans() == old(Chans())[ch.id := Value(ch)]
    {
      forall i | i in live && i < |made| && i != ch.id
        ensures Value(made[i]) == old(Value(made[i]))
      {
        assert made[i] in made && made[i] != ch;
      }
    }

    /** `chan_stop`: reports a stop only the first time. */
    method ChanStop(ch: Channel?, ok: bool) returns (stopped: bool)
      requires Valid() && (ch != null ==> Live(ch))
      modifies this`trace, (if ch == null then {} else {ch})`ready, (if ch == null then {} else {ch})`stopping
      ensures Valid() && View() == if ch == null then old(View()) else StopOne(old(View()), ch.id, ok)
      ensures stopped <==> ch != null && ch.attached && !old(ch.stopping)
    {
      hide ListValid, IdList, Chans;
      if ch != null {
        Known(ch);
      }
      if ch == null || !ch.attached {
        return false;
      }
      ch.ready := false;
      if ch.stopping {
        OneChanged(ch);
        return false;
      }
      ch.stopping := true;
      if srp {
        trace := trace + [Sent(if ch.isTx then Unadvertise else ListenerLeave, ch.id, ch.sid, ok)];
      }
      OneChanged(ch);
      return true;
    }

    /** `nc_srp_new_talker`. */
    method NewTalker(ch: Channel?, ok: bool) returns (sent: bool)
      requires Valid() && (ch != null ==> Live(ch))
      modifies this`trace
      ensures Valid() && View() == if ch == null then old(View()) else Announce(old(View()), ch.id, ok)
      ensures sent <==> ok && ch != null && ch.attached && !ch.stopping
    {
      hide ListValid, IdList, Chans;
      if ch != null {
        Known(ch);
      }
      if ch == null || !ch.attached {
        return false;
      }
      if ch.stopping {
        return false;
      }
      trace := trace + [Sent(Advertise, ch.id, ch.sid, ok)];
      return ok;
    }

    /** A new channel adds one value. */
    twostate lemma OneMore(new ch: Channel)
      requires made == old(made) + [ch] && live == old(live) + {ch.id} && ch.id == |old(made)|
      requires forall c :: c in old(made) ==> Value(c) == old(Value(c))
      ensures Chans() == old(Chans())[ch.id := Value(ch)]
    {
      forall i | i in live && i < |made| && i != ch.id
        ensures Value(made[i]) == old(Value(made[i]))
      {
        assert made[i] in old(made);
      }
    }

    /** A list is as it was when nothing of it changed. */
    twostate lemma ListKept(isTx: bool)
      requires old(ListValid(isTx)) && old(made) <= made && old(live) <= live
      requires unchanged(ListOf(isTx))
      requires forall c :: c in ListOf(isTx).chain ==> c.next == old(c.next) && c.attached == old(c.attached)
      ensures ListValid(isTx)
    {
    }

    /** The list of its kind without a channel. */
    twostate lemma ListShrunk(ch: Channel)
      requires old(ListValid(ch.isTx)) && made == old(made) && live == old(live)
      requires ListOf(ch.isTx).Valid() && ListOf(ch.isTx).View() == old(ListOf(ch.isTx).View()).Remove(ch)
      requires forall c :: c in old(ListOf(ch.isTx).chain) && c != ch ==> c.attached == old(c.attached)
      ensures ListValid(ch.isTx) && ch !in ListOf(ch.isTx).chain
    {
      var was := old(ListOf(ch.isTx).chain);
      WithoutFacts(was, ch);
      forall c | c in ListOf(ch.isTx).chain
        ensures c in was && c != ch
      {
        WithoutMember(was, ch, c);
      }
    }

    /** Numbers tell channels apart. */
    lemma NumbersTell(isTx: bool, ch: Channel)
      requires ListValid(isTx) && Made(ch)
      ensures Tells(ListOf(isTx).View(), ch)
    {
    }

    lemma Members(isTx: bool)
      requires ListValid(isTx)
      ensures ListOf(isTx).Valid()
      ensures forall c :: c in ListOf(isTx).chain ==> Live(c) && c.isTx == isTx && c.attached && c in made
    {
      forall c | c in ListOf(isTx).chain
        ensures c in made
      {
        assert Live(c);
      }
    }

    /** Taking a channel out of the list of its kind. */
    method Unlist(ch: Channel) returns (rc: int)
      requires Valid() && Live(ch)
      modifies ListOf(ch.isTx), ch`next, ListOf(ch.isTx).chain`next
      ensures Valid() && ch !in ListOf(ch.isTx).chain
      ensures rc == if ch in old(ListOf(ch.isTx).chain) then 0 else -1
      ensures IdList(ListOf(ch.isTx).View()) == IdList(old(ListOf(ch.isTx).View())).Remove(ch.id)
    {
      hide ListValid, IdList, Chans, Tells, LinkedChannels.Valid, CallbackTable.Valid, ChanList.Remove;
      Members(true);
      Members(false);
      NumbersTell(ch.isTx, ch);
      IdListCommutes(ListOf(ch.isTx).View(), ch);
      rc := ListOf(ch.isTx).Remove(ch);
      ListShrunk(ch);
      ListKept(!ch.isTx);
    }

    /** `nh_remove_tx` and `nh_remove_rx`, by the channel's kind. */
    method NhRemove(ch: Channel?) returns (rc: int)
      requires Valid() && (ch != null ==> Live(ch))
      modifies (if ch == null then {} else {ListOf(ch.isTx)}), (if ch == null then {} else {ch})`next
      modifies (if ch == null then {} else {ch})`attached, (if ch == null then [] else ListOf(ch.isTx).chain)`next
      ensures Valid() && View() == if ch == null then old(View()) else Detached(old(View()), ch.id)
      ensures rc == if ch == null || !old(ch.attached) then -ENOMEM
                    else if ch in old(ListOf(ch.isTx).chain) then 0 else -1
      ensures ch != null ==> ch !in ListOf(ch.isTx).chain
    {
      hide ListValid, IdList, Chans, LinkedChannels.Valid, CallbackTable.Valid;
      if ch != null {
        Known(ch);
        Members(ch.isTx);
        Members(!ch.isTx);
      }
      if ch == null || !ch.attached {
        return -ENOMEM;
      }
      ListedIff(ch);
      rc := Unlist(ch);
      if rc < 0 {
        WithoutAbsent(IdList(old(ListOf(ch.isTx).View())).chain, ch.id);
        return -1;
      }
      ch.attached := false;
      OneChanged(ch);
      return 0;
    }

    lemma ListedIff(ch: Channel)
      requires ListValid(ch.isTx) && Made(ch)
      ensures ch in ListOf(ch.isTx).chain <==> ch.id in IdList(ListOf(ch.isTx).View()).chain
    {
      var chain := ListOf(ch.isTx).chain;
      if ch.id in Ids(chain) {
        var i :| 0 <= i < |chain| && Ids(chain)[i] == ch.id;
        assert chain[i] in chain;
      }
      if ch in chain {
        var i :| 0 <= i < |chain| && chain[i] == ch;
        assert Ids(chain)[i] == ch.id;
      }
    }

    /** `free`: the number is not used again. */
    method Free(ch: Channel)
      requires Valid() && Live(ch) && ch !in ListOf(ch.isTx).chain
      modifies this`live
      ensures Valid() && !Live(ch) && View() == old(View()).(chans := old(View()).chans - {ch.id})
    {
      hide IdList, LinkedChannels.Valid, CallbackTable.Valid;
      live := live - {ch.id};
      assert Chans() == old(Chans()) - {ch.id};
    }

    /** `chan_destroy`. */
    method ChanDestroy(ch: Channel, ok: bool)
      requires Valid() && Live(ch)
      modifies this`trace, this`live, ch, ListOf(ch.isTx), ListOf(ch.isTx).chain`next
      ensures Valid() && View() == Destroyed(old(View()), ch.id, ok)
      ensures !Live(ch) && ch !in txList.chain && ch !in rxList.chain
    {
      hide View, ListValid, StopOne, Detached;
      var _ := ChanStop(ch, ok);
      var _ := NhRemove(ch);
      Free(ch);
      Members(true);
      Members(false);
    }

    /** `_chan_create` for admitted attributes. */
    method ChanCreate(isTx: bool, sid: nat, sc: StreamClass) returns (ch: Channel)
      requires Valid()
      modifies this`nextId, this`made, this`live
      ensures Valid() && Live(ch) && fresh(ch) && ch.attached && !ch.stopping && ch.next == null
      ensures ch.isTx == isTx && ch.id == old(View()).nextId
      ensures View() == Began(old(View()), isTx, sid, sc) && made == old(made) + [ch]
    {
      hide ListValid, IdList, Chans, LinkedChannels.Valid, CallbackTable.Valid;
      ch := new Channel(nextId, isTx, sid, sc, if !isTx then 0 else if sc == Tas then tasPrio else cbsPrio);
      made := made + [ch];
      live := live + {nextId};
      nextId := nextId + 1;
      ListKept(true);
      ListKept(false);
      OneMore(ch);
    }

    /** The list of its kind with one channel more, or a tail that leads
        nowhere. */
    twostate lemma ListGrown(ch: Channel)
      requires old(ListValid(ch.isTx)) && made == old(made) && live == old(live) && Live(ch) && ch.attached
      requires ListOf(ch.isTx).Valid() && ListOf(ch.isTx).View() == old(ListOf(ch.isTx).View()).Add(ch)
      requires forall c :: c in old(ListOf(ch.isTx).chain) ==> c.attached == old(c.attached)
      ensures ListValid(ch.isTx)
    {
    }

    /** `nh_add_tx` and `nh_add_rx`, by the channel's kind. */
    method NhAdd(ch: Channel)
      requires Valid() && Live(ch) && ch.attached && ch.next == null && ch !in ListOf(ch.isTx).chain
      modifies ListOf(ch.isTx), (if ListOf(ch.isTx).tail == null then {} else {ListOf(ch.isTx).tail})`next
      ensures Valid() && View() == Linked(old(View()), ch.isTx, ch.id)
    {
      hide ListValid, IdList, Chans, Tells, LinkedChannels.Valid, CallbackTable.Valid, ChanList.Add;
      Members(true);
      Members(false);
      TailMade(ch.isTx);
      NumbersTell(ch.isTx, ch);
      IdListCommutes(ListOf(ch.isTx).View(), ch);
      ListOf(ch.isTx).Add(ch);
      ListGrown(ch);
      ListKept(!ch.isTx);
    }

    lemma ListMade(isTx: bool)
      requires ListValid(isTx)
      ensures forall i :: 0 <= i < |ListOf(isTx).chain| ==>
                var c := ListOf(isTx).chain[i];
                c.id < |made| && made[c.id] == c
    {
      forall i | 0 <= i < |ListOf(isTx).chain|
        ensures Live(ListOf(isTx).chain[i])
      {
        assert ListOf(isTx).chain[i] in ListOf(isTx).chain;
      }
    }

    lemma TailMade(isTx: bool)
      requires ListValid(isTx)
      ensures var tail := ListOf(isTx).tail;
              tail != null ==> Made(tail) && tail in made && tail.isTx == isTx
    {
    }

    method MarkReady(ch: Channel, ready: bool)
      requires Valid() && Live(ch)
      modifies ch`ready
      ensures Valid() && ch.id in old(View()).chans && View() == old(View()).SetReady(ch.id, ready)
      ensures ch.ready == ready
    {
      hide ListValid, IdList, Chans;
      Known(ch);
      ch.ready := ready;
      OneChanged(ch);
    }

    lemma FreshNumber()
      requires Valid()
      ensures var h := View(); h.nextId !in h.chans && h.nextId !in h.tx.chain && h.nextId !in h.rx.chain
    {
      forall i | 0 <= i < |txList.chain|
        ensures Ids(txList.chain)[i] < nextId
      {
        assert Live(txList.chain[i]);
      }
      forall i | 0 <= i < |rxList.chain|
        ensures Ids(rxList.chain)[i] < nextId
      {
        assert Live(rxList.chain[i]);
      }
    }

    /** A creation gives up after the handler was set. */
    method GiveUp(sid: nat, sc: StreamClass, ok: bool)
      requires Valid()
      modifies this, rxList, made`next
      ensures Valid() && View() == FailedCreate(old(View()), sid, ok) && old(made) <= made
    {
      hide View, Destroyed, Began, ListValid;
      FreshNumber();
      BeganFails(View(), sid, sc, ok);
      var ch := ChanCreate(false, sid, sc);
      ListMade(false);
      ChanDestroy(ch, ok);
    }

    /** A channel made and linked, ready at once without SRP. */
    method NewLinked(isTx: bool, sid: nat, sc: StreamClass) returns (ch: Channel)
      requires Valid()
      modifies this, ListOf(isTx), made`next
      ensures Valid() && Live(ch) && fresh(ch) && ch.attached && !ch.stopping && made == old(made) + [ch]
      ensures ch.isTx == isTx && ch.id == old(View()).nextId
      ensures var h := old(View());
              View() == Linked(Began(h, isTx, sid, sc), isTx, h.nextId).SetReady(h.nextId, !srp)
    {
      hide View, ListValid, CallbackTable.Valid, ChanList.Add;
      FreshNumber();
      ch := ChanCreate(isTx, sid, sc);
      NotListed(ch);
      TailMade(isTx);
      NhAdd(ch);
      MarkReady(ch, !srp);
    }

    /** `chan_create_tx` for admitted attributes: whether pipe and socket could
        be made and whether messages were handed over are inputs. */
    method ChanCreateTx(sid: nat, sc: StreamClass, hasPipe: bool, hasSocket: bool, advertised: bool, withdrawn: bool)
      returns (ch: Channel?)
      requires Valid()
      modifies this, txList, rxList, made`next
      ensures Valid() && old(made) <= made
      ensures View() == Step(old(View()), if hasPipe && hasSocket then CreateTx(sid, sc, advertised, withdrawn)
                                          else CreateFailed(sid, withdrawn))
      ensures ch != null <==> hasPipe && hasSocket && (advertised || !srp)
      ensures ch != null ==> Live(ch) && ch.id == old(nextId)
    {
      hide ListValid, IdList, Chans, Destroyed, Announce, LinkedChannels.Valid, CallbackTable.Valid, ChanList.Add;
      if !hasPipe || !hasSocket {
        GiveUp(sid, sc, withdrawn);
        return null;
      }
      ch := NewLinked(true, sid, sc);
      assert View() == NewTx(old(View()), sid, sc);
      if srp {
        var sent := NewTalker(ch, advertised);
        if !sent {
          ListMade(true);
          ChanDestroy(ch, withdrawn);
          return null;
        }
      }
    }

    lemma NotListed(ch: Channel)
      requires ListValid(ch.isTx) && Made(ch)
      requires ch.id !in (if ch.isTx then View().tx.chain else View().rx.chain)
      ensures ch !in ListOf(ch.isTx).chain
    {
      ListedIff(ch);
    }

    /** `nh_reg_callback`, its result ignored as by `chan_create_rx`. */
    method NhRegCallback(sid: nat, owner: nat)
      requires Valid()
      modifies table, table.slots
      ensures Valid() && View() == old(View()).(table := Register(old(View()).table, sid, owner))
    {
      hide ListValid, IdList, Chans, Register;
      BuildAppend(table.slots.Length, table.reqs, Request(sid, owner));
      var _ := table.RegisterCallback(sid, owner, true);
      ListKept(true);
      ListKept(false);
    }

    /** `chan_create_rx` for admitted attributes. */
    method ChanCreateRx(sid: nat, sc: StreamClass, hasPipe: bool, hasMemory: bool, withdrawn: bool)
      returns (ch: Channel?)
      requires Valid()
      modifies this, rxList, made`next, table, table.slots
      ensures Valid() && old(made) <= made
      ensures View() == Step(old(View()), if hasPipe && hasMemory then CreateRx(sid, sc)
                                          else CreateFailed(sid, withdrawn))
      ensures ch != null <==> hasPipe && hasMemory
      ensures ch != null ==> Live(ch) && ch.id == old(nextId)
    {
      hide ListValid, IdList, Chans, Register, CallbackTable.Valid, ChanList.Add;
      if !hasPipe || !hasMemory {
        GiveUp(sid, sc, withdrawn);
        return null;
      }
      ch := NewLinked(false, sid, sc);
      NhRegCallback(sid, ch.id);
    }

    /** `nh_set_tx_prio`. */
    method NhSetTxPrio(sc: StreamClass, prio: int) returns (taken: bool)
      requires Valid()
      modifies this`tasPrio, this`cbsPrio
      ensures Valid() && View() == PrioSet(old(View()), sc, prio)
      ensures taken <==> 0 <= prio <= 8 && View().tx.chain == []
    {
      hide ListValid, Chans;
      Members(true);
      if prio < 0 || prio > 8 {
        return false;
      }
      assert txList.head == null <==> Ids(txList.chain) == [];
      if txList.head != null {
        return false;
      }
      match sc {
        case Tas => tasPrio := prio;
        case ClassA => cbsPrio := prio;
        case ClassB => cbsPrio := prio;
      }
      return true;
    }

    /** One of the two list walks of `nh_stop`. */
    method StopWalk(isTx: bool, fails: set<nat>)
      requires Valid()
      modifies this`trace, made`ready, made`stopping
      ensures Valid() && View() == StopList(old(View()), Ids(ListOf(isTx).chain), fails)
    {
      hide ListValid, IdList, Chans, StopOne;
      Members(isTx);
      ListMade(isTx);
      ghost var ids := Ids(ListOf(isTx).chain);
      ghost var i := 0;
      var cur := ListOf(isTx).head;
      assert ids[0..] == ids;
      while cur != null
        invariant Valid() && i <= |ids|
        invariant cur == if i < |ids| then ListOf(isTx).chain[i] else null
        invariant StopList(View(), ids[i..], fails) == StopList(old(View()), ids, fails)
        decreases |ids| - i
      {
        Members(isTx);
        assert ids[i..][0] == ids[i] && ids[i..][1..] == ids[i + 1..];
        var _ := ChanStop(cur, cur.id !in fails);
        cur := cur.next;
        i := i + 1;
      }
    }

    /** `nh_stop`. */
    method NhStop(fails: set<nat>)
      requires Valid()
      modifies this`trace, made`ready, made`stopping
      ensures Valid() && View() == StoppedAll(old(View()), fails)
    {
      hide ListValid, Chans, StopList;
      StopWalk(true, fails);
      StopListFlags(old(View()), old(View()).tx.chain, fails);
      StopWalk(false, fails);
    }

    /** The value view of a valid handler is well-formed. */
    lemma ViewWF()
      requires Valid()
      ensures WF(View())
    {
      hide LinkedChannels.Valid, CallbackTable.Valid;
      ListedView(true);
      ListedView(false);
    }

    lemma ListedView(isTx: bool)
      requires ListValid(isTx)
      ensures Listed(View(), Ids(ListOf(isTx).chain), isTx)
    {
      var chain := ListOf(isTx).chain;
      forall p | 0 <= p < |chain|
        ensures Ids(chain)[p] in Chans() && Chans()[Ids(chain)[p]] == Value(chain[p])
        ensures chain[p].isTx == isTx && chain[p].attached && Made(chain[p])
      {
        assert chain[p] in chain;
        Known(chain[p]);
      }
    }

    /** One pass of the announcer's loop: every listed talker that is neither
        ready nor stopping is advertised once, in list order, and nothing else
        happens. */
    method AnnouncePass(fails: set<nat>)
      requires Valid() && srp
      modifies this`trace
      ensures Valid() && exists places :: ListWalks.Announced(old(View()), View(), fails, places)
      ensures View() == Step(old(View()), Event.AnnouncePass(fails))
    {
      hide View, Valid, Step;
      ghost var h := View();
      ViewWF();
      ViewSrp();
      AnnounceWalk(fails);
      AnnounceMeaning(h, fails);
    }

    lemma ViewSrp()
      ensures View().srp == srp
    {
    }

    lemma AnnounceMeaning(h: Net, fails: set<nat>)
      requires WF(h) && h.srp
      ensures exists places :: ListWalks.Announced(h, Step(h, Event.AnnouncePass(fails)), fails, places)
    {
      var places := ListWalks.AnnouncePassMeans(h, fails);
    }

    method AnnounceWalk(fails: set<nat>)
      requires Valid() && srp
      modifies this`trace
      ensures Valid() && View() == Step(old(View()), Event.AnnouncePass(fails))
    {
      hide ListValid, Chans, Announce;
      Members(true);
      ghost var ids := Ids(txList.chain);
      ghost var i := 0;
      var talker := txList.head;
      assert ids[0..] == ids;
      while talker != null
        invariant Valid() && i <= |ids|
        invariant talker == if i < |ids| then txList.chain[i] else null
        invariant AnnounceList(View(), ids[i..], fails) == AnnounceList(old(View()), ids, fails)
        decreases |ids| - i
      {
        assert ids[i..][0] == ids[i] && ids[i..][1..] == ids[i + 1..];
        Known(talker);
        if !talker.ready && !talker.stopping {
          var _ := NewTalker(talker, talker.id !in fails);
        }
        talker := talker.next;
        i := i + 1;
      }
    }

    /** The list walk of `get_tx_chan_from_sid` and `get_rx_chan_from_sid`. */
    method Walk(isTx: bool, sid: nat) returns (ch: Channel?)
      requires Valid()
      ensures Find(Chans(), Ids(ListOf(isTx).chain), sid) == if ch == null then None else Some(ch.id)
      ensures ch != null ==> Live(ch) && ch.isTx == isTx
      ensures forall i: nat :: FirstAt(ListOf(isTx).chain, sid, i) ==> ch == ListOf(isTx).chain[i]
    {
      hide ListValid, Chans, Find;
      Members(isTx);
      ch := ListOf(isTx).Find(sid);
      ghost var chain := ListOf(isTx).chain;
      forall j | 0 <= j < |chain|
        ensures Ids(chain)[j] in Chans() && Chans()[Ids(chain)[j]].sid == chain[j].sid
      {
        Known(chain[j]);
      }
      if ch == null {
        FindAt(Chans(), Ids(chain), sid, |chain|);
      } else {
        ghost var i :| 0 <= i < |chain| && chain[i] == ch && ch.sid == sid &&
                       forall j :: 0 <= j < i ==> chain[j].sid != sid;
        FindAt(Chans(), Ids(chain), sid, i);
        forall k: nat | FirstAt(chain, sid, k)
          ensures k == i
        {
        }
      }
    }

    /** `nh_notify_talker_Lnew` and `nh_notify_talker_Lleaving`: the first listed
        talker of the stream becomes ready, or stops being so. */
    method NotifyTalker(sid: nat, isNew: bool) returns (known: bool)
      requires Valid()
      modifies made`ready
      ensures forall i: nat :: FirstAt(txList.chain, sid, i) ==> known && txList.chain[i].ready == isNew
      ensures Valid() && View() == HearListener(old(View()), sid, isNew)
      ensures known <==> FindTx(old(View()), sid).Some?
    {
      hide ListValid, Chans, Find;
      var talker := Walk(true, sid);
      if talker == null {
        return false;
      }
      MarkReady(talker, isNew);
      return true;
    }

    /** `get_rx_chan_from_sid`: the walk only when the table knows the stream. */
    method RxFromSid(sid: nat) returns (ch: Channel?)
      requires Valid()
      ensures FindRx(View(), sid) == if ch == null then None else Some(ch.id)
      ensures ch != null ==> Live(ch) && !ch.isTx
    {
      hide ListValid, Chans, Find, Lookup;
      var idx := table.FindIndex(sid);
      if idx < 0 {
        return null;
      }
      ch := Walk(false, sid);
    }

    /** `nh_notify_listener_Tnew` and `nh_notify_listener_Tleave`; the former
        reports the flag, the latter that the stream is known. */
    method NotifyListener(sid: nat, isNew: bool, ok: bool) returns (result: bool)
      requires Valid()
      modifies this`trace, made`ready
      ensures Valid() && View() == HearTalker(old(View()), sid, isNew, ok)
      ensures var found := FindRx(old(View()), sid);
              result <==> found.Some? && (isNew ==> View().chans[found.value].ready)
    {
      hide ListValid, Chans, Find, Lookup;
      var listener := RxFromSid(sid);
      if listener == null {
        return false;
      }
      trace := trace + [Sent(if isNew then ListenerReady else ListenerLeave, listener.id, sid, ok)];
      if ok {
        MarkReady(listener, isNew);
      }
      Known(listener);
      return if isNew then listener.ready else true;
    }
  }
}
