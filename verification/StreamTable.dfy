/** The open-addressing table that maps a stream ID to its callback area
    (src/netchan.c, `nh_reg_callback` and `get_hm_idx`). */
module StreamTable {
  import opened MachineInts
  import opened Counting

  /** A `struct cb_entity`; a slot is free while its callback is NULL.  The
      owner stands for the private data registered along with the callback. */
  datatype Slot = Free | Used(sid: nat, owner: nat)

  /** The slot reached after `d` probes. */
  function Pos(sid: nat, n: nat, d: nat): (p: nat)
    requires d < n
    ensures p < n
  {
    var home := sid % n;
    if home + d < n then home + d else home + d - n
  }

  /** The number of probes after which `i` is reached. */
  function Probes(sid: nat, n: nat, i: nat): (d: nat)
    requires i < n
    ensures d < n && Pos(sid, n, d) == i
  {
    var home := sid % n;
    if i >= home then i - home else i + n - home
  }

  lemma NextPos(sid: nat, n: nat, d: nat)
    requires d < n
    ensures (Pos(sid, n, d) + 1) % n == if d + 1 < n then Pos(sid, n, d + 1) else sid % n
  {
  }

  /** The first free slot on the probe path, from probe `d` on. */
  function FirstFree(s: seq<Slot>, sid: nat, d: nat): (r: nat)
    requires d <= |s|
    ensures d <= r <= |s|
    ensures r < |s| ==> s[Pos(sid, |s|, r)].Free?
    ensures forall e :: d <= e < r ==> s[Pos(sid, |s|, e)].Used?
    decreases |s| - d
  {
    if d == |s| || s[Pos(sid, |s|, d)].Free? then d else FirstFree(s, sid, d + 1)
  }

  predicate Holds(slot: Slot, sid: nat) {
    slot.Used? && slot.sid == sid
  }

  /** The first slot on the probe path that holds `sid`, from probe `d` on. */
  function FirstMatch(s: seq<Slot>, sid: nat, d: nat): (r: nat)
    requires d <= |s|
    ensures d <= r <= |s|
    ensures r < |s| ==> Holds(s[Pos(sid, |s|, r)], sid)
    ensures forall e :: d <= e < r ==> !Holds(s[Pos(sid, |s|, e)], sid)
    decreases |s| - d
  {
    if d == |s| || Holds(s[Pos(sid, |s|, d)], sid) then d else FirstMatch(s, sid, d + 1)
  }

  function Lookup(s: seq<Slot>, sid: nat): (r: int)
    ensures -1 <= r < |s| && (r >= 0 ==> Holds(s[r], sid))
  {
    var d := FirstMatch(s, sid, 0);
    if d < |s| then Pos(sid, |s|, d) else -1
  }

  predicate Full(s: seq<Slot>) {
    forall i :: 0 <= i < |s| ==> s[i].Used?
  }

  function Register(s: seq<Slot>, sid: nat, owner: nat): (t: seq<Slot>)
    ensures |t| == |s|
  {
    var d := FirstFree(s, sid, 0);
    if d < |s| then s[Pos(sid, |s|, d) := Used(sid, owner)] else s
  }

  lemma FullIff(s: seq<Slot>, sid: nat)
    ensures Full(s) <==> FirstFree(s, sid, 0) == |s|
  {
    if FirstFree(s, sid, 0) == |s| {
      forall i | 0 <= i < |s|
        ensures s[i].Used?
      {
        assert Pos(sid, |s|, Probes(sid, |s|, i)) == i;
      }
    }
  }

  /** Where a registration goes: the first free slot from the stream ID modulo the
      size on, going round; a full table stays as it is. */
  lemma RegisterPlace(s: seq<Slot>, sid: nat, owner: nat) returns (p: nat)
    ensures Full(s) ==> Register(s, sid, owner) == s
    ensures !Full(s) ==>
              && p < |s| && s[p] == Free && Register(s, sid, owner) == s[p := Used(sid, owner)]
              && var home := sid % |s|;
                 forall q :: 0 <= q < |s| && (if home <= p then home <= q < p else home <= q || q < p) ==> s[q] != Free
  {
    FullIff(s, sid);
    if Full(s) {
      p := 0;
    } else {
      var d := FirstFree(s, sid, 0);
      p := Pos(sid, |s|, d);
      var home := sid % |s|;
      forall q | 0 <= q < |s| && (if home <= p then home <= q < p else home <= q || q < p)
        ensures s[q] != Free
      {
        assert Probes(sid, |s|, q) < d;
      }
    }
  }

  /** Probing invariant: every slot a stream was moved past is taken. */
  ghost predicate NoGaps(s: seq<Slot>) {
    forall i, d :: 0 <= i < |s| && s[i].Used? && 0 <= d < Probes(s[i].sid, |s|, i) ==>
      s[Pos(s[i].sid, |s|, d)].Used?
  }

  lemma RegisterNoGaps(s: seq<Slot>, sid: nat, owner: nat)
    requires NoGaps(s)
    ensures NoGaps(Register(s, sid, owner))
  {
  }

  /** One registration: it gives its slot to a stream that had none, and
      changes the lookup of no other stream, nor of one already registered. */
  lemma RegisterLookup(s: seq<Slot>, sid: nat, owner: nat, q: nat)
    requires NoGaps(s)
    ensures Lookup(Register(s, sid, owner), q) ==
            if q == sid && Lookup(s, sid) == -1 && FirstFree(s, sid, 0) < |s|
            then Pos(sid, |s|, FirstFree(s, sid, 0)) else Lookup(s, q)
  {
  }

  // ---------------------------------------------------------------------
  // Whole histories of registrations

  datatype Request = Request(sid: nat, owner: nat)

  /** `calloc`ed slots. */
  function EmptyTable(n: nat): (s: seq<Slot>)
    ensures |s| == n && forall i :: 0 <= i < n ==> s[i].Free?
  {
    seq(n, _ => Free)
  }

  function Build(n: nat, reqs: seq<Request>): (s: seq<Slot>)
    ensures |s| == n
  {
    if reqs == [] then EmptyTable(n)
    else Register(Build(n, reqs[..|reqs| - 1]), reqs[|reqs| - 1].sid, reqs[|reqs| - 1].owner)
  }

  lemma BuildAppend(n: nat, reqs: seq<Request>, r: Request)
    ensures Build(n, reqs + [r]) == Register(Build(n, reqs), r.sid, r.owner)
  {
  }

  ghost function UsedSet(s: seq<Slot>): set<int> {
    set i | 0 <= i < |s| && s[i].Used?
  }

  lemma FullSize(s: seq<Slot>)
    ensures |UsedSet(s)| <= |s|
    ensures Full(s) <==> |UsedSet(s)| == |s|
  {
    var all := Range(0, |s|);
    RangeSize(0, |s|);
    SubsetSize(UsedSet(s), all);
    if Full(s) {
      assert UsedSet(s) == all;
    } else {
      var i :| 0 <= i < |s| && s[i].Free?;
      SubsetSize(UsedSet(s), all - {i});
    }
  }

  lemma RegisterCount(s: seq<Slot>, sid: nat, owner: nat)
    ensures |UsedSet(Register(s, sid, owner))| == |UsedSet(s)| + if Full(s) then 0 else 1
  {
    FullIff(s, sid);
    if !Full(s) {
      var p := Pos(sid, |s|, FirstFree(s, sid, 0));
      assert UsedSet(Register(s, sid, owner)) == UsedSet(s) + {p};
    }
  }

  function Min(a: nat, b: nat): nat {
    if a < b then a else b
  }

  /** No history leaves a gap, and each registration takes a slot until there
      are none: the first `n` succeed and no later one does. */
  lemma {:induction false} BuildInvariant(n: nat, reqs: seq<Request>)
    ensures NoGaps(Build(n, reqs))
    ensures |UsedSet(Build(n, reqs))| == Min(n, |reqs|)
    ensures Full(Build(n, reqs)) <==> |reqs| >= n
  {
    var s := Build(n, reqs);
    if reqs == [] {
      assert UsedSet(s) == {};
    } else {
      var last := |reqs| - 1;
      var before := Build(n, reqs[..last]);
      BuildInvariant(n, reqs[..last]);
      RegisterNoGaps(before, reqs[last].sid, reqs[last].owner);
      RegisterCount(before, reqs[last].sid, reqs[last].owner);
    }
    FullSize(s);
  }

  /** The first request for `sid`, or the length when there is none. */
  function First(reqs: seq<Request>, sid: nat): (k: nat)
    ensures k <= |reqs|
    ensures k < |reqs| ==> reqs[k].sid == sid
    ensures forall j :: 0 <= j < k ==> reqs[j].sid != sid
  {
    if reqs == [] then 0
    else if reqs[0].sid == sid then 0
    else 1 + First(reqs[1..], sid)
  }

  /** The requests that were granted. */
  function Granted(n: nat, reqs: seq<Request>): seq<Request> {
    reqs[..Min(n, |reqs|)]
  }

  /** The slot that request `k` was granted. */
  function SlotOf(n: nat, reqs: seq<Request>, k: nat): (p: nat)
    requires k < |Granted(n, reqs)|
    ensures p < n
  {
    BuildInvariant(n, reqs[..k]);
    FullIff(Build(n, reqs[..k]), reqs[k].sid);
    Pos(reqs[k].sid, n, FirstFree(Build(n, reqs[..k]), reqs[k].sid, 0))
  }

  /** The table refines a first-registration-wins map: after any history the
      lookup of a stream yields the slot given to its earliest granted
      registration, still holding that registration's owner, and -1 exactly
      when none was granted. */
  lemma {:induction false} FirstWins(n: nat, reqs: seq<Request>, sid: nat)
    ensures var k := First(Granted(n, reqs), sid);
            if k < |Granted(n, reqs)|
            then Lookup(Build(n, reqs), sid) == SlotOf(n, reqs, k) &&
                 Build(n, reqs)[SlotOf(n, reqs, k)] == Used(sid, reqs[k].owner)
            else Lookup(Build(n, reqs), sid) == -1
  {
    if reqs != [] {
      var last := |reqs| - 1;
      var past := reqs[..last];
      FirstWins(n, past, sid);
      BuildInvariant(n, past);
      FullIff(Build(n, past), reqs[last].sid);
      RegisterLookup(Build(n, past), reqs[last].sid, reqs[last].owner, sid);
      FirstOfPrefix(n, reqs, sid);
      var k := First(Granted(n, past), sid);
      if k < |Granted(n, past)| {
        SlotKept(n, reqs, k);
      }
    }
  }

  /** A slot once granted is neither moved nor overwritten. */
  lemma SlotKept(n: nat, reqs: seq<Request>, k: nat)
    requires reqs != [] && k < |Granted(n, reqs[..|reqs| - 1])|
    requires Build(n, reqs[..|reqs| - 1])[SlotOf(n, reqs[..|reqs| - 1], k)].Used?
    ensures SlotOf(n, reqs, k) == SlotOf(n, reqs[..|reqs| - 1], k)
    ensures Build(n, reqs)[SlotOf(n, reqs, k)] == Build(n, reqs[..|reqs| - 1])[SlotOf(n, reqs, k)]
  {
    assert reqs[..|reqs| - 1][..k] == reqs[..k];
  }

  /** A further request only matters to streams not granted before it. */
  lemma FirstOfPrefix(n: nat, reqs: seq<Request>, sid: nat)
    requires reqs != []
    ensures var last := |reqs| - 1;
            var was := First(Granted(n, reqs[..last]), sid);
            var now := First(Granted(n, reqs), sid);
            if was < |Granted(n, reqs[..last])| then now == was
            else if last < n && reqs[last].sid == sid then now == last
            else now == |Granted(n, reqs)|
  {
    var last := |reqs| - 1;
    var a, b := Granted(n, reqs[..last]), Granted(n, reqs);
    assert forall j :: 0 <= j < |a| ==> a[j] == b[j];
  }

  // ---------------------------------------------------------------------
  // The table itself

  class CallbackTable {
    const slots: array<Slot>
    ghost var reqs: seq<Request>

    ghost predicate Valid()
      reads this, slots
    {
      slots.Length > 0 && slots[..] == Build(slots.Length, reqs)
    }

    constructor (size: nat)
      requires size > 0
      ensures Valid() && fresh(slots) && slots.Length == size && reqs == []
    {
      slots := new Slot[size](_ => Free);
      reqs := [];
    }

    /** The probe loop of `nh_reg_callback`. */
    method ProbeForFree(sid: nat) returns (idx: nat)
      requires Valid()
      ensures var d := FirstFree(slots[..], sid, 0);
              idx == if d < slots.Length then Pos(sid, slots.Length, d) else sid % slots.Length
      ensures slots[idx].Free? <==> !Full(slots[..])
    {
      var n := slots.Length;
      idx := sid % n;
      var i := 0;
      while i < n && slots[idx].Used?
        invariant 0 <= i <= n
        invariant idx == if i < n then Pos(sid, n, i) else sid % n
        invariant forall d :: 0 <= d < i ==> slots[Pos(sid, n, d)].Used?
      {
        NextPos(sid, n, i);
        idx := (idx + 1) % n;
        i := i + 1;
      }
      FullIff(slots[..], sid);
      assert FirstFree(slots[..], sid, 0) == i;
    }

    /** `nh_reg_callback`.  It fails exactly when there is no callback or the
        table has been filled; otherwise the history grows by the request. */
    method RegisterCallback(sid: nat, owner: nat, hasCallback: bool) returns (rc: int)
      requires Valid()
      modifies this, slots
      ensures Valid()
      ensures rc == if !hasCallback then -EINVAL else if |old(reqs)| >= slots.Length then -ENOMEM else 0
      ensures reqs == if hasCallback then old(reqs) + [Request(sid, owner)] else old(reqs)
    {
      if !hasCallback {
        return -EINVAL;
      }
      var idx := ProbeForFree(sid);
      BuildInvariant(slots.Length, reqs);
      FullIff(slots[..], sid);
      reqs := reqs + [Request(sid, owner)];
      assert reqs[..|reqs| - 1] == old(reqs);
      if slots[idx].Used? {
        return -ENOMEM;
      }
      slots[idx] := Used(sid, owner);
      return 0;
    }

    /** `get_hm_idx`: the slot of the stream's earliest granted registration,
        -1 when there is none. */
    method FindIndex(sid: nat) returns (idx: int)
      requires Valid()
      ensures idx == Lookup(slots[..], sid)
      ensures var k := First(Granted(slots.Length, reqs), sid);
              idx == if k < |Granted(slots.Length, reqs)| then SlotOf(slots.Length, reqs, k) else -1
    {
      hide Build, SlotOf, Granted, First;
      var n := slots.Length;
      FirstWins(n, reqs, sid);
      idx := sid % n;
      for i := 0 to n
        invariant idx == if i < n then Pos(sid, n, i) else sid % n
        invariant forall d :: 0 <= d < i ==> !Holds(slots[Pos(sid, n, d)], sid)
      {
        if Holds(slots[idx], sid) {
          assert FirstMatch(slots[..], sid, 0) == i;
          return idx;
        }
        NextPos(sid, n, i);
        idx := (idx + 1) % n;
      }
      assert FirstMatch(slots[..], sid, 0) == n;
      return -1;
    }
  }
}
