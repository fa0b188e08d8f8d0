/** The singly linked channel lists of the net handler (src/netchan.c,
    `nh_add_tx`/`nh_add_rx`, `nh_remove_tx`/`nh_remove_rx`, `_nh_unlink_ch`,
    `_nh_get_len` and the stream searches). */
module ChannelList {
  import opened MachineInts
  import opened CaptureTime

  // ---------------------------------------------------------------------
  // Values

  /** What a list holds: the channels reached from the head, and the tail
      pointer, which removal does not maintain. */
  datatype ChanList<T(==)> = ChanList(chain: seq<T>, tail: Option<T>) {
    predicate TailInPlace() {
      chain == [] || tail == Some(chain[|chain| - 1])
    }

    /** `nh_add_*`: links behind the tail pointer, wherever that points. */
    function Add(x: T): ChanList<T> {
      if chain == [] then ChanList([x], Some(x))
      else if TailInPlace() then ChanList(chain + [x], Some(x))
      else ChanList(chain, Some(x))
    }

    /** `nh_remove_*`. */
    function Remove(x: T): ChanList<T> {
      ChanList(Without(chain, x), tail)
    }
  }

  function EmptyList<T(==)>(): ChanList<T> {
    ChanList([], None)
  }

  function Without<T(==)>(s: seq<T>, x: T): seq<T> {
    if s == [] then []
    else if s[0] == x then s[1..]
    else [s[0]] + Without(s[1..], x)
  }

  predicate Distinct<T(==)>(s: seq<T>) {
    forall i, j :: 0 <= i < j < |s| ==> s[i] != s[j]
  }

  lemma {:induction false} WithoutAt<T>(s: seq<T>, p: nat)
    requires Distinct(s) && p < |s|
    ensures Without(s, s[p]) == s[..p] + s[p + 1..]
  {
    if p > 0 {
      WithoutAt(s[1..], p - 1);
      assert s[..p] == [s[0]] + s[1..][..p - 1];
      assert s[1..][p - 1 + 1..] == s[p + 1..];
    }
  }

  lemma {:induction false} WithoutAbsent<T>(s: seq<T>, x: T)
    requires x !in s
    ensures Without(s, x) == s
  {
    if s != [] {
      WithoutAbsent(s[1..], x);
    }
  }

  lemma {:induction false} WithoutMember<T>(s: seq<T>, x: T, y: T)
    requires Distinct(s)
    ensures y in Without(s, x) <==> y in s && y != x
  {
    if s != [] && s[0] != x {
      WithoutMember(s[1..], x, y);
    }
  }

  lemma WithoutFacts<T>(s: seq<T>, x: T)
    requires Distinct(s)
    ensures Distinct(Without(s, x))
    ensures x !in Without(s, x)
    ensures |Without(s, x)| == if x in s then |s| - 1 else |s|
  {
    WithoutMember(s, x, x);
    if x in s {
      var p :| 0 <= p < |s| && s[p] == x;
      WithoutAt(s, p);
    } else {
      WithoutAbsent(s, x);
    }
  }

  // ---------------------------------------------------------------------
  // Runs

  datatype Op<T(==)> = Adding(x: T) | Removing(x: T)

  function Exec<T(==)>(ops: seq<Op<T>>): ChanList<T> {
    if ops == [] then EmptyList()
    else
      var before := Exec(ops[..|ops| - 1]);
      match ops[|ops| - 1]
      case Adding(x) => before.Add(x)
      case Removing(x) => before.Remove(x)
  }

  /** What the caller means: the added channels minus the removed, in order. */
  function Intended<T(==)>(ops: seq<Op<T>>): seq<T> {
    if ops == [] then []
    else
      var before := Intended(ops[..|ops| - 1]);
      match ops[|ops| - 1]
      case Adding(x) => before + [x]
      case Removing(x) => Without(before, x)
  }

  /** The caller has removed the last channel of the list since the list was
      last started afresh. */
  predicate TailRemoved<T(==)>(ops: seq<Op<T>>) {
    ops != [] &&
    var past := ops[..|ops| - 1];
    var was := Intended(past);
    match ops[|ops| - 1]
    case Adding(x) => was != [] && TailRemoved(past)
    case Removing(x) => TailRemoved(past) || (was != [] && was[|was| - 1] == x)
  }

  /** A channel is never added twice: creation is what adds it. */
  predicate AddedOnce<T(==)>(ops: seq<Op<T>>) {
    forall i, j :: 0 <= i < j < |ops| && ops[i].Adding? && ops[j].Adding? ==> ops[i].x != ops[j].x
  }

  /** No channel is added to a non-empty list whose tail was removed. */
  predicate Careful<T(==)>(ops: seq<Op<T>>) {
    forall i :: 0 <= i < |ops| && ops[i].Adding? ==>
      Intended(ops[..i]) == [] || !TailRemoved(ops[..i])
  }

  lemma {:induction false} IntendedFacts<T>(ops: seq<Op<T>>)
    requires AddedOnce(ops)
    ensures Distinct(Intended(ops))
    ensures forall x :: x in Intended(ops) ==> Adding(x) in ops
  {
    if ops != [] {
      var past := ops[..|ops| - 1];
      IntendedFacts(past);
      match ops[|ops| - 1]
      case Adding(x) =>
        assert Adding(x) !in past;
      case Removing(x) =>
        var was := Intended(past);
        WithoutFacts(was, x);
        forall y | y in Without(was, x)
          ensures Adding(y) in ops
        {
          WithoutMember(was, x, y);
        }
    }
  }

  /** The tail pointer is in place, or points to a channel no longer listed. */
  predicate TailIs<T(==)>(l: ChanList<T>, removed: bool) {
    l.chain != [] ==>
      if removed then l.tail.Some? && l.tail.value !in l.chain else l.TailInPlace()
  }

  lemma TailAfterRemove<T>(l: ChanList<T>, removed: bool, x: T)
    requires Distinct(l.chain) && TailIs(l, removed)
    ensures TailIs(l.Remove(x), removed || (l.chain != [] && l.chain[|l.chain| - 1] == x))
  {
    var s := l.chain;
    WithoutFacts(s, x);
    if x in s {
      var p :| 0 <= p < |s| && s[p] == x;
      WithoutAt(s, p);
    } else {
      WithoutAbsent(s, x);
    }
  }

  lemma {:induction false} CarefulRun<T>(ops: seq<Op<T>>)
    requires AddedOnce(ops) && Careful(ops)
    ensures Exec(ops).chain == Intended(ops)
    ensures TailIs(Exec(ops), TailRemoved(ops))
  {
    if ops != [] {
      var n := |ops| - 1;
      var past := ops[..n];
      CarefulPrefix(ops, n);
      CarefulRun(past);
      IntendedFacts(past);
      match ops[n]
      case Adding(x) =>
      case Removing(x) =>
        TailAfterRemove(Exec(past), TailRemoved(past), x);
    }
  }

  /** The list holds the added channels minus the removed ones at every point
      of a run exactly when no channel is added to a non-empty list whose tail
      was removed. */
  lemma ListIntegrityIff<T>(ops: seq<Op<T>>)
    requires AddedOnce(ops)
    ensures (forall i :: 0 <= i <= |ops| ==> Exec(ops[..i]).chain == Intended(ops[..i])) <==> Careful(ops)
  {
    if Careful(ops) {
      forall i | 0 <= i <= |ops|
        ensures Exec(ops[..i]).chain == Intended(ops[..i])
      {
        CarefulPrefix(ops, i);
        CarefulRun(ops[..i]);
      }
    } else {
      var i := FirstCareless(ops);
      CarefulRun(ops[..i]);
      assert ops[..i + 1][..i] == ops[..i];
      assert Exec(ops[..i + 1]).chain == Exec(ops[..i]).chain;
      assert Intended(ops[..i + 1]) == Intended(ops[..i]) + [ops[i].x];
      assert Exec(ops[..i + 1]).chain != Intended(ops[..i + 1]);
    }
  }

  lemma CarefulPrefix<T>(ops: seq<Op<T>>, i: nat)
    requires Careful(ops) && i <= |ops|
    ensures Careful(ops[..i])
  {
    forall k | 0 <= k < i && ops[..i][k].Adding?
      ensures Intended(ops[..i][..k]) == [] || !TailRemoved(ops[..i][..k])
    {
      assert ops[..i][..k] == ops[..k];
    }
  }

  lemma {:induction false} FirstCareless<T>(ops: seq<Op<T>>) returns (i: nat)
    requires !Careful(ops)
    ensures i < |ops| && ops[i].Adding? && Intended(ops[..i]) != [] && TailRemoved(ops[..i])
    ensures Careful(ops[..i])
    decreases |ops|
  {
    i :| 0 <= i < |ops| && ops[i].Adding? && Intended(ops[..i]) != [] && TailRemoved(ops[..i]);
    if !Careful(ops[..i]) {
      var j := FirstCareless(ops[..i]);
      assert ops[..i][..j] == ops[..j];
      i := j;
    }
  }

  /** The loss is real: of three channels added, the third is not listed once
      the second was removed before it. */
  lemma LostChannelExample()
    ensures Exec([Adding(1), Adding(2), Removing(2), Adding(3)]).chain == [1]
  {
    var ops := [Adding(1), Adding(2), Removing(2), Adding(3)];
    assert ops[..3][..2][..1] == [Adding(1)] && ops[..3][..2] == [Adding(1), Adding(2)];
    assert ops[..3] == [Adding(1), Adding(2), Removing(2)];
    assert Exec(ops[..3][..2][..1]) == ChanList([1], Some(1));
    assert Exec(ops[..3][..2]) == ChanList([1, 2], Some(2));
    assert Without([1, 2], 2) == [1];
    assert Exec(ops[..3]) == ChanList([1], Some(2));
  }

  // ---------------------------------------------------------------------
  // The linked list

  /** The part of `struct channel` the signalling code works on.  `id` numbers
      channels in the order they are made; `attached` is a non-NULL handler
      pointer, `prio` the priority of the Tx socket. */
  class Channel {
    const id: nat
    const isTx: bool
    const sid: nat
    const sc: StreamClass
    const prio: int
    var attached: bool
    var ready: bool
    var stopping: bool
    var next: Channel?

    constructor (id: nat, isTx: bool, sid: nat, sc: StreamClass, prio: int)
      ensures this.id == id && this.isTx == isTx && this.sid == sid && this.sc == sc && this.prio == prio
      ensures attached && !ready && !stopping && next == null
    {
      this.id, this.isTx, this.sid, this.sc, this.prio := id, isTx, sid, sc, prio;
      attached, ready, stopping, next := true, false, false, null;
    }
  }

  class LinkedChannels {
    var head: Channel?
    var tail: Channel?
    ghost var chain: seq<Channel>

    ghost predicate Valid()
      reads this, chain`next
    {
      && Distinct(chain)
      && (head == null <==> chain == [])
      && (chain != [] ==> head == chain[0] && chain[|chain| - 1].next == null && tail != null)
      && (forall i :: 0 <= i < |chain| - 1 ==> chain[i].next == chain[i + 1])
      && (tail != null && tail in chain ==> tail == chain[|chain| - 1])
    }

    ghost function View(): ChanList<Channel>
      reads this
    {
      if tail == null then ChanList(chain, None)
      else
        var last: Channel := tail;
        ChanList(chain, Some(last))
    }

    constructor ()
      ensures Valid() && View() == EmptyList()
    {
      head, tail := null, null;
      chain := [];
    }

    /** `nh_add_tx` and `nh_add_rx` for a channel that is in no list. */
    method Add(ch: Channel)
      requires Valid() && ch.next == null && ch !in chain
      modifies this, (if tail == null then {} else {tail})`next
      ensures Valid() && View() == old(View()).Add(ch)
    {
      if head == null {
        head := ch;
        tail := ch;
        chain := [ch];
      } else {
        if tail == chain[|chain| - 1] {
          chain := chain + [ch];
        }
        tail.next := ch;
        tail := ch;
      }
    }

    /** `nh_remove_tx` and `nh_remove_rx`: -1 exactly when the channel is not
        reached from the head. */
    method Remove(ch: Channel) returns (rc: int)
      requires Valid()
      modifies this, ch`next, chain`next
      ensures Valid() && View() == old(View()).Remove(ch)
      ensures rc == if ch in old(chain) then 0 else -1
      ensures ch in old(chain) ==> ch.next == null
      ensures ch !in old(chain) ==> ch.next == old(ch.next)
    {
      ghost var p;
      if head == ch {
        p := 0;
        DropHead();
      } else {
        var found;
        found, p := Unlink(ch);
        if !found {
          WithoutAbsent(chain, ch);
          return -1;
        }
      }
      WithoutAt(old(chain), p);
      Clear(ch);
      return 0;
    }

    method Clear(ch: Channel)
      requires Valid() && ch !in chain
      modifies ch`next
      ensures Valid() && ch.next == null
    {
      ch.next := null;
    }

    method DropHead()
      requires Valid() && head != null
      modifies this
      ensures Valid() && tail == old(tail) && chain == old(chain)[..0] + old(chain)[0 + 1..]
    {
      assert |chain| > 1 ==> chain[0].next == chain[0 + 1];
      head := head.next;
      chain := chain[1..];
    }

    /** `_nh_unlink_ch`: bypasses a channel that is not the head; `p` is where
        it was. */
    method Unlink(ch: Channel) returns (found: bool, ghost p: nat)
      requires Valid() && head != ch
      modifies this, chain`next
      ensures Valid() && head == old(head) && tail == old(tail) && ch.next == old(ch.next)
      ensures found ==> p < |old(chain)| && old(chain)[p] == ch && chain == old(chain)[..p] + old(chain)[p + 1..]
      ensures !found ==> ch !in chain && chain == old(chain)
    {
      var cur := head;
      p := 0;
      while cur != null
        invariant Valid() && chain == old(chain) && unchanged(chain) && unchanged(this)
        invariant p <= |chain|
        invariant cur == if p < |chain| then chain[p] else null
        invariant ch !in chain[..p] && (p < |chain| ==> chain[p] != ch)
        decreases |chain| - p
      {
        p := p + 1;
        if cur.next == ch {
          Bypass(cur, ch, p);
          return true, p;
        }
        cur := cur.next;
      }
      return false, p;
    }

    /** The pointer update of `_nh_unlink_ch`. */
    method Bypass(prev: Channel, ch: Channel, ghost p: nat)
      requires Valid() && 1 <= p < |chain| && chain[p] == ch && chain[p - 1] == prev
      modifies prev`next, this`chain
      ensures Valid() && chain == old(chain)[..p] + old(chain)[p + 1..]
      ensures ch.next == old(ch.next)
    {
      assert forall i :: 0 <= i < |chain| && chain[i] == prev ==> i == p - 1;
      prev.next := ch.next;
      chain := chain[..p] + chain[p + 1..];
    }

    /** `_nh_get_len`. */
    method Length() returns (len: nat)
      requires Valid()
      ensures len == |chain|
    {
      var cur := head;
      len := 0;
      while cur != null
        invariant len <= |chain|
        invariant cur == if len < |chain| then chain[len] else null
        decreases |chain| - len
      {
        cur := cur.next;
        len := len + 1;
      }
    }

    /** `get_tx_chan_from_sid`: the first listed channel of the stream. */
    method Find(sid: nat) returns (ch: Channel?)
      requires Valid()
      ensures ch == null <==> forall i :: 0 <= i < |chain| ==> chain[i].sid != sid
      ensures ch != null ==> exists i :: 0 <= i < |chain| && chain[i] == ch && ch.sid == sid &&
                               forall j :: 0 <= j < i ==> chain[j].sid != sid
    {
      ch := head;
      ghost var i := 0;
      while ch != null
        invariant i <= |chain|
        invariant ch == if i < |chain| then chain[i] else null
        invariant forall j :: 0 <= j < i ==> chain[j].sid != sid
        decreases |chain| - i
      {
        if ch.sid == sid {
          return;
        }
        ch := ch.next;
        i := i + 1;
      }
    }
  }
}
