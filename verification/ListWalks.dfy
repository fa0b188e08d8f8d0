/** What the walks over the channel lists send: a pass of the announcer and the
    stop of all channels. */
module ListWalks {
  import opened MachineInts
  import opened ChannelList
  import opened CaptureTime
  import opened Lifecycle
  import HandlerLists

  /** The places, in order, where `marks` is set, from `k` on. */
  ghost predicate Marked(marks: seq<bool>, k: nat, places: seq<nat>) {
    && (forall i, j :: 0 <= i < j < |places| ==> places[i] < places[j])
    && (forall i :: 0 <= i < |places| ==> k <= places[i] < |marks|)
    && (forall p :: k <= p < |marks| ==> (p in places <==> marks[p]))
  }

  lemma MarkedMore(marks: seq<bool>, k: nat, rest: seq<nat>)
    requires k < |marks| && Marked(marks, k + 1, rest)
    ensures Marked(marks, k, (if marks[k] then [k] else []) + rest)
  {
    if marks[k] {
      assert ([k] + rest)[1..] == rest;
    } else {
      assert [] + rest == rest;
    }
  }

  /** From trace `a` to trace `b` the words at the given places were added, in
      order, and nothing else. */
  ghost predicate Added(a: seq<Sent>, b: seq<Sent>, words: seq<Sent>, places: seq<nat>) {
    && a <= b && |b| == |a| + |places|
    && (forall i :: 0 <= i < |places| ==> places[i] < |words| && b[|a| + i] == words[places[i]])
  }

  lemma AddedMore(a: seq<Sent>, b: seq<Sent>, words: seq<Sent>, k: nat, rest: seq<nat>)
    requires k < |words| && Added(a + [words[k]], b, words, rest)
    ensures Added(a, b, words, [k] + rest)
  {
    var c := a + [words[k]];
    var places := [k] + rest;
    assert b[|a|] == c[|a|];
    forall i | 0 <= i < |places|
      ensures places[i] < |words| && b[|a| + i] == words[places[i]]
    {
      if i > 0 {
        assert places[i] == rest[i - 1] && b[|c| + (i - 1)] == b[|a| + i];
      }
    }
  }

  // ---------------------------------------------------------------------
  // The announcer

  /** Which channels of a chain are neither ready nor stopping. */
  function Idle(chans: map<nat, Chan>, chain: seq<nat>): (idle: seq<bool>)
    ensures |idle| == |chain|
  {
    seq(|chain|, p requires 0 <= p < |chain| =>
      chain[p] in chans && !chans[chain[p]].ready && !chans[chain[p]].stopping)
  }

  function Adverts(chans: map<nat, Chan>, chain: seq<nat>, fails: set<nat>): (words: seq<Sent>)
    ensures |words| == |chain|
  {
    seq(|chain|, p requires 0 <= p < |chain| =>
      Sent(Advertise, chain[p], if chain[p] in chans then chans[chain[p]].sid else 0, chain[p] !in fails))
  }

  lemma {:induction false} AnnounceListMeans(h: Net, chain: seq<nat>, k: nat, fails: set<nat>)
    returns (places: seq<nat>)
    requires k <= |chain| && forall ch :: ch in chain ==> ch in h.chans && h.chans[ch].attached
    ensures Marked(Idle(h.chans, chain), k, places)
    ensures var t := AnnounceList(h, chain[k..], fails);
            t == h.(trace := t.trace) && Added(h.trace, t.trace, Adverts(h.chans, chain, fails), places)
    decreases |chain| - k
  {
    hide Marked, Added;
    if k == |chain| {
      places := [];
      NothingMore(Idle(h.chans, chain), h.trace, Adverts(h.chans, chain, fails));
    } else {
      var ch := chain[k];
      var idle := Idle(h.chans, chain);
      assert idle[k] == (!h.chans[ch].ready && !h.chans[ch].stopping);
      var s := if idle[k] then Announce(h, ch, ch !in fails) else h;
      assert chain[k..][1..] == chain[k + 1..];
      var rest := AnnounceListMeans(s, chain, k + 1, fails);
      places := (if idle[k] then [k] else []) + rest;
      MarkedMore(idle, k, rest);
      if idle[k] {
        AddedMore(h.trace, AnnounceList(s, chain[k + 1..], fails).trace, Adverts(h.chans, chain, fails), k, rest);
      } else {
        assert [] + rest == rest;
      }
    }
  }

  lemma NothingMore(marks: seq<bool>, trace: seq<Sent>, words: seq<Sent>)
    ensures Marked(marks, |marks|, []) && Added(trace, trace, words, [])
  {
  }

  /** The step from `h` to `t` sent exactly one advertisement for every listed
      talker that is neither ready nor stopping, in list order, with its own
      stream; nothing else was sent and nothing changed. */
  ghost predicate Announced(h: Net, t: Net, fails: set<nat>, places: seq<nat>) {
    && t == h.(trace := t.trace) && h.trace <= t.trace && |t.trace| == |h.trace| + |places|
    && (forall i, j :: 0 <= i < j < |places| ==> places[i] < places[j])
    && (forall p :: 0 <= p < |h.tx.chain| ==>
          h.tx.chain[p] in h.chans &&
          (p in places <==> !h.chans[h.tx.chain[p]].ready && !h.chans[h.tx.chain[p]].stopping))
    && (forall i :: 0 <= i < |places| ==>
          && places[i] < |h.tx.chain| && h.tx.chain[places[i]] in h.chans
          && var ch := h.tx.chain[places[i]];
             t.trace[|h.trace| + i] == Sent(Advertise, ch, h.chans[ch].sid, ch !in fails))
  }

  lemma AnnouncePassMeans(h: Net, fails: set<nat>) returns (places: seq<nat>)
    requires WF(h) && h.srp
    ensures Announced(h, Step(h, AnnouncePass(fails)), fails, places)
  {
    assert h.tx.chain[0..] == h.tx.chain;
    places := AnnounceListMeans(h, h.tx.chain, 0, fails);
    AnnouncedUnfolds(h, Step(h, AnnouncePass(fails)), fails, places);
  }

  lemma AnnouncedUnfolds(h: Net, t: Net, fails: set<nat>, places: seq<nat>)
    requires forall ch :: ch in h.tx.chain ==> ch in h.chans
    requires Marked(Idle(h.chans, h.tx.chain), 0, places) && t == h.(trace := t.trace)
    requires Added(h.trace, t.trace, Adverts(h.chans, h.tx.chain, fails), places)
    ensures Announced(h, t, fails, places)
  {
    var idle := Idle(h.chans, h.tx.chain);
    forall p | 0 <= p < |h.tx.chain|
      ensures h.tx.chain[p] in h.chans
      ensures p in places <==> !h.chans[h.tx.chain[p]].ready && !h.chans[h.tx.chain[p]].stopping
    {
      assert idle[p] == (!h.chans[h.tx.chain[p]].ready && !h.chans[h.tx.chain[p]].stopping);
    }
  }

  // ---------------------------------------------------------------------
  // nh_stop

  /** Which channels of a chain are not stopping yet. */
  function Unstopped(chans: map<nat, Chan>, chain: seq<nat>): (marks: seq<bool>)
    ensures |marks| == |chain|
  {
    seq(|chain|, p requires 0 <= p < |chain| => chain[p] in chans && !chans[chain[p]].stopping)
  }

  /** What the channels of one list say when they are stopped. */
  function Farewells(chans: map<nat, Chan>, chain: seq<nat>, isTx: bool, fails: set<nat>): (words: seq<Sent>)
    ensures |words| == |chain|
  {
    seq(|chain|, p requires 0 <= p < |chain| =>
      Sent(if isTx then Unadvertise else ListenerLeave, chain[p],
           if chain[p] in chans then chans[chain[p]].sid else 0, chain[p] !in fails))
  }

  /** The stop of one channel leaves alone what the rest of the walk looks at. */
  lemma RestKept(h: Net, s: Net, chain: seq<nat>, k: nat, isTx: bool, fails: set<nat>, rest: seq<nat>)
    requires k < |chain| && Distinct(chain) && SameExceptFlags(h, s) && chain[k] in h.chans
    requires forall ch :: ch in h.chans && ch != chain[k] ==> s.chans[ch] == h.chans[ch]
    requires Marked(Unstopped(s.chans, chain), k + 1, rest)
    ensures Marked(Unstopped(h.chans, chain), k + 1, rest)
    ensures Farewells(s.chans, chain, isTx, fails) == Farewells(h.chans, chain, isTx, fails)
  {
    assert forall p :: k < p < |chain| ==> Unstopped(s.chans, chain)[p] == Unstopped(h.chans, chain)[p];
  }

  lemma StopOneTouches(h: Net, x: nat, ok: bool)
    ensures forall ch :: ch in h.chans && ch != x ==>
              ch in StopOne(h, x, ok).chans && StopOne(h, x, ok).chans[ch] == h.chans[ch]
  {
  }

  lemma {:induction false} StopListMeans(h: Net, chain: seq<nat>, k: nat, isTx: bool, fails: set<nat>)
    returns (places: seq<nat>)
    requires k <= |chain| && h.srp && Listed(h, chain, isTx)
    ensures Marked(Unstopped(h.chans, chain), k, places)
    ensures var t := StopList(h, chain[k..], fails);
            Added(h.trace, t.trace, Farewells(h.chans, chain, isTx, fails), places)
    decreases |chain| - k
  {
    hide Marked, Added;
    if k == |chain| {
      places := [];
      NothingMore(Unstopped(h.chans, chain), h.trace, Farewells(h.chans, chain, isTx, fails));
    } else {
      var ch := chain[k];
      var marks := Unstopped(h.chans, chain);
      var s := StopOne(h, ch, ch !in fails);
      assert chain[k] in chain && marks[k] == !h.chans[ch].stopping;
      HandlerLists.StopOneSays(h, ch, ch !in fails);
      StopOneTouches(h, ch, ch !in fails);
      hide StopOne;
      assert chain[k..][1..] == chain[k + 1..];
      StopOneFlags(h, ch, ch !in fails);
      var rest := StopListMeans(s, chain, k + 1, isTx, fails);
      places := (if marks[k] then [k] else []) + rest;
      RestKept(h, s, chain, k, isTx, fails, rest);
      MarkedMore(marks, k, rest);
      if marks[k] {
        assert s.trace == h.trace + [Farewells(h.chans, chain, isTx, fails)[k]];
        AddedMore(h.trace, StopList(s, chain[k + 1..], fails).trace, Farewells(h.chans, chain, isTx, fails), k, rest);
      } else {
        assert [] + rest == rest;
      }
    }
  }

  /** From trace `a` to `b` each channel of the chain that was not stopping said
      its farewell, in list order, with its own stream; nothing else was said. */
  ghost predicate Farewelled(chans: map<nat, Chan>, chain: seq<nat>, msg: Msg, fails: set<nat>,
                             a: seq<Sent>, b: seq<Sent>, places: seq<nat>) {
    && a <= b && |b| == |a| + |places|
    && (forall i, j :: 0 <= i < j < |places| ==> places[i] < places[j])
    && (forall p :: 0 <= p < |chain| ==> chain[p] in chans && (p in places <==> !chans[chain[p]].stopping))
    && (forall i :: 0 <= i < |places| ==>
          && places[i] < |chain| && chain[places[i]] in chans
          && var ch := chain[places[i]];
             b[|a| + i] == Sent(msg, ch, chans[ch].sid, ch !in fails))
  }

  lemma FarewellUnfolds(h: Net, chain: seq<nat>, isTx: bool, fails: set<nat>, a: seq<Sent>, b: seq<Sent>,
                        places: seq<nat>)
    requires Listed(h, chain, isTx)
    requires Marked(Unstopped(h.chans, chain), 0, places)
    requires Added(a, b, Farewells(h.chans, chain, isTx, fails), places)
    ensures Farewelled(h.chans, chain, if isTx then Unadvertise else ListenerLeave, fails, a, b, places)
  {
    var marks := Unstopped(h.chans, chain);
    forall p | 0 <= p < |chain|
      ensures chain[p] in h.chans && (p in places <==> !h.chans[chain[p]].stopping)
    {
      assert chain[p] in chain && marks[p] == !h.chans[chain[p]].stopping;
    }
  }

  /** The stop of all under SRP: each listed talker not stopping yet withdraws its
      stream, in list order, then each listed listener not stopping yet leaves,
      in list order; nothing else is sent. */
  lemma StopAllSays(h: Net, fails: set<nat>) returns (middle: seq<Sent>, talkers: seq<nat>, listeners: seq<nat>)
    requires WF(h) && h.srp
    ensures Farewelled(h.chans, h.tx.chain, Unadvertise, fails, h.trace, middle, talkers)
    ensures Farewelled(h.chans, h.rx.chain, ListenerLeave, fails, middle, StoppedAll(h, fails).trace, listeners)
  {
    hide Marked, Added, Farewelled, StopList, Unstopped, Farewells;
    assert h.tx.chain[0..] == h.tx.chain && h.rx.chain[0..] == h.rx.chain;
    var s := StopList(h, h.tx.chain, fails);
    middle := s.trace;
    talkers := StopListMeans(h, h.tx.chain, 0, true, fails);
    FarewellUnfolds(h, h.tx.chain, true, fails, h.trace, s.trace, talkers);
    StopListFlags(h, h.tx.chain, fails);
    FlagsKeepWF(h, s);
    listeners := StopListMeans(s, h.rx.chain, 0, false, fails);
    TalkersFirst(h, s, fails);
    SameWords(h.chans, s.chans, h.rx.chain, fails);
    FarewellUnfolds(h, h.rx.chain, false, fails, s.trace, StoppedAll(h, fails).trace, listeners);
  }

  lemma SameWords(a: map<nat, Chan>, b: map<nat, Chan>, chain: seq<nat>, fails: set<nat>)
    requires forall ch :: ch in chain ==> ch in a && ch in b && a[ch] == b[ch]
    ensures Unstopped(a, chain) == Unstopped(b, chain)
    ensures Farewells(a, chain, false, fails) == Farewells(b, chain, false, fails)
  {
    forall p | 0 <= p < |chain|
      ensures chain[p] in a && chain[p] in b && a[chain[p]] == b[chain[p]]
    {
      assert chain[p] in chain;
    }
  }

  /** Stopping the talkers does not touch the listeners. */
  lemma TalkersFirst(h: Net, s: Net, fails: set<nat>)
    requires WF(h) && s == StopList(h, h.tx.chain, fails)
    ensures forall ch :: ch in h.rx.chain ==> ch in s.chans && s.chans[ch] == h.chans[ch]
  {
    forall ch | ch in h.rx.chain
      ensures ch in s.chans && s.chans[ch] == h.chans[ch]
    {
      HandlerLists.StopListLeaves(h, h.tx.chain, fails, ch);
    }
  }
}
