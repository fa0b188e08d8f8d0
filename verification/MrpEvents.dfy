/** From the text of the MRP daemon to the state of the handler: what the
    messages read in `MrpLines` and `MrpListener` make of a run of `Lifecycle`. */
module MrpEvents {
  import opened MachineInts
  import opened Lifecycle
  import opened StopSafety
  import MrpText
  import MrpLines
  import MrpListener

  // ---------------------------------------------------------------------
  // The talker side

  /** The notification functions an action calls; a stream ID is its eight bytes
      in host order. */
  function HandlerEvents(acts: seq<MrpLines.Action>): seq<Event> {
    if acts == [] then []
    else
      (match acts[0]
       case NotifyNew(sid) => [ListenerNew(FromLE(sid))]
       case NotifyLeaving(sid) => [ListenerLeaving(FromLE(sid))]
       case Domain(_) => []) + HandlerEvents(acts[1..])
  }

  /** The line tells of a listener for the stream. */
  predicate Tells(l: MrpLines.Line, sid: nat) {
    l.ListenerLine? && l.substate != 0 && l.substate != 1 && FromLE(l.sid) == sid
  }

  /** The listeners the lines tell of, in order. */
  function Arrivals(lines: seq<MrpLines.Line>): seq<Event> {
    if lines == [] then []
    else
      var l := lines[0];
      (if l.ListenerLine? && Tells(l, FromLE(l.sid)) then [ListenerNew(FromLE(l.sid))] else []) + Arrivals(lines[1..])
  }

  lemma {:induction false} EventsConcat(a: seq<MrpLines.Action>, b: seq<MrpLines.Action>)
    ensures HandlerEvents(a + b) == HandlerEvents(a) + HandlerEvents(b)
  {
    if a == [] {
      assert a + b == b;
    } else {
      assert (a + b)[1..] == a[1..] + b;
      EventsConcat(a[1..], b);
    }
  }

  lemma {:induction false} EventsOfLines(lines: seq<MrpLines.Line>)
    ensures HandlerEvents(MrpLines.AllActions(lines)) == Arrivals(lines)
  {
    if lines != [] {
      EventsOfLines(lines[1..]);
      EventsConcat(MrpLines.ActionsOf(lines[0]), MrpLines.AllActions(lines[1..]));
    }
  }

  /** A handler after further events. */
  function Steps(h: Net, es: seq<Event>): Net
    decreases |es|
  {
    if es == [] then h else Steps(Step(h, es[0]), es[1..])
  }

  lemma {:induction false} RunSteps(srp: bool, n: nat, past: seq<Event>, es: seq<Event>)
    ensures Run(srp, n, past + es) == Steps(Run(srp, n, past), es)
    decreases |es|
  {
    if es == [] {
      assert past + es == past;
    } else {
      assert past + es == (past + [es[0]]) + es[1..];
      assert (past + [es[0]])[..|past|] == past;
      RunSteps(srp, n, past + [es[0]], es[1..]);
    }
  }

  lemma {:induction false} SameFind(h: Net, t: Net, chain: seq<nat>, sid: nat)
    requires SameExceptFlags(h, t)
    ensures Find(t.chans, chain, sid) == Find(h.chans, chain, sid)
  {
    if chain != [] {
      SameFind(h, t, chain[1..], sid);
    }
  }

  /** Some line tells of a listener for a stream whose first listed talker is
      this channel. */
  ghost predicate Heard(h: Net, lines: seq<MrpLines.Line>, ch: nat) {
    exists i, sid :: 0 <= i < |lines| && Tells(lines[i], sid) && FindTx(h, sid) == Some(ch)
  }

  lemma HeardStep(h: Net, t: Net, lines: seq<MrpLines.Line>, ch: nat)
    requires lines != [] && SameExceptFlags(h, t)
    ensures Heard(h, lines, ch) <==>
            (lines[0].ListenerLine? && Tells(lines[0], FromLE(lines[0].sid)) &&
             FindTx(h, FromLE(lines[0].sid)) == Some(ch)) || Heard(t, lines[1..], ch)
  {
    forall sid
      ensures FindTx(t, sid) == FindTx(h, sid)
    {
      SameFind(h, t, h.tx.chain, sid);
    }
    if i, sid :| 0 <= i < |lines| && Tells(lines[i], sid) && FindTx(h, sid) == Some(ch) {
      if i > 0 {
        assert Tells(lines[1..][i - 1], sid);
      }
    }
    if i, sid :| 0 <= i < |lines[1..]| && Tells(lines[1..][i], sid) && FindTx(t, sid) == Some(ch) {
      assert Tells(lines[i + 1], sid);
    }
  }

  lemma StepsAppend(h: Net, first: seq<Event>, rest: seq<Event>)
    requires |first| <= 1
    ensures Steps(h, first + rest) == if first == [] then Steps(h, rest) else Steps(Step(h, first[0]), rest)
  {
    hide Step;
    if first == [] {
      assert first + rest == rest;
    } else {
      assert (first + rest)[1..] == rest;
    }
  }

  lemma {:induction false} LinesMean(h: Net, lines: seq<MrpLines.Line>, ch: nat)
    requires ch in h.chans
    ensures var t := Steps(h, Arrivals(lines));
            && SameExceptFlags(h, t) && t.trace == h.trace
            && t.chans[ch].stopping == h.chans[ch].stopping
            && (t.chans[ch].ready <==> h.chans[ch].ready || Heard(h, lines, ch))
    decreases |lines|
  {
    if lines != [] {
      var l := lines[0];
      var tells := l.ListenerLine? && Tells(l, FromLE(l.sid));
      var t := if tells then Step(h, ListenerNew(FromLE(l.sid))) else h;
      StepsAppend(h, if tells then [ListenerNew(FromLE(l.sid))] else [], Arrivals(lines[1..]));
      assert Steps(h, Arrivals(lines)) == Steps(t, Arrivals(lines[1..]));
      hide Steps, Arrivals, Tells, Heard;
      HearListenerFlags(h, if tells then FromLE(l.sid) else 0, true);
      HeardStep(h, t, lines, ch);
      LinesMean(t, lines[1..], ch);
      FlagsTrans(h, t, Steps(t, Arrivals(lines[1..])));
    }
  }

  /** A buffer of well-formed lines, read at any point of a run, drives the
      handler as the listeners its lines tell of, one after the other: a channel
      is ready afterwards exactly when it was, or a line tells of a listener for
      a stream whose first listed talker it is; nothing else changes and nothing
      is sent. */
  lemma BufferDrives(srp: bool, n: nat, past: seq<Event>, buf: string, lines: seq<MrpLines.Line>, ch: nat)
    requires MrpLines.Holds(buf, 0, lines) && ch in Run(srp, n, past).chans
    ensures MrpLines.Process(buf, 0).Done?
    ensures var es := HandlerEvents(MrpLines.Process(buf, 0).acts);
            var h, t := Run(srp, n, past), Run(srp, n, past + es);
            && es == Arrivals(lines) && SameExceptFlags(h, t) && t.trace == h.trace
            && t.chans[ch].stopping == h.chans[ch].stopping
            && (t.chans[ch].ready <==> h.chans[ch].ready || Heard(h, lines, ch))
  {
    MrpLines.ProcessIsFold(buf, 0, lines);
    EventsOfLines(lines);
    hide Arrivals, Steps, Run, HandlerEvents;
    RunSteps(srp, n, past, Arrivals(lines));
    LinesMean(Run(srp, n, past), lines, ch);
  }

  /** So whether a stopped talker may send again can be read off the text. */
  lemma StoppedSendsByText(srp: bool, n: nat, past: seq<Event>, buf: string, lines: seq<MrpLines.Line>, ch: nat)
    requires MrpLines.Holds(buf, 0, lines) && ch in Run(srp, n, past).chans
    requires var c := Run(srp, n, past).chans[ch]; c.tx && c.attached && c.stopping && !c.ready && c.sid != 0
    ensures MrpLines.Process(buf, 0).Done?
    ensures SendAdmitted(Run(srp, n, past + HandlerEvents(MrpLines.Process(buf, 0).acts)), ch) <==>
            Heard(Run(srp, n, past), lines, ch)
  {
    BufferDrives(srp, n, past, buf, lines, ch);
  }

  /** An event about a listener: a leave takes `ready` from the first listed talker
      of its stream, a join or new event of a substate that counts gives it, any
      other does nothing; nothing is sent and no other channel changes. */
  lemma EventDrives(h: Net, buf: string, kind: char, x: char, y: char, l: MrpLines.Line)
    requires l.ListenerLine? && MrpLines.LineOk(l) && MrpText.Stands(buf, 0, MrpLines.EventText(kind, x, y, l))
    ensures MrpLines.Process(buf, 0).Done?
    ensures var sid := FromLE(l.sid);
            var t := Steps(h, HandlerEvents(MrpLines.Process(buf, 0).acts));
            var comes := (kind == 'J' || kind == 'N') && Tells(l, sid);
            if kind == 'L' || comes then FlagSet(h, t, FindTx(h, sid), comes) else t == h
  {
    MrpLines.EventMeans(buf, 0, kind, x, y, l);
    hide MrpLines.Process, MrpLines.EventText, MrpLines.LineOk, FlagSet, Steps;
    var sid := FromLE(l.sid);
    OneAction(sid, l.sid);
    StepsNone(h);
    ListenerSteps(h, sid, true);
    ListenerSteps(h, sid, false);
  }

  /** Only the channel found, if any, has its flag set to the value. */
  predicate FlagSet(h: Net, t: Net, found: Option<nat>, ready: bool) {
    match found
    case None => t == h
    case Some(ch) => ch in h.chans && t == h.(chans := h.chans[ch := h.chans[ch].(ready := ready)])
  }

  lemma OneAction(sid: nat, bytes: seq<byte>)
    requires sid == FromLE(bytes)
    ensures HandlerEvents([MrpLines.NotifyNew(bytes)]) == [ListenerNew(sid)]
    ensures HandlerEvents([MrpLines.NotifyLeaving(bytes)]) == [ListenerLeaving(sid)]
    ensures HandlerEvents([]) == []
  {
  }

  lemma StepsNone(h: Net)
    ensures Steps(h, []) == h
  {
  }

  lemma ListenerSteps(h: Net, sid: nat, isNew: bool)
    ensures FlagSet(h, Steps(h, [if isNew then ListenerNew(sid) else ListenerLeaving(sid)]), FindTx(h, sid), isNew)
  {
    var e := if isNew then ListenerNew(sid) else ListenerLeaving(sid);
    StepsAppend(h, [e], []);
    assert [e] + [] == [e];
  }

  // ---------------------------------------------------------------------
  // The listener side

  /** The notification functions called, with whether their own declaration could
      be handed over. */
  function ListenerEvents(acts: seq<MrpListener.Action>, ok: bool): seq<Event> {
    if acts == [] then []
    else
      (match acts[0]
       case NotifyTnew(sid, _) => [TalkerNew(sid, ok)]
       case NotifyTleave(sid, _) => [TalkerLeave(sid, ok)]
       case Domain(_) => []) + ListenerEvents(acts[1..], ok)
  }

  /** A talker's declaration arriving as text makes the handler declare its own
      listener for that stream and follow suit when that worked; without a
      listener nothing happens. */
  lemma DeclarationDrives(h: Net, k: MrpListener.Kind, sid: nat, dst: seq<byte>, upper: bool, tail: string,
                          buf: string, ok: bool)
    requires sid < TWO64 && |dst| == 6
    requires buf == (match k case New => "SNE T:" case Join => "SJO T:" case Leave => "SLE T:")
                    + MrpListener.Declaration(ToLE(sid, 8), dst, upper) + tail
    ensures MrpListener.Process(buf).Done?
    ensures var t := Steps(h, ListenerEvents(MrpListener.Process(buf).acts, ok));
            var isNew := k != MrpListener.Leave;
            match FindRx(h, sid)
            case None => t == h
            case Some(ch) =>
              && ch in t.chans && (ok ==> t.chans[ch].ready == isNew)
              && t.trace == h.trace + [Sent(if isNew then ListenerReady else ListenerLeave, ch, sid, ok)]
  {
    hide MrpListener.Process, MrpListener.Declaration, ToLE, FindRx, Steps, HearTalker;
    hide ListenerEvents;
    DeclarationEvents(k, sid, dst, upper, tail, buf, ok);
    TalkerSteps(h, sid, k != MrpListener.Leave, ok);
    TalkerMeans(h, sid, k != MrpListener.Leave, ok);
  }

  lemma TalkerSteps(h: Net, sid: nat, isNew: bool, ok: bool)
    ensures Steps(h, [if isNew then TalkerNew(sid, ok) else TalkerLeave(sid, ok)]) == HearTalker(h, sid, isNew, ok)
  {
    hide HearTalker;
    var e := if isNew then TalkerNew(sid, ok) else TalkerLeave(sid, ok);
    StepsAppend(h, [e], []);
    assert [e] + [] == [e];
  }

  lemma DeclarationEvents(k: MrpListener.Kind, sid: nat, dst: seq<byte>, upper: bool, tail: string, buf: string,
                          ok: bool)
    requires sid < TWO64 && |dst| == 6
    requires buf == (match k case New => "SNE T:" case Join => "SJO T:" case Leave => "SLE T:")
                    + MrpListener.Declaration(ToLE(sid, 8), dst, upper) + tail
    ensures MrpListener.Process(buf).Done?
    ensures ListenerEvents(MrpListener.Process(buf).acts, ok) ==
            [if k != MrpListener.Leave then TalkerNew(sid, ok) else TalkerLeave(sid, ok)]
  {
    MrpListener.DeclarationNotifies(k, sid, dst, upper, tail, buf);
    hide MrpListener.Process, MrpListener.Declaration;
  }

  lemma TalkerMeans(h: Net, sid: nat, isNew: bool, ok: bool)
    ensures var t := HearTalker(h, sid, isNew, ok);
            match FindRx(h, sid)
            case None => t == h
            case Some(ch) =>
              && ch in t.chans && (ok ==> t.chans[ch].ready == isNew)
              && t.trace == h.trace + [Sent(if isNew then ListenerReady else ListenerLeave, ch, sid, ok)]
  {
  }
}
