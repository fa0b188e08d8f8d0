/** The listener side of the MRP daemon's messages (src/netchan_srp_helper.c,
    `nc_mrp_listener_process_msg`), and what of a talker's declaration reaches a
    listener's handler. */
module MrpListener {
  import opened MachineInts
  import opened MrpText
  import opened MrpStream
  import opened MrpDomain

  datatype Action =
    | NotifyTnew(sid: nat, dst: seq<byte>)
    | NotifyTleave(sid: nat, dst: seq<byte>)
    | Domain(t: Triple)

  /** Undefined when a conversion fails and an unset value is used. */
  datatype Outcome = Done(acts: seq<Action>) | Undefined

  /** A field as the caller sees it: the zeros it was initialised with when
      nothing was found. */
  function OrZeros(f: Field, count: nat): Option<seq<byte>> {
    if f.end == 0 then Some(seq(count, _ => 0)) else f.bytes
  }

  function StreamField(buf: string): Field {
    if |buf| < 2 then Field(0, None) else FindField(buf, 'S', 8)
  }

  predicate Announces(buf: string) {
    Stands(buf, 0, "SNE T:") || Stands(buf, 0, "SJO T:")
  }

  predicate Leaves(buf: string) {
    Stands(buf, 0, "SLE T:S")
  }

  /** Stream ID, destination and the position behind them, for a message about a
      talker. */
  function TalkerFields(buf: string): (r: Option<(nat, seq<byte>, nat)>) {
    var s := StreamField(buf);
    if s.end > |buf| then None
    else
      var d := FindField(buf[s.end..], 'A', 6);
      var sid, dst := OrZeros(s, 8), OrZeros(d, 6);
      if sid.Some? && dst.Some? then Some((FromLE(sid.value), dst.value, s.end + d.end)) else None
  }

  function DomainPart(buf: string, idx: nat): Outcome {
    if !Stands(buf, idx, "SJO D:") then Done([])
    else
      match FixedTriple(buf)
      case None => Undefined
      case Some(t) => Done([Domain(t)])
  }

  function Process(buf: string): Outcome {
    if Announces(buf) || Leaves(buf) then
      match TalkerFields(buf)
      case None => Undefined
      case Some((sid, dst, idx)) =>
        match DomainPart(buf, idx)
        case Undefined => Undefined
        case Done(more) =>
          Done([if Announces(buf) then NotifyTnew(sid, dst) else NotifyTleave(sid, dst)] + more)
    else DomainPart(buf, 0)
  }

  /** `nc_mrp_listener_process_msg`. */
  method ProcessListenerMsg(buf: string) returns (o: Outcome)
    ensures o == Process(buf)
  {
    hide FindField, DomainPart, Stands, FromLE;
    var idx := 0;
    var acts := [];
    if Announces(buf) || Leaves(buf) {
      var s := FindStreamId(buf);
      if s.end > |buf| {
        return Undefined;
      }
      var d := FindDst(buf[s.end..]);
      var sid, dst := OrZeros(s, 8), OrZeros(d, 6);
      if sid.None? || dst.None? {
        return Undefined;
      }
      idx := s.end + d.end;
      acts := [if Announces(buf) then NotifyTnew(FromLE(sid.value), dst.value)
               else NotifyTleave(FromLE(sid.value), dst.value)];
    }
    var domain := DomainPart(buf, idx);
    if domain.Undefined? {
      return Undefined;
    }
    o := Done(acts + domain.acts);
  }

  /** A daemon's message about a talker, in the three forms handled. */
  datatype Kind = New | Join | Leave

  function KindText(k: Kind): (t: string)
    ensures |t| == 6
  {
    match k
    case New => "SNE T:"
    case Join => "SJO T:"
    case Leave => "SLE T:"
  }

  function Declaration(sid: seq<byte>, dst: seq<byte>, upper: bool): string {
    "S=" + HexBytes(sid, upper) + ",A=" + HexBytes(dst, upper) + ","
  }

  lemma KindLayout(k: Kind, decl: string, tail: string, buf: string)
    requires buf == KindText(k) + decl + tail && |decl| >= 34 && decl[0] == 'S' && decl[1] == '='
    ensures Announces(buf) <==> k != Leave
    ensures Leaves(buf) <==> k == Leave
    ensures Stands(buf, 6, decl)
    ensures forall j :: 0 <= j < 6 ==> !(buf[j] == 'S' && At(buf, j + 1) == '=')
  {
    assert buf[0..6] == KindText(k);
    assert buf[6..6 + |decl|] == decl;
    assert buf[6] == 'S';
    forall j | 0 <= j < 6
      ensures buf[j] == KindText(k)[j]
    {
    }
    StandsSeven(buf, k);
  }

  lemma StandsSeven(buf: string, k: Kind)
    requires |buf| > 7 && buf[0..6] == KindText(k) && buf[6] == 'S'
    ensures Stands(buf, 0, "SNE T:") <==> k == New
    ensures Stands(buf, 0, "SJO T:") <==> k == Join
    ensures Stands(buf, 0, "SLE T:S") <==> k == Leave
  {
    assert forall j :: 0 <= j < 6 ==> buf[j] == buf[0..6][j];
    if k == Leave {
      assert buf[0..7] == "SLE T:S";
    } else {
      StandsNot(buf, 0, "SLE T:S", 1);
    }
  }

  /** A talker's declaration arriving as a new, joined or left talker makes the
      listener's handler notify exactly that stream and destination, once,
      whatever follows the destination. */
  lemma DeclarationNotifies(k: Kind, streamId: nat, dst: seq<byte>, upper: bool, tail: string, buf: string)
    requires streamId < TWO64 && |dst| == 6
    requires buf == (match k case New => "SNE T:" case Join => "SJO T:" case Leave => "SLE T:")
                    + Declaration(ToLE(streamId, 8), dst, upper) + tail
    ensures Process(buf) ==
            Done([if k == Leave then NotifyTleave(streamId, dst) else NotifyTnew(streamId, dst)])
  {
    hide HexBytes, ToLE, FromLE, FindField, FixedTriple;
    var sid := ToLE(streamId, 8);
    var decl := Declaration(sid, dst, upper);
    KindLayout(k, decl, tail, buf);
    DeclarationRoundTrip(buf, 6, sid, dst, upper);
    Pow256Values();
    LERoundTrip(streamId, 8);
    Layout(buf, 6, HexBytes(sid, upper), HexBytes(dst, upper));
    StandsAt(buf, 39, ",", 0);
    StandsNot(buf, 39, "SJO D:", 0);
  }

  /** A domain join with one-digit class and priority updates the handler with
      exactly its triple. */
  lemma JoinUpdates(t: Triple, upper: bool)
    requires t.Fits() && SingleDigit(t.id) && SingleDigit(t.prio)
    ensures Process(JoinText(t, upper)) == Done([Domain(t)])
  {
    hide JoinText, FixedTriple;
    FixedOnSingleDigits(t, upper);
    var buf := JoinText(t, upper);
    StandsAt(buf, 0, "SJO D:", 1);
    StandsAt(buf, 0, "SJO D:", 4);
    StandsNot(buf, 0, "SNE T:", 1);
    StandsNot(buf, 0, "SJO T:", 4);
    StandsNot(buf, 0, "SLE T:S", 1);
  }

  lemma {:induction false} SeekNothing(buf: string, c: char, i: nat)
    requires c !in buf && i <= |buf|
    ensures Seek(buf, c, i) == |buf|
    decreases |buf| - i
  {
    if i < |buf| {
      SeekNothing(buf, c, i + 1);
    }
  }

  lemma NothingFound(buf: string, tag: char, count: nat)
    requires ',' !in buf
    ensures FindField(buf, tag, count) == Field(0, None)
  {
    if |buf| > 0 {
      SeekNothing(buf, ',', SeekTag(buf, tag, 0));
    }
  }

  lemma ZeroId()
    ensures FromLE([0, 0, 0, 0, 0, 0, 0, 0]) == 0
  {
    var z := [0, 0, 0, 0, 0, 0, 0, 0];
    LERoundTrip(0, 8);
    assert ToLE(0, 8) == z by {
      forall i | 0 <= i < 8
        ensures ToLE(0, 8)[i] == 0
      {
        LEByte(0, 8, i);
      }
    }
  }

  /** A talker's message without any comma has no fields: stream and destination
      notified are the zeros they start from. */
  lemma NoFields(buf: string)
    requires ',' !in buf && (Stands(buf, 0, "SNE T:") || Stands(buf, 0, "SJO T:") || Stands(buf, 0, "SLE T:S"))
    ensures var zeros := [0, 0, 0, 0, 0, 0];
            Process(buf) == Done([if Stands(buf, 0, "SLE T:S") then NotifyTleave(0, zeros) else NotifyTnew(0, zeros)])
  {
    NoTalkerFields(buf);
    hide TalkerFields;
    if Stands(buf, 0, "SLE T:S") {
      StandsAt(buf, 0, "SLE T:S", 1);
      StandsNot(buf, 0, "SNE T:", 1);
      StandsNot(buf, 0, "SJO T:", 1);
      StandsNot(buf, 0, "SJO D:", 1);
    } else if Stands(buf, 0, "SNE T:") {
      StandsAt(buf, 0, "SNE T:", 1);
      StandsNot(buf, 0, "SJO D:", 1);
    } else {
      StandsAt(buf, 0, "SJO T:", 4);
      StandsNot(buf, 0, "SJO D:", 4);
    }
  }

  lemma NoTalkerFields(buf: string)
    requires ',' !in buf && |buf| >= 2
    ensures TalkerFields(buf) == Some((0, [0, 0, 0, 0, 0, 0], 0))
  {
    hide FindField, FromLE;
    NothingFound(buf, 'S', 8);
    NothingFound(buf, 'A', 6);
    assert buf[0..] == buf;
    ZeroId();
    assert seq(8, _ => 0) == [0, 0, 0, 0, 0, 0, 0, 0];
    assert seq(6, _ => 0) == [0, 0, 0, 0, 0, 0];
  }
}
