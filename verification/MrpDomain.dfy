/** SRP domains: printing and reading the class, priority and VLAN triple, and
    keeping it (src/netchan_srp_helper.c, `_mrp_update_domain`, the 'D' case of
    `nc_mrp_talker_process_msg`, the "SJO D:" case of
    `nc_mrp_listener_process_msg`, `_update_srp_fields`). */
module MrpDomain {
  import opened MachineInts
  import opened MrpText
  import opened MrpStream

  datatype Triple = Triple(id: int, prio: int, vid: int) {
    predicate Fits() {
      IsInt32(id) && IsInt32(prio) && IsInt32(vid)
    }
  }

  // ---------------------------------------------------------------------
  // Text

  /** A domain attribute from its 'D' on; the gap is the three characters the
      parser skips, the pads whatever stands between the values. */
  function DomainText(gap: string, t: Triple, pad1: string, pad2: string, upper: bool): string {
    ("D" + gap) + (Dec(t.id) + (pad1 + ("P=" + (Dec(t.prio) + (pad2 + ("V=" + Hex4(t.vid, upper)))))))
  }

  /** The scanning parser, on the attribute whose 'D' is at `k`; also where it
      ends up.  None when it runs off the text or a conversion fails. */
  function ScanDomain(buf: string, k: nat): (r: Option<(Triple, nat)>)
    ensures r.Some? ==> k < r.value.1 <= |buf|
  {
    var id := ScanDec(buf, k + 4);
    var p := if k + 4 <= |buf| then Seek(buf, 'P', k + 4) else |buf|;
    if p + 2 > |buf| then None
    else
      var prio := ScanDec(buf, p + 2);
      var v := Seek(buf, 'V', p + 2);
      if v + 2 > |buf| then None
      else
        var vid := ScanVid(buf, v + 2);
        if id.Some? && prio.Some? && vid.Some? then
          Some((Triple(id.value, prio.value, vid.value), v + 2))
        else None
  }

  /** Round trip: the scanning parser recovers a printed triple, negative values
      included, wherever it stands and whatever the pads are. */
  lemma DomainRoundTrip(buf: string, k: nat, gap: string, t: Triple, pad1: string, pad2: string, upper: bool)
    requires |gap| == 3 && PadOk(pad1, 'P') && PadOk(pad2, 'V') && t.Fits()
    requires Stands(buf, k, DomainText(gap, t, pad1, pad2, upper))
    requires !IsDigit(At(buf, k + |DomainText(gap, t, pad1, pad2, upper)|), 16)
    ensures ScanDomain(buf, k) ==
            Some((t, k + |DomainText(gap, t, pad1, pad2, upper)| - |Hex4(t.vid, upper)|))
  {
    hide Dec, Hex4, ScanDomain;
    var p, v := DomainLayout(buf, k, gap, Dec(t.id), pad1, Dec(t.prio), pad2, Hex4(t.vid, upper));
    DomainReads(buf, k, t, pad1, pad2, upper, p, v);
  }

  lemma DomainReads(buf: string, k: nat, t: Triple, pad1: string, pad2: string, upper: bool, p: nat, v: nat)
    requires PadOk(pad1, 'P') && PadOk(pad2, 'V') && t.Fits()
    requires p == k + 4 + |Dec(t.id)| + |pad1| && v == p + 2 + |Dec(t.prio)| + |pad2|
    requires Stands(buf, k + 4, Dec(t.id)) && Stands(buf, k + 4 + |Dec(t.id)|, pad1) && Stands(buf, p, "P=")
    requires Stands(buf, p + 2, Dec(t.prio)) && Stands(buf, p + 2 + |Dec(t.prio)|, pad2) && Stands(buf, v, "V=")
    requires Stands(buf, v + 2, Hex4(t.vid, upper)) && !IsDigit(At(buf, v + 2 + |Hex4(t.vid, upper)|), 16)
    ensures ScanDomain(buf, k) == Some((t, v + 2))
  {
    hide Dec, Hex4, ScanDec, ScanVid, ScanDomain, Seek;
    NumberThenTag(buf, k + 4, t.id, pad1, 'P');
    RestReads(buf, p + 2, t.prio, pad2, t.vid, upper, v);
    DomainCombine(buf, k, t, p, v);
  }

  lemma RestReads(buf: string, q: nat, prio: int, pad2: string, vid: int, upper: bool, v: nat)
    requires PadOk(pad2, 'V') && IsInt32(vid) && v == q + |Dec(prio)| + |pad2|
    requires Stands(buf, q, Dec(prio)) && Stands(buf, q + |Dec(prio)|, pad2) && Stands(buf, v, "V=")
    requires Stands(buf, v + 2, Hex4(vid, upper)) && !IsDigit(At(buf, v + 2 + |Hex4(vid, upper)|), 16)
    ensures ScanDec(buf, q) == Some(prio) && Seek(buf, 'V', q) == v && ScanVid(buf, v + 2) == Some(vid)
  {
    NumberThenTag(buf, q, prio, pad2, 'V');
    VidRoundTrip(buf, v + 2, vid, upper);
  }

  lemma DomainCombine(buf: string, k: nat, t: Triple, p: nat, v: nat)
    requires k + 4 <= |buf| && p + 2 <= |buf| && v + 2 <= |buf|
    requires ScanDec(buf, k + 4) == Some(t.id) && Seek(buf, 'P', k + 4) == p
    requires ScanDec(buf, p + 2) == Some(t.prio) && Seek(buf, 'V', p + 2) == v
    requires ScanVid(buf, v + 2) == Some(t.vid)
    ensures ScanDomain(buf, k) == Some((t, v + 2))
  {
  }

  /** Where the pieces of a domain attribute stand. */
  lemma DomainLayout(buf: string, k: nat, gap: string, id: string, pad1: string, prio: string, pad2: string,
                     vid: string) returns (p: nat, v: nat)
    requires |gap| == 3
    requires Stands(buf, k, ("D" + gap) + (id + (pad1 + ("P=" + (prio + (pad2 + ("V=" + vid)))))))
    ensures p == k + 4 + |id| + |pad1| && v == p + 2 + |prio| + |pad2|
    ensures Stands(buf, k + 4, id) && Stands(buf, k + 4 + |id|, pad1) && Stands(buf, p, "P=")
    ensures Stands(buf, p + 2, prio) && Stands(buf, p + 2 + |prio|, pad2) && Stands(buf, v, "V=")
    ensures Stands(buf, v + 2, vid)
  {
    hide Stands;
    p := k + 4 + |id| + |pad1|;
    v := p + 2 + |prio| + |pad2|;
    StandsParts(buf, k, "D" + gap, id + (pad1 + ("P=" + (prio + (pad2 + ("V=" + vid))))));
    StandsParts(buf, k + 4, id, pad1 + ("P=" + (prio + (pad2 + ("V=" + vid)))));
    StandsParts(buf, k + 4 + |id|, pad1, "P=" + (prio + (pad2 + ("V=" + vid))));
    StandsParts(buf, p, "P=", prio + (pad2 + ("V=" + vid)));
    StandsParts(buf, p + 2, prio, pad2 + ("V=" + vid));
    StandsParts(buf, p + 2 + |prio|, pad2, "V=" + vid);
    StandsParts(buf, v, "V=", vid);
  }

  // ---------------------------------------------------------------------
  // The library's own message

  datatype Srp = Srp(prioA: int, idA: int, vidA: int, validA: bool,
                     prioB: int, idB: int, vidB: int, validB: bool)

  const DOMAIN_MSG_SZ: nat := 64

  /** `_mrp_update_domain`.  For class B the priority printed is the class ID. */
  function DomainMessage(s: Srp, classA: bool, register: bool): string {
    var t := Triple(if classA then s.idA else s.idB, if classA then s.prioA else s.idB, s.vidA);
    Snprintf(DOMAIN_MSG_SZ, (if register then "S+" else "S-") + DomainText(":C=", t, ",", ",", false))
  }

  lemma DomainMessageFits(s: Srp, classA: bool, register: bool, t: Triple)
    requires t == Triple(if classA then s.idA else s.idB, if classA then s.prioA else s.idB, s.vidA) && t.Fits()
    ensures DomainMessage(s, classA, register) ==
            (if register then "S+" else "S-") + DomainText(":C=", t, ",", ",", false)
  {
    DecLength(t.id);
    DecLength(t.prio);
    Hex4Facts(t.vid, false);
  }

  /** The scanning parser recovers from the class A message the handler's own
      triple; from the class B message it recovers the class ID twice, and the
      VLAN of class A. */
  lemma DomainMessageRoundTrip(s: Srp, classA: bool, register: bool)
    requires IsInt32(s.idA) && IsInt32(s.prioA) && IsInt32(s.vidA) && IsInt32(s.idB)
    ensures var r := ScanDomain(DomainMessage(s, classA, register), 2);
            r.Some? && r.value.0 == if classA then Triple(s.idA, s.prioA, s.vidA) else Triple(s.idB, s.idB, s.vidA)
  {
    var t := Triple(if classA then s.idA else s.idB, if classA then s.prioA else s.idB, s.vidA);
    DomainMessageFits(s, classA, register, t);
    var msg := DomainMessage(s, classA, register);
    StandsBehind(if register then "S+" else "S-", DomainText(":C=", t, ",", ",", false));
    DomainRoundTrip(msg, 2, ":C=", t, ",", ",", false);
  }

  /** Registering and unregistering a domain differ in the second character, and
      in nothing else. */
  lemma DomainMessageKind(s: Srp, classA: bool)
    requires IsInt32(s.idA) && IsInt32(s.prioA) && IsInt32(s.vidA) && IsInt32(s.idB)
    ensures var on, off := DomainMessage(s, classA, true), DomainMessage(s, classA, false);
            && |on| == |off| >= 6 && on[..6] == "S+D:C=" && off[..6] == "S-D:C=" && on[6..] == off[6..]
  {
    var t := Triple(if classA then s.idA else s.idB, if classA then s.prioA else s.idB, s.vidA);
    DomainMessageFits(s, classA, true, t);
    DomainMessageFits(s, classA, false, t);
    hide DomainMessage, Dec, Hex4;
    DomainKinds(Dec(t.id) + ("," + ("P=" + (Dec(t.prio) + ("," + ("V=" + Hex4(t.vid, false)))))));
  }

  /** Domain messages print the VLAN in lower case. */
  lemma DomainMessageInCase(s: Srp, classA: bool, register: bool)
    requires IsInt32(s.idA) && IsInt32(s.prioA) && IsInt32(s.vidA) && IsInt32(s.idB)
    ensures var msg := DomainMessage(s, classA, register); |msg| >= 6 && InCase(msg[6..], false)
  {
    var t := Triple(if classA then s.idA else s.idB, if classA then s.prioA else s.idB, s.vidA);
    DomainMessageFits(s, classA, register, t);
    DecInCase(t.id, false);
    DecInCase(t.prio, false);
    Hex4InCase(t.vid, false);
    hide DomainMessage, Dec, Hex4, InCase;
    var rest := Dec(t.id) + ("," + ("P=" + (Dec(t.prio) + ("," + ("V=" + Hex4(t.vid, false))))));
    DomainKinds(rest);
    RestInCase(Dec(t.id), Dec(t.prio), Hex4(t.vid, false));
    assert DomainMessage(s, classA, register)[6..] == rest;
  }

  lemma RestInCase(id: string, prio: string, vid: string)
    requires InCase(id, false) && InCase(prio, false) && InCase(vid, false)
    ensures InCase(id + ("," + ("P=" + (prio + ("," + ("V=" + vid))))), false)
  {
  }

  lemma DomainKinds(rest: string)
    ensures var on, off := "S+" + (("D" + ":C=") + rest), "S-" + (("D" + ":C=") + rest);
            && |on| == |off| >= 6 && on[..6] == "S+D:C=" && off[..6] == "S-D:C=" && on[6..] == off[6..] == rest
  {
  }

  /** The triple a receiver of the class B message recovers is the one held
      exactly when priority and class ID happen to be equal, and the VLANs of
      both classes too. */
  lemma ClassBRecoveredIff(s: Srp, register: bool)
    requires IsInt32(s.idA) && IsInt32(s.prioA) && IsInt32(s.vidA) && IsInt32(s.idB)
    ensures var r := ScanDomain(DomainMessage(s, false, register), 2);
            r.Some? && (r.value.0 == ClassB(s) <==> s.prioB == s.idB && s.vidB == s.vidA)
  {
    DomainMessageRoundTrip(s, false, register);
  }

  /** A handler that knows nothing yet announces class B with priority 0
      instead of its own 2. */
  lemma ClassBExample(register: bool)
    ensures var r := ScanDomain(DomainMessage(FreshSrp, false, register), 2);
            && r.Some? && r.value.0 == Triple(0, 0, 0)
            && ClassB(FreshSrp) == Triple(0, 2, 0) && ClassA(FreshSrp) == Triple(0, 3, 0)
  {
    DomainMessageRoundTrip(FreshSrp, false, register);
  }

  // ---------------------------------------------------------------------
  // The fixed-offset parser

  /** A join notification as the daemon sends it. */
  function JoinText(t: Triple, upper: bool): string {
    "SJO " + DomainText(":C=", t, ",", ",", upper)
  }

  /** Values at offsets 8, 12 and 16 of a message, wherever in it the domain
      attribute was noticed. */
  function FixedTriple(buf: string): Option<Triple> {
    var id, prio, vid := ScanDec(buf, 8), ScanDec(buf, 12), ScanVid(buf, 16);
    if id.Some? && prio.Some? && vid.Some? then Some(Triple(id.value, prio.value, vid.value)) else None
  }

  /** The "SJO D:" case. */
  function FixedDomain(buf: string): Option<Triple> {
    if Stands(buf, 0, "SJO D:") then FixedTriple(buf) else None
  }

  predicate SingleDigit(n: int) {
    0 <= n <= 9
  }

  lemma DecSingle(n: int)
    ensures |Dec(n)| == 1 <==> SingleDigit(n)
  {
  }

  /** Everything up to the VLAN. */
  function JoinHead(id: int, prio: int): string {
    "SJO D:C=" + Dec(id) + ",P=" + Dec(prio) + ",V="
  }

  lemma JoinTextShape(t: Triple, upper: bool)
    ensures JoinText(t, upper) == JoinHead(t.id, t.prio) + Hex4(t.vid, upper)
  {
    ShapeOf(Dec(t.id), Dec(t.prio), Hex4(t.vid, upper));
  }

  lemma ShapeOf(a: string, b: string, c: string)
    ensures "SJO " + (("D" + ":C=") + (a + ("," + ("P=" + (b + ("," + ("V=" + c))))))) ==
            ("SJO D:C=" + a + ",P=" + b + ",V=") + c
  {
  }

  lemma JoinScanned(t: Triple, upper: bool)
    requires t.Fits()
    ensures var r := ScanDomain(JoinText(t, upper), 4); r.Some? && r.value.0 == t
  {
    var buf := JoinText(t, upper);
    StandsBehind("SJO ", DomainText(":C=", t, ",", ",", upper));
    DomainRoundTrip(buf, 4, ":C=", t, ",", ",", upper);
  }

  /** With one-digit class and priority the offsets are right. */
  lemma FixedOnSingleDigits(t: Triple, upper: bool)
    requires t.Fits() && SingleDigit(t.id) && SingleDigit(t.prio)
    ensures FixedDomain(JoinText(t, upper)) == Some(t)
  {
    DecSingle(t.id);
    DecSingle(t.prio);
    JoinTextShape(t, upper);
    FixedOffsets(JoinText(t, upper), Dec(t.id), Dec(t.prio), Hex4(t.vid, upper));
    FixedReads(JoinText(t, upper), t, upper);
  }

  lemma FixedReads(buf: string, t: Triple, upper: bool)
    requires t.Fits() && |Dec(t.id)| == 1 && |Dec(t.prio)| == 1
    requires Stands(buf, 0, "SJO D:") && Stands(buf, 8, Dec(t.id)) && Stands(buf, 12, Dec(t.prio))
    requires Stands(buf, 16, Hex4(t.vid, upper))
    requires At(buf, 9) == ',' && At(buf, 13) == ',' && At(buf, 16 + |Hex4(t.vid, upper)|) == '\0'
    ensures FixedDomain(buf) == Some(t)
  {
    DecRoundTrip(buf, 8, t.id);
    DecRoundTrip(buf, 12, t.prio);
    VidRoundTrip(buf, 16, t.vid, upper);
  }

  lemma FixedOffsets(buf: string, a: string, b: string, c: string)
    requires |a| == 1 && |b| == 1 && buf == ("SJO D:C=" + a + ",P=" + b + ",V=") + c
    ensures Stands(buf, 0, "SJO D:") && Stands(buf, 8, a) && Stands(buf, 12, b) && Stands(buf, 16, c)
    ensures At(buf, 9) == ',' && At(buf, 13) == ',' && At(buf, 16 + |c|) == '\0'
  {
  }

  /** A run that must stop inside `pre` does not see what follows. */
  lemma RunInsidePrefix(pre: string, x: string, i: nat)
    requires i < |pre| && !IsDigit(pre[|pre| - 1], 16)
    ensures ScanVid(pre + x, i) == ScanVid(pre, i)
  {
    var e := RunEnd(pre, i, |pre|, 16);
    RunEndFacts(pre, i, |pre|, 16);
    assert !IsDigit(At(pre, |pre| - 1), 16);
    assert e < |pre|;
    var run := pre[i..e];
    assert Stands(pre + x, i, run);
    forall k | 0 <= k < |run|
      ensures IsDigit(run[k], 16)
    {
      assert run[k] == At(pre, i + k);
    }
    assert At(pre + x, e) == At(pre, e);
    RunIs(pre + x, i, run, |pre + x|, 16);
  }

  /** With longer numbers offset 16 lies before the VLAN, so the VLAN read does
      not depend on the one sent. */
  lemma FixedIgnoresVlan(id: int, prio: int, vid: int, upper: bool)
    requires |Dec(id)| + |Dec(prio)| > 2
    ensures ScanVid(JoinText(Triple(id, prio, vid), upper), 16) == ScanVid(JoinHead(id, prio), 16)
  {
    var head := JoinHead(id, prio);
    JoinTextShape(Triple(id, prio, vid), upper);
    assert head[|head| - 1] == '=';
    RunInsidePrefix(head, Hex4(vid, upper), 16);
  }

  /** With a longer number the fixed-offset parser gets the VLAN wrong for 0 or
      for 1. */
  lemma FixedFailsOtherwise(id: int, prio: int, upper: bool)
    requires !(SingleDigit(id) && SingleDigit(prio))
    requires FixedDomain(JoinText(Triple(id, prio, 0), upper)) == Some(Triple(id, prio, 0))
    ensures FixedDomain(JoinText(Triple(id, prio, 1), upper)) != Some(Triple(id, prio, 1))
  {
    DecSingle(id);
    DecSingle(prio);
    FixedIgnoresVlan(id, prio, 0, upper);
    FixedIgnoresVlan(id, prio, 1, upper);
    FixedVlan(Triple(id, prio, 0), upper);
    if FixedDomain(JoinText(Triple(id, prio, 1), upper)) == Some(Triple(id, prio, 1)) {
      FixedVlan(Triple(id, prio, 1), upper);
    }
  }

  /** The scanning parser recovers every join notification; the fixed-offset one
      agrees with it on every VLAN exactly for classes and priorities of one
      digit. */
  lemma ParsersAgreeIff(id: int, prio: int, upper: bool)
    requires IsInt32(id) && IsInt32(prio)
    ensures (forall vid :: IsInt32(vid) ==>
               FixedDomain(JoinText(Triple(id, prio, vid), upper)) == Some(Triple(id, prio, vid)))
            <==> SingleDigit(id) && SingleDigit(prio)
    ensures forall vid :: IsInt32(vid) ==>
              var r := ScanDomain(JoinText(Triple(id, prio, vid), upper), 4);
              r.Some? && r.value.0 == Triple(id, prio, vid)
  {
    forall vid | IsInt32(vid)
      ensures var r := ScanDomain(JoinText(Triple(id, prio, vid), upper), 4);
              r.Some? && r.value.0 == Triple(id, prio, vid)
    {
      JoinScanned(Triple(id, prio, vid), upper);
    }
    if SingleDigit(id) && SingleDigit(prio) {
      forall vid | IsInt32(vid)
        ensures FixedDomain(JoinText(Triple(id, prio, vid), upper)) == Some(Triple(id, prio, vid))
      {
        FixedOnSingleDigits(Triple(id, prio, vid), upper);
      }
    } else if FixedDomain(JoinText(Triple(id, prio, 0), upper)) == Some(Triple(id, prio, 0)) {
      FixedFailsOtherwise(id, prio, upper);
    }
  }

  lemma FixedVlan(t: Triple, upper: bool)
    requires FixedDomain(JoinText(t, upper)) == Some(t)
    ensures ScanVid(JoinText(t, upper), 16) == Some(t.vid)
  {
  }

  /** Class 10 with priority 3: the fixed-offset parser finds no priority where
      it looks, the scanning one reads the triple. */
  lemma ParsersDisagreeExample(vid: int, upper: bool)
    requires IsInt32(vid)
    ensures var buf := JoinText(Triple(10, 3, vid), upper);
            && FixedDomain(buf) == None
            && var r := ScanDomain(buf, 4); r.Some? && r.value.0 == Triple(10, 3, vid)
  {
    hide Dec, Hex4, JoinText, FixedDomain, ScanDomain;
    JoinScanned(Triple(10, 3, vid), upper);
    JoinTextShape(Triple(10, 3, vid), upper);
    DecOfTen();
    SecondOffset(JoinText(Triple(10, 3, vid), upper), Dec(10), Dec(3), Hex4(vid, upper));
  }

  lemma DecOfTen()
    ensures |Dec(10)| == 2
  {
    assert |Number(1, 10, false)| == 1;
  }

  lemma SecondOffset(buf: string, a: string, b: string, c: string)
    requires |a| == 2 && buf == ("SJO D:C=" + a + ",P=" + b + ",V=") + c
    ensures FixedDomain(buf) == None
  {
    assert At(buf, 12) == '=';
  }

  // ---------------------------------------------------------------------
  // Keeping the triple

  /** `nc_srp_init`. */
  const FreshSrp := Srp(3, 0, 0, false, 2, 0, 0, false)

  /** `_update_srp_fields`: class A is ID 6, anything else is class B. */
  function UpdateFields(s: Srp, t: Triple): Srp {
    if t.id == 6 then
      if s.prioA != t.prio || s.idA != t.id || s.vidA != t.vid
      then s.(prioA := t.prio, idA := t.id, vidA := t.vid, validA := true) else s
    else
      if s.prioB != t.prio || s.idB != t.id || s.vidB != t.vid
      then s.(prioB := t.prio, idB := t.id, vidB := t.vid, validB := true) else s
  }

  function UpdateAll(s: Srp, ts: seq<Triple>): Srp {
    if ts == [] then s else UpdateFields(UpdateAll(s, ts[..|ts| - 1]), ts[|ts| - 1])
  }

  function ClassA(s: Srp): Triple {
    Triple(s.idA, s.prioA, s.vidA)
  }

  function ClassB(s: Srp): Triple {
    Triple(s.idB, s.prioB, s.vidB)
  }

  /** The last triple of the class, or the one held before. */
  function LastOf(ts: seq<Triple>, classA: bool, before: Triple): Triple {
    if ts == [] then before
    else if (ts[|ts| - 1].id == 6) == classA then ts[|ts| - 1]
    else LastOf(ts[..|ts| - 1], classA, before)
  }

  /** The class was told something other than what was held before. */
  predicate News(ts: seq<Triple>, classA: bool, before: Triple) {
    exists i :: 0 <= i < |ts| && (ts[i].id == 6) == classA && ts[i] != before
  }

  lemma {:induction false} NewsStep(ts: seq<Triple>, classA: bool, before: Triple)
    requires ts != []
    ensures News(ts, classA, before) <==>
            News(ts[..|ts| - 1], classA, before) ||
            ((ts[|ts| - 1].id == 6) == classA && ts[|ts| - 1] != before)
  {
  }

  lemma {:induction false} QuietKeeps(ts: seq<Triple>, classA: bool, before: Triple)
    requires !News(ts, classA, before)
    ensures LastOf(ts, classA, before) == before
  {
    if ts != [] {
      NewsStep(ts, classA, before);
      QuietKeeps(ts[..|ts| - 1], classA, before);
    }
  }

  /** After any messages each class holds the last triple received for it, and is
      valid exactly when it was before or some triple differed from the one held
      at the start. */
  lemma {:induction false} LastTripleWins(s: Srp, ts: seq<Triple>)
    ensures var t := UpdateAll(s, ts);
            && ClassA(t) == LastOf(ts, true, ClassA(s)) && ClassB(t) == LastOf(ts, false, ClassB(s))
            && (t.validA <==> s.validA || News(ts, true, ClassA(s)))
            && (t.validB <==> s.validB || News(ts, false, ClassB(s)))
  {
    if ts != [] {
      var past := ts[..|ts| - 1];
      LastTripleWins(s, past);
      NewsStep(ts, true, ClassA(s));
      NewsStep(ts, false, ClassB(s));
      if !News(past, true, ClassA(s)) { QuietKeeps(past, true, ClassA(s)); }
      if !News(past, false, ClassB(s)) { QuietKeeps(past, false, ClassB(s)); }
    }
  }

  /** From the initial state class A becomes valid with the first triple for it;
      class B does not when told just its defaults, class ID 0. */
  lemma ValidFromFresh(ts: seq<Triple>)
    ensures UpdateAll(FreshSrp, ts).validA <==> exists i :: 0 <= i < |ts| && ts[i].id == 6
    ensures UpdateAll(FreshSrp, ts).validB <==> exists i :: 0 <= i < |ts| && ts[i].id != 6 && ts[i] != Triple(0, 2, 0)
  {
    LastTripleWins(FreshSrp, ts);
  }

  /** A daemon that announces class B exactly as the handler assumed it leaves it
      invalid. */
  lemma RepeatExample()
    ensures UpdateAll(FreshSrp, [Triple(0, 2, 0)]) == FreshSrp && !FreshSrp.validB
  {
    assert [Triple(0, 2, 0)][..0] == [];
  }
}
