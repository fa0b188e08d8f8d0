/** The talker side of the MRP daemon's messages (src/netchan_srp_helper.c,
    `nc_mrp_talker_process_msg`): a loop over the lines of a buffer. */
module MrpLines {
  import opened MachineInts
  import opened MrpText
  import opened MrpStream
  import opened MrpDomain

  const MSRP_LISTENER_ASKFAILED: nat := 1

  /** What a message makes the handler do.  The stream is the one whose ID has
      these bytes in memory. */
  datatype Action =
    | NotifyNew(sid: seq<byte>)
    | NotifyLeaving(sid: seq<byte>)
    | Domain(t: Triple)

  /** The actions of a buffer, or Undefined when a search leaves the text or a
      conversion fails, where the C code has no defined behaviour. */
  datatype Outcome = Done(acts: seq<Action>) | Undefined

  function Prepend(acts: seq<Action>, o: Outcome): Outcome {
    match o
    case Done(more) => Done(acts + more)
    case Undefined => Undefined
  }

  // ---------------------------------------------------------------------
  // Reading a buffer

  /** Listener declarations with a substate above "asking failed" count; the
      substate is unsigned. */
  function Arrival(substate: int, sid: seq<byte>): seq<Action> {
    if U32(substate) > MSRP_LISTENER_ASKFAILED then [NotifyNew(sid)] else []
  }

  /** A listener attribute: substate behind the first 'D' from `i` on, stream ID
      behind the next 'S'; also where the latter starts. */
  function ScanListener(buf: string, i: nat): (r: Option<(int, seq<byte>, nat)>)
    ensures r.Some? ==> i < r.value.2 <= |buf|
  {
    var d := if i <= |buf| then Seek(buf, 'D', i) else |buf|;
    if d + 2 > |buf| then None
    else
      var substate := ScanDec(buf, d + 2);
      var s := Seek(buf, 'S', d + 2);
      if s + 2 > |buf| then None
      else
        var sid := ScanBytes(buf, s + 2, 8);
        if substate.Some? && sid.Some? then Some((substate.value, sid.value, s + 2)) else None
  }

  /** End of the line that `i` is in: newline, NUL, or end of the buffer. */
  function LineEnd(buf: string, i: nat): (e: nat)
    requires i <= |buf|
    ensures i <= e <= |buf|
    decreases |buf| - i
  {
    if i == |buf| || buf[i] == '\n' || buf[i] == '\0' then i else LineEnd(buf, i + 1)
  }

  /** The rest of the buffer behind the line that `i` is in. */
  function AfterLine(buf: string, i: nat): (k: nat)
    requires i <= |buf|
    ensures i <= k && (k <= |buf| ==> k > i || i == |buf|)
  {
    var e := LineEnd(buf, i);
    if e == |buf| || buf[e] == '\0' then |buf| + 1 else e + 1
  }

  /** An event about a listener at `k`. */
  function ListenerEvent(buf: string, k: nat): Outcome {
    var r := ScanListener(buf, k + 5);
    match r
    case None => Undefined
    case Some((substate, sid, _)) =>
      if At(buf, k + 1) == 'L' then Done([NotifyLeaving(sid)])
      else if At(buf, k + 1) == 'J' || At(buf, k + 1) == 'N' then Done(Arrival(substate, sid))
      else Done([])
  }

  /** Everything from position `k` on. */
  function Process(buf: string, k: nat): Outcome
    decreases |buf| + 1 - k
  {
    if k >= |buf| then Done([])
    else
      match buf[k]
      case 'L' =>
        (match ScanListener(buf, k)
         case None => Undefined
         case Some((substate, sid, i)) => Prepend(Arrival(substate, sid), Process(buf, AfterLine(buf, i))))
      case 'D' =>
        (match ScanDomain(buf, k)
         case None => Undefined
         case Some((t, i)) => Prepend([Domain(t)], Process(buf, AfterLine(buf, i))))
      case 'T' => Process(buf, AfterLine(buf, k))
      case 'S' => if At(buf, k + 4) == 'L' then ListenerEvent(buf, k) else Done([])
      case _ => Done([])
  }

  /** `nc_mrp_talker_process_msg`: the loop at `next_line`. */
  method ProcessTalkerMsg(buf: string) returns (o: Outcome)
    ensures o == Process(buf, 0)
  {
    hide ScanListener, ScanDomain, ListenerEvent, Arrival, LineEnd;
    var acts := [];
    var k := 0;
    assert Process(buf, 0) == Prepend(acts, Process(buf, 0)) by {
      PrependNothing(Process(buf, 0));
    }
    while k < |buf|
      invariant Process(buf, 0) == Prepend(acts, Process(buf, k))
      decreases |buf| - k
    {
      if buf[k] == 'L' {
        var r := ReadListener(buf, k);
        if r.None? {
          return Undefined;
        }
        var i := LineBreak(buf, r.value.2);
        PrependTwice(acts, Arrival(r.value.0, r.value.1), Process(buf, AfterLine(buf, r.value.2)));
        acts := acts + Arrival(r.value.0, r.value.1);
        if i == |buf| || buf[i] == '\0' {
          return Done(acts);
        }
        k := i + 1;
      } else if buf[k] == 'D' {
        var r := ReadDomain(buf, k);
        if r.None? {
          return Undefined;
        }
        var i := LineBreak(buf, r.value.1);
        PrependTwice(acts, [Domain(r.value.0)], Process(buf, AfterLine(buf, r.value.1)));
        acts := acts + [Domain(r.value.0)];
        if i == |buf| || buf[i] == '\0' {
          return Done(acts);
        }
        k := i + 1;
      } else if buf[k] == 'T' {
        var i := LineBreak(buf, k);
        if i == |buf| || buf[i] == '\0' {
          return Done(acts);
        }
        k := i + 1;
      } else if buf[k] == 'S' && At(buf, k + 4) == 'L' {
        var event := ReadEvent(buf, k);
        return Prepend(acts, event);
      } else {
        return Done(acts);
      }
    }
    return Done(acts);
  }

  /** A `while (buf[i] != c) i++` search, here bounded by the text. */
  method SeekChar(buf: string, c: char, from: nat) returns (i: nat)
    requires from <= |buf|
    ensures i == Seek(buf, c, from)
  {
    i := from;
    while i < |buf| && buf[i] != c
      invariant from <= i <= |buf| && Seek(buf, c, i) == Seek(buf, c, from)
    {
      i := i + 1;
    }
  }

  /** The two searches and the conversions for a listener attribute. */
  method ReadListener(buf: string, from: nat) returns (r: Option<(int, seq<byte>, nat)>)
    ensures r == ScanListener(buf, from)
  {
    hide ScanDec, ScanBytes, Seek;
    if from > |buf| {
      return None;
    }
    var i := SeekChar(buf, 'D', from);
    if i + 2 > |buf| {
      return None;
    }
    var substate := ScanDec(buf, i + 2);
    i := SeekChar(buf, 'S', i + 2);
    if i + 2 > |buf| {
      return None;
    }
    var sid := ScanHexBytes(buf, i + 2, 8);
    if substate.None? || sid.None? {
      return None;
    }
    return Some((substate.value, sid.value, i + 2));
  }

  /** The same for a domain attribute. */
  method ReadDomain(buf: string, k: nat) returns (r: Option<(Triple, nat)>)
    ensures r == ScanDomain(buf, k)
  {
    hide ScanDec, ScanVid, Seek;
    if k + 4 > |buf| {
      return None;
    }
    var id := ScanDec(buf, k + 4);
    var i := SeekChar(buf, 'P', k + 4);
    if i + 2 > |buf| {
      return None;
    }
    var priority := ScanDec(buf, i + 2);
    i := SeekChar(buf, 'V', i + 2);
    if i + 2 > |buf| {
      return None;
    }
    var vid := ScanVid(buf, i + 2);
    if id.None? || priority.None? || vid.None? {
      return None;
    }
    return Some((Triple(id.value, priority.value, vid.value), i + 2));
  }

  /** The join, new and leave events about listeners. */
  method ReadEvent(buf: string, k: nat) returns (o: Outcome)
    ensures o == ListenerEvent(buf, k)
  {
    hide ScanListener;
    var r := ReadListener(buf, k + 5);
    if r.None? {
      return Undefined;
    }
    if At(buf, k + 1) == 'L' {
      return Done([NotifyLeaving(r.value.1)]);
    }
    if At(buf, k + 1) == 'J' || At(buf, k + 1) == 'N' {
      return Done(Arrival(r.value.0, r.value.1));
    }
    return Done([]);
  }

  /** The scan for the end of the line. */
  method LineBreak(buf: string, from: nat) returns (i: nat)
    requires from <= |buf|
    ensures i == LineEnd(buf, from)
  {
    i := from;
    while i < |buf| && buf[i] != '\n' && buf[i] != '\0'
      invariant from <= i <= |buf| && LineEnd(buf, i) == LineEnd(buf, from)
    {
      i := i + 1;
    }
  }

  lemma PrependNothing(o: Outcome)
    ensures Prepend([], o) == o
  {
  }

  lemma PrependTwice(a: seq<Action>, b: seq<Action>, o: Outcome)
    ensures Prepend(a, Prepend(b, o)) == Prepend(a + b, o)
  {
  }

  // ---------------------------------------------------------------------
  // Well-formed lines

  /** Lines as the daemon prints them, with free text where the parser does not
      look. */
  datatype Line =
    | ListenerLine(pad1: string, substate: int, pad2: string, sid: seq<byte>, upper: bool, rest: string)
    | DomainLine(gap: string, t: Triple, pad1: string, pad2: string, upper: bool, rest: string)
    | TalkerLine(rest: string)

  function ListenerText(pad1: string, substate: int, pad2: string, sid: seq<byte>, upper: bool): string {
    ("L" + pad1) + ("D=" + (Dec(substate) + (pad2 + ("S=" + HexBytes(sid, upper)))))
  }

  /** The part of a line the parser looks at... */
  function Attribute(l: Line): string {
    match l
    case ListenerLine(pad1, substate, pad2, sid, upper, _) => ListenerText(pad1, substate, pad2, sid, upper)
    case DomainLine(gap, t, pad1, pad2, upper, _) => DomainText(gap, t, pad1, pad2, upper)
    case TalkerLine(_) => "T"
  }

  /** ... and all of it. */
  function Render(l: Line): string {
    Attribute(l) + l.rest
  }

  predicate NoBreak(t: string) {
    '\n' !in t && '\0' !in t
  }

  predicate LineOk(l: Line) {
    && NoBreak(l.rest)
    && match l
       case ListenerLine(pad1, substate, pad2, sid, _, _) =>
         'D' !in pad1 && PadOk(pad2, 'S') && |sid| == 8 && IsInt32(substate)
       case DomainLine(gap, t, pad1, pad2, _, rest) =>
         |gap| == 3 && PadOk(pad1, 'P') && PadOk(pad2, 'V') && t.Fits() && (rest != "" ==> !IsDigit(rest[0], 16))
       case TalkerLine(_) => true
  }

  /** The buffer from `k` on holds these lines: each followed by a newline, the
      last one perhaps by NUL or nothing, and then text that starts no line. */
  predicate Holds(buf: string, k: nat, lines: seq<Line>)
    decreases |lines|
  {
    if lines == [] then
      At(buf, k) !in "LDTS"
    else
      var next := k + |Render(lines[0])|;
      && LineOk(lines[0]) && Stands(buf, k, Render(lines[0]))
      && if At(buf, next) == '\n' then Holds(buf, next + 1, lines[1..])
         else At(buf, next) == '\0' && lines[1..] == []
  }

  /** Substates 0 (ignored) and 1 (asking failed) are not listeners. */
  function Listeners(substate: int, sid: seq<byte>): seq<Action> {
    if substate == 0 || substate == 1 then [] else [NotifyNew(sid)]
  }

  /** What one line means. */
  function ActionsOf(l: Line): seq<Action> {
    match l
    case ListenerLine(_, substate, _, sid, _, _) => Listeners(substate, sid)
    case DomainLine(_, t, _, _, _, _) => [Domain(t)]
    case TalkerLine(_) => []
  }

  function AllActions(lines: seq<Line>): seq<Action> {
    if lines == [] then [] else ActionsOf(lines[0]) + AllActions(lines[1..])
  }

  lemma {:induction false} LineEndIs(buf: string, i: nat, e: nat)
    requires i <= e <= |buf| && (e == |buf| || buf[e] == '\n' || buf[e] == '\0')
    requires forall j :: i <= j < e ==> buf[j] != '\n' && buf[j] != '\0'
    ensures LineEnd(buf, i) == e
    decreases e - i
  {
    if i < e {
      LineEndIs(buf, i + 1, e);
    }
  }

  /** From inside a text without line breaks the line ends behind it. */
  lemma LineEndBehind(buf: string, i: nat, t: string, e: nat)
    requires Stands(buf, i, t) && NoBreak(t) && e == i + |t|
    requires At(buf, e) == '\n' || At(buf, e) == '\0'
    ensures LineEnd(buf, i) == e
  {
    forall j | i <= j < e
      ensures buf[j] != '\n' && buf[j] != '\0'
    {
      StandsAt(buf, i, t, j - i);
    }
    LineEndIs(buf, i, e);
  }

  lemma DigitsNoBreak(t: string)
    requires forall i :: 0 <= i < |t| ==> IsDigit(t[i], 16)
    ensures NoBreak(t)
  {
  }

  /** A listener line is read as what it says. */
  lemma ListenerReads(buf: string, k: nat, pad1: string, substate: int, pad2: string, sid: seq<byte>, upper: bool)
    requires 'D' !in pad1 && PadOk(pad2, 'S') && |sid| == 8
    requires Stands(buf, k, ListenerText(pad1, substate, pad2, sid, upper))
    ensures ScanListener(buf, k) ==
            Some((substate, sid, k + |ListenerText(pad1, substate, pad2, sid, upper)| - 16))
  {
    hide Dec, HexBytes, ScanDec, ScanBytes, Seek;
    var d, s := ListenerLayout(buf, k, pad1, Dec(substate), pad2, HexBytes(sid, upper));
    FirstD(buf, k, pad1);
    NumberThenTag(buf, d + 2, substate, pad2, 'S');
    BytesRoundTrip(buf, s + 2, sid, upper);
  }

  lemma FirstD(buf: string, k: nat, pad1: string)
    requires 'D' !in pad1 && Stands(buf, k, "L" + pad1) && Stands(buf, k + 1 + |pad1|, "D=")
    ensures Seek(buf, 'D', k) == k + 1 + |pad1|
  {
    StandsAt(buf, k + 1 + |pad1|, "D=", 0);
    forall j | k <= j < k + 1 + |pad1|
      ensures buf[j] != 'D'
    {
      StandsAt(buf, k, "L" + pad1, j - k);
    }
    SeekIs(buf, 'D', k, k + 1 + |pad1|);
  }

  lemma ListenerLayout(buf: string, k: nat, pad1: string, substate: string, pad2: string, sid: string)
    returns (d: nat, s: nat)
    requires Stands(buf, k, ("L" + pad1) + ("D=" + (substate + (pad2 + ("S=" + sid)))))
    ensures d == k + 1 + |pad1| && s == d + 2 + |substate| + |pad2|
    ensures Stands(buf, k, "L" + pad1) && Stands(buf, d, "D=") && Stands(buf, d + 2, substate)
    ensures Stands(buf, d + 2 + |substate|, pad2) && Stands(buf, s, "S=") && Stands(buf, s + 2, sid)
  {
    hide Stands;
    d := k + 1 + |pad1|;
    s := d + 2 + |substate| + |pad2|;
    StandsParts(buf, k, "L" + pad1, "D=" + (substate + (pad2 + ("S=" + sid))));
    StandsParts(buf, d, "D=", substate + (pad2 + ("S=" + sid)));
    StandsParts(buf, d + 2, substate, pad2 + ("S=" + sid));
    StandsParts(buf, d + 2 + |substate|, pad2, "S=" + sid);
    StandsParts(buf, s, "S=", sid);
  }

  lemma SplitEnd(attr: string, last: string, rest: string)
    requires |last| <= |attr| && attr[|attr| - |last|..] == last
    ensures attr + rest == attr[..|attr| - |last|] + (last + rest)
  {
  }

  lemma JoinNoBreak(a: string, b: string)
    requires NoBreak(a) && NoBreak(b)
    ensures NoBreak(a + b)
  {
  }

  /** After the last piece of an attribute comes the rest of the line. */
  lemma RestOfLine(buf: string, k: nat, attr: string, last: string, rest: string, e: nat)
    requires Stands(buf, k, attr + rest) && |last| <= |attr| && attr[|attr| - |last|..] == last
    requires NoBreak(last) && NoBreak(rest) && e == k + |attr| + |rest|
    requires At(buf, e) == '\n' || At(buf, e) == '\0'
    ensures LineEnd(buf, k + |attr| - |last|) == e
  {
    hide Stands, LineEnd, NoBreak;
    var head := attr[..|attr| - |last|];
    SplitEnd(attr, last, rest);
    JoinNoBreak(last, rest);
    StandsParts(buf, k, head, last + rest);
    LineEndBehind(buf, k + |head|, last + rest, e);
  }

  lemma ListenerTextEnd(pad1: string, substate: int, pad2: string, sid: seq<byte>, upper: bool)
    requires |sid| == 8
    ensures var attr := ListenerText(pad1, substate, pad2, sid, upper);
            |attr| >= 16 && attr[|attr| - 16..] == HexBytes(sid, upper)
  {
  }

  lemma DomainTextEnd(gap: string, t: Triple, pad1: string, pad2: string, upper: bool)
    ensures var attr := DomainText(gap, t, pad1, pad2, upper);
            var vid := Hex4(t.vid, upper);
            |attr| >= |vid| && attr[|attr| - |vid|..] == vid
  {
  }

  // ---------------------------------------------------------------------
  // One line, then all

  /** Where a line that stands at `k` takes the loop. */
  lemma ListenerStep(buf: string, k: nat, l: Line, e: nat)
    requires l.ListenerLine? && LineOk(l) && Stands(buf, k, Render(l)) && e == k + |Render(l)|
    requires At(buf, e) == '\n' || At(buf, e) == '\0'
    ensures var r := ScanListener(buf, k);
            r.Some? && r.value.0 == l.substate && r.value.1 == l.sid && LineEnd(buf, r.value.2) == e
  {
    hide ListenerText, HexBytes, ScanListener, LineEnd;
    StandsParts(buf, k, Attribute(l), l.rest);
    ListenerReads(buf, k, l.pad1, l.substate, l.pad2, l.sid, l.upper);
    ListenerTextEnd(l.pad1, l.substate, l.pad2, l.sid, l.upper);
    HexBytesDigits(l.sid, l.upper);
    DigitsNoBreak(HexBytes(l.sid, l.upper));
    RestOfLine(buf, k, Attribute(l), HexBytes(l.sid, l.upper), l.rest, e);
  }

  lemma DomainStep(buf: string, k: nat, l: Line, e: nat)
    requires l.DomainLine? && LineOk(l) && Stands(buf, k, Render(l)) && e == k + |Render(l)|
    requires At(buf, e) == '\n' || At(buf, e) == '\0'
    ensures var r := ScanDomain(buf, k);
            r.Some? && r.value.0 == l.t && LineEnd(buf, r.value.1) == e
  {
    hide DomainText, Hex4, ScanDomain, LineEnd;
    StandsParts(buf, k, Attribute(l), l.rest);
    if l.rest != "" {
      StandsAt(buf, k + |Attribute(l)|, l.rest, 0);
    }
    DomainRoundTrip(buf, k, l.gap, l.t, l.pad1, l.pad2, l.upper);
    DomainTextEnd(l.gap, l.t, l.pad1, l.pad2, l.upper);
    Hex4Facts(l.t.vid, l.upper);
    DigitsNoBreak(Hex4(l.t.vid, l.upper));
    RestOfLine(buf, k, Attribute(l), Hex4(l.t.vid, l.upper), l.rest, e);
  }

  lemma TalkerStep(buf: string, k: nat, l: Line, e: nat)
    requires l.TalkerLine? && LineOk(l) && Stands(buf, k, Render(l)) && e == k + |Render(l)|
    requires At(buf, e) == '\n' || At(buf, e) == '\0'
    ensures LineEnd(buf, k) == e
  {
    RestOfLine(buf, k, "T", "T", l.rest, e);
  }

  lemma FirstChar(buf: string, k: nat, l: Line)
    requires Stands(buf, k, Render(l))
    ensures k < |buf|
    ensures buf[k] == if l.ListenerLine? then 'L' else if l.DomainLine? then 'D' else 'T'
  {
    StandsAt(buf, k, Render(l), 0);
  }

  lemma ArrivalIs(l: Line)
    requires l.ListenerLine? && LineOk(l)
    ensures Arrival(l.substate, l.sid) == Listeners(l.substate, l.sid)
  {
  }

  lemma LineStep(buf: string, k: nat, l: Line, e: nat)
    requires LineOk(l) && Stands(buf, k, Render(l)) && e == k + |Render(l)|
    requires At(buf, e) == '\n' || At(buf, e) == '\0'
    ensures e <= |buf|
    ensures Process(buf, k) ==
            Prepend(ActionsOf(l), Process(buf, if At(buf, e) == '\n' then e + 1 else |buf| + 1))
  {
    hide ScanListener, ScanDomain, Render, LineOk, LineEnd, Stands;
    FirstChar(buf, k, l);
    match l
    case ListenerLine(_, substate, _, sid, _, _) =>
      ListenerStep(buf, k, l, e);
      ArrivalIs(l);
    case DomainLine(_, _, _, _, _, _) => DomainStep(buf, k, l, e);
    case TalkerLine(_) =>
      TalkerStep(buf, k, l, e);
      PrependNothing(Process(buf, AfterLine(buf, k)));
  }

  /** The loop is a fold: on every buffer of well-formed lines it does exactly
      what the lines say, one after the other, and stops. */
  lemma {:induction false} ProcessIsFold(buf: string, k: nat, lines: seq<Line>)
    requires Holds(buf, k, lines)
    ensures Process(buf, k) == Done(AllActions(lines))
    decreases |lines|
  {
    hide Process, Render, LineOk, Stands;
    if lines == [] {
      ProcessStops(buf, k);
    } else {
      var e := k + |Render(lines[0])|;
      LineStep(buf, k, lines[0], e);
      if At(buf, e) == '\n' {
        ProcessIsFold(buf, e + 1, lines[1..]);
      } else {
        ProcessStops(buf, |buf| + 1);
        assert AllActions(lines[1..]) == [];
      }
    }
  }

  lemma ProcessStops(buf: string, k: nat)
    requires At(buf, k) !in "LDTS"
    ensures Process(buf, k) == Done([])
  {
  }

  // ---------------------------------------------------------------------
  // Events

  /** An event is the letter S, three more, and a listener attribute. */
  function EventText(kind: char, x: char, y: char, l: Line): string
    requires l.ListenerLine?
  {
    ['S', kind, x, y] + Attribute(l)
  }

  lemma ScanSkips(buf: string, i: nat)
    requires i < |buf| && buf[i] != 'D'
    ensures ScanListener(buf, i) == ScanListener(buf, i + 1)
  {
    hide ScanDec, ScanBytes;
    assert Seek(buf, 'D', i) == Seek(buf, 'D', i + 1);
  }

  /** A leave event means that the listener leaves, a join or new event that one
      arrives, any other nothing; and processing stops there, whatever follows. */
  lemma EventMeans(buf: string, k: nat, kind: char, x: char, y: char, l: Line)
    requires l.ListenerLine? && LineOk(l) && Stands(buf, k, EventText(kind, x, y, l))
    ensures Process(buf, k) ==
            Done(if kind == 'L' then [NotifyLeaving(l.sid)]
                 else if kind == 'J' || kind == 'N' then Listeners(l.substate, l.sid)
                 else [])
  {
    hide ScanListener, ListenerText, ScanDomain;
    StandsParts(buf, k, ['S', kind, x, y], Attribute(l));
    StandsAt(buf, k, ['S', kind, x, y], 0);
    StandsAt(buf, k, ['S', kind, x, y], 1);
    AttributeStarts(buf, k + 4, l);
    ListenerReads(buf, k + 4, l.pad1, l.substate, l.pad2, l.sid, l.upper);
    ScanSkips(buf, k + 4);
    ArrivalIs(l);
  }

  lemma AttributeStarts(buf: string, i: nat, l: Line)
    requires l.ListenerLine? && Stands(buf, i, Attribute(l))
    ensures i < |buf| && buf[i] == 'L'
  {
    StandsAt(buf, i, Attribute(l), 0);
  }

  // ---------------------------------------------------------------------
  // Domains through a whole buffer

  function Domains(acts: seq<Action>): seq<Triple> {
    if acts == [] then []
    else Domains(acts[..|acts| - 1]) + (if acts[|acts| - 1].Domain? then [acts[|acts| - 1].t] else [])
  }

  /** The triples of the domain lines, in order. */
  function DomainLines(lines: seq<Line>): seq<Triple> {
    if lines == [] then []
    else (if lines[0].DomainLine? then [lines[0].t] else []) + DomainLines(lines[1..])
  }

  lemma {:induction false} DomainsAppend(a: seq<Action>, b: seq<Action>)
    ensures Domains(a + b) == Domains(a) + Domains(b)
  {
    if b == [] {
      assert a + b == a;
    } else {
      assert (a + b)[..|a + b| - 1] == a + b[..|b| - 1];
      DomainsAppend(a, b[..|b| - 1]);
    }
  }

  lemma {:induction false} DomainsOfLines(lines: seq<Line>)
    ensures Domains(AllActions(lines)) == DomainLines(lines)
  {
    if lines != [] {
      DomainsOfLines(lines[1..]);
      DomainsAppend(ActionsOf(lines[0]), AllActions(lines[1..]));
      DomainsOfLine(lines[0]);
    }
  }

  lemma DomainsOfLine(l: Line)
    ensures Domains(ActionsOf(l)) == if l.DomainLine? then [l.t] else []
  {
  }

  /** After a buffer of well-formed lines class A holds the last triple with ID 6
      and class B the last other one; a handler that started fresh has class A
      valid exactly when there was a line with ID 6. */
  lemma BufferDomains(buf: string, lines: seq<Line>, s: Srp)
    requires Holds(buf, 0, lines)
    ensures Process(buf, 0).Done?
    ensures var ts := DomainLines(lines);
            var after := UpdateAll(s, Domains(Process(buf, 0).acts));
            && ClassA(after) == LastOf(ts, true, ClassA(s)) && ClassB(after) == LastOf(ts, false, ClassB(s))
            && (s == FreshSrp ==> (after.validA <==> exists i :: 0 <= i < |ts| && ts[i].id == 6))
  {
    ProcessIsFold(buf, 0, lines);
    DomainsOfLines(lines);
    LastTripleWins(s, DomainLines(lines));
    ValidFromFresh(DomainLines(lines));
  }
}
