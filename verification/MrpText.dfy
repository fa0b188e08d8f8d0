/** Numbers and bytes in the text messages exchanged with the MRP daemon
    (src/netchan_srp_helper.c): what the `printf` conversions produce and what
    the `scanf` conversions make of it.

    The buffers are zeroed beyond the text, so reading past it yields NUL. */
module MrpText {
  import opened MachineInts

  function At(buf: string, i: nat): char {
    if i < |buf| then buf[i] else '\0'
  }

  // ---------------------------------------------------------------------
  // Digits

  function DigitChar(d: nat, upper: bool): char
    requires d < 16
  {
    if d < 10 then ('0' as int + d) as char
    else if upper then ('A' as int + (d - 10)) as char
    else ('a' as int + (d - 10)) as char
  }

  /** Value of a digit, 16 for any other character. */
  function DigitVal(c: char): nat {
    if '0' <= c <= '9' then c as int - '0' as int
    else if 'a' <= c <= 'f' then c as int - 'a' as int + 10
    else if 'A' <= c <= 'F' then c as int - 'A' as int + 10
    else 16
  }

  predicate IsDigit(c: char, base: nat) {
    DigitVal(c) < base
  }

  lemma DigitRoundTrip(d: nat, upper: bool)
    requires d < 16
    ensures DigitVal(DigitChar(d, upper)) == d
  {
  }

  /** The bases of `%d` and `%x`. */
  predicate IsBase(base: nat) {
    base == 10 || base == 16
  }

  lemma DivMod(n: nat, base: nat)
    requires IsBase(base)
    ensures (n / base) * base + n % base == n && 0 <= n % base < base
    ensures n >= base ==> n / base < n
  {
  }

  /** Digits of `n` in a base, most significant first. */
  function Number(n: nat, base: nat, upper: bool): (t: string)
    requires IsBase(base)
    ensures |t| >= 1
    ensures forall i :: 0 <= i < |t| ==> IsDigit(t[i], base)
    decreases n
  {
    DivMod(n, base);
    DigitRoundTrip(n % base, upper);
    if n < base then [DigitChar(n, upper)]
    else Number(n / base, base, upper) + [DigitChar(n % base, upper)]
  }

  function Value(t: string, base: nat): nat {
    if t == "" then 0 else Value(t[..|t| - 1], base) * base + DigitVal(t[|t| - 1])
  }

  lemma ValueAppend(t: string, c: char, base: nat)
    ensures Value(t + [c], base) == Value(t, base) * base + DigitVal(c)
  {
  }

  lemma {:induction false} NumberValue(n: nat, base: nat, upper: bool)
    requires IsBase(base)
    ensures Value(Number(n, base, upper), base) == n
    decreases n
  {
    if n < base {
      DigitRoundTrip(n, upper);
      ValueAppend("", DigitChar(n, upper), base);
    } else {
      NumberValue(n / base, base, upper);
      DigitRoundTrip(n % base, upper);
      ValueAppend(Number(n / base, base, upper), DigitChar(n % base, upper), base);
      DivMod(n, base);
    }
  }

  function Power(base: nat, k: nat): nat {
    if k == 0 then 1 else base * Power(base, k - 1)
  }

  /** A number below base^k has at most `k` digits. */
  lemma {:induction false} NumberLength(n: nat, base: nat, upper: bool, k: nat)
    requires IsBase(base) && k >= 1 && n < Power(base, k)
    ensures |Number(n, base, upper)| <= k
    decreases k
  {
    if n >= base {
      assert Power(base, 1) == base;
      assert Power(base, k) == base * Power(base, k - 1);
      QuotientBelow(n, base, Power(base, k - 1));
      NumberLength(n / base, base, upper, k - 1);
    }
  }

  lemma QuotientBelow(n: nat, d: nat, q: nat)
    requires d > 0 && n < d * q
    ensures n / d < q
  {
  }

  // ---------------------------------------------------------------------
  // Printing

  /** `%d`. */
  function Dec(n: int): (t: string)
    ensures |t| >= 1
  {
    if n < 0 then "-" + Number(-n, 10, false) else Number(n, 10, false)
  }

  /** `%02X` or `%02x` of a byte. */
  function Hex2(b: byte, upper: bool): string {
    [DigitChar(b / 16, upper), DigitChar(b % 16, upper)]
  }

  function HexBytes(bs: seq<byte>, upper: bool): (t: string)
    ensures |t| == 2 * |bs|
  {
    if bs == [] then "" else Hex2(bs[0], upper) + HexBytes(bs[1..], upper)
  }

  function Pad(t: string, width: nat): (p: string)
    ensures |p| == if |t| < width then width else |t|
    decreases width - |t|
  {
    if |t| >= width then t else Pad("0" + t, width)
  }

  /** `%04X` or `%04x` of an `int`, which prints its 32 bits. */
  function Hex4(n: int, upper: bool): string {
    Pad(Number(U32(n), 16, upper), 4)
  }

  // ---------------------------------------------------------------------
  // Case

  /** No hex letter of the other case. */
  predicate InCase(t: string, upper: bool) {
    forall i :: 0 <= i < |t| ==> if upper then !('a' <= t[i] <= 'f') else !('A' <= t[i] <= 'F')
  }

  lemma InCaseConcat(a: string, b: string, upper: bool)
    requires InCase(a, upper) && InCase(b, upper)
    ensures InCase(a + b, upper)
  {
  }

  lemma {:induction false} NumberInCase(n: nat, base: nat, upper: bool)
    requires IsBase(base)
    ensures InCase(Number(n, base, upper), upper)
    ensures base == 10 ==> InCase(Number(n, base, upper), !upper)
    decreases n
  {
    DivMod(n, base);
    if n >= base {
      NumberInCase(n / base, base, upper);
    }
  }

  lemma {:induction false} PadInCase(t: string, width: nat, upper: bool)
    requires InCase(t, upper)
    ensures InCase(Pad(t, width), upper)
    decreases width - |t|
  {
    if |t| < width {
      PadInCase("0" + t, width, upper);
    }
  }

  lemma Hex4InCase(n: int, upper: bool)
    ensures InCase(Hex4(n, upper), upper)
  {
    NumberInCase(U32(n), 16, upper);
    PadInCase(Number(U32(n), 16, upper), 4, upper);
  }

  lemma DecInCase(n: int, upper: bool)
    ensures InCase(Dec(n), upper)
  {
    NumberInCase(if n < 0 then -n else n, 10, false);
  }

  lemma {:induction false} HexBytesInCase(bs: seq<byte>, upper: bool)
    ensures InCase(HexBytes(bs, upper), upper)
  {
    if bs != [] {
      HexBytesInCase(bs[1..], upper);
    }
  }

  lemma {:induction false} PadFacts(t: string, width: nat)
    requires forall i :: 0 <= i < |t| ==> IsDigit(t[i], 16)
    ensures Value(Pad(t, width), 16) == Value(t, 16)
    ensures forall i :: 0 <= i < |Pad(t, width)| ==> IsDigit(Pad(t, width)[i], 16)
    decreases width - |t|
  {
    if |t| < width {
      LeadingZero(t);
      PadFacts("0" + t, width);
    }
  }

  lemma {:induction false} LeadingZero(t: string)
    ensures Value("0" + t, 16) == Value(t, 16)
  {
    if t == "" {
      assert ("0" + t)[..0] == "";
      assert Value("", 16) == 0;
    } else {
      LeadingZero(t[..|t| - 1]);
      assert ("0" + t)[..|t|] == "0" + t[..|t| - 1];
    }
  }

  lemma Hex4Facts(n: int, upper: bool)
    ensures Value(Hex4(n, upper), 16) == U32(n)
    ensures forall i :: 0 <= i < |Hex4(n, upper)| ==> IsDigit(Hex4(n, upper)[i], 16)
    ensures 4 <= |Hex4(n, upper)| <= 8
  {
    NumberValue(U32(n), 16, upper);
    PadFacts(Number(U32(n), 16, upper), 4);
    PowerOf16();
    NumberLength(U32(n), 16, upper, 8);
  }

  lemma PowerOf16()
    ensures Power(16, 8) == TWO32
  {
  }

  lemma PowerOf10()
    ensures Power(10, 10) == 10_000_000_000
  {
  }

  /** An `int` takes at most eleven characters. */
  lemma DecLength(n: int)
    requires IsInt32(n)
    ensures |Dec(n)| <= 11
  {
    PowerOf10();
    NumberLength(if n < 0 then -n else n, 10, false, 10);
  }

  // ---------------------------------------------------------------------
  // Scanning

  /** End of the run of digits at `i`, at most `width` of them. */
  function RunEnd(buf: string, i: nat, width: nat, base: nat): (e: nat)
    requires base <= 16
    ensures i <= e <= i + width && (e <= |buf| || e == i)
    decreases width
  {
    if width == 0 || !IsDigit(At(buf, i), base) then i else RunEnd(buf, i + 1, width - 1, base)
  }

  /** `%x`, or `%02x` with a width of two; None when the conversion fails. */
  function ScanHex(buf: string, i: nat, width: nat): Option<nat> {
    var e := RunEnd(buf, i, width, 16);
    if e == i then None else Some(Value(buf[i..e], 16))
  }

  /** `%d`. */
  function ScanDec(buf: string, i: nat): Option<int> {
    var signed := At(buf, i) == '-' || At(buf, i) == '+';
    var j := if signed then i + 1 else i;
    var e := RunEnd(buf, j, |buf|, 10);
    if e == j then None
    else
      var v: int := Value(buf[j..e], 10);
      Some(if At(buf, i) == '-' then -v else v)
  }

  /** The text `t` stands at position `i`. */
  predicate Stands(buf: string, i: nat, t: string) {
    i + |t| <= |buf| && buf[i..i + |t|] == t
  }

  lemma StandsAt(buf: string, i: nat, t: string, k: nat)
    requires Stands(buf, i, t) && k < |t|
    ensures buf[i + k] == t[k]
  {
  }

  lemma StandsNot(buf: string, i: nat, t: string, k: nat)
    requires k < |t| && i + k < |buf| && buf[i + k] != t[k]
    ensures !Stands(buf, i, t)
  {
    if Stands(buf, i, t) {
      StandsAt(buf, i, t, k);
    }
  }

  lemma StandsParts(buf: string, i: nat, a: string, b: string)
    ensures Stands(buf, i, a + b) <==> Stands(buf, i, a) && Stands(buf, i + |a|, b)
  {
    if Stands(buf, i, a + b) {
      assert buf[i..i + |a|] == (a + b)[..|a|];
      assert buf[i + |a|..i + |a| + |b|] == (a + b)[|a|..];
    }
    if Stands(buf, i, a) && Stands(buf, i + |a|, b) {
      assert buf[i..i + |a + b|] == buf[i..i + |a|] + buf[i + |a|..i + |a| + |b|];
    }
  }

  lemma StandsBehind(a: string, b: string)
    ensures Stands(a + b, |a|, b)
  {
  }

  /** A run of digits is read whole, and no further than the next non-digit. */
  lemma {:induction false} RunIs(buf: string, i: nat, t: string, width: nat, base: nat)
    requires base <= 16 && Stands(buf, i, t) && |t| <= width
    requires forall k :: 0 <= k < |t| ==> IsDigit(t[k], base)
    requires |t| == width || !IsDigit(At(buf, i + |t|), base)
    ensures RunEnd(buf, i, width, base) == i + |t|
    decreases width
  {
    if t != "" {
      StandsAt(buf, i, t, 0);
      assert t == t[..1] + t[1..];
      StandsParts(buf, i, t[..1], t[1..]);
      RunIs(buf, i + 1, t[1..], width - 1, base);
    }
  }

  /** A run ends at a non-digit, or is as wide as it may be. */
  lemma {:induction false} RunEndFacts(buf: string, i: nat, width: nat, base: nat)
    requires base <= 16
    ensures var e := RunEnd(buf, i, width, base);
            && (e == i + width || !IsDigit(At(buf, e), base))
            && forall j :: i <= j < e ==> IsDigit(At(buf, j), base)
    decreases width
  {
    if width > 0 && IsDigit(At(buf, i), base) {
      RunEndFacts(buf, i + 1, width - 1, base);
    }
  }

  /** Printing a byte and reading it back. */
  lemma Hex2RoundTrip(buf: string, i: nat, b: byte, upper: bool)
    requires Stands(buf, i, Hex2(b, upper))
    ensures ScanHex(buf, i, 2) == Some(b)
  {
    var t := Hex2(b, upper);
    DigitRoundTrip(b / 16, upper);
    DigitRoundTrip(b % 16, upper);
    RunIs(buf, i, t, 2, 16);
    assert t[..1] == [t[0]] && t[..1][..0] == "";
    assert Value(t[..1], 16) == b / 16;
  }

  /** Printing a VLAN and reading it back. */
  lemma Hex4RoundTrip(buf: string, i: nat, n: int, upper: bool)
    requires Stands(buf, i, Hex4(n, upper)) && !IsDigit(At(buf, i + |Hex4(n, upper)|), 16)
    ensures ScanHex(buf, i, |buf|) == Some(U32(n))
  {
    Hex4Facts(n, upper);
    RunIs(buf, i, Hex4(n, upper), |buf|, 16);
  }

  /** `%x` into an `int`. */
  function ScanVid(buf: string, i: nat): Option<int> {
    var v := ScanHex(buf, i, |buf|);
    if v.Some? then Some(I32(v.value)) else None
  }

  lemma VidRoundTrip(buf: string, i: nat, n: int, upper: bool)
    requires IsInt32(n)
    requires Stands(buf, i, Hex4(n, upper)) && !IsDigit(At(buf, i + |Hex4(n, upper)|), 16)
    ensures ScanVid(buf, i) == Some(n)
  {
    Hex4RoundTrip(buf, i, n, upper);
    I32OfU32(n);
  }

  lemma I32OfU32(n: int)
    requires IsInt32(n)
    ensures I32(U32(n)) == n
  {
  }

  lemma DigitsRoundTrip(buf: string, i: nat, n: nat)
    requires var t := Number(n, 10, false); Stands(buf, i, t) && !IsDigit(At(buf, i + |t|), 10)
    ensures var e := RunEnd(buf, i, |buf|, 10); i < e <= |buf| && Value(buf[i..e], 10) == n
  {
    NumberValue(n, 10, false);
    RunIs(buf, i, Number(n, 10, false), |buf|, 10);
  }

  /** Printing an integer and reading it back. */
  lemma DecRoundTrip(buf: string, i: nat, n: int)
    requires Stands(buf, i, Dec(n)) && !IsDigit(At(buf, i + |Dec(n)|), 10)
    ensures ScanDec(buf, i) == Some(n)
  {
    if n < 0 {
      StandsParts(buf, i, "-", Number(-n, 10, false));
      StandsAt(buf, i, "-", 0);
      DigitsRoundTrip(buf, i + 1, -n);
    } else {
      StandsAt(buf, i, Number(n, 10, false), 0);
      DigitsRoundTrip(buf, i, n);
    }
  }
}
