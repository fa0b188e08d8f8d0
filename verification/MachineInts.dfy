/** Fixed-width integers of the C code, written out over unbounded integers,
    and the byte layouts the library puts on the wire and into its pipes. */
module MachineInts {

  const TWO32: nat := 0x1_0000_0000
  const TWO63: nat := 0x8000_0000_0000_0000
  const TWO64: nat := 0x1_0000_0000_0000_0000

  type byte = n: int | 0 <= n < 256

  datatype Option<+T> = None | Some(value: T)

  // Error numbers, returned negated.
  const ENOMEM: int := 12
  const EINVAL: int := 22
  const EBADFD: int := 77

  /** Conversion to `uint64_t`. */
  function U64(x: int): nat {
    x % TWO64
  }

  /** Conversion to `uint32_t`. */
  function U32(x: int): nat {
    x % TWO32
  }

  /** Conversion to `int32_t`, two's complement. */
  function I32(x: int): int {
    var u := x % TWO32;
    if u < 0x8000_0000 then u else u - TWO32
  }

  /** Conversion to `int64_t`, two's complement. */
  function I64(x: int): int {
    var u := x % TWO64;
    if u < TWO63 then u else u - TWO64
  }

  predicate IsInt32(x: int) {
    -0x8000_0000 <= x < 0x8000_0000
  }

  function Max(a: int, b: int): int {
    if a > b then a else b
  }

  function Pow256(k: nat): (p: nat)
    ensures p > 0
  {
    if k == 0 then 1 else 256 * Pow256(k - 1)
  }

  /** The `k` low bytes of `n`, least significant first (host order). */
  function ToLE(n: nat, k: nat): (s: seq<byte>)
    ensures |s| == k
  {
    if k == 0 then [] else [n % 256] + ToLE(n / 256, k - 1)
  }

  function FromLE(s: seq<byte>): nat {
    if s == [] then 0 else s[0] + 256 * FromLE(s[1..])
  }

  /** The `k` low bytes of `n`, most significant first (network order). */
  function ToBE(n: nat, k: nat): (s: seq<byte>)
    ensures |s| == k
  {
    if k == 0 then [] else ToBE(n / 256, k - 1) + [n % 256]
  }

  function FromBE(s: seq<byte>): nat {
    if s == [] then 0 else 256 * FromBE(s[..|s| - 1]) + s[|s| - 1]
  }

  /** In host order byte `i` has weight 256^i... */
  lemma {:induction false} LEByte(n: nat, k: nat, i: nat)
    requires i < k
    ensures ToLE(n, k)[i] == n / Pow256(i) % 256
  {
    if i > 0 {
      LEByte(n / 256, k - 1, i - 1);
      assert ToLE(n, k)[i] == ToLE(n / 256, k - 1)[i - 1];
      DivDiv(n, Pow256(i - 1));
    }
  }

  /** ... in network order, counted from the other end. */
  lemma {:induction false} BEByte(n: nat, k: nat, i: nat)
    requires i < k
    ensures ToBE(n, k)[i] == n / Pow256(k - 1 - i) % 256
  {
    if i < k - 1 {
      BEByte(n / 256, k - 1, i);
      assert ToBE(n, k)[i] == ToBE(n / 256, k - 1)[i];
      DivDiv(n, Pow256(k - 2 - i));
    }
  }

  lemma DivDiv(n: nat, d: nat)
    requires d > 0
    ensures 256 * d > 0 && n / 256 / d == n / (256 * d)
  {
    var q := n / 256 / d;
    var r := n / 256 % d;
    assert n / 256 == q * d + r;
    assert n == 256 * (q * d + r) + n % 256;
    assert 256 * (q * d + r) == q * (256 * d) + 256 * r;
    assert 0 <= 256 * r + n % 256 < 256 * d;
    QuotientIs(n, 256 * d, q, 256 * r + n % 256);
  }

  lemma QuotientIs(n: nat, d: nat, q: nat, r: nat)
    requires d > 0 && n == q * d + r && r < d
    ensures n / d == q
  {
    var p := n / d;
    assert p * d <= n < (p + 1) * d;
    assert p < q ==> (p + 1) * d <= q * d;
    assert q < p ==> (q + 1) * d <= p * d;
  }

  /** Storing in host order and loading again gives the value back. */
  lemma {:induction false} LERoundTrip(n: nat, k: nat)
    requires n < Pow256(k)
    ensures FromLE(ToLE(n, k)) == n
  {
    if k != 0 {
      LERoundTrip(n / 256, k - 1);
      assert ToLE(n, k)[1..] == ToLE(n / 256, k - 1);
    }
  }

  /** Storing in network order and loading again gives the value back. */
  lemma {:induction false} BERoundTrip(n: nat, k: nat)
    requires n < Pow256(k)
    ensures FromBE(ToBE(n, k)) == n
  {
    if k != 0 {
      BERoundTrip(n / 256, k - 1);
      assert ToBE(n, k)[..k - 1] == ToBE(n / 256, k - 1);
    }
  }

  lemma Pow256Values()
    ensures Pow256(2) == 0x1_0000
    ensures Pow256(4) == TWO32
    ensures Pow256(8) == TWO64
  {
  }
}
