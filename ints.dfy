/** The fixed-width integers of the Rust sources, and byte-order conversions. */
module Ints {

  type byte = x: int | 0 <= x < 0x100
  type u16 = x: int | 0 <= x < 0x1_0000
  type u32 = x: int | 0 <= x < 0x1_0000_0000
  type u64 = x: int | 0 <= x < 0x1_0000_0000_0000_0000
  type i8 = x: int | -0x80 <= x < 0x80
  type i16 = x: int | -0x8000 <= x < 0x8000
  type i32 = x: int | -0x8000_0000 <= x < 0x8000_0000
  type i64 = x: int | -0x8000_0000_0000_0000 <= x < 0x8000_0000_0000_0000

  /** 256 to the power `k`: one more than the largest `k`-byte value. */
  function Pow256(k: nat): (r: nat)
    ensures r >= 1
  {
    if k == 0 then 1 else 256 * Pow256(k - 1)
  }

  /** The value of `bs` read most-significant byte first. */
  function BeToNat(bs: seq<byte>): nat
  {
    if |bs| == 0 then 0 else BeToNat(bs[..|bs| - 1]) * 256 + bs[|bs| - 1]
  }

  /** The `len` lowest bytes of `n`, most-significant byte first. */
  function NatToBe(n: nat, len: nat): (r: seq<byte>)
    ensures |r| == len
  {
    if len == 0 then [] else NatToBe(n / 256, len - 1) + [n % 256]
  }

  /** The value of `bs` read least-significant byte first. */
  function LeToNat(bs: seq<byte>): nat
  {
    if |bs| == 0 then 0 else bs[0] + 256 * LeToNat(bs[1..])
  }

  /** The `len` lowest bytes of `n`, least-significant byte first. */
  function NatToLe(n: nat, len: nat): (r: seq<byte>)
    ensures |r| == len
  {
    if len == 0 then [] else [n % 256] + NatToLe(n / 256, len - 1)
  }

  lemma {:induction false} BeBound(bs: seq<byte>)
    ensures BeToNat(bs) < Pow256(|bs|)
  {
    if |bs| > 0 {
      BeBound(bs[..|bs| - 1]);
    }
  }

  lemma {:induction false} LeBound(bs: seq<byte>)
    ensures LeToNat(bs) < Pow256(|bs|)
  {
    if |bs| > 0 {
      LeBound(bs[1..]);
    }
  }

  /** Writing a value that fits and reading it back gives the value. */
  lemma {:induction false} BeRoundTrip(n: nat, len: nat)
    requires n < Pow256(len)
    ensures BeToNat(NatToBe(n, len)) == n
  {
    if len > 0 {
      var r := NatToBe(n, len);
      var q := n / 256;
      assert r[..len - 1] == NatToBe(q, len - 1);
      assert r[len - 1] == n % 256;
      assert q < Pow256(len - 1) by {
        assert n < 256 * Pow256(len - 1);
      }
      BeRoundTrip(q, len - 1);
      assert BeToNat(r) == q * 256 + n % 256;
    }
  }

  lemma {:induction false} LeRoundTrip(n: nat, len: nat)
    requires n < Pow256(len)
    ensures LeToNat(NatToLe(n, len)) == n
  {
    if len > 0 {
      var r := NatToLe(n, len);
      assert r[1..] == NatToLe(n / 256, len - 1);
      LeRoundTrip(n / 256, len - 1);
    }
  }

  /** A big-endian byte string of zeros, and only that, reads as 0. */
  lemma {:induction false} BeZero(bs: seq<byte>)
    ensures BeToNat(bs) == 0 <==> forall i :: 0 <= i < |bs| ==> bs[i] == 0
  {
    if |bs| > 0 {
      BeZero(bs[..|bs| - 1]);
      assert forall i :: 0 <= i < |bs| - 1 ==> bs[..|bs| - 1][i] == bs[i];
    }
  }

  /** The little-endian bytes of a string's own value are the string itself. */
  lemma {:induction false} LeOfValue(bs: seq<byte>)
    ensures NatToLe(LeToNat(bs), |bs|) == bs
  {
    if |bs| > 0 {
      LeOfValue(bs[1..]);
      assert (bs[0] + 256 * LeToNat(bs[1..])) / 256 == LeToNat(bs[1..]);
      assert [bs[0]] + bs[1..] == bs;
    }
  }

  lemma {:induction false} Pow256Monotone(a: nat, b: nat)
    requires a <= b
    ensures Pow256(a) <= Pow256(b)
  {
    if a < b {
      Pow256Monotone(a, b - 1);
    }
  }
}
