/**
 * The default page hasher of svm-storage (`default_page_hasher.rs`): the key
 * of page `page` of account `address` is the hash of the 33-byte
 * little-endian sum `address + page`. The hash function is a parameter.
 */
module PageHasher {
  import opened Ints

  /** `svm_common::Address`: 32 bytes, least-significant first in arithmetic. */
  type Address = s: seq<byte> | |s| == 32 witness seq(32, _ => 0)

  type Hash = s: seq<byte> | |s| == 32 witness seq(32, _ => 0)

  /** `Address::from(u32)`: the value's little-endian bytes, zero-extended. */
  function AddressFromU32(v: u32): (a: Address)
    ensures LeToNat(a) == v
  {
    Pow256Monotone(4, 32);
    assert Pow256(4) == 0x1_0000_0000;
    LeRoundTrip(v, 32);
    NatToLe(v, 32)
  }

  /** `address.add(page)`: 33 bytes, one more than the address, so the carry never wraps. */
  function PagePreimage(address: Address, page: u32): (r: seq<byte>)
    ensures |r| == 33
    ensures LeToNat(r) == LeToNat(address) + page
  {
    var n := LeToNat(address) + page;
    PreimageFits(address, page);
    LeRoundTrip(n, 33);
    NatToLe(n, 33)
  }

  /** The sum of an address and a page fits in 33 bytes. */
  lemma PreimageFits(address: Address, page: u32)
    ensures LeToNat(address) + page < Pow256(33)
  {
    var p32 := Pow256(32);
    LeBound(address);
    Pow256Monotone(4, 32);
    assert Pow256(4) == 0x1_0000_0000;
    assert page < p32;
    assert Pow256(33) == 256 * p32;
  }

  /** `PageHasherImpl::<H>::hash`: one pre-image, one hash. */
  function PageHash(h: seq<byte> -> Hash, address: Address, page: u32): (r: Hash)
    ensures r == h(PagePreimage(address, page))
  {
    h(PagePreimage(address, page))
  }

  /** For a fixed address, distinct pages have distinct pre-images. */
  lemma PreimageInjectiveInPage(address: Address, p1: u32, p2: u32)
    ensures PagePreimage(address, p1) == PagePreimage(address, p2) <==> p1 == p2
  {
  }

  /** For a fixed page, distinct addresses have distinct pre-images. */
  lemma PreimageInjectiveInAddress(a1: Address, a2: Address, page: u32)
    ensures PagePreimage(a1, page) == PagePreimage(a2, page) <==> a1 == a2
  {
    if PagePreimage(a1, page) == PagePreimage(a2, page) {
      LeOfValue(a1);
      LeOfValue(a2);
    }
  }

  /**
   * The pre-image is not injective in the pair: page `p + 1` of an address
   * and page `p` of the next address share it.
   */
  lemma NeighbourPagesShare(a1: Address, a2: Address, p: u32)
    requires p + 1 < 0x1_0000_0000
    requires LeToNat(a2) == LeToNat(a1) + 1
    ensures PagePreimage(a1, p + 1) == PagePreimage(a2, p)
  {
  }

  /** `default_page_hasher_sanity`: address `0x44332211` plus page 3. */
  lemma PageHasherSanity(h: seq<byte> -> Hash)
    ensures PagePreimage(AddressFromU32(0x4433_2211), 3) == [0x14, 0x22, 0x33, 0x44] + seq(29, _ => 0)
    ensures PageHash(h, AddressFromU32(0x4433_2211), 3) == h([0x14, 0x22, 0x33, 0x44] + seq(29, _ => 0))
  {
    var expected: seq<byte> := [0x14, 0x22, 0x33, 0x44] + seq(29, _ => 0);
    LeOfValue(expected);
    assert LeToNat(expected) == 0x4433_2214 by {
      var e1, e2, e3, e4 := expected[1..], expected[2..], expected[3..], expected[4..];
      LeOfZeros(e4);
      assert e3[1..] == e4 && e2[1..] == e3 && e1[1..] == e2;
      assert LeToNat(e3) == 0x44;
      assert LeToNat(e2) == 0x33 + 256 * 0x44;
      assert LeToNat(e1) == 0x22 + 256 * (0x33 + 256 * 0x44);
    }
  }

  lemma {:induction false} LeOfZeros(bs: seq<byte>)
    requires forall i :: 0 <= i < |bs| ==> bs[i] == 0
    ensures LeToNat(bs) == 0
  {
    if |bs| > 0 {
      LeOfZeros(bs[1..]);
    }
  }
}
