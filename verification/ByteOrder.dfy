/** Byte order: memory layout of integers on a little-endian host, `htons`, `htonl` and the
    `HTONLL` macro of src/gatewayServer/src/Server.cpp. */
module ByteOrder {
  import opened Prelude

  const TWO_32: nat := 0x1_0000_0000
  const TWO_64: nat := 0x1_0000_0000_0000_0000

  function Pow256(k: nat): (p: nat)
    ensures p >= 1
  {
    if k == 0 then 1 else 256 * Pow256(k - 1)
  }

  /** The `k` bytes of `x` in little-endian order: what storing `x` writes to memory. */
  function LittleEndian(x: nat, k: nat): (bs: seq<Byte>)
    ensures |bs| == k
  {
    if k == 0 then [] else [x % 256] + LittleEndian(x / 256, k - 1)
  }

  /** The `k` bytes of `x` in big-endian (network) order. */
  function BigEndian(x: nat, k: nat): (bs: seq<Byte>)
    ensures |bs| == k
  {
    if k == 0 then [] else BigEndian(x / 256, k - 1) + [x % 256]
  }

  /** The integer a little-endian host loads from the bytes `bs`. */
  function Load(bs: seq<Byte>): nat {
    if bs == [] then 0 else bs[0] + 256 * Load(bs[1..])
  }

  /** The integer written in big-endian order by `bs`. */
  function BigEndianValue(bs: seq<Byte>): nat {
    if bs == [] then 0 else 256 * BigEndianValue(bs[..|bs| - 1]) + bs[|bs| - 1]
  }

  function Reverse(bs: seq<Byte>): (r: seq<Byte>)
    ensures |r| == |bs|
    ensures forall i :: 0 <= i < |bs| ==> r[i] == bs[|bs| - 1 - i]
  {
    seq(|bs|, i requires 0 <= i < |bs| => bs[|bs| - 1 - i])
  }

  /** `htons` and `htonl` on a little-endian host: the `k` bytes of a word are reversed. */
  function SwapBytes(x: nat, k: nat): nat {
    Load(Reverse(LittleEndian(x, k)))
  }

  function Htons(x: nat): nat { SwapBytes(x, 2) }

  function Htonl(x: nat): nat { SwapBytes(x, 4) }

  /** `HTONLL`: swap each 32-bit half, then exchange the halves. The low half of the sum is
      below 2^32, so the macro's bitwise or is an addition. */
  function Htonll(x: nat): nat
    requires x < TWO_64
  {
    Htonl(x % TWO_32) * TWO_32 + Htonl(x / TWO_32)
  }

  // ----- storing and loading

  lemma {:induction false} LoadBound(bs: seq<Byte>)
    ensures Load(bs) < Pow256(|bs|)
  {
    if bs != [] {
      LoadBound(bs[1..]);
    }
  }

  lemma {:induction false} StoreLoad(bs: seq<Byte>)
    ensures LittleEndian(Load(bs), |bs|) == bs
  {
    if bs != [] {
      StoreLoad(bs[1..]);
      assert Load(bs) % 256 == bs[0] && Load(bs) / 256 == Load(bs[1..]);
    }
  }

  lemma {:induction false} LoadStore(x: nat, k: nat)
    requires x < Pow256(k)
    ensures Load(LittleEndian(x, k)) == x
  {
    if k != 0 {
      LoadStore(x / 256, k - 1);
      assert LittleEndian(x, k)[1..] == LittleEndian(x / 256, k - 1);
    }
  }

  lemma {:induction false} BigIsReversedLittle(x: nat, k: nat)
    ensures BigEndian(x, k) == Reverse(LittleEndian(x, k))
  {
    if k != 0 {
      BigIsReversedLittle(x / 256, k - 1);
    }
  }

  lemma {:induction false} BigEndianRoundTrip(x: nat, k: nat)
    requires x < Pow256(k)
    ensures BigEndianValue(BigEndian(x, k)) == x
  {
    if k != 0 {
      BigEndianRoundTrip(x / 256, k - 1);
      assert BigEndian(x, k)[..k - 1] == BigEndian(x / 256, k - 1);
    }
  }

  lemma {:induction false} BigEndianOfValue(bs: seq<Byte>)
    ensures BigEndian(BigEndianValue(bs), |bs|) == bs
    ensures BigEndianValue(bs) < Pow256(|bs|)
  {
    if bs != [] {
      var front := bs[..|bs| - 1];
      BigEndianOfValue(front);
      assert BigEndianValue(bs) / 256 == BigEndianValue(front);
    }
  }

  lemma Powers()
    ensures Pow256(2) == 0x1_0000 && Pow256(4) == TWO_32 && Pow256(8) == TWO_64
  {
    assert Pow256(3) == 0x100_0000;
    assert Pow256(5) == 0x100_0000_0000;
    assert Pow256(6) == 0x1_0000_0000_0000;
    assert Pow256(7) == 0x100_0000_0000_0000;
  }

  /** The two orders on one number, byte for byte. */
  lemma BothOrders()
    ensures LittleEndian(0x0102, 2) == [2, 1] && Load([2, 1]) == 0x0102
    ensures BigEndian(0x0102, 2) == [1, 2] && BigEndianValue([1, 2]) == 0x0102
  {
    assert LittleEndian(1, 1) == [1] && BigEndian(1, 1) == [1];
    var little: seq<Byte>, big: seq<Byte> := [2, 1], [1, 2];
    assert little[1..] == [1] && little[1..][1..] == [];
    assert big[..1] == [1] && big[..1][..0] == [];
  }

  // ----- HTONLL

  lemma LowDigit(q: nat, low: nat)
    ensures (256 * q + low) % 256 == low % 256 && (256 * q + low) / 256 == q + low / 256
  {
  }

  lemma HighPart(high: nat, k: nat)
    requires k != 0
    ensures high * Pow256(k) == 256 * (high * Pow256(k - 1))
  {
    assert Pow256(k) == 256 * Pow256(k - 1);
  }

  /** Storing a double word stores its low word and then its high word. */
  lemma {:induction false} StoreSplit(low: nat, high: nat, k: nat, m: nat)
    requires low < Pow256(k)
    ensures LittleEndian(high * Pow256(k) + low, k + m) == LittleEndian(low, k) + LittleEndian(high, m)
  {
    if k == 0 {
      assert high * Pow256(0) == high;
    } else {
      HighPart(high, k);
      LowDigit(high * Pow256(k - 1), low);
      StoreSplit(low / 256, high, k - 1, m);
    }
  }

  lemma SwapStores(x: nat, k: nat)
    ensures LittleEndian(SwapBytes(x, k), k) == BigEndian(x, k)
    ensures SwapBytes(x, k) < Pow256(k)
  {
    StoreLoad(Reverse(LittleEndian(x, k)));
    LoadBound(Reverse(LittleEndian(x, k)));
    BigIsReversedLittle(x, k);
  }

  lemma ReverseConcat(a: seq<Byte>, b: seq<Byte>)
    ensures Reverse(a + b) == Reverse(b) + Reverse(a)
  {
  }

  lemma StoreExchanged(low: nat, high: nat, k: nat)
    ensures LittleEndian(SwapBytes(low, k) * Pow256(k) + SwapBytes(high, k), k + k)
         == BigEndian(high, k) + BigEndian(low, k)
  {
    SwapStores(low, k);
    SwapStores(high, k);
    StoreSplit(SwapBytes(high, k), SwapBytes(low, k), k, k);
  }

  lemma BigEndianSplit(low: nat, high: nat, k: nat)
    requires low < Pow256(k)
    ensures BigEndian(high * Pow256(k) + low, k + k) == BigEndian(high, k) + BigEndian(low, k)
  {
    BigIsReversedLittle(high * Pow256(k) + low, k + k);
    StoreSplit(low, high, k, k);
    ReverseConcat(LittleEndian(low, k), LittleEndian(high, k));
    BigIsReversedLittle(low, k);
    BigIsReversedLittle(high, k);
  }

  /** Exchanging two words of `k` bytes and swapping the bytes of each reverses all `2k` bytes. */
  lemma ExchangeAndSwap(low: nat, high: nat, k: nat)
    requires low < Pow256(k)
    ensures LittleEndian(SwapBytes(low, k) * Pow256(k) + SwapBytes(high, k), k + k)
         == BigEndian(high * Pow256(k) + low, k + k)
  {
    StoreExchanged(low, high, k);
    BigEndianSplit(low, high, k);
  }

  lemma BelowSquare(a: nat, b: nat, p: nat)
    requires a < p && b < p
    ensures a * p + b < p * p
  {
    assert a * p <= (p - 1) * p;
  }

  lemma WordsExchanged(low: nat, high: nat, k: nat, n: nat)
    requires low < Pow256(k) && n == k + k
    ensures var y := SwapBytes(low, k) * Pow256(k) + SwapBytes(high, k);
            y < Pow256(k) * Pow256(k) && LittleEndian(y, n) == BigEndian(high * Pow256(k) + low, n)
  {
    ExchangeAndSwap(low, high, k);
    SwapStores(low, k);
    SwapStores(high, k);
    BelowSquare(SwapBytes(low, k), SwapBytes(high, k), Pow256(k));
  }

  /** Storing `HTONLL(x)` on a little-endian host leaves the eight big-endian digits of `x` in memory. */
  lemma HtonllStoresBigEndian(x: nat)
    requires x < TWO_64
    ensures Htonll(x) < TWO_64
    ensures LittleEndian(Htonll(x), 8) == BigEndian(x, 8)
  {
    Powers();
    assert x == (x / TWO_32) * TWO_32 + x % TWO_32;
    WordsExchanged(x % TWO_32, x / TWO_32, 4, 8);
  }

  /** `HTONLL` is its own inverse on 64-bit values. */
  lemma HtonllInvolution(x: nat)
    requires x < TWO_64
    ensures Htonll(x) < TWO_64 && Htonll(Htonll(x)) == x
  {
    var y := Htonll(x);
    Powers();
    HtonllStoresBigEndian(x);
    HtonllStoresBigEndian(y);
    BigIsReversedLittle(x, 8);
    BigIsReversedLittle(y, 8);
    assert LittleEndian(Htonll(y), 8) == LittleEndian(x, 8);
    LoadStore(Htonll(y), 8);
    LoadStore(x, 8);
  }
}
