/** Raw memory as the worker sees it: bytes, 64-bit words stored little-endian
    (the coprocessor is an x86-64 target), and regions that hold a packed
    array of 8-byte slots (handles on the way in, object pointers after the
    in-place rewrite). */
module Bytes {

  /** One byte of memory, as its unsigned value. */
  type byte = x: int | 0 <= x < 256

  const TWO_64: int := 0x1_0000_0000_0000_0000

  /** The unsigned 64-bit integers: handles, addresses and `long` bit patterns. */
  type u64 = x: int | 0 <= x < TWO_64

  /** Width in bytes of a pointer, a Handle and a `long`. */
  const WORD: nat := 8

  function Pow256(n: nat): (r: nat)
    ensures r >= 1
  {
    if n == 0 then 1 else 256 * Pow256(n - 1)
  }

  lemma Pow256Word()
    ensures Pow256(8) == TWO_64
  {
    assert Pow256(2) == 0x1_0000;
    assert Pow256(4) == 0x1_0000_0000;
    assert Pow256(6) == 0x1_0000_0000_0000;
  }

  /** The unsigned value of a little-endian byte string. */
  function DecodeLE(b: seq<byte>): (r: nat)
    ensures r < Pow256(|b|)
  {
    if b == [] then 0 else b[0] + 256 * DecodeLE(b[1..])
  }

  /** The `n` low-order bytes of `x`, least significant first. */
  function EncodeLE(x: nat, n: nat): (r: seq<byte>)
    ensures |r| == n
  {
    if n == 0 then [] else [x % 256] + EncodeLE(x / 256, n - 1)
  }

  lemma {:induction false} DecodeEncode(x: nat, n: nat)
    requires x < Pow256(n)
    ensures DecodeLE(EncodeLE(x, n)) == x
  {
    if n > 0 {
      var lo, hi := x % 256, x / 256;
      assert x == lo + 256 * hi;
      assert Pow256(n) == 256 * Pow256(n - 1);
      assert hi < Pow256(n - 1);
      DecodeEncode(hi, n - 1);
      var e := EncodeLE(x, n);
      assert e == [lo] + EncodeLE(hi, n - 1);
      assert e[0] == lo && e[1..] == EncodeLE(hi, n - 1);
    }
  }

  lemma {:induction false} EncodeDecode(b: seq<byte>)
    ensures EncodeLE(DecodeLE(b), |b|) == b
  {
    if b != [] {
      var d := DecodeLE(b[1..]);
      assert DecodeLE(b) % 256 == b[0] && DecodeLE(b) / 256 == d;
      EncodeDecode(b[1..]);
    }
  }

  /** One 64-bit word as it lies in memory. */
  function Encode64(x: u64): (r: seq<byte>)
    ensures |r| == 8
  {
    EncodeLE(x, 8)
  }

  /** The 64-bit word stored in eight bytes of memory. */
  function Decode64(b: seq<byte>): u64
    requires |b| == 8
  {
    Pow256Word();
    DecodeLE(b)
  }

  lemma Word64RoundTrip(x: u64, b: seq<byte>)
    requires |b| == 8
    ensures Decode64(Encode64(x)) == x
    ensures Encode64(Decode64(b)) == b
  {
    Pow256Word();
    DecodeEncode(x, 8);
    EncodeDecode(b);
  }

  /** A packed array of 64-bit slots, slot 0 at the lowest address. */
  function Pack(ws: seq<u64>): (r: seq<byte>)
    ensures |r| == 8 * |ws|
  {
    if ws == [] then [] else Pack(ws[..|ws| - 1]) + Encode64(ws[|ws| - 1])
  }

  /** Slot `k` of a memory region read as a packed array of 64-bit words. */
  function Slot(s: seq<byte>, k: nat): u64
    requires 8 * k + 8 <= |s|
  {
    Decode64(s[8 * k..8 * k + 8])
  }

  /** The first `n` slots of a memory region. */
  function Slots(s: seq<byte>, n: nat): seq<u64>
    requires 8 * n <= |s|
  {
    seq(n, k requires 0 <= k < n => Slot(s, k))
  }

  lemma {:induction false} PackAt(ws: seq<u64>, k: nat)
    requires k < |ws|
    ensures Pack(ws)[8 * k..8 * k + 8] == Encode64(ws[k])
  {
    var front := ws[..|ws| - 1];
    assert Pack(ws) == Pack(front) + Encode64(ws[|ws| - 1]);
    if k < |ws| - 1 {
      PackAt(front, k);
      assert Pack(ws)[8 * k..8 * k + 8] == Pack(front)[8 * k..8 * k + 8];
    }
  }

  lemma PackSliceAt(ws: seq<u64>, rest: seq<byte>, k: nat)
    requires k < |ws|
    ensures 8 * k + 8 <= |Pack(ws) + rest|
    ensures (Pack(ws) + rest)[8 * k..8 * k + 8] == Encode64(ws[k])
  {
    var p := Pack(ws);
    assert (p + rest)[8 * k..8 * k + 8] == p[8 * k..8 * k + 8];
    PackAt(ws, k);
  }

  lemma SlotOfPack(ws: seq<u64>, rest: seq<byte>, k: nat)
    requires k < |ws|
    ensures Slot(Pack(ws) + rest, k) == ws[k]
  {
    PackSliceAt(ws, rest, k);
    Word64RoundTrip(ws[k], Encode64(ws[k]));
  }

  /** Reading the slots back out of a packed array gives the words packed. */
  lemma SlotsOfPack(ws: seq<u64>, rest: seq<byte>)
    ensures Slots(Pack(ws) + rest, |ws|) == ws
  {
    var r := Slots(Pack(ws) + rest, |ws|);
    forall k | 0 <= k < |ws|
      ensures r[k] == ws[k]
    {
      SlotOfPack(ws, rest, k);
    }
  }

  lemma SlotsPrefix(s: seq<byte>, n: nat)
    requires 0 < n && 8 * n <= |s|
    ensures Slots(s, n)[..n - 1] == Slots(s, n - 1)
    ensures Slots(s, n)[n - 1] == Slot(s, n - 1)
  {
  }

  /** Packing the slots of a region gives back the region's first bytes. */
  lemma {:induction false} PackOfSlots(s: seq<byte>, n: nat)
    requires 8 * n <= |s|
    ensures Pack(Slots(s, n)) == s[..8 * n]
  {
    if n > 0 {
      var ws := Slots(s, n);
      var w := s[8 * (n - 1)..8 * n];
      SlotsPrefix(s, n);
      assert Pack(ws) == Pack(Slots(s, n - 1)) + Encode64(Slot(s, n - 1));
      PackOfSlots(s, n - 1);
      Word64RoundTrip(0, w);
      assert Encode64(Slot(s, n - 1)) == w;
      assert s[..8 * n] == s[..8 * (n - 1)] + w;
    }
  }
}
