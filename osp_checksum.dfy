/** computeCheckSum of OSPCommon.cpp: a debugging checksum over a memory area,
    the sum of its whole 8-byte words weighted by their index plus 13. The
    accumulator is a 64-bit `long`; the result is returned as its bit
    pattern (a pointer). Signed overflow of the accumulator is undefined in
    C++; the model takes two's-complement wrap-around, so all arithmetic here
    is modulo 2^64, where signed and unsigned wrap-around agree. */
module CheckSum {
  import opened Bytes

  /** Σ (i + 13) · ws[i] over the integers. */
  function Weighted(ws: seq<u64>): int {
    if ws == [] then 0 else Weighted(ws[..|ws| - 1]) + (|ws| - 1 + 13) * ws[|ws| - 1]
  }

  /** The checksum of an area: its whole words, weighted, wrapped to 64 bits. */
  function CheckSumOf(mem: seq<byte>): u64 {
    Weighted(Slots(mem, |mem| / 8)) % TWO_64
  }

  lemma ModAdd(a: int, b: int)
    ensures (a % TWO_64 + b) % TWO_64 == (a + b) % TWO_64
  {
    var q := a / TWO_64;
    assert a == q * TWO_64 + a % TWO_64;
  }

  /** One more word adds its weighted value to the 64-bit sum. */
  lemma WeightedStep(mem: seq<byte>, i: nat, term: int)
    requires 8 * i + 8 <= |mem|
    requires term == (i + 13) * Slot(mem, i)
    ensures Weighted(Slots(mem, i + 1)) % TWO_64 == (Weighted(Slots(mem, i)) % TWO_64 + term) % TWO_64
  {
    SlotsPrefix(mem, i + 1);
    assert Weighted(Slots(mem, i + 1)) == Weighted(Slots(mem, i)) + term;
    ModAdd(Weighted(Slots(mem, i)), term);
  }

  /** The loop of computeCheckSum: `mem` walks the area one word at a time up
      to the last whole word, and `sum` accumulates (i + 13) * *mem. */
  method ComputeCheckSum(mem: seq<byte>) returns (sum: u64)
    ensures sum == CheckSumOf(mem)
  {
    var numBytes := |mem|;
    var end := numBytes - numBytes % 8;
    var off: nat := 0;
    var i: nat := 0;
    sum := 0;
    while off < end
      invariant off == 8 * i && off <= end && end == 8 * (numBytes / 8)
      invariant sum == Weighted(Slots(mem, i)) % TWO_64
    {
      var word := Decode64(mem[off..off + 8]);
      assert word == Slot(mem, i);
      var term: int := (i + 13) * word;
      WeightedStep(mem, i, term);
      sum := (sum + term) % TWO_64;
      i := i + 1;
      off := off + 8;
    }
  }

  /** An area made of whole words `ws` followed by fewer than eight trailing
      bytes has the weighted sum of exactly those words as its checksum. */
  lemma CheckSumOfWords(ws: seq<u64>, tail: seq<byte>)
    requires |tail| < 8
    ensures CheckSumOf(Pack(ws) + tail) == Weighted(ws) % TWO_64
  {
    assert |Pack(ws) + tail| / 8 == |ws|;
    SlotsOfPack(ws, tail);
  }

  /** The trailing numBytes % 8 bytes never affect the checksum: two areas
      with the same whole words have the same checksum. */
  lemma TrailingBytesIgnored(a: seq<byte>, b: seq<byte>)
    requires |a| / 8 == |b| / 8
    requires a[..8 * (|a| / 8)] == b[..8 * (|b| / 8)]
    ensures CheckSumOf(a) == CheckSumOf(b)
  {
    var n := |a| / 8;
    PackOfSlots(a, n);
    PackOfSlots(b, n);
    SlotsOfPack(Slots(a, n), []);
    SlotsOfPack(Slots(b, n), []);
    assert Pack(Slots(a, n)) + [] == Pack(Slots(b, n)) + [];
  }
}
