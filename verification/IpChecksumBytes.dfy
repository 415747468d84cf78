/** synth/network/ip_checksum.sv in terms of the bytes of the packets: which lanes count, and what the
    order of the bytes in a 16-bit word has to do with the result. */
module IpChecksumBytes {
  import opened ByteStream
  import opened IpChecksum
  import opened IpHeader

  /** Bytes as 16-bit words, low byte first, an odd last byte padded with zero. */
  function Halves(bytes: seq<byte>): seq<Half> {
    if bytes == [] then []
    else if |bytes| == 1 then [BigEndian(0, bytes[0])]
    else [BigEndian(bytes[1], bytes[0])] + Halves(bytes[2..])
  }

  lemma {:induction false} HalvesAppend(a: seq<byte>, b: seq<byte>)
    requires |a| % 2 == 0
    ensures Halves(a + b) == Halves(a) + Halves(b)
    decreases |a|
  {
    if a == [] {
      assert a + b == b;
    } else {
      assert (a + b)[2..] == a[2..] + b;
      HalvesAppend(a[2..], b);
    }
  }

  // ---------- The words of a packet ----------

  function KeptOf(w: Word): seq<byte>
    requires |w.data| == |w.keep|
  {
    Kept(w.data, w.keep)
  }

  /** Kept bytes at the bottom, and no half of a 16-bit word but at a packet's end. */
  predicate Aligned(n: nat, w: Word) {
    && w.Lanes(n) && Packed(w.keep, |KeptOf(w)|)
    && (w.last || |KeptOf(w)| % 2 == 0)
  }

  predicate AllAligned(n: nat, ws: seq<Word>) {
    forall k :: 0 <= k < |ws| ==> Aligned(n, ws[k])
  }

  /** What the accumulators are given of a word. */
  function PartOf(n: nat, w: Word): Part
    requires (n == 2 || n == 4) && w.Lanes(n)
  {
    Part(if n == 2 then [Lanes16(w, 0)] else [Lanes16(w, 0), Lanes16(w, 2)], w.last)
  }

  function Parts(n: nat, ws: seq<Word>): (ps: seq<Part>)
    requires (n == 2 || n == 4) && AllLanes(n, ws)
    ensures |ps| == |ws|
  {
    seq(|ws|, k requires 0 <= k < |ws| => PartOf(n, ws[k]))
  }

  /** The kept bytes of every packet completed, `open` being those of the packet under way. */
  function PacketBytes(open: seq<byte>, ws: seq<Word>): seq<seq<byte>>
    requires forall k :: 0 <= k < |ws| ==> |ws[k].data| == |ws[k].keep|
    decreases |ws|
  {
    if ws == [] then []
    else if ws[0].last then [open + KeptOf(ws[0])] + PacketBytes([], ws[1..])
    else PacketBytes(open + KeptOf(ws[0]), ws[1..])
  }

  function ByteChecksums(packets: seq<seq<byte>>): seq<Half> {
    if packets == [] then [] else [Checksum(Halves(packets[0]))] + ByteChecksums(packets[1..])
  }

  lemma TotalPair(a: Half, b: Half)
    ensures Total([a]) == a && Total([a, b]) == a + b
  {
    assert [a][..0] == [] && [a, b][..1] == [a];
  }

  /** An unkept lane counts as zero, and so as nothing. */
  lemma WordCounts(n: nat, w: Word)
    requires (n == 2 || n == 4) && Aligned(n, w)
    ensures Total(PartOf(n, w).halves) == Total(Halves(KeptOf(w)))
  {
    hide Total, Halves;
    var c := |KeptOf(w)|;
    KeptPacked(w.data, w.keep, c);
    assert forall k :: 0 <= k < |w.keep| ==> w.keep[k] == (k < c);
    TotalPair(Lanes16(w, 0), if n == 2 then 0 else Lanes16(w, 2));
    ShortTotal(w.data[..c]);
  }

  lemma ShortTotal(bytes: seq<byte>)
    requires |bytes| <= 4
    ensures var b := bytes + [0, 0, 0, 0]; Total(Halves(bytes)) == BigEndian(b[1], b[0]) + BigEndian(b[3], b[2])
  {
    hide Total;
    NoTotals();
    if |bytes| > 2 {
      var more := BigEndian(if |bytes| == 4 then bytes[3] else 0, bytes[2]);
      assert |bytes| == 4 ==> bytes[2..][2..] == [];
      assert Halves(bytes[2..]) == [more];
      assert Halves(bytes) == [BigEndian(bytes[1], bytes[0]), more];
      TotalPair(BigEndian(bytes[1], bytes[0]), more);
    } else if |bytes| == 2 {
      assert bytes[2..] == [];
      assert Halves(bytes) == [BigEndian(bytes[1], bytes[0])];
      TotalPair(BigEndian(bytes[1], bytes[0]), 0);
    } else if |bytes| == 1 {
      TotalPair(BigEndian(0, bytes[0]), 0);
    }
  }

  lemma NoTotals()
    ensures Total([]) == 0 && Halves([]) == []
  {
  }

  lemma WordGrows(n: nat, halves: seq<Half>, open: seq<byte>, w: Word)
    requires (n == 2 || n == 4) && Aligned(n, w)
    requires |open| % 2 == 0 && Total(halves) == Total(Halves(open))
    ensures Total(halves + PartOf(n, w).halves) == Total(Halves(open + KeptOf(w)))
  {
    hide Total, PartOf, Halves;
    WordCounts(n, w);
    HalvesAppend(open, KeptOf(w));
    TotalAppend(halves, PartOf(n, w).halves);
    TotalAppend(Halves(open), Halves(KeptOf(w)));
  }

  /** The checksums of the words the accumulators are given are those of the packets' bytes. */
  lemma {:induction false} ChecksumsAreOfBytes(n: nat, halves: seq<Half>, open: seq<byte>, ws: seq<Word>)
    requires (n == 2 || n == 4) && AllAligned(n, ws)
    requires |open| % 2 == 0 && Total(halves) == Total(Halves(open))
    ensures AllLanes(n, ws) && Checksums(halves, Parts(n, ws)) == ByteChecksums(PacketBytes(open, ws))
    decreases |ws|
  {
    hide Total, Halves, OnesSum;
    if ws != [] {
      var w := ws[0];
      WordGrows(n, halves, open, w);
      assert Parts(n, ws)[1..] == Parts(n, ws[1..]);
      if w.last {
        NoTotals();
        ChecksumsAreOfBytes(n, [], [], ws[1..]);
        SameTotalSameSum(halves + PartOf(n, w).halves, Halves(open + KeptOf(w)));
      } else {
        ChecksumsAreOfBytes(n, halves + PartOf(n, w).halves, open + KeptOf(w), ws[1..]);
      }
    }
  }

  // ---------- Whole runs ----------

  /** What is driven in a cycle; `i` is what the data lines carry, valid or not. */
  datatype Cycle = Cycle(iTvalid: bool, i: Word, oTready: bool)

  predicate Lined(n: nat, xs: seq<Cycle>) {
    forall k :: 0 <= k < |xs| ==> xs[k].i.Lanes(n)
  }

  function Inputs2(xs: seq<Cycle>): (ys: seq<Input2>)
    requires Lined(2, xs)
    ensures |ys| == |xs|
  {
    seq(|xs|, k requires 0 <= k < |xs| => Lines2(xs[k].iTvalid, xs[k].i, xs[k].oTready))
  }

  function Inputs4(xs: seq<Cycle>): (ys: seq<Input4>)
    requires Lined(4, xs)
    ensures |ys| == |xs|
  {
    seq(|xs|, k requires 0 <= k < |xs| => Lines4(xs[k].iTvalid, xs[k].i, xs[k].oTready))
  }

  function WordsTaken2(s: Acc2, xs: seq<Cycle>): (ws: seq<Word>)
    requires s.acc < 0x2_0000 && Lined(2, xs)
    ensures AllLanes(2, ws)
    decreases |xs|
  {
    if xs == [] then [] else
      var y := Lines2(xs[0].iTvalid, xs[0].i, xs[0].oTready);
      (if Takes2(s, y) then [xs[0].i] else []) + WordsTaken2(Next2(s, y), xs[1..])
  }

  function WordsTaken4(s: Acc4, xs: seq<Cycle>): (ws: seq<Word>)
    requires s.Ok() && Lined(4, xs)
    ensures AllLanes(4, ws)
    decreases |xs|
  {
    if xs == [] then [] else
      var y := Lines4(xs[0].iTvalid, xs[0].i, xs[0].oTready);
      (if Takes4(s, y) then [xs[0].i] else []) + WordsTaken4(Next4(s, y), xs[1..])
  }

  lemma {:induction false} PartsTaken2(s: Acc2, xs: seq<Cycle>)
    requires s.acc < 0x2_0000 && Lined(2, xs)
    ensures Accepted2(s, Inputs2(xs)) == Parts(2, WordsTaken2(s, xs))
    decreases |xs|
  {
    hide Lanes16, Accumulate;
    if xs != [] {
      assert Inputs2(xs)[1..] == Inputs2(xs[1..]);
      PartsTaken2(Next2(s, Inputs2(xs)[0]), xs[1..]);
    }
  }

  lemma {:induction false} PartsTaken4(s: Acc4, xs: seq<Cycle>)
    requires s.Ok() && Lined(4, xs)
    ensures Accepted4(s, Inputs4(xs)) == Parts(4, WordsTaken4(s, xs))
    decreases |xs|
  {
    hide Lanes16, Next4;
    if xs != [] {
      assert Inputs4(xs)[1..] == Inputs4(xs[1..]);
      PartsTaken4(Next4(s, Inputs4(xs)[0]), xs[1..]);
    }
  }

  const RESET2 := Acc2(0, false)

  /** Two bytes wide, any run from reset and any back-pressure: the results taken, then the one waiting,
      are the checksums of the kept bytes of the packets accepted, in order. */
  lemma BytesAreSummed2(xs: seq<Cycle>)
    requires Lined(2, xs) && AllAligned(2, WordsTaken2(RESET2, xs))
    ensures Results2(RESET2, Inputs2(xs)) + Waiting2(Run2(RESET2, Inputs2(xs)))
         == ByteChecksums(PacketBytes([], WordsTaken2(RESET2, xs)))
  {
    hide Inputs2, WordsTaken2, Accepted2, Results2, Run2, Checksums, Aligned, PacketBytes, ByteChecksums, Parts;
    NoTotals();
    PartsTaken2(RESET2, xs);
    ChecksumsAreOfBytes(2, [], [], WordsTaken2(RESET2, xs));
    ResultsAreChecksums2(RESET2, [], Inputs2(xs));
  }

  /** Four bytes wide: the same if and only if every result is taken in the cycle it is presented. */
  lemma BytesAreSummed4Iff(xs: seq<Cycle>)
    requires Lined(4, xs) && AllAligned(4, WordsTaken4(RESET4, xs))
    ensures var r := Run4(RESET4, Inputs4(xs));
      && r.acc <= ACC_MAX && r.accH <= ACC_MAX
      && (NeverMissed(RESET4, Inputs4(xs))
          <==> ByteChecksums(PacketBytes([], WordsTaken4(RESET4, xs))) == Results4(RESET4, Inputs4(xs)) + Waiting4(r))
  {
    hide Inputs4, WordsTaken4, Accepted4, Results4, Run4, Checksums, Aligned, PacketBytes, ByteChecksums, Parts,
      NeverMissed, Waiting4;
    NoTotals();
    PartsTaken4(RESET4, xs);
    ChecksumsAreOfBytes(4, [], [], WordsTaken4(RESET4, xs));
    ResultsAreChecksums4Iff(Inputs4(xs));
  }

  // ---------- The order of the bytes ----------

  function Flip(v: Half): Half { v % 0x100 * 0x100 + v / 0x100 }

  function Padded(bytes: seq<byte>): (p: seq<byte>)
    ensures |p| % 2 == 0
  {
    if |bytes| % 2 == 0 then bytes else bytes + [0]
  }

  lemma {:induction false} TotalFirst(w: Half, ws: seq<Half>)
    ensures Total([w] + ws) == w + Total(ws)
  {
    TotalAppend([w], ws);
    TotalPair(w, 0);
  }

  /** Shifting a carry in from the top is multiplying modulo 65535, so low byte first adds up to 256 times
      what high byte first does. */
  lemma {:induction false} OtherOrderTotal(bytes: seq<byte>)
    ensures exists k: int :: 0x100 * Total(Network(Padded(bytes))) == Total(Halves(bytes)) + 0xFFFF * k
    ensures Total(Network(Padded(bytes))) == 0 <==> Total(Halves(bytes)) == 0
    decreases |bytes|
  {
    hide Total;
    NoTotals();
    if bytes == [] {
      assert 0x100 * Total(Network(Padded(bytes))) == Total(Halves(bytes)) + 0xFFFF * 0;
    } else {
      var a, b := bytes[0], if |bytes| == 1 then 0 else bytes[1];
      var rest := if |bytes| == 1 then [] else bytes[2..];
      OtherOrderTotal(rest);
      assert Padded(bytes) == [a, b] + Padded(rest);
      assert Padded(bytes)[2..] == Padded(rest);
      TotalFirst(BigEndian(a, b), Network(Padded(rest)));
      TotalFirst(BigEndian(b, a), Halves(rest));
      assert Halves(bytes) == [BigEndian(b, a)] + Halves(rest);
      var k: int :| 0x100 * Total(Network(Padded(rest))) == Total(Halves(rest)) + 0xFFFF * k;
      assert 0x100 * Total(Network(Padded(bytes))) == Total(Halves(bytes)) + 0xFFFF * (k + a);
    }
  }

  lemma FlipIsShift(sum: Half, other: Half, total: nat, otherTotal: nat, k: int)
    requires sum % 0xFFFF == total % 0xFFFF && other % 0xFFFF == otherTotal % 0xFFFF
    requires 0x100 * otherTotal == total + 0xFFFF * k
    requires sum == 0 <==> other == 0
    ensures sum == Flip(other)
  {
    var i, j := total / 0xFFFF - sum / 0xFFFF, otherTotal / 0xFFFF - other / 0xFFFF;
    assert total == sum + 0xFFFF * i && otherTotal == other + 0xFFFF * j;
    var high, low := other / 0x100, other % 0x100;
    assert 0x100 * other == Flip(other) + 0xFFFF * high;
    var d := high + 0x100 * j - k - i;
    assert sum - Flip(other) == 0xFFFF * d;
    assert Flip(other) == 0 <==> other == 0;
  }

  /** Section 2 (B) of RFC 1071: summing low byte first gives the checksum of the bytes in network order,
      with its own bytes exchanged, so that it is in network order again when its low byte is sent first. */
  lemma ByteOrderDoesNotMatter(bytes: seq<byte>)
    ensures Checksum(Halves(bytes)) == Flip(Checksum(Network(Padded(bytes))))
  {
    hide OnesSum, Total, Halves, Network, Flip;
    var own, other := Halves(bytes), Network(Padded(bytes));
    SumIsResidue(own);
    SumIsResidue(other);
    OtherOrderTotal(bytes);
    var k :| 0x100 * Total(other) == Total(own) + 0xFFFF * k;
    FlipIsShift(OnesSum(own), OnesSum(other), Total(own), Total(other), k);
    FlipComplement(OnesSum(other));
  }

  lemma FlipComplement(v: Half)
    ensures 0xFFFF - Flip(v) == Flip(0xFFFF - v)
  {
  }
}
