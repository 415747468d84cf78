/** The word layout of synth/network/ip_header_gen.sv, and the order in which the words are fed to the
    checksum. A vector is written as its byte lanes, lowest first, which is the order of the bytes on
    the stream. */
module IpHeader {
  import opened ByteStream
  import opened IpChecksum

  datatype Request = Request(src: seq<byte>, dst: seq<byte>, length: Half, protocol: byte) {
    predicate Ok() { |src| == 4 && |dst| == 4 }
  }

  function Swap(lanes: seq<byte>): (r: seq<byte>)
    ensures |r| == |lanes| && forall k :: 0 <= k < |r| ==> r[k] == lanes[|lanes| - 1 - k]
  {
    seq(|lanes|, k requires 0 <= k < |lanes| => lanes[|lanes| - 1 - k])
  }

  function Vector16(v: Half): (lanes: seq<byte>)
    ensures |lanes| == 2
  {
    [v % 0x100, v / 0x100]
  }

  function Word0(r: Request): (w: seq<byte>)
    ensures |w| == 4
  {
    [0x45, 0] + Swap(Vector16((r.length + 20) % 0x1_0000))
  }

  const WORD_1: seq<byte> := [0, 0, 0x40, 0]

  function Word2Lower(r: Request): (w: seq<byte>)
    ensures |w| == 2
  {
    [0xFF, r.protocol]
  }

  /** The header as it leaves: output words 0 to 4. */
  function Header(r: Request, csum: Half): (bytes: seq<byte>)
    requires r.Ok()
    ensures |bytes| == 20
  {
    Word0(r) + WORD_1 + (Word2Lower(r) + Swap(Vector16(csum))) + Swap(r.src) + Swap(r.dst)
  }

  // ---------- As a receiver reads it ----------

  /** Bytes as one number, first byte highest. */
  function Number(bytes: seq<byte>): nat {
    if bytes == [] then 0 else Number(bytes[..|bytes| - 1]) * 0x100 + bytes[|bytes| - 1]
  }

  /** The value of a vector given by its lanes. */
  function VectorValue(lanes: seq<byte>): nat {
    if lanes == [] then 0 else lanes[0] + 0x100 * VectorValue(lanes[1..])
  }

  lemma {:induction false} SwapReads(lanes: seq<byte>)
    ensures Number(Swap(lanes)) == VectorValue(lanes)
    decreases |lanes|
  {
    if lanes != [] {
      SwapReads(lanes[1..]);
      assert Swap(lanes)[..|lanes| - 1] == Swap(lanes[1..]);
    }
  }

  /** The fields of a header without options, section 3.1 of RFC 791. */
  datatype Fields = Fields(
    version: nat, headerWords: nat, service: nat, totalLength: nat,
    identification: nat, flags: nat, fragmentOffset: nat,
    timeToLive: nat, protocol: nat, checksum: nat,
    source: nat, destination: nat)

  function ReadHeader(b: seq<byte>): Fields
    requires |b| == 20
  {
    Fields(b[0] / 16, b[0] % 16, b[1], Number(b[2..4]),
      Number(b[4..6]), b[6] / 32, Number([b[6] % 32, b[7]]),
      b[8], b[9], Number(b[10..12]),
      Number(b[12..16]), Number(b[16..20]))
  }

  /** A receiver reads what the request asked for: version 4, five words, the payload's length and twenty,
      don't fragment, as long to live as can be, and both addresses in their places. */
  lemma HeaderReads(r: Request, csum: Half)
    requires r.Ok()
    ensures ReadHeader(Header(r, csum))
         == Fields(4, 5, 0, (r.length + 20) % 0x1_0000, 0, 2, 0, 255, r.protocol, csum,
              VectorValue(r.src), VectorValue(r.dst))
  {
    var b := Header(r, csum);
    var total := Vector16((r.length + 20) % 0x1_0000);
    assert b[2..4] == Swap(total) && b[10..12] == Swap(Vector16(csum));
    assert b[12..16] == Swap(r.src) && b[16..20] == Swap(r.dst);
    SwapReads(total);
    SwapReads(Vector16(csum));
    SwapReads(r.src);
    SwapReads(r.dst);
    PairValue((r.length + 20) % 0x1_0000);
    PairValue(csum);
    assert b[4..6] == [0, 0] && [0, 0][..1] == [0];
    assert Number([0, 0]) == 0;
  }

  lemma PairValue(v: Half)
    ensures VectorValue(Vector16(v)) == v
  {
    var lanes := Vector16(v);
    assert lanes[1..] == [lanes[1]] && [lanes[1]][1..] == [];
    assert VectorValue(lanes[1..]) == lanes[1];
  }

  // ---------- What is fed to the checksum ----------

  /** One word as the checksum gets it, each half swapped. */
  function Fed(lanes: seq<byte>): seq<byte>
    requires |lanes| == 4
  {
    Swap(lanes[..2]) + Swap(lanes[2..])
  }

  /** The words fed, in order: addresses first. */
  function FedWords(r: Request): (ws: seq<seq<byte>>)
    requires r.Ok()
    ensures |ws| == 5 && forall k :: 0 <= k < 5 ==> |ws[k]| == 4
  {
    [Fed(Swap(r.src)), Fed(Swap(r.dst)), Fed(Word0(r)), Fed(WORD_1), Swap(Word2Lower(r)) + [0, 0]]
  }

  /** The 16-bit parts of a fed word, all bytes kept. */
  function FedHalves(lanes: seq<byte>): seq<Half>
    requires |lanes| == 4
  {
    var w := Word(lanes, [true, true, true, true], false);
    [Lanes16(w, 0), Lanes16(w, 2)]
  }

  /** What the checksum sees of a request. */
  function FedParts(r: Request): seq<Part>
    requires r.Ok()
  {
    seq(5, k requires 0 <= k < 5 => Part(FedHalves(FedWords(r)[k]), k == 4))
  }

  function AllFed(r: Request): seq<Half>
    requires r.Ok()
  {
    var w := FedWords(r);
    FedHalves(w[0]) + FedHalves(w[1]) + FedHalves(w[2]) + FedHalves(w[3]) + FedHalves(w[4])
  }

  /** Bytes as 16-bit words in network order, high byte first. */
  function Network(bytes: seq<byte>): seq<Half>
    requires |bytes| % 2 == 0
  {
    if bytes == [] then [] else [BigEndian(bytes[0], bytes[1])] + Network(bytes[2..])
  }

  function BigEndian(high: byte, low: byte): Half {
    var h: int, l: int := high, low;
    h * 0x100 + l
  }

  lemma {:induction false} NetworkAppend(a: seq<byte>, b: seq<byte>)
    requires |a| % 2 == 0 && |b| % 2 == 0
    ensures Network(a + b) == Network(a) + Network(b)
    decreases |a|
  {
    if a == [] {
      assert a + b == b;
    } else {
      assert (a + b)[2..] == a[2..] + b;
      NetworkAppend(a[2..], b);
    }
  }

  lemma NetworkPair(b: seq<byte>)
    requires |b| == 2
    ensures Network(b) == [BigEndian(b[0], b[1])]
  {
    assert b[2..] == [];
  }

  lemma NetworkWord(b: seq<byte>)
    requires |b| == 4
    ensures Network(b) == [BigEndian(b[0], b[1]), BigEndian(b[2], b[3])]
  {
    assert b == b[..2] + b[2..];
    NetworkAppend(b[..2], b[2..]);
    NetworkPair(b[..2]);
    NetworkPair(b[2..]);
  }

  /** Feeding a word is reading it in network order. */
  lemma FedIsNetwork(lanes: seq<byte>)
    requires |lanes| == 4
    ensures FedHalves(Fed(lanes)) == Network(lanes)
  {
    NetworkWord(lanes);
  }

  lemma TotalOne(a: Half)
    ensures Total([a]) == a
  {
    assert [a][..0] == [];
  }

  lemma {:induction false} NetworkTotal(a: seq<byte>, b: seq<byte>)
    requires |a| % 2 == 0 && |b| % 2 == 0
    ensures Total(Network(a + b)) == Total(Network(a)) + Total(Network(b))
  {
    NetworkAppend(a, b);
    TotalAppend(Network(a), Network(b));
  }

  lemma HeaderTotal(r: Request, csum: Half)
    requires r.Ok()
    ensures |Header(r, csum)| == 20
    ensures Total(Network(Header(r, csum)))
         == Total(Network(Word0(r))) + Total(Network(WORD_1)) + Total(Network(Word2Lower(r))) + csum
          + Total(Network(Swap(r.src))) + Total(Network(Swap(r.dst)))
  {
    var sum := Swap(Vector16(csum));
    NetworkPair(sum);
    TotalOne(csum);
    assert Network(sum) == [csum];
    NetworkTotal(Word2Lower(r), sum);
    NetworkTotal(Word0(r), WORD_1);
    NetworkTotal(Word0(r) + WORD_1, Word2Lower(r) + sum);
    NetworkTotal(Word0(r) + WORD_1 + (Word2Lower(r) + sum), Swap(r.src));
    NetworkTotal(Word0(r) + WORD_1 + (Word2Lower(r) + sum) + Swap(r.src), Swap(r.dst));
  }

  lemma LastFed(r: Request)
    requires r.Ok()
    ensures Total(FedHalves(FedWords(r)[4])) == Total(Network(Word2Lower(r)))
  {
    var halves := FedHalves(FedWords(r)[4]);
    NetworkPair(Word2Lower(r));
    assert halves == Network(Word2Lower(r)) + [0];
    TotalAppend(Network(Word2Lower(r)), [0]);
    TotalOne(0);
  }

  lemma FedTotal(r: Request)
    requires r.Ok()
    ensures Total(AllFed(r))
         == Total(Network(Word0(r))) + Total(Network(WORD_1)) + Total(Network(Word2Lower(r)))
          + Total(Network(Swap(r.src))) + Total(Network(Swap(r.dst)))
  {
    var w := FedWords(r);
    FedIsNetwork(Swap(r.src));
    FedIsNetwork(Swap(r.dst));
    FedIsNetwork(Word0(r));
    FedIsNetwork(WORD_1);
    LastFed(r);
    var a, b, c, d := FedHalves(w[0]), FedHalves(w[1]), FedHalves(w[2]), FedHalves(w[3]);
    TotalAppend(a, b);
    TotalAppend(a + b, c);
    TotalAppend(a + b + c, d);
    TotalAppend(a + b + c + d, FedHalves(w[4]));
  }

  /** Whatever the addresses, length and protocol: a header carrying the checksum of the words fed has
      the one's complement sum 0xFFFF that a receiver expects. */
  lemma HeaderSumsToOnes(r: Request)
    requires r.Ok()
    ensures OnesSum(Network(Header(r, Checksum(AllFed(r))))) == 0xFFFF
  {
    HeaderTotal(r, Checksum(AllFed(r)));
    FedTotal(r);
    ChecksumCompletes(AllFed(r), Network(Header(r, Checksum(AllFed(r)))));
  }

  lemma FedChecksum(r: Request)
    requires r.Ok()
    ensures Checksums([], FedParts(r)) == [Checksum(AllFed(r))]
  {
    var ps, w := FedParts(r), FedWords(r);
    var h0, h1, h2, h3, h4 := FedHalves(w[0]), FedHalves(w[1]), FedHalves(w[2]), FedHalves(w[3]), FedHalves(w[4]);
    assert [] + h0 == h0;
    assert Checksums([], ps) == Checksums(h0, ps[1..]);
    assert Checksums(h0, ps[1..]) == Checksums(h0 + h1, ps[1..][1..]);
    assert ps[1..][1..] == ps[2..];
    assert Checksums(h0 + h1, ps[2..]) == Checksums(h0 + h1 + h2, ps[2..][1..]);
    assert ps[2..][1..] == ps[3..];
    assert Checksums(h0 + h1 + h2, ps[3..]) == Checksums(h0 + h1 + h2 + h3, ps[3..][1..]);
    assert ps[3..][1..] == ps[4..];
    assert ps[4..][1..] == [];
    assert Checksums(h0 + h1 + h2 + h3, ps[4..]) == [Checksum(AllFed(r))];
  }

  /** The words fed once, whatever the timing: the result, if it is taken, completes the header. When the
      generator feeds them more than once is the subject of IpHeaderGen. */
  lemma GeneratedHeaderChecks(r: Request, xs: seq<Input4>)
    requires r.Ok() && Accepted4(RESET4, xs) == FedParts(r) && Results4(RESET4, xs) != []
    ensures OnesSum(Network(Header(r, Results4(RESET4, xs)[0]))) == 0xFFFF
  {
    hide Packets, Checksums, Shown, Verdicts, Run4, Results4, Accepted4, Header, AllFed, FedParts;
    FedChecksum(r);
    HeaderSumsToOnes(r);
    FromReset(xs);
    ChecksumsOfPackets([], FedParts(r));
    var packets, taken := Packets([], FedParts(r)), Verdicts(RESET4, xs);
    OneShown(packets, taken);
    assert (Results4(RESET4, xs) + Waiting4(Run4(RESET4, xs)))[0] == Results4(RESET4, xs)[0];
  }

  lemma OneShown(packets: seq<seq<Half>>, taken: seq<bool>)
    requires |packets| == |taken| == 1 && Shown([], packets, taken) != []
    ensures Shown([], packets, taken)[0] == Checksum(packets[0])
  {
    hide Counted, Checksum;
    CountedOne(packets[0]);
  }
}
