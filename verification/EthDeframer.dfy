/** synth/network/eth_deframer.sv: the header tagger for 14-byte headers on a four-byte stream, and the
    fields of the header it shows. */
module EthDeframer {
  import opened ByteStream
  import EthFramer
  import Tagger = AxisHeaderTagger

  const BYTES := 4
  const HEADER_BYTES := 14
  const TAGGER := Tagger.Params(BYTES, HEADER_BYTES, 4, true)

  lemma TaggerIsBuilt()
    ensures TAGGER == Tagger.Built(BYTES, HEADER_BYTES, true) == Tagger.Wanted(BYTES, HEADER_BYTES, true)
  {
  }

  datatype Fields = Fields(dst: seq<byte>, src: seq<byte>, ethertype: nat)

  /** The 16-bit vector in two byte lanes, lowest first. */
  function Vector2(lanes: seq<byte>): (v: nat)
    requires |lanes| == 2
    ensures v < 0x1_0000
  {
    var low: int, high: int := lanes[0], lanes[1];
    high * 0x100 + low
  }

  function Deframed(header: seq<byte>): Fields
    requires |header| == HEADER_BYTES
  {
    Fields(header[..6], header[6..12], EthFramer.ByteSwap2(Vector2(header[12..14])))
  }

  /** The field extraction undoes the framer's layout, and the ethertype travels high byte first. */
  lemma DeframedHeader(p: EthFramer.Packet)
    requires |p.dst| == 6 && |p.src| == 6 && p.ethertype < 0x1_0000
    ensures Deframed(p.Header()) == Fields(p.dst, p.src, p.ethertype)
    ensures p.Header()[12] == p.ethertype / 0x100 && p.Header()[13] == p.ethertype % 0x100
  {
    var swapped := EthFramer.ByteSwap2(p.ethertype);
    var lanes := EthFramer.Lanes2(swapped);
    assert p.Header()[..6] == p.dst && p.Header()[6..12] == p.src && p.Header()[12..14] == lanes;
    SwapTwice(p.ethertype);
    assert Vector2(lanes) == swapped;
  }

  lemma SwapTwice(v: nat)
    requires v < 0x1_0000
    ensures EthFramer.ByteSwap2(v) / 0x100 == v % 0x100 && EthFramer.ByteSwap2(v) % 0x100 == v / 0x100
    ensures EthFramer.ByteSwap2(EthFramer.ByteSwap2(v)) == v
  {
    var high, low := v / 0x100, v % 0x100;
    assert v == high * 0x100 + low;
    assert EthFramer.ByteSwap2(v) == low * 0x100 + high;
  }
}
