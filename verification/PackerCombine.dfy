/** The combine stage of synth/axis/axis_packer.sv: packed partial words in, full words out, with
    what does not fit kept at the input and picked up from `input_base_index`. */
module PackerCombine {
  import opened Axis
  import opened ByteStream

  /** The output register without its null lanes, and the index of the first byte of the waiting
      input word that is not yet in it. */
  datatype Acc = Acc(bytes: seq<byte>, last: bool, base: nat) {
    predicate OTvalid(n: nat) { last || |bytes| == n }

    function Out(): Chunk { Chunk(bytes, last) }
  }

  function Min(a: nat, b: nat): nat { if a < b then a else b }

  function Spaces(n: nat, s: Acc): nat
    requires |s.bytes| <= n
  {
    if s.OTvalid(n) then n else n - |s.bytes|
  }

  predicate Able(n: nat, s: Acc, oTready: bool) {
    !s.OTvalid(n) || oTready
  }

  predicate ITready(n: nat, s: Acc, i: Chunk, oTready: bool)
    requires |s.bytes| <= n
  {
    Able(n, s, oTready) && (|i.bytes| <= Spaces(n, s) || s.base > 0)
  }

  /** A nonzero base means: the register is full and does not end a packet, and the bytes of the
      waiting word below the base are exactly its topmost bytes. */
  ghost predicate Waiting(n: nat, s: Acc, i: Option<Chunk>) {
    && |s.bytes| <= n
    && (i.Some? ==> |i.value.bytes| <= n)
    && (s.base > 0 ==>
          && |s.bytes| == n && !s.last
          && i.Some? && s.base < |i.value.bytes|
          && s.bytes[n - s.base..] == i.value.bytes[..s.base])
  }

  function CombineStep(n: nat, s: Acc, i: Option<Chunk>, oTready: bool): Acc
    requires |s.bytes| <= n
    requires i.Some? ==> s.base <= |i.value.bytes|
  {
    var leaves := s.OTvalid(n) && oTready;
    if i.Some? && Able(n, s, oTready) then
      var x := i.value;
      var fits := Min(|x.bytes|, Spaces(n, s));
      Acc(
        if leaves then x.bytes[s.base..] else s.bytes + x.bytes[..fits],
        if ITready(n, s, x, oTready) then x.last else s.last && !leaves,
        if ITready(n, s, x, oTready) then 0 else fits)
    else if leaves then Acc([], false, s.base)
    else s
  }

  /** The part of the waiting word that is not yet in the register. */
  function Rest(base: nat, i: Option<Chunk>): seq<Token>
    requires i.Some? ==> base <= |i.value.bytes|
  {
    if i.None? then [] else Chunk(i.value.bytes[base..], i.value.last).Tokens()
  }

  predicate Takes(n: nat, s: Acc, i: Option<Chunk>, oTready: bool)
    requires |s.bytes| <= n
  {
    i.Some? && ITready(n, s, i.value, oTready)
  }

  function Emits(n: nat, s: Acc, oTready: bool): seq<Chunk> {
    if s.OTvalid(n) && oTready then [s.Out()] else []
  }

  lemma CombineWaits(n: nat, s: Acc, i: Option<Chunk>, oTready: bool)
    requires n > 0 && Waiting(n, s, i)
    ensures var r := CombineStep(n, s, i, oTready);
      if Takes(n, s, i, oTready) then r.base == 0 && |r.bytes| <= n else Waiting(n, r, i)
  {
  }

  /** Topping up the register moves tokens, whole word or not. */
  lemma FillConserves(bytes: seq<byte>, x: Chunk, fits: nat)
    requires fits <= |x.bytes|
    ensures Marks(bytes) + x.Tokens() == Marks(bytes + x.bytes[..fits]) + Chunk(x.bytes[fits..], x.last).Tokens()
  {
    MarksAppend(bytes, x.bytes[..fits]);
    MarksAppend(x.bytes[..fits], x.bytes[fits..]);
    assert x.bytes == x.bytes[..fits] + x.bytes[fits..];
  }

  /** The law of one edge. */
  ghost predicate EdgeLaw(n: nat, s: Acc, i: Option<Chunk>, oTready: bool)
    requires n > 0 && Waiting(n, s, i)
  {
    var r := CombineStep(n, s, i, oTready);
    var waiting := if Takes(n, s, i, oTready) then None else i;
    && (waiting.Some? ==> r.base <= |waiting.value.bytes|)
    && s.Out().Tokens() + Rest(s.base, i)
    == ChunkStream(Emits(n, s, oTready)) + (r.Out().Tokens() + Rest(r.base, waiting))
  }

  lemma RestOfAll(i: Option<Chunk>)
    ensures i.Some? ==> Rest(0, i) == i.value.Tokens()
  {
    assert i.Some? ==> i.value.bytes[0..] == i.value.bytes;
  }

  lemma FillIs(n: nat, s: Acc, x: Chunk, oTready: bool)
    requires n > 0 && Waiting(n, s, Some(x)) && !s.OTvalid(n)
    ensures !s.last && s.base == 0 && Emits(n, s, oTready) == []
    ensures var fits := Min(|x.bytes|, n - |s.bytes|);
      && (Takes(n, s, Some(x), oTready) <==> fits == |x.bytes|)
      && CombineStep(n, s, Some(x), oTready)
      == if fits == |x.bytes| then Acc(s.bytes + x.bytes[..fits], x.last, 0)
         else Acc(s.bytes + x.bytes[..fits], false, fits)
  {
  }

  /** The register is not complete: it is topped up. */
  lemma FillEdge(n: nat, s: Acc, x: Chunk, oTready: bool)
    requires n > 0 && Waiting(n, s, Some(x)) && !s.OTvalid(n)
    ensures EdgeLaw(n, s, Some(x), oTready)
  {
    hide CombineStep, Takes, Emits, Marks, Waiting;
    FillIs(n, s, x, oTready);
    var fits := Min(|x.bytes|, n - |s.bytes|);
    RestOfAll(Some(x));
    FillConserves(s.bytes, x, fits);
    FillsTokens(s.bytes, x, fits);
  }

  /** Everything fits, or the packet's end stays behind with the rest. */
  lemma FillsTokens(bytes: seq<byte>, x: Chunk, fits: nat)
    requires fits <= |x.bytes|
    ensures fits == |x.bytes| ==>
        Chunk(bytes + x.bytes[..fits], x.last).Tokens() + [] == Marks(bytes) + x.Tokens()
    ensures Chunk(bytes, false).Tokens() == Marks(bytes)
    ensures Chunk(bytes + x.bytes[..fits], false).Tokens() == Marks(bytes + x.bytes[..fits])
  {
    MarksAppend(bytes, x.bytes);
    assert fits == |x.bytes| ==> x.bytes[..fits] == x.bytes;
  }

  /** The register leaves and what is still waiting takes its place. */
  lemma ReplaceEdge(n: nat, s: Acc, x: Chunk)
    requires n > 0 && Waiting(n, s, Some(x)) && s.OTvalid(n)
    ensures EdgeLaw(n, s, Some(x), true)
  {
    assert CombineStep(n, s, Some(x), true) == Acc(x.bytes[s.base..], x.last, 0);
    OneChunk(s.Out());
  }

  lemma OneChunk(c: Chunk)
    ensures ChunkStream([c]) == c.Tokens()
  {
    assert [c][1..] == [];
  }

  /** What was in the register and waiting, is what leaves and what is then in the register and waiting. */
  lemma CombineConserves(n: nat, s: Acc, i: Option<Chunk>, oTready: bool)
    requires n > 0 && Waiting(n, s, i)
    ensures EdgeLaw(n, s, i, oTready)
  {
    if i.Some? && !s.OTvalid(n) {
      FillEdge(n, s, i.value, oTready);
    } else if i.Some? && oTready {
      ReplaceEdge(n, s, i.value);
    } else {
      OneChunk(s.Out());
    }
  }

  /** $countones */
  function CountOnes(keep: seq<bool>): (c: nat)
    ensures c <= |keep|
  {
    if keep == [] then 0 else (if keep[0] then 1 else 0) + CountOnes(keep[1..])
  }

  lemma {:induction false} CountPacked(keep: seq<bool>, c: nat)
    requires Packed(keep, c)
    ensures CountOnes(keep) == c
    decreases |keep|
  {
    if keep != [] {
      CountPacked(keep[1..], if c == 0 then 0 else c - 1);
    }
  }

  function Flip(keep: seq<bool>): (r: seq<bool>)
    ensures |r| == |keep|
  {
    seq(|keep|, i requires 0 <= i < |keep| => !keep[i])
  }

  lemma {:induction false} CountFlip(keep: seq<bool>)
    ensures CountOnes(Flip(keep)) == |keep| - CountOnes(keep)
  {
    if keep != [] {
      assert Flip(keep)[1..] == Flip(keep[1..]);
      CountFlip(keep[1..]);
    }
  }

  class CombineStage {
    const n: nat
    var axisOTdata: seq<byte>
    var axisOTkeep: seq<bool>
    var axisOTlast: bool
    var inputBaseIndex: nat

    ghost predicate Valid()
      reads this
    {
      && n > 0 && |axisOTdata| == |axisOTkeep| == n
      && Packed(axisOTkeep, CountOnes(axisOTkeep))
    }

    ghost function View(): Acc
      requires Valid()
      reads this
    {
      Acc(axisOTdata[..CountOnes(axisOTkeep)], axisOTlast, inputBaseIndex)
    }

    constructor (n: nat)
      requires n > 0
      ensures Valid() && this.n == n
      ensures View() == Acc([], false, 0)
    {
      this.n := n;
      axisOTdata, axisOTkeep := seq(n, _ => 0), seq(n, _ => false);
      axisOTlast, inputBaseIndex := false, 0;
      new;
      CountPacked(axisOTkeep, 0);
    }

    predicate AxisOTvalid(): (v: bool)
      requires Valid()
      reads this
      ensures v == View().OTvalid(n)
    {
      axisOTlast || CountOnes(axisOTkeep) == n
    }

    /** The ready line looks at the keep lines of the input even when the input is not valid. */
    predicate AxisITready(iKeep: seq<bool>, oTready: bool): (ready: bool)
      requires Valid()
      reads this
      ensures forall i: Chunk :: |i.bytes| == CountOnes(iKeep) ==> ready == ITready(n, View(), i, oTready)
    {
      var numSpacesForWrite := if AxisOTvalid() then n else CountOnes(Flip(axisOTkeep));
      var consumed := Min(CountOnes(iKeep), numSpacesForWrite);
      CountFlip(axisOTkeep);
      (!AxisOTvalid() || (oTready && AxisOTvalid())) && (consumed == CountOnes(iKeep) || inputBaseIndex > 0)
    }

    /** The lanes' registers after the edge, lane by lane from the old ones. */
    method NextLanes(iTvalid: bool, i: Word, oTready: bool) returns (data: seq<byte>, keep: seq<bool>)
      requires Valid() && i.Lanes(n)
      requires iTvalid ==> Packed(i.keep, CountOnes(i.keep)) && inputBaseIndex <= CountOnes(i.keep)
      ensures |data| == |keep| == n && Packed(keep, CountOnes(keep))
      ensures data[..CountOnes(keep)] ==
        if iTvalid && AxisOTvalid() && oTready then i.data[inputBaseIndex..CountOnes(i.keep)]
        else if iTvalid && !AxisOTvalid() then
          View().bytes + i.data[..Min(CountOnes(i.keep), n - |View().bytes|)]
        else if AxisOTvalid() && oTready then []
        else View().bytes
    {
      hide CountOnes;
      var oTvalid, numBytesInReg, base := AxisOTvalid(), CountOnes(axisOTkeep), inputBaseIndex;
      var able := !oTvalid || oTready;
      data, keep := axisOTdata, axisOTkeep;
      ghost var incoming := CountOnes(i.keep);
      ghost var target := if iTvalid && oTvalid && oTready then i.data[base..incoming]
        else if iTvalid && !oTvalid then axisOTdata[..numBytesInReg] + i.data[..Min(incoming, n - numBytesInReg)]
        else if oTvalid && oTready then []
        else axisOTdata[..numBytesInReg];

      for lane := 0 to n
        invariant |data| == |keep| == n
        invariant forall j :: lane <= j < n ==> data[j] == axisOTdata[j] && keep[j] == axisOTkeep[j]
        invariant forall j :: 0 <= j < lane ==> keep[j] == (j < |target|)
        invariant forall j :: 0 <= j < lane && j < |target| ==> data[j] == target[j]
      {
        if oTready && oTvalid {
          keep := keep[lane := false];
        }
        if iTvalid && able {
          if oTvalid {
            if lane < n - base {
              keep := keep[lane := i.keep[lane + base]];
              data := data[lane := i.data[lane + base]];
            }
          } else if lane >= numBytesInReg {
            keep := keep[lane := i.keep[lane - numBytesInReg]];
            data := data[lane := i.data[lane - numBytesInReg]];
          }
        }
      }
      CountPacked(keep, |target|);
    }

    method Clock(iTvalid: bool, i: Word, oTready: bool)
      requires Valid() && i.Lanes(n)
      requires iTvalid ==> Packed(i.keep, CountOnes(i.keep)) && inputBaseIndex <= CountOnes(i.keep)
      modifies this
      ensures Valid()
      ensures View() == CombineStep(n, old(View()),
        if iTvalid then Some(Chunk(i.data[..CountOnes(i.keep)], i.last)) else None, oTready)
    {
      hide CountOnes, Flip, Packed;
      var oTvalid, iTready := AxisOTvalid(), AxisITready(i.keep, oTready);
      var able := !oTvalid || oTready;
      ghost var was := View();
      CountFlip(axisOTkeep);
      var consumed := Min(CountOnes(i.keep), if oTvalid then n else CountOnes(Flip(axisOTkeep)));
      axisOTdata, axisOTkeep := NextLanes(iTvalid, i, oTready);
      if iTvalid && able {
        if iTready {
          inputBaseIndex := 0;
        } else {
          inputBaseIndex := consumed;
        }
      }
      if oTready && oTvalid {
        axisOTlast := false;
      }
      if iTready && iTvalid {
        axisOTlast := i.last;
      }
      if iTvalid {
        var x := Chunk(i.data[..CountOnes(i.keep)], i.last);
        assert iTready == ITready(n, was, x, oTready);
        assert x.bytes[was.base..] == i.data[was.base..CountOnes(i.keep)];
        assert x.bytes[..consumed] == i.data[..consumed];
      }
    }
  }
}
