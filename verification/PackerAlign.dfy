/** The align stages of synth/axis/axis_packer.sv: each closes up the lowest null lane of a word,
    and N-1 of them in a row leave the kept bytes at the bottom, in order. */
module PackerAlign {
  import opened Axis
  import opened Bits
  import opened ByteStream

  /** What find_lowest_zero returns when there is no zero: all ones, one bit wider than an index. */
  function NoZero(n: nat): nat {
    Pow2(Clog2(n) + 1) - 1
  }

  ghost predicate IsLowestZero(keep: seq<bool>, l: nat) {
    if forall i :: 0 <= i < |keep| ==> keep[i] then l == NoZero(|keep|)
    else l < |keep| && !keep[l] && forall i :: 0 <= i < l ==> keep[i]
  }

  method FindLowestZero(word: seq<bool>) returns (l: nat)
    ensures IsLowestZero(word, l)
  {
    l := NoZero(|word|);
    for i := |word| downto 0
      invariant if forall j :: i <= j < |word| ==> word[j] then l == NoZero(|word|)
                else i <= l < |word| && !word[l] && forall j :: i <= j < l ==> word[j]
    {
      if !word[i] {
        l := i;
      }
    }
  }

  /** The lanes below n-k move down by one from the lowest zero on; zeros enter at the top. */
  function ShiftLane<T>(k: nat, lane: seq<T>, l: nat, zero: T): (r: seq<T>)
    requires k <= |lane|
    ensures |r| == |lane|
  {
    seq(|lane|, i requires 0 <= i < |lane| =>
      if l <= i < |lane| - k then (if i == |lane| - k - 1 then zero else lane[i + 1]) else lane[i])
  }

  function LowestZero(keep: seq<bool>): (l: nat)
    ensures IsLowestZero(keep, l)
  {
    ScanZero(keep, 0)
  }

  function ScanZero(keep: seq<bool>, i: nat): (l: nat)
    requires i <= |keep| && forall j :: 0 <= j < i ==> keep[j]
    ensures IsLowestZero(keep, l)
    decreases |keep| - i
  {
    if i == |keep| then NoZero(|keep|) else if !keep[i] then i else ScanZero(keep, i + 1)
  }

  /** Stage k (BYTES_TO_IGNORE = k). */
  function Align(k: nat, w: Word): (r: Word)
    requires |w.data| == |w.keep| >= k
    ensures r.Lanes(|w.keep|)
  {
    var l := LowestZero(w.keep);
    Word(ShiftLane(k, w.data, l, 0), ShiftLane(k, w.keep, l, false), w.last)
  }

  lemma NoZeroIsBeyond(n: nat)
    ensures n <= NoZero(n)
  {
    Pow2Clog2(n);
  }

  /** Lanes l to n-k-1 move down by one; the lane at l leaves, `zero` enters at the top. */
  lemma ShiftPieces<T>(k: nat, lane: seq<T>, l: nat, zero: T)
    requires k <= |lane| && l < |lane| - k
    ensures var top := |lane| - k;
      && lane == lane[..l] + ([lane[l]] + lane[l + 1..top]) + lane[top..]
      && ShiftLane(k, lane, l, zero) == lane[..l] + (lane[l + 1..top] + [zero]) + lane[top..]
  {
  }

  lemma ShiftedLane<T>(k: nat, lane: seq<T>, l: nat, zero: T, i: nat)
    requires k <= |lane| && i < |lane|
    ensures ShiftLane(k, lane, l, zero)[i]
         == if l <= i < |lane| - k then (if i == |lane| - k - 1 then zero else lane[i + 1]) else lane[i]
  {
  }

  lemma ShiftNothing<T>(k: nat, lane: seq<T>, l: nat, zero: T)
    requires k <= |lane| <= l + k
    ensures ShiftLane(k, lane, l, zero) == lane
  {
  }

  /** A stage neither loses nor reorders a kept byte. */
  lemma AlignKeepsBytes(k: nat, w: Word)
    requires |w.data| == |w.keep| >= k
    ensures ToChunk(Align(k, w)) == ToChunk(w)
  {
    hide ShiftLane, Kept, LowestZero, NoZero;
    var n, l, r := |w.keep|, LowestZero(w.keep), Align(k, w);
    if l < n - k {
      var top := n - k;
      LowestIsNull(w.keep);
      ShiftPieces(k, w.data, l, 0);
      ShiftPieces(k, w.keep, l, false);
      NullMoves(w.data[l], w.data[l + 1..top], w.keep[l + 1..top]);
      Kept3(w.data[..l], w.keep[..l], [w.data[l]] + w.data[l + 1..top], [false] + w.keep[l + 1..top],
        w.data[top..], w.keep[top..]);
      Kept3(w.data[..l], w.keep[..l], w.data[l + 1..top] + [0], w.keep[l + 1..top] + [false],
        w.data[top..], w.keep[top..]);
    } else {
      ShiftNothing(k, w.data, l, 0);
      ShiftNothing(k, w.keep, l, false);
    }
  }

  lemma LowestIsNull(keep: seq<bool>)
    requires LowestZero(keep) < |keep|
    ensures !keep[LowestZero(keep)]
  {
    NoZeroIsBeyond(|keep|);
  }

  lemma NullMoves(b: byte, data: seq<byte>, keep: seq<bool>)
    requires |data| == |keep|
    ensures Kept([b] + data, [false] + keep) == Kept(data + [0], keep + [false])
  {
    assert ([b] + data)[1..] == data && ([false] + keep)[1..] == keep;
    KeptAppend(data, keep, [0], [false]);
    KeptNone([0], [false]);
  }

  lemma Kept3(d1: seq<byte>, k1: seq<bool>, d2: seq<byte>, k2: seq<bool>, d3: seq<byte>, k3: seq<bool>)
    requires |d1| == |k1| && |d2| == |k2| && |d3| == |k3|
    ensures Kept(d1 + d2 + d3, k1 + k2 + k3) == Kept(d1, k1) + Kept(d2, k2) + Kept(d3, k3)
  {
    KeptAppend(d1 + d2, k1 + k2, d3, k3);
    KeptAppend(d1, k1, d2, k2);
  }

  /** What makes it safe for stage k to leave the top k lanes alone. */
  ghost predicate Settled(k: nat, keep: seq<bool>) {
    (exists c :: Packed(keep, c)) || (k <= |keep| && forall i :: |keep| - k <= i < |keep| ==> !keep[i])
  }

  lemma AlignSettles(k: nat, w: Word)
    requires |w.data| == |w.keep| > k && Settled(k, w.keep)
    ensures Settled(k + 1, Align(k, w).keep)
  {
    var n, l, r := |w.keep|, LowestZero(w.keep), Align(k, w);
    NoZeroIsBeyond(n);
    if c :| Packed(w.keep, c) {
      assert r.keep == w.keep;
    } else if l >= n - k {
      assert Packed(w.keep, n - k);
    } else {
      assert forall i :: n - k - 1 <= i < n ==> !r.keep[i];
    }
  }

  /** Stages k, k+1, ..., up to but not including m. */
  function AlignChain(k: nat, m: nat, w: Word): (r: Word)
    requires k <= m <= |w.keep| == |w.data|
    ensures r.Lanes(|w.keep|)
    decreases m - k
  {
    if k == m then w else AlignChain(k + 1, m, Align(k, w))
  }

  lemma {:induction false} ChainSettles(k: nat, m: nat, w: Word)
    requires k <= m < |w.keep| == |w.data| && Settled(k, w.keep)
    ensures Settled(m, AlignChain(k, m, w).keep)
    ensures ToChunk(AlignChain(k, m, w)) == ToChunk(w)
    decreases m - k
  {
    if k < m {
      AlignSettles(k, w);
      AlignKeepsBytes(k, w);
      ChainSettles(k + 1, m, Align(k, w));
    }
  }

  lemma SettledIsPacked(keep: seq<bool>)
    requires |keep| > 0 && Settled(|keep| - 1, keep)
    ensures exists c :: Packed(keep, c)
  {
    if !exists c :: Packed(keep, c) {
      assert Packed(keep, if keep[0] then 1 else 0);
    }
  }

  /** The N-1 stages together are the stable compaction of any word: tkeep comes out as ones below
      zeros, and the bytes under the ones are the kept bytes of the input, in order. */
  lemma ChainCompacts(w: Word)
    requires |w.data| == |w.keep| > 0
    ensures var r := AlignChain(0, |w.keep| - 1, w);
      var bytes := Kept(w.data, w.keep);
      Packed(r.keep, |bytes|) && r.data[..|bytes|] == bytes && r.last == w.last
  {
    var n := |w.keep|;
    var r := AlignChain(0, n - 1, w);
    ChainSettles(0, n - 1, w);
    SettledIsPacked(r.keep);
    var c :| Packed(r.keep, c);
    KeptPacked(r.data, r.keep, c);
  }

  /** One stage: an output register that loads the aligned word. */
  class AlignStage {
    const n: nat
    const bytesToIgnore: nat
    var axisOTvalid: bool
    var axisO: Word

    constructor (n: nat, bytesToIgnore: nat)
      requires bytesToIgnore < n
      ensures this.n == n && this.bytesToIgnore == bytesToIgnore && Valid()
      ensures Register() == None
    {
      this.n, this.bytesToIgnore := n, bytesToIgnore;
      axisOTvalid := false;
      axisO := Word(seq(n, _ => 0), seq(n, _ => false), false);
    }

    ghost predicate Valid()
      reads this
    {
      bytesToIgnore < n && axisO.Lanes(n)
    }

    ghost function Register(): Option<Word>
      reads this
    {
      if axisOTvalid then Some(axisO) else None
    }

    predicate AxisITready(oTready: bool)
      reads this
    {
      !axisOTvalid || oTready
    }

    /** The word the stage loads: the lanes, shifted one by one. */
    method AlignWord(i: Word) returns (w: Word)
      requires Valid() && i.Lanes(n)
      ensures w == Align(bytesToIgnore, i)
    {
      hide ShiftLane, IsLowestZero, LowestZero, NoZero;
      var l := FindLowestZero(i.keep);
      LowestZeroUnique(i.keep, l);
      var data, keep := i.data, i.keep;
      ghost var toData, toKeep := ShiftLane(bytesToIgnore, i.data, l, 0), ShiftLane(bytesToIgnore, i.keep, l, false);
      for lane := 0 to n
        invariant |data| == |keep| == n
        invariant forall j :: 0 <= j < lane ==> data[j] == toData[j] && keep[j] == toKeep[j]
        invariant forall j :: lane <= j < n ==> data[j] == i.data[j] && keep[j] == i.keep[j]
      {
        ShiftedLane(bytesToIgnore, i.data, l, 0, lane);
        ShiftedLane(bytesToIgnore, i.keep, l, false, lane);
        if lane < n - bytesToIgnore && lane >= l {
          if lane == n - bytesToIgnore - 1 {
            data, keep := data[lane := 0], keep[lane := false];
          } else {
            data, keep := data[lane := i.data[lane + 1]], keep[lane := i.keep[lane + 1]];
          }
        }
      }
      assert data == toData && keep == toKeep;
      w := Word(data, keep, i.last);
    }

    method Clock(iTvalid: bool, i: Word, oTready: bool)
      requires Valid() && i.Lanes(n)
      modifies this
      ensures Valid()
      ensures Register() ==
        if !old(AxisITready(oTready)) then old(Register())
        else if iTvalid then Some(Align(bytesToIgnore, i)) else None
    {
      var iTready := AxisITready(oTready);
      if oTready {
        axisOTvalid := false;
      }
      if iTready && iTvalid {
        axisOTvalid := true;
        axisO := AlignWord(i);
      }
    }
  }

  lemma LowestZeroUnique(keep: seq<bool>, l: nat)
    requires IsLowestZero(keep, l)
    ensures l == LowestZero(keep)
  {
  }
}
