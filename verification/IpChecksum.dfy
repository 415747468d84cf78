/** synth/network/ip_checksum.sv: 17-bit accumulators whose top bit is the carry to be added back in,
    against the one's complement sum of section 1 of RFC 1071. */
module IpChecksum {
  import opened ByteStream

  type Half = x: int | 0 <= x < 0x1_0000

  // ---------- The definition ----------

  /** 16-bit one's complement addition: the carry comes round to the bottom. */
  function OnesAdd(a: Half, b: Half): Half {
    if a + b > 0xFFFF then a + b - 0xFFFF else a + b
  }

  function OnesSum(ws: seq<Half>): Half {
    if ws == [] then 0 else OnesAdd(OnesSum(ws[..|ws| - 1]), ws[|ws| - 1])
  }

  function Checksum(ws: seq<Half>): Half { 0xFFFF - OnesSum(ws) }

  function Total(ws: seq<Half>): nat {
    if ws == [] then 0 else Total(ws[..|ws| - 1]) + ws[|ws| - 1]
  }

  /** The one's complement sum is the true sum modulo 65535, and zero only if every word is. */
  lemma {:induction false} SumIsResidue(ws: seq<Half>)
    ensures OnesSum(ws) % 0xFFFF == Total(ws) % 0xFFFF
    ensures OnesSum(ws) == 0 <==> forall k :: 0 <= k < |ws| ==> ws[k] == 0
    ensures Total(ws) == 0 <==> forall k :: 0 <= k < |ws| ==> ws[k] == 0
    decreases |ws|
  {
    if ws != [] {
      var front, last := ws[..|ws| - 1], ws[|ws| - 1];
      SumIsResidue(front);
      assert ws == front + [last];
      AddMod(OnesSum(front), Total(front), last);
      assert (forall k :: 0 <= k < |ws| ==> ws[k] == 0) ==> forall k :: 0 <= k < |front| ==> front[k] == 0;
      assert (forall k :: 0 <= k < |front| ==> front[k] == 0) && last == 0 ==> forall k :: 0 <= k < |ws| ==> ws[k] == 0;
    }
  }

  lemma AddMod(a: Half, b: nat, w: Half)
    requires a % 0xFFFF == b % 0xFFFF
    ensures OnesAdd(a, w) % 0xFFFF == (b + w) % 0xFFFF
  {
    assert (a + w) % 0xFFFF == (b + w) % 0xFFFF;
  }

  /** The residue and being zero determine a one's complement sum: the order of the words, or how they
      are split over accumulators, cannot matter. */
  lemma SameTotalSameSum(a: seq<Half>, b: seq<Half>)
    requires Total(a) == Total(b)
    ensures OnesSum(a) == OnesSum(b)
  {
    SumIsResidue(a);
    SumIsResidue(b);
  }

  lemma {:induction false} TotalAppend(a: seq<Half>, b: seq<Half>)
    ensures Total(a + b) == Total(a) + Total(b)
    decreases |b|
  {
    if b == [] {
      assert a + b == a;
    } else {
      assert (a + b)[..|a + b| - 1] == a + b[..|b| - 1];
      TotalAppend(a, b[..|b| - 1]);
    }
  }

  lemma Complement(total: nat, s: Half)
    requires s % 0xFFFF == total % 0xFFFF
    ensures (total + (0xFFFF - s)) % 0xFFFF == 0
  {
    var d := total - s;
    assert d % 0xFFFF == 0;
    assert (d + 0xFFFF) % 0xFFFF == 0;
  }

  /** Words followed by their checksum, in any place, sum to all ones: what a receiver checks. */
  lemma ChecksumCompletes(ws: seq<Half>, complete: seq<Half>)
    requires Total(complete) == Total(ws) + Checksum(ws)
    ensures OnesSum(complete) == 0xFFFF
  {
    SumIsResidue(ws);
    SumIsResidue(complete);
    Complement(Total(ws), OnesSum(ws));
  }

  // ---------- The accumulator ----------

  /** No carry is ever lost if the register stays at or below this. */
  const ACC_MAX := 0x1_FFFE

  /** acc[15:0] + acc[16] */
  function Fold(acc: nat): (f: nat)
    requires acc < 0x2_0000
    ensures f <= 0x1_0000 && (acc <= ACC_MAX ==> f <= 0xFFFF)
  {
    if acc >= 0x1_0000 then acc - 0x1_0000 + 1 else acc
  }

  /** What a 17-bit register keeps of a sum of two values that fit it. */
  function Bits17(v: nat): (r: nat)
    requires v < 0x4_0000
    ensures r < 0x2_0000
  {
    if v >= 0x2_0000 then v - 0x2_0000 else v
  }

  /** The next value of an accumulator. */
  function Accumulate(acc: nat, w: Half): (r: nat)
    requires acc < 0x2_0000
    ensures r < 0x2_0000
  {
    Bits17(w + Fold(acc))
  }

  lemma AccumulateAdds(acc: nat, w: Half)
    requires acc <= ACC_MAX
    ensures Accumulate(acc, w) <= ACC_MAX
    ensures Fold(Accumulate(acc, w)) == OnesAdd(Fold(acc), w)
  {
  }

  /** axis_o_csum */
  function Csum(acc: nat): Half
    requires acc < 0x2_0000
  {
    0xFFFF - (if Fold(acc) >= 0x1_0000 then Fold(acc) - 0x1_0000 else Fold(acc))
  }

  /** The three functions above are the source's slices and truncations. */
  lemma Slices(acc: nat, v: nat)
    requires acc < 0x2_0000 && v < 0x4_0000
    ensures acc % 0x1_0000 + acc / 0x1_0000 == Fold(acc)
    ensures 0xFFFF - Fold(acc) % 0x1_0000 == Csum(acc)
    ensures v % 0x2_0000 == Bits17(v)
  {
  }

  lemma FoldFacts(a: nat, b: nat)
    requires a <= ACC_MAX
    ensures Csum(a) == 0xFFFF - Fold(a)
    ensures a <= 0xFFFF ==> Fold(a) == a
    ensures Bits17(Fold(a)) == Fold(a)
    ensures a <= 0xFFFF && b <= 0xFFFF ==> a + b <= ACC_MAX && Bits17(a + b) == a + b && Fold(a + b) == OnesAdd(a, b)
  {
  }

  /** 16 bits of a word with its unkept bytes masked off, lowest lane first. */
  function Lanes16(w: Word, from: nat): Half
    requires |w.data| == |w.keep| && from + 2 <= |w.data|
  {
    var low: int, high: int := w.data[from], w.data[from + 1];
    (if w.keep[from] then low else 0) + 0x100 * (if w.keep[from + 1] then high else 0)
  }

  // ---------- Two bytes wide ----------

  datatype Acc2 = Acc2(acc: nat, oTvalid: bool)

  datatype Input2 = Input2(iTvalid: bool, w: Half, last: bool, oTready: bool)

  predicate Takes2(s: Acc2, x: Input2) { !s.oTvalid && x.iTvalid }

  predicate Gives2(s: Acc2, x: Input2) { s.oTvalid && x.oTready }

  function Next2(s: Acc2, x: Input2): (r: Acc2)
    requires s.acc < 0x2_0000
    ensures r.acc < 0x2_0000
  {
    if Gives2(s, x) then Acc2(0, false)
    else if Takes2(s, x) then Acc2(Accumulate(s.acc, x.w), x.last)
    else s
  }

  /** The lines of a cycle as the accumulator sees them. */
  function Lines2(iTvalid: bool, i: Word, oTready: bool): Input2
    requires i.Lanes(2)
  {
    Input2(iTvalid, Lanes16(i, 0), i.last, oTready)
  }

  /** A word accepted at the input: its 16-bit parts, and whether it ends a packet. */
  datatype Part = Part(halves: seq<Half>, last: bool)

  /** The checksum of every packet completed, `open` being the words of the packet under way. */
  function Checksums(open: seq<Half>, ps: seq<Part>): seq<Half>
    decreases |ps|
  {
    if ps == [] then []
    else if ps[0].last then [Checksum(open + ps[0].halves)] + Checksums([], ps[1..])
    else Checksums(open + ps[0].halves, ps[1..])
  }

  function Accepted2(s: Acc2, xs: seq<Input2>): seq<Part>
    requires s.acc < 0x2_0000
    decreases |xs|
  {
    if xs == [] then [] else
      (if Takes2(s, xs[0]) then [Part([xs[0].w], xs[0].last)] else []) + Accepted2(Next2(s, xs[0]), xs[1..])
  }

  /** The checksums taken at the output. */
  function Results2(s: Acc2, xs: seq<Input2>): seq<Half>
    requires s.acc < 0x2_0000
    decreases |xs|
  {
    if xs == [] then [] else
      (if Gives2(s, xs[0]) then [Csum(s.acc)] else []) + Results2(Next2(s, xs[0]), xs[1..])
  }

  function Run2(s: Acc2, xs: seq<Input2>): (r: Acc2)
    requires s.acc < 0x2_0000
    ensures r.acc < 0x2_0000
    decreases |xs|
  {
    if xs == [] then s else Run2(Next2(s, xs[0]), xs[1..])
  }

  /** Waiting at the output. */
  function Waiting2(s: Acc2): seq<Half>
    requires s.acc < 0x2_0000
  {
    if s.oTvalid then [Csum(s.acc)] else []
  }

  predicate Holds2(s: Acc2, open: seq<Half>) {
    s.acc <= ACC_MAX && (if s.oTvalid then open == [] else Fold(s.acc) == OnesSum(open))
  }

  /** What waits either leaves or goes on waiting. */
  lemma Shift<T>(leaves: bool, waiting: seq<T>, sums: seq<T>, results: seq<T>, after: seq<T>)
    requires (if leaves then [] else waiting) + sums == results + after
    ensures waiting + sums == ((if leaves then waiting else []) + results) + after
  {
    if leaves {
      assert [] + sums == sums;
      assert waiting + (results + after) == (waiting + results) + after;
    } else {
      assert [] + results == results;
    }
  }

  lemma Step2(s: Acc2, open: seq<Half>, x: Input2)
    requires Holds2(s, open)
    ensures var next, grown := Next2(s, x), open + [x.w];
      if Takes2(s, x) then
        && Holds2(next, if x.last then [] else grown)
        && Waiting2(next) == if x.last then [Checksum(grown)] else []
      else
        Holds2(next, open) && Waiting2(next) == if Gives2(s, x) then [] else Waiting2(s)
  {
    hide Fold, Csum, Accumulate, Bits17, OnesAdd;
    AccumulateAdds(s.acc, x.w);
    FoldFacts(s.acc, 0);
    FoldFacts(Accumulate(s.acc, x.w), 0);
    FoldFacts(0, 0);
    assert (open + [x.w])[..|open|] == open;
  }

  /** Two bytes wide, any run and any back-pressure: the results taken, then the one waiting, are the
      checksums of the packets accepted, in order. */
  lemma {:induction false} ResultsAreChecksums2(s: Acc2, open: seq<Half>, xs: seq<Input2>)
    requires Holds2(s, open)
    ensures Waiting2(s) + Checksums(open, Accepted2(s, xs)) == Results2(s, xs) + Waiting2(Run2(s, xs))
    decreases |xs|
  {
    hide Checksum, Csum, Accumulate, Next2, Fold;
    if xs != [] {
      var x, next, rest := xs[0], Next2(s, xs[0]), xs[1..];
      Step2(s, open, x);
      if Takes2(s, x) {
        var taken, grown := Accepted2(s, xs), open + [x.w];
        assert taken[1..] == Accepted2(next, rest) && taken[0] == Part([x.w], x.last);
        ResultsAreChecksums2(next, if x.last then [] else grown, rest);
        assert Waiting2(s) == [];
      } else {
        assert Accepted2(s, xs) == Accepted2(next, rest);
        ResultsAreChecksums2(next, open, rest);
        Shift(Gives2(s, x), Waiting2(s), Checksums(open, Accepted2(next, rest)), Results2(next, rest),
          Waiting2(Run2(next, rest)));
      }
    }
  }

  /** Nothing changes in a cycle without a transfer: a result waits for its sink, and the sum for a word. */
  lemma WaitsFor2(s: Acc2, x: Input2)
    requires s.acc < 0x2_0000 && if s.oTvalid then !x.oTready else !x.iTvalid
    ensures Next2(s, x) == s && Accepted2(s, [x]) == [] && Results2(s, [x]) == []
  {
  }

  predicate Offers2(xs: seq<Input2>) {
    forall k :: 0 <= k < |xs| ==> xs[k].iTvalid && xs[k].last == (k == |xs| - 1)
  }

  function Halves2(xs: seq<Input2>): (ws: seq<Half>)
    ensures |ws| == |xs|
  {
    seq(|xs|, k requires 0 <= k < |xs| => xs[k].w)
  }

  /** A packet offered without a pause is taken at a word in every cycle, and its result is there in the next
      one. */
  lemma {:induction false} TakenAtOnce2(s: Acc2, open: seq<Half>, xs: seq<Input2>)
    requires Holds2(s, open) && !s.oTvalid && xs != [] && Offers2(xs)
    ensures |Accepted2(s, xs)| == |xs| && Results2(s, xs) == []
    ensures Run2(s, xs).oTvalid && Waiting2(Run2(s, xs)) == [Checksum(open + Halves2(xs))]
    decreases |xs|
  {
    hide Checksum, Csum, Accumulate, Fold, Holds2, Waiting2;
    Sound2(s, open);
    var x, next, rest := xs[0], Next2(s, xs[0]), xs[1..];
    Step2(s, open, x);
    if rest == [] {
      assert Halves2(xs) == [x.w];
      assert Accepted2(next, rest) == [] && Results2(next, rest) == [] && Run2(next, rest) == next;
    } else {
      TakenAtOnce2(next, open + [x.w], rest);
      assert open + [x.w] + Halves2(rest) == open + Halves2(xs);
    }
  }

  lemma Sound2(s: Acc2, open: seq<Half>)
    requires Holds2(s, open)
    ensures s.acc < 0x2_0000
  {
  }

  // ---------- Four bytes wide ----------

  /** `stage` is the three-bit shift register of the result: 100, 010, 001 and then valid. */
  datatype Stage = Idle | Folding | Adding | Presented

  datatype Acc4 = Acc4(acc: nat, accH: nat, stage: Stage) {
    predicate Ok() { acc < 0x2_0000 && accH < 0x2_0000 }
  }

  datatype Input4 = Input4(iTvalid: bool, low: Half, high: Half, last: bool, oTready: bool)

  function Lines4(iTvalid: bool, i: Word, oTready: bool): Input4
    requires i.Lanes(4)
  {
    Input4(iTvalid, Lanes16(i, 0), Lanes16(i, 2), i.last, oTready)
  }

  predicate Takes4(s: Acc4, x: Input4) { s.stage.Idle? && x.iTvalid }

  predicate Gives4(s: Acc4, x: Input4) { s.stage.Presented? && x.oTready }

  function Next4(s: Acc4, x: Input4): (r: Acc4)
    requires s.Ok()
    ensures r.Ok()
  {
    if Gives4(s, x) then Acc4(0, 0, Idle)
    else match s.stage
      case Idle =>
        if x.iTvalid then
          Acc4(Accumulate(s.acc, x.low), Accumulate(s.accH, x.high), if x.last then Folding else Idle)
        else s
      case Folding => Acc4(Bits17(Fold(s.acc)), Bits17(Fold(s.accH)), Adding)
      case Adding => Acc4(Bits17(s.acc + s.accH), s.accH, Presented)
      case Presented => s.(stage := Idle)
  }

  /** The output is only valid for one cycle; the sink must take it then. */
  predicate Missed(s: Acc4, x: Input4) { s.stage.Presented? && !x.oTready }

  predicate NeverMissed(s: Acc4, xs: seq<Input4>)
    requires s.Ok()
    decreases |xs|
  {
    xs == [] || (!Missed(s, xs[0]) && NeverMissed(Next4(s, xs[0]), xs[1..]))
  }

  function Accepted4(s: Acc4, xs: seq<Input4>): seq<Part>
    requires s.Ok()
    decreases |xs|
  {
    if xs == [] then [] else
      (if Takes4(s, xs[0]) then [Part([xs[0].low, xs[0].high], xs[0].last)] else [])
      + Accepted4(Next4(s, xs[0]), xs[1..])
  }

  function Results4(s: Acc4, xs: seq<Input4>): seq<Half>
    requires s.Ok()
    decreases |xs|
  {
    if xs == [] then [] else
      (if Gives4(s, xs[0]) then [Csum(s.acc)] else []) + Results4(Next4(s, xs[0]), xs[1..])
  }

  function Run4(s: Acc4, xs: seq<Input4>): (r: Acc4)
    requires s.Ok()
    ensures r.Ok()
    decreases |xs|
  {
    if xs == [] then s else Run4(Next4(s, xs[0]), xs[1..])
  }

  /** What the two accumulators come to. */
  function Combined(s: Acc4): Half
    requires s.acc <= ACC_MAX && s.accH <= ACC_MAX
  {
    if s.stage.Presented? then Fold(s.acc) else OnesAdd(Fold(s.acc), Fold(s.accH))
  }

  /** The lower and the upper halves of the 32-bit words of a packet. */
  function Lows(packet: seq<Half>): seq<Half> {
    if |packet| < 2 then [] else Lows(packet[..|packet| - 2]) + [packet[|packet| - 2]]
  }

  function Highs(packet: seq<Half>): seq<Half> {
    if |packet| < 2 then [] else Highs(packet[..|packet| - 2]) + [packet[|packet| - 1]]
  }

  function AllHighs(packets: seq<seq<Half>>): seq<Half> {
    if packets == [] then [] else AllHighs(packets[..|packets| - 1]) + Highs(packets[|packets| - 1])
  }

  /** What a result counts that is presented after these packets, none of the results before it taken:
      its own packet, all that the result before it counted, and once more the upper halves of the
      packets before. */
  function Counted(packets: seq<seq<Half>>): seq<Half>
    decreases |packets|, 0
  {
    if packets == [] then [] else Left(packets[..|packets| - 1]) + packets[|packets| - 1]
  }

  /** What missed packets leave behind for the next result. */
  function Left(missed: seq<seq<Half>>): seq<Half>
    decreases |missed|, 1
  {
    Counted(missed) + AllHighs(missed)
  }

  /** The results that leave, one of every packet being taken or missed; `missed` are the packets
      since the last result taken. */
  function Shown(missed: seq<seq<Half>>, packets: seq<seq<Half>>, taken: seq<bool>): seq<Half>
    requires |packets| == |taken|
    decreases |packets|
  {
    if packets == [] then []
    else if taken[0] then [Checksum(Counted(missed + [packets[0]]))] + Shown([], packets[1..], taken[1..])
    else Shown(missed + [packets[0]], packets[1..], taken[1..])
  }

  /** The packets completed, `open` being the words of the packet under way. */
  function Packets(open: seq<Half>, ps: seq<Part>): seq<seq<Half>>
    decreases |ps|
  {
    if ps == [] then []
    else if ps[0].last then [open + ps[0].halves] + Packets([], ps[1..])
    else Packets(open + ps[0].halves, ps[1..])
  }

  /** Of each packet completed whether its result is taken; the one under way is not missed yet. */
  function Verdicts(s: Acc4, xs: seq<Input4>): seq<bool>
    requires s.Ok()
    decreases |xs|
  {
    if xs == [] then (if s.stage.Idle? then [] else [true])
    else (if s.stage.Presented? then [xs[0].oTready] else []) + Verdicts(Next4(s, xs[0]), xs[1..])
  }

  /** `open` is the packet under way, or the one whose result is. */
  ghost predicate Holds4(s: Acc4, missed: seq<seq<Half>>, open: seq<Half>) {
    && s.acc <= ACC_MAX && s.accH <= ACC_MAX && |open| % 2 == 0
    && (s.stage.Adding? ==> s.acc <= 0xFFFF && s.accH <= 0xFFFF)
    && Fold(s.accH) == OnesSum(AllHighs(missed) + Highs(open))
    && if s.stage.Idle? then Fold(s.acc) == OnesSum(Counted(missed) + Lows(open))
       else Combined(s) == OnesSum(Counted(missed + [open]))
  }

  /** On its way to the output. */
  function Waiting4(s: Acc4): seq<Half>
    requires s.acc <= ACC_MAX && s.accH <= ACC_MAX
  {
    if s.stage.Idle? then [] else [0xFFFF - Combined(s)]
  }

  /** The packets that the verdicts to come are about. */
  function ToSettle(s: Acc4, open: seq<Half>, ps: seq<Part>): seq<seq<Half>> {
    if s.stage.Idle? then Packets(open, ps) else [open] + Packets([], ps)
  }

  lemma OnesAddZero(a: Half)
    ensures OnesAdd(0, a) == a == OnesAdd(a, 0)
  {
  }

  lemma OnesAddAssociates(a: Half, b: Half, c: Half)
    ensures OnesAdd(OnesAdd(a, b), c) == OnesAdd(a, OnesAdd(b, c))
  {
  }

  lemma {:induction false} SumAppend(a: seq<Half>, b: seq<Half>)
    ensures OnesSum(a + b) == OnesAdd(OnesSum(a), OnesSum(b))
    decreases |b|
  {
    hide OnesAdd;
    if b == [] {
      assert a + b == a;
      OnesAddZero(OnesSum(a));
    } else {
      var front, last := b[..|b| - 1], b[|b| - 1];
      assert (a + b)[..|a + b| - 1] == a + front;
      SumAppend(a, front);
      OnesAddAssociates(OnesSum(a), OnesSum(front), last);
    }
  }

  lemma {:induction false} LanesTotal(packet: seq<Half>)
    requires |packet| % 2 == 0
    ensures Total(packet) == Total(Lows(packet)) + Total(Highs(packet))
    decreases |packet|
  {
    if packet != [] {
      var front, low, high := packet[..|packet| - 2], packet[|packet| - 2], packet[|packet| - 1];
      LanesTotal(front);
      assert packet == front + [low] + [high];
      TotalSnoc(front, low);
      TotalSnoc(front + [low], high);
      TotalSnoc(Lows(front), low);
      TotalSnoc(Highs(front), high);
    }
  }

  lemma TotalSnoc(ws: seq<Half>, w: Half)
    ensures Total(ws + [w]) == Total(ws) + w
  {
    assert (ws + [w])[..|ws|] == ws;
  }

  /** The split over two accumulators does not matter. */
  lemma LanesAdd(missed: seq<seq<Half>>, open: seq<Half>)
    requires |open| % 2 == 0
    ensures OnesAdd(OnesSum(Counted(missed) + Lows(open)), OnesSum(AllHighs(missed) + Highs(open)))
         == OnesSum(Counted(missed + [open]))
  {
    hide OnesAdd, OnesSum;
    var a, h := Counted(missed) + Lows(open), AllHighs(missed) + Highs(open);
    SumAppend(a, h);
    assert (missed + [open])[..|missed|] == missed;
    TotalAppend(a, h);
    TotalAppend(Counted(missed), Lows(open));
    TotalAppend(AllHighs(missed), Highs(open));
    LanesTotal(open);
    TotalAppend(Counted(missed), AllHighs(missed));
    TotalAppend(Left(missed), open);
    SameTotalSameSum(a + h, Counted(missed + [open]));
  }

  lemma LanesGrow(open: seq<Half>, low: Half, high: Half)
    ensures Lows(open + [low, high]) == Lows(open) + [low] && Highs(open + [low, high]) == Highs(open) + [high]
  {
    assert (open + [low, high])[..|open|] == open;
  }

  lemma SumGrows(ws: seq<Half>, w: Half)
    ensures OnesSum(ws + [w]) == OnesAdd(OnesSum(ws), w)
  {
    assert (ws + [w])[..|ws|] == ws;
  }

  lemma Take4(s: Acc4, missed: seq<seq<Half>>, open: seq<Half>, x: Input4)
    requires Holds4(s, missed, open) && Takes4(s, x)
    ensures Holds4(Next4(s, x), missed, open + [x.low, x.high])
  {
    hide Fold, Accumulate, OnesAdd, OnesSum, Counted, AllHighs, Lows, Highs;
    var grown := open + [x.low, x.high];
    AccumulateAdds(s.acc, x.low);
    AccumulateAdds(s.accH, x.high);
    LanesGrow(open, x.low, x.high);
    SumGrows(Counted(missed) + Lows(open), x.low);
    SumGrows(AllHighs(missed) + Highs(open), x.high);
    assert Counted(missed) + Lows(grown) == Counted(missed) + Lows(open) + [x.low];
    assert AllHighs(missed) + Highs(grown) == AllHighs(missed) + Highs(open) + [x.high];
    LanesAdd(missed, grown);
  }

  lemma EmptyLanes()
    ensures Lows([]) == [] == Highs([]) && Counted([]) == [] == AllHighs([])
    ensures OnesSum(Counted([]) + Lows([])) == 0 == OnesSum(AllHighs([]) + Highs([]))
  {
    assert Counted([]) + Lows([]) == [] == AllHighs([]) + Highs([]);
  }

  /** Folding and adding keep what the two accumulators come to; a result that is given clears them,
      one that is missed stays in them. */
  lemma Move4(s: Acc4, missed: seq<seq<Half>>, open: seq<Half>, x: Input4)
    requires Holds4(s, missed, open) && !Takes4(s, x)
    ensures Gives4(s, x) ==> Holds4(Next4(s, x), [], []) && [Csum(s.acc)] == [Checksum(Counted(missed + [open]))]
    ensures Missed(s, x) ==> Holds4(Next4(s, x), missed + [open], [])
    ensures !Gives4(s, x) && !Missed(s, x) ==>
      Holds4(Next4(s, x), missed, open) && Next4(s, x).stage.Idle? == s.stage.Idle?
  {
    hide Fold, Csum, Bits17, OnesAdd, OnesSum, Counted, AllHighs, Lows, Highs;
    FoldFacts(0, 0);
    FoldFacts(s.acc, s.accH);
    FoldFacts(s.accH, 0);
    FoldFacts(Fold(s.acc), 0);
    FoldFacts(Fold(s.accH), 0);
    EmptyLanes();
    AllHighsGrow(missed, open);
    var after := missed + [open];
    assert AllHighs(after) + [] == AllHighs(after) && Counted(after) + [] == Counted(after);
  }

  lemma AllHighsGrow(missed: seq<seq<Half>>, open: seq<Half>)
    ensures AllHighs(missed + [open]) == AllHighs(missed) + Highs(open)
  {
    assert (missed + [open])[..|missed|] == missed;
  }

  lemma AtRest(s: Acc4, missed: seq<seq<Half>>, open: seq<Half>)
    requires Holds4(s, missed, open)
    ensures |ToSettle(s, open, [])| == |Verdicts(s, [])|
    ensures Waiting4(s) == Shown(missed, ToSettle(s, open, []), Verdicts(s, []))
  {
    hide Combined, Counted;
  }

  lemma PacketTaken(s: Acc4, open: seq<Half>, xs: seq<Input4>)
    requires s.Ok() && xs != [] && Takes4(s, xs[0])
    ensures var next, rest := Next4(s, xs[0]), xs[1..];
      && ToSettle(s, open, Accepted4(s, xs)) == ToSettle(next, open + [xs[0].low, xs[0].high], Accepted4(next, rest))
      && Verdicts(s, xs) == Verdicts(next, rest) && Results4(s, xs) == Results4(next, rest)
  {
    hide Accumulate, Csum;
    var x, next, rest := xs[0], Next4(s, xs[0]), xs[1..];
    var taken := Accepted4(s, xs);
    assert taken[1..] == Accepted4(next, rest) && taken[0] == Part([x.low, x.high], x.last);
  }

  lemma Settled(s: Acc4, missed: seq<seq<Half>>, open: seq<Half>, xs: seq<Input4>)
    requires s.Ok() && xs != [] && s.stage.Presented?
    requires var next, rest := Next4(s, xs[0]), xs[1..];
      |ToSettle(next, [], Accepted4(next, rest))| == |Verdicts(next, rest)|
    ensures |ToSettle(s, open, Accepted4(s, xs))| == |Verdicts(s, xs)|
    ensures var next, rest := Next4(s, xs[0]), xs[1..];
      var packets, taken := ToSettle(next, [], Accepted4(next, rest)), Verdicts(next, rest);
      Shown(missed, ToSettle(s, open, Accepted4(s, xs)), Verdicts(s, xs))
      == if xs[0].oTready then [Checksum(Counted(missed + [open]))] + Shown([], packets, taken)
         else Shown(missed + [open], packets, taken)
  {
    hide Checksum, Csum, Counted;
    var next, rest := Next4(s, xs[0]), xs[1..];
    var packets, taken := ToSettle(next, [], Accepted4(next, rest)), Verdicts(next, rest);
    assert Accepted4(s, xs) == Accepted4(next, rest);
    assert ToSettle(s, open, Accepted4(s, xs)) == [open] + packets;
    assert Verdicts(s, xs) == [xs[0].oTready] + taken;
    assert ([open] + packets)[1..] == packets && ([xs[0].oTready] + taken)[1..] == taken;
  }

  /** What has been accepted since the last result taken: the packets whose results were missed, and the
      words of the packet under way or waiting. */
  datatype History = History(missed: seq<seq<Half>>, open: seq<Half>)

  function Logged(h: History, s: Acc4, x: Input4): History {
    if Gives4(s, x) then History([], [])
    else if Missed(s, x) then History(h.missed + [h.open], [])
    else if Takes4(s, x) then h.(open := h.open + [x.low, x.high])
    else h
  }

  ghost predicate Tracks(h: History, s: Acc4) { Holds4(s, h.missed, h.open) }

  lemma StepTracks(h: History, s: Acc4, x: Input4)
    requires Tracks(h, s)
    ensures Tracks(Logged(h, s, x), Next4(s, x))
  {
    hide Holds4, Next4;
    if Takes4(s, x) {
      Take4(s, h.missed, h.open, x);
    } else {
      Move4(s, h.missed, h.open, x);
    }
  }

  lemma ResetTracks()
    ensures Tracks(History([], []), RESET4)
  {
    EmptyLanes();
  }

  /** What is presented is what the history counts for. */
  lemma PresentedIsCounted(h: History, s: Acc4)
    requires Tracks(h, s) && s.stage.Presented?
    ensures Csum(s.acc) == Checksum(Counted(h.missed + [h.open]))
  {
    hide Counted, OnesSum;
    FoldFacts(s.acc, 0);
  }

  /** Four bytes wide, any run and any back-pressure: one verdict for every packet, and the results taken,
      then the one under way, are those the packets and the verdicts lead to. */
  lemma {:induction false} ResultsAreShown(s: Acc4, missed: seq<seq<Half>>, open: seq<Half>, xs: seq<Input4>)
    requires Holds4(s, missed, open)
    ensures Run4(s, xs).acc <= ACC_MAX && Run4(s, xs).accH <= ACC_MAX
    ensures |ToSettle(s, open, Accepted4(s, xs))| == |Verdicts(s, xs)|
    ensures Results4(s, xs) + Waiting4(Run4(s, xs))
         == Shown(missed, ToSettle(s, open, Accepted4(s, xs)), Verdicts(s, xs))
    decreases |xs|
  {
    hide Checksum, Csum, Accumulate, Combined, OnesAdd, Fold, Counted, OnesSum, AllHighs, Lows, Highs;
    if xs == [] {
      AtRest(s, missed, open);
    } else {
      var x, next, rest := xs[0], Next4(s, xs[0]), xs[1..];
      if Takes4(s, x) {
        Take4(s, missed, open, x);
        ResultsAreShown(next, missed, open + [x.low, x.high], rest);
        PacketTaken(s, open, xs);
      } else {
        Move4(s, missed, open, x);
        assert Accepted4(s, xs) == Accepted4(next, rest);
        if s.stage.Presented? {
          ResultsAreShown(next, if x.oTready then [] else missed + [open], [], rest);
          Settled(s, missed, open, xs);
          var shown := if x.oTready then [Checksum(Counted(missed + [open]))] else [];
          assert Results4(s, xs) == shown + Results4(next, rest);
          assert shown + (Results4(next, rest) + Waiting4(Run4(next, rest))) == Results4(s, xs) + Waiting4(Run4(s, xs));
        } else {
          ResultsAreShown(next, missed, open, rest);
          assert Verdicts(s, xs) == Verdicts(next, rest) && Results4(s, xs) == Results4(next, rest);
        }
      }
    }
  }

  const RESET4 := Acc4(0, 0, Idle)

  lemma FromReset(xs: seq<Input4>)
    ensures var s := RESET4; var packets := Packets([], Accepted4(s, xs));
      && Run4(s, xs).acc <= ACC_MAX && Run4(s, xs).accH <= ACC_MAX
      && |packets| == |Verdicts(s, xs)|
      && Results4(s, xs) + Waiting4(Run4(s, xs)) == Shown([], packets, Verdicts(s, xs))
  {
    hide Shown, Verdicts, Packets, Run4, Results4, Accepted4;
    EmptyLanes();
    ResultsAreShown(RESET4, [], [], xs);
  }

  lemma {:induction false} ChecksumsOfPackets(open: seq<Half>, ps: seq<Part>)
    ensures |Checksums(open, ps)| == |Packets(open, ps)|
    ensures forall k :: 0 <= k < |Packets(open, ps)| ==> Checksums(open, ps)[k] == Checksum(Packets(open, ps)[k])
    decreases |ps|
  {
    hide Checksum;
    if ps != [] {
      ChecksumsOfPackets(if ps[0].last then [] else open + ps[0].halves, ps[1..]);
    }
  }

  predicate All(vs: seq<bool>) {
    forall k :: 0 <= k < |vs| ==> vs[k]
  }

  lemma AllAfterFirst(first: bool, vs: seq<bool>)
    ensures All([first] + vs) <==> first && All(vs)
  {
    if All([first] + vs) {
      assert ([first] + vs)[0] == first && ([first] + vs)[1..] == vs;
    }
  }

  lemma {:induction false} ShownWhole(missed: seq<seq<Half>>, packets: seq<seq<Half>>, taken: seq<bool>)
    requires |packets| == |taken|
    ensures |Shown(missed, packets, taken)| <= |packets|
    ensures |Shown(missed, packets, taken)| == |packets| <==> All(taken)
    decreases |packets|
  {
    hide Checksum, Counted;
    if packets != [] {
      ShownWhole(if taken[0] then [] else missed + [packets[0]], packets[1..], taken[1..]);
      assert taken == [taken[0]] + taken[1..];
      AllAfterFirst(taken[0], taken[1..]);
    }
  }

  lemma CountedOne(packet: seq<Half>)
    ensures Counted([] + [packet]) == packet
  {
    assert ([] + [packet])[..0] == [];
    assert Left([]) == [];
  }

  lemma {:induction false} ShownOfTaken(packets: seq<seq<Half>>, taken: seq<bool>)
    requires |packets| == |taken| && All(taken)
    ensures |Shown([], packets, taken)| == |packets|
    ensures forall k :: 0 <= k < |packets| ==> Shown([], packets, taken)[k] == Checksum(packets[k])
    decreases |packets|
  {
    hide Checksum, Counted;
    if packets != [] {
      ShownOfTaken(packets[1..], taken[1..]);
      CountedOne(packets[0]);
    }
  }

  lemma {:induction false} VerdictsAreNeverMissed(s: Acc4, xs: seq<Input4>)
    requires s.Ok()
    ensures NeverMissed(s, xs) <==> All(Verdicts(s, xs))
    decreases |xs|
  {
    hide Next4;
    if xs != [] {
      var next, rest := Next4(s, xs[0]), xs[1..];
      VerdictsAreNeverMissed(next, rest);
      if s.stage.Presented? {
        AllAfterFirst(xs[0].oTready, Verdicts(next, rest));
      } else {
        assert Verdicts(s, xs) == Verdicts(next, rest);
      }
    }
  }

  /** Four bytes wide, any run from reset: the results taken, then the one on its way, are the checksums of
      the packets accepted, as the two-byte form would compute them, if and only if the sink took every
      result in the one cycle it was presented. */
  lemma ResultsAreChecksums4Iff(xs: seq<Input4>)
    ensures Run4(RESET4, xs).acc <= ACC_MAX && Run4(RESET4, xs).accH <= ACC_MAX
    ensures NeverMissed(RESET4, xs)
       <==> Checksums([], Accepted4(RESET4, xs)) == Results4(RESET4, xs) + Waiting4(Run4(RESET4, xs))
  {
    hide Shown, Verdicts, Packets, Checksums, Run4, Results4, Accepted4, NeverMissed, Checksum;
    var packets, taken := Packets([], Accepted4(RESET4, xs)), Verdicts(RESET4, xs);
    FromReset(xs);
    ChecksumsOfPackets([], Accepted4(RESET4, xs));
    VerdictsAreNeverMissed(RESET4, xs);
    ShownWhole([], packets, taken);
    if NeverMissed(RESET4, xs) {
      ShownOfTaken(packets, taken);
    }
  }

  lemma OneCycle(s: Acc4, x: Input4, rest: seq<Input4>)
    requires s.Ok()
    ensures Accepted4(s, [x] + rest)
         == (if Takes4(s, x) then [Part([x.low, x.high], x.last)] else []) + Accepted4(Next4(s, x), rest)
    ensures Results4(s, [x] + rest) == (if Gives4(s, x) then [Csum(s.acc)] else []) + Results4(Next4(s, x), rest)
  {
    hide Next4, Csum;
    assert ([x] + rest)[1..] == rest;
  }

  /** A packet of the one word 1 and the three cycles after it. */
  lemma FourCycles(s: Acc4, word: Input4, last: Input4, rest: seq<Input4>)
    requires s.stage.Idle? && s.acc <= 1 && s.accH == 0
    requires word == Input4(true, 1, 0, true, false) && !last.iTvalid
    ensures var pass := Input4(false, 0, 0, false, false);
      var xs, next := [word, pass, pass, last] + rest, if last.oTready then RESET4 else Acc4(s.acc + 1, 0, Idle);
      && Accepted4(s, xs) == [Part([1, 0], true)] + Accepted4(next, rest)
      && Results4(s, xs) == (if last.oTready then [0xFFFE - s.acc] else []) + Results4(next, rest)
  {
    hide Accepted4, Results4;
    var pass := Input4(false, 0, 0, false, false);
    var s1, s2, s3 := Acc4(s.acc + 1, 0, Folding), Acc4(s.acc + 1, 0, Adding), Acc4(s.acc + 1, 0, Presented);
    var next := if last.oTready then RESET4 else Acc4(s.acc + 1, 0, Idle);
    OneCycle(s, word, [pass, pass, last] + rest);
    OneCycle(s1, pass, [pass, last] + rest);
    OneCycle(s2, pass, [last] + rest);
    OneCycle(s3, last, rest);
    assert [word] + ([pass, pass, last] + rest) == [word, pass, pass, last] + rest;
    assert [pass] + ([pass, last] + rest) == [pass, pass, last] + rest;
    assert [pass] + ([last] + rest) == [pass, last] + rest;
  }

  lemma NoCycles(s: Acc4)
    requires s.Ok()
    ensures Accepted4(s, []) == [] && Results4(s, []) == []
  {
  }

  lemma ChecksumsOfOnes()
    ensures var part := Part([1, 0], true); Checksums([], [part, part]) == [0xFFFE, 0xFFFE]
  {
    var part, one: seq<Half> := Part([1, 0], true), [1, 0];
    assert [part, part][1..] == [part] && [part][1..] == [];
    assert [] + one == one && one[..1] == [1] && one[..1][..0] == [];
    assert OnesSum([]) == 0;
    assert OnesSum([1]) == 1;
    assert Checksum(one) == 0xFFFE;
    assert Checksums([], [part]) == [Checksum(one)] + Checksums([], []);
  }

  /** A failing run: two packets of the one word 1, the first result not taken when it is presented. The
      second result is 0xFFFD where both checksums are 0xFFFE. */
  lemma SecondResultIsOff()
    ensures var word, pass, take := Input4(true, 1, 0, true, false), Input4(false, 0, 0, false, false),
        Input4(false, 0, 0, false, true);
      var xs := [word, pass, pass, pass] + [word, pass, pass, take];
      && Results4(RESET4, xs) == [0xFFFD]
      && Checksums([], Accepted4(RESET4, xs)) == [0xFFFE, 0xFFFE]
  {
    hide Accepted4, Results4, Checksums;
    var word, pass, take := Input4(true, 1, 0, true, false), Input4(false, 0, 0, false, false),
      Input4(false, 0, 0, false, true);
    var second := [word, pass, pass, take];
    FourCycles(RESET4, word, pass, second);
    FourCycles(Acc4(1, 0, Idle), word, take, []);
    assert [word, pass, pass, take] + [] == second;
    NoCycles(RESET4);
    var part := Part([1, 0], true);
    assert [part] + ([part] + []) == [part, part];
    ChecksumsOfOnes();
  }

  /** The result presented after missed packets is still its own packet's checksum if and only if what
      they left counts as zero for it: all their words are zero, or it comes round to all ones and the
      packet has a word that is not zero. */
  lemma RightAfterMissesIff(missed: seq<seq<Half>>, packet: seq<Half>)
    requires forall k :: 0 <= k < |missed| ==> |missed[k]| % 2 == 0
    ensures Checksum(Counted(missed + [packet])) == Checksum(packet)
       <==> || AllZero(missed)
            || (Total(Left(missed)) % 0xFFFF == 0 && exists k :: 0 <= k < |packet| && packet[k] != 0)
  {
    hide OnesSum, OnesAdd, AllHighs;
    var left := Left(missed);
    assert (missed + [packet])[..|missed|] == missed;
    SumAppend(left, packet);
    SumIsResidue(left);
    SumIsResidue(packet);
    NothingLeftIff(missed);
    LeftoverHarmlessIff(OnesSum(left), packet);
  }

  predicate AllZero(packets: seq<seq<Half>>) {
    forall k, j :: 0 <= k < |packets| && 0 <= j < |packets[k]| ==> packets[k][j] == 0
  }

  /** One missed packet leaves all its words, and once more the upper half of each 32 bits. */
  lemma LeftOfOne(packet: seq<Half>)
    ensures Left([packet]) == packet + Highs(packet)
  {
    CountedOne(packet);
    AllHighsGrow([], packet);
    assert [] + [packet] == [packet];
    assert AllHighs([]) + Highs(packet) == Highs(packet);
  }

  lemma LeftoverHarmlessIff(left: Half, packet: seq<Half>)
    ensures OnesAdd(left, OnesSum(packet)) == OnesSum(packet)
       <==> left == 0 || (left == 0xFFFF && exists k :: 0 <= k < |packet| && packet[k] != 0)
  {
    SumIsResidue(packet);
  }

  lemma NothingLeft()
    ensures Left([]) == []
  {
  }

  lemma LeftTotal(missed: seq<seq<Half>>)
    requires missed != [] && |missed[|missed| - 1]| % 2 == 0
    ensures var front, last := missed[..|missed| - 1], missed[|missed| - 1];
      && Total(AllHighs(front)) <= Total(Left(front)) && Total(Highs(last)) <= Total(last)
      && Total(Left(missed)) == Total(Left(front)) + Total(last) + Total(AllHighs(front)) + Total(Highs(last))
  {
    hide Total, Highs;
    var front, last := missed[..|missed| - 1], missed[|missed| - 1];
    TotalAppend(Counted(missed), AllHighs(missed));
    TotalAppend(Left(front), last);
    TotalAppend(AllHighs(front), Highs(last));
    TotalAppend(Counted(front), AllHighs(front));
    LanesTotal(last);
  }

  lemma {:induction false} NothingLeftIff(missed: seq<seq<Half>>)
    requires forall k :: 0 <= k < |missed| ==> |missed[k]| % 2 == 0
    ensures Total(Left(missed)) == 0 <==> AllZero(missed)
    decreases |missed|
  {
    hide Left, Highs;
    if missed == [] {
      NothingLeft();
    } else {
      var front, last := missed[..|missed| - 1], missed[|missed| - 1];
      NothingLeftIff(front);
      LeftTotal(missed);
      SumIsResidue(last);
      assert missed == front + [last];
      assert AllZero(missed) <==> AllZero(front) && forall j :: 0 <= j < |last| ==> last[j] == 0;
    }
  }

  // ---------- The hardware ----------

  class Checksum2 {
    var acc: nat
    var axisOTvalid: bool

    ghost predicate Valid()
      reads this
    {
      acc < 0x2_0000
    }

    ghost function View(): Acc2
      reads this
    {
      Acc2(acc, axisOTvalid)
    }

    constructor ()
      ensures Valid() && View() == Acc2(0, false)
    {
      acc, axisOTvalid := 0, false;
    }

    method Clock(iTvalid: bool, i: Word, oTready: bool) returns (iTready: bool, oTvalid: bool, csum: Half)
      requires Valid() && i.Lanes(2)
      modifies this
      ensures Valid()
      ensures iTready == !oTvalid && oTvalid == old(axisOTvalid) && csum == Csum(old(acc))
      ensures View() == Next2(old(View()), Lines2(iTvalid, i, oTready))
    {
      hide Accumulate, Csum, Lanes16;
      iTready, oTvalid := !axisOTvalid, axisOTvalid;
      csum := Csum(acc);
      if oTready && axisOTvalid {
        axisOTvalid, acc := false, 0;
      } else if iTready && iTvalid {
        acc := Accumulate(acc, Lanes16(i, 0));
        if i.last {
          axisOTvalid := true;
        }
      }
    }
  }

  class Checksum4 {
    var acc: nat
    var accH: nat
    var shreg: nat  // axis_o_tvalid_shreg

    ghost predicate Valid()
      reads this
    {
      View().Ok() && (shreg == 0 || shreg == 4 || shreg == 2 || shreg == 1)
    }

    ghost function View(): Acc4
      reads this
    {
      Acc4(acc, accH,
        if shreg == 4 then Folding else if shreg == 2 then Adding else if shreg == 1 then Presented else Idle)
    }

    constructor ()
      ensures Valid() && View() == Acc4(0, 0, Idle)
    {
      acc, accH, shreg := 0, 0, 0;
    }

    method Clock(iTvalid: bool, i: Word, oTready: bool) returns (iTready: bool, oTvalid: bool, csum: Half)
      requires Valid() && i.Lanes(4)
      modifies this
      ensures Valid()
      ensures iTready == old(View()).stage.Idle? && oTvalid == old(View()).stage.Presented? && csum == Csum(old(acc))
      ensures View() == Next4(old(View()), Lines4(iTvalid, i, oTready))
    {
      hide Accumulate, Fold, Bits17, Csum, Lanes16;
      var a, h, was := acc, accH, shreg;
      iTready, oTvalid := was == 0, was % 2 == 1;
      csum := Csum(a);
      if oTready && oTvalid {
        acc, accH, shreg := 0, 0, 0;
      } else {
        shreg := was / 2;
        if iTready && iTvalid {
          acc := Accumulate(a, Lanes16(i, 0));
          accH := Accumulate(h, Lanes16(i, 2));
          if i.last {
            shreg := 4;
          }
        }
        if was == 4 {
          acc, accH := Bits17(Fold(a)), Bits17(Fold(h));
        }
        if was == 2 {
          acc := Bits17(a + h);
        }
      }
    }
  }
}
