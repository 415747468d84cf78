/** The framer for streams wider than its header, with the packer that is always built behind the joiner:
    14 modulo a greater width is 14. The packer's ready line is then the only one that can stall a
    header, and it does: a sink that is not ready is enough. */
module EthFramerWidePacked {
  import opened Axis
  import opened ByteStream
  import opened EthFramerWide
  import AxisJoiner
  import C = PackerCombine
  import F = EthFramer
  import Packer
  import PackerNulls
  import WidthConverter

  datatype State = State(front: Front, packer: Packer.State) {
    ghost predicate Ok(n: nat) { front.Ok(n) && Packer.Ok(n, packer) }
  }

  /** One cycle at the framer's ports. */
  datatype Ports = Ports(offers: bool, junk: Word, oTready: bool) {
    predicate Ok() { junk.Lanes(F.HEADER_BYTES) }
  }

  /** The cycle of the front: its ready line is the packer's. */
  function FrontCycle(n: nat, s: State, c: Ports): (r: Cycle)
    requires s.Ok(n) && c.Ok()
    ensures r.Ok()
  {
    Cycle(c.offers, c.junk, Packer.AxisITready(n, s.packer, c.oTready))
  }

  function PackerInput(n: nat, s: State, c: Ports): (x: Packer.Input)
    requires s.Ok(n) && c.Ok()
    ensures x.word.Some? ==> x.word.value.Lanes(n)
  {
    Packer.Input(AxisJoiner.Joined(2, s.front.stream, Streams(n, s.front, FrontCycle(n, s, c))), c.oTready)
  }

  function Next(n: nat, s: State, c: Ports): State
    requires s.Ok(n) && c.Ok()
  {
    State(FrontNext(n, s.front, FrontCycle(n, s, c)), Packer.Step(n, s.packer, PackerInput(n, s, c)))
  }

  function Given(n: nat, s: State, c: Ports): seq<Chunk>
    requires s.Ok(n) && c.Ok()
  {
    Packer.Given(n, s.packer, PackerInput(n, s, c))
  }

  function Remaining(n: nat, s: State): seq<Token>
    requires s.Ok(n)
  {
    Packer.Inside(n, s.packer) + Left(n, s.front)
  }

  /** A header is offered while the packer is not ready. */
  predicate HeaderStalls(n: nat, s: State, c: Ports)
    requires s.Ok(n) && c.Ok()
  {
    Stalls(s.front, FrontCycle(n, s, c))
  }

  /** What the packer takes is what the front hands over. */
  lemma TakenIsHanded(n: nat, s: State, c: Ports)
    requires s.Ok(n) && c.Ok()
    ensures Packer.Taken(n, s.packer, PackerInput(n, s, c)) == FrontGiven(n, s.front, FrontCycle(n, s, c))
  {
    hide Packer.AxisITready, Streams;
  }

  lemma NextOk(n: nat, s: State, c: Ports)
    requires s.Ok(n) && c.Ok()
    ensures Next(n, s, c).Ok(n)
    ensures Next(n, s, c).front.Jammed() <==> s.front.Jammed() || HeaderStalls(n, s, c)
  {
    hide Packer.Ok, Packer.Step, FrontNext, Packer.AxisITready, Streams;
    FrontConserves(n, s.front, FrontCycle(n, s, c));
    Packer.StepOk(n, s.packer, PackerInput(n, s, c));
  }

  lemma NextConserves(n: nat, s: State, c: Ports)
    requires s.Ok(n) && c.Ok() && Next(n, s, c).Ok(n) && !Next(n, s, c).front.Jammed()
    ensures Remaining(n, s) == ChunkStream(Given(n, s, c)) + Remaining(n, Next(n, s, c))
  {
    hide Packer.Step, FrontNext, Packer.AxisITready, Streams, FrontGiven, Left, Packer.Inside, WordStream, ChunkStream,
      Packer.Taken, Packer.Given;
    var f, x := FrontCycle(n, s, c), PackerInput(n, s, c);
    FrontConserves(n, s.front, f);
    Packer.StepConserves(n, s.packer, x);
    TakenIsHanded(n, s, c);
    F.Through(Packer.Inside(n, s.packer), WordStream(FrontGiven(n, s.front, f)), Left(n, FrontNext(n, s.front, f)),
      ChunkStream(Given(n, s, c)), Packer.Inside(n, Next(n, s, c).packer));
  }

  // ---------- Whole runs ----------

  predicate AllPorts(cs: seq<Ports>) {
    forall k :: 0 <= k < |cs| ==> cs[k].Ok()
  }

  function Run(n: nat, s: State, cs: seq<Ports>): (r: State)
    requires s.Ok(n) && AllPorts(cs)
    ensures r.Ok(n)
    decreases |cs|
  {
    hide Next, State.Ok;
    if cs == [] then s else
      NextOk(n, s, cs[0]);
      Run(n, Next(n, s, cs[0]), cs[1..])
  }

  function Emitted(n: nat, s: State, cs: seq<Ports>): seq<Chunk>
    requires s.Ok(n) && AllPorts(cs)
    decreases |cs|
  {
    hide Next, State.Ok;
    if cs == [] then [] else
      NextOk(n, s, cs[0]);
      Given(n, s, cs[0]) + Emitted(n, Next(n, s, cs[0]), cs[1..])
  }

  predicate EverHeaderStalls(n: nat, s: State, cs: seq<Ports>)
    requires s.Ok(n) && AllPorts(cs)
    decreases |cs|
  {
    hide Next, State.Ok;
    cs != [] && (
      || HeaderStalls(n, s, cs[0])
      || (NextOk(n, s, cs[0]); EverHeaderStalls(n, Next(n, s, cs[0]), cs[1..])))
  }

  lemma {:induction false} JammedForever(n: nat, s: State, cs: seq<Ports>)
    requires s.Ok(n) && AllPorts(cs) && s.front.Jammed()
    ensures Run(n, s, cs).front.Jammed()
    decreases |cs|
  {
    hide Next, State.Ok;
    if cs != [] {
      NextOk(n, s, cs[0]);
      JammedForever(n, Next(n, s, cs[0]), cs[1..]);
    }
  }

  /** Any run: the framer jams if and only if a header is offered while the packer is not ready; until then
      the frames are what was emitted and what is still to come. */
  lemma {:induction false} RunConserves(n: nat, s: State, cs: seq<Ports>)
    requires s.Ok(n) && AllPorts(cs) && !s.front.Jammed()
    ensures Run(n, s, cs).front.Jammed() <==> EverHeaderStalls(n, s, cs)
    ensures !EverHeaderStalls(n, s, cs) ==>
      Remaining(n, s) == ChunkStream(Emitted(n, s, cs)) + Remaining(n, Run(n, s, cs))
    decreases |cs|
  {
    hide Next, State.Ok, Remaining, Given;
    if cs == [] {
      assert Remaining(n, s) == [] + Remaining(n, s);
    } else {
      var next, rest := Next(n, s, cs[0]), cs[1..];
      NextOk(n, s, cs[0]);
      if HeaderStalls(n, s, cs[0]) {
        JammedForever(n, next, rest);
      } else {
        NextConserves(n, s, cs[0]);
        RunConserves(n, next, rest);
        ChunkStreamAppend(Given(n, s, cs[0]), Emitted(n, next, rest));
        if !EverHeaderStalls(n, next, rest) {
          F.Onward(Remaining(n, s), ChunkStream(Given(n, s, cs[0])), Remaining(n, next),
            ChunkStream(Emitted(n, next, rest)), Remaining(n, Run(n, s, cs)));
        }
      }
    }
  }

  // ---------- The packer's back-pressure jams the framer ----------

  /** One-byte payloads, so that a frame is a header word and a payload word, and both fit one output word. */
  function Small(n: nat): (p: F.Packet)
    requires Width(n)
    ensures p.Ok(n) && |p.words| == 1 && p.words[0].last && ToChunk(p.words[0]) == Chunk([0], true)
  {
    var w := Word(seq(n, _ => 0), seq(n, i => i == 0), true);
    KeptPacked(w.data, w.keep, 1);
    assert w.data[..1] == [0];
    F.Packet([0, 0, 0, 0, 0, 0], [0, 0, 0, 0, 0, 0], 0, [w])
  }

  function Smalls(n: nat, k: nat): (ps: seq<F.Packet>)
    requires Width(n)
    ensures |ps| == k && F.AllOk(n, ps) && forall i :: 0 <= i < k ==> ps[i] == Small(n)
  {
    if k == 0 then [] else [Small(n)] + Smalls(n, k - 1)
  }

  /** The word number i of their frames. */
  function FrameWord(n: nat, i: nat): Chunk
    requires Width(n)
  {
    if i % 2 == 0 then Chunk(Small(n).Header(), false) else Chunk([0], true)
  }

  /** The words from number `first` on that the packer has accepted, `end` in all. */
  function FrameWordsOf(n: nat, first: nat, end: nat): (cs: seq<Chunk>)
    requires Width(n) && first <= end
    ensures |cs| == end - first
    ensures forall i :: 0 <= i < |cs| ==> cs[i] == FrameWord(n, first + i)
    decreases end - first
  {
    if first == end then [] else [FrameWord(n, first)] + FrameWordsOf(n, first + 1, end)
  }

  /** The combine register after `taken` of them, with a sink that takes nothing. */
  function AccAfter(n: nat, taken: nat): C.Acc
    requires Width(n) && taken <= 2
  {
    if taken == 0 then C.Acc([], false, 0)
    else if taken == 1 then C.Acc(Small(n).Header(), false, 0)
    else C.Acc(Small(n).Header() + [0], true, 0)
  }

  /** `accepted` words are in the packer, the first `taken` of them in its register. */
  ghost predicate Filling(n: nat, s: State, accepted: nat, taken: nat) {
    && s.Ok(n) && !s.front.Jammed()
    && taken <= 2 && taken <= accepted && s.packer.acc == AccAfter(n, taken)
    && PackerNulls.Queue(n, s.packer.regs) == FrameWordsOf(n, taken, accepted)
    && s.front.data == (accepted % 2 == 1) && |s.front.todo| + accepted / 2 == n
    && forall i :: 0 <= i < |s.front.todo| ==> s.front.todo[i] == Small(n)
  }

  /** One cycle of the combine stage: it takes the first two words and no more. */
  lemma CombineFills(n: nat, s: State, accepted: nat, taken: nat)
    requires Filling(n, s, accepted, taken)
    ensures var takes := Packer.CombineTakes(n, s.packer, false);
      && (s.packer.Offered().Some? ==> (takes <==> taken < 2) && accepted > taken)
      && C.CombineStep(n, s.packer.acc, Packer.OptChunk(s.packer.Offered()), false)
      == AccAfter(n, if s.packer.Offered().Some? && takes then taken + 1 else taken)
  {
    hide Packer.Ok, PackerNulls.Queue, Front.Ok;
    WidthOk(n, s);
    PackerNulls.QueueHead(n, s.packer.regs);
    if s.packer.Offered().Some? {
      assert ToChunk(s.packer.Offered().value) == FrameWord(n, taken);
      var h: seq<byte> := Small(n).Header();
      var b: seq<byte> := [0];
      assert h[..14] == h && b[..1] == b;
      assert [] + h == h;
    }
  }

  lemma WidthOk(n: nat, s: State)
    requires s.Ok(n)
    ensures Width(n) && Packer.PipeLanes(n, s.packer.regs) && |s.packer.regs| == n - 1
  {
  }

  lemma ChunkOfTokens(w: Word, bytes: seq<byte>)
    requires |w.data| == |w.keep| && !w.last && WordTokens(w) == Marks(bytes)
    ensures ToChunk(w) == Chunk(bytes, false)
  {
    var kept := Kept(w.data, w.keep);
    assert Marks(kept) == Marks(bytes);
    assert forall i :: 0 <= i < |kept| ==> Marks(kept)[i] == Byte(kept[i]) && Marks(bytes)[i] == Byte(bytes[i]);
  }

  /** In each ready cycle the front hands over the next word: a header, or a payload. */
  lemma FrontHands(n: nat, s: Front, c: Cycle)
    requires s.Ok(n) && c.Ok() && !s.Jammed() && s.todo != [] && s.todo[0] == Small(n) && c.offers && c.ready
    ensures var r, given := FrontNext(n, s, c), FrontGiven(n, s, c);
      && r.Ok(n) && !r.Jammed() && r.data == !s.data && r.todo == (if s.data then s.todo[1..] else s.todo)
      && |given| == 1 && ToChunk(given[0]) == if s.data then Chunk([0], true) else Chunk(Small(n).Header(), false)
  {
    hide F.FrameStream, WordStream, Left;
    if s.data {
      PayloadMoves(n, s, c);
    } else {
      HeaderPasses(n, s, c);
      HeaderHanded(n, s, c);
    }
  }

  lemma HeaderHanded(n: nat, s: Front, c: Cycle)
    requires s.Ok(n) && c.Ok() && s.HeaderValid(c.offers) && c.ready
    ensures var r, given := FrontNext(n, s, c), FrontGiven(n, s, c);
      && r.data && r.todo == s.todo
      && |given| == 1 && ToChunk(given[0]) == Chunk(s.todo[0].Header(), false)
  {
    hide F.FrameStream, WordStream, WidthConverter.UpNext, WidthConverter.UpOut, Kept;
    var p, x := HeaderShape(n), HeaderInput(n, s, c);
    HeaderOut(n, s.up, s.todo[0]);
    ChunkOfTokens(WidthConverter.UpOut(p, s.up, x.word).(last := false), s.todo[0].Header());
  }

  lemma {:induction false} FullQueue(n: nat, regs: seq<Option<Word>>, ready: bool)
    requires Packer.PipeLanes(n, regs)
    ensures |PackerNulls.Queue(n, regs)| <= |regs|
    ensures !Packer.PipeReady(regs, ready) ==> !ready && |PackerNulls.Queue(n, regs)| == |regs|
    decreases |regs|
  {
    hide ToChunk;
    if regs != [] {
      FullQueue(n, regs[1..], ready);
    }
  }

  lemma {:induction false} OneMoreWord(n: nat, first: nat, end: nat)
    requires Width(n) && first <= end
    ensures FrameWordsOf(n, first, end + 1) == FrameWordsOf(n, first, end) + [FrameWord(n, end)]
    ensures first < end ==> FrameWordsOf(n, first, end)[1..] == FrameWordsOf(n, first + 1, end)
    decreases end - first
  {
    if first < end {
      OneMoreWord(n, first + 1, end);
    }
  }

  /** The packer takes the word the front hands over. */
  lemma QueueFills(n: nat, s: State, c: Ports, accepted: nat, taken: nat) returns (taken': nat)
    requires Filling(n, s, accepted, taken) && c.Ok() && c.offers && !c.oTready && s.front.todo != []
    requires Packer.AxisITready(n, s.packer, false)
    ensures var r := Next(n, s, c).packer;
      && Packer.Ok(n, r) && taken <= taken' <= 2 && taken' <= accepted && r.acc == AccAfter(n, taken')
      && PackerNulls.Queue(n, r.regs) == FrameWordsOf(n, taken', accepted + 1)
  {
    hide Packer.Ok, Packer.PipeStep, PackerNulls.Queue, Front.Ok, FrontNext, Streams, Packer.AxisITready,
      Packer.CombineTakes, C.CombineStep, AccAfter, FrameWordsOf, ToChunk;
    var f, x := FrontCycle(n, s, c), PackerInput(n, s, c);
    WidthOk(n, s);
    FrontHands(n, s.front, f);
    TakenIsHanded(n, s, c);
    CombineFills(n, s, accepted, taken);
    PackerNulls.QueueStep(n, s.packer, x);
    OneMoreWord(n, taken, accepted);
    var takes := s.packer.Offered().Some? && Packer.CombineTakes(n, s.packer, false);
    assert PackerNulls.Entering(n, s.packer, x) == [FrameWord(n, accepted)];
    taken' := if takes then taken + 1 else taken;
    OneMoreWord(n, taken', accepted);
  }

  /** Either the packer takes one more word, or it is full, with a header waiting if the width is odd. */
  lemma Fills(n: nat, s: State, c: Ports, accepted: nat, taken: nat) returns (taken': nat)
    requires Filling(n, s, accepted, taken) && c.Ok() && c.offers && !c.oTready && n % 2 == 1
    ensures accepted <= n + 1 && s.front.todo != []
    ensures if Packer.AxisITready(n, s.packer, false) then Filling(n, Next(n, s, c), accepted + 1, taken')
            else HeaderStalls(n, s, c)
  {
    hide Packer.Ok, Packer.PipeStep, PackerNulls.Queue, Front.Ok, FrontNext, Streams, Packer.AxisITready,
      Packer.CombineTakes, C.CombineStep, AccAfter, FrameWordsOf, ToChunk;
    taken' := taken;
    WidthOk(n, s);
    FullQueue(n, s.packer.regs, Packer.CombineTakes(n, s.packer, false));
    if Packer.AxisITready(n, s.packer, false) {
      NextOk(n, s, c);
      FrontHands(n, s.front, FrontCycle(n, s, c));
      taken' := QueueFills(n, s, c, accepted, taken);
    } else {
      NotReady(n, s.packer);
      CombineFills(n, s, accepted, taken);
    }
  }

  lemma NotReady(n: nat, s: Packer.State)
    requires Packer.Ok(n, s) && !Packer.AxisITready(n, s, false)
    ensures !Packer.PipeReady(s.regs, Packer.CombineTakes(n, s, false)) && !Packer.CombineTakes(n, s, false)
    ensures s.Offered().Some?
  {
    FullQueue(n, s.regs, Packer.CombineTakes(n, s, false));
  }

  predicate Blocked(c: Ports) { c.Ok() && c.offers && !c.oTready }

  lemma {:induction false} FillsUp(n: nat, s: State, cs: seq<Ports>, accepted: nat, taken: nat)
    requires Filling(n, s, accepted, taken) && n % 2 == 1 && forall k :: 0 <= k < |cs| ==> Blocked(cs[k])
    requires |cs| + accepted >= n + 2
    ensures AllPorts(cs) && EverHeaderStalls(n, s, cs)
    decreases |cs|
  {
    hide Filling, Next, State.Ok, HeaderStalls, Packer.AxisITready;
    FillingOk(n, s, accepted, taken);
    FilledAtMost(n, s, accepted, taken);
    var taken' := Fills(n, s, cs[0], accepted, taken);
    if Packer.AxisITready(n, s.packer, false) {
      FillsUp(n, Next(n, s, cs[0]), cs[1..], accepted + 1, taken');
      NextOk(n, s, cs[0]);
    }
  }

  lemma FillingOk(n: nat, s: State, accepted: nat, taken: nat)
    requires Filling(n, s, accepted, taken)
    ensures s.Ok(n) && Width(n)
  {
  }

  lemma FilledAtMost(n: nat, s: State, accepted: nat, taken: nat)
    requires Filling(n, s, accepted, taken)
    ensures accepted <= n + 1
  {
    hide Packer.Ok, PackerNulls.Queue, Front.Ok;
    WidthOk(n, s);
    FullQueue(n, s.packer.regs, true);
  }

  function FromReset(n: nat, up: WidthConverter.Up): (s: State)
    requires Width(n) && up.Ok(HeaderShape(n)) && up.ctr == 0
    ensures s.Ok(n) && !s.front.Jammed()
  {
    State(Front(Smalls(n, n), false, up, 0), Packer.Reset(n))
  }

  /** From reset, for every odd width above fourteen: a source with one-byte payloads and a sink that takes
      nothing for n + 2 cycles, and the framer stands still for ever, whatever the sink does then. */
  lemma BackPressureJams(n: nat, up: WidthConverter.Up, cs: seq<Ports>)
    requires Width(n) && n % 2 == 1 && up.Ok(HeaderShape(n)) && up.ctr == 0
    requires |cs| >= n + 2 && forall k :: 0 <= k < |cs| ==> Blocked(cs[k])
    ensures AllPorts(cs) && Run(n, FromReset(n, up), cs).front.Jammed()
  {
    hide Run, EverHeaderStalls, Packer.Ok;
    var s := FromReset(n, up);
    PackerNulls.NothingQueued(n, s.packer.regs);
    assert Filling(n, s, 0, 0);
    FillsUp(n, s, cs, 0, 0);
    RunConserves(n, s, cs);
  }
}
