/** synth/network/eth_framer.sv, for every stream width up to that of the 14-byte header: the header,
    cut to the stream's width, is joined in front of the payload, and packed if that may leave gaps. */
module EthFramer {
  import opened Axis
  import opened ByteStream
  import opened WidthConverter
  import AxisJoiner
  import Packer

  const HEADER_BYTES := 14

  predicate Width(n: nat) { 1 <= n <= HEADER_BYTES }

  /** Only then is there a packer behind the joiner, and then only if the output is required packed. */
  predicate Gaps(n: nat) { Width(n) && HEADER_BYTES % n != 0 }

  function HeaderShape(n: nat): (p: Shape)
    requires Width(n)
    ensures p.Valid() && p.wide == HEADER_BYTES && p.narrow == n
  {
    ShapeOf(HEADER_BYTES, n)
  }

  function ByteSwap2(v: nat): (r: nat)
    requires v < 0x1_0000
    ensures r < 0x1_0000
  {
    v % 0x100 * 0x100 + v / 0x100
  }

  /** The two byte lanes of a 16-bit vector, lowest first. */
  function Lanes2(v: nat): (bytes: seq<byte>)
    requires v < 0x1_0000
    ensures |bytes| == 2
  {
    [v % 0x100, v / 0x100]
  }

  datatype Packet = Packet(dst: seq<byte>, src: seq<byte>, ethertype: nat, words: seq<Word>) {
    predicate Ok(n: nat) {
      |dst| == 6 && |src| == 6 && ethertype < 0x1_0000 && Body(n, words)
    }

    /** What the data lines of the header converter carry. */
    function Header(): (bytes: seq<byte>)
      requires |dst| == 6 && |src| == 6 && ethertype < 0x1_0000
      ensures |bytes| == HEADER_BYTES
    {
      dst + src + Lanes2(ByteSwap2(ethertype))
    }
  }

  /** A frame begins with the destination, then the source, then the ethertype with its high byte first,
      section 3.1.1 of IEEE 802.3-2018. */
  lemma HeaderLayout(p: Packet)
    requires |p.dst| == 6 && |p.src| == 6 && p.ethertype < 0x1_0000
    ensures var h, high: int, low: int := p.Header(), p.Header()[12], p.Header()[13];
      h[..6] == p.dst && h[6..12] == p.src && high * 0x100 + low == p.ethertype
  {
  }

  /** A payload: last on its last word only, which carries a byte. Null bytes may be anywhere else. */
  predicate Body(n: nat, ws: seq<Word>) {
    && AllLanes(n, ws) && ws != []
    && (forall k :: 0 <= k < |ws| ==> ws[k].last == (k == |ws| - 1))
    && ToChunk(ws[|ws| - 1]).bytes != []
  }

  predicate AllOk(n: nat, ps: seq<Packet>) {
    forall k :: 0 <= k < |ps| ==> ps[k].Ok(n)
  }

  function HeaderWord(p: Packet): (w: Word)
    requires |p.dst| == 6 && |p.src| == 6 && p.ethertype < 0x1_0000
    ensures w.Lanes(HEADER_BYTES)
  {
    Word(p.Header(), seq(HEADER_BYTES, _ => true), true)
  }

  // ---------- Header converter, gate and joiner ----------

  /** `todo` is what the source has to send: a packet's words and, beside them, its addresses stay on
      offer until taken (section 2.2.1 of the AXI4-Stream specification). */
  datatype Front = Front(todo: seq<Packet>, data: bool, ctr: nat, stream: nat) {
    /** The state register and the joiner's counter move together. */
    predicate Ok(n: nat) {
      && Width(n) && AllOk(n, todo)
      && ctr < HeaderShape(n).slots && stream == (if data then 1 else 0)
      && (data ==> todo != [] && ctr == 0) && (ctr > 0 ==> todo != [])
    }

    predicate HeaderValid(offers: bool) { offers && todo != [] && !data }

    predicate GatedValid(offers: bool) { offers && todo != [] && data }

    function HeaderNative(n: nat, offers: bool): (o: Option<Word>)
      requires Ok(n)
      ensures o.Some? ==> o.value.Lanes(n)
    {
      var p := HeaderShape(n);
      if HeaderValid(offers) then Some(Slot(p, Pad(p, HeaderWord(todo[0])), ctr)) else None
    }

    function Gated(n: nat, offers: bool): (o: Option<Word>)
      requires Ok(n)
      ensures o.Some? ==> o.value.Lanes(n)
    {
      if GatedValid(offers) then Some(todo[0].words[0]) else None
    }

    /** The word offered to the packer. */
    function Unpacked(n: nat, offers: bool): (o: Option<Word>)
      requires Ok(n)
      ensures o.Some? ==> o.value.Lanes(n)
    {
      AxisJoiner.Joined(2, stream, [HeaderNative(n, offers), Gated(n, offers)])
    }
  }

  predicate HeaderTaken(n: nat, s: Front, offers: bool, ready: bool)
    requires s.Ok(n)
  {
    s.HeaderValid(offers) && HeaderShape(n).High(s.ctr) && s.stream == 0 && ready
  }

  predicate PayloadTaken(s: Front, offers: bool, ready: bool) {
    s.GatedValid(offers) && s.stream == 1 && ready
  }

  function FrontNext(n: nat, s: Front, offers: bool, ready: bool): (r: Front)
    requires s.Ok(n)
    ensures r.Ok(n)
  {
    var taken := PayloadTaken(s, offers, ready);
    Front(
      if !taken then s.todo
      else if s.todo[0].words[0].last then s.todo[1..]
      else s.todo[0 := s.todo[0].(words := s.todo[0].words[1..])],
      if !s.data then HeaderTaken(n, s, offers, ready) else !(taken && s.todo[0].words[0].last),
      DownStep(HeaderShape(n), s.ctr, if s.HeaderValid(offers) then Some(HeaderWord(s.todo[0])) else None,
        s.stream == 0 && ready),
      AxisJoiner.NextStream(2, s.stream, [s.HeaderNative(n, offers), s.Gated(n, offers)], ready))
  }

  function FrontGiven(n: nat, s: Front, offers: bool, ready: bool): (ws: seq<Word>)
    requires s.Ok(n)
    ensures AllLanes(n, ws)
  {
    if ready then s.Unpacked(n, offers).ToSeq() else []
  }

  /** Nothing leaves, and nothing changes, while the source offers nothing. */
  lemma IdleSource(n: nat, s: Front, ready: bool)
    requires s.Ok(n)
    ensures FrontGiven(n, s, false, ready) == [] && FrontNext(n, s, false, ready) == s
  {
  }

  /** The header in words of the stream's width, from slot k on; none of them ends the packet. */
  function HeaderWords(n: nat, p: Packet, k: nat): (ws: seq<Word>)
    requires Width(n) && p.Ok(n) && k <= HeaderShape(n).slots
    ensures AllLanes(n, ws)
  {
    var shape := HeaderShape(n);
    SlotsFrom(shape, Pad(shape, HeaderWord(p).(last := false)), k)
  }

  function FrameWords(n: nat, ps: seq<Packet>): (ws: seq<Word>)
    requires Width(n) && AllOk(n, ps)
    ensures AllLanes(n, ws)
  {
    if ps == [] then [] else HeaderWords(n, ps[0], 0) + ps[0].words + FrameWords(n, ps[1..])
  }

  /** The words still to come out of the joiner. */
  function FrontLeft(n: nat, s: Front): (ws: seq<Word>)
    requires s.Ok(n)
    ensures AllLanes(n, ws)
  {
    if s.todo == [] then []
    else (if s.data then [] else HeaderWords(n, s.todo[0], s.ctr)) + s.todo[0].words + FrameWords(n, s.todo[1..])
  }

  lemma FrontConserves(n: nat, s: Front, offers: bool, ready: bool)
    requires s.Ok(n)
    ensures FrontLeft(n, s) == FrontGiven(n, s, offers, ready) + FrontLeft(n, FrontNext(n, s, offers, ready))
  {
    if offers && s.todo != [] && ready {
      if s.data {
        PayloadMoves(n, s, offers, ready);
      } else {
        HeaderMoves(n, s, offers, ready);
      }
    }
  }

  lemma PayloadMoves(n: nat, s: Front, offers: bool, ready: bool)
    requires s.Ok(n) && PayloadTaken(s, offers, ready)
    ensures FrontLeft(n, s) == FrontGiven(n, s, offers, ready) + FrontLeft(n, FrontNext(n, s, offers, ready))
  {
    hide HeaderWords, HeaderTaken;
    var r, w, rest := FrontNext(n, s, offers, ready), s.todo[0].words[0], s.todo[0].words[1..];
    assert s.todo[0].words == [w] + rest;
    assert FrontGiven(n, s, offers, ready) == [w];
    if w.last {
      assert rest == [];
      assert FrontLeft(n, r) == FrameWords(n, s.todo[1..]);
    } else {
      assert r.todo[1..] == s.todo[1..];
    }
  }

  /** The word the joiner passes on in the header phase is the next of the header's words. */
  lemma HeaderWordMoves(n: nat, s: Front, offers: bool, ready: bool)
    requires s.Ok(n) && s.HeaderValid(offers) && ready
    ensures var p := s.todo[0];
      && HeaderWords(n, p, s.ctr) == FrontGiven(n, s, offers, ready) + HeaderWords(n, p, s.ctr + 1)
      && (HeaderTaken(n, s, offers, ready) ==> HeaderWords(n, p, s.ctr + 1) == [])
  {
    hide FrameWords, FrontLeft, FrontNext;
  }

  lemma HeaderPhase(n: nat, s: Front, offers: bool, ready: bool)
    requires s.Ok(n) && s.HeaderValid(offers) && ready
    ensures var r := FrontNext(n, s, offers, ready);
      && r.todo == s.todo && r.data == HeaderTaken(n, s, offers, ready) && (!r.data ==> r.ctr == s.ctr + 1)
  {
  }

  lemma HeaderMoves(n: nat, s: Front, offers: bool, ready: bool)
    requires s.Ok(n) && s.HeaderValid(offers) && ready
    ensures FrontLeft(n, s) == FrontGiven(n, s, offers, ready) + FrontLeft(n, FrontNext(n, s, offers, ready))
  {
    hide FrameWords, FrontNext, HeaderWords, HeaderTaken, FrontGiven;
    HeaderPhase(n, s, offers, ready);
    HeaderWordMoves(n, s, offers, ready);
  }

  // ---------- The stream of frames ----------

  /** What a packet must come out as: its header and its payload, as one packet. */
  function FrameStream(n: nat, ps: seq<Packet>): seq<Token>
    requires AllOk(n, ps)
  {
    if ps == [] then [] else Marks(ps[0].Header()) + WordStream(ps[0].words) + FrameStream(n, ps[1..])
  }

  lemma HeaderTokens(n: nat, p: Packet)
    requires Width(n) && p.Ok(n)
    ensures WordStream(HeaderWords(n, p, 0)) == Marks(p.Header())
  {
    var w := HeaderWord(p).(last := false);
    SlotsCarryWord(HeaderShape(n), w);
    KeptPacked(w.data, w.keep, HEADER_BYTES);
    assert w.data[..HEADER_BYTES] == p.Header();
  }

  lemma {:induction false} FrameWordsStream(n: nat, ps: seq<Packet>)
    requires Width(n) && AllOk(n, ps)
    ensures WordStream(FrameWords(n, ps)) == FrameStream(n, ps)
  {
    if ps != [] {
      var header, words, rest := HeaderWords(n, ps[0], 0), ps[0].words, FrameWords(n, ps[1..]);
      HeaderTokens(n, ps[0]);
      FrameWordsStream(n, ps[1..]);
      WordStreamAppend(header, words);
      WordStreamAppend(header + words, rest);
    }
  }

  // ---------- Without a packer ----------

  datatype Cycle = Cycle(offers: bool, oTready: bool)

  function FrontRun(n: nat, s: Front, cs: seq<Cycle>): (r: Front)
    requires s.Ok(n)
    ensures r.Ok(n)
    decreases |cs|
  {
    if cs == [] then s else FrontRun(n, FrontNext(n, s, cs[0].offers, cs[0].oTready), cs[1..])
  }

  /** The words the joiner hands over. */
  function Handed(n: nat, s: Front, cs: seq<Cycle>): (ws: seq<Word>)
    requires s.Ok(n)
    ensures AllLanes(n, ws)
    decreases |cs|
  {
    if cs == [] then [] else
      FrontGiven(n, s, cs[0].offers, cs[0].oTready)
      + Handed(n, FrontNext(n, s, cs[0].offers, cs[0].oTready), cs[1..])
  }

  lemma {:induction false} HandedConserves(n: nat, s: Front, cs: seq<Cycle>)
    requires s.Ok(n)
    ensures FrontLeft(n, s) == Handed(n, s, cs) + FrontLeft(n, FrontRun(n, s, cs))
    decreases |cs|
  {
    hide FrontLeft, FrontGiven, FrontNext;
    if cs != [] {
      var c := cs[0];
      FrontConserves(n, s, c.offers, c.oTready);
      HandedConserves(n, FrontNext(n, s, c.offers, c.oTready), cs[1..]);
    }
  }

  /** Every width up to 14 bytes, any packets, any source and any back-pressure: the words of header and
      payload of each packet are what was handed over and what is still to come; read as bytes and packet
      ends they are the frames. */
  lemma FramesTheWords(n: nat, ps: seq<Packet>, cs: seq<Cycle>)
    requires Width(n) && AllOk(n, ps)
    ensures var s := Front(ps, false, 0, 0);
      && FrameWords(n, ps) == Handed(n, s, cs) + FrontLeft(n, FrontRun(n, s, cs))
      && FrameStream(n, ps) == WordStream(Handed(n, s, cs)) + WordStream(FrontLeft(n, FrontRun(n, s, cs)))
  {
    var s := Front(ps, false, 0, 0);
    HandedConserves(n, s, cs);
    FrameWordsStream(n, ps);
    WordStreamAppend(Handed(n, s, cs), FrontLeft(n, FrontRun(n, s, cs)));
  }

  // ---------- The framer ----------

  datatype State = State(front: Front, packer: Packer.State) {
    ghost predicate Ok(n: nat) {
      front.Ok(n) && Packer.Ok(n, packer) && Packer.Solid(packer)
    }
  }

  function Reset(n: nat, ps: seq<Packet>): (s: State)
    requires Gaps(n) && AllOk(n, ps)
    ensures s.Ok(n)
  {
    State(Front(ps, false, 0, 0), Packer.Reset(n))
  }

  function PackerInput(n: nat, s: State, c: Cycle): (x: Packer.Input)
    requires s.Ok(n)
    ensures x.word.Some? ==> x.word.value.Lanes(n)
  {
    Packer.Input(s.front.Unpacked(n, c.offers), c.oTready)
  }

  function Next(n: nat, s: State, c: Cycle): (r: State)
    requires s.Ok(n)
  {
    State(FrontNext(n, s.front, c.offers, Packer.AxisITready(n, s.packer, c.oTready)),
      Packer.Step(n, s.packer, PackerInput(n, s, c)))
  }

  function Given(n: nat, s: State, c: Cycle): seq<Chunk>
    requires s.Ok(n)
  {
    Packer.Given(n, s.packer, PackerInput(n, s, c))
  }

  lemma HeaderNotLast(n: nat, s: Front, offers: bool)
    requires s.Ok(n)
    ensures s.Unpacked(n, offers).Some? ==> !Packer.NullLast(s.Unpacked(n, offers).value)
  {
  }

  lemma NextOk(n: nat, s: State, c: Cycle)
    requires s.Ok(n)
    ensures Next(n, s, c).Ok(n)
    ensures NonNull(Given(n, s, c)) && AllWellPacked(n, Given(n, s, c))
  {
    var x := PackerInput(n, s, c);
    HeaderNotLast(n, s.front, c.offers);
    Packer.StepOk(n, s.packer, x);
    Packer.StepStaysSolid(n, s.packer, x);
  }

  /** What is still to come: inside the packer, then what the joiner will yet deliver. */
  function Left(n: nat, s: State): seq<Token>
    requires s.Ok(n)
  {
    Packer.Inside(n, s.packer) + WordStream(FrontLeft(n, s.front))
  }

  lemma FrontTokens(n: nat, s: Front, offers: bool, ready: bool)
    requires s.Ok(n)
    ensures WordStream(FrontLeft(n, s))
         == WordStream(FrontGiven(n, s, offers, ready)) + WordStream(FrontLeft(n, FrontNext(n, s, offers, ready)))
  {
    FrontConserves(n, s, offers, ready);
    WordStreamAppend(FrontGiven(n, s, offers, ready), FrontLeft(n, FrontNext(n, s, offers, ready)));
  }

  lemma NextConserves(n: nat, s: State, c: Cycle)
    requires s.Ok(n) && Next(n, s, c).Ok(n)
    ensures Left(n, s) == ChunkStream(Given(n, s, c)) + Left(n, Next(n, s, c))
  {
    hide WordStream, ChunkStream, FrontLeft, Packer.Inside, FrontNext, Packer.Step, Packer.Given, Front.Unpacked,
      Packer.AxisITready;
    var x, r := PackerInput(n, s, c), Next(n, s, c);
    var ready := Packer.AxisITready(n, s.packer, c.oTready);
    FrontTokens(n, s.front, c.offers, ready);
    Packer.StepConserves(n, s.packer, x);
    Through(Packer.Inside(n, s.packer), WordStream(FrontGiven(n, s.front, c.offers, ready)),
      WordStream(FrontLeft(n, r.front)), ChunkStream(Given(n, s, c)), Packer.Inside(n, r.packer));
  }

  lemma Through<T>(inside: seq<T>, moved: seq<T>, rest: seq<T>, given: seq<T>, inside': seq<T>)
    requires inside + moved == given + inside'
    ensures inside + (moved + rest) == given + (inside' + rest)
  {
    calc {
      inside + (moved + rest);
      (inside + moved) + rest;
      given + (inside' + rest);
    }
  }

  function Run(n: nat, s: State, cs: seq<Cycle>): (r: State)
    requires s.Ok(n)
    ensures r.Ok(n)
    decreases |cs|
  {
    if cs == [] then s else
      NextOk(n, s, cs[0]);
      Run(n, Next(n, s, cs[0]), cs[1..])
  }

  /** The words transferred at the output, without their null lanes. */
  function Emitted(n: nat, s: State, cs: seq<Cycle>): (es: seq<Chunk>)
    requires s.Ok(n)
    ensures AllWellPacked(n, es) && NonNull(es)
    decreases |cs|
  {
    if cs == [] then [] else
      NextOk(n, s, cs[0]);
      Given(n, s, cs[0]) + Emitted(n, Next(n, s, cs[0]), cs[1..])
  }

  lemma {:induction false} RunConserves(n: nat, s: State, cs: seq<Cycle>)
    requires s.Ok(n)
    ensures Left(n, s) == ChunkStream(Emitted(n, s, cs)) + Left(n, Run(n, s, cs))
    decreases |cs|
  {
    hide Left, Given, Next, State.Ok;
    if cs != [] {
      var next := Next(n, s, cs[0]);
      NextOk(n, s, cs[0]);
      NextConserves(n, s, cs[0]);
      RunConserves(n, next, cs[1..]);
      ChunkStreamAppend(Given(n, s, cs[0]), Emitted(n, next, cs[1..]));
      Onward(Left(n, s), ChunkStream(Given(n, s, cs[0])), Left(n, next), ChunkStream(Emitted(n, next, cs[1..])),
        Left(n, Run(n, s, cs)));
    }
  }

  lemma Onward<T>(before: seq<T>, out0: seq<T>, middle: seq<T>, outs: seq<T>, after: seq<T>)
    requires before == out0 + middle && middle == outs + after
    ensures before == (out0 + outs) + after
  {
  }

  /** Every run from reset, any packets, any source and any back-pressure: the frames of the packets
      are what was emitted followed by what is still to come. */
  lemma FramesTheStream(n: nat, ps: seq<Packet>, cs: seq<Cycle>)
    requires Gaps(n) && AllOk(n, ps)
    ensures FrameStream(n, ps)
         == ChunkStream(Emitted(n, Reset(n, ps), cs)) + Left(n, Run(n, Reset(n, ps), cs))
  {
    RunConserves(n, Reset(n, ps), cs);
    FrameWordsStream(n, ps);
    Packer.ResetIsEmpty(n);
    StartLeft(n, ps);
  }

  lemma StartLeft(n: nat, ps: seq<Packet>)
    requires Gaps(n) && AllOk(n, ps)
    ensures FrontLeft(n, Reset(n, ps).front) == FrameWords(n, ps)
  {
  }

  // ---------- The hardware ----------

  /** The state register with the header converter, the gate and the joiner. */
  class FrontEnd {
    const n: nat
    var data: bool
    const crcUnpacker: WideToNarrow
    const outJoiner: AxisJoiner.Joiner

    ghost predicate Valid()
      reads this, crcUnpacker, outJoiner
    {
      && Width(n) && crcUnpacker.p == HeaderShape(n) && outJoiner.streams == 2
      && crcUnpacker.Valid() && outJoiner.Valid()
    }

    /** With what the source has to send. */
    ghost function View(todo: seq<Packet>): Front
      reads this, crcUnpacker, outJoiner
    {
      Front(todo, data, crcUnpacker.ctr, outJoiner.ctr)
    }

    constructor (n: nat)
      requires Width(n)
      ensures Valid() && fresh(crcUnpacker) && fresh(outJoiner) && this.n == n
      ensures forall ps :: View(ps) == Front(ps, false, 0, 0)
    {
      this.n := n;
      data := false;
      crcUnpacker := new WideToNarrow(HEADER_BYTES, n);
      outJoiner := new AxisJoiner.Joiner(2);
    }

    function Header(o: Offer): (w: Option<Word>)
      requires o.Ok(n)
      reads this
      ensures w.Some? ==> w.value.Lanes(HEADER_BYTES)
    {
      if o.iTvalid && !data then
        Some(Word(o.dst + o.src + Lanes2(ByteSwap2(o.ethertype)), seq(HEADER_BYTES, _ => true), true))
      else None
    }

    /** The streams into the joiner. */
    function Streams(o: Offer): (ins: seq<Option<Word>>)
      requires Valid() && o.Ok(n)
      reads this, crcUnpacker, outJoiner
      ensures |ins| == 2
      ensures forall todo :: o.Of(todo) && View(todo).Ok(n) ==>
        ins == [View(todo).HeaderNative(n, o.iTvalid), View(todo).Gated(n, o.iTvalid)]
    {
      var header, p := Header(o), crcUnpacker.p;
      [if header.Some? then Some(Slot(p, Pad(p, header.value), crcUnpacker.ctr)) else None,
       if o.iTvalid && data then Some(o.i) else None]
    }

    /** The joiner's output lines. */
    function Out(o: Offer): (w: Option<Word>)
      requires Valid() && o.Ok(n)
      reads this, crcUnpacker, outJoiner
      ensures forall todo :: o.Of(todo) && View(todo).Ok(n) ==> w == View(todo).Unpacked(n, o.iTvalid)
    {
      outJoiner.Out(Streams(o))
    }

    method Clock(ghost todo: seq<Packet>, o: Offer, ready: bool) returns (iTready: bool)
      requires Valid() && o.Ok(n) && o.Of(todo) && View(todo).Ok(n)
      modifies this, crcUnpacker, outJoiner
      ensures Valid()
      ensures o.iTvalid ==> (iTready <==> PayloadTaken(old(View(todo)), true, ready))
      ensures var next := FrontNext(n, old(View(todo)), o.iTvalid, ready); View(next.todo) == next
    {
      var header, ins := Header(o), Streams(o);
      var nativeTready, gatedTready := outJoiner.AxisITready(0, ready), outJoiner.AxisITready(1, ready);
      outJoiner.Clock(ins, ready);
      var headerReady, _ := crcUnpacker.Clock(header, nativeTready);
      iTready := data && gatedTready;
      if !data {
        data := headerReady && header.Some?;
      } else if iTready && o.iTvalid && o.i.last {
        data := false;
      }
    }
  }

  /** The input lines of a cycle, valid or not. */
  datatype Offer = Offer(iTvalid: bool, i: Word, dst: seq<byte>, src: seq<byte>, ethertype: nat) {
    predicate Ok(n: nat) { i.Lanes(n) && |dst| == |src| == 6 && ethertype < 0x1_0000 }

    /** What is offered is the source's first packet. */
    predicate Of(todo: seq<Packet>) {
      iTvalid ==>
        && todo != [] && todo[0].words != [] && i == todo[0].words[0]
        && dst == todo[0].dst && src == todo[0].src && ethertype == todo[0].ethertype
    }
  }

  /** The output lines are the joiner's. */
  class DirectFramer {
    const n: nat
    const front: FrontEnd

    ghost function Repr(): set<object> {
      {front, front.crcUnpacker, front.outJoiner}
    }

    ghost predicate Valid()
      reads Repr()
    {
      front.n == n && front.Valid()
    }

    constructor (n: nat)
      requires Width(n)
      ensures Valid() && fresh(Repr()) && this.n == n
      ensures forall ps :: front.View(ps) == Front(ps, false, 0, 0)
    {
      this.n := n;
      front := new FrontEnd(n);
    }

    method Clock(ghost todo: seq<Packet>, o: Offer, oTready: bool) returns (iTready: bool, out: Option<Word>)
      requires Valid() && o.Ok(n) && o.Of(todo) && front.View(todo).Ok(n)
      modifies Repr()
      ensures Valid()
      ensures out == old(front.View(todo)).Unpacked(n, o.iTvalid)
      ensures o.iTvalid ==> (iTready <==> PayloadTaken(old(front.View(todo)), true, oTready))
      ensures var next := FrontNext(n, old(front.View(todo)), o.iTvalid, oTready); front.View(next.todo) == next
    {
      hide FrontNext;
      out := front.Out(o);
      iTready := front.Clock(todo, o, oTready);
    }
  }

  class Framer {
    const n: nat
    const front: FrontEnd
    const packer: Packer.AxisPacker

    ghost function FrontRepr(): set<object> {
      {front, front.crcUnpacker, front.outJoiner}
    }

    ghost predicate Valid()
      reads FrontRepr(), packer.Repr()
    {
      && FrontRepr() !! packer.Repr() && front.n == n && packer.n == n
      && front.Valid() && packer.Valid()
    }

    ghost function View(todo: seq<Packet>): State
      requires packer.combine.Valid()
      reads FrontRepr(), packer.combine, packer.Repr()
    {
      State(front.View(todo), packer.View())
    }

    constructor (n: nat)
      requires Gaps(n)
      ensures Valid() && fresh(FrontRepr() + packer.Repr()) && this.n == n
      ensures forall ps :: AllOk(n, ps) ==> View(ps) == Reset(n, ps)
    {
      this.n := n;
      front := new FrontEnd(n);
      packer := new Packer.AxisPacker(n);
    }

    /** One cycle: the word and the fields offered, and the output word shown. */
    method Clock(ghost todo: seq<Packet>, o: Offer, oTready: bool) returns (iTready: bool, out: Option<Word>)
      requires Valid() && o.Ok(n) && o.Of(todo) && View(todo).Ok(n)
      modifies FrontRepr(), packer.Repr()
      ensures Valid()
      ensures out.Some? <==> old(View(todo)).packer.acc.OTvalid(n)
      ensures out.Some? ==> out.value.Lanes(n) && ToChunk(out.value) == old(View(todo)).packer.acc.Out()
      ensures o.iTvalid ==>
        var s := old(View(todo));
        (iTready <==> PayloadTaken(s.front, true, Packer.AxisITready(n, s.packer, oTready)))
      ensures var next := Next(n, old(View(todo)), Cycle.Cycle(o.iTvalid, oTready)); View(next.front.todo) == next
    {
      hide Packer.Step, Packer.AxisITready, Packer.Ok, Packer.Solid, FrontNext, Front.Ok, Front.Unpacked;
      ghost var s := View(todo);
      out := packer.AxisO();
      var unpacked := front.Out(o);
      var ready := packer.Clock(unpacked.Some?, if unpacked.Some? then unpacked.value else o.i, oTready);
      iTready := front.Clock(todo, o, ready);
    }
  }
}
