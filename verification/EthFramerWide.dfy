/** synth/network/eth_framer.sv for streams wider than the 14-byte header. The header converter then
    widens, and its ready line does not wait for the joiner: a header offered while the joiner is not
    ready is taken and never handed over, and the framer stands still for ever. */
module EthFramerWide {
  import opened Axis
  import opened ByteStream
  import opened WidthConverter
  import AxisJoiner
  import F = EthFramer

  predicate Width(n: nat) { n > F.HEADER_BYTES }

  function HeaderShape(n: nat): (p: Shape)
    requires Width(n)
    ensures p.Valid() && p.wide == n && p.narrow == F.HEADER_BYTES && p.slots >= 2
  {
    ShapeOf(n, F.HEADER_BYTES)
  }

  /** As `EthFramer.Front`, with the registers of a narrow-to-wide converter. */
  datatype Front = Front(todo: seq<F.Packet>, data: bool, up: Up, stream: nat) {
    predicate Ok(n: nat) {
      && Width(n) && F.AllOk(n, todo) && up.Ok(HeaderShape(n)) && (data ==> todo != [])
      && (Jammed() || (up.ctr == 0 && stream == if data then 1 else 0))
    }

    /** In the payload state while the joiner waits for the header. */
    predicate Jammed() { data && stream == 0 }

    predicate HeaderValid(offers: bool) { offers && todo != [] && !data }

    predicate GatedValid(offers: bool) { offers && todo != [] && data }
  }

  /** `junk` is what the header converter's data lines carry while nothing is offered to it. */
  datatype Cycle = Cycle(offers: bool, junk: Word, ready: bool) {
    predicate Ok() { junk.Lanes(F.HEADER_BYTES) }
  }

  function HeaderInput(n: nat, s: Front, c: Cycle): (x: Input)
    requires s.Ok(n) && c.Ok()
    ensures x.word.Lanes(F.HEADER_BYTES)
  {
    Input(s.HeaderValid(c.offers), if s.HeaderValid(c.offers) then F.HeaderWord(s.todo[0]) else c.junk,
      s.stream == 0 && c.ready)
  }

  /** The streams into the joiner. */
  function Streams(n: nat, s: Front, c: Cycle): (ins: seq<Option<Word>>)
    requires s.Ok(n) && c.Ok()
    ensures |ins| == 2 && forall k :: 0 <= k < 2 ==> ins[k].Some? ==> ins[k].value.Lanes(n)
  {
    var p, x := HeaderShape(n), HeaderInput(n, s, c);
    [if UpValid(p, s.up, x) then Some(UpOut(p, s.up, x.word)) else None,
     if s.GatedValid(c.offers) then Some(s.todo[0].words[0]) else None]
  }

  predicate PayloadTaken(s: Front, c: Cycle) { s.GatedValid(c.offers) && s.stream == 1 && c.ready }

  function FrontNext(n: nat, s: Front, c: Cycle): (r: Front)
    requires s.Ok(n) && c.Ok()
  {
    var p, x, taken := HeaderShape(n), HeaderInput(n, s, c), PayloadTaken(s, c);
    Front(
      if !taken then s.todo
      else if s.todo[0].words[0].last then s.todo[1..]
      else s.todo[0 := s.todo[0].(words := s.todo[0].words[1..])],
      if !s.data then s.HeaderValid(c.offers) && UpReady(p, s.up, x.oTready)
      else !(taken && s.todo[0].words[0].last),
      UpNext(p, s.up, x),
      AxisJoiner.NextStream(2, s.stream, Streams(n, s, c), c.ready))
  }

  function FrontGiven(n: nat, s: Front, c: Cycle): (ws: seq<Word>)
    requires s.Ok(n) && c.Ok()
    ensures AllLanes(n, ws)
  {
    if c.ready then AxisJoiner.Joined(2, s.stream, Streams(n, s, c)).ToSeq() else []
  }

  /** A header is offered while the joiner's sink is not ready. */
  predicate Stalls(s: Front, c: Cycle) { s.HeaderValid(c.offers) && !c.ready }

  /** The bytes and packet ends still to be handed over. */
  function Left(n: nat, s: Front): seq<Token>
    requires s.Ok(n)
  {
    if s.todo == [] then []
    else (if s.data then [] else Marks(s.todo[0].Header())) + WordStream(s.todo[0].words)
         + F.FrameStream(n, s.todo[1..])
  }

  lemma HeaderPasses(n: nat, s: Front, c: Cycle)
    requires s.Ok(n) && c.Ok() && s.HeaderValid(c.offers) && c.ready
    ensures FrontNext(n, s, c).Ok(n) && !FrontNext(n, s, c).Jammed()
    ensures Left(n, s) == WordStream(FrontGiven(n, s, c)) + Left(n, FrontNext(n, s, c))
  {
    hide F.FrameStream, WordStream, UpNext, UpOut;
    var p, x, r := HeaderShape(n), HeaderInput(n, s, c), FrontNext(n, s, c);
    assert UpGives(p, s.up, x);
    UpGiveClears(p, s.up, x);
    HeaderOut(n, s.up, s.todo[0]);
    var out := UpOut(p, s.up, x.word).(last := false);
    assert FrontGiven(n, s, c) == [out];
    SingleStream(out);
  }

  lemma UpGiveClears(p: Shape, s: Up, x: Input)
    requires s.Ok(p) && x.word.Lanes(p.narrow) && UpGives(p, s, x)
    ensures UpNext(p, s, x).ctr == 0
  {
  }

  /** The widened header carries the header's bytes, whatever is in the registers above. */
  lemma HeaderOut(n: nat, up: Up, packet: F.Packet)
    requires Width(n) && packet.Ok(n) && up.Ok(HeaderShape(n)) && up.ctr == 0
    ensures WordTokens(UpOut(HeaderShape(n), up, F.HeaderWord(packet)).(last := false)) == Marks(packet.Header())
  {
    hide UpOut, Kept;
    var p, w := HeaderShape(n), F.HeaderWord(packet);
    ShortOutTokens(p, up, w);
    KeptPacked(w.data, w.keep, F.HEADER_BYTES);
    assert w.data[..F.HEADER_BYTES] == packet.Header();
    NothingCollected(p, up);
    var out, h := UpOut(p, up, w), packet.Header();
    assert WordTokens(out) == [] + (Marks(h) + [End]) == Marks(h) + [End];
    assert Marks(Kept(out.data, out.keep)) + [End] == Marks(h) + [End];
    assert (Marks(Kept(out.data, out.keep)) + [End])[..|Marks(h)|] == Marks(h);
  }

  lemma NothingCollected(p: Shape, s: Up)
    requires s.Ok(p) && s.ctr == 0
    ensures Collected(p, s) == []
  {
  }

  lemma PayloadMoves(n: nat, s: Front, c: Cycle)
    requires s.Ok(n) && c.Ok() && PayloadTaken(s, c)
    ensures var r, p := FrontNext(n, s, c), s.todo[0];
      && r.Ok(n) && !r.Jammed() && FrontGiven(n, s, c) == [p.words[0]]
      && r.todo == (if p.words[0].last then s.todo[1..] else [p.(words := p.words[1..])] + s.todo[1..])
      && (r.data <==> !p.words[0].last) && (p.words[0].last ==> |p.words| == 1)
  {
    hide UpOut, UpNext, WordStream, AllLanes, ToChunk;
    UpIdles(HeaderShape(n), s.up, HeaderInput(n, s, c));
    BodyStart(n, s.todo[0].words);
  }

  lemma UpIdles(p: Shape, s: Up, x: Input)
    requires s.Ok(p) && x.word.Lanes(p.narrow) && !x.iTvalid
    ensures UpNext(p, s, x).ctr == s.ctr
  {
  }

  lemma BodyStart(n: nat, ws: seq<Word>)
    requires F.Body(n, ws)
    ensures ws[0].Lanes(n) && (ws[0].last <==> |ws| == 1) && (|ws| > 1 ==> F.Body(n, ws[1..]))
  {
    if |ws| > 1 {
      assert ws[1..][|ws| - 2] == ws[|ws| - 1];
    }
  }

  lemma PayloadPasses(n: nat, s: Front, c: Cycle)
    requires s.Ok(n) && c.Ok() && PayloadTaken(s, c)
    ensures FrontNext(n, s, c).Ok(n) && !FrontNext(n, s, c).Jammed()
    ensures Left(n, s) == WordStream(FrontGiven(n, s, c)) + Left(n, FrontNext(n, s, c))
  {
    hide FrontNext, FrontGiven, F.FrameStream, WordStream;
    PayloadMoves(n, s, c);
    var w, rest := s.todo[0].words[0], s.todo[0].words[1..];
    assert s.todo[0].words == [w] + rest;
    WordStreamAppend([w], rest);
    FreshLeft(n, s.todo[1..]);
    NoWords();
    if !w.last {
      assert FrontNext(n, s, c).todo[1..] == s.todo[1..];
    }
  }

  lemma FreshLeft(n: nat, ps: seq<F.Packet>)
    requires F.AllOk(n, ps)
    ensures F.FrameStream(n, ps)
         == if ps == [] then [] else Marks(ps[0].Header()) + WordStream(ps[0].words) + F.FrameStream(n, ps[1..])
  {
  }

  lemma NothingPasses(n: nat, s: Front, c: Cycle)
    requires s.Ok(n) && c.Ok() && !(s.HeaderValid(c.offers) && c.ready) && !PayloadTaken(s, c)
    ensures var r := FrontNext(n, s, c);
      && r.Ok(n) && r.todo == s.todo && FrontGiven(n, s, c) == [] && (r.Jammed() <==> s.Jammed() || Stalls(s, c))
      && (!r.Jammed() ==> r.data == s.data)
  {
    hide UpOut;
  }

  /** Nothing leaves, and no header is taken, while the source offers nothing. */
  lemma IdleSource(n: nat, s: Front, c: Cycle)
    requires s.Ok(n) && c.Ok() && !c.offers
    ensures var r := FrontNext(n, s, c);
      FrontGiven(n, s, c) == [] && r.todo == s.todo && r.data == s.data && r.stream == s.stream
  {
    hide UpOut;
  }

  lemma FrontConserves(n: nat, s: Front, c: Cycle)
    requires s.Ok(n) && c.Ok()
    ensures var r := FrontNext(n, s, c);
      && r.Ok(n) && (r.Jammed() <==> s.Jammed() || Stalls(s, c)) && (s.Jammed() ==> FrontGiven(n, s, c) == [])
      && (!r.Jammed() ==> Left(n, s) == WordStream(FrontGiven(n, s, c)) + Left(n, r))
  {
    hide FrontNext, FrontGiven, WordStream;
    if s.HeaderValid(c.offers) && c.ready {
      HeaderPasses(n, s, c);
    } else if PayloadTaken(s, c) {
      PayloadPasses(n, s, c);
    } else {
      NothingPasses(n, s, c);
      NoWords();
    }
  }

  lemma NoWords()
    ensures WordStream([]) == []
  {
  }

  // ---------- Whole runs ----------

  predicate AllCycles(cs: seq<Cycle>) {
    forall k :: 0 <= k < |cs| ==> cs[k].Ok()
  }

  function Run(n: nat, s: Front, cs: seq<Cycle>): (r: Front)
    requires s.Ok(n) && AllCycles(cs)
    ensures r.Ok(n)
    decreases |cs|
  {
    hide FrontNext, Front.Ok;
    if cs == [] then s else
      FrontConserves(n, s, cs[0]);
      Run(n, FrontNext(n, s, cs[0]), cs[1..])
  }

  /** The words the joiner hands over. */
  function Handed(n: nat, s: Front, cs: seq<Cycle>): (ws: seq<Word>)
    requires s.Ok(n) && AllCycles(cs)
    ensures AllLanes(n, ws)
    decreases |cs|
  {
    hide FrontNext, Front.Ok;
    if cs == [] then [] else
      FrontConserves(n, s, cs[0]);
      FrontGiven(n, s, cs[0]) + Handed(n, FrontNext(n, s, cs[0]), cs[1..])
  }

  predicate EverStalls(n: nat, s: Front, cs: seq<Cycle>)
    requires s.Ok(n) && AllCycles(cs)
    decreases |cs|
  {
    hide FrontNext, Front.Ok;
    cs != [] && (
      || Stalls(s, cs[0])
      || (FrontConserves(n, s, cs[0]); EverStalls(n, FrontNext(n, s, cs[0]), cs[1..])))
  }

  lemma {:induction false} JammedStays(n: nat, s: Front, cs: seq<Cycle>)
    requires s.Ok(n) && AllCycles(cs) && s.Jammed()
    ensures Handed(n, s, cs) == [] && Run(n, s, cs).Jammed()
    decreases |cs|
  {
    hide FrontNext, FrontGiven;
    if cs != [] {
      FrontConserves(n, s, cs[0]);
      JammedStays(n, FrontNext(n, s, cs[0]), cs[1..]);
    }
  }

  lemma {:induction false} RunConserves(n: nat, s: Front, cs: seq<Cycle>)
    requires s.Ok(n) && AllCycles(cs) && !s.Jammed()
    ensures Run(n, s, cs).Jammed() <==> EverStalls(n, s, cs)
    ensures !EverStalls(n, s, cs) ==> Left(n, s) == WordStream(Handed(n, s, cs)) + Left(n, Run(n, s, cs))
    decreases |cs|
  {
    hide FrontNext, FrontGiven, Front.Ok, Left;
    if cs == [] {
      NoWords();
    } else {
      var next, rest := FrontNext(n, s, cs[0]), cs[1..];
      FrontConserves(n, s, cs[0]);
      if Stalls(s, cs[0]) {
        JammedStays(n, next, rest);
      } else {
        RunConserves(n, next, rest);
        WordStreamAppend(FrontGiven(n, s, cs[0]), Handed(n, next, rest));
      }
    }
  }

  /** A stalled header is all that is lost: the payload behind it is still to come, and never does. */
  lemma StallLosesHeader(n: nat, s: Front, c: Cycle)
    requires s.Ok(n) && c.Ok() && !s.Jammed() && Stalls(s, c)
    ensures var r := FrontNext(n, s, c);
      r.Ok(n) && r.Jammed() && FrontGiven(n, s, c) == [] && |Left(n, s)| == F.HEADER_BYTES + |Left(n, r)|
  {
    hide F.FrameStream, WordStream, FrontNext, FrontGiven;
    NothingPasses(n, s, c);
  }

  lemma {:induction false} JammedKeeps(n: nat, s: Front, cs: seq<Cycle>)
    requires s.Ok(n) && AllCycles(cs) && s.Jammed()
    ensures Left(n, Run(n, s, cs)) == Left(n, s)
    decreases |cs|
  {
    hide FrontNext, FrontGiven, Left;
    if cs != [] {
      FrontConserves(n, s, cs[0]);
      JammedStep(n, s, cs[0]);
      JammedKeeps(n, FrontNext(n, s, cs[0]), cs[1..]);
    }
  }

  lemma JammedStep(n: nat, s: Front, c: Cycle)
    requires s.Ok(n) && c.Ok() && s.Jammed()
    ensures FrontNext(n, s, c).Ok(n) && Left(n, FrontNext(n, s, c)) == Left(n, s)
  {
    hide F.FrameStream, WordStream, FrontNext, FrontGiven;
    NothingPasses(n, s, c);
    JammedData(n, s, c);
  }

  lemma JammedData(n: nat, s: Front, c: Cycle)
    requires s.Ok(n) && c.Ok() && s.Jammed()
    ensures FrontNext(n, s, c).data
  {
  }

  lemma {:induction false} StallLoses(n: nat, s: Front, cs: seq<Cycle>)
    requires s.Ok(n) && AllCycles(cs) && !s.Jammed() && EverStalls(n, s, cs)
    ensures |Left(n, s)| == |WordStream(Handed(n, s, cs))| + |Left(n, Run(n, s, cs))| + F.HEADER_BYTES
    decreases |cs|
  {
    hide FrontNext, FrontGiven, Front.Ok, Left;
    var next, rest := FrontNext(n, s, cs[0]), cs[1..];
    FrontConserves(n, s, cs[0]);
    WordStreamAppend(FrontGiven(n, s, cs[0]), Handed(n, next, rest));
    if Stalls(s, cs[0]) {
      StallLosesHeader(n, s, cs[0]);
      JammedStays(n, next, rest);
      JammedKeeps(n, next, rest);
      NoWords();
    } else {
      StallLoses(n, next, rest);
    }
  }

  /** Any run from reset: the frames are what was handed over and what is still to come, if and only if no
      header was ever offered while the joiner's sink was not ready. If one was, its bytes are lost and
      nothing is ever handed over again. */
  lemma FramesUnlessStalled(n: nat, ps: seq<F.Packet>, up: Up, cs: seq<Cycle>, more: seq<Cycle>)
    requires Width(n) && F.AllOk(n, ps) && up.Ok(HeaderShape(n)) && up.ctr == 0 && AllCycles(cs) && AllCycles(more)
    ensures var s := Front(ps, false, up, 0);
      && (!EverStalls(n, s, cs)
          <==> F.FrameStream(n, ps) == WordStream(Handed(n, s, cs)) + Left(n, Run(n, s, cs)))
      && (EverStalls(n, s, cs) ==>
            |F.FrameStream(n, ps)|
            == |WordStream(Handed(n, s, cs))| + |Left(n, Run(n, s, cs))| + F.HEADER_BYTES)
      && (EverStalls(n, s, cs) ==> Handed(n, Run(n, s, cs), more) == [])
  {
    hide FrontNext, Run, Handed, WordStream, EverStalls;
    var s := Front(ps, false, up, 0);
    RunConserves(n, s, cs);
    FreshLeft(n, ps);
    if EverStalls(n, s, cs) {
      StallLoses(n, s, cs);
      JammedStays(n, Run(n, s, cs), more);
    }
  }

  /** A failing run of one cycle: any header offered while ready is low, and whatever comes after. */
  lemma OneStallJams(n: nat, ps: seq<F.Packet>, up: Up, c: Cycle, more: seq<Cycle>)
    requires Width(n) && F.AllOk(n, ps) && ps != [] && up.Ok(HeaderShape(n)) && up.ctr == 0 && AllCycles(more)
    requires c.Ok() && c.offers && !c.ready
    ensures var s := Front(ps, false, up, 0);
      Run(n, s, [c]).Jammed() && Handed(n, s, [c]) == [] && Handed(n, Run(n, s, [c]), more) == []
  {
    hide FrontNext, WordStream, FrontGiven;
    var s := Front(ps, false, up, 0);
    FrontConserves(n, s, c);
    StallLosesHeader(n, s, c);
    var next := FrontNext(n, s, c);
    assert [c][1..] == [];
    JammedStays(n, next, []);
    JammedStays(n, next, more);
  }

  // ---------- The hardware ----------

  /** The state register with the header converter, the gate and the joiner. */
  class FrontEnd {
    const n: nat
    var data: bool
    const crcUnpacker: NarrowToWide
    const outJoiner: AxisJoiner.Joiner

    ghost predicate Valid()
      reads this, crcUnpacker, outJoiner
    {
      && Width(n) && crcUnpacker.p == HeaderShape(n) && outJoiner.streams == 2
      && crcUnpacker.Valid() && outJoiner.Valid()
    }

    /** With what the source has to send. */
    ghost function View(todo: seq<F.Packet>): Front
      reads this, crcUnpacker, outJoiner
    {
      Front(todo, data, crcUnpacker.View(), outJoiner.ctr)
    }

    constructor (n: nat)
      requires Width(n)
      ensures Valid() && fresh(crcUnpacker) && fresh(outJoiner) && this.n == n
      ensures forall ps :: F.AllOk(n, ps) ==> View(ps).Ok(n) && !View(ps).data
    {
      this.n := n;
      data := false;
      crcUnpacker := new NarrowToWide(F.HEADER_BYTES, n);
      outJoiner := new AxisJoiner.Joiner(2);
    }

    method Clock(ghost todo: seq<F.Packet>, o: F.Offer, ready: bool) returns (iTready: bool, out: Option<Word>)
      requires Valid() && o.Ok(n) && o.Of(todo) && View(todo).Ok(n)
      modifies this, crcUnpacker, outJoiner
      ensures Valid()
      ensures var s, c := old(View(todo)), Cycle.Cycle(o.iTvalid, HeaderLines(o), ready);
        && out == AxisJoiner.Joined(2, s.stream, Streams(n, s, c))
        && (o.iTvalid ==> (iTready <==> PayloadTaken(s, c)))
        && var next := FrontNext(n, s, c); View(next.todo) == next
    {
      hide UpNext, UpOut, F.Body, F.AllOk;
      ghost var s, c := View(todo), Cycle.Cycle(o.iTvalid, HeaderLines(o), ready);
      var x := Input(o.iTvalid && !data, HeaderLines(o), outJoiner.AxisITready(0, ready));
      LinesAreHeader(n, s, o, ready);
      assert x == HeaderInput(n, s, c);
      iTready := data && outJoiner.AxisITready(1, ready);
      var headerReady, native := crcUnpacker.Clock(x);
      var ins := [native, if o.iTvalid && data then Some(o.i) else None];
      assert ins == Streams(n, s, c);
      out := outJoiner.Out(ins);
      outJoiner.Clock(ins, ready);
      if !data {
        data := headerReady && x.iTvalid;
      } else if iTready && o.iTvalid && o.i.last {
        data := false;
      }
    }
  }

  function HeaderLines(o: F.Offer): (w: Word)
    requires |o.dst| == |o.src| == 6 && o.ethertype < 0x1_0000
    ensures w.Lanes(F.HEADER_BYTES)
  {
    Word(o.dst + o.src + F.Lanes2(F.ByteSwap2(o.ethertype)), seq(F.HEADER_BYTES, _ => true), true)
  }

  lemma LinesAreHeader(n: nat, s: Front, o: F.Offer, ready: bool)
    requires s.Ok(n) && o.Ok(n) && o.Of(s.todo)
    ensures var c := Cycle.Cycle(o.iTvalid, HeaderLines(o), ready);
      HeaderInput(n, s, c) == Input(o.iTvalid && !s.data, HeaderLines(o), s.stream == 0 && ready)
  {
  }
}
