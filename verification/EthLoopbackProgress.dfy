/** eth_framer feeding eth_deframer, with sources that keep offering and a far end that is always ready:
    everything that was sent comes out, within a number of cycles that the packets determine.

    `Effort` is what is still to be done: the words to be handed to the framer's packer, the tokens to
    cross the link, the register hops inside both packers and the tokens in the deframer's. While the
    deframer flushes a packet out it takes nothing, but its own packer works then; when that is empty it
    takes what the framer offers; and when the framer offers nothing, either its packer works or it is
    handed a word. So every cycle makes the effort less (`EffortShrinks`), until nothing remains. */
module EthLoopbackProgress {
  import opened Axis
  import opened ByteStream
  import opened EthDeframer
  import opened EthLoopback
  import F = EthFramer
  import T = AxisHeaderTagger
  import O = TaggerOutlet
  import Packer

  const TOKEN_WEIGHT := 20
  const WORD_WEIGHT := 8

  function FramerEffort(s: F.State): nat
    requires s.front.Ok(BYTES)
  {
    WORD_WEIGHT * |F.FrontLeft(BYTES, s.front)| + Packer.Work(s.packer)
  }

  function TaggerEffort(s: T.State): nat
    requires s.Ok(TAGGER)
  {
    |O.Inside(BYTES, s.outlet)| + Packer.Work(s.outlet.packer)
  }

  function Effort(s: Loop): nat
    requires s.Ok()
  {
    TOKEN_WEIGHT * |F.Left(BYTES, s.framer)| + FramerEffort(s.framer) + TaggerEffort(s.tagger)
  }

  /** The framer's packer is handed a word, or works because its sink is ready. */
  predicate FramerBusy(s: F.State, c: F.Cycle)
    requires s.Ok(BYTES)
  {
    || F.FrontGiven(BYTES, s.front, c.offers, Packer.AxisITready(BYTES, s.packer, c.oTready)) != []
    || (c.oTready && !Packer.PipeEmpty(s.packer.regs))
  }

  lemma FramerWorks(s: F.State, c: F.Cycle)
    requires s.Ok(BYTES)
    ensures F.Next(BYTES, s, c).front.Ok(BYTES)
    ensures FramerEffort(F.Next(BYTES, s, c)) <= FramerEffort(s)
    ensures FramerBusy(s, c) ==> FramerEffort(F.Next(BYTES, s, c)) < FramerEffort(s)
  {
    hide Packer.Ok, Packer.Solid, Packer.Step, Packer.AxisITready, Packer.Work, Packer.PipeEmpty, F.FrontLeft,
      F.FrontNext, F.Front.Unpacked;
    var ready := Packer.AxisITready(BYTES, s.packer, c.oTready);
    F.FrontConserves(BYTES, s.front, c.offers, ready);
    Packer.WorkMoves(BYTES, s.packer, F.PackerInput(BYTES, s, c));
  }

  /** The deframer's packer works, or puts a word out. */
  predicate TaggerBusy(s: T.State)
    requires s.outlet.Packing?
  {
    s.outlet.packer.acc.OTvalid(BYTES) || !Packer.PipeEmpty(s.outlet.packer.regs)
  }

  lemma TakenIsShort(s: T.State, x: T.Input)
    requires s.Ok(TAGGER) && x.Ok(TAGGER)
    ensures |T.TakenTokens(TAGGER, s, x)| <= if T.Takes(TAGGER, s, x) then 5 else 0
    ensures Packer.Entry(BYTES, s.outlet.packer, T.OutletInput(TAGGER, s, x)) <= if T.Takes(TAGGER, s, x) then 7 else 0
  {
    hide Packer.Ok, Packer.Solid, Packer.AxisITready;
  }

  lemma TaggerWorks(s: T.State, x: T.Input)
    requires T.Inv(TAGGER, s) && x.Ok(TAGGER) && x.oTready
    ensures T.Next(TAGGER, s, x).Ok(TAGGER)
    ensures TaggerEffort(T.Next(TAGGER, s, x)) <= TaggerEffort(s) + if T.Takes(TAGGER, s, x) then 12 else 0
    ensures !T.Takes(TAGGER, s, x) && TaggerBusy(s) ==> TaggerEffort(T.Next(TAGGER, s, x)) < TaggerEffort(s)
  {
    hide Packer.Ok, Packer.Solid, Packer.Step, Packer.AxisITready, Packer.Work, Packer.PipeEmpty, Packer.Inside, T.Next,
      O.Inside, T.Takes, T.TakenTokens, T.OutletInput, Packer.Entry;
    T.Edge(TAGGER, s, x);
    T.NextOutlet(TAGGER, s, x);
    TakenIsShort(s, x);
    Packer.WorkMoves(BYTES, s.outlet.packer, T.OutletInput(TAGGER, s, x));
    GivenIsSome(s, x);
  }

  lemma GivenIsSome(s: T.State, x: T.Input)
    requires s.Ok(TAGGER) && x.Ok(TAGGER) && x.oTready
    ensures s.outlet.packer.acc.OTvalid(BYTES) ==> |T.GivenTokens(TAGGER, s, x)| > 0
    ensures T.OutletInput(TAGGER, s, x).oTready
  {
  }

  /** An idle tagger takes whatever is offered: it cannot be flushing, for the packet end it would be
      waiting for is nowhere. */
  lemma IdleTaggerTakes(s: T.State)
    requires T.Inv(TAGGER, s) && !TaggerBusy(s)
    ensures !s.flushing && T.AxisITready(TAGGER, s, true)
  {
    hide Packer.Solid;
    Packer.EmptyInside(BYTES, s.outlet.packer);
    Packer.EmptyTakes(BYTES, s.outlet.packer, Packer.IDLE);
    EndIsLast(s.outlet.packer.acc.Out(), s.flushing);
  }

  lemma EndIsLast(c: Chunk, ended: bool)
    requires T.Shaped(c.Tokens(), ended)
    ensures ended ==> c.last
  {
    assert ended ==> c.Tokens()[|c.Tokens()| - 1].End?;
  }

  /** A framer that offers nothing though its sink is ready, and is not busy, has sent everything. */
  lemma IdleFramerIsDone(s: F.State, c: F.Cycle)
    requires s.Ok(BYTES) && c.offers && c.oTready && !FramerBusy(s, c)
    ensures s.front.todo == [] && F.Left(BYTES, s) == s.packer.acc.Out().Tokens()
  {
    hide Packer.Solid;
    Packer.EmptyInside(BYTES, s.packer);
    Packer.EmptyTakes(BYTES, s.packer, Packer.IDLE);
    NothingUnpacked(s.front);
  }

  lemma NothingUnpacked(s: F.Front)
    requires s.Ok(BYTES) && s.Unpacked(BYTES, true).None?
    ensures s.todo == [] && F.FrontLeft(BYTES, s) == []
  {
  }

  lemma LeftHasEnd(r: Reading) returns (i: nat)
    requires r.Ok() && r.packets != []
    ensures i < |r.Left()| && r.Left()[i] == End
  {
    var ft := FrameTokens(r.packets[0]);
    FrameShape(r.packets[0]);
    i := |ft| - r.used - 1;
    assert ft[|ft| - 1] == End;
  }

  /** What is left of a reading ends a packet, unless nothing is. */
  lemma ReadingEnds(r: Reading, bytes: seq<byte>)
    requires r.Ok() && r.Left() == Marks(bytes)
    ensures r.packets == [] && r.used == 0 && r.PayloadLeft() == []
  {
    if r.packets != [] {
      var i := LeftHasEnd(r);
      assert false;
    }
  }

  lemma NothingRemains(s: Loop)
    requires s.Ok() && s.reading.packets == [] && s.reading.used == 0 && s.reading.PayloadLeft() == []
    requires !s.tagger.flushing
    ensures Remaining(s) == []
  {
    hide Packer.Ok, Packer.Solid, Packer.Inside, F.Left, F.State.Ok;
    assert s.tagger.ctr == 0;
  }

  predicate Open(c: Cycle) { c.offers && c.oTready && |c.junk| == BYTES }

  lemma NotOffered(s: Loop, c: Cycle)
    requires s.Ok() && Open(c) && T.AxisITready(TAGGER, s.tagger, true) && !T.Takes(TAGGER, s.tagger, TaggerInput(s, c))
    ensures !s.framer.packer.acc.last && FramerCycle(s, c).oTready && FramerCycle(s, c).offers
  {
    hide Packer.Ok, Packer.Solid, T.AxisITready;
  }

  /** When neither half is busy and nothing crosses the link, nothing remains. */
  lemma IdleMeansDone(s: Loop, c: Cycle)
    requires s.Ok() && Open(c)
    requires !T.Takes(TAGGER, s.tagger, TaggerInput(s, c)) && !TaggerBusy(s.tagger)
    requires !FramerBusy(s.framer, FramerCycle(s, c))
    ensures Remaining(s) == []
  {
    hide Packer.Ok, Packer.Solid, F.Left, T.AxisITready, T.Takes, TaggerBusy, FramerBusy, Reading.Left,
      Reading.PayloadLeft, Remaining;
    IdleTaggerTakes(s.tagger);
    NotOffered(s, c);
    IdleFramerIsDone(s.framer, FramerCycle(s, c));
    ReadingEnds(s.reading, s.framer.packer.acc.bytes);
    NothingRemains(s);
  }

  /** What crosses the link is a token at least. */
  lemma CrossingMoves(s: Loop, c: Cycle)
    requires s.Ok() && |c.junk| == BYTES
    ensures Next(s, c).framer.Ok(BYTES)
    ensures |F.Left(BYTES, Next(s, c).framer)|
         <= |F.Left(BYTES, s.framer)| - if T.Takes(TAGGER, s.tagger, TaggerInput(s, c)) then 1 else 0
  {
    hide F.Left, F.Next, T.Next, T.AxisITready, Packer.Ok, Packer.Solid;
    FramerMoves(s, c);
    if T.Takes(TAGGER, s.tagger, TaggerInput(s, c)) {
      OfferedInFrame(s);
    }
  }

  lemma LinkIsFramed(s: Loop, c: Cycle)
    requires s.Ok() && |c.junk| == BYTES
    ensures var x := TaggerInput(s, c); x.word.Some? ==> T.Framed(TAGGER, T.HeadOf(TAGGER, s.tagger), x.word.value)
  {
    if Link(s, c).Some? {
      LinkFramed(s, c);
    }
  }

  /** Every cycle in which the source offers and the far end is ready brings the pair closer to having
      nothing left. */
  lemma EffortShrinks(s: Loop, c: Cycle)
    requires s.Ok() && Open(c)
    ensures Next(s, c).Ok()
    ensures Effort(Next(s, c)) < Effort(s) || Remaining(s) == []
  {
    hide F.Left, F.Next, T.Next, T.AxisITready, T.Takes, F.State.Ok, T.Inv, TaggerBusy, FramerBusy, FramerEffort,
      TaggerEffort, Remaining, T.Framed, Link, Reading.Ok, Reading.Left, Reading.HeadIs;
    NextOk(s, c);
    InvOf(s);
    CrossingMoves(s, c);
    LinkIsFramed(s, c);
    FramerWorks(s.framer, FramerCycle(s, c));
    TaggerWorks(s.tagger, TaggerInput(s, c));
    var crosses, framerBusy := T.Takes(TAGGER, s.tagger, TaggerInput(s, c)), FramerBusy(s.framer, FramerCycle(s, c));
    if !crosses && !TaggerBusy(s.tagger) && !framerBusy {
      IdleMeansDone(s, c);
    }
  }

  predicate AllOpen(cs: seq<Cycle>) {
    forall k :: 0 <= k < |cs| ==> Open(cs[k])
  }

  /** So after that many cycles nothing remains. */
  lemma {:induction false} NothingRemainsAfter(s: Loop, cs: seq<Cycle>)
    requires s.Ok() && AllOpen(cs) && |cs| >= Effort(s)
    ensures Lanes4(cs) && Remaining(Run(s, cs)) == []
    decreases |cs|
  {
    hide Loop.Ok, Next, Remaining, Effort;
    if Remaining(s) == [] {
      RunConserves(s, cs);
    } else if cs == [] {
      EffortLeft(s);
    } else {
      EffortShrinks(s, cs[0]);
      NothingRemainsAfter(Next(s, cs[0]), cs[1..]);
    }
  }

  lemma EffortLeft(s: Loop)
    requires s.Ok()
    ensures Effort(s) > 0 || Remaining(s) == []
  {
    hide Loop.Ok, Next, Remaining, Effort;
    EffortShrinks(s, Cycle(true, [0, 0, 0, 0], true));
  }

  lemma StartEffort(ps: seq<F.Packet>)
    requires F.AllOk(BYTES, ps)
    ensures Effort(Start(ps))
         == TOKEN_WEIGHT * |F.FrameStream(BYTES, ps)| + WORD_WEIGHT * |F.FrameWords(BYTES, ps)|
  {
    Packer.ResetIsEmpty(BYTES);
    F.FrameWordsStream(BYTES, ps);
    F.StartLeft(BYTES, ps);
    Packer.NoWork(Packer.Reset(BYTES).regs);
    assert [] + F.FrameStream(BYTES, ps) == F.FrameStream(BYTES, ps);
  }

  /** From reset, with sources that keep offering and a far end that is always ready: after a number of
      cycles the packets determine, all that was sent has come out, every byte and end beside the fields of
      its own packet. */
  lemma EverythingComesOut(ps: seq<F.Packet>, cs: seq<Cycle>)
    requires F.AllOk(BYTES, ps) && AllOpen(cs)
    requires |cs| >= TOKEN_WEIGHT * |F.FrameStream(BYTES, ps)| + WORD_WEIGHT * |F.FrameWords(BYTES, ps)|
    ensures Lanes4(cs) && AllHeaders(T.BeatStream(Emitted(Start(ps), cs)))
    ensures Shown(T.BeatStream(Emitted(Start(ps), cs))) == Sent(ps)
  {
    hide Effort, Sent, Emitted, Run, Remaining;
    StartEffort(ps);
    NothingRemainsAfter(Start(ps), cs);
    DeframingUndoesFraming(ps, cs);
    assert Shown([]) == [];
  }

  /** And packed payloads have come out as the very words that went in. */
  lemma PackedPayloadsComeOut(ps: seq<F.Packet>, cs: seq<Cycle>, packed: seq<Chunk>)
    requires F.AllOk(BYTES, ps) && AllOpen(cs)
    requires |cs| >= TOKEN_WEIGHT * |F.FrameStream(BYTES, ps)| + WORD_WEIGHT * |F.FrameWords(BYTES, ps)|
    requires AllWellPacked(BYTES, packed) && NonNull(packed) && ChunkStream(packed) == Bare(Sent(ps))
    ensures Lanes4(cs) && T.Chunks(Emitted(Start(ps), cs)) == packed
  {
    hide Effort, Sent, Emitted, Run, Remaining;
    StartEffort(ps);
    NothingRemainsAfter(Start(ps), cs);
    PackedPayloadsReturn(ps, cs, packed);
  }
}
