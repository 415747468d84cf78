/** eth_framer feeding eth_deframer on a 4-byte stream: framing and deframing undo each other, for any
    packets, any source and any back-pressure at the far end.

    The framer promises a stream of tokens (`EthFramer.FrameStream`), the deframer needs words that are
    framed in a certain way (`AxisHeaderTagger.Framed`). What connects them is a reading position:
    `Reading` says how far the stream of frames has crossed the link, and therefore what the next word
    can be (`WordIsFramed`): three whole words of header, then the word that header and payload share,
    then payload up to a word that ends the packet.

    `Loop` is the pair of them with that position. Its invariant ties the framer's remaining output to
    the position and the position to the header bytes the deframer has collected. One cycle keeps it
    (`NextOk`) and moves payload on without loss (`NextConserves`); the rest is induction over the run.

    `Seen` is what an observer of the output ports sees: a token, and beside it the two addresses and
    the ethertype. The last two theorems are about those. */
module EthLoopback {
  import opened Axis
  import opened ByteStream
  import opened EthDeframer
  import F = EthFramer
  import T = AxisHeaderTagger
  import Packer

  // ---------- Frames as streams of tokens ----------

  function FrameTokens(p: F.Packet): (ts: seq<Token>)
    requires p.Ok(BYTES)
  {
    Marks(p.Header()) + WordStream(p.words)
  }

  /** A payload is bytes, at least one, and an end. */
  lemma {:induction false} BodyShape(ws: seq<Word>)
    requires F.Body(BYTES, ws)
    ensures T.Shaped(WordStream(ws), true) && |WordStream(ws)| >= 2
    decreases |ws|
  {
    if |ws| == 1 {
      assert WordStream(ws) == WordTokens(ws[0]) + WordStream(ws[1..]) == WordTokens(ws[0]);
    } else {
      assert F.Body(BYTES, ws[1..]) by {
        assert ws[1..][|ws| - 2] == ws[|ws| - 1];
      }
      BodyShape(ws[1..]);
    }
  }

  lemma FrameShape(p: F.Packet)
    requires p.Ok(BYTES)
    ensures T.Shaped(FrameTokens(p), true) && |FrameTokens(p)| >= HEADER_BYTES + 2
    ensures forall i :: 0 <= i < HEADER_BYTES ==> FrameTokens(p)[i] == Byte(p.Header()[i])
  {
    BodyShape(p.words);
  }

  /** How far a stream of frames has been read: the packets not read to their end, and how many tokens
      of the first of them have been. */
  datatype Reading = Reading(packets: seq<F.Packet>, used: nat) {
    predicate Ok() {
      && F.AllOk(BYTES, packets) && used % 4 == 0
      && (used > 0 ==> packets != [] && used < |FrameTokens(packets[0])|)
    }

    function Left(): seq<Token>
      requires Ok()
    {
      if packets == [] then [] else FrameTokens(packets[0])[used..] + F.FrameStream(BYTES, packets[1..])
    }

    /** The payload not yet read, tagged with its packet's header. */
    function PayloadLeft(): seq<T.Tagged>
      requires Ok()
    {
      if packets == [] then []
      else PayloadFrom(packets[0], used) + Payloads(packets[1..])
    }

    /** The head of the packet as the deframer knows it. */
    predicate HeadIs(head: T.Head)
      requires Ok()
    {
      if used == 0 then head == T.NO_HEAD
      else if used < 16 then used <= 12 && head == T.Head(used / 4, packets[0].Header()[..used])
      else head.k == 4 && |head.bytes| == 16 && head.bytes[..HEADER_BYTES] == packets[0].Header()
    }

    /** After one more word. */
    function Next(c: Chunk): Reading {
      if packets == [] then this
      else if c.last then Reading(packets[1..], 0)
      else Reading(packets, used + 4)
    }
  }

  function PayloadFrom(p: F.Packet, used: nat): seq<T.Tagged>
    requires p.Ok(BYTES) && used < |FrameTokens(p)|
  {
    FrameShape(p);
    T.Tag(FrameTokens(p)[if used < HEADER_BYTES then HEADER_BYTES else used..], p.Header())
  }

  /** All the payloads, each token tagged with the header of its packet. */
  function Payloads(ps: seq<F.Packet>): seq<T.Tagged>
    requires F.AllOk(BYTES, ps)
  {
    if ps == [] then [] else
      FrameShape(ps[0]);
      PayloadFrom(ps[0], 0) + Payloads(ps[1..])
  }

  predicate IsPrefix<X(==)>(a: seq<X>, b: seq<X>) {
    |a| <= |b| && b[..|a|] == a
  }

  /** Tokens of one word at the front of a packet: they stay inside it, and end it if and only if the
      word is its last. */
  lemma ChunkInPacket(ts: seq<Token>, rest: seq<Token>, c: Chunk)
    requires T.Shaped(ts, true) && c.bytes != [] && IsPrefix(c.Tokens(), ts + rest)
    ensures IsPrefix(c.Tokens(), ts) && (c.last <==> |c.Tokens()| == |ts|)
  {
    var all, k := ts + rest, |c.Tokens()|;
    assert forall i :: 0 <= i < k ==> all[i] == c.Tokens()[i];
    assert forall i :: 0 <= i < k - 1 ==> !all[i].End?;
    assert all[|ts| - 1] == ts[|ts| - 1] == End;
    assert k <= |ts|;
    assert c.Tokens()[k - 1] == ts[k - 1];
    assert c.last <==> c.Tokens()[k - 1].End?;
  }

  lemma ChunkInFrame(r: Reading, c: Chunk)
    requires r.Ok() && c.bytes != [] && IsPrefix(c.Tokens(), r.Left())
    ensures r.packets != []
    ensures var ft := FrameTokens(r.packets[0]);
      && r.used + |c.Tokens()| <= |ft| && ft[r.used..r.used + |c.Tokens()|] == c.Tokens()
      && (c.last <==> r.used + |c.Tokens()| == |ft|)
  {
    assert c.Tokens()[0] == r.Left()[0];
    var ft := FrameTokens(r.packets[0]);
    FrameShape(r.packets[0]);
    hide FrameTokens, WordStream;
    ChunkInPacket(ft[r.used..], F.FrameStream(BYTES, r.packets[1..]), c);
    assert ft[r.used..][..|c.Tokens()|] == ft[r.used..r.used + |c.Tokens()|];
  }

  lemma ReadOn(r: Reading, c: Chunk)
    requires r.Ok() && c.WellPacked(BYTES) && c.bytes != [] && IsPrefix(c.Tokens(), r.Left())
    ensures r.Next(c).Ok() && r.Left() == c.Tokens() + r.Next(c).Left()
  {
    hide FrameTokens, WordStream, T.Shaped, F.FrameStream, Marks, IsPrefix;
    ChunkInFrame(r, c);
    FrameShape(r.packets[0]);
    var ft, k := FrameTokens(r.packets[0]), |c.Tokens()|;
    assert ft[r.used..] == ft[r.used..r.used + k] + ft[r.used + k..];
    if c.last {
      FreshLeft(r.packets[1..]);
      assert ft[r.used + k..] == [];
    }
  }

  lemma FreshLeft(ps: seq<F.Packet>)
    requires F.AllOk(BYTES, ps)
    ensures Reading(ps, 0).Left() == F.FrameStream(BYTES, ps)
    ensures Reading(ps, 0).PayloadLeft() == Payloads(ps)
  {
    if ps != [] {
      assert FrameTokens(ps[0])[0..] == FrameTokens(ps[0]);
    }
  }

  /** The lanes of a packed word. */
  predicate Carries(w: Word, c: Chunk) {
    && w.Lanes(BYTES) && |c.bytes| <= BYTES && Packed(w.keep, |c.bytes|)
    && w.data[..|c.bytes|] == c.bytes && w.last == c.last
  }

  lemma CarriesTokens(w: Word, c: Chunk)
    requires Carries(w, c)
    ensures ToChunk(w) == c && WordTokens(w) == c.Tokens()
  {
    KeptPacked(w.data, w.keep, |c.bytes|);
  }

  lemma MaskedKept(w: Word, c: Chunk)
    requires Carries(w, c) && |c.bytes| >= 2
    ensures ToChunk(T.Masked(TAGGER, 3, w)) == Chunk(c.bytes[2..], c.last)
  {
    var m := T.Masked(TAGGER, 3, w);
    assert TAGGER.Remainder() == 2;
    assert m.keep[0] == m.keep[1] == false;
    assert m.keep[2..] == w.keep[2..];
    assert m.keep == [false, false] + m.keep[2..] && m.data == m.data[..2] + m.data[2..];
    KeptAppend(m.data[..2], [false, false], m.data[2..], m.keep[2..]);
    KeptNone(m.data[..2], [false, false]);
    KeptPacked(m.data[2..], m.keep[2..], |c.bytes| - 2);
  }

  /** Four words hold the header. */
  lemma WholeHeader(bytes: seq<byte>)
    requires |bytes| == 16
    ensures T.HeaderOf(TAGGER, bytes) == bytes[..HEADER_BYTES]
  {
  }

  lemma MaskedTokens(w: Word, c: Chunk)
    requires Carries(w, c) && |c.bytes| >= 2
    ensures WordTokens(T.Masked(TAGGER, 3, w)) == c.Tokens()[2..]
  {
    MaskedKept(w, c);
    assert Marks(c.bytes[2..]) == Marks(c.bytes)[2..];
  }

  /** The word is one the deframer expects there, and it takes from it exactly the payload tokens. */
  lemma WordIsFramed(r: Reading, head: T.Head, c: Chunk, w: Word)
    requires r.Ok() && c.WellPacked(BYTES) && c.bytes != [] && IsPrefix(c.Tokens(), r.Left())
    requires r.HeadIs(head) && Carries(w, c)
    ensures T.Framed(TAGGER, head, w) && r.Next(c).Ok() && r.Next(c).HeadIs(T.HeadAfter(TAGGER, head, w))
    ensures r.PayloadLeft() == T.Payload(TAGGER, head, w) + r.Next(c).PayloadLeft()
  {
    ReadOn(r, c);
    ChunkInFrame(r, c);
    FrameShape(r.packets[0]);
    CarriesTokens(w, c);
    FreshLeft(r.packets[1..]);
    if r.used < 12 {
      HeaderWordFramed(r, head, c, w);
    } else if r.used == 12 {
      SplitWordFramed(r, head, c, w);
    } else {
      PayloadWordFramed(r, head, c, w);
    }
  }

  lemma HeaderWordFramed(r: Reading, head: T.Head, c: Chunk, w: Word)
    requires r.Ok() && r.used < 12 && c.WellPacked(BYTES) && r.HeadIs(head) && Carries(w, c) && r.packets != []
    requires var ft := FrameTokens(r.packets[0]);
      && r.used + |c.Tokens()| <= |ft| && ft[r.used..r.used + |c.Tokens()|] == c.Tokens()
      && (c.last <==> r.used + |c.Tokens()| == |ft|)
    requires r.Next(c).Ok()
    ensures T.Framed(TAGGER, head, w) && r.Next(c).HeadIs(T.HeadAfter(TAGGER, head, w))
    ensures r.PayloadLeft() == T.Payload(TAGGER, head, w) + r.Next(c).PayloadLeft()
  {
    hide WordStream, T.Masked, T.HeaderOf, T.Shaped;
    FrameShape(r.packets[0]);
    var h := r.packets[0].Header();
    assert !c.last && head.k == r.used / 4 && head.bytes == h[..r.used];
    assert forall i :: 0 <= i < 4 ==> c.Tokens()[i] == Byte(c.bytes[i]) == FrameTokens(r.packets[0])[r.used + i];
    assert w.data == c.bytes == h[r.used..r.used + 4];
    assert head.bytes + w.data == h[..r.used + 4];
  }

  lemma SplitHeader(h: seq<byte>, ft: seq<Token>, c: Chunk, head: seq<byte>, w: Word)
    requires |h| == HEADER_BYTES
    requires head == h[..12] && Carries(w, c) && |c.bytes| >= 3
    requires 12 + |c.Tokens()| <= |ft| && ft[12..12 + |c.Tokens()|] == c.Tokens()
    requires forall i :: 0 <= i < HEADER_BYTES ==> ft[i] == Byte(h[i])
    ensures (head + w.data)[..HEADER_BYTES] == h
  {
    assert forall i :: 0 <= i < 2 ==> c.Tokens()[i] == Byte(c.bytes[i]) == ft[12 + i] == Byte(h[12 + i]);
    assert forall i :: 0 <= i < 2 ==> w.data[i] == w.data[..|c.bytes|][i] == h[12 + i];
  }

  lemma SplitWordFramed(r: Reading, head: T.Head, c: Chunk, w: Word)
    requires r.Ok() && r.used == 12 && c.WellPacked(BYTES) && r.HeadIs(head) && Carries(w, c) && r.packets != []
    requires var ft := FrameTokens(r.packets[0]);
      && r.used + |c.Tokens()| <= |ft| && ft[r.used..r.used + |c.Tokens()|] == c.Tokens()
      && (c.last <==> r.used + |c.Tokens()| == |ft|)
    requires r.Next(c).Ok() && Reading(r.packets[1..], 0).PayloadLeft() == Payloads(r.packets[1..])
    ensures T.Framed(TAGGER, head, w) && r.Next(c).HeadIs(T.HeadAfter(TAGGER, head, w))
    ensures r.PayloadLeft() == T.Payload(TAGGER, head, w) + r.Next(c).PayloadLeft()
  {
    hide FrameTokens, WordStream, Payloads, WordTokens, T.Shaped, T.Masked, Reading.PayloadLeft;
    FrameShape(r.packets[0]);
    assert |c.bytes| >= 3;
    WholeHeader(head.bytes + w.data);
    MaskedKept(w, c);
    SplitHeader(r.packets[0].Header(), FrameTokens(r.packets[0]), c, head.bytes, w);
    SplitPayload(r, c, w);
  }

  lemma SplitPayload(r: Reading, c: Chunk, w: Word)
    requires r.Ok() && r.used == 12 && |c.bytes| >= 3 && Carries(w, c) && r.packets != []
    requires var ft := FrameTokens(r.packets[0]);
      && 12 + |c.Tokens()| <= |ft| && ft[12..12 + |c.Tokens()|] == c.Tokens()
      && (c.last <==> 12 + |c.Tokens()| == |ft|)
    requires r.Next(c).Ok() && Reading(r.packets[1..], 0).PayloadLeft() == Payloads(r.packets[1..])
    requires !c.last ==> |c.bytes| == 4
    ensures r.PayloadLeft()
         == T.Tag(WordTokens(T.Masked(TAGGER, 3, w)), r.packets[0].Header()) + r.Next(c).PayloadLeft()
  {
    hide FrameTokens, WordStream, Payloads, WordTokens, T.Shaped, T.Masked, Kept, Chunk.Tokens, Reading.PayloadLeft;
    MaskedTokens(w, c);
    FourTokens(c);
    SplitRead(r, c);
    var ft, k := FrameTokens(r.packets[0]), |c.Tokens()|;
    assert ft[14..12 + k] == ft[12..12 + k][2..];
  }

  lemma FourTokens(c: Chunk)
    requires |c.bytes| >= 3 && (!c.last ==> |c.bytes| == 4)
    ensures |c.Tokens()| >= 4 && (!c.last ==> |c.Tokens()| == 4)
  {
  }

  lemma SplitRead(r: Reading, c: Chunk)
    requires r.Ok() && r.used == 12 && r.packets != [] && |c.Tokens()| >= 4
    requires var ft := FrameTokens(r.packets[0]);
      12 + |c.Tokens()| <= |ft| && (c.last <==> 12 + |c.Tokens()| == |ft|)
    requires !c.last ==> |c.Tokens()| == 4
    requires r.Next(c).Ok() && Reading(r.packets[1..], 0).PayloadLeft() == Payloads(r.packets[1..])
    ensures r.PayloadLeft()
         == T.Tag(FrameTokens(r.packets[0])[14..12 + |c.Tokens()|], r.packets[0].Header()) + r.Next(c).PayloadLeft()
  {
    hide FrameTokens, WordStream, Payloads, T.Shaped, F.FrameStream, Chunk.Tokens;
    TagSplits(FrameTokens(r.packets[0]), 14, 12 + |c.Tokens()|, r.packets[0].Header());
  }

  lemma PayloadWordFramed(r: Reading, head: T.Head, c: Chunk, w: Word)
    requires r.Ok() && r.used >= 16 && c.WellPacked(BYTES) && c.bytes != [] && r.HeadIs(head) && Carries(w, c)
    requires r.packets != [] && ToChunk(w) == c && WordTokens(w) == c.Tokens()
    requires var ft := FrameTokens(r.packets[0]);
      && r.used + |c.Tokens()| <= |ft| && ft[r.used..r.used + |c.Tokens()|] == c.Tokens()
      && (c.last <==> r.used + |c.Tokens()| == |ft|)
    requires r.Next(c).Ok() && Reading(r.packets[1..], 0).PayloadLeft() == Payloads(r.packets[1..])
    ensures T.Framed(TAGGER, head, w) && r.Next(c).HeadIs(T.HeadAfter(TAGGER, head, w))
    ensures r.PayloadLeft() == T.Payload(TAGGER, head, w) + r.Next(c).PayloadLeft()
  {
    hide FrameTokens, WordStream, Payloads, WordTokens, T.HeaderOf, F.FrameStream, T.Shaped, Kept, Reading.PayloadLeft,
      T.Tag, Chunk.Tokens;
    WholeHeader(head.bytes);
    FullTokens(c);
    PayloadRead(r, c);
  }

  lemma FullTokens(c: Chunk)
    requires c.WellPacked(BYTES)
    ensures !c.last ==> |c.Tokens()| == 4
  {
  }

  lemma PayloadRead(r: Reading, c: Chunk)
    requires r.Ok() && r.used >= 16 && r.packets != []
    requires var ft := FrameTokens(r.packets[0]);
      && r.used + |c.Tokens()| <= |ft| && ft[r.used..r.used + |c.Tokens()|] == c.Tokens()
      && (c.last <==> r.used + |c.Tokens()| == |ft|)
    requires !c.last ==> |c.Tokens()| == 4
    requires r.Next(c).Ok() && Reading(r.packets[1..], 0).PayloadLeft() == Payloads(r.packets[1..])
    ensures r.PayloadLeft() == T.Tag(c.Tokens(), r.packets[0].Header()) + r.Next(c).PayloadLeft()
  {
    hide FrameTokens, WordStream, Payloads, T.Shaped, F.FrameStream, Chunk.Tokens;
    TagSplits(FrameTokens(r.packets[0]), r.used, r.used + |c.Tokens()|, r.packets[0].Header());
  }

  lemma TagSplits(ts: seq<Token>, from: nat, to: nat, h: seq<byte>)
    requires from <= to <= |ts|
    ensures T.Tag(ts[from..], h) == T.Tag(ts[from..to], h) + T.Tag(ts[to..], h)
    ensures to == |ts| ==> T.Tag(ts[to..], h) == []
  {
    assert ts[from..] == ts[from..to] + ts[to..];
  }

  // ---------- The two together ----------

  /** `reading` is where the link between them has got to in the stream of frames. */
  datatype Loop = Loop(framer: F.State, tagger: T.State, reading: Reading) {
    ghost predicate Ok() {
      && framer.Ok(BYTES) && T.Inv(TAGGER, tagger) && T.Solid(tagger) && reading.Ok()
      && F.Left(BYTES, framer) == reading.Left()
      && reading.HeadIs(T.HeadOf(TAGGER, tagger))
    }
  }

  /** `junk` is what the lanes above the kept bytes carry on the link. */
  datatype Cycle = Cycle(offers: bool, junk: seq<byte>, oTready: bool)

  function Lanes(c: Chunk, junk: seq<byte>): (w: Word)
    requires |c.bytes| <= |junk| == BYTES
    ensures Carries(w, c)
  {
    Word(c.bytes + junk[|c.bytes|..], seq(BYTES, i => i < |c.bytes|), c.last)
  }

  function Link(s: Loop, c: Cycle): (o: Option<Word>)
    requires s.Ok() && |c.junk| == BYTES
    ensures o.Some? ==> Carries(o.value, s.framer.packer.acc.Out())
  {
    var acc := s.framer.packer.acc;
    if acc.OTvalid(BYTES) then Some(Lanes(acc.Out(), c.junk)) else None
  }

  function TaggerInput(s: Loop, c: Cycle): (x: T.Input)
    requires s.Ok() && |c.junk| == BYTES
    ensures x.word.Some? ==> x.word.value.Lanes(BYTES)
  {
    T.Input(Link(s, c), c.oTready)
  }

  function FramerCycle(s: Loop, c: Cycle): F.Cycle
    requires s.Ok()
  {
    F.Cycle(c.offers, T.AxisITready(TAGGER, s.tagger, c.oTready))
  }

  function Next(s: Loop, c: Cycle): Loop
    requires s.Ok() && |c.junk| == BYTES
  {
    Loop(F.Next(BYTES, s.framer, FramerCycle(s, c)), T.Next(TAGGER, s.tagger, TaggerInput(s, c)),
      if T.Takes(TAGGER, s.tagger, TaggerInput(s, c)) then s.reading.Next(s.framer.packer.acc.Out()) else s.reading)
  }

  lemma OfferedInFrame(s: Loop)
    requires s.Ok() && s.framer.packer.acc.OTvalid(BYTES)
    ensures var c := s.framer.packer.acc.Out();
      c.WellPacked(BYTES) && c.bytes != [] && IsPrefix(c.Tokens(), s.reading.Left())
  {
    var c := s.framer.packer.acc.Out();
    var inside := Packer.Inside(BYTES, s.framer.packer);
    assert inside[..|c.Tokens()|] == c.Tokens();
    assert F.Left(BYTES, s.framer)[..|c.Tokens()|] == inside[..|c.Tokens()|];
  }

  /** What is offered on the link is always framed as the deframer needs it. */
  lemma LinkFramed(s: Loop, c: Cycle)
    requires s.Ok() && |c.junk| == BYTES && Link(s, c).Some?
    ensures var w, chunk := Link(s, c).value, s.framer.packer.acc.Out();
      && T.Framed(TAGGER, T.HeadOf(TAGGER, s.tagger), w)
      && s.reading.Next(chunk).Ok() && s.reading.Next(chunk).HeadIs(T.HeadAfter(TAGGER, T.HeadOf(TAGGER, s.tagger), w))
      && s.reading.PayloadLeft()
      == T.Payload(TAGGER, T.HeadOf(TAGGER, s.tagger), w) + s.reading.Next(chunk).PayloadLeft()
      && s.reading.Left() == chunk.Tokens() + s.reading.Next(chunk).Left()
  {
    OfferedInFrame(s);
    WordIsFramed(s.reading, T.HeadOf(TAGGER, s.tagger), s.framer.packer.acc.Out(), Link(s, c).value);
    ReadOn(s.reading, s.framer.packer.acc.Out());
  }

  /** The link delivers what the framer emits. */
  lemma FramerGives(s: Loop, c: Cycle)
    requires s.Ok() && |c.junk| == BYTES
    ensures ChunkStream(F.Given(BYTES, s.framer, FramerCycle(s, c)))
         == if T.Takes(TAGGER, s.tagger, TaggerInput(s, c)) then s.framer.packer.acc.Out().Tokens() else []
  {
    var given := F.Given(BYTES, s.framer, FramerCycle(s, c));
    assert given != [] ==> given[0] == s.framer.packer.acc.Out() && given[1..] == [];
  }

  lemma SameTail<X>(a: seq<X>, b: seq<X>, c: seq<X>)
    requires a + b == a + c
    ensures b == c
  {
    assert (a + b)[|a|..] == b && (a + c)[|a|..] == c;
  }

  lemma FramerMoves(s: Loop, c: Cycle)
    requires s.Ok() && |c.junk| == BYTES
    ensures var r := Next(s, c);
      && r.framer.Ok(BYTES)
      && F.Left(BYTES, s.framer)
      == (if T.Takes(TAGGER, s.tagger, TaggerInput(s, c)) then s.framer.packer.acc.Out().Tokens() else [])
       + F.Left(BYTES, r.framer)
  {
    F.NextOk(BYTES, s.framer, FramerCycle(s, c));
    F.NextConserves(BYTES, s.framer, FramerCycle(s, c));
    FramerGives(s, c);
  }

  lemma NextReading(s: Loop, c: Cycle)
    requires s.Ok() && |c.junk| == BYTES
    ensures var x, r := TaggerInput(s, c), Next(s, c);
      && (x.word.Some? ==> T.Framed(TAGGER, T.HeadOf(TAGGER, s.tagger), x.word.value))
      && r.framer.Ok(BYTES) && r.reading.Ok()
      && F.Left(BYTES, r.framer) == r.reading.Left()
      && r.reading.HeadIs(T.HeadNext(TAGGER, s.tagger, x))
      && s.reading.PayloadLeft() == T.PayloadTaken(TAGGER, s.tagger, x) + r.reading.PayloadLeft()
  {
    hide F.Left, F.Next, T.Next, Reading.Left, Reading.PayloadLeft, Reading.HeadIs, Reading.Next, T.Payload,
      T.HeadAfter, T.AxisITready, T.Framed, T.HeadOf, FramerCycle, Packer.Ok, Packer.Solid;
    FramerMoves(s, c);
    var x, r := TaggerInput(s, c), Next(s, c);
    if x.word.Some? {
      LinkFramed(s, c);
    }
    if T.Takes(TAGGER, s.tagger, x) {
      SameTail(s.framer.packer.acc.Out().Tokens(), F.Left(BYTES, r.framer), r.reading.Left());
    } else {
      T.DropEmpty(F.Left(BYTES, r.framer), r.reading.Left());
    }
  }

  lemma NextOk(s: Loop, c: Cycle)
    requires s.Ok() && |c.junk| == BYTES
    ensures Next(s, c).Ok()
  {
    NextReading(s, c);
    T.StepConserves(TAGGER, s.tagger, TaggerInput(s, c));
    T.GivenSolid(TAGGER, s.tagger, TaggerInput(s, c));
  }

  /** Payload that has not come out yet: in the deframer, or not yet across the link. */
  function Remaining(s: Loop): seq<T.Tagged>
    requires s.Ok()
  {
    T.TaggedInside(TAGGER, s.tagger) + s.reading.PayloadLeft()
  }

  function Given(s: Loop, c: Cycle): seq<T.TaggedChunk>
    requires s.Ok() && |c.junk| == BYTES
  {
    T.Given(TAGGER, s.tagger, TaggerInput(s, c))
  }

  lemma NextConserves(s: Loop, c: Cycle)
    requires s.Ok() && |c.junk| == BYTES && Next(s, c).Ok()
    ensures Remaining(s) == T.BeatStream(Given(s, c)) + Remaining(Next(s, c))
  {
    hide T.Inv, Loop.Ok, T.PayloadTaken, T.GivenTagged, T.TaggedInside, Reading.PayloadLeft, T.Next, T.Given;
    var x, r := TaggerInput(s, c), Next(s, c);
    InvOf(s);
    InvOf(r);
    NextReading(s, c);
    T.StepConserves(TAGGER, s.tagger, x);
    T.GivenStream(TAGGER, s.tagger, x);
    F.Through(T.TaggedInside(TAGGER, s.tagger), T.PayloadTaken(TAGGER, s.tagger, x), r.reading.PayloadLeft(),
      T.GivenTagged(TAGGER, s.tagger, x), T.TaggedInside(TAGGER, r.tagger));
  }

  lemma InvOf(s: Loop)
    requires s.Ok()
    ensures T.Inv(TAGGER, s.tagger) && s.tagger.Ok(TAGGER) && s.reading.Ok()
  {
  }

  // ---------- Whole runs ----------

  predicate Lanes4(cs: seq<Cycle>) {
    forall k :: 0 <= k < |cs| ==> |cs[k].junk| == BYTES
  }

  function Run(s: Loop, cs: seq<Cycle>): (r: Loop)
    requires s.Ok() && Lanes4(cs)
    ensures r.Ok()
    decreases |cs|
  {
    if cs == [] then s else
      hide Next, Loop.Ok;
      NextOk(s, cs[0]);
      Run(Next(s, cs[0]), cs[1..])
  }

  /** The words the deframer puts out, each with the header beside it. */
  function Emitted(s: Loop, cs: seq<Cycle>): seq<T.TaggedChunk>
    requires s.Ok() && Lanes4(cs)
    decreases |cs|
  {
    if cs == [] then [] else
      hide Next, Loop.Ok;
      NextOk(s, cs[0]);
      Given(s, cs[0]) + Emitted(Next(s, cs[0]), cs[1..])
  }

  lemma {:induction false} RunConserves(s: Loop, cs: seq<Cycle>)
    requires s.Ok() && Lanes4(cs)
    ensures Remaining(s) == T.BeatStream(Emitted(s, cs)) + Remaining(Run(s, cs))
    decreases |cs|
  {
    hide Remaining, Next, Loop.Ok, Given;
    if cs != [] {
      var next := Next(s, cs[0]);
      NextOk(s, cs[0]);
      NextConserves(s, cs[0]);
      RunConserves(next, cs[1..]);
      T.BeatStreamAppend(Given(s, cs[0]), Emitted(next, cs[1..]));
      F.Onward(Remaining(s), T.BeatStream(Given(s, cs[0])), Remaining(next), T.BeatStream(Emitted(next, cs[1..])),
        Remaining(Run(s, cs)));
    }
  }

  lemma {:induction false} EmittedPacked(s: Loop, cs: seq<Cycle>)
    requires s.Ok() && Lanes4(cs)
    ensures AllWellPacked(BYTES, T.Chunks(Emitted(s, cs))) && NonNull(T.Chunks(Emitted(s, cs)))
    decreases |cs|
  {
    hide Next, Loop.Ok, Given;
    if cs != [] {
      NextOk(s, cs[0]);
      StepPacked(s, cs[0]);
      EmittedPacked(Next(s, cs[0]), cs[1..]);
    }
  }

  lemma StepPacked(s: Loop, c: Cycle)
    requires s.Ok() && |c.junk| == BYTES
    ensures AllWellPacked(BYTES, T.Chunks(Given(s, c)))
    ensures NonNull(T.Chunks(Given(s, c)))
  {
    NextReading(s, c);
    T.GivenPacked(TAGGER, s.tagger, TaggerInput(s, c));
    T.GivenSolid(TAGGER, s.tagger, TaggerInput(s, c));
  }

  function Start(ps: seq<F.Packet>): (s: Loop)
    requires F.AllOk(BYTES, ps)
    ensures s.Ok() && Remaining(s) == Payloads(ps)
  {
    var s := Loop(F.Reset(BYTES, ps), T.Reset(TAGGER), Reading(ps, 0));
    StartOk(ps, s);
    s
  }

  lemma StartOk(ps: seq<F.Packet>, s: Loop)
    requires F.AllOk(BYTES, ps) && s == Loop(F.Reset(BYTES, ps), T.Reset(TAGGER), Reading(ps, 0))
    ensures s.Ok() && Remaining(s) == Payloads(ps)
  {
    FreshLeft(ps);
    T.ResetInv(TAGGER);
    F.FrameWordsStream(BYTES, ps);
    Packer.ResetIsEmpty(BYTES);
    F.StartLeft(BYTES, ps);
    assert [] + F.FrameStream(BYTES, ps) == F.FrameStream(BYTES, ps);
    assert [] + Payloads(ps) == Payloads(ps);
  }

  // ---------- What the far end sees ----------

  /** A token of the output and the fields beside it. */
  datatype Seen = Seen(token: Token, fields: Fields)

  predicate AllHeaders(ts: seq<T.Tagged>) {
    forall i :: 0 <= i < |ts| ==> |ts[i].header| == HEADER_BYTES
  }

  function Shown(ts: seq<T.Tagged>): (r: seq<Seen>)
    requires AllHeaders(ts)
    ensures |r| == |ts|
  {
    seq(|ts|, i requires 0 <= i < |ts| => Seen(ts[i].token, Deframed(ts[i].header)))
  }

  function Beside(ts: seq<Token>, fields: Fields): (r: seq<Seen>)
    ensures |r| == |ts|
  {
    seq(|ts|, i requires 0 <= i < |ts| => Seen(ts[i], fields))
  }

  /** The packets as the sender meant them. */
  function Sent(ps: seq<F.Packet>): seq<Seen>
    requires F.AllOk(BYTES, ps)
  {
    if ps == [] then [] else
      Beside(WordStream(ps[0].words), Fields(ps[0].dst, ps[0].src, ps[0].ethertype)) + Sent(ps[1..])
  }

  lemma {:induction false} PayloadsShown(ps: seq<F.Packet>)
    requires F.AllOk(BYTES, ps)
    ensures AllHeaders(Payloads(ps)) && Shown(Payloads(ps)) == Sent(ps)
  {
    if ps != [] {
      var p := ps[0];
      FrameShape(p);
      assert FrameTokens(p)[HEADER_BYTES..] == WordStream(p.words);
      DeframedHeader(p);
      PayloadsShown(ps[1..]);
      ShownAppend(PayloadFrom(p, 0), Payloads(ps[1..]));
      assert Shown(PayloadFrom(p, 0)) == Beside(WordStream(p.words), Fields(p.dst, p.src, p.ethertype));
    }
  }

  lemma ShownAppend(a: seq<T.Tagged>, b: seq<T.Tagged>)
    requires AllHeaders(a + b)
    ensures AllHeaders(a) && AllHeaders(b) && Shown(a + b) == Shown(a) + Shown(b)
  {
    assert forall i :: 0 <= i < |a| ==> a[i] == (a + b)[i];
    assert forall i :: 0 <= i < |b| ==> b[i] == (a + b)[|a| + i];
  }

  /** Framing then deframing, for any packets, source and back-pressure: what has come out, byte by byte
      and end by end, each with the addresses and ethertype shown at that moment, is the beginning of
      what was sent, each with those of its own packet; the rest is still on its way. */
  lemma DeframingUndoesFraming(ps: seq<F.Packet>, cs: seq<Cycle>)
    requires F.AllOk(BYTES, ps) && Lanes4(cs)
    ensures var out, left := T.BeatStream(Emitted(Start(ps), cs)), Remaining(Run(Start(ps), cs));
      AllHeaders(out) && AllHeaders(left) && Sent(ps) == Shown(out) + Shown(left)
  {
    RunConserves(Start(ps), cs);
    PayloadsShown(ps);
    ShownAppend(T.BeatStream(Emitted(Start(ps), cs)), Remaining(Run(Start(ps), cs)));
  }

  function Bare(ts: seq<Seen>): (r: seq<Token>)
    ensures |r| == |ts|
  {
    seq(|ts|, i requires 0 <= i < |ts| => ts[i].token)
  }

  lemma {:induction false} BareBeats(bs: seq<T.TaggedChunk>)
    requires AllHeaders(T.BeatStream(bs))
    ensures Bare(Shown(T.BeatStream(bs))) == ChunkStream(T.Chunks(bs))
  {
    if bs != [] {
      assert T.Chunks(bs)[1..] == T.Chunks(bs[1..]);
      ShownAppend(bs[0].Tokens(), T.BeatStream(bs[1..]));
      BareBeats(bs[1..]);
      assert Bare(Shown(bs[0].Tokens())) == bs[0].chunk.Tokens();
    }
  }

  /** Once everything has come out, packed payloads come out as the very words that went in. */
  lemma PackedPayloadsReturn(ps: seq<F.Packet>, cs: seq<Cycle>, packed: seq<Chunk>)
    requires F.AllOk(BYTES, ps) && Lanes4(cs)
    requires AllWellPacked(BYTES, packed) && NonNull(packed) && ChunkStream(packed) == Bare(Sent(ps))
    requires Remaining(Run(Start(ps), cs)) == []
    ensures T.Chunks(Emitted(Start(ps), cs)) == packed
  {
    DeframingUndoesFraming(ps, cs);
    BareBeats(Emitted(Start(ps), cs));
    assert Sent(ps) == Shown(T.BeatStream(Emitted(Start(ps), cs))) by {
      assert Shown([]) == [];
    }
    EmittedPacked(Start(ps), cs);
    PackedFormIsUnique(BYTES, T.Chunks(Emitted(Start(ps), cs)), packed);
  }
}
