/** synth/axis/axis_header_tagger.sv, for every header length and stream width: the header is kept in
    registers beside the payload, the word it shares with the payload is split, and no new packet is let in
    before the old one has left the packer, or the register that stands in its place.

    `Strip` says on the list of accepted words what must come out. The hardware shows the header only
    on wires beside that output, so the law is about tagged tokens: every payload token with
    the header shown when it leaves.

    The invariant `Inv` is what makes that header the right one: while the header is being read the
    outlet is empty, from the split word on it holds payload of this packet only, and its packet end
    is in there exactly while `flushing`. An edge is one of five cases (`WhenOutputEnds` to
    `WhenPayloadTaken`), each of which keeps the law. */
module AxisHeaderTagger {
  import opened Axis
  import opened ByteStream
  import Packer
  import O = TaggerOutlet

  type Outlet = O.Outlet

  /** Bytes of a word and of the header, CTR_MAX (words counted, the split word among them), and whether
      the outlet is a packer. */
  datatype Params = Params(bytes: nat, header: nat, words: nat, packed: bool) {
    predicate Valid() {
      bytes >= 1 && (packed ==> bytes >= 2) && header <= (words + 1) * bytes
    }

    function Widened(): nat { (words + 1) * bytes }

    /** The lanes of the split word that are the header's. */
    function Remainder(): (r: nat)
      requires bytes > 0
      ensures 0 < r <= bytes
    {
      if header % bytes == 0 then bytes else header % bytes
    }

    /** Words that are the header's alone; with no word to count, CTR_MAX - 1 is the highest number. */
    predicate Skips(k: nat) { words == 0 || k + 1 < words }
  }

  /** SPLIT_WORD_INDEX: the macro for a quotient rounded up, applied to one byte less than the header, so
      that for a single byte it divides -1, truncating towards zero. */
  function Built(bytes: nat, header: nat, requirePacked: bool): (p: Params)
    requires bytes >= 1 && header >= 1
    ensures p.Valid() && p.bytes == bytes && p.header == header
  {
    var words := if header == 1 then (if bytes == 1 then 0 else 1) else (header - 2) / bytes + 1;
    assert header > 1 ==> words * bytes + bytes >= header - 1 + bytes;
    Params(bytes, header, words, PackerBuilt(bytes, header, requirePacked))
  }

  predicate PackerBuilt(bytes: nat, header: nat, requirePacked: bool)
    requires bytes >= 1
  {
    requirePacked && header % bytes != 0
  }

  lemma WordFits(p: Params, k: nat)
    requires p.Valid() && k <= p.words
    ensures k * p.bytes + p.bytes == (k + 1) * p.bytes <= p.Widened()
  {
    assert (k + 1) * p.bytes <= (p.words + 1) * p.bytes;
  }

  function Zeros(n: nat): seq<byte> { seq(n, _ => 0) }

  datatype State = State(ctr: nat, flushing: bool, widened: seq<byte>, outlet: Outlet) {
    ghost predicate Ok(p: Params) {
      && p.Valid() && ctr <= p.words && |widened| == p.Widened()
      && O.Ok(p.bytes, outlet) && outlet.Packing? == p.packed
    }

    function Header(p: Params): (h: seq<byte>)
      requires p.Valid() && |widened| == p.Widened()
      ensures |h| == p.header
    {
      widened[..p.header]
    }
  }

  function Reset(p: Params): (s: State)
    requires p.Valid()
    ensures Inv(p, s) && Solid(s)
  {
    O.ResetIsEmpty(p.bytes, p.packed);
    State(0, false, Zeros(p.Widened()), O.Reset(p.bytes, p.packed))
  }

  datatype Input = Input(word: Option<Word>, oTready: bool) {
    predicate Ok(p: Params) { word.Some? ==> word.value.Lanes(p.bytes) }
  }

  /** In the split word only the lanes above the header's are payload. */
  function Masked(p: Params, ctr: nat, w: Word): (r: Word)
    requires p.Valid() && w.Lanes(p.bytes)
    ensures r.Lanes(p.bytes) && r.last == w.last && r.data == w.data
  {
    if ctr < p.words then
      w.(keep := seq(p.bytes, i requires 0 <= i < p.bytes => i >= p.Remainder() && w.keep[i]))
    else w
  }

  predicate AxisITready(p: Params, s: State, oTready: bool)
    requires s.Ok(p)
  {
    if p.Skips(s.ctr) then true
    else if !s.flushing then O.AxisITready(p.bytes, s.outlet, oTready)
    else false
  }

  function Unpacked(p: Params, s: State, word: Option<Word>): (o: Option<Word>)
    requires p.Valid() && (word.Some? ==> word.value.Lanes(p.bytes))
    ensures o.Some? ==> o.value.Lanes(p.bytes)
  {
    if !p.Skips(s.ctr) && !s.flushing && word.Some? then Some(Masked(p, s.ctr, word.value)) else None
  }

  function OutletInput(p: Params, s: State, x: Input): (r: Packer.Input)
    requires p.Valid() && x.Ok(p)
    ensures r.word.Some? ==> r.word.value.Lanes(p.bytes)
  {
    Packer.Input(Unpacked(p, s, x.word), x.oTready)
  }

  predicate Takes(p: Params, s: State, x: Input)
    requires s.Ok(p)
  {
    x.word.Some? && AxisITready(p, s, x.oTready)
  }

  predicate OutputEnds(p: Params, s: State, x: Input) {
    O.Ends(p.bytes, s.outlet) && x.oTready
  }

  /** Words of the header are let in whatever the sink does; other words as long as there is room, unless
      the packet before has still to leave. */
  lemma RoomAccepts(p: Params, s: State, oTready: bool)
    requires s.Ok(p)
    ensures p.Skips(s.ctr) ==> AxisITready(p, s, oTready)
    ensures !s.flushing && s.outlet == O.Reset(p.bytes, p.packed) ==> AxisITready(p, s, oTready)
    ensures s.flushing && !p.Skips(s.ctr) ==> !AxisITready(p, s, oTready)
  {
    if p.packed {
      Packer.ReadyAtReset(p.bytes, oTready);
    }
  }

  /** The header registers with a word written over word k. */
  function Write(p: Params, widened: seq<byte>, k: nat, data: seq<byte>): (r: seq<byte>)
    requires p.Valid() && k <= p.words && |widened| == p.Widened() && |data| == p.bytes
    ensures |r| == p.Widened()
  {
    WordFits(p, k);
    widened[..k * p.bytes] + data + widened[k * p.bytes + p.bytes..]
  }

  function Next(p: Params, s: State, x: Input): (r: State)
    requires s.Ok(p) && x.Ok(p)
    ensures r.ctr <= p.words && |r.widened| == p.Widened()
  {
    var outlet := O.Step(p.bytes, s.outlet, OutletInput(p, s, x));
    if OutputEnds(p, s, x) then
      State(0, false, Zeros(p.Widened()), outlet)
    else if Takes(p, s, x) then
      State(
        if s.ctr < p.words then s.ctr + 1 else s.ctr,
        || s.flushing
        || (Unpacked(p, s, x.word).Some? && O.AxisITready(p.bytes, s.outlet, x.oTready) && x.word.value.last),
        if s.ctr < p.words then Write(p, s.widened, s.ctr, x.word.value.data) else s.widened,
        outlet)
    else
      State(s.ctr, s.flushing, s.widened, outlet)
  }

  /** A word transferred at the output, and the header beside it. */
  datatype TaggedChunk = TaggedChunk(chunk: Chunk, header: seq<byte>) {
    function Tokens(): seq<Tagged> { Tag(chunk.Tokens(), header) }
  }

  datatype Tagged = Tagged(token: Token, header: seq<byte>)

  function Tag(ts: seq<Token>, header: seq<byte>): (r: seq<Tagged>)
    ensures |r| == |ts|
  {
    seq(|ts|, i requires 0 <= i < |ts| => Tagged(ts[i], header))
  }

  function BeatStream(bs: seq<TaggedChunk>): seq<Tagged> {
    if bs == [] then [] else bs[0].Tokens() + BeatStream(bs[1..])
  }

  function Given(p: Params, s: State, x: Input): seq<TaggedChunk>
    requires s.Ok(p) && x.Ok(p)
  {
    if Gives(p, s, x) then [TaggedChunk(O.Out(p.bytes, s.outlet), s.Header(p))] else []
  }

  // ---------- What the packets are, seen without the hardware ----------

  /** The beginning of a packet, up to its split word: how many words of it, and their bytes. */
  datatype Head = Head(k: nat, bytes: seq<byte>) {
    predicate Ok(p: Params) { k <= p.words && |bytes| == k * p.bytes }
  }

  const NO_HEAD := Head(0, [])

  function HeaderOf(p: Params, bytes: seq<byte>): (h: seq<byte>)
    requires p.Valid() && |bytes| <= p.Widened()
    ensures |h| == p.header
  {
    (bytes + Zeros(p.Widened() - |bytes|))[..p.header]
  }

  function Grown(p: Params, head: Head, w: Word): (r: Head)
    requires p.Valid() && head.Ok(p) && w.Lanes(p.bytes)
    ensures r.Ok(p) && |r.bytes| <= p.Widened()
  {
    WordFits(p, head.k);
    if head.k < p.words then
      WordFits(p, head.k + 1);
      Head(head.k + 1, head.bytes + w.data)
    else head
  }

  /** Reading on in a packet of which `head` is the beginning: the payload tokens of one more word. */
  function Payload(p: Params, head: Head, w: Word): seq<Tagged>
    requires p.Valid() && head.Ok(p) && w.Lanes(p.bytes)
  {
    if p.Skips(head.k) then [] else Tag(WordTokens(Masked(p, head.k, w)), HeaderOf(p, Grown(p, head, w).bytes))
  }

  /** A last before the split word is not looked at. */
  function HeadAfter(p: Params, head: Head, w: Word): (r: Head)
    requires p.Valid() && head.Ok(p) && w.Lanes(p.bytes)
    ensures r.Ok(p)
  {
    if !p.Skips(head.k) && w.last then NO_HEAD else Grown(p, head, w)
  }

  /** A stream of words without its headers, every token tagged with the header of its packet. */
  function Strip(p: Params, head: Head, ws: seq<Word>): seq<Tagged>
    requires p.Valid() && head.Ok(p) && AllLanes(p.bytes, ws)
    decreases |ws|
  {
    if ws == [] then [] else Payload(p, head, ws[0]) + Strip(p, HeadAfter(p, head, ws[0]), ws[1..])
  }

  /** The words a header takes up. */
  function Wanted(bytes: nat, header: nat, requirePacked: bool): (p: Params)
    requires bytes >= 1 && header >= 1
    ensures p.Valid() && p.bytes == bytes && p.header == header
  {
    var words := (header - 1) / bytes + 1;
    assert words * bytes >= header;
    Params(bytes, header, words, PackerBuilt(bytes, header, requirePacked))
  }

  /** The header does not end in the first lane of a word; a single byte may, if the word has more. */
  predicate EndsInside(bytes: nat, header: nat)
    requires bytes >= 1 && header >= 1
  {
    if header == 1 then bytes > 1 else (header - 1) % bytes != 0
  }

  /** Every stream is stripped as it should be, if and only if the header ends inside a word so. Where it
      does not, one word too few is counted. */
  lemma SplitsRightIff(bytes: nat, header: nat, requirePacked: bool)
    requires bytes >= 1 && header >= 1
    ensures var built, wanted := Built(bytes, header, requirePacked), Wanted(bytes, header, requirePacked);
      && (if EndsInside(bytes, header) then built == wanted else built.words + 1 == wanted.words)
      && (EndsInside(bytes, header)
          <==> forall ws :: AllLanes(bytes, ws) ==> Strip(built, NO_HEAD, ws) == Strip(wanted, NO_HEAD, ws))
  {
    Quotients(bytes, header, requirePacked);
    if !EndsInside(bytes, header) {
      SplitsEarly(bytes, header, requirePacked);
    }
  }

  lemma Quotients(bytes: nat, header: nat, requirePacked: bool)
    requires bytes >= 1 && header >= 1
    ensures var built, wanted := Built(bytes, header, requirePacked), Wanted(bytes, header, requirePacked);
      if EndsInside(bytes, header) then built == wanted else built.words + 1 == wanted.words
  {
    if header > 1 {
      var q, r := (header - 1) / bytes, (header - 1) % bytes;
      assert header - 1 == bytes * q + r;
      if r > 0 {
        QuotientIs(bytes, q, r - 1);
      } else {
        QuotientIs(bytes, q - 1, bytes - 1);
        assert header - 2 == bytes * (q - 1) + (bytes - 1);
      }
    } else {
      assert 0 / bytes == 0;
    }
  }

  lemma QuotientIs(b: nat, q: int, r: nat)
    requires r < b && b * q + r >= 0
    ensures (b * q + r) / b == q
  {
    var n := b * q + r;
    QuotientUnique(b, q, r, n / b, n % b);
  }

  lemma QuotientUnique(b: nat, q: int, r: nat, q': int, r': nat)
    requires r < b && r' < b && b * q + r == b * q' + r'
    ensures q == q'
  {
    if q < q' {
      NextMultiple(b, q, q');
      assert false;
    } else if q' < q {
      NextMultiple(b, q', q);
      assert false;
    }
  }

  lemma NextMultiple(b: nat, q: int, q': int)
    requires q < q'
    ensures b * q + b <= b * q'
  {
    assert b * (q + 1) <= b * q';
  }

  function FullWord(bytes: nat): (w: Word)
    ensures w.Lanes(bytes) && !w.last
  {
    Word(Zeros(bytes), seq(bytes, _ => true), false)
  }

  function FullWords(bytes: nat, n: nat): (ws: seq<Word>)
    ensures AllLanes(bytes, ws)
  {
    if n == 0 then [] else [FullWord(bytes)] + FullWords(bytes, n - 1)
  }

  /** Of a packet of full words nothing comes out while only its header's words are read, and something from
      the word behind the split word on at the latest. */
  lemma {:induction false} StripFull(p: Params, head: Head, n: nat)
    requires p.Valid() && head.Ok(p)
    ensures p.words == 0 || head.k + n < p.words ==> Strip(p, head, FullWords(p.bytes, n)) == []
    ensures n > 0 && p.words > 0 && head.k + n == p.words ==>
      (Strip(p, head, FullWords(p.bytes, n)) == [] <==> p.Remainder() == p.bytes)
    ensures n > 0 && p.words > 0 && head.k + n > p.words ==> Strip(p, head, FullWords(p.bytes, n)) != []
    decreases n
  {
    if n > 0 {
      var w := FullWord(p.bytes);
      assert FullWords(p.bytes, n)[1..] == FullWords(p.bytes, n - 1);
      MaskedKeeps(p, head.k, w);
      StripFull(p, HeadAfter(p, head, w), n - 1);
    }
  }

  lemma MaskedKeeps(p: Params, ctr: nat, w: Word)
    requires p.Valid() && w == FullWord(p.bytes)
    ensures WordTokens(Masked(p, ctr, w)) == [] <==> ctr < p.words && p.Remainder() == p.bytes
  {
    var m := Masked(p, ctr, w);
    assert w.keep[p.bytes - 1];
    if ctr < p.words && p.Remainder() == p.bytes {
      KeptNone(m.data, m.keep);
    } else {
      assert m.keep[p.bytes - 1];
      KeptSome(m.data, m.keep, p.bytes - 1);
    }
  }

  /** A stream that tells the two apart. */
  lemma SplitsEarly(bytes: nat, header: nat, requirePacked: bool)
    requires bytes >= 1 && header >= 1 && !EndsInside(bytes, header)
    requires Built(bytes, header, requirePacked).words + 1 == Wanted(bytes, header, requirePacked).words
    ensures var built, wanted := Built(bytes, header, requirePacked), Wanted(bytes, header, requirePacked);
      exists ws :: AllLanes(bytes, ws) && Strip(built, NO_HEAD, ws) != Strip(wanted, NO_HEAD, ws)
  {
    var built, wanted := Built(bytes, header, requirePacked), Wanted(bytes, header, requirePacked);
    var n := if bytes == 1 then (if header == 1 then 2 else built.words + 1) else built.words;
    StripFull(built, NO_HEAD, n);
    StripFull(wanted, NO_HEAD, n);
    if bytes > 1 {
      FirstLane(bytes, header);
    }
    assert AllLanes(bytes, FullWords(bytes, n));
    assert Strip(built, NO_HEAD, FullWords(bytes, n)) != Strip(wanted, NO_HEAD, FullWords(bytes, n));
  }

  lemma FirstLane(bytes: nat, header: nat)
    requires bytes > 1 && header > 1 && (header - 1) % bytes == 0
    ensures header % bytes == 1 && Built(bytes, header, true).words > 0
  {
    var q := (header - 1) / bytes;
    assert header == bytes * q + 1;
    RemainderIs(bytes, q, 1);
  }

  lemma RemainderIs(b: nat, q: nat, r: nat)
    requires r < b
    ensures (b * q + r) % b == r
  {
    QuotientIs(b, q, r);
  }

  /** The head of the packet whose words are being accepted. */
  function HeadOf(p: Params, s: State): (h: Head)
    requires p.Valid() && s.ctr <= p.words && |s.widened| == p.Widened()
    ensures h.Ok(p)
  {
    WordFits(p, s.ctr);
    if s.flushing then NO_HEAD else Head(s.ctr, s.widened[..s.ctr * p.bytes])
  }

  // ---------- Invariant and step ----------

  /** A packet end is the last token, if `ended`, and otherwise there is none. */
  predicate Shaped(ts: seq<Token>, ended: bool) {
    && (ended ==> ts != [])
    && forall i :: 0 <= i < |ts| ==> (ts[i].End? <==> ended && i == |ts| - 1)
  }

  predicate ClearAbove(p: Params, s: State)
    requires p.Valid() && |s.widened| == p.Widened()
  {
    forall i :: s.ctr * p.bytes <= i < |s.widened| ==> s.widened[i] == 0
  }

  /** Only payload of one packet is in the outlet, and nothing while the header is being read; the header
      registers are clear above what has been read. */
  ghost predicate Inv(p: Params, s: State) {
    && s.Ok(p) && ClearAbove(p, s)
    && (s.ctr < p.words ==> !s.flushing && O.Inside(p.bytes, s.outlet) == [])
    && Shaped(O.Inside(p.bytes, s.outlet), s.flushing)
  }

  function TaggedInside(p: Params, s: State): seq<Tagged>
    requires s.Ok(p)
  {
    Tag(O.Inside(p.bytes, s.outlet), s.Header(p))
  }

  lemma ShapeMoves(inside: seq<Token>, taken: seq<Token>, c: Chunk, inside': seq<Token>, ended: bool, ends: bool)
    requires Shaped(inside, ended) && Shaped(taken, ends) && !(ended && taken != [])
    requires inside + taken == c.Tokens() + inside'
    ensures c.last ==> (ended || ends) && inside' == []
    ensures !c.last ==> Shaped(inside', ended || ends)
  {
    var all := inside + taken;
    assert forall i :: 0 <= i < |all| ==> (all[i].End? <==> (ended || ends) && i == |all| - 1);
    if c.last {
      assert all[|c.bytes|] == (c.Tokens() + inside')[|c.bytes|] == End;
    } else {
      assert forall i :: 0 <= i < |inside'| ==> inside'[i] == all[i + |c.bytes|];
      assert ended || ends ==> all[|all| - 1].End? && all == c.Tokens() + inside';
    }
  }

  lemma WordShape(w: Word)
    requires |w.data| == |w.keep|
    ensures Shaped(WordTokens(w), w.last)
  {
  }

  lemma NextOutlet(p: Params, s: State, x: Input)
    requires s.Ok(p) && x.Ok(p)
    ensures Next(p, s, x).outlet == O.Step(p.bytes, s.outlet, OutletInput(p, s, x))
  {
    hide O.Ok, O.Step, O.AxisITready;
  }

  /** The payload tokens of the word accepted in this cycle. */
  function TakenTokens(p: Params, s: State, x: Input): seq<Token>
    requires s.Ok(p) && x.Ok(p)
  {
    if Takes(p, s, x) && !p.Skips(s.ctr) then WordTokens(Masked(p, s.ctr, x.word.value)) else []
  }

  predicate Gives(p: Params, s: State, x: Input) {
    O.OTvalid(p.bytes, s.outlet) && x.oTready
  }

  function GivenTokens(p: Params, s: State, x: Input): seq<Token>
    requires s.Ok(p)
  {
    if Gives(p, s, x) then O.Out(p.bytes, s.outlet).Tokens() else []
  }

  lemma TakenIs(p: Params, s: State, x: Input)
    requires s.Ok(p) && x.Ok(p) && (s.ctr < p.words ==> !s.flushing)
    ensures WordStream(O.Taken(p.bytes, s.outlet, OutletInput(p, s, x))) == TakenTokens(p, s, x)
  {
    hide O.AxisITready, WordTokens, Masked;
    var taken := O.Taken(p.bytes, s.outlet, OutletInput(p, s, x));
    assert taken != [] ==> taken[1..] == [];
  }

  lemma GivenIs(p: Params, s: State, x: Input)
    requires s.Ok(p) && x.Ok(p)
    ensures ChunkStream(O.Given(p.bytes, s.outlet, OutletInput(p, s, x))) == GivenTokens(p, s, x)
  {
    var given := O.Given(p.bytes, s.outlet, OutletInput(p, s, x));
    assert Gives(p, s, x) ==> given[0] == O.Out(p.bytes, s.outlet) && given[1..] == [];
  }

  lemma Edge(p: Params, s: State, x: Input)
    requires Inv(p, s) && x.Ok(p)
    ensures Next(p, s, x).Ok(p)
    ensures O.Inside(p.bytes, s.outlet) + TakenTokens(p, s, x)
         == GivenTokens(p, s, x) + O.Inside(p.bytes, Next(p, s, x).outlet)
  {
    hide O.Inside, O.Taken, O.Given, O.Ok, GivenTokens, TakenTokens, Next, OutletInput, Gives;
    O.StepOk(p.bytes, s.outlet, OutletInput(p, s, x));
    O.StepConserves(p.bytes, s.outlet, OutletInput(p, s, x));
    NextOutlet(p, s, x);
    TakenIs(p, s, x);
    GivenIs(p, s, x);
  }

  lemma TagAppend(a: seq<Token>, b: seq<Token>, h: seq<byte>)
    ensures Tag(a + b, h) == Tag(a, h) + Tag(b, h)
  {
  }

  function Taken(p: Params, s: State, x: Input): (ws: seq<Word>)
    requires s.Ok(p) && x.Ok(p)
    ensures AllLanes(p.bytes, ws)
  {
    if Takes(p, s, x) then [x.word.value] else []
  }

  function HeadNext(p: Params, s: State, x: Input): (h: Head)
    requires s.Ok(p) && x.Ok(p)
    ensures h.Ok(p)
  {
    if Takes(p, s, x) then HeadAfter(p, HeadOf(p, s), x.word.value) else HeadOf(p, s)
  }

  function PayloadTaken(p: Params, s: State, x: Input): seq<Tagged>
    requires s.Ok(p) && x.Ok(p)
  {
    if Takes(p, s, x) then Payload(p, HeadOf(p, s), x.word.value) else []
  }

  function GivenTagged(p: Params, s: State, x: Input): seq<Tagged>
    requires s.Ok(p)
  {
    Tag(GivenTokens(p, s, x), s.Header(p))
  }

  /** The packet being read, and the payload in the outlet, after one edge. */
  ghost predicate StepLaw(p: Params, s: State, x: Input)
    requires s.Ok(p) && x.Ok(p) && Next(p, s, x).Ok(p)
  {
    && Inv(p, Next(p, s, x)) && HeadOf(p, Next(p, s, x)) == HeadNext(p, s, x)
    && TaggedInside(p, s) + PayloadTaken(p, s, x) == GivenTagged(p, s, x) + TaggedInside(p, Next(p, s, x))
  }

  lemma WhenOutputEnds(p: Params, s: State, x: Input)
    requires Inv(p, s) && x.Ok(p) && OutputEnds(p, s, x)
    ensures Next(p, s, x).Ok(p) && StepLaw(p, s, x)
  {
    hide O.Inside, O.Step, O.AxisITready, O.Ok, WordTokens;
    Edge(p, s, x);
    var inside, inside' := O.Inside(p.bytes, s.outlet), O.Inside(p.bytes, Next(p, s, x).outlet);
    var c := O.Out(p.bytes, s.outlet);
    if !s.flushing {
      OutputEndsOnlyWhenFlushing(p, s);
      assert false;
    }
    ShapeMoves(inside, [], c, inside', true, false);
    assert inside + [] == inside;
  }

  lemma OutputEndsOnlyWhenFlushing(p: Params, s: State)
    requires Inv(p, s) && O.Ends(p.bytes, s.outlet)
    ensures s.flushing
  {
    hide O.Ok, O.Inside, O.Out, O.Ends;
    O.OutIsFirst(p.bytes, s.outlet);
    var out, inside := O.Out(p.bytes, s.outlet).Tokens(), O.Inside(p.bytes, s.outlet);
    assert out[|out| - 1] == End;
    assert inside[..|out|][|out| - 1] == inside[|out| - 1];
  }

  /** Nor does anything come of what a tagger takes that has no word to count. */
  lemma WhenNothingTaken(p: Params, s: State, x: Input)
    requires Inv(p, s) && x.Ok(p) && !OutputEnds(p, s, x) && (!Takes(p, s, x) || p.words == 0)
    ensures Next(p, s, x).Ok(p) && StepLaw(p, s, x)
  {
    hide O.Inside, O.Step, O.AxisITready, O.Ok, WordTokens;
    Edge(p, s, x);
    var inside, inside' := O.Inside(p.bytes, s.outlet), O.Inside(p.bytes, Next(p, s, x).outlet);
    assert inside + [] == inside;
    if Gives(p, s, x) {
      ShapeMoves(inside, [], O.Out(p.bytes, s.outlet), inside', s.flushing, false);
    } else {
      assert [] + inside' == inside';
    }
    TagAppend(GivenTokens(p, s, x), inside', s.Header(p));
  }

  /** While the header is read the outlet is empty and stays so. */
  lemma WhenHeaderTaken(p: Params, s: State, x: Input)
    requires Inv(p, s) && x.Ok(p) && !OutputEnds(p, s, x) && Takes(p, s, x) && p.Skips(s.ctr) && p.words > 0
    ensures Next(p, s, x).Ok(p) && StepLaw(p, s, x)
  {
    hide O.Inside, O.Step, O.AxisITready, O.Ok, WordTokens, ClearAbove, Write;
    Edge(p, s, x);
    NothingGiven(p, s, x);
    DropEmpty(TakenTokens(p, s, x), O.Inside(p.bytes, Next(p, s, x).outlet));
    WidenedGrows(p, s, x);
  }

  lemma WidenedGrows(p: Params, s: State, x: Input)
    requires s.Ok(p) && ClearAbove(p, s) && x.word.Some? && x.Ok(p)
    requires Takes(p, s, x) && !OutputEnds(p, s, x) && s.ctr < p.words
    ensures var r, now := Next(p, s, x), s.ctr * p.bytes;
      && r.ctr == s.ctr + 1 && now <= r.ctr * p.bytes <= p.Widened() && ClearAbove(p, r)
      && r.widened[..r.ctr * p.bytes] == s.widened[..now] + x.word.value.data
  {
    hide O.Step, O.AxisITready, O.Ok;
    WordFits(p, s.ctr);
  }

  lemma DropEmpty<T>(a: seq<T>, b: seq<T>)
    requires [] + a == [] + b
    ensures a == b
  {
    assert a == [] + a && b == [] + b;
  }

  lemma NothingGiven(p: Params, s: State, x: Input)
    requires s.Ok(p) && O.Inside(p.bytes, s.outlet) == []
    ensures GivenTokens(p, s, x) == []
  {
    O.OutIsFirst(p.bytes, s.outlet);
  }

  /** The registers show the header of what has been read. */
  lemma ShownHeader(p: Params, s: State)
    requires p.Valid() && s.ctr <= p.words && |s.widened| == p.Widened() && ClearAbove(p, s)
    ensures s.ctr * p.bytes <= p.Widened() && s.Header(p) == HeaderOf(p, s.widened[..s.ctr * p.bytes])
  {
    WordFits(p, s.ctr);
    var read := s.widened[..s.ctr * p.bytes];
    assert s.widened == read + Zeros(p.Widened() - |read|);
  }

  /** The split word: from this edge on the outlet holds payload, beside the complete header. */
  lemma WhenSplitTaken(p: Params, s: State, x: Input)
    requires Inv(p, s) && x.Ok(p) && !OutputEnds(p, s, x) && Takes(p, s, x) && s.ctr + 1 == p.words
    ensures Next(p, s, x).Ok(p) && StepLaw(p, s, x)
  {
    hide O.Inside, O.Step, O.AxisITready, O.Ok, WordTokens, ClearAbove, Write, HeaderOf, Masked;
    Edge(p, s, x);
    NothingGiven(p, s, x);
    DropEmpty(TakenTokens(p, s, x), O.Inside(p.bytes, Next(p, s, x).outlet));
    WidenedGrows(p, s, x);
    WordShape(Masked(p, s.ctr, x.word.value));
    ShownHeader(p, Next(p, s, x));
  }

  lemma WhenPayloadTaken(p: Params, s: State, x: Input)
    requires Inv(p, s) && x.Ok(p) && !OutputEnds(p, s, x) && Takes(p, s, x) && s.ctr == p.words > 0
    ensures Next(p, s, x).Ok(p) && StepLaw(p, s, x)
  {
    hide O.Inside, O.Step, O.AxisITready, O.Ok, WordTokens, HeaderOf;
    Edge(p, s, x);
    var inside, inside' := O.Inside(p.bytes, s.outlet), O.Inside(p.bytes, Next(p, s, x).outlet);
    var w, h := x.word.value, s.Header(p);
    WordShape(w);
    if Gives(p, s, x) {
      ShapeMoves(inside, WordTokens(w), O.Out(p.bytes, s.outlet), inside', false, w.last);
    } else {
      assert [] + inside' == inside';
    }
    ShownHeader(p, s);
    TagAppend(inside, WordTokens(w), h);
    TagAppend(GivenTokens(p, s, x), inside', h);
  }

  lemma StepConserves(p: Params, s: State, x: Input)
    requires Inv(p, s) && x.Ok(p)
    ensures Next(p, s, x).Ok(p) && StepLaw(p, s, x)
  {
    hide O.Inside, O.Step, O.AxisITready, O.Ok, WordTokens, StepLaw, Next, Takes, OutputEnds;
    if OutputEnds(p, s, x) {
      WhenOutputEnds(p, s, x);
    } else if !Takes(p, s, x) || p.words == 0 {
      WhenNothingTaken(p, s, x);
    } else if p.Skips(s.ctr) {
      WhenHeaderTaken(p, s, x);
    } else if s.ctr + 1 == p.words {
      WhenSplitTaken(p, s, x);
    } else {
      WhenPayloadTaken(p, s, x);
    }
  }

  // ---------- Whole runs ----------

  predicate Lanes(p: Params, xs: seq<Input>) {
    forall k :: 0 <= k < |xs| ==> xs[k].Ok(p)
  }

  function Run(p: Params, s: State, xs: seq<Input>): (r: State)
    requires Inv(p, s) && Lanes(p, xs)
    ensures Inv(p, r)
    decreases |xs|
  {
    if xs == [] then s else
      StepConserves(p, s, xs[0]);
      Run(p, Next(p, s, xs[0]), xs[1..])
  }

  function Accepted(p: Params, s: State, xs: seq<Input>): (ws: seq<Word>)
    requires Inv(p, s) && Lanes(p, xs)
    ensures AllLanes(p.bytes, ws)
    decreases |xs|
  {
    if xs == [] then [] else
      StepConserves(p, s, xs[0]);
      Taken(p, s, xs[0]) + Accepted(p, Next(p, s, xs[0]), xs[1..])
  }

  /** The words transferred at the output, each with the header shown beside it. */
  function Emitted(p: Params, s: State, xs: seq<Input>): seq<TaggedChunk>
    requires Inv(p, s) && Lanes(p, xs)
    decreases |xs|
  {
    if xs == [] then [] else
      StepConserves(p, s, xs[0]);
      Given(p, s, xs[0]) + Emitted(p, Next(p, s, xs[0]), xs[1..])
  }

  lemma {:induction false} BeatStreamAppend(a: seq<TaggedChunk>, b: seq<TaggedChunk>)
    ensures BeatStream(a + b) == BeatStream(a) + BeatStream(b)
    decreases |a|
  {
    if a == [] {
      assert a + b == b;
    } else {
      assert (a + b)[1..] == a[1..] + b;
      BeatStreamAppend(a[1..], b);
    }
  }

  lemma GivenStream(p: Params, s: State, x: Input)
    requires s.Ok(p) && x.Ok(p)
    ensures BeatStream(Given(p, s, x)) == GivenTagged(p, s, x)
  {
    var given := Given(p, s, x);
    assert given != [] ==> given[1..] == [];
  }

  lemma StripStep(p: Params, s: State, x: Input, rest: seq<Word>)
    requires s.Ok(p) && x.Ok(p) && AllLanes(p.bytes, rest)
    ensures Strip(p, HeadOf(p, s), Taken(p, s, x) + rest) == PayloadTaken(p, s, x) + Strip(p, HeadNext(p, s, x), rest)
  {
    hide HeadOf, HeadAfter, Payload, Takes;
    if Takes(p, s, x) {
      assert (Taken(p, s, x) + rest)[1..] == rest;
    } else {
      assert Taken(p, s, x) + rest == rest;
    }
  }

  /** Any run: the accepted words without their headers, each token tagged with its packet's header,
      are what is emitted with the header lines at that moment, then what is still in the outlet. */
  lemma {:induction false} RunConserves(p: Params, s: State, xs: seq<Input>)
    requires Inv(p, s) && Lanes(p, xs)
    ensures TaggedInside(p, s) + Strip(p, HeadOf(p, s), Accepted(p, s, xs))
         == BeatStream(Emitted(p, s, xs)) + TaggedInside(p, Run(p, s, xs))
    decreases |xs|
  {
    hide TaggedInside, PayloadTaken, GivenTagged, Taken, Given, Next, Takes, HeadOf, O.Inside, O.Ok, Shaped,
      ClearAbove, HeadNext;
    if xs == [] {
      assert TaggedInside(p, s) + [] == [] + TaggedInside(p, s);
    } else {
      var next := Next(p, s, xs[0]);
      StepConserves(p, s, xs[0]);
      RunConserves(p, next, xs[1..]);
      StripStep(p, s, xs[0], Accepted(p, next, xs[1..]));
      GivenStream(p, s, xs[0]);
      BeatStreamAppend(Given(p, s, xs[0]), Emitted(p, next, xs[1..]));
      Regroup(TaggedInside(p, s), PayloadTaken(p, s, xs[0]), Strip(p, HeadOf(p, next), Accepted(p, next, xs[1..])),
        GivenTagged(p, s, xs[0]), TaggedInside(p, next), BeatStream(Emitted(p, next, xs[1..])),
        TaggedInside(p, Run(p, s, xs)));
    }
  }

  lemma ResetInv(p: Params)
    requires p.Valid()
    ensures TaggedInside(p, Reset(p)) == [] && HeadOf(p, Reset(p)) == NO_HEAD
  {
    O.ResetIsEmpty(p.bytes, p.packed);
  }

  /** From reset, for any packets whatever, also such as end before their header does. */
  lemma StripsHeaders(p: Params, xs: seq<Input>)
    requires p.Valid() && Lanes(p, xs)
    ensures Strip(p, NO_HEAD, Accepted(p, Reset(p), xs))
         == BeatStream(Emitted(p, Reset(p), xs)) + TaggedInside(p, Run(p, Reset(p), xs))
  {
    hide Strip, Accepted, Emitted, Run, Reset, TaggedInside;
    ResetInv(p);
    RunConserves(p, Reset(p), xs);
    var stripped := Strip(p, NO_HEAD, Accepted(p, Reset(p), xs));
    assert [] + stripped == stripped;
  }

  // ---------- Null words ----------

  predicate Solid(s: State) { s.outlet.Packing? ==> Packer.Solid(s.outlet.packer) }

  /** The packet goes on past its header: last only on a word with a payload byte. */
  predicate Framed(p: Params, head: Head, w: Word) {
    && p.Valid() && head.Ok(p) && w.Lanes(p.bytes)
    && (w.last ==> !p.Skips(head.k) && ToChunk(Masked(p, head.k, w)).bytes != [])
  }

  predicate OfferFramed(p: Params, s: State, x: Input)
    requires s.Ok(p)
  {
    x.word.Some? ==> Framed(p, HeadOf(p, s), x.word.value)
  }

  /** In every cycle the word on offer, taken or not, belongs to a packet longer than the header. */
  ghost predicate Framing(p: Params, s: State, xs: seq<Input>)
    requires Inv(p, s) && Lanes(p, xs)
    decreases |xs|
  {
    xs == [] || (
      && OfferFramed(p, s, xs[0])
      && (StepConserves(p, s, xs[0]); Framing(p, Next(p, s, xs[0]), xs[1..])))
  }

  lemma InputIsSolid(p: Params, s: State, x: Input)
    requires Inv(p, s) && x.Ok(p) && OfferFramed(p, s, x)
    ensures var input := OutletInput(p, s, x); input.word.Some? ==> !Packer.NullLast(input.word.value)
  {
    hide O.Inside, O.Ok, Masked, Shaped;
  }

  function Chunks(bs: seq<TaggedChunk>): (cs: seq<Chunk>)
    ensures |cs| == |bs| && forall i :: 0 <= i < |bs| ==> cs[i] == bs[i].chunk
  {
    seq(|bs|, i requires 0 <= i < |bs| => bs[i].chunk)
  }

  lemma GivenPacked(p: Params, s: State, x: Input)
    requires Inv(p, s) && x.Ok(p) && p.packed
    ensures AllWellPacked(p.bytes, Chunks(Given(p, s, x)))
  {
  }

  lemma GivenSolid(p: Params, s: State, x: Input)
    requires Inv(p, s) && x.Ok(p) && p.packed && Solid(s) && OfferFramed(p, s, x)
    ensures NonNull(Chunks(Given(p, s, x))) && Solid(Next(p, s, x))
  {
    hide O.Inside, Packer.Step, Masked, Shaped, Next, OutletInput;
    InputIsSolid(p, s, x);
    Packer.StepStaysSolid(p.bytes, s.outlet.packer, OutletInput(p, s, x));
    NextOutlet(p, s, x);
  }

  /** Where a packer is built the words emitted are well packed, and if no packet ends before its payload
      begins, never null. */
  lemma {:induction false} EmittedPacked(p: Params, s: State, xs: seq<Input>)
    requires Inv(p, s) && Lanes(p, xs) && p.packed
    ensures AllWellPacked(p.bytes, Chunks(Emitted(p, s, xs)))
    ensures Solid(s) && Framing(p, s, xs) ==> NonNull(Chunks(Emitted(p, s, xs)))
    decreases |xs|
  {
    hide Next, O.Ok, O.Inside, Shaped, Given, ClearAbove, Solid, OfferFramed;
    if xs != [] {
      StepConserves(p, s, xs[0]);
      GivenPacked(p, s, xs[0]);
      if Solid(s) && Framing(p, s, xs) {
        GivenSolid(p, s, xs[0]);
      }
      EmittedPacked(p, Next(p, s, xs[0]), xs[1..]);
    }
  }

  // ---------- The hardware ----------

  lemma NextIs(p: Params, s: State, x: Input, r: State)
    requires s.Ok(p) && x.Ok(p) && r.outlet == O.Step(p.bytes, s.outlet, OutletInput(p, s, x))
    requires var ends := x.word.Some? && !p.Skips(s.ctr) && !s.flushing && x.word.value.last
        && O.AxisITready(p.bytes, s.outlet, x.oTready);
      if OutputEnds(p, s, x) then r.ctr == 0 && !r.flushing && r.widened == Zeros(p.Widened())
      else if Takes(p, s, x) then
        && r.ctr == (if s.ctr < p.words then s.ctr + 1 else s.ctr) && r.flushing == (s.flushing || ends)
        && r.widened == (if s.ctr < p.words then Write(p, s.widened, s.ctr, x.word.value.data) else s.widened)
      else r.ctr == s.ctr && r.flushing == s.flushing && r.widened == s.widened
    ensures r == Next(p, s, x)
  {
    hide O.Step, O.AxisITready, O.Ok, Write, Masked;
  }

  /** Counter, flushing flag and header registers. */
  class TagRegisters {
    const p: Params
    var ctr: nat
    var flushing: bool
    var axisOHeaderWidened: seq<byte>

    ghost predicate Valid()
      reads this
    {
      p.Valid() && ctr <= p.words && |axisOHeaderWidened| == p.Widened()
    }

    constructor (p: Params)
      requires p.Valid()
      ensures Valid() && this.p == p && ctr == 0 && !flushing && axisOHeaderWidened == Zeros(p.Widened())
    {
      this.p := p;
      ctr, flushing, axisOHeaderWidened := 0, false, Zeros(p.Widened());
    }

    /** The clocked block: the output's end wins over an accepted word. */
    method Clock(outputEnds: bool, takes: bool, payloadEnds: bool, i: seq<byte>)
      requires Valid() && |i| == p.bytes
      modifies this
      ensures Valid()
      ensures outputEnds ==> ctr == 0 && !flushing && axisOHeaderWidened == Zeros(p.Widened())
      ensures !outputEnds && takes ==>
        && ctr == (if old(ctr) < p.words then old(ctr) + 1 else old(ctr))
        && flushing == (old(flushing) || payloadEnds)
        && axisOHeaderWidened == (if old(ctr) < p.words then Write(p, old(axisOHeaderWidened), old(ctr), i)
                                  else old(axisOHeaderWidened))
      ensures !outputEnds && !takes ==>
        ctr == old(ctr) && flushing == old(flushing) && axisOHeaderWidened == old(axisOHeaderWidened)
    {
      if outputEnds {
        ctr, flushing, axisOHeaderWidened := 0, false, Zeros(p.Widened());
      } else if takes {
        if payloadEnds {
          flushing := true;
        }
        if ctr < p.words {
          WordFits(p, ctr);
          var from := ctr * p.bytes;
          axisOHeaderWidened := axisOHeaderWidened[..from] + i + axisOHeaderWidened[from + p.bytes..];
          ctr := ctr + 1;
        }
      }
    }
  }

  lemma ResetIs(p: Params)
    requires p.Valid()
    ensures Inv(p, Reset(p))
    ensures Reset(p) == State(0, false, Zeros(p.Widened()),
      if p.packed then O.Packing(Packer.Reset(p.bytes)) else O.Register(None))
  {
  }

  lemma BuiltPacked(bytes: nat, header: nat)
    requires bytes >= 2 && header % bytes != 0
    ensures header >= 1 && Built(bytes, header, true).packed
  {
  }

  /** The tagger with a packer behind it. */
  class HeaderTagger {
    const p: Params
    const tag: TagRegisters
    const packer: Packer.AxisPacker

    ghost predicate Valid()
      reads tag, packer.Repr()
    {
      && tag !in packer.Repr() && p.Valid() && p.packed && tag.p == p && packer.n == p.bytes
      && packer.Valid() && Inv(p, View())
    }

    ghost function View(): State
      requires packer.combine.Valid()
      reads tag, packer.combine, packer.Repr()
    {
      State(tag.ctr, tag.flushing, tag.axisOHeaderWidened, O.Packing(packer.View()))
    }

    constructor (bytes: nat, header: nat)
      requires bytes >= 2 && header >= 1 && header % bytes != 0
      ensures Valid() && p == Built(bytes, header, true) && View() == Reset(p) && fresh(tag) && fresh(packer.Repr())
    {
      hide Inv, Built, O.Ok, Packer.Ok, O.Reset, Reset, PackerBuilt, O.Inside, Solid;
      BuiltPacked(bytes, header);
      p := Built(bytes, header, true);
      tag := new TagRegisters(Built(bytes, header, true));
      packer := new Packer.AxisPacker(bytes);
      new;
      ResetIs(p);
    }

    /** The packer's edge, which needs nothing of the registers' new values. */
    method ClockPacker(iTvalid: bool, i: Word, oTready: bool) returns (unpackedTvalid: bool, unpackedTready: bool)
      requires Valid() && i.Lanes(p.bytes)
      modifies packer.Repr()
      ensures packer.Valid() && packer.combine.Valid()
      ensures unpackedTvalid <==> !p.Skips(tag.ctr) && !tag.flushing && iTvalid
      ensures unpackedTready <==> Packer.AxisITready(p.bytes, old(packer.View()), oTready)
      ensures var x := Input(if iTvalid then Some(i) else None, oTready);
        packer.View() == Packer.Step(p.bytes, old(packer.View()), OutletInput(p, old(View()), x))
    {
      hide Packer.Step, Packer.AxisITready, Packer.Inside, Packer.Ok, O.Inside, Shaped, Packer.AxisPacker.View, Masked,
        ClearAbove;
      unpackedTvalid := if p.Skips(tag.ctr) then false else if !tag.flushing then iTvalid else false;
      unpackedTready := packer.Clock(unpackedTvalid, Masked(p, tag.ctr, i), oTready);
    }

    /** The edge that ends a cycle, and the input's ready line. */
    method Edge(iTvalid: bool, i: Word, oTready: bool, outputEnds: bool) returns (iTready: bool)
      requires Valid() && i.Lanes(p.bytes)
      requires outputEnds == OutputEnds(p, View(), Input(if iTvalid then Some(i) else None, oTready))
      modifies tag, packer.Repr()
      ensures packer.Valid() && packer.combine.Valid()
      ensures iTready <==> AxisITready(p, old(View()), oTready)
      ensures View() == Next(p, old(View()), Input(if iTvalid then Some(i) else None, oTready))
    {
      hide Packer.Step, Packer.AxisITready, Packer.Inside, Packer.Ok, O.Inside, Shaped, Next, OutletInput, OutputEnds,
        Write, ClearAbove;
      ghost var s, x := View(), Input(if iTvalid then Some(i) else None, oTready);
      var unpackedTvalid, unpackedTready := ClockPacker(iTvalid, i, oTready);
      iTready := if p.Skips(tag.ctr) then true else if !tag.flushing then unpackedTready else false;
      tag.Clock(outputEnds, iTready && iTvalid, unpackedTready && unpackedTvalid && i.last, i.data);
      NextIs(p, s, x, View());
    }

    /** The lines of a cycle, and its edge. `i` is what the data lines carry, valid or not. */
    method Clock(iTvalid: bool, i: Word, oTready: bool) returns (iTready: bool, o: Option<Word>, header: seq<byte>)
      requires Valid() && i.Lanes(p.bytes)
      modifies tag, packer.Repr()
      ensures Valid()
      ensures iTready <==> AxisITready(p, old(View()), oTready)
      ensures o.Some? <==> O.OTvalid(p.bytes, old(View()).outlet)
      ensures o.Some? ==> o.value.Lanes(p.bytes) && ToChunk(o.value) == O.Out(p.bytes, old(View()).outlet)
      ensures header == old(View()).Header(p)
      ensures View() == Next(p, old(View()), Input(if iTvalid then Some(i) else None, oTready))
    {
      StepConserves(p, View(), Input(if iTvalid then Some(i) else None, oTready));
      o, header := packer.AxisO(), tag.axisOHeaderWidened[..p.header];
      iTready := Edge(iTvalid, i, oTready, oTready && o.Some? && o.value.last);
    }
  }

  /** The tagger with a register in the packer's place. */
  class PlainTagger {
    const p: Params
    const tag: TagRegisters
    const register: O.AxisRegister

    ghost predicate Valid()
      reads tag, register
    {
      && p.Valid() && !p.packed && tag.p == p && register.n == p.bytes && tag.Valid() && register.Valid()
      && Inv(p, View())
    }

    ghost function View(): State
      reads tag, register
    {
      State(tag.ctr, tag.flushing, tag.axisOHeaderWidened, register.View())
    }

    constructor (bytes: nat, header: nat, requirePacked: bool)
      requires bytes >= 1 && header >= 1 && !PackerBuilt(bytes, header, requirePacked)
      ensures Valid() && p == Built(bytes, header, requirePacked) && View() == Reset(p) && fresh(tag) && fresh(register)
    {
      p := Built(bytes, header, requirePacked);
      tag := new TagRegisters(Built(bytes, header, requirePacked));
      register := new O.AxisRegister(bytes);
      new;
      ghost var reset := Reset(p);
      assert View() == reset;
    }

    method Clock(iTvalid: bool, i: Word, oTready: bool) returns (iTready: bool, o: Option<Word>, header: seq<byte>)
      requires Valid() && i.Lanes(p.bytes)
      modifies tag, register
      ensures Valid()
      ensures iTready <==> AxisITready(p, old(View()), oTready)
      ensures o == old(View()).outlet.word && header == old(View()).Header(p)
      ensures View() == Next(p, old(View()), Input(if iTvalid then Some(i) else None, oTready))
    {
      hide Shaped, Write, ClearAbove, Masked, Next;
      ghost var s, x := View(), Input(if iTvalid then Some(i) else None, oTready);
      StepConserves(p, s, x);
      o, header := register.View().word, tag.axisOHeaderWidened[..p.header];
      var unpackedTvalid := if p.Skips(tag.ctr) then false else if !tag.flushing then iTvalid else false;
      var unpackedTready := register.Clock(unpackedTvalid, Masked(p, tag.ctr, i), oTready);
      iTready := if p.Skips(tag.ctr) then true else if !tag.flushing then unpackedTready else false;
      tag.Clock(oTready && o.Some? && o.value.last, iTready && iTvalid, unpackedTready && unpackedTvalid && i.last,
        i.data);
      NextIs(p, s, x, View());
    }
  }
}
