/** synth/axis/axis_width_converter.sv. A wide word is cut into `slots` narrow ones, or put together
    from them; both directions hand the word over through a slot counter.

    The words that come out are compared with the source's words themselves where the code keeps them
    apart (`DownConserves`, `PairIsIdentity`), and as streams of bytes and packet ends where it may
    merge them (`UpConserves`). */
module WidthConverter {
  import opened Axis
  import opened ByteStream

  /** The two widths in bytes, and narrow words per wide word (CTR_MAX): the quotient rounded up. */
  datatype Shape = Shape(wide: nat, narrow: nat, slots: nat) {
    predicate Valid() {
      wide > 0 && narrow > 0 && wide <= slots * narrow < wide + narrow
    }

    /** The width of the padded wide word. */
    function Padded(): nat { slots * narrow }

    predicate High(ctr: nat) { ctr == slots - 1 }
  }

  function ShapeOf(wide: nat, narrow: nat): (p: Shape)
    requires wide > 0 && narrow > 0
    ensures p.Valid()
  {
    var slots := (wide - 1) / narrow + 1;
    assert slots * narrow == (wide - 1) / narrow * narrow + narrow;
    Shape(wide, narrow, slots)
  }

  lemma SlotFits(p: Shape, k: nat)
    requires p.Valid() && k < p.slots
    ensures (k + 1) * p.narrow == k * p.narrow + p.narrow <= p.Padded()
  {
    assert (k + 1) * p.narrow <= p.slots * p.narrow;
  }

  // ---------- Wide to narrow ----------

  /** The upper lanes of the last slot are null. */
  function Pad(p: Shape, w: Word): (r: Word)
    requires p.Valid() && w.Lanes(p.wide)
    ensures r.Lanes(p.Padded()) && r.last == w.last
  {
    var extra := p.Padded() - |w.keep|;
    Word(w.data + seq(extra, _ => 0), w.keep + seq(extra, _ => false), w.last)
  }

  /** Slot k of a padded word; only the last slot carries the packet's end. */
  function Slot(p: Shape, w: Word, k: nat): (r: Word)
    requires p.Valid() && w.Lanes(p.Padded()) && k < p.slots
    ensures r.Lanes(p.narrow)
  {
    SlotFits(p, k);
    var from, to := k * p.narrow, k * p.narrow + p.narrow;
    Word(w.data[from..to], w.keep[from..to], w.last && p.High(k))
  }

  /** Lane i of slot k is lane k * narrow + i of the word, and null and zero beyond it. */
  lemma SlotLane(p: Shape, w: Word, k: nat, i: nat)
    requires p.Valid() && w.Lanes(p.wide) && k < p.slots && i < p.narrow
    ensures var s, j := Slot(p, Pad(p, w), k), k * p.narrow + i;
      && s.data[i] == (if j < p.wide then w.data[j] else 0)
      && s.keep[i] == (j < p.wide && w.keep[j])
  {
    SlotFits(p, k);
  }

  predicate DownTakes(p: Shape, ctr: nat, word: Option<Word>, oTready: bool) {
    word.Some? && p.High(ctr) && oTready
  }

  predicate DownGives(word: Option<Word>, oTready: bool) {
    word.Some? && oTready
  }

  function DownStep(p: Shape, ctr: nat, word: Option<Word>, oTready: bool): (r: nat)
    requires p.Valid() && ctr < p.slots
    ensures r < p.slots
  {
    if DownTakes(p, ctr, word, oTready) then 0 else if DownGives(word, oTready) then ctr + 1 else ctr
  }

  /** The converter and its source. A word, once offered, stays the word on offer until it is taken
      (section 2.2.1 of the AXI4-Stream specification), so the source is a list of words to send; in
      any cycle it may offer the first of them or be idle. */
  datatype Down = Down(todo: seq<Word>, ctr: nat) {
    predicate Ok(p: Shape) {
      p.Valid() && AllLanes(p.wide, todo) && ctr < p.slots && (ctr > 0 ==> todo != [])
    }

    function Offered(offers: bool): Option<Word> {
      if offers && todo != [] then Some(todo[0]) else None
    }
  }

  datatype Cycle = Cycle(offers: bool, oTready: bool)

  function DownNext(p: Shape, s: Down, c: Cycle): (r: Down)
    requires s.Ok(p)
    ensures r.Ok(p)
  {
    var word := s.Offered(c.offers);
    Down(if DownTakes(p, s.ctr, word, c.oTready) then s.todo[1..] else s.todo, DownStep(p, s.ctr, word, c.oTready))
  }

  function DownRun(p: Shape, s: Down, cs: seq<Cycle>): (r: Down)
    requires s.Ok(p)
    ensures r.Ok(p)
    decreases |cs|
  {
    if cs == [] then s else DownRun(p, DownNext(p, s, cs[0]), cs[1..])
  }

  function DownGiven(p: Shape, s: Down, c: Cycle): (ws: seq<Word>)
    requires s.Ok(p)
    ensures AllLanes(p.narrow, ws)
  {
    var word := s.Offered(c.offers);
    if DownGives(word, c.oTready) then [Slot(p, Pad(p, word.value), s.ctr)] else []
  }

  /** The narrow words transferred at the output. */
  function DownEmitted(p: Shape, s: Down, cs: seq<Cycle>): (ws: seq<Word>)
    requires s.Ok(p)
    ensures AllLanes(p.narrow, ws)
    decreases |cs|
  {
    if cs == [] then [] else DownGiven(p, s, cs[0]) + DownEmitted(p, DownNext(p, s, cs[0]), cs[1..])
  }

  /** The slots of a padded word from slot k on. */
  function SlotsFrom(p: Shape, w: Word, k: nat): (ws: seq<Word>)
    requires p.Valid() && w.Lanes(p.Padded()) && k <= p.slots
    ensures |ws| == p.slots - k && AllLanes(p.narrow, ws)
    decreases p.slots - k
  {
    if k == p.slots then [] else [Slot(p, w, k)] + SlotsFrom(p, w, k + 1)
  }

  /** Every word cut into its slots. */
  function Cut(p: Shape, ws: seq<Word>): (r: seq<Word>)
    requires p.Valid() && AllLanes(p.wide, ws)
    ensures AllLanes(p.narrow, r)
  {
    if ws == [] then [] else SlotsFrom(p, Pad(p, ws[0]), 0) + Cut(p, ws[1..])
  }

  /** What is still to come out. */
  function Pending(p: Shape, s: Down): (r: seq<Word>)
    requires s.Ok(p)
    ensures AllLanes(p.narrow, r)
  {
    if s.todo == [] then [] else SlotsFrom(p, Pad(p, s.todo[0]), s.ctr) + Cut(p, s.todo[1..])
  }

  /** Any two widths, any source and any back-pressure: the words emitted are the slots of the
      source's words, in order, up to where the run has got to. */
  lemma {:induction false} DownConserves(p: Shape, s: Down, cs: seq<Cycle>)
    requires s.Ok(p)
    ensures Pending(p, s) == DownEmitted(p, s, cs) + Pending(p, DownRun(p, s, cs))
    decreases |cs|
  {
    if cs != [] {
      var next := DownNext(p, s, cs[0]);
      assert Pending(p, s) == DownGiven(p, s, cs[0]) + Pending(p, next);
      DownConserves(p, next, cs[1..]);
    }
  }

  /** The tail of a word from slot k on, read off the lanes. */
  function Tail(p: Shape, w: Word, k: nat): seq<Token>
    requires p.Valid() && w.Lanes(p.Padded()) && k < p.slots
  {
    SlotFits(p, k);
    WordTokens(Word(w.data[k * p.narrow..], w.keep[k * p.narrow..], w.last))
  }

  lemma TailSplits(p: Shape, w: Word, k: nat)
    requires p.Valid() && w.Lanes(p.Padded()) && k < p.slots - 1
    ensures Tail(p, w, k) == WordTokens(Slot(p, w, k)) + Tail(p, w, k + 1)
  {
    hide Kept;
    SlotFits(p, k);
    SlotFits(p, k + 1);
    var from, to := k * p.narrow, k * p.narrow + p.narrow;
    assert w.data[from..] == w.data[from..to] + w.data[to..];
    assert w.keep[from..] == w.keep[from..to] + w.keep[to..];
    KeptAppend(w.data[from..to], w.keep[from..to], w.data[to..], w.keep[to..]);
  }

  /** Cutting a word loses nothing, wherever its null lanes are. */
  lemma {:induction false} SlotsCarryTail(p: Shape, w: Word, k: nat)
    requires p.Valid() && w.Lanes(p.Padded()) && k < p.slots
    ensures WordStream(SlotsFrom(p, w, k)) == Tail(p, w, k)
    decreases p.slots - k
  {
    SlotFits(p, k);
    var slots := SlotsFrom(p, w, k);
    assert slots[1..] == SlotsFrom(p, w, k + 1);
    if k == p.slots - 1 {
      var from := k * p.narrow;
      assert w.data[from..from + p.narrow] == w.data[from..] && w.keep[from..from + p.narrow] == w.keep[from..];
      assert WordStream(slots) == WordTokens(slots[0]) + [];
    } else {
      SlotsCarryTail(p, w, k + 1);
      TailSplits(p, w, k);
    }
  }

  /** The padding adds no byte, so a width that does not divide the wide one loses nothing either. */
  lemma PaddingIsNull(p: Shape, w: Word)
    requires p.Valid() && w.Lanes(p.wide)
    ensures WordTokens(Pad(p, w)) == WordTokens(w)
  {
    var extra := p.Padded() - |w.keep|;
    KeptAppend(w.data, w.keep, seq(extra, _ => 0), seq(extra, _ => false));
    KeptNone(seq(extra, _ => 0), seq(extra, _ => false));
  }

  lemma SlotsCarryWord(p: Shape, w: Word)
    requires p.Valid() && w.Lanes(p.wide)
    ensures WordStream(SlotsFrom(p, Pad(p, w), 0)) == WordTokens(w)
  {
    var padded := Pad(p, w);
    SlotsCarryTail(p, padded, 0);
    assert padded.data[0 * p.narrow..] == padded.data && padded.keep[0 * p.narrow..] == padded.keep;
    PaddingIsNull(p, w);
  }

  /** The kept bytes and packet ends of the slots are those of the words. */
  lemma {:induction false} CutKeepsStream(p: Shape, ws: seq<Word>)
    requires p.Valid() && AllLanes(p.wide, ws)
    ensures WordStream(Cut(p, ws)) == WordStream(ws)
  {
    if ws != [] {
      SlotsCarryWord(p, ws[0]);
      CutKeepsStream(p, ws[1..]);
      WordStreamAppend(SlotsFrom(p, Pad(p, ws[0]), 0), Cut(p, ws[1..]));
    }
  }

  /** Wide to narrow, from reset: the kept bytes and packet ends of the source's words are those
      emitted followed by those still to come. */
  lemma NarrowsTheStream(p: Shape, ws: seq<Word>, cs: seq<Cycle>)
    requires p.Valid() && AllLanes(p.wide, ws)
    ensures WordStream(ws)
         == WordStream(DownEmitted(p, Down(ws, 0), cs)) + WordStream(Pending(p, DownRun(p, Down(ws, 0), cs)))
  {
    var s := Down(ws, 0);
    DownConserves(p, s, cs);
    CutKeepsStream(p, ws);
    WordStreamAppend(DownEmitted(p, s, cs), Pending(p, DownRun(p, s, cs)));
  }

  // ---------- Narrow to wide ----------

  /** The lanes of the last slot that the wide word has. */
  function Room(p: Shape): (r: nat)
    requires p.Valid()
    ensures 0 < r <= p.narrow && (p.slots - 1) * p.narrow + r == p.wide
  {
    assert (p.slots - 1) * p.narrow == p.slots * p.narrow - p.narrow;
    p.wide - (p.slots - 1) * p.narrow
  }

  /** Only the last slot may reach beyond the wide word. */
  lemma SlotInWide(p: Shape, k: nat)
    requires p.Valid() && k < p.slots - 1
    ensures k * p.narrow + p.narrow < p.wide
  {
    SlotFits(p, k);
    assert (k + 1) * p.narrow <= (p.slots - 1) * p.narrow == p.wide - Room(p);
  }

  datatype Up = Up(ctr: nat, data: seq<byte>, keep: seq<bool>) {
    /** Lanes above the current slot are null; the current slot may hold anything. */
    predicate Ok(p: Shape) {
      && p.Valid() && ctr < p.slots && |data| == |keep| == p.Padded()
      && forall i :: ctr * p.narrow + p.narrow <= i < |keep| ==> !keep[i]
    }
  }

  /** One cycle at the ports: the data lines carry something even when valid is low. */
  datatype Input = Input(iTvalid: bool, word: Word, oTready: bool)

  predicate UpReady(p: Shape, s: Up, oTready: bool) {
    p.High(s.ctr) ==> oTready
  }

  predicate UpTakes(p: Shape, s: Up, x: Input) {
    x.iTvalid && UpReady(p, s, x.oTready)
  }

  predicate UpValid(p: Shape, s: Up, x: Input) {
    x.iTvalid && (x.word.last || p.High(s.ctr))
  }

  predicate UpGives(p: Shape, s: Up, x: Input) {
    UpValid(p, s, x) && x.oTready
  }

  function Overlay<T>(wide: seq<T>, from: nat, narrow: seq<T>): (r: seq<T>)
    requires from + |narrow| <= |wide|
    ensures |r| == |wide|
  {
    wide[..from] + narrow + wide[from + |narrow|..]
  }

  /** The padded word: the registers with the input lines laid over the current slot. */
  function UpLines(p: Shape, s: Up, word: Word): (r: Word)
    requires s.Ok(p) && word.Lanes(p.narrow)
    ensures r.Lanes(p.Padded()) && r.last == word.last
  {
    SlotFits(p, s.ctr);
    Word(Overlay(s.data, s.ctr * p.narrow, word.data), Overlay(s.keep, s.ctr * p.narrow, word.keep), word.last)
  }

  /** The output lines take its lower lanes. */
  function UpOut(p: Shape, s: Up, word: Word): (r: Word)
    requires s.Ok(p) && word.Lanes(p.narrow)
    ensures r.Lanes(p.wide) && r.last == word.last
  {
    var lines := UpLines(p, s, word);
    Word(lines.data[..p.wide], lines.keep[..p.wide], word.last)
  }

  function UpNext(p: Shape, s: Up, x: Input): (r: Up)
    requires s.Ok(p) && x.word.Lanes(p.narrow)
    ensures r.Ok(p)
  {
    var lines := UpLines(p, s, x.word);
    if UpGives(p, s, x) then
      Up(0, lines.data, seq(p.Padded(), _ => false))
    else if UpTakes(p, s, x) then
      SlotFits(p, s.ctr + 1);
      Up(s.ctr + 1, lines.data, lines.keep)
    else
      Up(s.ctr, lines.data, lines.keep)
  }

  /** Valid does not wait for ready. */
  lemma ValidIgnoresReady(p: Shape, s: Up, x: Input, oTready: bool)
    requires p.Valid()
    ensures UpValid(p, s, x) == UpValid(p, s, x.(oTready := oTready))
  {
  }

  predicate UpLanes(p: Shape, xs: seq<Input>) {
    forall k :: 0 <= k < |xs| ==> xs[k].word.Lanes(p.narrow)
  }

  function UpRun(p: Shape, s: Up, xs: seq<Input>): (r: Up)
    requires s.Ok(p) && UpLanes(p, xs)
    ensures r.Ok(p)
    decreases |xs|
  {
    if xs == [] then s else UpRun(p, UpNext(p, s, xs[0]), xs[1..])
  }

  /** Collecting does not wait for the sink: words that end no packet fill the slots below the last, one in
      each cycle, and the next word offered makes valid high. */
  lemma {:induction false} FillsAnyhow(p: Shape, s: Up, xs: seq<Input>, x: Input)
    requires s.Ok(p) && UpLanes(p, xs) && |xs| + s.ctr == p.slots - 1
    requires forall k :: 0 <= k < |xs| ==> xs[k].iTvalid && !xs[k].word.last
    ensures UpRun(p, s, xs).ctr == p.slots - 1
    ensures x.iTvalid ==> UpValid(p, UpRun(p, s, xs), x)
    decreases |xs|
  {
    hide UpLines, Overlay;
    if xs != [] {
      FillsAnyhow(p, UpNext(p, s, xs[0]), xs[1..], x);
    }
  }

  function UpTaken(p: Shape, s: Up, x: Input): (ws: seq<Word>)
    requires s.Ok(p) && x.word.Lanes(p.narrow)
    ensures AllLanes(p.narrow, ws)
  {
    if UpTakes(p, s, x) then [x.word] else []
  }

  function UpGiven(p: Shape, s: Up, x: Input): (ws: seq<Word>)
    requires s.Ok(p) && x.word.Lanes(p.narrow)
    ensures AllLanes(p.wide, ws)
  {
    if UpGives(p, s, x) then [UpOut(p, s, x.word)] else []
  }

  function UpAccepted(p: Shape, s: Up, xs: seq<Input>): (ws: seq<Word>)
    requires s.Ok(p) && UpLanes(p, xs)
    ensures AllLanes(p.narrow, ws)
    decreases |xs|
  {
    if xs == [] then [] else UpTaken(p, s, xs[0]) + UpAccepted(p, UpNext(p, s, xs[0]), xs[1..])
  }

  function UpEmitted(p: Shape, s: Up, xs: seq<Input>): (ws: seq<Word>)
    requires s.Ok(p) && UpLanes(p, xs)
    ensures AllLanes(p.wide, ws)
    decreases |xs|
  {
    if xs == [] then [] else UpGiven(p, s, xs[0]) + UpEmitted(p, UpNext(p, s, xs[0]), xs[1..])
  }

  /** A last word that does not fill the wide word is taken while the sink is not ready: ready does
      not depend on the sink, and the counter moves on. */
  predicate LosesEnd(p: Shape, s: Up, x: Input) {
    x.iTvalid && x.word.last && !p.High(s.ctr) && !x.oTready
  }

  /** A word goes into the last slot with bytes that the wide word has no lanes for. */
  predicate CutsBytes(p: Shape, s: Up, x: Input)
    requires p.Valid() && x.word.Lanes(p.narrow)
  {
    UpGives(p, s, x) && p.High(s.ctr) && exists k :: Room(p) <= k < p.narrow && x.word.keep[k]
  }

  predicate EverLoses(p: Shape, s: Up, xs: seq<Input>)
    requires s.Ok(p) && UpLanes(p, xs)
    decreases |xs|
  {
    xs != [] && (LosesEnd(p, s, xs[0]) || CutsBytes(p, s, xs[0]) || EverLoses(p, UpNext(p, s, xs[0]), xs[1..]))
  }

  /** The part of a word that the wide word has lanes for. */
  function Fitting(p: Shape, ctr: nat, w: Word): (r: Word)
    requires p.Valid() && w.Lanes(p.narrow)
    ensures |r.data| == |r.keep|
  {
    if p.High(ctr) then Word(w.data[..Room(p)], w.keep[..Room(p)], w.last) else w
  }

  /** What a taken word really adds. */
  function Merged(p: Shape, s: Up, x: Input): seq<Token>
    requires s.Ok(p) && x.word.Lanes(p.narrow)
  {
    if !UpTakes(p, s, x) then []
    else if LosesEnd(p, s, x) then Marks(Kept(x.word.data, x.word.keep))
    else WordTokens(Fitting(p, s.ctr, x.word))
  }

  function AllMerged(p: Shape, s: Up, xs: seq<Input>): seq<Token>
    requires s.Ok(p) && UpLanes(p, xs)
    decreases |xs|
  {
    if xs == [] then [] else Merged(p, s, xs[0]) + AllMerged(p, UpNext(p, s, xs[0]), xs[1..])
  }

  /** The bytes collected below the current slot. */
  function Collected(p: Shape, s: Up): seq<Token>
    requires s.Ok(p)
  {
    SlotFits(p, s.ctr);
    Marks(Kept(s.data[..s.ctr * p.narrow], s.keep[..s.ctr * p.narrow]))
  }

  /** The lines up to and including the current slot hold what is collected and the word on offer. */
  lemma LinesBelow(p: Shape, s: Up, word: Word)
    requires s.Ok(p) && word.Lanes(p.narrow)
    ensures var lines, to := UpLines(p, s, word), s.ctr * p.narrow + p.narrow;
      && to <= p.Padded()
      && Marks(Kept(lines.data[..to], lines.keep[..to])) == Collected(p, s) + Marks(Kept(word.data, word.keep))
  {
    SlotFits(p, s.ctr);
    var lines, from, to := UpLines(p, s, word), s.ctr * p.narrow, s.ctr * p.narrow + p.narrow;
    assert lines.data[..to] == s.data[..from] + word.data;
    assert lines.keep[..to] == s.keep[..from] + word.keep;
    KeptAppend(s.data[..from], s.keep[..from], word.data, word.keep);
  }

  /** In the last slot the wide word ends with what it has lanes for. */
  lemma HighOutTokens(p: Shape, s: Up, word: Word)
    requires s.Ok(p) && word.Lanes(p.narrow) && p.High(s.ctr)
    ensures WordTokens(UpOut(p, s, word)) == Collected(p, s) + WordTokens(Fitting(p, s.ctr, word))
  {
    hide Kept;
    SlotFits(p, s.ctr);
    var out, from, room := UpOut(p, s, word), s.ctr * p.narrow, Room(p);
    assert out.data == s.data[..from] + word.data[..room];
    assert out.keep == s.keep[..from] + word.keep[..room];
    KeptAppend(s.data[..from], s.keep[..from], word.data[..room], word.keep[..room]);
  }

  lemma ShortOutTokens(p: Shape, s: Up, word: Word)
    requires s.Ok(p) && word.Lanes(p.narrow) && !p.High(s.ctr)
    ensures WordTokens(UpOut(p, s, word)) == Collected(p, s) + WordTokens(word)
  {
    hide Kept, Collected;
    var out, lines, to := UpOut(p, s, word), UpLines(p, s, word), s.ctr * p.narrow + p.narrow;
    SlotInWide(p, s.ctr);
    SlotFits(p, s.ctr);
    LinesBelow(p, s, word);
    Below(lines, to, p.wide);
  }

  /** Null lanes above `to` add nothing. */
  lemma Below(lines: Word, to: nat, wide: nat)
    requires |lines.data| == |lines.keep| && to <= wide <= |lines.keep|
    requires forall i :: to <= i < wide ==> !lines.keep[i]
    ensures Kept(lines.data[..wide], lines.keep[..wide]) == Kept(lines.data[..to], lines.keep[..to])
  {
    hide Kept;
    assert lines.data[..wide] == lines.data[..to] + lines.data[to..wide];
    assert lines.keep[..wide] == lines.keep[..to] + lines.keep[to..wide];
    KeptAppend(lines.data[..to], lines.keep[..to], lines.data[to..wide], lines.keep[to..wide]);
    KeptNone(lines.data[to..wide], lines.keep[to..wide]);
  }

  lemma SameBelow(p: Shape, s: Up, word: Word)
    requires s.Ok(p) && word.Lanes(p.narrow)
    ensures var lines, from := UpLines(p, s, word), s.ctr * p.narrow;
      from <= p.Padded() && lines.data[..from] == s.data[..from] && lines.keep[..from] == s.keep[..from]
  {
    SlotFits(p, s.ctr);
  }

  lemma GivenTokens(p: Shape, s: Up, x: Input)
    requires s.Ok(p) && x.word.Lanes(p.narrow) && UpGives(p, s, x)
    ensures Collected(p, s) + Merged(p, s, x) == WordStream(UpGiven(p, s, x)) + Collected(p, UpNext(p, s, x))
  {
    if p.High(s.ctr) {
      HighOutTokens(p, s, x.word);
    } else {
      ShortOutTokens(p, s, x.word);
    }
    SingleStream(UpOut(p, s, x.word));
    assert Collected(p, UpNext(p, s, x)) == [];
  }

  lemma UpStepConserves(p: Shape, s: Up, x: Input)
    requires s.Ok(p) && x.word.Lanes(p.narrow)
    ensures Collected(p, s) + Merged(p, s, x) == WordStream(UpGiven(p, s, x)) + Collected(p, UpNext(p, s, x))
  {
    var next := UpNext(p, s, x);
    if UpGives(p, s, x) {
      GivenTokens(p, s, x);
    } else if UpTakes(p, s, x) {
      LinesBelow(p, s, x.word);
      SlotFits(p, s.ctr);
    } else {
      SameBelow(p, s, x.word);
    }
  }

  lemma SingleStream(w: Word)
    requires |w.data| == |w.keep|
    ensures WordStream([w]) == WordTokens(w)
  {
    assert [w][1..] == [];
  }

  lemma {:induction false} UpConserves(p: Shape, s: Up, xs: seq<Input>)
    requires s.Ok(p) && UpLanes(p, xs)
    ensures Collected(p, s) + AllMerged(p, s, xs) == WordStream(UpEmitted(p, s, xs)) + Collected(p, UpRun(p, s, xs))
    decreases |xs|
  {
    if xs != [] {
      var next, rest := UpNext(p, s, xs[0]), xs[1..];
      UpStepConserves(p, s, xs[0]);
      UpConserves(p, next, rest);
      WordStreamAppend(UpGiven(p, s, xs[0]), UpEmitted(p, next, rest));
      Regroup(Collected(p, s), Merged(p, s, xs[0]), AllMerged(p, next, rest),
        WordStream(UpGiven(p, s, xs[0])), Collected(p, next), WordStream(UpEmitted(p, next, rest)),
        Collected(p, UpRun(p, s, xs)));
    }
  }

  lemma FittingTokens(p: Shape, ctr: nat, w: Word)
    requires p.Valid() && w.Lanes(p.narrow)
    ensures |WordTokens(Fitting(p, ctr, w))| <= |WordTokens(w)|
    ensures p.High(ctr) && (exists k :: Room(p) <= k < p.narrow && w.keep[k]) ==>
      |WordTokens(Fitting(p, ctr, w))| < |WordTokens(w)|
    ensures !(p.High(ctr) && exists k :: Room(p) <= k < p.narrow && w.keep[k]) ==>
      WordTokens(Fitting(p, ctr, w)) == WordTokens(w)
  {
    hide Kept;
    var room := Room(p);
    if p.High(ctr) {
      assert w.data == w.data[..room] + w.data[room..] && w.keep == w.keep[..room] + w.keep[room..];
      KeptAppend(w.data[..room], w.keep[..room], w.data[room..], w.keep[room..]);
      if k :| room <= k < p.narrow && w.keep[k] {
        KeptSome(w.data[room..], w.keep[room..], k - room);
      } else {
        KeptNone(w.data[room..], w.keep[room..]);
      }
    }
  }

  lemma MergedTokens(p: Shape, s: Up, x: Input)
    requires s.Ok(p) && x.word.Lanes(p.narrow)
    ensures var loses, taken := LosesEnd(p, s, x) || CutsBytes(p, s, x), WordStream(UpTaken(p, s, x));
      if loses then |Merged(p, s, x)| < |taken| else Merged(p, s, x) == taken
  {
    SingleStream(x.word);
    FittingTokens(p, s.ctr, x.word);
  }

  lemma {:induction false} MergedIsAccepted(p: Shape, s: Up, xs: seq<Input>)
    requires s.Ok(p) && UpLanes(p, xs)
    ensures var taken := WordStream(UpAccepted(p, s, xs));
      if EverLoses(p, s, xs) then |AllMerged(p, s, xs)| < |taken| else AllMerged(p, s, xs) == taken
    decreases |xs|
  {
    hide UpNext, LosesEnd, CutsBytes, Merged;
    if xs != [] {
      var next, rest := UpNext(p, s, xs[0]), xs[1..];
      MergedTokens(p, s, xs[0]);
      MergedIsAccepted(p, next, rest);
      WordStreamAppend(UpTaken(p, s, xs[0]), UpAccepted(p, next, rest));
    }
  }

  /** Narrow to wide, from reset, any two widths, any back-pressure and any null lanes: the bytes and
      packet ends taken in are those emitted and those still collected if and only if no last word that
      leaves the wide word short was ever taken while the sink was not ready, and no word went into the
      last slot with bytes in lanes that the wide word does not have. */
  lemma WidensTheStreamIff(p: Shape, s: Up, xs: seq<Input>)
    requires s.Ok(p) && s.ctr == 0 && UpLanes(p, xs)
    ensures !EverLoses(p, s, xs)
       <==> WordStream(UpAccepted(p, s, xs)) == WordStream(UpEmitted(p, s, xs)) + Collected(p, UpRun(p, s, xs))
  {
    UpConserves(p, s, xs);
    assert Collected(p, s) == [];
    assert [] + AllMerged(p, s, xs) == AllMerged(p, s, xs);
    MergedIsAccepted(p, s, xs);
  }

  /** One byte into two: a one-word packet arrives while the sink stalls, then another one. Both are
      taken, and come out as one packet. */
  lemma TwoPacketsMerge()
    ensures var p, s := Shape(2, 1, 2), Up(0, [0, 0], [false, false]);
      var a, b := Word([1], [true], true), Word([2], [true], true);
      var xs := [Input(true, a, false), Input(true, b, true)];
      && s.Ok(p) && UpLanes(p, xs)
      && UpAccepted(p, s, xs) == [a, b]
      && UpEmitted(p, s, xs) == [Word([1, 2], [true, true], true)]
  {
    var p, s := Shape(2, 1, 2), Up(0, [0, 0], [false, false]);
    var a, b := Word([1], [true], true), Word([2], [true], true);
    var xs := [Input(true, a, false), Input(true, b, true)];
    var next := UpNext(p, s, xs[0]);
    assert next == Up(1, [1, 0], [true, false]);
    assert UpOut(p, next, b) == Word([1, 2], [true, true], true);
    assert xs[1..] == [xs[1]] && xs[1..][1..] == [];
    assert UpAccepted(p, next, xs[1..]) == [b];
    assert UpEmitted(p, next, xs[1..]) == [Word([1, 2], [true, true], true)];
  }

  lemma UpUnfolds(p: Shape, s: Up, x: Input, rest: seq<Input>)
    requires s.Ok(p) && UpLanes(p, [x] + rest)
    ensures x.word.Lanes(p.narrow) && UpLanes(p, rest)
    ensures UpAccepted(p, s, [x] + rest) == UpTaken(p, s, x) + UpAccepted(p, UpNext(p, s, x), rest)
    ensures UpEmitted(p, s, [x] + rest) == UpGiven(p, s, x) + UpEmitted(p, UpNext(p, s, x), rest)
  {
    hide UpNext, UpTaken, UpGiven;
    var xs := [x] + rest;
    assert xs[0] == x && xs[1..] == rest;
    assert forall k :: 0 <= k < |rest| ==> rest[k] == xs[k + 1];
  }

  lemma FirstSlotTaken(p: Shape, s: Up, x: Input)
    requires p == Shape(3, 2, 2) && s == Up(0, [0, 0, 0, 0], [false, false, false, false])
    requires x == Input(true, Word([1, 2], [true, true], false), true)
    ensures s.Ok(p) && UpTaken(p, s, x) == [x.word] && UpGiven(p, s, x) == []
    ensures UpNext(p, s, x) == Up(1, [1, 2, 0, 0], [true, true, false, false])
  {
  }

  lemma LastSlotCut(p: Shape, s: Up, x: Input)
    requires p == Shape(3, 2, 2) && s == Up(1, [1, 2, 0, 0], [true, true, false, false])
    requires x == Input(true, Word([3, 4], [true, true], true), true)
    ensures s.Ok(p) && UpTaken(p, s, x) == [x.word]
    ensures UpGiven(p, s, x) == [Word([1, 2, 3], [true, true, true], true)]
  {
    assert UpOut(p, s, x.word) == Word([1, 2, 3], [true, true, true], true);
  }

  /** Two bytes into three, from reset: a packet of four bytes comes out without its fourth, which has no
      lane. */
  lemma FourthByteIsCut()
    ensures var p, s := Shape(3, 2, 2), Up(0, [0, 0, 0, 0], [false, false, false, false]);
      var a, b := Word([1, 2], [true, true], false), Word([3, 4], [true, true], true);
      var xs := [Input(true, a, true)] + [Input(true, b, true)];
      && s.Ok(p) && UpLanes(p, xs)
      && UpAccepted(p, s, xs) == [a, b]
      && UpEmitted(p, s, xs) == [Word([1, 2, 3], [true, true, true], true)]
  {
    hide UpNext, UpTaken, UpGiven;
    var p, s := Shape(3, 2, 2), Up(0, [0, 0, 0, 0], [false, false, false, false]);
    var a, b := Word([1, 2], [true, true], false), Word([3, 4], [true, true], true);
    var x, y := Input(true, a, true), Input(true, b, true);
    FirstSlotTaken(p, s, x);
    UpUnfolds(p, s, x, [y]);
    var next := UpNext(p, s, x);
    LastSlotCut(p, next, y);
    assert [y] + [] == [y];
    UpUnfolds(p, next, y, []);
  }

  // ---------- Wide to narrow to wide ----------

  predicate SameUpTo(data: seq<byte>, keep: seq<bool>, w: Word, to: nat) {
    && to <= |data| && to <= |keep| && to <= |w.data| && to <= |w.keep|
    && data[..to] == w.data[..to] && keep[..to] == w.keep[..to]
  }

  /** A wide-to-narrow converter feeding a narrow-to-wide one of the same shape. */
  datatype Pair = Pair(down: Down, up: Up) {
    /** Both counters agree, and the collecting registers hold the slots already passed on. */
    predicate Ok(p: Shape) {
      && down.Ok(p) && up.Ok(p) && down.ctr == up.ctr
      && (up.ctr > 0 ==> SameUpTo(up.data, up.keep, Pad(p, down.todo[0]), up.ctr * p.narrow))
    }
  }

  /** `idle` is what the narrow data lines carry while nothing is offered. */
  datatype PairCycle = PairCycle(offers: bool, idle: Word, oTready: bool)

  function Between(p: Shape, s: Pair, c: PairCycle): (x: Input)
    requires s.Ok(p) && c.idle.Lanes(p.narrow)
    ensures x.word.Lanes(p.narrow)
  {
    var word := s.down.Offered(c.offers);
    Input(word.Some?, if word.Some? then Slot(p, Pad(p, word.value), s.down.ctr) else c.idle, c.oTready)
  }

  function PairNext(p: Shape, s: Pair, c: PairCycle): (r: Pair)
    requires s.Ok(p) && c.idle.Lanes(p.narrow)
    ensures r.down.Ok(p) && r.up.Ok(p)
  {
    Pair(DownNext(p, s.down, Cycle(c.offers, UpReady(p, s.up, c.oTready))), UpNext(p, s.up, Between(p, s, c)))
  }

  function PairGiven(p: Shape, s: Pair, c: PairCycle): seq<Word>
    requires s.Ok(p) && c.idle.Lanes(p.narrow)
  {
    UpGiven(p, s.up, Between(p, s, c))
  }

  predicate PairLanes(p: Shape, cs: seq<PairCycle>) {
    forall k :: 0 <= k < |cs| ==> cs[k].idle.Lanes(p.narrow)
  }

  lemma PairIdle(p: Shape, s: Pair, c: PairCycle)
    requires s.Ok(p) && c.idle.Lanes(p.narrow)
    requires s.down.Offered(c.offers).None? || (p.High(s.down.ctr) && !c.oTready)
    ensures PairGiven(p, s, c) == [] && PairNext(p, s, c).Ok(p) && PairNext(p, s, c).down == s.down
  {
    SameBelow(p, s.up, Between(p, s, c).word);
  }

  lemma LinesMatch(p: Shape, s: Pair, c: PairCycle)
    requires s.Ok(p) && c.idle.Lanes(p.narrow) && s.down.Offered(c.offers).Some?
    ensures var w, lines := Pad(p, s.down.todo[0]), UpLines(p, s.up, Between(p, s, c).word);
      var to := s.up.ctr * p.narrow + p.narrow;
      to <= p.Padded() && lines.data[..to] == w.data[..to] && lines.keep[..to] == w.keep[..to]
  {
    SlotFits(p, s.up.ctr);
    var w, lines := Pad(p, s.down.todo[0]), UpLines(p, s.up, Between(p, s, c).word);
    var from, to := s.up.ctr * p.narrow, s.up.ctr * p.narrow + p.narrow;
    assert s.up.ctr == 0 ==> from == 0;
    assert s.up.data[..from] == w.data[..from] && s.up.keep[..from] == w.keep[..from];
    assert w.data[..to] == w.data[..from] + w.data[from..to] == lines.data[..to];
    assert w.keep[..to] == w.keep[..from] + w.keep[from..to] == lines.keep[..to];
  }

  lemma PairPasses(p: Shape, s: Pair, c: PairCycle)
    requires s.Ok(p) && c.idle.Lanes(p.narrow) && s.down.Offered(c.offers).Some? && !p.High(s.down.ctr)
    ensures PairGiven(p, s, c) == [] && PairNext(p, s, c).Ok(p) && PairNext(p, s, c).down.todo == s.down.todo
  {
    LinesMatch(p, s, c);
    SlotFits(p, s.up.ctr);
  }

  lemma PairCompletes(p: Shape, s: Pair, c: PairCycle)
    requires s.Ok(p) && c.idle.Lanes(p.narrow) && s.down.Offered(c.offers).Some? && p.High(s.down.ctr) && c.oTready
    ensures PairGiven(p, s, c) == [s.down.todo[0]] && PairNext(p, s, c).Ok(p)
    ensures PairNext(p, s, c).down.todo == s.down.todo[1..]
  {
    LinesMatch(p, s, c);
    SlotFits(p, s.up.ctr);
    var w, lines := s.down.todo[0], UpLines(p, s.up, Between(p, s, c).word);
    var padded := Pad(p, w);
    assert s.up.ctr * p.narrow + p.narrow == p.Padded();
    assert lines.data == lines.data[..p.Padded()] == padded.data;
    assert lines.keep == lines.keep[..p.Padded()] == padded.keep;
    assert w.data == padded.data[..p.wide] && w.keep == padded.keep[..p.wide];
  }

  lemma PairStep(p: Shape, s: Pair, c: PairCycle)
    requires s.Ok(p) && c.idle.Lanes(p.narrow)
    ensures PairNext(p, s, c).Ok(p)
    ensures s.down.todo == PairGiven(p, s, c) + PairNext(p, s, c).down.todo
  {
    if s.down.Offered(c.offers).None? || (p.High(s.down.ctr) && !c.oTready) {
      PairIdle(p, s, c);
    } else if p.High(s.down.ctr) {
      PairCompletes(p, s, c);
    } else {
      PairPasses(p, s, c);
    }
  }

  function PairRun(p: Shape, s: Pair, cs: seq<PairCycle>): (r: Pair)
    requires s.Ok(p) && PairLanes(p, cs)
    ensures r.Ok(p)
    decreases |cs|
  {
    if cs == [] then s else
      PairStep(p, s, cs[0]);
      PairRun(p, PairNext(p, s, cs[0]), cs[1..])
  }

  function PairEmitted(p: Shape, s: Pair, cs: seq<PairCycle>): seq<Word>
    requires s.Ok(p) && PairLanes(p, cs)
    decreases |cs|
  {
    if cs == [] then [] else
      PairStep(p, s, cs[0]);
      PairGiven(p, s, cs[0]) + PairEmitted(p, PairNext(p, s, cs[0]), cs[1..])
  }

  /** Narrowing and widening again is the identity on words (data, keep and last), under any
      back-pressure: the words emitted are exactly the source's, in order. */
  lemma {:induction false} PairIsIdentity(p: Shape, s: Pair, cs: seq<PairCycle>)
    requires s.Ok(p) && PairLanes(p, cs)
    ensures s.down.todo == PairEmitted(p, s, cs) + PairRun(p, s, cs).down.todo
    decreases |cs|
  {
    if cs != [] {
      PairStep(p, s, cs[0]);
      PairIsIdentity(p, PairNext(p, s, cs[0]), cs[1..]);
    }
  }

  // ---------- The hardware ----------

  class WideToNarrow {
    const p: Shape
    var ctr: nat

    ghost predicate Valid()
      reads this
    {
      p.Valid() && ctr < p.slots
    }

    constructor (iBytes: nat, oBytes: nat)
      requires 0 < oBytes <= iBytes
      ensures Valid() && ctr == 0 && p == ShapeOf(iBytes, oBytes)
    {
      p := ShapeOf(iBytes, oBytes);
      ctr := 0;
    }

    /** The output lines of a cycle, and the clock edge that ends it. */
    method Clock(word: Option<Word>, oTready: bool) returns (iTready: bool, o: Option<Word>)
      requires Valid() && (word.Some? ==> word.value.Lanes(p.wide))
      modifies this
      ensures Valid()
      ensures word.Some? ==> (iTready <==> DownTakes(p, old(ctr), word, oTready))
      ensures o == if word.Some? then Some(Slot(p, Pad(p, word.value), old(ctr))) else None
      ensures ctr == DownStep(p, old(ctr), word, oTready)
    {
      iTready := if ctr == p.slots - 1 then oTready else false;
      o := None;
      if word.Some? {
        var padded := Pad(p, word.value);
        SlotFits(p, ctr);
        var from, to := ctr * p.narrow, (ctr + 1) * p.narrow;
        var oTlast := if ctr == p.slots - 1 then padded.last else false;
        o := Some(Word(padded.data[from..to], padded.keep[from..to], oTlast));
      }
      if iTready && word.Some? {
        ctr := 0;
      } else if oTready && word.Some? {
        ctr := ctr + 1;
      }
    }
  }

  lemma LinesAre(p: Shape, s: Up, word: Word, data: seq<byte>, keep: seq<bool>)
    requires s.Ok(p) && word.Lanes(p.narrow)
    requires var from, to := s.ctr * p.narrow, (s.ctr + 1) * p.narrow;
      && to <= p.Padded()
      && data == s.data[..from] + word.data + s.data[to..] && keep == s.keep[..from] + word.keep + s.keep[to..]
    ensures UpLines(p, s, word) == Word(data, keep, word.last)
  {
    SlotFits(p, s.ctr);
  }

  class NarrowToWide {
    const p: Shape
    var ctr: nat
    var data: seq<byte>
    var keep: seq<bool>

    ghost predicate Valid()
      reads this
    {
      View().Ok(p)
    }

    ghost function View(): Up
      reads this
    {
      Up(ctr, data, keep)
    }

    constructor (iBytes: nat, oBytes: nat)
      requires 0 < iBytes <= oBytes
      ensures Valid() && ctr == 0 && p == ShapeOf(oBytes, iBytes)
    {
      p := ShapeOf(oBytes, iBytes);
      ctr := 0;
      var padded := ShapeOf(oBytes, iBytes).Padded();
      data, keep := seq(padded, _ => 0), seq(padded, _ => false);
    }

    method Clock(x: Input) returns (iTready: bool, o: Option<Word>)
      requires Valid() && x.word.Lanes(p.narrow)
      modifies this
      ensures Valid()
      ensures iTready <==> UpReady(p, old(View()), x.oTready)
      ensures o == if UpValid(p, old(View()), x) then Some(UpOut(p, old(View()), x.word)) else None
      ensures View() == UpNext(p, old(View()), x)
    {
      hide Overlay;
      ghost var was := View();
      iTready := if ctr == p.slots - 1 then x.oTready else true;
      var oTvalid := x.iTvalid && (x.word.last || ctr == p.slots - 1);
      SlotFits(p, ctr);
      var from, to := ctr * p.narrow, (ctr + 1) * p.narrow;
      data := data[..from] + x.word.data + data[to..];
      keep := keep[..from] + x.word.keep + keep[to..];
      LinesAre(p, was, x.word, data, keep);
      o := if oTvalid then Some(Word(data[..p.wide], keep[..p.wide], x.word.last)) else None;
      if x.oTready && oTvalid {
        ctr := 0;
        keep := seq(p.Padded(), _ => false);
      } else if iTready && x.iTvalid {
        ctr := ctr + 1;
      }
    }
  }
}
