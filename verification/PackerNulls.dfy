/** When the packer emits a null word. The pipe of align stages is seen here as a queue of words without
    their null lanes; the combine stage makes a null word of a word with last and no byte if and only if
    the bytes of its packet so far have filled whole words. */
module PackerNulls {
  import opened Axis
  import opened ByteStream
  import opened PackerAlign
  import opened PackerCombine
  import opened Packer

  // ---------- The pipe as a queue ----------

  function OptChunks(w: Option<Word>): seq<Chunk>
    requires w.Some? ==> |w.value.data| == |w.value.keep|
  {
    if w.Some? then [ToChunk(w.value)] else []
  }

  /** Words in the pipe, oldest first. */
  function Queue(n: nat, regs: seq<Option<Word>>): seq<Chunk>
    requires PipeLanes(n, regs)
    decreases |regs|
  {
    if regs == [] then [] else Queue(n, regs[1..]) + OptChunks(regs[0])
  }

  lemma AlignedChunks(n: nat, k: nat, w: Option<Word>)
    requires k <= n && (w.Some? ==> w.value.Lanes(n))
    ensures OptChunks(AlignOpt(n, k, w)) == OptChunks(w)
  {
    if w.Some? {
      AlignKeepsBytes(k, w.value);
    }
  }

  /** One edge takes the oldest off if it is taken, and puts what enters behind the youngest. */
  lemma {:induction false} QueueMoves(n: nat, k: nat, regs: seq<Option<Word>>, input: Option<Word>, ready: bool)
    requires k + |regs| <= n && PipeLanes(n, regs) && (input.Some? ==> input.value.Lanes(n))
    ensures Queue(n, regs) + (if PipeReady(regs, ready) then OptChunks(input) else [])
         == (if ready then OptChunks(PipeOut(regs, input)) else []) + Queue(n, PipeStep(n, k, regs, input, ready))
    decreases |regs|
  {
    hide ToChunk, Align;
    if regs != [] {
      var rest, next := regs[1..], PipeStep(n, k, regs, input, ready);
      QueueMoves(n, k + 1, rest, regs[0], ready);
      assert PipeOut(regs, input) == PipeOut(rest, regs[0]);
      assert next[1..] == PipeStep(n, k + 1, rest, regs[0], ready);
      AlignedChunks(n, k, input);
      Packer.Shift(Queue(n, rest), OptChunks(regs[0]), if PipeReady(regs, ready) then OptChunks(input) else [],
        if ready then OptChunks(PipeOut(regs, input)) else [], Queue(n, next[1..]), OptChunks(next[0]),
        if PipeReady(rest, ready) then OptChunks(regs[0]) else []);
    }
  }

  lemma {:induction false} QueueHead(n: nat, regs: seq<Option<Word>>)
    requires PipeLanes(n, regs)
    ensures PipeOut(regs, None).Some? ==>
      Queue(n, regs) != [] && Queue(n, regs)[0] == ToChunk(PipeOut(regs, None).value)
    decreases |regs|
  {
    if |regs| > 1 {
      assert regs[1..][|regs| - 2] == regs[|regs| - 1];
      QueueHead(n, regs[1..]);
    } else if |regs| == 1 {
      assert Queue(n, regs[1..]) == [];
    }
  }

  // ---------- Null words ----------

  predicate Null(c: Chunk) { c.last && c.bytes == [] }

  function Nulls(cs: seq<Chunk>): nat {
    if cs == [] then 0 else (if Null(cs[0]) then 1 else 0) + Nulls(cs[1..])
  }

  /** Of these words, those with last and no byte whose packet has filled whole words before them; `phase`
      is the number of bytes, modulo n, of the packet under way. */
  function NullEnds(n: nat, phase: nat, cs: seq<Chunk>): nat
    requires n > 0
    decreases |cs|
  {
    if cs == [] then 0 else
      (if Null(cs[0]) && phase == 0 then 1 else 0)
      + NullEnds(n, if cs[0].last then 0 else (phase + |cs[0].bytes|) % n, cs[1..])
  }

  function PhaseOf(n: nat, acc: Acc): nat {
    if acc.OTvalid(n) then 0 else |acc.bytes|
  }

  /** The words still to be combined, the oldest without the bytes that already are. */
  function ToCombine(n: nat, s: State): seq<Chunk>
    requires PipeLanes(n, s.regs)
  {
    var q := Queue(n, s.regs);
    if q != [] && s.acc.base <= |q[0].bytes| then [Chunk(q[0].bytes[s.acc.base..], q[0].last)] + q[1..] else q
  }

  /** Null words in the register, and those that the words to be combined will make. */
  function NullsInside(n: nat, s: State, later: seq<Chunk>): nat
    requires n > 0 && PipeLanes(n, s.regs)
  {
    (if Null(s.acc.Out()) then 1 else 0) + NullEnds(n, PhaseOf(n, s.acc), ToCombine(n, s) + later)
  }

  lemma ModOnce(x: nat, n: nat)
    requires n > 0 && x < 2 * n
    ensures x % n == if x >= n then x - n else x
  {
    if x >= n {
      assert x % n == (x - n) % n;
    }
  }

  /** The combine stage, one word waiting, `rest` behind it. */
  lemma CombineNulls(n: nat, s: Acc, x: Chunk, oTready: bool, rest: seq<Chunk>)
    requires n >= 2 && Waiting(n, s, Some(x)) && |x.bytes| <= n
    ensures var r, takes := CombineStep(n, s, Some(x), oTready), Takes(n, s, Some(x), oTready);
      && (!takes ==> r.base <= |x.bytes|)
      && (if Null(s.Out()) then 1 else 0)
         + NullEnds(n, PhaseOf(n, s), [Chunk(x.bytes[s.base..], x.last)] + rest)
      == Nulls(Emits(n, s, oTready)) + (if Null(r.Out()) then 1 else 0)
         + NullEnds(n, PhaseOf(n, r), if takes then rest else [Chunk(x.bytes[r.base..], x.last)] + rest)
  {
    var r, takes := CombineStep(n, s, Some(x), oTready), Takes(n, s, Some(x), oTready);
    var x' := Chunk(x.bytes[s.base..], x.last);
    assert ([x'] + rest)[1..] == rest;
    ModOnce(PhaseOf(n, s) + |x'.bytes|, n);
    OneNull(s.Out());
    if !takes {
      var y := Chunk(x.bytes[r.base..], x.last);
      assert ([y] + rest)[1..] == rest;
      ModOnce(PhaseOf(n, r) + |y.bytes|, n);
    }
  }

  lemma OneNull(c: Chunk)
    ensures Nulls([c]) == if Null(c) then 1 else 0
  {
    assert [c][1..] == [];
  }

  function Entering(n: nat, s: State, x: Input): seq<Chunk>
    requires Ok(n, s) && (x.word.Some? ==> x.word.value.Lanes(n))
  {
    if AxisITready(n, s, x.oTready) then OptChunks(x.word) else []
  }

  lemma AllOfQueue(n: nat, s: State)
    requires PipeLanes(n, s.regs) && s.acc.base == 0
    ensures ToCombine(n, s) == Queue(n, s.regs)
  {
    var q := Queue(n, s.regs);
    if q != [] {
      assert Chunk(q[0].bytes[0..], q[0].last) == q[0];
      assert q == [q[0]] + q[1..];
    }
  }

  /** What is left of the queue, and what the words taken and given are, after an edge. */
  lemma QueueStep(n: nat, s: State, x: Input)
    requires Ok(n, s) && (x.word.Some? ==> x.word.value.Lanes(n))
    ensures Ok(n, Step(n, s, x))
    ensures var q, q' := Queue(n, s.regs), Queue(n, Step(n, s, x).regs);
      if s.Offered().Some? && CombineTakes(n, s, x.oTready) then
        q != [] && q[0] == ToChunk(s.Offered().value) && q' == q[1..] + Entering(n, s, x)
      else q' == q + Entering(n, s, x) && (s.Offered().Some? ==> q != [] && q[0] == ToChunk(s.Offered().value))
  {
    hide Settled, PipeStep, Queue, PipeReady, ToChunk;
    var takes := CombineTakes(n, s, x.oTready);
    StepOk(n, s, x);
    QueueMoves(n, 0, s.regs, x.word, takes);
    QueueHead(n, s.regs);
    var q, q', e := Queue(n, s.regs), Queue(n, Step(n, s, x).regs), Entering(n, s, x);
    if s.Offered().Some? && takes {
      assert q + e == [q[0]] + q';
      assert (q + e)[1..] == q[1..] + e;
    } else {
      assert [] + q' == q';
    }
  }

  lemma IdleNulls(n: nat, s: Acc, oTready: bool)
    requires n >= 2 && |s.bytes| <= n
    ensures var r := CombineStep(n, s, None, oTready);
      && PhaseOf(n, r) == PhaseOf(n, s) && r.base == s.base
      && (if Null(s.Out()) then 1 else 0) == Nulls(Emits(n, s, oTready)) + if Null(r.Out()) then 1 else 0
  {
    OneNull(s.Out());
  }

  /** The word waiting is taken. */
  lemma TakenNulls(n: nat, s: State, x: Input, later: seq<Chunk>)
    requires Ok(n, s) && (x.word.Some? ==> x.word.value.Lanes(n))
    requires s.Offered().Some? && CombineTakes(n, s, x.oTready)
    ensures Ok(n, Step(n, s, x))
    ensures NullsInside(n, s, Entering(n, s, x) + later) == Nulls(Given(n, s, x)) + NullsInside(n, Step(n, s, x), later)
  {
    hide Settled, PipeStep, Queue, NullEnds, CombineTakes, CombineStep, AxisITready, Emits, ToChunk, Nulls, PhaseOf;
    QueueStep(n, s, x);
    var r, q, e, c := Step(n, s, x), Queue(n, s.regs), Entering(n, s, x), ToChunk(s.Offered().value);
    var rest := q[1..] + e + later;
    ChunksFit(n, s.Offered());
    CombineNulls(n, s.acc, c, x.oTready, rest);
    assert ToCombine(n, s) + (e + later) == [Chunk(c.bytes[s.acc.base..], c.last)] + rest;
    TakenClears(n, s, x.oTready);
    AllOfQueue(n, r);
    assert ToCombine(n, r) + later == rest;
  }

  /** It stays, perhaps with some of its bytes taken. */
  lemma WaitingNulls(n: nat, s: State, x: Input, later: seq<Chunk>)
    requires Ok(n, s) && (x.word.Some? ==> x.word.value.Lanes(n))
    requires s.Offered().Some? && !CombineTakes(n, s, x.oTready)
    ensures Ok(n, Step(n, s, x))
    ensures NullsInside(n, s, Entering(n, s, x) + later) == Nulls(Given(n, s, x)) + NullsInside(n, Step(n, s, x), later)
  {
    hide Settled, PipeStep, Queue, NullEnds, CombineTakes, CombineStep, AxisITready, Emits, ToChunk, Nulls, PhaseOf;
    QueueStep(n, s, x);
    var r, q, e, c := Step(n, s, x), Queue(n, s.regs), Entering(n, s, x), ToChunk(s.Offered().value);
    var rest := q[1..] + e + later;
    ChunksFit(n, s.Offered());
    CombineNulls(n, s.acc, c, x.oTready, rest);
    assert ToCombine(n, s) + (e + later) == [Chunk(c.bytes[s.acc.base..], c.last)] + rest;
    NotTakenStays(n, s, x.oTready);
    assert Queue(n, r.regs)[1..] == q[1..] + e;
    assert ToCombine(n, r) + later == [Chunk(c.bytes[r.acc.base..], c.last)] + rest;
  }

  lemma StepNulls(n: nat, s: State, x: Input, later: seq<Chunk>)
    requires Ok(n, s) && (x.word.Some? ==> x.word.value.Lanes(n))
    ensures Ok(n, Step(n, s, x))
    ensures NullsInside(n, s, Entering(n, s, x) + later) == Nulls(Given(n, s, x)) + NullsInside(n, Step(n, s, x), later)
  {
    hide Settled, PipeStep, Queue, NullEnds, CombineTakes, CombineStep, AxisITready, Emits, ToChunk;
    if s.Offered().Some? {
      if CombineTakes(n, s, x.oTready) {
        TakenNulls(n, s, x, later);
      } else {
        WaitingNulls(n, s, x, later);
      }
    } else {
      QueueStep(n, s, x);
      IdleNulls(n, s.acc, x.oTready);
      AllOfQueue(n, s);
      AllOfQueue(n, Step(n, s, x));
      var q, e := Queue(n, s.regs), Entering(n, s, x);
      assert q + (e + later) == q + e + later;
    }
  }

  lemma TakenClears(n: nat, s: State, oTready: bool)
    requires Ok(n, s) && s.Offered().Some? && CombineTakes(n, s, oTready)
    ensures var c := ToChunk(s.Offered().value);
      Takes(n, s.acc, Some(c), oTready) && CombineStep(n, s.acc, Some(c), oTready).base == 0
  {
  }

  lemma NotTakenStays(n: nat, s: State, oTready: bool)
    requires Ok(n, s) && s.Offered().Some? && !CombineTakes(n, s, oTready)
    ensures !Takes(n, s.acc, Some(ToChunk(s.Offered().value)), oTready)
  {
  }

  function ChunksOf(ws: seq<Word>): seq<Chunk>
    requires forall k :: 0 <= k < |ws| ==> |ws[k].data| == |ws[k].keep|
  {
    if ws == [] then [] else [ToChunk(ws[0])] + ChunksOf(ws[1..])
  }

  lemma EnteringIsTaken(n: nat, s: State, x: Input, rest: seq<Word>)
    requires Ok(n, s) && (x.word.Some? ==> x.word.value.Lanes(n)) && AllLanes(n, rest)
    ensures ChunksOf(Taken(n, s, x) + rest) == Entering(n, s, x) + ChunksOf(rest)
  {
    hide ToChunk, AxisITready;
    if Taken(n, s, x) == [] {
      assert Taken(n, s, x) + rest == rest;
    } else {
      assert (Taken(n, s, x) + rest)[1..] == rest;
    }
  }

  lemma {:induction false} NullsAppend(a: seq<Chunk>, b: seq<Chunk>)
    ensures Nulls(a + b) == Nulls(a) + Nulls(b)
    decreases |a|
  {
    if a == [] {
      assert a + b == b;
    } else {
      assert (a + b)[1..] == a[1..] + b;
      NullsAppend(a[1..], b);
    }
  }

  lemma {:induction false} RunNulls(n: nat, s: State, xs: seq<Input>)
    requires Ok(n, s) && Packer.Lanes(n, xs)
    ensures NullsInside(n, s, ChunksOf(Accepted(n, s, xs)))
         == Nulls(Emitted(n, s, xs)) + NullsInside(n, Run(n, s, xs), [])
    decreases |xs|
  {
    hide Step, NullsInside, Given, Ok, AxisITready, Entering, Taken;
    if xs != [] {
      var next, rest := Step(n, s, xs[0]), xs[1..];
      StepOk(n, s, xs[0]);
      StepNulls(n, s, xs[0], ChunksOf(Accepted(n, next, rest)));
      EnteringIsTaken(n, s, xs[0], Accepted(n, next, rest));
      RunNulls(n, next, rest);
      NullsAppend(Given(n, s, xs[0]), Emitted(n, next, rest));
    }
  }

  /** Any run from reset: the null words emitted, and those on their way, are as many as the words accepted
      with last and without a byte whose packet had filled whole words, none included, before them. */
  lemma NullWordsAre(n: nat, xs: seq<Input>)
    requires n >= 2 && Packer.Lanes(n, xs)
    ensures Nulls(Emitted(n, Reset(n), xs)) + NullsInside(n, Run(n, Reset(n), xs), [])
         == NullEnds(n, 0, ChunksOf(Accepted(n, Reset(n), xs)))
  {
    hide Run, Emitted, Accepted, NullEnds;
    RunNulls(n, Reset(n), xs);
    NothingQueued(n, Reset(n).regs);
    var cs := ChunksOf(Accepted(n, Reset(n), xs));
    assert [] + cs == cs;
  }

  lemma {:induction false} NothingQueued(n: nat, regs: seq<Option<Word>>)
    requires PipeEmpty(regs)
    ensures Queue(n, regs) == []
    decreases |regs|
  {
    if regs != [] {
      NothingQueued(n, regs[1..]);
    }
  }

  function NullWord(n: nat): (w: Word)
    ensures w.Lanes(n)
  {
    Word(seq(n, _ => 0), seq(n, _ => false), true)
  }

  /** A run that emits one: last on a null word, and nothing before it. */
  lemma NullWordComesOut(n: nat)
    requires n >= 2
    ensures var xs := [Input(Some(NullWord(n)), true)] + Idle(2 * n + 1);
      Packer.Lanes(n, xs) && Emitted(n, Reset(n), xs) == [Chunk([], true)]
  {
    hide Step, Inside, Ok, Work;
    var x, k := Input(Some(NullWord(n)), true), 2 * n + 1;
    var xs, s := [x] + Idle(k), Step(n, Reset(n), x);
    assert xs[1..] == Idle(k);
    StepOk(n, Reset(n), x);
    FirstStep(n, x);
    EndedPacketsComeOut(n, s, k);
    var out := Emitted(n, s, Idle(k));
    OnlyEnd(out);
    assert Emitted(n, Reset(n), xs) == Given(n, Reset(n), x) + out;
  }

  lemma FirstStep(n: nat, x: Input)
    requires n >= 2 && x == Input(Some(NullWord(n)), true)
    ensures Ok(n, Step(n, Reset(n), x))
    ensures var s := Step(n, Reset(n), x);
      Inside(n, s) == [End] && Work(s) < 2 * n + 1 && Given(n, Reset(n), x) == []
  {
    hide Settled;
    var r := Reset(n);
    StepOk(n, r, x);
    StepConserves(n, r, x);
    ResetIsEmpty(n);
    WorkMoves(n, r, x);
    NoWork(r.regs);
    EmptyTakes(n, r, x);
    KeptNone(NullWord(n).data, NullWord(n).keep);
    assert Taken(n, r, x) == [NullWord(n)] && [NullWord(n)][1..] == [];
    assert WordStream([NullWord(n)]) == [End];
  }

  lemma OnlyEnd(out: seq<Chunk>)
    requires ChunkStream(out) == [End] && AllEndOrFull(out)
    ensures out == [Chunk([], true)]
  {
    var first, rest := out[0].Tokens(), ChunkStream(out[1..]);
    assert first + rest == [End] && |first| >= 1;
    assert |rest| == 0 && first[0] == (first + rest)[0] == End;
    assert |out| > 1 ==> out[1..][0].Tokens() != [];
    assert out[0] == Chunk([], true);
    assert out == [out[0]] + out[1..];
  }

  predicate AllEndOrFull(cs: seq<Chunk>) {
    forall k :: 0 <= k < |cs| ==> cs[k].last || cs[k].bytes != []
  }
}
