/** synth/axis/axis_packer.sv as a whole: a pipe of N-1 align stages in front of the combine stage,
    every stage an elastic register. */
module Packer {
  import opened Axis
  import opened ByteStream
  import opened PackerAlign
  import opened PackerCombine

  // ---------- The pipe of align stages ----------

  /** A stage accepts when it is empty or the stages behind it move; `ready` is the far end. */
  predicate PipeReady(regs: seq<Option<Word>>, ready: bool) {
    if regs == [] then ready else regs[0].None? || PipeReady(regs[1..], ready)
  }

  function AlignOpt(n: nat, k: nat, w: Option<Word>): (r: Option<Word>)
    requires k <= n && (w.Some? ==> w.value.Lanes(n))
    ensures r.Some? ==> r.value.Lanes(n)
  {
    if w.Some? then Some(Align(k, w.value)) else None
  }

  predicate PipeLanes(n: nat, regs: seq<Option<Word>>) {
    forall j :: 0 <= j < |regs| ==> regs[j].Some? ==> regs[j].value.Lanes(n)
  }

  /** One clock edge of stages k, k+1, ... with `input` offered to the first of them. */
  function PipeStep(n: nat, k: nat, regs: seq<Option<Word>>, input: Option<Word>, ready: bool): (r: seq<Option<Word>>)
    requires k + |regs| <= n && PipeLanes(n, regs) && (input.Some? ==> input.value.Lanes(n))
    ensures |r| == |regs| && PipeLanes(n, r)
    decreases |regs|
  {
    if regs == [] then [] else
      [if PipeReady(regs, ready) then AlignOpt(n, k, input) else regs[0]]
      + PipeStep(n, k + 1, regs[1..], regs[0], ready)
  }

  function OptTokens(w: Option<Word>): seq<Token>
    requires w.Some? ==> |w.value.data| == |w.value.keep|
  {
    if w.Some? then WordTokens(w.value) else []
  }

  /** Tokens in the pipe, oldest first. */
  function InFlight(n: nat, regs: seq<Option<Word>>): seq<Token>
    requires PipeLanes(n, regs)
    decreases |regs|
  {
    if regs == [] then [] else InFlight(n, regs[1..]) + OptTokens(regs[0])
  }

  function PipeOut(regs: seq<Option<Word>>, input: Option<Word>): Option<Word> {
    if regs == [] then input else regs[|regs| - 1]
  }

  lemma AlignedTokens(n: nat, k: nat, w: Option<Word>)
    requires k <= n && (w.Some? ==> w.value.Lanes(n))
    ensures OptTokens(AlignOpt(n, k, w)) == OptTokens(w)
  {
    if w.Some? {
      AlignKeepsBytes(k, w.value);
    }
  }

  lemma {:induction false} PipeConserves(n: nat, k: nat, regs: seq<Option<Word>>, input: Option<Word>, ready: bool)
    requires k + |regs| <= n && PipeLanes(n, regs) && (input.Some? ==> input.value.Lanes(n))
    ensures InFlight(n, regs) + (if PipeReady(regs, ready) then OptTokens(input) else [])
         == (if ready then OptTokens(PipeOut(regs, input)) else []) + InFlight(n, PipeStep(n, k, regs, input, ready))
    decreases |regs|
  {
    hide WordTokens, Align;
    if regs != [] {
      var rest, next := regs[1..], PipeStep(n, k, regs, input, ready);
      PipeConserves(n, k + 1, rest, regs[0], ready);
      assert PipeOut(regs, input) == PipeOut(rest, regs[0]);
      assert next[1..] == PipeStep(n, k + 1, rest, regs[0], ready);
      AlignedTokens(n, k, input);
      Shift(InFlight(n, rest), OptTokens(regs[0]), if PipeReady(regs, ready) then OptTokens(input) else [],
        if ready then OptTokens(PipeOut(regs, input)) else [], InFlight(n, next[1..]), OptTokens(next[0]),
        if PipeReady(rest, ready) then OptTokens(regs[0]) else []);
    }
  }

  /** Tokens moving on by one register: either the first register is reloaded or nothing enters. */
  lemma Shift<T>(behind: seq<T>, first: seq<T>, entering: seq<T>, leaving: seq<T>, behind': seq<T>, first': seq<T>,
                 passed: seq<T>)
    requires behind + passed == leaving + behind'
    requires (first == passed && first' == entering) || (first' == first && entering == [] && passed == [])
    ensures (behind + first) + entering == leaving + (behind' + first')
  {
    assert (behind + first) + entering == behind + (first + entering);
    assert (behind + passed) + first' == leaving + (behind' + first');
    if passed == [] && entering == [] {
      assert behind + passed == behind && first + entering == first;
    }
  }

  /** Stage j's register holds a word that stage j+1 may treat as settled. */
  ghost predicate PipeSettled(n: nat, k: nat, regs: seq<Option<Word>>) {
    && PipeLanes(n, regs)
    && forall j :: 0 <= j < |regs| ==> regs[j].Some? ==> Settled(k + j + 1, regs[j].value.keep)
  }

  lemma {:induction false} PipeStaysSettled(n: nat, k: nat, regs: seq<Option<Word>>, input: Option<Word>, ready: bool)
    requires k + |regs| < n && PipeSettled(n, k, regs)
    requires input.Some? ==> input.value.Lanes(n) && Settled(k, input.value.keep)
    ensures PipeSettled(n, k, PipeStep(n, k, regs, input, ready))
    decreases |regs|
  {
    if regs != [] {
      var rest := regs[1..];
      assert PipeSettled(n, k + 1, rest) by {
        forall j | 0 <= j < |rest| && rest[j].Some?
          ensures Settled(k + 1 + j + 1, rest[j].value.keep)
        {
          assert rest[j] == regs[j + 1];
        }
      }
      PipeStaysSettled(n, k + 1, rest, regs[0], ready);
      if input.Some? {
        AlignSettles(k, input.value);
      }
      var tail, next := PipeStep(n, k + 1, rest, regs[0], ready), PipeStep(n, k, regs, input, ready);
      forall j | 0 <= j < |next| && next[j].Some?
        ensures Settled(k + j + 1, next[j].value.keep)
      {
        if j > 0 {
          assert next[j] == tail[j - 1];
        }
      }
    }
  }

  /** The oldest tokens are those of the last register, which stays put unless it is taken. */
  lemma {:induction false} OldestFirst(n: nat, regs: seq<Option<Word>>)
    requires PipeLanes(n, regs) && regs != []
    ensures |OptTokens(PipeOut(regs, None))| <= |InFlight(n, regs)|
    ensures InFlight(n, regs)[..|OptTokens(PipeOut(regs, None))|] == OptTokens(PipeOut(regs, None))
    decreases |regs|
  {
    hide OptTokens;
    if |regs| > 1 {
      var rest, first := InFlight(n, regs[1..]), OptTokens(regs[0]);
      assert regs[1..][|regs| - 2] == regs[|regs| - 1];
      OldestFirst(n, regs[1..]);
      assert (rest + first)[..|OptTokens(PipeOut(regs, None))|] == rest[..|OptTokens(PipeOut(regs, None))|];
    } else {
      assert InFlight(n, regs) == [] + OptTokens(regs[0]);
    }
  }

  lemma {:induction false} LastHolds(n: nat, k: nat, regs: seq<Option<Word>>, input: Option<Word>)
    requires k + |regs| <= n && PipeLanes(n, regs) && (input.Some? ==> input.value.Lanes(n))
    requires regs != [] && PipeOut(regs, None).Some?
    ensures PipeOut(PipeStep(n, k, regs, input, false), None) == PipeOut(regs, None)
    decreases |regs|
  {
    if |regs| > 1 {
      assert regs[1..][|regs| - 2] == regs[|regs| - 1];
      LastHolds(n, k + 1, regs[1..], regs[0]);
    } else {
      assert PipeReady(regs[1..], false) == false;
    }
  }

  // ---------- The whole packer ----------

  datatype State = State(regs: seq<Option<Word>>, acc: Acc) {
    /** The word offered to the combine stage. */
    function Offered(): Option<Word> { PipeOut(regs, None) }
  }

  function OptChunk(w: Option<Word>): Option<Chunk>
    requires w.Some? ==> |w.value.data| == |w.value.keep|
  {
    if w.Some? then Some(ToChunk(w.value)) else None
  }

  ghost predicate Ok(n: nat, s: State) {
    && n >= 2 && |s.regs| == n - 1
    && PipeSettled(n, 0, s.regs)
    && Waiting(n, s.acc, OptChunk(s.Offered()))
  }

  function Reset(n: nat): (s: State)
    requires n >= 2
    ensures Ok(n, s)
  {
    State(seq(n - 1, _ => None), Acc([], false, 0))
  }

  datatype Input = Input(word: Option<Word>, oTready: bool)

  predicate CombineTakes(n: nat, s: State, oTready: bool)
    requires Ok(n, s)
  {
    s.Offered().None? || ITready(n, s.acc, ToChunk(s.Offered().value), oTready)
  }

  predicate AxisITready(n: nat, s: State, oTready: bool)
    requires Ok(n, s)
  {
    PipeReady(s.regs, CombineTakes(n, s, oTready))
  }

  function Step(n: nat, s: State, x: Input): (r: State)
    requires Ok(n, s) && (x.word.Some? ==> x.word.value.Lanes(n))
  {
    State(PipeStep(n, 0, s.regs, x.word, CombineTakes(n, s, x.oTready)),
      CombineStep(n, s.acc, OptChunk(s.Offered()), x.oTready))
  }

  lemma StepOk(n: nat, s: State, x: Input)
    requires Ok(n, s) && (x.word.Some? ==> x.word.value.Lanes(n))
    ensures Ok(n, Step(n, s, x))
  {
    var takes := CombineTakes(n, s, x.oTready);
    CombineWaits(n, s.acc, OptChunk(s.Offered()), x.oTready);
    PipeStaysSettled(n, 0, s.regs, x.word, takes);
    if s.Offered().Some? && !takes {
      LastHolds(n, 0, s.regs, x.word);
    }
    ChunksFit(n, PipeOut(Step(n, s, x).regs, None));
  }

  lemma ChunksFit(n: nat, w: Option<Word>)
    requires w.Some? ==> w.value.Lanes(n)
    ensures w.Some? ==> |ToChunk(w.value).bytes| <= n
  {
  }

  /** Everything inside the packer, oldest first: the register, then the pipe without the bytes of
      its oldest word that are already in the register. */
  function Inside(n: nat, s: State): seq<Token>
    requires Ok(n, s)
  {
    OldestFirst(n, s.regs);
    s.acc.Out().Tokens() + InFlight(n, s.regs)[s.acc.base..]
  }

  function Taken(n: nat, s: State, x: Input): seq<Word>
    requires Ok(n, s)
  {
    if AxisITready(n, s, x.oTready) then x.word.ToSeq() else []
  }

  function Given(n: nat, s: State, x: Input): seq<Chunk> {
    Emits(n, s.acc, x.oTready)
  }

  /** The word at the head of the pipe, of which `base` tokens are already counted in the register,
      is taken: the rest of it leaves the pipe. */
  lemma HeadTaken<T>(reg: seq<T>, head: seq<T>, base: nat, pipe: seq<T>, input: seq<T>,
                     out: seq<T>, reg': seq<T>, pipe': seq<T>)
    requires base <= |head| <= |pipe| && pipe[..|head|] == head
    requires reg + head[base..] == out + reg'
    requires pipe + input == head + pipe'
    ensures (reg + pipe[base..]) + input == out + (reg' + pipe')
  {
    var tail := pipe[|head|..];
    assert pipe == head + tail;
    assert head + (tail + input) == head + pipe';
    assert tail + input == pipe' by {
      assert (head + (tail + input))[|head|..] == tail + input;
      assert (head + pipe')[|head|..] == pipe';
    }
    assert pipe[base..] == head[base..] + tail;
    calc {
      (reg + pipe[base..]) + input;
      (reg + head[base..]) + (tail + input);
      (out + reg') + pipe';
      out + (reg' + pipe');
    }
  }

  /** It stays: what the register took of it is counted there from now on. */
  lemma HeadStays<T>(reg: seq<T>, head: seq<T>, base: nat, pipe: seq<T>, input: seq<T>,
                     out: seq<T>, reg': seq<T>, base': nat, pipe': seq<T>)
    requires base <= |head| <= |pipe| && pipe[..|head|] == head && base' <= |head|
    requires reg + head[base..] == out + (reg' + head[base'..])
    requires pipe + input == pipe'
    ensures (reg + pipe[base..]) + input == out + (reg' + pipe'[base'..])
  {
    var tail := pipe[|head|..];
    assert pipe[base..] == head[base..] + tail;
    assert pipe'[base'..] == head[base'..] + (tail + input);
    calc {
      (reg + pipe[base..]) + input;
      (reg + head[base..]) + (tail + input);
      (out + (reg' + head[base'..])) + (tail + input);
      out + (reg' + pipe'[base'..]);
    }
  }

  lemma RestIsSuffix(base: nat, w: Option<Word>)
    requires w.Some? ==> |w.value.data| == |w.value.keep| && base <= |ToChunk(w.value).bytes|
    requires w.None? ==> base == 0
    ensures base <= |OptTokens(w)| && Rest(base, OptChunk(w)) == OptTokens(w)[base..]
  {
    if w.Some? {
      var bytes := ToChunk(w.value).bytes;
      hide Kept;
      assert Marks(bytes)[base..] == Marks(bytes[base..]);
    }
  }

  lemma TakenTokens(n: nat, s: State, x: Input)
    requires Ok(n, s) && (x.word.Some? ==> x.word.value.Lanes(n))
    ensures WordStream(Taken(n, s, x)) == if AxisITready(n, s, x.oTready) then OptTokens(x.word) else []
  {
    if x.word.Some? {
      assert [x.word.value][1..] == [];
    }
  }

  /** The law of the combine stage, in terms of the head of the pipe. */
  lemma CombineHalf(n: nat, s: State, x: Input)
    requires Ok(n, s) && (x.word.Some? ==> x.word.value.Lanes(n))
    ensures var r, takes := Step(n, s, x), CombineTakes(n, s, x.oTready);
      var head := OptTokens(s.Offered());
      && s.acc.base <= |head| && r.acc.base <= |head| && (takes ==> r.acc.base == 0)
      && s.acc.Out().Tokens() + head[s.acc.base..]
      == ChunkStream(Given(n, s, x)) + (r.acc.Out().Tokens() + (if takes then [] else head[r.acc.base..]))
  {
    var r, takes := Step(n, s, x), CombineTakes(n, s, x.oTready);
    var offered := OptChunk(s.Offered());
    CombineConserves(n, s.acc, offered, x.oTready);
    RestIsSuffix(s.acc.base, s.Offered());
    if takes {
      assert Rest(r.acc.base, None) == [];
    } else {
      RestIsSuffix(r.acc.base, s.Offered());
    }
  }

  lemma StepConserves(n: nat, s: State, x: Input)
    requires Ok(n, s) && (x.word.Some? ==> x.word.value.Lanes(n)) && Ok(n, Step(n, s, x))
    ensures Inside(n, s) + WordStream(Taken(n, s, x)) == ChunkStream(Given(n, s, x)) + Inside(n, Step(n, s, x))
  {
    hide PipeStep, CombineStep, PipeReady, InFlight, OptTokens, Given, WordStream, ChunkStream, Settled, Waiting;
    var r, takes := Step(n, s, x), CombineTakes(n, s, x.oTready);
    var head, reg, reg' := OptTokens(s.Offered()), s.acc.Out().Tokens(), r.acc.Out().Tokens();
    var pipe, pipe' := InFlight(n, s.regs), InFlight(n, r.regs);
    var input, out := WordStream(Taken(n, s, x)), ChunkStream(Given(n, s, x));
    CombineHalf(n, s, x);
    TakenTokens(n, s, x);
    PipeConserves(n, 0, s.regs, x.word, takes);
    OldestFirst(n, s.regs);
    if takes {
      assert reg' + [] == reg';
      HeadTaken(reg, head, s.acc.base, pipe, input, out, reg', pipe');
      assert pipe'[0..] == pipe';
    } else {
      assert [] + pipe' == pipe';
      HeadStays(reg, head, s.acc.base, pipe, input, out, reg', r.acc.base, pipe');
    }
  }

  // ---------- Whole runs ----------

  predicate Lanes(n: nat, xs: seq<Input>) {
    forall k :: 0 <= k < |xs| ==> xs[k].word.Some? ==> xs[k].word.value.Lanes(n)
  }

  function Run(n: nat, s: State, xs: seq<Input>): (r: State)
    requires Ok(n, s) && Lanes(n, xs)
    ensures Ok(n, r)
    decreases |xs|
  {
    if xs == [] then s else
      StepOk(n, s, xs[0]);
      Run(n, Step(n, s, xs[0]), xs[1..])
  }

  /** The words accepted at the input, in order. */
  function Accepted(n: nat, s: State, xs: seq<Input>): (ws: seq<Word>)
    requires Ok(n, s) && Lanes(n, xs)
    ensures AllLanes(n, ws)
    decreases |xs|
  {
    if xs == [] then [] else
      StepOk(n, s, xs[0]);
      Taken(n, s, xs[0]) + Accepted(n, Step(n, s, xs[0]), xs[1..])
  }

  /** The words transferred at the output, in order. */
  function Emitted(n: nat, s: State, xs: seq<Input>): (cs: seq<Chunk>)
    requires Ok(n, s) && Lanes(n, xs)
    ensures AllWellPacked(n, cs)
    decreases |xs|
  {
    if xs == [] then [] else
      StepOk(n, s, xs[0]);
      Given(n, s, xs[0]) + Emitted(n, Step(n, s, xs[0]), xs[1..])
  }

  /** From any state, what was inside plus what enters is what leaves plus what is then inside. */
  lemma {:induction false} RunConserves(n: nat, s: State, xs: seq<Input>)
    requires Ok(n, s) && Lanes(n, xs)
    ensures Inside(n, s) + WordStream(Accepted(n, s, xs))
         == ChunkStream(Emitted(n, s, xs)) + Inside(n, Run(n, s, xs))
    decreases |xs|
  {
    hide Step, Inside, Given, Ok, AxisITready;
    if xs != [] {
      var next, rest := Step(n, s, xs[0]), xs[1..];
      StepOk(n, s, xs[0]);
      StepConserves(n, s, xs[0]);
      RunConserves(n, next, rest);
      WordStreamAppend(Taken(n, s, xs[0]), Accepted(n, next, rest));
      ChunkStreamAppend(Given(n, s, xs[0]), Emitted(n, next, rest));
      Regroup(Inside(n, s), WordStream(Taken(n, s, xs[0])), WordStream(Accepted(n, next, rest)),
        ChunkStream(Given(n, s, xs[0])), Inside(n, next), ChunkStream(Emitted(n, next, rest)),
        Inside(n, Run(n, s, xs)));
    }
  }

  lemma {:induction false} ResetIsEmpty(n: nat)
    requires n >= 2
    ensures Inside(n, Reset(n)) == []
  {
    EmptyPipe(n, Reset(n).regs);
  }

  lemma {:induction false} EmptyPipe(n: nat, regs: seq<Option<Word>>)
    requires forall j :: 0 <= j < |regs| ==> regs[j].None?
    ensures InFlight(n, regs) == []
    decreases |regs|
  {
    if regs != [] { EmptyPipe(n, regs[1..]); }
  }

  /** Every run from reset, for any width and any back-pressure: the kept bytes and packet ends
      accepted are those emitted, in order, followed by those still inside. Emitted words are full
      unless they end a packet (the postcondition of `Emitted`). */
  lemma PacksTheStream(n: nat, xs: seq<Input>)
    requires n >= 2 && Lanes(n, xs)
    ensures WordStream(Accepted(n, Reset(n), xs))
         == ChunkStream(Emitted(n, Reset(n), xs)) + Inside(n, Run(n, Reset(n), xs))
  {
    ResetIsEmpty(n);
    RunConserves(n, Reset(n), xs);
  }

  // ---------- Null words ----------

  /** The one kind of input the source does not claim to handle: last on an entirely null word. */
  predicate NullLast(w: Word)
    requires |w.data| == |w.keep|
  {
    w.last && ToChunk(w).bytes == []
  }

  predicate OptSolid(w: Option<Word>) {
    w.Some? ==> |w.value.data| == |w.value.keep| && !NullLast(w.value)
  }

  predicate PipeSolid(regs: seq<Option<Word>>) {
    forall j :: 0 <= j < |regs| ==> OptSolid(regs[j])
  }

  predicate Solid(s: State) {
    (s.acc.last ==> s.acc.bytes != []) && PipeSolid(s.regs)
  }

  lemma {:induction false} PipeStaysSolid(n: nat, k: nat, regs: seq<Option<Word>>, input: Option<Word>, ready: bool)
    requires k + |regs| <= n && PipeLanes(n, regs) && PipeSolid(regs)
    requires input.Some? ==> input.value.Lanes(n) && !NullLast(input.value)
    ensures PipeSolid(PipeStep(n, k, regs, input, ready))
    decreases |regs|
  {
    if regs != [] {
      assert OptSolid(regs[0]);
      assert PipeSolid(regs[1..]);
      PipeStaysSolid(n, k + 1, regs[1..], regs[0], ready);
      if input.Some? {
        AlignKeepsBytes(k, input.value);
      }
      var next := PipeStep(n, k, regs, input, ready);
      forall j | 0 <= j < |next|
        ensures OptSolid(next[j])
      {
        assert j > 0 ==> next[j] == PipeStep(n, k + 1, regs[1..], regs[0], ready)[j - 1];
      }
    }
  }

  lemma StepStaysSolid(n: nat, s: State, x: Input)
    requires Ok(n, s) && Solid(s)
    requires x.word.Some? ==> x.word.value.Lanes(n) && !NullLast(x.word.value)
    ensures Solid(Step(n, s, x)) && NonNull(Given(n, s, x))
  {
    PipeStaysSolid(n, 0, s.regs, x.word, CombineTakes(n, s, x.oTready));
    assert OptSolid(s.Offered());
  }

  predicate NoNullLast(n: nat, xs: seq<Input>)
    requires Lanes(n, xs)
  {
    forall k :: 0 <= k < |xs| ==> xs[k].word.Some? ==> !NullLast(xs[k].word.value)
  }

  /** Without such a word at the input, no null word is ever emitted, so the output is the only
      well-packed form of its stream. */
  lemma {:induction false} NoNullWords(n: nat, s: State, xs: seq<Input>)
    requires Ok(n, s) && Lanes(n, xs) && Solid(s) && NoNullLast(n, xs)
    ensures NonNull(Emitted(n, s, xs)) && Solid(Run(n, s, xs))
    decreases |xs|
  {
    if xs != [] {
      StepOk(n, s, xs[0]);
      StepStaysSolid(n, s, xs[0]);
      NoNullWords(n, Step(n, s, xs[0]), xs[1..]);
    }
  }

  /** A packed stream without null words passes through unchanged, once it has all come out. */
  lemma PackedPassesThrough(n: nat, xs: seq<Input>, packed: seq<Chunk>)
    requires n >= 2 && Lanes(n, xs) && NoNullLast(n, xs)
    requires AllWellPacked(n, packed) && NonNull(packed)
    requires WordStream(Accepted(n, Reset(n), xs)) == ChunkStream(packed)
    requires Inside(n, Run(n, Reset(n), xs)) == []
    ensures Emitted(n, Reset(n), xs) == packed
  {
    PacksTheStream(n, xs);
    NoNullWords(n, Reset(n), xs);
    PackedFormIsUnique(n, Emitted(n, Reset(n), xs), packed);
  }

  // ---------- Draining ----------

  /** Register hops the words in the pipe still have to make. */
  function PipeWork(regs: seq<Option<Word>>): nat {
    if regs == [] then 0 else (if regs[0].Some? then |regs| else 0) + PipeWork(regs[1..])
  }

  predicate PipeEmpty(regs: seq<Option<Word>>) {
    forall j :: 0 <= j < |regs| ==> regs[j].None?
  }

  /** Words move on, all of them if the far end is ready. */
  lemma {:induction false} PipeMoves(n: nat, k: nat, regs: seq<Option<Word>>, input: Option<Word>, ready: bool)
    requires k + |regs| <= n && PipeLanes(n, regs) && (input.Some? ==> input.value.Lanes(n))
    ensures var enters := if input.Some? && PipeReady(regs, ready) then |regs| else 0;
      && PipeWork(PipeStep(n, k, regs, input, ready)) <= PipeWork(regs) + enters
      && (ready && !PipeEmpty(regs) ==> PipeWork(PipeStep(n, k, regs, input, ready)) < PipeWork(regs) + enters)
    decreases |regs|
  {
    if regs != [] {
      var rest, next := regs[1..], PipeStep(n, k, regs, input, ready);
      assert next[1..] == PipeStep(n, k + 1, rest, regs[0], ready);
      PipeMoves(n, k + 1, rest, regs[0], ready);
      if ready {
        AlwaysReady(regs);
        AlwaysReady(rest);
      }
    }
  }

  lemma {:induction false} AlwaysReady(regs: seq<Option<Word>>)
    ensures PipeReady(regs, true)
    decreases |regs|
  {
    if regs != [] {
      AlwaysReady(regs[1..]);
    }
  }

  /** Cycles until the pipe is empty, if nothing enters and the sink takes every word: a word that does
      not fit the register at once costs one cycle more. */
  function Work(s: State): nat {
    2 * PipeWork(s.regs) + (if s.Offered().Some? && s.acc.base == 0 then 1 else 0)
  }

  const IDLE := Input(None, true)

  /** A word that is not taken never starts to need a second cycle. */
  lemma NotTakenWaits(n: nat, s: State, x: Input)
    requires Ok(n, s) && (x.word.Some? ==> x.word.value.Lanes(n)) && !CombineTakes(n, s, x.oTready)
    ensures Step(n, s, x).Offered() == s.Offered() && s.Offered().Some?
    ensures Step(n, s, x).acc.base == 0 ==> s.acc.base == 0 && !x.oTready
    ensures x.oTready ==> s.acc.base == 0
    ensures !s.acc.OTvalid(n) ==> Step(n, s, x).acc.base > 0
  {
    ChunksFit(n, s.Offered());
    LastHolds(n, 0, s.regs, x.word);
    hide PipeStep, Settled;
  }

  /** What a word adds to the work when it enters. */
  function Entry(n: nat, s: State, x: Input): nat
    requires Ok(n, s)
  {
    if x.word.Some? && AxisITready(n, s, x.oTready) then 2 * n - 1 else 0
  }

  lemma EmptyTakes(n: nat, s: State, x: Input)
    requires Ok(n, s) && PipeEmpty(s.regs) && (x.word.Some? ==> x.word.value.Lanes(n))
    ensures AxisITready(n, s, x.oTready) && CombineTakes(n, s, x.oTready) && PipeWork(s.regs) == 0
    ensures x.word.None? ==> PipeEmpty(Step(n, s, x).regs)
  {
    assert s.regs[0].None?;
    assert s.Offered().None?;
    NoWork(s.regs);
    if x.word.None? {
      EmptyStays(n, 0, s.regs, CombineTakes(n, s, x.oTready));
    }
  }

  lemma {:induction false} NoWork(regs: seq<Option<Word>>)
    requires PipeEmpty(regs)
    ensures PipeWork(regs) == 0
    decreases |regs|
  {
    if regs != [] {
      NoWork(regs[1..]);
    }
  }

  /** A whole word is on show that the sink does not take. */
  predicate Stalls(n: nat, s: State, x: Input) { s.acc.OTvalid(n) && !x.oTready }

  /** Any input and any sink: the work grows only by what enters, and gets less in every cycle in which no
      word on show has to wait for the sink. */
  lemma WorkMoves(n: nat, s: State, x: Input)
    requires Ok(n, s) && (x.word.Some? ==> x.word.value.Lanes(n))
    ensures Work(Step(n, s, x)) <= Work(s) + Entry(n, s, x)
    ensures !Stalls(n, s, x) && !PipeEmpty(s.regs) ==> Work(Step(n, s, x)) < Work(s) + Entry(n, s, x)
  {
    hide Settled, PipeStep, PipeWork, PipeReady, CombineTakes, CombineStep;
    var takes := CombineTakes(n, s, x.oTready);
    PipeMoves(n, 0, s.regs, x.word, takes);
    if !takes {
      NotTakenWaits(n, s, x);
    } else if PipeEmpty(s.regs) {
      EmptyTakes(n, s, x);
      if x.word.None? {
        NoWork(Step(n, s, x).regs);
      }
    }
  }

  /** A word on show stays until it is taken. */
  lemma ShownStays(n: nat, s: State, x: Input)
    requires Ok(n, s) && (x.word.Some? ==> x.word.value.Lanes(n)) && Stalls(n, s, x)
    ensures Step(n, s, x).acc.Out() == s.acc.Out() && Step(n, s, x).acc.OTvalid(n)
  {
    hide PipeStep, Settled;
  }

  /** The input is ready if and only if a stage is empty, or the last one's word is taken. */
  lemma ReadyIff(n: nat, s: State, oTready: bool)
    requires Ok(n, s)
    ensures AxisITready(n, s, oTready)
       <==> (exists j :: 0 <= j < |s.regs| && s.regs[j].None?) || CombineTakes(n, s, oTready)
  {
    hide CombineTakes, Settled;
    PipeReadyIff(s.regs, CombineTakes(n, s, oTready));
  }

  lemma ReadyAtReset(n: nat, oTready: bool)
    requires n >= 2
    ensures AxisITready(n, Reset(n), oTready)
  {
    assert Reset(n).regs[0].None?;
  }

  lemma {:induction false} PipeReadyIff(regs: seq<Option<Word>>, ready: bool)
    ensures PipeReady(regs, ready) <==> (exists j :: 0 <= j < |regs| && regs[j].None?) || ready
    decreases |regs|
  {
    if regs != [] {
      PipeReadyIff(regs[1..], ready);
      assert (exists j :: 0 <= j < |regs| && regs[j].None?)
          <==> regs[0].None? || exists j :: 0 <= j < |regs[1..]| && regs[1..][j].None? by {
        assert forall j :: 0 < j < |regs| ==> regs[j] == regs[1..][j - 1];
        assert forall j :: 0 <= j < |regs[1..]| ==> regs[1..][j] == regs[j + 1];
      }
    }
  }

  function Stalled(n: nat, s: State, xs: seq<Input>): nat
    requires Ok(n, s) && Lanes(n, xs)
    decreases |xs|
  {
    if xs == [] then 0 else
      StepOk(n, s, xs[0]);
      (if Stalls(n, s, xs[0]) then 1 else 0) + Stalled(n, Step(n, s, xs[0]), xs[1..])
  }

  /** Any sink, also one that is only ready once it sees valid: but for the cycles in which a word on show
      waits for it, the pipe is empty after as many cycles as there was work, if nothing enters. */
  lemma {:induction false} EmptiesAnyhow(n: nat, s: State, xs: seq<Input>)
    requires Ok(n, s) && Lanes(n, xs) && forall k :: 0 <= k < |xs| ==> xs[k].word.None?
    requires |xs| >= Work(s) + Stalled(n, s, xs) || PipeEmpty(s.regs)
    ensures PipeEmpty(Run(n, s, xs).regs)
    decreases |xs|
  {
    hide Work, Ok, Step, PipeEmpty;
    NoneLeft(n, s);
    if xs != [] {
      var next := Step(n, s, xs[0]);
      StepOk(n, s, xs[0]);
      WorkMoves(n, s, xs[0]);
      if PipeEmpty(s.regs) {
        EmptyTakes(n, s, xs[0]);
      }
      EmptiesAnyhow(n, next, xs[1..]);
    }
  }

  lemma NoneLeft(n: nat, s: State)
    requires Ok(n, s)
    ensures Work(s) == 0 ==> PipeEmpty(s.regs)
  {
    WorkLeft(s.regs);
  }

  lemma {:induction false} WorkLeft(regs: seq<Option<Word>>)
    ensures PipeWork(regs) == 0 ==> PipeEmpty(regs)
    decreases |regs|
  {
    if regs != [] {
      WorkLeft(regs[1..]);
    }
  }

  /** With the pipe empty all that is inside is in the register, and leaves if it is a whole word. */
  lemma EmptyInside(n: nat, s: State)
    requires Ok(n, s) && PipeEmpty(s.regs)
    ensures s.acc.base == 0 && Inside(n, s) == s.acc.Out().Tokens()
    ensures var r := Step(n, s, IDLE); PipeEmpty(r.regs) && !r.acc.OTvalid(n)
  {
    EmptyPipe(n, s.regs);
    EmptyStays(n, 0, s.regs, CombineTakes(n, s, true));
  }

  lemma {:induction false} EmptyStays(n: nat, k: nat, regs: seq<Option<Word>>, ready: bool)
    requires k + |regs| <= n && PipeLanes(n, regs) && PipeEmpty(regs)
    ensures PipeEmpty(PipeStep(n, k, regs, None, ready))
    decreases |regs|
  {
    if regs != [] {
      EmptyStays(n, k + 1, regs[1..], ready);
    }
  }

  function Idle(k: nat): (xs: seq<Input>)
    ensures |xs| == k && forall i :: 0 <= i < k ==> xs[i] == IDLE
  {
    if k == 0 then [] else [IDLE] + Idle(k - 1)
  }

  /** Nothing more comes in and the sink is ready: after `Work` cycles and one, all that is left inside
      is a part of a word of a packet that has not ended. */
  lemma {:induction false} Drains(n: nat, s: State, k: nat)
    requires Ok(n, s) && k > Work(s)
    ensures var r := Run(n, s, Idle(k));
      !r.acc.OTvalid(n) && |r.acc.bytes| < n && Inside(n, r) == Marks(r.acc.bytes)
    decreases k
  {
    hide Step, Inside, Work, PipeEmpty, Ok;
    var next := Step(n, s, IDLE);
    StepOk(n, s, IDLE);
    assert Idle(k)[1..] == Idle(k - 1);
    if PipeEmpty(s.regs) {
      EmptyInside(n, s);
      StaysDrained(n, next, k - 1);
    } else {
      WorkMoves(n, s, IDLE);
      Drains(n, next, k - 1);
    }
  }

  lemma {:induction false} StaysDrained(n: nat, s: State, k: nat)
    requires Ok(n, s) && PipeEmpty(s.regs) && !s.acc.OTvalid(n)
    ensures var r := Run(n, s, Idle(k));
      !r.acc.OTvalid(n) && |r.acc.bytes| < n && Inside(n, r) == Marks(r.acc.bytes)
    decreases k
  {
    EmptyInside(n, s);
    if k > 0 {
      StepOk(n, s, IDLE);
      assert Idle(k)[1..] == Idle(k - 1);
      StaysDrained(n, Step(n, s, IDLE), k - 1);
    }
  }

  /** So once its packets have ended, everything comes out. */
  lemma EndedPacketsComeOut(n: nat, s: State, k: nat)
    requires Ok(n, s) && k > Work(s) && Inside(n, s) != [] && Last(Inside(n, s)) == End
    ensures Inside(n, s) == ChunkStream(Emitted(n, s, Idle(k))) && Inside(n, Run(n, s, Idle(k))) == []
  {
    Drains(n, s, k);
    RunConserves(n, s, Idle(k));
    NothingAccepted(n, s, k);
    var out, left := ChunkStream(Emitted(n, s, Idle(k))), Inside(n, Run(n, s, Idle(k)));
    assert Inside(n, s) + [] == Inside(n, s);
    if left != [] {
      LastOfSum(out, left);
      assert false;
    }
    assert out + [] == out;
  }

  lemma LastOfSum<T>(a: seq<T>, b: seq<T>)
    requires b != []
    ensures Last(a + b) == Last(b)
  {
  }

  lemma {:induction false} NothingAccepted(n: nat, s: State, k: nat)
    requires Ok(n, s)
    ensures Accepted(n, s, Idle(k)) == []
    decreases k
  {
    if k > 0 {
      StepOk(n, s, IDLE);
      assert Idle(k)[1..] == Idle(k - 1);
      NothingAccepted(n, Step(n, s, IDLE), k - 1);
    }
  }

  // ---------- The hardware ----------

  /** What the edge leaves in the register of stage j. */
  function PipeStepAt(n: nat, k: nat, regs: seq<Option<Word>>, input: Option<Word>, ready: bool, j: nat): Option<Word>
    requires k + |regs| <= n && PipeLanes(n, regs) && (input.Some? ==> input.value.Lanes(n)) && j < |regs|
  {
    if PipeReady(regs[j..], ready) then AlignOpt(n, k + j, if j == 0 then input else regs[j - 1]) else regs[j]
  }

  lemma {:induction false} PipeStepLane(n: nat, k: nat, regs: seq<Option<Word>>, input: Option<Word>, ready: bool,
                                        j: nat)
    requires k + |regs| <= n && PipeLanes(n, regs) && (input.Some? ==> input.value.Lanes(n)) && j < |regs|
    ensures PipeStep(n, k, regs, input, ready)[j] == PipeStepAt(n, k, regs, input, ready, j)
    decreases j
  {
    if j == 0 {
      assert regs[0..] == regs;
    } else {
      assert regs[1..][j - 1..] == regs[j..];
      PipeStepLane(n, k + 1, regs[1..], regs[0], ready, j - 1);
    }
  }

  lemma NoStages(regs: seq<Option<Word>>, ready: bool)
    ensures PipeReady(regs[|regs|..], ready) == ready
  {
  }

  lemma PipeStepLanes(n: nat, regs: seq<Option<Word>>, input: Option<Word>, ready: bool)
    requires |regs| <= n && PipeLanes(n, regs) && (input.Some? ==> input.value.Lanes(n))
    ensures forall k :: 0 <= k < |regs| ==>
      PipeStep(n, 0, regs, input, ready)[k] == PipeStepAt(n, 0, regs, input, ready, k)
  {
    hide PipeStep, PipeStepAt;
    forall k | 0 <= k < |regs|
      ensures PipeStep(n, 0, regs, input, ready)[k] == PipeStepAt(n, 0, regs, input, ready, k)
    {
      PipeStepLane(n, 0, regs, input, ready, k);
    }
  }

  class AxisPacker {
    const n: nat
    const align: seq<AlignStage>
    const combine: CombineStage

    ghost function Repr(): set<object> {
      {this, combine} + set j | 0 <= j < |align| :: align[j]
    }

    ghost function Registers(): seq<Option<Word>>
      reads Repr()
    {
      seq(|align|, j requires 0 <= j < |align| reads Repr() => align[j].Register())
    }

    ghost predicate Wired() {
      && n >= 2 && |align| == n - 1 && combine.n == n
      && (forall j :: 0 <= j < |align| ==> align[j].n == n && align[j].bytesToIgnore == j)
      && (forall j, k :: 0 <= j < k < |align| ==> align[j] != align[k])
    }

    ghost predicate Valid()
      reads Repr()
    {
      && Wired() && combine.Valid()
      && (forall j :: 0 <= j < |align| ==> align[j].Valid())
      && Ok(n, View())
    }

    ghost function View(): State
      requires combine.Valid()
      reads Repr(), combine
    {
      State(Registers(), combine.View())
    }

    constructor (n: nat)
      requires n >= 2
      ensures Valid() && fresh(Repr()) && this.n == n
      ensures View() == Reset(n)
    {
      this.n := n;
      var stages: seq<AlignStage> := [];
      for j := 0 to n - 1
        invariant |stages| == j
        invariant forall i :: 0 <= i < j ==> fresh(stages[i]) && stages[i].n == n && stages[i].bytesToIgnore == i
        invariant forall i :: 0 <= i < j ==> stages[i].Valid() && stages[i].Register() == None
        invariant forall i, k :: 0 <= i < k < j ==> stages[i] != stages[k]
      {
        var stage := new AlignStage(n, j);
        stages := stages + [stage];
      }
      align := stages;
      combine := new CombineStage(n);
      new;
      assert Registers() == Reset(n).regs;
    }

    ghost function Stages(): set<object> {
      set j | 0 <= j < |align| :: align[j]
    }

    ghost predicate StagesValid()
      reads Stages()
    {
      forall j :: 0 <= j < |align| ==> align[j].Valid()
    }

    /** One stage's edge, and its ready line; the others keep their registers. */
    method ClockStage(j: nat, ghost regs: seq<Option<Word>>, ghost ready: bool, iTvalid: bool, i: Word, oTready: bool)
      returns (iTready: bool)
      requires Wired() && StagesValid() && j < |align| && i.Lanes(n)
      requires |regs| == n - 1 && PipeLanes(n, regs) && (forall k :: 0 <= k <= j ==> align[k].Register() == regs[k])
      requires oTready == PipeReady(regs[j + 1..], ready)
      modifies align[j]
      ensures StagesValid() && iTready == PipeReady(regs[j..], ready)
      ensures var input := if iTvalid then Some(i) else None;
        align[j].Register() == PipeStepAt(n, 0, regs, input, ready, j)
      ensures forall k :: 0 <= k < |align| && k != j ==> align[k].Register() == old(align[k].Register())
    {
      hide PipeStep, Align;
      PipeReadyAt(regs, ready, j);
      iTready := align[j].AxisITready(oTready);
      if j == 0 {
        align[0].Clock(iTvalid, i, oTready);
      } else {
        align[j].Clock(align[j - 1].axisOTvalid, align[j - 1].axisO, oTready);
      }
    }

    /** Every stage loads the register in front of it, the last stage first so that each still
        reads the old value; the ready lines run back the same way. */
    method ClockPipe(iTvalid: bool, i: Word, ready: bool) returns (iTready: bool)
      requires Wired() && StagesValid() && i.Lanes(n)
      modifies Stages()
      ensures StagesValid()
      ensures PipeLanes(n, old(Registers()))
      ensures Registers() == PipeStep(n, 0, old(Registers()), if iTvalid then Some(i) else None, ready)
      ensures iTready == PipeReady(old(Registers()), ready)
    {
      hide PipeStep, PipeStepAt, Align, PipeReady;
      ghost var regs, input := Registers(), if iTvalid then Some(i) else None;
      iTready := ready;
      NoStages(regs, ready);
      for j := n - 1 downto 0
        invariant iTready == PipeReady(regs[j..], ready)
        invariant StagesValid()
        invariant forall k :: 0 <= k < j ==> align[k].Register() == regs[k]
        invariant forall k :: j <= k < n - 1 ==> align[k].Register() == PipeStepAt(n, 0, regs, input, ready, k)
      {
        iTready := ClockStage(j, regs, ready, iTvalid, i, iTready);
      }
      PipeStepLanes(n, regs, input, ready);
      assert regs[0..] == regs;
    }

    /** The combine stage reads the last register; its ready line is what the pipe sees. An empty
        stage accepts whatever that line says. */
    method ClockCombine(oTready: bool) returns (ready: bool)
      requires Valid()
      modifies combine
      ensures combine.Valid()
      ensures combine.View() == CombineStep(n, old(View()).acc, OptChunk(old(View()).Offered()), oTready)
      ensures ready == CombineTakes(n, old(View()), oTready)
    {
      ghost var s := View();
      var top := align[n - 2];
      assert s.Offered() == top.Register();
      if s.Offered().Some? {
        OfferedIsPacked(n, s);
      }
      ready := !top.axisOTvalid || combine.AxisITready(top.axisO.keep, oTready);
      combine.Clock(top.axisOTvalid, top.axisO, oTready);
    }

    /** The output lines: the combine stage's registers. */
    function AxisO(): (o: Option<Word>)
      requires Valid()
      reads Repr()
      ensures o.Some? <==> View().acc.OTvalid(n)
      ensures o.Some? ==> o.value.Lanes(n) && ToChunk(o.value) == View().acc.Out()
    {
      KeptPacked(combine.axisOTdata, combine.axisOTkeep, CountOnes(combine.axisOTkeep));
      if combine.AxisOTvalid() then Some(Word(combine.axisOTdata, combine.axisOTkeep, combine.axisOTlast)) else None
    }

    method Clock(iTvalid: bool, i: Word, oTready: bool) returns (iTready: bool)
      requires Valid() && i.Lanes(n)
      modifies Repr()
      ensures Valid()
      ensures iTready == AxisITready(n, old(View()), oTready)
      ensures View() == Step(n, old(View()), Input(if iTvalid then Some(i) else None, oTready))
    {
      ghost var s, x := View(), Input(if iTvalid then Some(i) else None, oTready);
      StepOk(n, s, x);
      ghost var next := Step(n, s, x);
      var ready := ClockCombine(oTready);
      assert Registers() == s.regs;
      iTready := ClockPipe(iTvalid, i, ready);
      assert Registers() == next.regs && combine.View() == next.acc;
    }
  }

  lemma PipeReadyAt(regs: seq<Option<Word>>, ready: bool, j: nat)
    requires j < |regs|
    ensures PipeReady(regs[j..], ready) == (regs[j].None? || PipeReady(regs[j + 1..], ready))
  {
    assert regs[j..][1..] == regs[j + 1..];
  }

  lemma OfferedIsPacked(n: nat, s: State)
    requires Ok(n, s) && s.Offered().Some?
    ensures var w := s.Offered().value;
      && w.Lanes(n) && Packed(w.keep, CountOnes(w.keep)) && ToChunk(w).bytes == w.data[..CountOnes(w.keep)]
      && s.acc.base <= CountOnes(w.keep)
  {
    var w := s.Offered().value;
    SettledIsPacked(w.keep);
    var c :| Packed(w.keep, c);
    CountPacked(w.keep, c);
    KeptPacked(w.data, w.keep, c);
  }
}
