/** What stands behind the header tagger: the packer, or synth/axis/axis_register.sv where the output need
    not be packed or the header fills whole words. Either holds tokens and passes them on in order. */
module TaggerOutlet {
  import opened Axis
  import opened ByteStream
  import Packer

  datatype Outlet = Packing(packer: Packer.State) | Register(word: Option<Word>)

  ghost predicate Ok(n: nat, s: Outlet) {
    match s
    case Packing(packer) => Packer.Ok(n, packer)
    case Register(word) => word.Some? ==> word.value.Lanes(n)
  }

  function Reset(n: nat, packed: bool): (s: Outlet)
    requires packed ==> n >= 2
    ensures Ok(n, s) && s.Packing? == packed
  {
    if packed then Packing(Packer.Reset(n)) else Register(None)
  }

  predicate AxisITready(n: nat, s: Outlet, oTready: bool)
    requires Ok(n, s)
  {
    match s
    case Packing(packer) => Packer.AxisITready(n, packer, oTready)
    case Register(word) => word.None? || oTready
  }

  function Step(n: nat, s: Outlet, x: Packer.Input): (r: Outlet)
    requires Ok(n, s) && (x.word.Some? ==> x.word.value.Lanes(n))
    ensures r.Packing? == s.Packing?
  {
    match s
    case Packing(packer) => Packing(Packer.Step(n, packer, x))
    case Register(word) =>
      Register(if x.word.Some? && (word.None? || x.oTready) then x.word else if x.oTready then None else word)
  }

  predicate OTvalid(n: nat, s: Outlet) {
    match s
    case Packing(packer) => packer.acc.OTvalid(n)
    case Register(word) => word.Some?
  }

  /** The word on the output lines, while they are valid. */
  function Out(n: nat, s: Outlet): Chunk
    requires Ok(n, s)
  {
    match s
    case Packing(packer) => packer.acc.Out()
    case Register(word) => if word.Some? then ToChunk(word.value) else Chunk([], false)
  }

  /** axis_o_tvalid and axis_o_tlast */
  predicate Ends(n: nat, s: Outlet) {
    match s
    case Packing(packer) => packer.acc.OTvalid(n) && packer.acc.last
    case Register(word) => word.Some? && word.value.last
  }

  function Inside(n: nat, s: Outlet): seq<Token>
    requires Ok(n, s)
  {
    match s
    case Packing(packer) => Packer.Inside(n, packer)
    case Register(word) => if word.Some? then WordTokens(word.value) else []
  }

  function Taken(n: nat, s: Outlet, x: Packer.Input): seq<Word>
    requires Ok(n, s)
  {
    if AxisITready(n, s, x.oTready) then x.word.ToSeq() else []
  }

  function Given(n: nat, s: Outlet, x: Packer.Input): seq<Chunk>
    requires Ok(n, s)
  {
    if OTvalid(n, s) && x.oTready then [Out(n, s)] else []
  }

  /** The register takes a word as soon as it is empty, whatever the sink does, and holds it until it is
      taken. */
  lemma LoadsAnyhow(n: nat, s: Outlet, x: Packer.Input)
    requires Ok(n, s) && s.Register? && (x.word.Some? ==> x.word.value.Lanes(n))
    ensures s.word.None? ==> AxisITready(n, s, x.oTready) && Step(n, s, x) == Register(x.word)
    ensures s.word.Some? && !x.oTready ==> Step(n, s, x) == s
  {
  }

  lemma ResetIsEmpty(n: nat, packed: bool)
    requires packed ==> n >= 2
    ensures Inside(n, Reset(n, packed)) == []
  {
    if packed {
      Packer.ResetIsEmpty(n);
    }
  }

  lemma StepOk(n: nat, s: Outlet, x: Packer.Input)
    requires Ok(n, s) && (x.word.Some? ==> x.word.value.Lanes(n))
    ensures Ok(n, Step(n, s, x))
  {
    if s.Packing? {
      Packer.StepOk(n, s.packer, x);
    }
  }

  /** The tokens of a word taken are given in their order. */
  lemma StepConserves(n: nat, s: Outlet, x: Packer.Input)
    requires Ok(n, s) && (x.word.Some? ==> x.word.value.Lanes(n)) && Ok(n, Step(n, s, x))
    ensures Inside(n, s) + WordStream(Taken(n, s, x)) == ChunkStream(Given(n, s, x)) + Inside(n, Step(n, s, x))
  {
    if s.Packing? {
      hide Packer.Ok, Packer.Step, Packer.Inside, Packer.AxisITready;
      Packer.StepConserves(n, s.packer, x);
    } else {
      OneWord(x.word);
      OneChunk(Out(n, s));
    }
  }

  lemma OneWord(w: Option<Word>)
    requires w.Some? ==> |w.value.data| == |w.value.keep|
    ensures WordStream(w.ToSeq()) == if w.Some? then WordTokens(w.value) else []
  {
    if w.Some? {
      assert w.ToSeq()[1..] == [];
    }
  }

  lemma OneChunk(c: Chunk)
    ensures ChunkStream([c]) == c.Tokens()
  {
    assert [c][1..] == [];
  }

  /** What is on the output lines is the first of what is inside. */
  lemma OutIsFirst(n: nat, s: Outlet)
    requires Ok(n, s)
    ensures OTvalid(n, s) || s.Register? ==> |Out(n, s).Tokens()| <= |Inside(n, s)|
    ensures OTvalid(n, s) || s.Register? ==> Inside(n, s)[..|Out(n, s).Tokens()|] == Out(n, s).Tokens()
    ensures Ends(n, s) ==> OTvalid(n, s) && Out(n, s).last
  {
    if s.Packing? {
      var out, inside := s.packer.acc.Out().Tokens(), Packer.Inside(n, s.packer);
      assert inside[..|out|] == out;
    }
  }

  // ---------- The hardware ----------

  class AxisRegister {
    const n: nat
    var axisOTvalid: bool
    var axisO: Word

    ghost predicate Valid()
      reads this
    {
      axisO.Lanes(n)
    }

    function View(): Outlet
      reads this
    {
      Register(if axisOTvalid then Some(axisO) else None)
    }

    constructor (n: nat)
      ensures Valid() && this.n == n && View() == Reset(n, false)
    {
      this.n := n;
      axisOTvalid := false;
      axisO := Word(seq(n, _ => 0), seq(n, _ => false), false);
    }

    method Clock(iTvalid: bool, i: Word, oTready: bool) returns (iTready: bool)
      requires Valid() && i.Lanes(n)
      modifies this
      ensures Valid()
      ensures iTready == AxisITready(n, old(View()), oTready)
      ensures View() == Step(n, old(View()), Packer.Input(if iTvalid then Some(i) else None, oTready))
    {
      iTready := !axisOTvalid || oTready;
      if iTready && iTvalid {
        axisOTvalid, axisO := true, i;
      } else if oTready {
        axisOTvalid := false;
      }
    }
  }
}
