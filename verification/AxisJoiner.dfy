/** synth/axis/axis_joiner.sv: a packet of stream 0, then one of stream 1, ..., as one packet. */
module AxisJoiner {
  import opened Axis
  import opened ByteStream

  /** The word on the output lines: that of the selected stream, whose end only counts if the
      stream is the last one. */
  function Joined(streams: nat, ctr: nat, ins: seq<Option<Word>>): Option<Word>
    requires ctr < streams == |ins|
  {
    if ins[ctr].None? then None
    else Some(ins[ctr].value.(last := ctr == streams - 1 && ins[ctr].value.last))
  }

  function NextStream(streams: nat, ctr: nat, ins: seq<Option<Word>>, oTready: bool): (r: nat)
    requires ctr < streams == |ins|
    ensures r < streams
  {
    if oTready && ins[ctr].Some? && ins[ctr].value.last then
      if ctr == streams - 1 then 0 else ctr + 1
    else ctr
  }

  // ---------- The joiner and its sources ----------

  /** What each stream's source has still to send, and the selected stream. */
  datatype Join = Join(todo: seq<seq<Word>>, ctr: nat) {
    predicate Ok() { ctr < |todo| }

    /** A source may offer its next word or be idle. */
    function Offered(offers: seq<bool>): (ins: seq<Option<Word>>)
      requires |offers| == |todo|
      ensures |ins| == |todo|
    {
      seq(|todo|, k requires 0 <= k < |todo| =>
        if offers[k] && todo[k] != [] then Some(todo[k][0]) else None)
    }
  }

  /** One cycle: which sources offer, and the sink's ready line. */
  datatype Cycle = Cycle(offers: seq<bool>, oTready: bool)

  function JoinNext(s: Join, c: Cycle): (r: Join)
    requires s.Ok() && |c.offers| == |s.todo|
    ensures r.Ok() && |r.todo| == |s.todo|
  {
    var ins := s.Offered(c.offers);
    Join(if ins[s.ctr].Some? && c.oTready then s.todo[s.ctr := s.todo[s.ctr][1..]] else s.todo,
      NextStream(|s.todo|, s.ctr, ins, c.oTready))
  }

  function JoinGiven(s: Join, c: Cycle): seq<Word>
    requires s.Ok() && |c.offers| == |s.todo|
  {
    if c.oTready then Joined(|s.todo|, s.ctr, s.Offered(c.offers)).ToSeq() else []
  }

  predicate AllStreams(n: nat, cs: seq<Cycle>) {
    forall k :: 0 <= k < |cs| ==> |cs[k].offers| == n
  }

  function JoinRun(s: Join, cs: seq<Cycle>): (r: Join)
    requires s.Ok() && AllStreams(|s.todo|, cs)
    ensures r.Ok() && |r.todo| == |s.todo|
    decreases |cs|
  {
    if cs == [] then s else JoinRun(JoinNext(s, cs[0]), cs[1..])
  }

  function JoinEmitted(s: Join, cs: seq<Cycle>): seq<Word>
    requires s.Ok() && AllStreams(|s.todo|, cs)
    decreases |cs|
  {
    if cs == [] then [] else JoinGiven(s, cs[0]) + JoinEmitted(JoinNext(s, cs[0]), cs[1..])
  }

  /** How many words of a stream belong to its first packet, if that is all there. */
  function PacketLength(ws: seq<Word>): (n: nat)
    ensures n <= |ws|
    ensures n > 0 ==> ws[n - 1].last && forall k :: 0 <= k < n - 1 ==> !ws[k].last
    ensures n == 0 ==> forall k :: 0 <= k < |ws| ==> !ws[k].last
  {
    if ws == [] then 0
    else if ws[0].last then 1
    else var n := PacketLength(ws[1..]); if n == 0 then 0 else n + 1
  }

  function Unended(ws: seq<Word>): (r: seq<Word>)
    ensures |r| == |ws|
  {
    seq(|ws|, k requires 0 <= k < |ws| => ws[k].(last := false))
  }

  function Words(todo: seq<seq<Word>>): nat {
    if todo == [] then 0 else |todo[0]| + Words(todo[1..])
  }

  lemma {:induction false} WordsShrink(todo: seq<seq<Word>>, k: nat, rest: seq<Word>)
    requires k < |todo| && |rest| < |todo[k]|
    ensures Words(todo[k := rest]) < Words(todo)
    decreases k
  {
    if k > 0 {
      assert todo[k := rest][1..] == todo[1..][k - 1 := rest];
      WordsShrink(todo[1..], k - 1, rest);
    }
  }

  /** What the streams amount to: a whole packet of the selected stream, then one of the next, and
      round again; only the last stream's packets keep their end. */
  function InTurn(todo: seq<seq<Word>>, ctr: nat): seq<Word>
    requires ctr < |todo|
    decreases Words(todo)
  {
    var ws, n, final := todo[ctr], PacketLength(todo[ctr]), ctr == |todo| - 1;
    if n == 0 then Unended(ws)
    else
      WordsShrink(todo, ctr, ws[n..]);
      (if final then ws[..n] else Unended(ws[..n])) + InTurn(todo[ctr := ws[n..]], if final then 0 else ctr + 1)
  }

  lemma FirstOf(ws: seq<Word>, m: nat)
    requires 0 < m <= |ws|
    ensures ws[..m] == [ws[0]] + ws[1..][..m - 1]
    ensures Unended(ws[..m]) == [ws[0].(last := false)] + Unended(ws[1..][..m - 1])
    ensures ws[1..][m - 1..] == ws[m..]
  {
  }

  /** A packet, or what there is of one, from the selected stream. */
  function Part(ws: seq<Word>, final: bool): seq<Word> {
    var n := PacketLength(ws);
    if n == 0 then Unended(ws) else if final then ws[..n] else Unended(ws[..n])
  }

  lemma PartStep(ws: seq<Word>, final: bool)
    requires ws != []
    ensures Part(ws, final) == [ws[0].(last := final && ws[0].last)] + if ws[0].last then [] else Part(ws[1..], final)
  {
    var n := PacketLength(ws);
    if n == 0 {
      FirstOf(ws, |ws|);
      assert ws[..|ws|] == ws && ws[1..][..|ws| - 1] == ws[1..];
    } else {
      FirstOf(ws, n);
    }
  }

  lemma InTurnUnfolds(todo: seq<seq<Word>>, ctr: nat)
    requires ctr < |todo|
    ensures var ws, n, final := todo[ctr], PacketLength(todo[ctr]), ctr == |todo| - 1;
      InTurn(todo, ctr)
      == Part(ws, final) + if n == 0 then [] else InTurn(todo[ctr := ws[n..]], if final then 0 else ctr + 1)
  {
  }

  /** Taking one word of the selected stream. */
  lemma InTurnStep(todo: seq<seq<Word>>, ctr: nat)
    requires ctr < |todo| && todo[ctr] != []
    ensures var w, final := todo[ctr][0], ctr == |todo| - 1;
      InTurn(todo, ctr)
      == [w.(last := final && w.last)]
       + InTurn(todo[ctr := todo[ctr][1..]], if !w.last then ctr else if final then 0 else ctr + 1)
  {
    hide InTurn, Part;
    var ws, n, final := todo[ctr], PacketLength(todo[ctr]), ctr == |todo| - 1;
    var rest := todo[ctr := ws[1..]];
    InTurnUnfolds(todo, ctr);
    InTurnUnfolds(rest, ctr);
    PartStep(ws, final);
    if n > 0 {
      FirstOf(ws, n);
      assert rest[ctr := ws[n..]] == todo[ctr := ws[n..]];
    }
  }

  /** Any number of streams, any sources and any back-pressure: the words come out in turn, packet by
      packet, as one packet a round. */
  lemma {:induction false} JoinsInTurn(s: Join, cs: seq<Cycle>)
    requires s.Ok() && AllStreams(|s.todo|, cs)
    ensures InTurn(s.todo, s.ctr) == JoinEmitted(s, cs) + InTurn(JoinRun(s, cs).todo, JoinRun(s, cs).ctr)
    decreases |cs|
  {
    if cs != [] {
      hide InTurn;
      var next := JoinNext(s, cs[0]);
      if s.Offered(cs[0].offers)[s.ctr].Some? && cs[0].oTready {
        InTurnStep(s.todo, s.ctr);
      }
      assert InTurn(s.todo, s.ctr) == JoinGiven(s, cs[0]) + InTurn(next.todo, next.ctr);
      JoinsInTurn(next, cs[1..]);
    }
  }

  // ---------- The hardware ----------

  class Joiner {
    const streams: nat
    var ctr: nat

    ghost predicate Valid()
      reads this
    {
      ctr < streams
    }

    constructor (streams: nat)
      requires streams > 0
      ensures Valid() && this.streams == streams && ctr == 0
    {
      this.streams := streams;
      ctr := 0;
    }

    /** The ready line of stream k. */
    predicate AxisITready(k: nat, oTready: bool)
      reads this
    {
      if k == ctr then oTready else false
    }

    function Out(ins: seq<Option<Word>>): (o: Option<Word>)
      requires Valid() && |ins| == streams
      reads this
      ensures o == Joined(streams, ctr, ins)
    {
      match ins[ctr]
      case None => None
      case Some(w) =>
        var oTlast := if ctr == streams - 1 then w.last else false;
        Some(Word(w.data, w.keep, oTlast))
    }

    method Clock(ins: seq<Option<Word>>, oTready: bool)
      requires Valid() && |ins| == streams
      modifies this
      ensures Valid()
      ensures ctr == NextStream(streams, old(ctr), ins, oTready)
    {
      if oTready && ins[ctr].Some? && ins[ctr].value.last {
        if ctr == streams - 1 {
          ctr := 0;
        } else {
          ctr := ctr + 1;
        }
      }
    }
  }
}
