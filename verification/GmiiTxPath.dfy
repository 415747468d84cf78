/** synth/network/gmii_tx_mac.sv with the register in front of its state machine: which bytes of the stream
    its frames carry. The stream is one byte wide, as by default; from a wider one the width converter
    makes such a stream, of all lanes of its words. */
module GmiiTxPath {
  import opened Crc
  import opened GmiiTxMac

  datatype Slot = Slot(b: Octet, last: bool)

  /** `held` is the register's output, `full` its valid line, and `left` what the source has still to give;
      it offers the next of it in every cycle. */
  datatype Path = Path(mac: Mac, full: bool, held: Slot, left: seq<Slot>)

  /** The register is read all through the data state, whether the packet has ended or not. */
  predicate ITready(s: Path) { !s.full || s.mac.sm == Data }

  /** The lines into the state machine. With nothing on offer last is low. */
  function Lines(s: Path): Input {
    Input(s.left != [], s.left != [] && s.left[0].last && ITready(s), s.held.b)
  }

  function Next(s: Path): (r: Path)
    requires s.mac.Widths()
    ensures r.mac.Widths()
  {
    var mac := Step(s.mac, Lines(s));
    if s.left != [] && ITready(s) then Path(mac, true, s.left[0], s.left[1..])
    else s.(mac := mac, full := s.full && s.mac.sm != Data)
  }

  /** What is still to be sent. */
  function Stream(s: Path): seq<Slot> {
    (if s.full then [s.held] else []) + s.left
  }

  function Cycles(s: Path, m: nat): (r: Path)
    requires s.mac.Widths()
    ensures r.mac.Widths()
    decreases m
  {
    if m == 0 then s else Cycles(Next(s), m - 1)
  }

  function Watching(s: Path, k: Sink, m: nat): Sink
    requires s.mac.Widths()
    decreases m
  {
    if m == 0 then k else
      var r := Next(s);
      Watching(r, Watch(k, r.mac.txen, r.mac.txd), m - 1)
  }

  lemma {:induction false} CyclesSplit(s: Path, k: Sink, a: nat, b: nat)
    requires s.mac.Widths()
    ensures Cycles(s, a + b) == Cycles(Cycles(s, a), b)
    ensures Watching(s, k, a + b) == Watching(Cycles(s, a), Watching(s, k, a), b)
    decreases a
  {
    hide Next, Watch;
    if a > 0 {
      var r := Next(s);
      CyclesSplit(r, Watch(k, r.mac.txen, r.mac.txd), a - 1, b);
    }
  }

  // ---------- One frame ----------

  /** The first last word that is taken while a frame is on its way; the first word of the stream is taken
      before. */
  predicate FirstLast(q: seq<Slot>, l: nat) {
    1 <= l < |q| && q[l].last && forall i :: 1 <= i < l ==> !q[i].last
  }

  function Min(a: int, b: int): int { if a < b then a else b }

  /** The bytes on the wire in n data cycles: when the stream has run out its last byte is repeated. */
  function Sent(q: seq<Slot>, n: nat): (bytes: seq<Octet>)
    requires q != []
    ensures |bytes| == n
  {
    seq(n, j requires 0 <= j < n => q[Min(j, |q| - 1)].b)
  }

  /** Data cycles of a frame: 64 at least, and until the last word is taken, which is one cycle before it
      would be sent. */
  function DataCycles(l: nat): (n: nat) {
    if l < 64 then 64 else l
  }

  /** The register after c cycles of a frame. */
  predicate RegisterAt(s: Path, q: seq<Slot>, c: nat) {
    var j := if c <= LEAD then 0 else c - LEAD;
    && q != [] && (s.full <==> j < |q|)
    && s.held == q[Min(j, |q| - 1)] && s.left == q[Min(j + 1, |q|)..]
  }

  ghost predicate FrameAt(s: Path, k: Sink, q: seq<Slot>, l: nat, h: seq<Input>) {
    && FirstLast(q, l) && |h| < LEAD + DataCycles(l)
    && Sending(s.mac, k, DataOf(h)) && InFrame(s.mac, h) && RegisterAt(s, q, |h|)
    && (LastSeen(h) <==> |h| >= LEAD + l)
    && (|h| >= LEAD ==> DataOf(h) == Sent(q, |h| - LEAD))
  }

  lemma RegisterMoves(s: Path, q: seq<Slot>, l: nat, c: nat)
    requires s.mac.Widths() && FirstLast(q, l) && RegisterAt(s, q, c) && (s.mac.sm == Data <==> c >= LEAD)
    ensures RegisterAt(Next(s), q, c + 1)
    ensures Lines(s).narrow == q[if c <= LEAD then 0 else Min(c - LEAD, |q| - 1)].b
    ensures c < LEAD + l ==> (Lines(s).lastTaken <==> c + 1 == LEAD + l)
  {
    hide Step;
  }

  lemma NextMac(s: Path)
    requires s.mac.Widths()
    ensures Next(s).mac == Step(s.mac, Lines(s))
  {
  }

  lemma SentGrows(q: seq<Slot>, n: nat)
    requires q != []
    ensures Sent(q, n + 1) == Sent(q, n) + [q[Min(n, |q| - 1)].b]
  {
  }

  lemma FrameGoesOn(s: Path, k: Sink, q: seq<Slot>, l: nat, h: seq<Input>)
    requires s.mac.Widths() && FrameAt(s, k, q, l, h)
    ensures var r, g := Next(s), h + [Lines(s)];
      var next := Watch(k, r.mac.txen, r.mac.txd);
      && next.frames == k.frames && Sending(r.mac, next, DataOf(g)) && RegisterAt(r, q, |g|)
      && if |g| < LEAD + DataCycles(l) then FrameAt(r, next, q, l, g)
         else r.mac.sm == SendCrc && r.mac.ctr == 0 && DataOf(g) == Sent(q, DataCycles(l))
  {
    hide Sending, Step, Watch, NotEnded, LastSeen, Lines, Next, RegisterAt, Bytes;
    var x := Lines(s);
    NextMac(s);
    if |h| >= LEAD {
      SentGrows(q, |h| - LEAD);
    }
    StepSends(s.mac, k, x, DataOf(h));
    FrameStep(s.mac, k, h, x);
    RegisterMoves(s, q, l, |h|);
    LastSeenGrows(h, x);
    NotEndedGrows(h, x);
  }

  /** To the end of the data. */
  lemma {:induction false} DataRuns(s: Path, k: Sink, q: seq<Slot>, l: nat, h: seq<Input>)
    requires s.mac.Widths() && FrameAt(s, k, q, l, h)
    ensures var m := LEAD + DataCycles(l) - |h|;
      var r, next := Cycles(s, m), Watching(s, k, m);
      && next.frames == k.frames && Sending(r.mac, next, Sent(q, DataCycles(l)))
      && RegisterAt(r, q, LEAD + DataCycles(l)) && r.mac.sm == SendCrc && r.mac.ctr == 0
    decreases LEAD + DataCycles(l) - |h|
  {
    hide Sending, Watch, RegisterAt, InFrame, LastSeen, Next, Sent, FirstLast;
    var r, g := Next(s), h + [Lines(s)];
    var next := Watch(k, r.mac.txen, r.mac.txd);
    FrameGoesOn(s, k, q, l, h);
    if |g| < LEAD + DataCycles(l) {
      DataRuns(r, next, q, l, g);
    } else {
      assert Cycles(r, 0) == r && Watching(r, next, 0) == next;
    }
  }

  /** The register rests, or there is nothing left for it. */
  lemma ClosingGoesOn(s: Path, k: Sink, data: seq<Octet>)
    requires Sending(s.mac, k, data) && (s.mac.sm == SendCrc || s.mac.sm == Ipg)
    requires s.full || s.left == []
    ensures var r := Next(s);
      var next := Watch(k, r.mac.txen, r.mac.txd);
      && (r.full <==> s.full) && r.held == s.held && r.left == s.left && Done(s.mac) < TAIL
      && Sending(r.mac, next, data)
      && next.frames == k.frames + (if Done(s.mac) == FCS_CYCLES then [Frame(data)] else [])
      && if Done(s.mac) == TAIL - 1 then r.mac.sm == WaitValid
         else (r.mac.sm == SendCrc || r.mac.sm == Ipg) && Done(r.mac) == Done(s.mac) + 1
  {
    hide Sending, Watch, Step, Frame, Done;
    SendingFacts(s.mac, k, data);
    StepSends(s.mac, k, Lines(s), data);
    ClosingStep(s.mac, k, Lines(s), data);
  }

  lemma {:induction false} TailRuns(s: Path, k: Sink, data: seq<Octet>)
    requires Sending(s.mac, k, data) && (s.mac.sm == SendCrc || s.mac.sm == Ipg) && Done(s.mac) < TAIL
    requires s.full || s.left == []
    ensures var m := TAIL - Done(s.mac);
      var r, next := Cycles(s, m), Watching(s, k, m);
      && r.full == s.full && r.held == s.held && r.left == s.left
      && r.mac.sm == WaitValid && Sending(r.mac, next, [])
      && next.frames == k.frames + (if Done(s.mac) <= FCS_CYCLES then [Frame(data)] else [])
    decreases TAIL - Done(s.mac)
  {
    hide Sending, Watch, Step, Frame, Done, Next;
    SendingFacts(s.mac, k, data);
    ClosingGoesOn(s, k, data);
    var r := Next(s);
    var next := Watch(k, r.mac.txen, r.mac.txd);
    SendingFacts(r.mac, next, data);
    if Done(s.mac) == TAIL - 1 {
      assert Cycles(r, 0) == r && Watching(r, next, 0) == next;
    } else {
      TailRuns(r, next, data);
    }
  }

  /** Cycles from the one in which valid is seen to the next in which it is looked at. */
  function FrameTime(l: nat): nat { 1 + LEAD + DataCycles(l) + TAIL }

  lemma FrameStarts(s: Path, k: Sink, l: nat)
    requires s.mac.Widths() && s.mac.sm == WaitValid && Sending(s.mac, k, [])
    requires s.left != []
    ensures var r := Next(s);
      var next := Watch(k, r.mac.txen, r.mac.txd);
      && next.frames == k.frames && Sending(r.mac, next, []) && InFrame(r.mac, []) && RegisterAt(r, Stream(s), 0)
      && (FirstLast(Stream(s), l) ==> FrameAt(r, next, Stream(s), l, []))
  {
    hide Crc32, Fcs, BitReverse8, CrcOf, GoodFrame, FrameAccepted, Frame, FirstLast;
    StepSends(s.mac, k, Lines(s), []);
  }

  lemma RegisterIsRest(s: Path, q: seq<Slot>, n: nat)
    requires RegisterAt(s, q, LEAD + n)
    ensures Stream(s) == q[Min(n, |q|)..] && (s.full || s.left == [])
  {
  }

  /** One frame, whatever the stream holds: its data are the next bytes of the stream in order, 64 or more
      of them and until the last word has been taken into the register, the last byte repeated if the stream
      runs out; and none of the bytes after them is lost. */
  lemma OneFrame(s: Path, k: Sink, l: nat)
    requires s.mac.Widths() && s.mac.sm == WaitValid && Sending(s.mac, k, [])
    requires s.left != [] && FirstLast(Stream(s), l)
    ensures var q, r, next := Stream(s), Cycles(s, FrameTime(l)), Watching(s, k, FrameTime(l));
      && next.frames == k.frames + [Frame(Sent(q, DataCycles(l)))]
      && Stream(r) == q[Min(DataCycles(l), |q|)..]
      && r.mac.sm == WaitValid && Sending(r.mac, next, [])
  {
    hide Sending, Watch, Step, Frame, Sent, FirstLast, Next, Stream, FrameAt, RegisterAt, Cycles, Watching, DataCycles;
    var q, n := Stream(s), DataCycles(l);
    FrameStarts(s, k, l);
    OneCycle(s, k);
    var s1, k1 := Cycles(s, 1), Watching(s, k, 1);
    FrameAtStarts(s1, k1, q, l);
    DataRuns(s1, k1, q, l, []);
    CyclesSplit(s, k, 1, LEAD + n);
    var s2, k2 := Cycles(s, 1 + LEAD + n), Watching(s, k, 1 + LEAD + n);
    RegisterIsRest(s2, q, n);
    TailRuns(s2, k2, Sent(q, n));
    CyclesSplit(s, k, 1 + LEAD + n, TAIL);
    SameStream(s2, Cycles(s2, TAIL));
  }

  lemma OneCycle(s: Path, k: Sink)
    requires s.mac.Widths()
    ensures Cycles(s, 1) == Next(s)
    ensures Watching(s, k, 1) == Watch(k, Next(s).mac.txen, Next(s).mac.txd)
  {
    var r := Next(s);
    var next := Watch(k, r.mac.txen, r.mac.txd);
    assert Cycles(r, 0) == r && Watching(r, next, 0) == next;
  }

  lemma FrameAtStarts(s: Path, k: Sink, q: seq<Slot>, l: nat)
    requires FrameAt(s, k, q, l, [])
    ensures s.mac.Widths() && q != []
  {
  }

  lemma SameStream(s: Path, r: Path)
    requires s.full == r.full && s.held == r.held && s.left == r.left
    ensures Stream(s) == Stream(r)
  {
  }

  /** Without another last word the frame does not end. */
  lemma {:induction false} NeverEnds(s: Path, k: Sink, q: seq<Slot>, h: seq<Input>, m: nat)
    requires s.mac.Widths() && Sending(s.mac, k, DataOf(h)) && InFrame(s.mac, h) && RegisterAt(s, q, |h|)
    requires !LastSeen(h) && forall i :: 1 <= i < |q| ==> !q[i].last
    ensures Watching(s, k, m).frames == k.frames
    decreases m
  {
    hide Sending, Watch, Step, RegisterAt, LastSeen, NotEnded, Next, Lines;
    if m > 0 {
      var x, r, g := Lines(s), Next(s), h + [Lines(s)];
      NextMac(s);
      StepSends(s.mac, k, x, DataOf(h));
      FrameStep(s.mac, k, h, x);
      LastIsNotTaken(s, q, |h|);
      LastSeenGrows(h, x);
      NotEndedGrows(h, x);
      NeverEnds(r, Watch(k, r.mac.txen, r.mac.txd), q, g, m - 1);
    }
  }

  lemma LastIsNotTaken(s: Path, q: seq<Slot>, c: nat)
    requires s.mac.Widths() && RegisterAt(s, q, c) && (s.mac.sm == Data <==> c >= LEAD)
    requires forall i :: 1 <= i < |q| ==> !q[i].last
    ensures !Lines(s).lastTaken && RegisterAt(Next(s), q, c + 1)
  {
    hide Step;
  }

  // ---------- What that means for packets ----------

  function Slots(packet: seq<Octet>): (q: seq<Slot>)
    ensures |q| == |packet|
  {
    seq(|packet|, k requires 0 <= k < |packet| => Slot(packet[k], k == |packet| - 1))
  }

  /** Ready for the first packet. */
  ghost predicate Fresh(s: Path) {
    s.mac.Widths() && s.mac.sm == WaitValid && !s.full
  }

  const NO_FRAMES := Sink([], 0, true, [])

  lemma FrameLength(data: seq<Octet>)
    ensures |Frame(data)| == |data| + 12
  {
    hide Crc32, Fcs, CrcOf;
  }

  lemma PacketFirst(packet: seq<Octet>, more: seq<Slot>)
    requires packet != []
    ensures var q := Slots(packet) + more;
      && (|packet| >= 2 ==> FirstLast(q, |packet| - 1))
      && Sent(q, |packet| - 1) == packet[..|packet| - 1]
      && q[|packet| - 1..] == [Slot(packet[|packet| - 1], true)] + more
  {
    var q := Slots(packet) + more;
    assert forall i :: 0 <= i < |packet| ==> q[i] == Slots(packet)[i];
    assert q[|packet|..] == more;
  }

  /** A word left over before a packet. */
  lemma PacketSecond(w: Slot, packet: seq<Octet>)
    requires packet != []
    ensures FirstLast([w] + Slots(packet), |packet|)
  {
    var q := [w] + Slots(packet);
    assert forall i :: 1 <= i < |q| ==> q[i] == Slots(packet)[i - 1];
  }

  /** A packet alone on the stream: the frame it makes carries all its bytes if and only if it has at least
      two and at most 64. */
  lemma PacketIsCarriedIff(s: Path, packet: seq<Octet>)
    requires Fresh(s) && packet != [] && s.left == Slots(packet)
    ensures (exists pad :: Watching(s, NO_FRAMES, FrameTime(|packet| - 1)).frames == [Frame(packet + pad)])
       <==> 2 <= |packet| <= 64
  {
    hide Watching, Step, Next, Frame, Fresh, Slots, FirstLast, Sending, Cycles;
    var q, l := Slots(packet), |packet| - 1;
    FreshSends(s);
    if l == 0 {
      OneByteNeverEnds(s, FrameTime(0) - 1);
    } else {
      assert q + [] == q;
      PacketFirst(packet, []);
      OneFrame(s, NO_FRAMES, l);
      Carries(packet);
      var sent, frames := Sent(q, DataCycles(l)), Watching(s, NO_FRAMES, FrameTime(l)).frames;
      assert frames == [Frame(sent)];
      forall pad
        ensures frames == [Frame(packet + pad)] <==> Frame(sent) == Frame(packet + pad)
      {
        assert frames == [Frame(packet + pad)] ==> frames[0] == Frame(packet + pad);
      }
    }
  }

  lemma Carries(packet: seq<Octet>)
    requires |packet| >= 2
    ensures var sent := Sent(Slots(packet), DataCycles(|packet| - 1));
      (exists pad :: Frame(sent) == Frame(packet + pad)) <==> |packet| <= 64
  {
    hide Frame;
    var sent := Sent(Slots(packet), DataCycles(|packet| - 1));
    FrameLength(sent);
    if |packet| <= 64 {
      assert sent == packet + sent[|packet|..];
    } else {
      forall pad
        ensures Frame(sent) != Frame(packet + pad)
      {
        FrameLength(packet + pad);
      }
    }
  }

  lemma FreshSends(s: Path)
    requires Fresh(s)
    ensures s.mac.Widths() && s.mac.sm == WaitValid && Sending(s.mac, NO_FRAMES, []) && Stream(s) == s.left
  {
  }

  lemma OneByteNeverEnds(s: Path, m: nat)
    requires Fresh(s) && |s.left| == 1
    ensures Watching(s, NO_FRAMES, 1 + m).frames == []
  {
    hide Watching, Next, Watch, Step, Sending, RegisterAt, InFrame;
    FreshSends(s);
    FrameStarts(s, NO_FRAMES, 1);
    OneCycle(s, NO_FRAMES);
    CyclesSplit(s, NO_FRAMES, 1, m);
    assert DataOf([]) == [];
    NothingSeen(Next(s).mac);
    NeverEnds(Next(s), Watching(s, NO_FRAMES, 1), Stream(s), [], m);
  }

  lemma NothingSeen(mac: Mac)
    requires InFrame(mac, [])
    ensures !LastSeen([])
  {
  }

  /** The last byte of a longer packet, if another one follows: it is not in the frame of its own packet but
      the first of the next one. */
  lemma LastByteComesLate(s: Path, packet: seq<Octet>, after: seq<Octet>)
    requires Fresh(s) && |packet| > 64 && after != [] && s.left == Slots(packet) + Slots(after)
    ensures var m, n := FrameTime(|packet| - 1), DataCycles(|after|);
      var late := Slot(packet[|packet| - 1], true);
      Watching(s, NO_FRAMES, m + FrameTime(|after|)).frames
      == [Frame(packet[..|packet| - 1]), Frame(Sent([late] + Slots(after), n))]
  {
    hide Watching, Step, Next, Frame, Cycles, Sending, Fresh, FirstLast, Slots, Sent, Stream;
    var l, m, late := |packet| - 1, FrameTime(|packet| - 1), Slot(packet[|packet| - 1], true);
    FreshSends(s);
    PacketFirst(packet, Slots(after));
    OneFrame(s, NO_FRAMES, l);
    PacketSecond(late, after);
    var r, k := Cycles(s, m), Watching(s, NO_FRAMES, m);
    MoreToCome(r, late, Slots(after));
    SendingFacts(r.mac, k, []);
    OneFrame(r, k, |after|);
    CyclesSplit(s, NO_FRAMES, m, FrameTime(|after|));
  }

  lemma MoreToCome(s: Path, w: Slot, more: seq<Slot>)
    requires Stream(s) == [w] + more && more != []
    ensures s.left != []
  {
  }

  /** A short packet right behind another: what should pad the first frame is the second packet, which gets
      no frame of its own. */
  lemma NextPacketPads(s: Path, packet: seq<Octet>, after: seq<Octet>)
    requires Fresh(s) && |packet| >= 2 && after != [] && |packet| + |after| <= 64
    requires s.left == Slots(packet) + Slots(after)
    ensures var m := FrameTime(|packet| - 1);
      && (exists pad :: Watching(s, NO_FRAMES, m).frames == [Frame(packet + after + pad)])
      && Stream(Cycles(s, m)) == []
  {
    hide Watching, Step, Next, Frame, Cycles, Sending, Fresh, FirstLast, Stream;
    var l, q := |packet| - 1, s.left;
    FreshSends(s);
    PacketFirst(packet, Slots(after));
    OneFrame(s, NO_FRAMES, l);
    var sent := Sent(q, 64);
    assert sent == packet + after + sent[|q|..];
  }

  // ---------- The hardware ----------

  class TxPath {
    const mac: GmiiTx
    var narrowRegTvalid: bool
    var narrowReg: Slot

    ghost predicate Valid()
      reads mac
    {
      mac.Valid()
    }

    /** With the words the source has still to give. */
    function View(left: seq<Slot>): Path
      reads this, mac
    {
      Path(mac.View(), narrowRegTvalid, narrowReg, left)
    }

    constructor ()
      ensures Valid() && fresh(mac) && forall left :: Fresh(View(left))
    {
      mac := new GmiiTx();
      narrowRegTvalid, narrowReg := false, Slot(X55, false);
    }

    /** A cycle in which the source offers the first of `left`, or nothing if there is none. */
    method Clock(left: seq<Slot>) returns (iTready: bool)
      requires Valid()
      modifies this, mac
      ensures Valid()
      ensures iTready == ITready(old(View(left)))
      ensures View(if iTready && left != [] then left[1..] else left) == Next(old(View(left)))
    {
      hide Step;
      var taken := mac.state == Data;
      iTready := !narrowRegTvalid || taken;
      mac.Clock(Input(left != [], iTready && left != [] && left[0].last, narrowReg.b));
      if iTready && left != [] {
        narrowRegTvalid, narrowReg := true, left[0];
      } else if taken {
        narrowRegTvalid := false;
      }
    }
  }
}
