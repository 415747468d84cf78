/** synth/network/gmii_tx_mac.sv: the transmit state machine, watched by the checks that
    sim/network/GMIISink.cpp makes on the wire. The stream side is free: whatever the width converter
    in front of it does, the machine only emits well-formed frames. */
module GmiiTxMac {
  import opened Crc

  datatype Sm = WaitValid | Preamble | Sfd | Data | SendCrc | Ipg

  datatype Mac = Mac(
    sm: Sm,
    ctr: nat,            // six bits
    lengthOk: bool,
    lastByteSent: bool,
    crc: seq<bool>,
    txen: bool,
    txd: Octet)
  {
    predicate Widths() { ctr < 64 && |crc| == 32 }
  }

  /** The stream side in one cycle: axis_i_tvalid, axis_i_tready && axis_i_tlast, and the byte at
      the output of the narrow register. */
  datatype Input = Input(iTvalid: bool, lastTaken: bool, narrow: Octet)

  const X55: Octet := [true, false, true, false, true, false, true, false]
  const XD5: Octet := [true, false, true, false, true, false, true, true]

  lemma Constants()
    ensures ByteValue(X55) == 0x55 && ByteValue(XD5) == 0xD5
  {
  }

  function NextSm(s: Mac, x: Input): Sm {
    match s.sm
    case WaitValid => if x.iTvalid then Preamble else WaitValid
    case Preamble => if s.ctr % 8 == 6 then Sfd else Preamble
    case Sfd => Data
    case Data => if s.lengthOk && (s.lastByteSent || x.lastTaken) then SendCrc else Data
    case SendCrc => if s.ctr % 4 == 3 then Ipg else SendCrc
    case Ipg => if s.ctr % 16 == 10 then WaitValid else Ipg
  }

  function Step(s: Mac, x: Input): (r: Mac)
    requires s.Widths()
    ensures r.Widths()
  {
    var next := NextSm(s, x);
    Mac(
      next,
      if next != s.sm then 0 else (s.ctr + 1) % 64,
      s.sm != WaitValid && (s.lengthOk || s.ctr / 2 == 31),
      s.sm != WaitValid && (s.lastByteSent || x.lastTaken),
      match s.sm
      case WaitValid => Ones(32)
      case Data => Crc32(s.crc, BitReverse8(x.narrow))
      case _ => s.crc,
      s.sm != WaitValid && s.sm != Ipg,
      match s.sm
      case Preamble => X55
      case Sfd => XD5
      case Data => x.narrow
      case SendCrc => Fcs(s.crc)[s.ctr % 4]
      case _ => s.txd)
  }

  // ---------- The sink's checks ----------

  /** `packet` is what was received since the line went busy, `gap` counts down after a packet. */
  datatype Sink = Sink(packet: seq<Octet>, gap: nat, accepted: bool, frames: seq<seq<Octet>>)

  function Leading55(packet: seq<Octet>): (n: nat)
    ensures n <= |packet|
  {
    if packet != [] && packet[0] == X55 then 1 + Leading55(packet[1..]) else 0
  }

  /** Seven bytes of preamble or more, the frame delimiter, at least 64 bytes, the last four of which
      are the check sequence of the others. */
  predicate FrameAccepted(packet: seq<Octet>) {
    var n := Leading55(packet);
    && n >= 7
    && n < |packet| && packet[n] == XD5
    && var body := packet[n + 1..];
       && |body| >= 64
       && Wire(body[|body| - 4..]) == CheckSequence(Wire(body[..|body| - 4]))
  }

  function Watch(k: Sink, txen: bool, txd: Octet): Sink {
    var gap := if k.gap > 0 then k.gap - 1 else 0;
    if txen then Sink(k.packet + [txd], gap, k.accepted && gap == 0, k.frames)
    else if k.packet != [] then Sink([], 12, k.accepted && FrameAccepted(k.packet), k.frames + [k.packet])
    else k.(gap := gap)
  }

  // ---------- Every run ----------

  function Preambles(n: nat): seq<Octet> { seq(n, _ => X55) }

  function Header(): (h: seq<Octet>)
    ensures |h| == 8
  {
    Preambles(7) + [XD5]
  }

  /** A frame carrying exactly `data`. */
  function Frame(data: seq<Octet>): seq<Octet> {
    Header() + data + Fcs(CrcOf(Ones(32), data))
  }

  ghost predicate GoodFrame(packet: seq<Octet>) {
    exists data: seq<Octet> :: |data| >= 64 && packet == Frame(data)
  }

  lemma GoodFrameAccepted(data: seq<Octet>)
    requires |data| >= 64
    ensures FrameAccepted(Frame(data))
  {
    var packet, fcs := Frame(data), Fcs(CrcOf(Ones(32), data));
    assert packet == Preambles(7) + ([XD5] + data + fcs);
    LeadingPreambles(7, [XD5] + data + fcs);
    var body := packet[8..];
    assert body == data + fcs;
    assert body[|body| - 4..] == fcs && body[..|body| - 4] == data;
    FcsIsCheckSequence(data);
  }

  lemma {:induction false} LeadingPreambles(n: nat, rest: seq<Octet>)
    requires rest != [] && rest[0] != X55
    ensures Leading55(Preambles(n) + rest) == n
  {
    var p := Preambles(n) + rest;
    if n > 0 {
      assert p[1..] == Preambles(n - 1) + rest;
      LeadingPreambles(n - 1, rest);
    } else {
      assert p == rest;
    }
  }

  /** What has been sent of the current frame, state by state; `data` are the bytes sent since the
      frame delimiter. */
  ghost predicate Sending(s: Mac, k: Sink, data: seq<Octet>) {
    && s.Widths() && k.accepted
    && (forall i :: 0 <= i < |k.frames| ==> GoodFrame(k.frames[i]))
    && match s.sm
       case WaitValid => k.packet == [] && k.gap <= 2
       case Preamble => k.packet == Preambles(s.ctr) && s.ctr <= 6 && !s.lengthOk && s.crc == Ones(32)
                        && (if s.ctr == 0 then k.gap <= 1 else k.gap == 0)
       case Sfd => k.packet == Preambles(7) && s.ctr == 0 && !s.lengthOk && s.crc == Ones(32) && k.gap == 0
       case Data => k.packet == Header() + data && s.ctr == |data| % 64 && s.crc == CrcOf(Ones(32), data)
                    && (s.lengthOk ==> |data| >= 63) && k.gap == 0
       case SendCrc => s.ctr <= 3 && k.packet == Header() + data + Fcs(s.crc)[..s.ctr]
                       && s.crc == CrcOf(Ones(32), data) && |data| >= 64 && k.gap == 0
       case Ipg => s.ctr <= 10
                   && if s.ctr == 0 then k.packet == Frame(data) && |data| >= 64 && k.gap == 0
                      else k.packet == [] && k.gap == 13 - s.ctr
  }

  function DataNext(s: Mac, x: Input, data: seq<Octet>): seq<Octet> {
    if s.sm == Sfd then [] else if s.sm == Data then data + [x.narrow] else data
  }

  lemma PreambleSends(s: Mac, k: Sink, x: Input, data: seq<Octet>)
    requires Sending(s, k, data) && (s.sm == WaitValid || s.sm == Preamble || s.sm == Sfd)
    ensures var r := Step(s, x);
      Sending(r, Watch(k, r.txen, r.txd), DataNext(s, x, data))
  {
    hide Crc32, Fcs, FrameAccepted;
    assert Preambles(s.ctr) + [X55] == Preambles(s.ctr + 1);
    assert Header() + [] == Header();
  }

  lemma DataSends(s: Mac, k: Sink, x: Input, data: seq<Octet>)
    requires Sending(s, k, data) && s.sm == Data
    ensures var r := Step(s, x);
      Sending(r, Watch(k, r.txen, r.txd), DataNext(s, x, data))
  {
    hide Crc32, Fcs, FrameAccepted, BitReverse8;
    var next := data + [x.narrow];
    assert next[..|next| - 1] == data;
    assert Header() + data + [x.narrow] == Header() + next;
    assert Header() + next + Fcs(Step(s, x).crc)[..0] == Header() + next;
  }

  lemma CrcSends(s: Mac, k: Sink, x: Input, data: seq<Octet>)
    requires Sending(s, k, data) && s.sm == SendCrc
    ensures var r := Step(s, x);
      Sending(r, Watch(k, r.txen, r.txd), DataNext(s, x, data))
  {
    hide Crc32, Fcs, CrcOf, FrameAccepted;
    var f := Fcs(s.crc);
    assert Header() + data + f[..s.ctr] + [f[s.ctr]] == Header() + data + f[..s.ctr + 1];
    assert f[..4] == f;
  }

  lemma GapSends(s: Mac, k: Sink, x: Input, data: seq<Octet>)
    requires Sending(s, k, data) && s.sm == Ipg
    ensures var r := Step(s, x);
      Sending(r, Watch(k, r.txen, r.txd), DataNext(s, x, data))
  {
    hide Crc32, Fcs, CrcOf, FrameAccepted;
    if s.ctr == 0 {
      GoodFrameAccepted(data);
    }
  }

  lemma StepSends(s: Mac, k: Sink, x: Input, data: seq<Octet>)
    requires Sending(s, k, data)
    ensures var r := Step(s, x);
      Sending(r, Watch(k, r.txen, r.txd), DataNext(s, x, data))
  {
    hide *;
    match s.sm
    case WaitValid => PreambleSends(s, k, x, data);
    case Preamble => PreambleSends(s, k, x, data);
    case Sfd => PreambleSends(s, k, x, data);
    case Data => DataSends(s, k, x, data);
    case SendCrc => CrcSends(s, k, x, data);
    case Ipg => GapSends(s, k, x, data);
  }

  function Run(s: Mac, xs: seq<Input>): (r: Mac)
    requires s.Widths()
    ensures r.Widths()
    decreases |xs|
  {
    if xs == [] then s else Run(Step(s, xs[0]), xs[1..])
  }

  /** What the sink has seen after the run. */
  function Watched(s: Mac, k: Sink, xs: seq<Input>): Sink
    requires s.Widths()
    decreases |xs|
  {
    if xs == [] then k else
      var r := Step(s, xs[0]);
      Watched(r, Watch(k, r.txen, r.txd), xs[1..])
  }

  lemma {:induction false} RunSends(s: Mac, k: Sink, xs: seq<Input>, data: seq<Octet>)
    requires Sending(s, k, data)
    ensures exists d :: Sending(Run(s, xs), Watched(s, k, xs), d)
    decreases |xs|
  {
    if xs != [] {
      var r := Step(s, xs[0]);
      StepSends(s, k, xs[0], data);
      RunSends(r, Watch(k, r.txen, r.txd), xs[1..], DataNext(s, xs[0], data));
      var d :| Sending(Run(r, xs[1..]), Watched(r, Watch(k, r.txen, r.txd), xs[1..]), d);
      assert Sending(Run(s, xs), Watched(s, k, xs), d);
    } else {
      assert Sending(Run(s, xs), Watched(s, k, xs), data);
    }
  }

  // ---------- Which bytes each frame carries ----------

  predicate LastSeen(h: seq<Input>) {
    exists k :: 0 <= k < |h| && h[k].lastTaken
  }

  function Bytes(h: seq<Input>): (bytes: seq<Octet>)
    ensures |bytes| == |h|
  {
    seq(|h|, k requires 0 <= k < |h| => h[k].narrow)
  }

  /** Cycles of preamble and delimiter, and with the fewest data. */
  const LEAD := 8
  const SHORTEST := 72

  /** Check sequence and gap. */
  const FCS_CYCLES := 4
  const TAIL := 15

  /** Of the cycles since a frame began: where its data ends, at the first data cycle from number n on in
      or before which the last word was taken. */
  function DataEnd(h: seq<Input>, n: nat): (e: nat)
    requires n <= |h| + 1
    ensures n <= e <= |h| + 1
    ensures e <= |h| ==> LastSeen(h[..e])
    ensures forall m :: n <= m < e && m <= |h| ==> !LastSeen(h[..m])
    decreases |h| - n
  {
    if n > |h| || LastSeen(h[..n]) then n else DataEnd(h, n + 1)
  }

  /** The frames completed, on the lines of the stream alone. A frame begins when valid is seen, and then
      nothing is looked at until its gap is over but whether the last word is taken. A frame is complete one
      cycle after its check sequence, when the line falls. */
  function Framed(xs: seq<Input>): seq<seq<Octet>>
    decreases |xs|
  {
    if xs == [] then []
    else if xs[0].iTvalid then Begun(xs[1..])
    else Framed(xs[1..])
  }

  /** The same from the first cycle of a frame. */
  function Begun(h: seq<Input>): seq<seq<Octet>>
    decreases |h|
  {
    var e := if |h| < SHORTEST then |h| + 1 else DataEnd(h, SHORTEST);
    if e + FCS_CYCLES + 1 > |h| then []
    else [Frame(Bytes(h[LEAD..e]))] + (if e + TAIL > |h| then [] else Framed(h[e + TAIL..]))
  }

  predicate NotEnded(h: seq<Input>) {
    forall m :: SHORTEST <= m <= |h| ==> !LastSeen(h[..m])
  }

  /** `h` are the cycles since the frame began, its data not over yet. */
  ghost predicate InFrame(s: Mac, h: seq<Input>) {
    && s.lastByteSent == LastSeen(h) && NotEnded(h)
    && match s.sm
       case Preamble => |h| == s.ctr <= 6
       case Sfd => |h| == 7
       case Data => |h| >= LEAD && (s.lengthOk <==> |h| >= SHORTEST - 1)
       case _ => false
  }

  function DataOf(h: seq<Input>): seq<Octet> {
    if |h| < LEAD then [] else Bytes(h[LEAD..])
  }

  lemma LastSeenGrows(h: seq<Input>, x: Input)
    ensures LastSeen(h + [x]) <==> LastSeen(h) || x.lastTaken
  {
    if LastSeen(h) {
      var k :| 0 <= k < |h| && h[k].lastTaken;
      assert (h + [x])[k].lastTaken;
    }
    assert (h + [x])[|h|] == x;
  }

  lemma NotEndedGrows(h: seq<Input>, x: Input)
    ensures NotEnded(h + [x]) <==> NotEnded(h) && (|h| + 1 >= SHORTEST ==> !LastSeen(h + [x]))
  {
    var g := h + [x];
    assert g[..|g|] == g;
    assert forall m :: 0 <= m <= |h| ==> g[..m] == h[..m];
  }

  lemma DataGrows(h: seq<Input>, x: Input)
    requires |h| >= LEAD
    ensures DataOf(h + [x]) == DataOf(h) + [x.narrow]
  {
    assert (h + [x])[LEAD..] == h[LEAD..] + [x];
  }

  /** One cycle of a frame: it goes on, or its data ends with this one. */
  lemma FrameStep(s: Mac, k: Sink, h: seq<Input>, x: Input)
    requires Sending(s, k, DataOf(h)) && InFrame(s, h)
    ensures var r, g := Step(s, x), h + [x];
      && DataOf(g) == DataNext(s, x, DataOf(h))
      && Watch(k, r.txen, r.txd).frames == k.frames
      && if NotEnded(g) then InFrame(r, g)
         else r.sm == SendCrc && r.ctr == 0 && |g| >= SHORTEST && LastSeen(g)
  {
    hide Crc32, Fcs, BitReverse8, LastSeen, NotEnded, Bytes, CrcOf, Header, Preambles, GoodFrame, FrameAccepted;
    LastSeenGrows(h, x);
    NotEndedGrows(h, x);
    if s.sm == Data {
      DataGrows(h, x);
    } else {
      assert |h| == 7 ==> (h + [x])[LEAD..] == [];
    }
  }

  /** The frame's data ends where it says. */
  lemma EndIs(g: seq<Input>, e: nat)
    requires SHORTEST <= e <= |g| && LastSeen(g[..e])
    requires forall m :: SHORTEST <= m < e ==> !LastSeen(g[..m])
    ensures DataEnd(g, SHORTEST) == e
  {
  }

  /** What a frame leads to whose data has ended `done` cycles ago. */
  function Closed(data: seq<Octet>, done: nat, xs: seq<Input>): seq<seq<Octet>> {
    (if done > FCS_CYCLES || done + |xs| <= FCS_CYCLES then [] else [Frame(data)])
    + (if done + |xs| < TAIL || done > TAIL then [] else Framed(xs[TAIL - done..]))
  }

  /** Cycles since the data ended. */
  function Done(s: Mac): nat {
    if s.sm == SendCrc then s.ctr else FCS_CYCLES + s.ctr
  }

  lemma ClosingStep(s: Mac, k: Sink, x: Input, data: seq<Octet>)
    requires Sending(s, k, data) && (s.sm == SendCrc || s.sm == Ipg)
    ensures var r := Step(s, x);
      && Done(s) < TAIL
      && Watch(k, r.txen, r.txd).frames == k.frames + (if Done(s) == FCS_CYCLES then [Frame(data)] else [])
      && if Done(s) == TAIL - 1 then r.sm == WaitValid else (r.sm == SendCrc || r.sm == Ipg) && Done(r) == Done(s) + 1
  {
    hide Crc32, Fcs, CrcOf, FrameAccepted;
  }

  lemma SendingFacts(s: Mac, k: Sink, data: seq<Octet>)
    requires Sending(s, k, data)
    ensures s.Widths() && (s.sm == WaitValid ==> Sending(s, k, []))
  {
  }

  lemma {:induction false} WaitRuns(s: Mac, k: Sink, xs: seq<Input>)
    requires Sending(s, k, []) && s.sm == WaitValid
    ensures Watched(s, k, xs).frames == k.frames + Framed(xs)
    decreases |xs|, 1
  {
    if xs != [] {
      var r := Step(s, xs[0]);
      StepSends(s, k, xs[0], []);
      if xs[0].iTvalid {
        FrameRuns(r, Watch(k, r.txen, r.txd), [], xs[1..]);
        assert [] + xs[1..] == xs[1..];
      } else {
        WaitRuns(r, Watch(k, r.txen, r.txd), xs[1..]);
      }
    }
  }

  lemma {:induction false} FrameRuns(s: Mac, k: Sink, h: seq<Input>, xs: seq<Input>)
    requires Sending(s, k, DataOf(h)) && InFrame(s, h)
    ensures Watched(s, k, xs).frames == k.frames + Begun(h + xs)
    decreases |xs|, 0
  {
    hide Step, Sending, InFrame, Watch, Framed, DataNext;
    SendingFacts(s, k, DataOf(h));
    InFrameFacts(s, h);
    if xs == [] {
      assert h + xs == h;
    } else {
      var x, r, g := xs[0], Step(s, xs[0]), h + [xs[0]];
      var next := Watch(k, r.txen, r.txd);
      StepSends(s, k, x, DataOf(h));
      FrameStep(s, k, h, x);
      assert g + xs[1..] == h + xs;
      if NotEnded(g) {
        FrameRuns(r, next, g, xs[1..]);
      } else {
        ClosingRuns(r, next, DataOf(g), xs[1..]);
        BegunEnds(h, x, xs[1..]);
      }
    }
  }

  lemma InFrameFacts(s: Mac, h: seq<Input>)
    requires InFrame(s, h)
    ensures NotEnded(h) && Begun(h) == []
  {
    hide LastSeen;
    assert h[..|h|] == h;
  }

  lemma BegunEnds(h: seq<Input>, x: Input, rest: seq<Input>)
    requires NotEnded(h) && |h| + 1 >= SHORTEST && LastSeen(h + [x])
    ensures Begun(h + [x] + rest) == Closed(DataOf(h + [x]), 0, rest)
  {
    hide LastSeen, Framed, Frame;
    var g, whole := h + [x], h + [x] + rest;
    var e := |g|;
    assert forall m :: 0 <= m <= |h| ==> whole[..m] == h[..m];
    assert whole[..e] == g;
    EndIs(whole, e);
    assert whole[LEAD..e] == g[LEAD..];
    if e + TAIL <= |whole| {
      assert whole[e + TAIL..] == rest[TAIL..];
    }
  }

  lemma {:induction false} ClosingRuns(s: Mac, k: Sink, data: seq<Octet>, xs: seq<Input>)
    requires Sending(s, k, data) && (s.sm == SendCrc || s.sm == Ipg)
    ensures Watched(s, k, xs).frames == k.frames + Closed(data, Done(s), xs)
    decreases |xs|, 0
  {
    hide Step, Sending, Watch, Framed, Frame, Done;
    SendingFacts(s, k, data);
    ClosingStep(s, k, Input(false, false, X55), data);
    if xs != [] {
      var r := Step(s, xs[0]);
      var next := Watch(k, r.txen, r.txd);
      StepSends(s, k, xs[0], data);
      ClosingStep(s, k, xs[0], data);
      if r.sm == WaitValid {
        SendingFacts(r, next, DataNext(s, xs[0], data));
        WaitRuns(r, next, xs[1..]);
      } else {
        ClosingRuns(r, next, data, xs[1..]);
      }
    }
  }

  /** From power-up, whatever the other registers hold and whatever the stream does: the sink raises no
      objection, and the frames completed are those the stream's lines lead to, each of them seven bytes of
      preamble, the delimiter, its data, and the check sequence of exactly those bytes. */
  lemma EveryFrameIsGood(s: Mac, xs: seq<Input>)
    requires s.Widths() && s.sm == WaitValid
    ensures var k := Watched(s, Sink([], 0, true, []), xs);
      && k.accepted && k.frames == Framed(xs)
      && forall i :: 0 <= i < |k.frames| ==> GoodFrame(k.frames[i])
  {
    RunSends(s, Sink([], 0, true, []), xs, []);
    WaitRuns(s, Sink([], 0, true, []), xs);
  }

  // ---------- The hardware ----------

  class GmiiTx {
    var state: Sm
    var ctr: nat
    var lengthOk: bool
    var lastByteSent: bool
    var crc: seq<bool>
    var ethTxen: bool
    var ethTxd: Octet

    ghost predicate Valid()
      reads this
    {
      ctr < 64 && |crc| == 32
    }

    function View(): Mac
      reads this
    {
      Mac(state, ctr, lengthOk, lastByteSent, crc, ethTxen, ethTxd)
    }

    constructor ()
      ensures Valid() && state == WaitValid
    {
      state, ctr, lengthOk, lastByteSent := WaitValid, 0, false, false;
      crc := Zeros(32);
      ethTxen, ethTxd := false, X55;
    }

    /** The counter starts again in every state. */
    method ClockCounter(nextState: Sm)
      modifies `ctr
      ensures ctr == if nextState != state then 0 else (old(ctr) + 1) % 64
    {
      if nextState != state {
        ctr := 0;
      } else {
        ctr := (ctr + 1) % 64;
      }
    }

    method Clock(x: Input)
      requires Valid()
      modifies this
      ensures Valid()
      ensures View() == Step(old(View()), x)
    {
      hide NextSm, Crc32, Fcs, BitReverse8;
      var nextState, wasCtr := NextSm(View(), x), ctr;
      ethTxen := false;
      ClockCounter(nextState);
      if wasCtr / 2 == 31 {
        lengthOk := true;
      }
      if x.lastTaken {
        lastByteSent := true;
      }
      match state {
        case WaitValid =>
          lengthOk, lastByteSent := false, false;
          crc := Ones(32);
        case Preamble =>
          ethTxen, ethTxd := true, X55;
        case Sfd =>
          ethTxen, ethTxd := true, XD5;
        case Data =>
          ethTxen, ethTxd := true, x.narrow;
          crc := Crc32(crc, BitReverse8(x.narrow));
        case SendCrc =>
          ethTxen, ethTxd := true, Fcs(crc)[wasCtr % 4];
        case Ipg =>
          ethTxen := false;
      }
      state := nextState;
    }
  }
}
