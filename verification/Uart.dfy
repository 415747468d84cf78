/** synth/other/uart_tx.sv and uart_rx.sv on one clock, with the receiver's synchroniser (cdc_sync) between
    them. The sender's bit lasts D cycles, the receiver's C. The proof follows a frame by its age, the
    cycles since the sender accepted it: the sender's counters say which bit is on the line at that age
    (`TxAt`, `Wave`), the receiver's counters are the age less four (`RxAt`), and it samples bit k at the
    age k*C + C/2 + 4; `Compatible` puts that inside the sender's bit k. The sender may begin a frame up
    to two cycles before the receiver has sampled the stop bit of the last, hence the three phases. */
module Uart {
  import opened Axis
  import opened Bits
  import Cdc

  // ---------- Baud counters ----------

  /** CLKS_PER_BIT[$clog2(CLKS_PER_BIT)-1:0] - 1, the count at which a bit ends. For a power of two
      the slice is zero, and no count is ever -1. */
  function Top(c: nat): int
    requires c > 0
  {
    c % Pow2(Clog2(c)) - 1
  }

  predicate PowerOfTwo(c: nat) {
    c == Pow2(Clog2(c))
  }

  function NextBaud(c: nat, baud: nat): nat
    requires c > 0
  {
    if baud == Top(c) then 0 else (baud + 1) % Pow2(Clog2(c))
  }

  /** CLKS_PER_BIT[$clog2(CLKS_PER_BIT):1] */
  function Half(c: nat): nat
    requires c > 0
  {
    c / 2 % Pow2(Clog2(c))
  }

  lemma Fits(v: nat, w: nat)
    requires v < w
    ensures v % w == v
  {
  }

  lemma BaudFacts(c: nat, baud: nat)
    requires c >= 3 && !PowerOfTwo(c) && baud < c
    ensures Half(c) == c / 2 && (baud == Top(c) <==> baud == c - 1)
    ensures NextBaud(c, baud) == if baud == c - 1 then 0 else baud + 1
  {
    var w := Pow2(Clog2(c));
    Pow2Clog2(c);
    Fits(c, w);
    Fits(c / 2, w);
    if baud < c - 1 {
      Fits(baud + 1, w);
    }
  }

  // ---------- The two state machines ----------

  /** A data or bit counter of $clog2(DATA_BITS+2) bits. */
  function NextBit(bits: nat, ctr: nat): nat {
    (ctr + 1) % Pow2(Clog2(bits + 2))
  }

  lemma NextBitFits(bits: nat, ctr: nat)
    requires ctr <= bits
    ensures NextBit(bits, ctr) == ctr + 1
  {
    Pow2Clog2(bits + 2);
    Fits(ctr + 1, Pow2(Clog2(bits + 2)));
  }

  datatype Tx = Tx(sending: bool, baud: nat, ctr: nat, reg: seq<bool>, line: bool) {
    predicate Ok(bits: nat) { |reg| == bits + 2 && (sending ==> ctr <= bits + 1) }
  }

  /** What the sender's user does in a cycle. */
  datatype Input = Input(tvalid: bool, data: seq<bool>, serialReady: bool)

  predicate Accepts(s: Tx, x: Input) { !s.sending && x.serialReady && x.tvalid }

  /** Start bit, data, stop bit, in the order sent. */
  function Frame(data: seq<bool>): seq<bool> { [false] + data + [true] }

  function TxNext(bits: nat, d: nat, s: Tx, x: Input): (r: Tx)
    requires d > 0 && s.Ok(bits) && |x.data| == bits
    ensures r.Ok(bits)
  {
    if !s.sending then
      Tx(Accepts(s, x), 0, 0, Frame(x.data), s.line)
    else
      assert s.ctr <= bits ==> NextBit(bits, s.ctr) == s.ctr + 1 by {
        if s.ctr <= bits { NextBitFits(bits, s.ctr); }
      }
      var rolls := s.baud == Top(d);
      Tx(!(s.ctr == bits + 1 && rolls), NextBaud(d, s.baud), if rolls then NextBit(bits, s.ctr) else s.ctr,
        s.reg, s.reg[s.ctr])
  }

  /** An idle sender starts a frame if and only if a word is offered and the other side is ready for it;
      until then its line does not move. */
  lemma StartsIff(bits: nat, d: nat, s: Tx, x: Input)
    requires d > 0 && s.Ok(bits) && |x.data| == bits && !s.sending
    ensures var r := TxNext(bits, d, s, x);
      && (r.sending <==> x.tvalid && x.serialReady) && r.line == s.line
      && (r.sending ==> r.reg == Frame(x.data) && r.baud == 0 && r.ctr == 0)
  {
  }

  datatype Rx = Rx(capturing: bool, baud: nat, ctr: nat, parallel: seq<bool>, valid: bool)

  function RxNext(bits: nat, c: nat, s: Rx, y: bool): (r: Rx)
    requires c > 0 && |s.parallel| == bits
    ensures |r.parallel| == bits
  {
    if !s.capturing then
      Rx(!y, 0, 0, s.parallel, false)
    else
      var mid := s.baud == Half(c);
      var stop := mid && s.ctr == bits + 1;
      Rx(!stop, NextBaud(c, s.baud), if s.baud == Top(c) then NextBit(bits, s.ctr) else s.ctr,
        if mid && 0 < s.ctr <= bits then s.parallel[s.ctr - 1 := y] else s.parallel,
        stop || s.valid)
  }

  /** Sender, the synchroniser's two flops, receiver. */
  datatype Link = Link(tx: Tx, s0: bool, s1: bool, rx: Rx) {
    predicate Ok(bits: nat) { tx.Ok(bits) && |rx.parallel| == bits }
  }

  function Next(bits: nat, d: nat, c: nat, s: Link, x: Input): (r: Link)
    requires d > 0 && c > 0 && s.Ok(bits) && |x.data| == bits
    ensures r.Ok(bits)
  {
    Link(TxNext(bits, d, s.tx, x), s.tx.line, s.s0, RxNext(bits, c, s.rx, s.s1))
  }

  /** After a reset that lasted two cycles: the line is high, and has reached the receiver. */
  predicate Fresh(bits: nat, s: Link) {
    && s.Ok(bits) && s.tx.line && s.s0 && s.s1
    && !s.tx.sending && !s.rx.capturing && !s.rx.valid
  }

  // ---------- When the two bit lengths agree well enough ----------

  /** The receiver samples bit k in the middle of its own bit, one cycle after it saw the start; that
      must fall inside the sender's bit k, for every bit from the start bit to the stop bit. */
  predicate Compatible(bits: nat, d: nat, c: nat) {
    && c >= 3 && !PowerOfTwo(c) && d >= 3 && !PowerOfTwo(d)
    && forall k :: 0 <= k <= bits + 1 ==> k * d <= k * c + c / 2 + 1 <= (k + 1) * d - 1
  }

  /** Equal bit lengths always do. */
  lemma SameRateIsCompatible(bits: nat, c: nat)
    requires c >= 3 && !PowerOfTwo(c)
    ensures Compatible(bits, c, c)
  {
    forall k | 0 <= k <= bits + 1
      ensures k * c <= k * c + c / 2 + 1 <= (k + 1) * c - 1
    {
      assert (k + 1) * c == k * c + c;
    }
  }

  // ---------- What is in flight ----------

  /** `One`: the receiver is at frame f, which began `age` cycles ago; the sender may still be in it.
      `Two`: the receiver is about to sample the stop bit of the first while the sender has just begun
      the second. */
  datatype Phase = Calm | One(f: seq<bool>, age: nat) | Two(first: seq<bool>, second: seq<bool>)

  predicate IsFrame(bits: nat, f: seq<bool>) {
    |f| == bits + 2 && !f[0] && f[bits + 1]
  }

  function Length(bits: nat, d: nat): nat { (bits + 2) * d }

  /** The receiver's cycle count when it samples the stop bit. */
  function Finish(bits: nat, c: nat): nat { (bits + 1) * c + c / 2 }

  /** The line `age` cycles after a frame was accepted. */
  function Wave(bits: nat, d: nat, f: seq<bool>, age: int): bool
    requires d > 0 && |f| == bits + 2
  {
    if 1 <= age <= Length(bits, d) then
      BitIndex(bits, d, age - 1);
      f[(age - 1) / d]
    else true
  }

  lemma BitIndex(bits: nat, d: nat, i: nat)
    requires d > 0 && i < Length(bits, d)
    ensures i / d < bits + 2
  {
    var q := i / d;
    assert i == q * d + i % d;
    if q >= bits + 2 {
      Monotone(bits + 2, q, d);
      assert false;
    }
  }

  lemma Monotone(a: nat, b: nat, c: nat)
    requires a <= b
    ensures a * c <= b * c
  {
  }

  /** A count is in one place of one bit only. */
  lemma SamePlace(c: nat, k: nat, h: nat, ctr: nat, baud: nat)
    requires h < c && baud < c && k * c + h == ctr * c + baud
    ensures k == ctr && h == baud
  {
    if k < ctr {
      Monotone(k + 1, ctr, c);
      assert false;
    } else if k > ctr {
      Monotone(ctr + 1, k, c);
      assert false;
    }
  }

  /** i lies in bit k. */
  lemma InBit(d: nat, k: nat, i: nat)
    requires d > 0 && k * d <= i < (k + 1) * d
    ensures i / d == k
  {
    assert i == i / d * d + i % d;
    SamePlace(d, k, i - k * d, i / d, i % d);
  }

  lemma WaveIs(bits: nat, d: nat, f: seq<bool>, age: nat, k: nat)
    requires d > 0 && |f| == bits + 2 && k <= bits + 1 && k * d <= age - 1 < (k + 1) * d
    ensures Wave(bits, d, f, age) == f[k]
  {
    InBit(d, k, age - 1);
    Monotone(k + 1, bits + 2, d);
  }

  /** From the stop bit on the line is high. */
  lemma WaveHigh(bits: nat, d: nat, f: seq<bool>, age: int)
    requires d > 0 && IsFrame(bits, f) && (age <= 0 || (bits + 1) * d <= age - 1)
    ensures Wave(bits, d, f, age)
  {
    if 1 <= age <= Length(bits, d) {
      WaveIs(bits, d, f, age, bits + 1);
    }
  }

  predicate TxAt(bits: nat, d: nat, tx: Tx, f: seq<bool>, age: nat) {
    if age < Length(bits, d) then
      tx.sending && tx.reg == f && tx.baud < d && tx.ctr <= bits + 1 && tx.ctr * d + tx.baud == age
    else !tx.sending
  }

  predicate RxAt(bits: nat, c: nat, rx: Rx, f: seq<bool>, age: nat)
    requires |f| == bits + 2 && |rx.parallel| == bits
  {
    if age <= 3 then !rx.capturing
    else
      && rx.capturing && !rx.valid && rx.baud < c && rx.ctr <= bits + 1 && rx.ctr * c + rx.baud == age - 4
      && forall k :: 1 <= k <= bits && k * c + c / 2 < age - 4 ==> rx.parallel[k - 1] == f[k]
  }

  predicate InStop(bits: nat, d: nat, tx: Tx) {
    tx.sending ==> tx.ctr == bits + 1 && tx.baud < d && |tx.reg| == bits + 2 && tx.reg[bits + 1]
  }

  predicate At(bits: nat, d: nat, c: nat, s: Link, ph: Phase)
    requires d > 0
  {
    && s.Ok(bits)
    && match ph
       case Calm =>
         s.tx.line && s.s0 && s.s1 && !s.rx.capturing && InStop(bits, d, s.tx)
       case One(f, age) =>
         && IsFrame(bits, f) && age <= Finish(bits, c) + 4
         && s.tx.line == Wave(bits, d, f, age) && s.s0 == Wave(bits, d, f, age - 1) && s.s1 == Wave(bits, d, f, age - 2)
         && TxAt(bits, d, s.tx, f, age) && RxAt(bits, c, s.rx, f, age)
       case Two(f, g) =>
         && IsFrame(bits, f) && IsFrame(bits, g)
         && s.tx.sending && s.tx.reg == g && s.tx.ctr == 0 && s.tx.baud <= 1
         && s.tx.line == Wave(bits, d, g, s.tx.baud) && s.s0 && s.s1
         && s.rx.capturing && !s.rx.valid && s.rx.ctr == bits + 1
         && s.rx.baud <= c / 2 <= s.rx.baud + 1 - s.tx.baud
         && s.rx.parallel == f[1..bits + 1]
  }

  function Payload(bits: nat, f: seq<bool>): seq<bool>
    requires |f| == bits + 2
  {
    f[1..bits + 1]
  }

  /** Accepted and not yet reported, oldest first. */
  function InFlight(bits: nat, d: nat, c: nat, s: Link, ph: Phase): seq<seq<bool>>
    requires d > 0 && At(bits, d, c, s, ph)
  {
    (if s.rx.valid then [s.rx.parallel] else [])
    + match ph
      case Calm => []
      case One(f, _) => [Payload(bits, f)]
      case Two(f, g) => [Payload(bits, f), Payload(bits, g)]
  }

  function Taken(s: Link, x: Input): seq<seq<bool>> {
    if Accepts(s.tx, x) then [x.data] else []
  }

  /** A word is reported in every cycle that shows parallel_data_valid. */
  function Reported1(s: Link): seq<seq<bool>> {
    if s.rx.valid then [s.rx.parallel] else []
  }

  /** What the receiver has at this edge. */
  predicate Stops(bits: nat, c: nat, rx: Rx)
    requires c > 0
  {
    rx.capturing && rx.baud == Half(c) && rx.ctr == bits + 1
  }

  function PhaseNext(bits: nat, c: nat, s: Link, ph: Phase, x: Input): Phase
    requires c > 0
  {
    var frame := Frame(x.data);
    match ph
    case Calm => if Accepts(s.tx, x) then One(frame, 0) else Calm
    case One(f, age) =>
      if Stops(bits, c, s.rx) then (if Accepts(s.tx, x) then One(frame, 0) else Calm)
      else if Accepts(s.tx, x) then Two(f, frame)
      else One(f, age + 1)
    case Two(f, g) => if Stops(bits, c, s.rx) then One(g, s.tx.baud + 1) else Two(f, g)
  }

  lemma FrameIs(bits: nat, data: seq<bool>)
    requires |data| == bits
    ensures IsFrame(bits, Frame(data)) && Payload(bits, Frame(data)) == data
  {
  }

  /** The law of one edge. */
  ghost predicate StepLaw(bits: nat, d: nat, c: nat, s: Link, ph: Phase, x: Input)
    requires d > 0 && c > 0 && |x.data| == bits && At(bits, d, c, s, ph)
  {
    var r, next := Next(bits, d, c, s, x), PhaseNext(bits, c, s, ph, x);
    && At(bits, d, c, r, next)
    && InFlight(bits, d, c, s, ph) + Taken(s, x) == Reported1(s) + InFlight(bits, d, c, r, next)
  }

  lemma CalmStep(bits: nat, d: nat, c: nat, s: Link, x: Input)
    requires Compatible(bits, d, c) && |x.data| == bits && At(bits, d, c, s, Calm)
    ensures StepLaw(bits, d, c, s, Calm, x)
  {
    FrameIs(bits, x.data);
    if s.tx.sending {
      BaudFacts(d, s.tx.baud);
    } else {
      hide Top, Half, NextBaud;
      LengthPositive(bits, d);
    }
  }

  lemma LengthPositive(bits: nat, d: nat)
    requires d >= 3
    ensures Length(bits, d) == (bits + 1) * d + d && Length(bits, d) >= 2 * d >= 6
  {
    Monotone(1, bits + 1, d);
  }

  lemma NextPlace(c: nat, ctr: nat, baud: nat)
    requires baud < c
    ensures ctr * c + baud + 1 == if baud == c - 1 then (ctr + 1) * c else ctr * c + (baud + 1)
    ensures ctr * c <= ctr * c + baud < (ctr + 1) * c
  {
    assert (ctr + 1) * c == ctr * c + c;
  }

  lemma TxMoves(bits: nat, d: nat, tx: Tx, x: Input, f: seq<bool>, age: nat)
    requires d >= 3 && !PowerOfTwo(d) && IsFrame(bits, f) && tx.Ok(bits) && |x.data| == bits
    requires age < Length(bits, d) && TxAt(bits, d, tx, f, age)
    ensures var r := TxNext(bits, d, tx, x); TxAt(bits, d, r, f, age + 1) && r.line == Wave(bits, d, f, age + 1)
  {
    hide Top, NextBaud, NextBit, Wave, Length;
    NextPlace(d, tx.ctr, tx.baud);
    BaudFacts(d, tx.baud);
    WaveIs(bits, d, f, age + 1, tx.ctr);
    LengthPositive(bits, d);
    if tx.ctr <= bits {
      NextBitFits(bits, tx.ctr);
      Monotone(tx.ctr + 1, bits + 1, d);
    }
  }

  /** The middle of the receiver's bit k is in the sender's bit k. */
  lemma SampleIs(bits: nat, d: nat, c: nat, f: seq<bool>, k: nat)
    requires Compatible(bits, d, c) && |f| == bits + 2 && k <= bits + 1
    ensures Wave(bits, d, f, k * c + c / 2 + 2) == f[k]
  {
    WaveIs(bits, d, f, k * c + c / 2 + 2, k);
  }

  lemma RxMoves(bits: nat, d: nat, c: nat, rx: Rx, f: seq<bool>, age: nat)
    requires Compatible(bits, d, c) && IsFrame(bits, f) && |rx.parallel| == bits
    requires 4 <= age <= Finish(bits, c) + 4 && RxAt(bits, c, rx, f, age) && !Stops(bits, c, rx)
    ensures age < Finish(bits, c) + 4
    ensures RxAt(bits, c, RxNext(bits, c, rx, Wave(bits, d, f, age - 2)), f, age + 1)
  {
    hide Top, NextBaud, NextBit, Wave, Half;
    BaudFacts(c, rx.baud);
    if age == Finish(bits, c) + 4 {
      SamePlace(c, bits + 1, c / 2, rx.ctr, rx.baud);
      assert false;
    }
    RxCounts(bits, c, rx, age);
    var y := Wave(bits, d, f, age - 2);
    var r := RxNext(bits, c, rx, y);
    forall k | 1 <= k <= bits && k * c + c / 2 < age - 3
      ensures r.parallel[k - 1] == f[k]
    {
      if k * c + c / 2 == age - 4 {
        SamePlace(c, k, c / 2, rx.ctr, rx.baud);
        SampleIs(bits, d, c, f, k);
      } else if rx.ctr == k && rx.baud == c / 2 {
        assert false;
      }
    }
  }

  lemma RxCounts(bits: nat, c: nat, rx: Rx, age: nat)
    requires c >= 3 && !PowerOfTwo(c) && |rx.parallel| == bits && rx.baud < c && rx.ctr <= bits + 1
    requires 4 <= age < Finish(bits, c) + 4 && rx.ctr * c + rx.baud == age - 4
    ensures var baud := NextBaud(c, rx.baud);
      var ctr := if rx.baud == Top(c) then NextBit(bits, rx.ctr) else rx.ctr;
      baud < c && ctr <= bits + 1 && ctr * c + baud == age - 3
  {
    hide Top, NextBaud, NextBit, Half;
    BaudFacts(c, rx.baud);
    NextPlace(c, rx.ctr, rx.baud);
    if rx.ctr <= bits {
      NextBitFits(bits, rx.ctr);
    } else {
      assert rx.baud < c / 2;
    }
  }

  lemma RxStops(bits: nat, d: nat, c: nat, rx: Rx, f: seq<bool>, age: nat, y: bool)
    requires Compatible(bits, d, c) && IsFrame(bits, f) && |rx.parallel| == bits
    requires 4 <= age && RxAt(bits, c, rx, f, age) && Stops(bits, c, rx)
    ensures age == Finish(bits, c) + 4
    ensures var r := RxNext(bits, c, rx, y); !r.capturing && r.valid && r.parallel == Payload(bits, f)
  {
    BaudFacts(c, rx.baud);
    forall k | 1 <= k <= bits
      ensures rx.parallel[k - 1] == f[k]
    {
      Monotone(k + 1, bits + 1, c);
      assert (k + 1) * c == k * c + c;
    }
  }

  /** The receiver finishes inside the stop bit. */
  lemma Bounds(bits: nat, d: nat, c: nat)
    requires Compatible(bits, d, c)
    ensures (bits + 1) * d <= Finish(bits, c) + 1 && Finish(bits, c) + 2 <= Length(bits, d)
    ensures Length(bits, d) == (bits + 1) * d + d
    ensures Finish(bits, c) == (bits + 1) * c + c / 2
  {
    LengthPositive(bits, d);
    var k := bits + 1;
    assert k * d <= k * c + c / 2 + 1 <= (k + 1) * d - 1;
  }

  lemma FirstBit(bits: nat, d: nat, f: seq<bool>)
    requires d >= 3 && |f| == bits + 2
    ensures Wave(bits, d, f, 1) == Wave(bits, d, f, 2) == f[0]
  {
    WaveIs(bits, d, f, 1, 0);
    WaveIs(bits, d, f, 2, 0);
  }

  /** The start bit travels through the synchroniser. */
  lemma RxStarts(bits: nat, d: nat, c: nat, rx: Rx, f: seq<bool>, age: nat)
    requires d >= 3 && c >= 3 && IsFrame(bits, f) && |rx.parallel| == bits && age <= 3 && !rx.capturing
    ensures age < Finish(bits, c) + 4
    ensures var r := RxNext(bits, c, rx, Wave(bits, d, f, age - 2)); RxAt(bits, c, r, f, age + 1) && !r.valid
  {
    hide Wave, Top, NextBaud, NextBit, Half;
    if age <= 2 {
      WaveHigh(bits, d, f, age - 2);
    } else {
      FirstBit(bits, d, f);
    }
    Monotone(1, bits + 1, c);
  }

  /** Sender and receiver both move on in the frame. */
  lemma OneMoves(bits: nat, d: nat, c: nat, s: Link, f: seq<bool>, age: nat, x: Input)
    requires d > 0 && c > 0 && |x.data| == bits && At(bits, d, c, s, One(f, age)) && !Accepts(s.tx, x)
    requires !Stops(bits, c, s.rx) && age < Finish(bits, c) + 4
    requires var r := TxNext(bits, d, s.tx, x); TxAt(bits, d, r, f, age + 1) && r.line == Wave(bits, d, f, age + 1)
    requires var r := RxNext(bits, c, s.rx, s.s1); RxAt(bits, c, r, f, age + 1) && !r.valid
    ensures StepLaw(bits, d, c, s, One(f, age), x)
  {
    hide TxNext, RxNext, TxAt, RxAt, Wave, Stops, Finish, IsFrame;
  }

  lemma OneStarts(bits: nat, d: nat, c: nat, s: Link, f: seq<bool>, age: nat, x: Input)
    requires Compatible(bits, d, c) && |x.data| == bits && At(bits, d, c, s, One(f, age)) && age <= 3
    ensures StepLaw(bits, d, c, s, One(f, age), x)
  {
    assert d >= 3 && !PowerOfTwo(d) && c > 0 && IsFrame(bits, f) && s.Ok(bits) && TxAt(bits, d, s.tx, f, age);
    assert !s.rx.capturing && s.s1 == Wave(bits, d, f, age - 2);
    LengthPositive(bits, d);
    assert age < Length(bits, d) && !Accepts(s.tx, x) && !Stops(bits, c, s.rx);
    hide Compatible, TxNext, RxNext, TxAt, RxAt, Wave, At, StepLaw, Stops, Accepts, Length;
    TxMoves(bits, d, s.tx, x, f, age);
    RxStarts(bits, d, c, s.rx, f, age);
    OneMoves(bits, d, c, s, f, age, x);
  }

  lemma OneBoth(bits: nat, d: nat, c: nat, s: Link, f: seq<bool>, age: nat, x: Input)
    requires Compatible(bits, d, c) && |x.data| == bits && At(bits, d, c, s, One(f, age)) && age >= 4
    requires s.tx.sending && !Stops(bits, c, s.rx)
    ensures StepLaw(bits, d, c, s, One(f, age), x)
  {
    assert d >= 3 && !PowerOfTwo(d) && c > 0 && IsFrame(bits, f) && s.Ok(bits) && TxAt(bits, d, s.tx, f, age);
    assert RxAt(bits, c, s.rx, f, age) && s.s1 == Wave(bits, d, f, age - 2) && age <= Finish(bits, c) + 4;
    assert age < Length(bits, d) && !Accepts(s.tx, x);
    RxMoves(bits, d, c, s.rx, f, age);
    assert !RxNext(bits, c, s.rx, s.s1).valid;
    hide Compatible, TxNext, RxNext, TxAt, RxAt, Wave, At, StepLaw, Stops, Accepts, Length;
    TxMoves(bits, d, s.tx, x, f, age);
    OneMoves(bits, d, c, s, f, age, x);
  }

  lemma OneReceives(bits: nat, d: nat, c: nat, s: Link, f: seq<bool>, age: nat, x: Input)
    requires Compatible(bits, d, c) && |x.data| == bits && At(bits, d, c, s, One(f, age)) && age >= 4
    requires !s.tx.sending && !Accepts(s.tx, x) && !Stops(bits, c, s.rx)
    ensures StepLaw(bits, d, c, s, One(f, age), x)
  {
    hide Top, NextBaud, NextBit, Half, Length, Finish, Wave;
    Bounds(bits, d, c);
    RxMoves(bits, d, c, s.rx, f, age);
    WaveHigh(bits, d, f, age);
    WaveHigh(bits, d, f, age + 1);
  }

  /** The sender may begin the next frame a little before the receiver is done with this one. */
  lemma OneOvertaken(bits: nat, d: nat, c: nat, s: Link, f: seq<bool>, age: nat, x: Input)
    requires Compatible(bits, d, c) && |x.data| == bits && At(bits, d, c, s, One(f, age)) && age >= 4
    requires Accepts(s.tx, x) && !Stops(bits, c, s.rx)
    ensures StepLaw(bits, d, c, s, One(f, age), x)
  {
    hide Top, NextBaud, NextBit, Half, Length, Finish, Wave;
    var g := Frame(x.data);
    FrameIs(bits, x.data);
    Bounds(bits, d, c);
    LengthPositive(bits, d);
    RxMoves(bits, d, c, s.rx, f, age);
    WaveHigh(bits, d, f, age);
    WaveHigh(bits, d, f, age - 1);
    WaveHigh(bits, d, g, 0);
    var r := RxNext(bits, c, s.rx, s.s1);
    NearStop(bits, c, r, f, age + 1);
  }

  lemma NearStop(bits: nat, c: nat, rx: Rx, f: seq<bool>, age: nat)
    requires c >= 3 && |f| == bits + 2 && |rx.parallel| == bits && RxAt(bits, c, rx, f, age)
    requires Finish(bits, c) + 3 <= age <= Finish(bits, c) + 4
    ensures rx.capturing && !rx.valid && rx.ctr == bits + 1 && rx.baud <= c / 2 <= rx.baud + 1
    ensures rx.parallel == f[1..bits + 1]
  {
    Monotone(1, bits + 1, c);
    SamePlace(c, bits + 1, age - 4 - (bits + 1) * c, rx.ctr, rx.baud);
    forall k | 1 <= k <= bits
      ensures rx.parallel[k - 1] == f[k]
    {
      Monotone(k + 1, bits + 1, c);
      assert (k + 1) * c == k * c + c;
    }
  }

  /** From the stop bit's sample on the whole line is high. */
  lemma StopIsHigh(bits: nat, d: nat, c: nat, f: seq<bool>, age: nat)
    requires Compatible(bits, d, c) && IsFrame(bits, f) && age == Finish(bits, c) + 4
    ensures Wave(bits, d, f, age) && Wave(bits, d, f, age - 1) && Wave(bits, d, f, age + 1)
    ensures (bits + 1) * d <= age
  {
    Bounds(bits, d, c);
    WaveHigh(bits, d, f, age);
    WaveHigh(bits, d, f, age - 1);
    WaveHigh(bits, d, f, age + 1);
  }

  lemma BeforeFrame(bits: nat, d: nat, f: seq<bool>)
    requires d > 0 && IsFrame(bits, f)
    ensures Wave(bits, d, f, 0) && Wave(bits, d, f, -1) && Wave(bits, d, f, -2)
  {
    WaveHigh(bits, d, f, 0);
    WaveHigh(bits, d, f, -1);
    WaveHigh(bits, d, f, -2);
  }

  /** The stop bit is sampled: the frame's data is complete. */
  lemma OneStops(bits: nat, d: nat, c: nat, s: Link, f: seq<bool>, age: nat, x: Input)
    requires Compatible(bits, d, c) && |x.data| == bits && At(bits, d, c, s, One(f, age)) && age >= 4
    requires Stops(bits, c, s.rx)
    ensures StepLaw(bits, d, c, s, One(f, age), x)
  {
    RxStops(bits, d, c, s.rx, f, age, s.s1);
    StopIsHigh(bits, d, c, f, age);
    if s.tx.sending {
      StopWhileSending(bits, d, c, s, f, age, x);
    } else {
      StopWhileIdle(bits, d, c, s, f, age, x);
    }
  }

  lemma StopWhileSending(bits: nat, d: nat, c: nat, s: Link, f: seq<bool>, age: nat, x: Input)
    requires Compatible(bits, d, c) && |x.data| == bits && At(bits, d, c, s, One(f, age)) && age >= 4
    requires Stops(bits, c, s.rx) && s.tx.sending
    requires var r := RxNext(bits, c, s.rx, s.s1); !r.capturing && r.valid && r.parallel == Payload(bits, f)
    requires Wave(bits, d, f, age) && Wave(bits, d, f, age - 1) && Wave(bits, d, f, age + 1) && (bits + 1) * d <= age
    ensures StepLaw(bits, d, c, s, One(f, age), x)
  {
    hide Top, NextBaud, NextBit, Half, Length, Finish, Wave, RxNext, TxNext;
    TxMoves(bits, d, s.tx, x, f, age);
    TxInStop(bits, d, TxNext(bits, d, s.tx, x), f, age + 1);
  }

  lemma StopWhileIdle(bits: nat, d: nat, c: nat, s: Link, f: seq<bool>, age: nat, x: Input)
    requires Compatible(bits, d, c) && |x.data| == bits && At(bits, d, c, s, One(f, age)) && age >= 4
    requires Stops(bits, c, s.rx) && !s.tx.sending
    requires var r := RxNext(bits, c, s.rx, s.s1); !r.capturing && r.valid && r.parallel == Payload(bits, f)
    requires Wave(bits, d, f, age) && Wave(bits, d, f, age - 1)
    ensures StepLaw(bits, d, c, s, One(f, age), x)
  {
    hide Top, NextBaud, NextBit, Half, Finish, Wave, RxNext;
    FrameIs(bits, x.data);
    BeforeFrame(bits, d, Frame(x.data));
    LengthPositive(bits, d);
  }

  lemma TxInStop(bits: nat, d: nat, tx: Tx, f: seq<bool>, age: nat)
    requires d >= 3 && IsFrame(bits, f) && TxAt(bits, d, tx, f, age) && (bits + 1) * d <= age
    ensures InStop(bits, d, tx)
  {
    if tx.sending && tx.ctr <= bits {
      NextPlace(d, tx.ctr, tx.baud);
      Monotone(tx.ctr + 1, bits + 1, d);
      assert false;
    }
  }

  lemma TwoStops(bits: nat, d: nat, c: nat, s: Link, f: seq<bool>, g: seq<bool>, x: Input)
    requires Compatible(bits, d, c) && |x.data| == bits && At(bits, d, c, s, Two(f, g)) && Stops(bits, c, s.rx)
    requires var age := s.tx.baud;
      && TxAt(bits, d, TxNext(bits, d, s.tx, x), g, age + 1)
      && TxNext(bits, d, s.tx, x).line == Wave(bits, d, g, age + 1)
    ensures StepLaw(bits, d, c, s, Two(f, g), x)
  {
    BaudFacts(c, s.rx.baud);
    var before: int := s.tx.baud - 1;
    WaveHigh(bits, d, g, before);
    Monotone(1, bits + 1, c);
    hide Top, NextBaud, NextBit, Half, Length, Wave, TxNext, TxAt;
  }

  /** One cycle before that. */
  lemma TwoWaits(bits: nat, d: nat, c: nat, s: Link, f: seq<bool>, g: seq<bool>, x: Input)
    requires Compatible(bits, d, c) && |x.data| == bits && At(bits, d, c, s, Two(f, g)) && !Stops(bits, c, s.rx)
    ensures StepLaw(bits, d, c, s, Two(f, g), x)
  {
    BaudFacts(c, s.rx.baud);
    BaudFacts(d, 0);
    WaveHigh(bits, d, g, 0);
    FirstBit(bits, d, g);
    assert s.tx.baud == 0 && s.rx.baud + 1 == c / 2 < c - 1;
    hide Top, NextBaud, NextBit, Half, Length, Wave;
  }

  lemma TwoStep(bits: nat, d: nat, c: nat, s: Link, f: seq<bool>, g: seq<bool>, x: Input)
    requires Compatible(bits, d, c) && |x.data| == bits && At(bits, d, c, s, Two(f, g))
    ensures StepLaw(bits, d, c, s, Two(f, g), x)
  {
    if Stops(bits, c, s.rx) {
      LengthPositive(bits, d);
      var age := s.tx.baud;
      assert TxAt(bits, d, s.tx, g, age);
      TxMoves(bits, d, s.tx, x, g, age);
      hide StepLaw, TxAt, TxNext, Wave;
      TwoStops(bits, d, c, s, f, g, x);
    } else {
      TwoWaits(bits, d, c, s, f, g, x);
    }
  }

  lemma StepHolds(bits: nat, d: nat, c: nat, s: Link, ph: Phase, x: Input)
    requires Compatible(bits, d, c) && |x.data| == bits && At(bits, d, c, s, ph)
    ensures StepLaw(bits, d, c, s, ph, x)
  {
    hide StepLaw, Compatible;
    match ph
    case Calm => CalmStep(bits, d, c, s, x);
    case Two(f, g) => TwoStep(bits, d, c, s, f, g, x);
    case One(f, age) =>
      if age <= 3 {
        OneStarts(bits, d, c, s, f, age, x);
      } else if Stops(bits, c, s.rx) {
        OneStops(bits, d, c, s, f, age, x);
      } else if s.tx.sending {
        OneBoth(bits, d, c, s, f, age, x);
      } else if Accepts(s.tx, x) {
        OneOvertaken(bits, d, c, s, f, age, x);
      } else {
        OneReceives(bits, d, c, s, f, age, x);
      }
  }

  // ---------- Whole runs ----------

  predicate Sized(bits: nat, xs: seq<Input>) {
    forall k :: 0 <= k < |xs| ==> |xs[k].data| == bits
  }

  ghost function Run(bits: nat, d: nat, c: nat, s: Link, ph: Phase, xs: seq<Input>): (r: (Link, Phase))
    requires Compatible(bits, d, c) && Sized(bits, xs) && At(bits, d, c, s, ph)
    ensures At(bits, d, c, r.0, r.1)
    decreases |xs|
  {
    if xs == [] then (s, ph) else
      StepHolds(bits, d, c, s, ph, xs[0]);
      Run(bits, d, c, Next(bits, d, c, s, xs[0]), PhaseNext(bits, c, s, ph, xs[0]), xs[1..])
  }

  /** The words the sender accepted. */
  function Sent(bits: nat, d: nat, c: nat, s: Link, xs: seq<Input>): seq<seq<bool>>
    requires d > 0 && c > 0 && s.Ok(bits) && Sized(bits, xs)
    decreases |xs|
  {
    if xs == [] then []
    else Taken(s, xs[0]) + Sent(bits, d, c, Next(bits, d, c, s, xs[0]), xs[1..])
  }

  /** The words the receiver reported. */
  function Reported(bits: nat, d: nat, c: nat, s: Link, xs: seq<Input>): seq<seq<bool>>
    requires d > 0 && c > 0 && s.Ok(bits) && Sized(bits, xs)
    decreases |xs|
  {
    if xs == [] then []
    else Reported1(s) + Reported(bits, d, c, Next(bits, d, c, s, xs[0]), xs[1..])
  }

  lemma {:induction false} RunConserves(bits: nat, d: nat, c: nat, s: Link, ph: Phase, xs: seq<Input>)
    requires Compatible(bits, d, c) && Sized(bits, xs) && At(bits, d, c, s, ph)
    ensures var r := Run(bits, d, c, s, ph, xs);
      InFlight(bits, d, c, s, ph) + Sent(bits, d, c, s, xs)
      == Reported(bits, d, c, s, xs) + InFlight(bits, d, c, r.0, r.1)
    decreases |xs|
  {
    if xs == [] {
      assert InFlight(bits, d, c, s, ph) + [] == [] + InFlight(bits, d, c, s, ph);
    } else {
      StepHolds(bits, d, c, s, ph, xs[0]);
      hide Compatible, InFlight, Taken, Reported1, Next, PhaseNext;
      var s', ph', rest := Next(bits, d, c, s, xs[0]), PhaseNext(bits, c, s, ph, xs[0]), xs[1..];
      RunConserves(bits, d, c, s', ph', rest);
      var r := Run(bits, d, c, s', ph', rest);
      Regroup(InFlight(bits, d, c, s, ph), Taken(s, xs[0]), Sent(bits, d, c, s', rest),
        Reported1(s), InFlight(bits, d, c, s', ph'), Reported(bits, d, c, s', rest), InFlight(bits, d, c, r.0, r.1));
    }
  }

  /** From reset, for any words, any idle gaps and bit lengths that agree well enough: the words the
      receiver reports, each once and in order, are those the sender accepted, up to the at most two
      still under way. */
  lemma ReceivesWhatIsSent(bits: nat, d: nat, c: nat, s: Link, xs: seq<Input>)
    requires Compatible(bits, d, c) && Fresh(bits, s) && Sized(bits, xs)
    ensures var r := Run(bits, d, c, s, Calm, xs);
      Sent(bits, d, c, s, xs) == Reported(bits, d, c, s, xs) + InFlight(bits, d, c, r.0, r.1)
  {
    RunConserves(bits, d, c, s, Calm, xs);
    assert InFlight(bits, d, c, s, Calm) == [];
    assert [] + Sent(bits, d, c, s, xs) == Sent(bits, d, c, s, xs);
  }

  // ---------- Every word arrives ----------

  /** Cycles until the oldest word in flight is reported. */
  function Due(bits: nat, c: nat, s: Link, ph: Phase): int {
    if s.rx.valid then 1
    else match ph
      case Calm => 0
      case One(_, age) => Finish(bits, c) + 6 - age
      case Two(_, _) => c / 2 - s.rx.baud + 2
  }

  lemma DueShrinks(bits: nat, d: nat, c: nat, s: Link, ph: Phase, x: Input)
    requires Compatible(bits, d, c) && |x.data| == bits && At(bits, d, c, s, ph) && !s.rx.valid && !ph.Calm?
    requires At(bits, d, c, Next(bits, d, c, s, x), PhaseNext(bits, c, s, ph, x))
    ensures Due(bits, c, Next(bits, d, c, s, x), PhaseNext(bits, c, s, ph, x)) < Due(bits, c, s, ph)
  {
    BaudFacts(c, if s.rx.baud < c then s.rx.baud else 0);
    Bounds(bits, d, c);
    hide Top, NextBaud, NextBit, Half, Length, Finish, Wave, TxNext;
    match ph
    case Two(f, g) =>
    case One(f, age) =>
      if age >= 4 && !Stops(bits, c, s.rx) && Accepts(s.tx, x) {
        RxMoves(bits, d, c, s.rx, f, age);
        NearStop(bits, c, RxNext(bits, c, s.rx, s.s1), f, age + 1);
      }
  }

  /** Whatever the sender goes on to send, the oldest word under way is reported by the time a frame
      takes to receive. */
  lemma {:induction false} OldestArrives(bits: nat, d: nat, c: nat, s: Link, ph: Phase, xs: seq<Input>)
    requires Compatible(bits, d, c) && Sized(bits, xs) && At(bits, d, c, s, ph)
    requires InFlight(bits, d, c, s, ph) != [] && |xs| >= Due(bits, c, s, ph)
    ensures |Reported(bits, d, c, s, xs)| > 0 && Reported(bits, d, c, s, xs)[0] == InFlight(bits, d, c, s, ph)[0]
    decreases |xs|
  {
    if !s.rx.valid {
      DuePositive(bits, d, c, s, ph);
      StepHolds(bits, d, c, s, ph, xs[0]);
      DueShrinks(bits, d, c, s, ph, xs[0]);
      var s', ph' := Next(bits, d, c, s, xs[0]), PhaseNext(bits, c, s, ph, xs[0]);
      assert Reported1(s) + InFlight(bits, d, c, s', ph') == InFlight(bits, d, c, s', ph');
      OldestArrives(bits, d, c, s', ph', xs[1..]);
    } else {
      assert |xs| > 0;
    }
  }

  lemma DuePositive(bits: nat, d: nat, c: nat, s: Link, ph: Phase)
    requires d > 0 && At(bits, d, c, s, ph) && InFlight(bits, d, c, s, ph) != []
    ensures Due(bits, c, s, ph) > 0 && (!s.rx.valid ==> !ph.Calm?)
  {
  }

  // ---------- A power of two cycles per bit ----------

  /** Then the counter never reaches its end: the sender stays in its start bit for ever. */
  lemma {:induction false} PowerOfTwoNeverEnds(bits: nat, d: nat, tx: Tx, xs: seq<Input>)
    requires d > 0 && PowerOfTwo(d) && Sized(bits, xs) && tx.Ok(bits)
    requires tx.sending && tx.ctr == 0 && !tx.reg[0] && !tx.line
    ensures var r := TxRun(bits, d, tx, xs); r.sending && !r.line
    decreases |xs|
  {
    if xs != [] {
      assert Top(d) == -1;
      PowerOfTwoNeverEnds(bits, d, TxNext(bits, d, tx, xs[0]), xs[1..]);
    }
  }

  function TxRun(bits: nat, d: nat, tx: Tx, xs: seq<Input>): (r: Tx)
    requires d > 0 && tx.Ok(bits) && Sized(bits, xs)
    ensures r.Ok(bits)
    decreases |xs|
  {
    if xs == [] then tx else TxRun(bits, d, TxNext(bits, d, tx, xs[0]), xs[1..])
  }

  lemma {:induction false} PowerOfTwoNeverReports(bits: nat, d: nat, c: nat, s: Link, xs: seq<Input>)
    requires d > 0 && c > 0 && PowerOfTwo(c) && Sized(bits, xs) && s.Ok(bits)
    requires !s.rx.valid && (s.rx.capturing ==> s.rx.ctr == 0)
    ensures Reported(bits, d, c, s, xs) == []
    decreases |xs|
  {
    if xs != [] {
      assert Top(c) == -1;
      PowerOfTwoNeverReports(bits, d, c, Next(bits, d, c, s, xs[0]), xs[1..]);
    }
  }

  /** With the same bit length on both sides: a word accepted after reset is reported, and reported
      unchanged, if and only if the number of cycles per bit is not a power of two. */
  lemma SameRateWorksIff(bits: nat, c: nat, s: Link, xs: seq<Input>)
    requires c >= 2 && Fresh(bits, s) && Sized(bits, xs)
    requires |xs| >= Finish(bits, c) + 7 && Accepts(s.tx, xs[0])
    ensures (Reported(bits, c, c, s, xs) != [] && Reported(bits, c, c, s, xs)[0] == xs[0].data) <==> !PowerOfTwo(c)
  {
    if PowerOfTwo(c) {
      PowerOfTwoNeverReports(bits, c, c, s, xs);
    } else {
      assert PowerOfTwo(2) by { assert Clog2(2) == 1 + Clog2(1); assert Pow2(1) == 2 * Pow2(0); }
      SameRateIsCompatible(bits, c);
      StepHolds(bits, c, c, s, Calm, xs[0]);
      FrameIs(bits, xs[0].data);
      var s', ph' := Next(bits, c, c, s, xs[0]), One(Frame(xs[0].data), 0);
      assert Reported(bits, c, c, s, xs) == Reported(bits, c, c, s', xs[1..]);
      OldestArrives(bits, c, c, s', ph', xs[1..]);
    }
  }

  // ---------- Reset ----------

  /** A cycle of reset: the line is held high, the synchroniser runs, and of the receiver only the state is
      cleared. */
  function InReset(bits: nat, s: Link): (r: Link)
    requires s.Ok(bits)
    ensures r.Ok(bits)
  {
    Link(s.tx.(sending := false, line := true), true, s.s0, s.rx.(capturing := false))
  }

  function ResetFor(bits: nat, s: Link, cycles: nat): (r: Link)
    requires s.Ok(bits)
    ensures r.Ok(bits)
  {
    if cycles == 0 then s else InReset(bits, ResetFor(bits, s, cycles - 1))
  }

  /** Two cycles, from any state: fresh, but for a word that was being reported when reset began. */
  lemma TwoCyclesReset(bits: nat, s: Link, cycles: nat)
    requires s.Ok(bits) && cycles >= 2
    ensures var r := ResetFor(bits, s, cycles);
      && r.rx.valid == s.rx.valid && r.rx.parallel == s.rx.parallel && Fresh(bits, r.(rx := r.rx.(valid := false)))
  {
    ResetKeeps(bits, s, cycles - 2);
    var before := ResetFor(bits, s, cycles - 2);
    assert ResetFor(bits, s, cycles - 1) == InReset(bits, before);
    assert ResetFor(bits, s, cycles) == InReset(bits, InReset(bits, before));
  }

  lemma {:induction false} ResetKeeps(bits: nat, s: Link, cycles: nat)
    requires s.Ok(bits)
    ensures ResetFor(bits, s, cycles).rx.valid == s.rx.valid && ResetFor(bits, s, cycles).rx.parallel == s.rx.parallel
    decreases cycles
  {
    if cycles > 0 {
      ResetKeeps(bits, s, cycles - 1);
    }
  }

  /** Such a word is reported once more, and nothing else of what was before the reset is. */
  lemma StaleWord(bits: nat, d: nat, c: nat, s: Link, cycles: nat, xs: seq<Input>)
    requires d > 0 && c > 0 && s.Ok(bits) && cycles >= 2 && Sized(bits, xs) && xs != []
    ensures var r := ResetFor(bits, s, cycles);
      var clean := r.(rx := r.rx.(valid := false));
      && Fresh(bits, clean)
      && Reported(bits, d, c, r, xs) == Reported1(s) + Reported(bits, d, c, clean, xs)
      && Sent(bits, d, c, r, xs) == Sent(bits, d, c, clean, xs)
  {
    hide TxNext, Compatible;
    TwoCyclesReset(bits, s, cycles);
    var r := ResetFor(bits, s, cycles);
    var clean := r.(rx := r.rx.(valid := false));
    assert Next(bits, d, c, r, xs[0]) == Next(bits, d, c, clean, xs[0]);
    assert Reported1(clean) == [];
  }

  /** The bits the receiver has sampled, all of them high. */
  predicate HighSoFar(bits: nat, c: nat, rx: Rx) {
    && rx.capturing && !rx.valid && |rx.parallel| == bits && rx.ctr <= bits + 1 && rx.baud < c
    && (rx.ctr == bits + 1 ==> rx.baud <= c / 2)
    && forall i :: 0 <= i < bits && (i + 1 < rx.ctr || (i + 1 == rx.ctr && rx.baud > c / 2)) ==> rx.parallel[i]
  }

  /** Cycles until the receiver samples what it takes for the stop bit. */
  function UntilStop(bits: nat, c: nat, rx: Rx): int {
    (bits + 1 - rx.ctr) * c + c / 2 - rx.baud
  }

  lemma OneBitLess(k: int, c: int)
    ensures (k - 1) * c == k * c - c
    ensures k >= 0 && c >= 0 ==> k * c >= 0
  {
  }

  lemma HighStep(bits: nat, c: nat, rx: Rx)
    requires c >= 3 && !PowerOfTwo(c) && HighSoFar(bits, c, rx)
    ensures var r := RxNext(bits, c, rx, true);
      if rx.ctr == bits + 1 && rx.baud == c / 2 then
        r.valid && !r.capturing && forall i :: 0 <= i < bits ==> r.parallel[i]
      else HighSoFar(bits, c, r) && UntilStop(bits, c, r) == UntilStop(bits, c, rx) - 1
    ensures UntilStop(bits, c, rx) >= 0
  {
    hide Top, Half, NextBaud, NextBit;
    BaudFacts(c, rx.baud);
    if rx.ctr <= bits {
      NextBitFits(bits, rx.ctr);
    }
    OneBitLess(bits + 1 - rx.ctr, c);
    OneBitLess(bits - rx.ctr, c);
  }

  predicate NothingOffered(xs: seq<Input>) {
    forall k :: 0 <= k < |xs| ==> !xs[k].tvalid
  }

  lemma {:induction false} HighRun(bits: nat, d: nat, c: nat, s: Link, xs: seq<Input>)
    requires d > 0 && c >= 3 && !PowerOfTwo(c) && s.Ok(bits) && Sized(bits, xs) && NothingOffered(xs)
    requires !s.tx.sending && s.tx.line && s.s0 && s.s1 && HighSoFar(bits, c, s.rx)
    requires |xs| >= UntilStop(bits, c, s.rx) + 2
    ensures Reported(bits, d, c, s, xs) != [] && Reported(bits, d, c, s, xs)[0] == seq(bits, _ => true)
    decreases |xs|
  {
    hide HighSoFar, UntilStop, RxNext, PowerOfTwo;
    NotValid(bits, c, s.rx);
    HighStep(bits, c, s.rx);
    var next := Next(bits, d, c, s, xs[0]);
    if s.rx.ctr == bits + 1 && s.rx.baud == c / 2 {
      assert next.rx.parallel == seq(bits, _ => true);
      var rest := xs[1..];
      assert Reported(bits, d, c, next, rest)
          == Reported1(next) + Reported(bits, d, c, Next(bits, d, c, next, rest[0]), rest[1..]);
    } else {
      HighRun(bits, d, c, next, xs[1..]);
    }
  }

  lemma NotValid(bits: nat, c: nat, rx: Rx)
    requires HighSoFar(bits, c, rx)
    ensures !rx.valid
  {
  }

  /** One cycle of reset after power-up, when the synchroniser holds zeros: the receiver takes the zero for a
      start bit, and reports a word of ones that nobody sent. */
  lemma ShortResetReports(bits: nat, d: nat, c: nat, s: Link, xs: seq<Input>)
    requires d > 0 && c >= 3 && !PowerOfTwo(c) && s.Ok(bits) && Sized(bits, xs) && NothingOffered(xs)
    requires !s.s0 && !s.rx.valid && |xs| >= (bits + 1) * c + c / 2 + 3
    ensures Sent(bits, d, c, ResetFor(bits, s, 1), xs) == []
    ensures var reported := Reported(bits, d, c, ResetFor(bits, s, 1), xs);
      reported != [] && reported[0] == seq(bits, _ => true)
  {
    var r := ResetFor(bits, s, 1);
    assert r == InReset(bits, ResetFor(bits, s, 0));
    NothingSent(bits, d, c, r, xs);
    var next := Next(bits, d, c, r, xs[0]);
    HighRun(bits, d, c, next, xs[1..]);
  }

  lemma {:induction false} NothingSent(bits: nat, d: nat, c: nat, s: Link, xs: seq<Input>)
    requires d > 0 && c > 0 && s.Ok(bits) && Sized(bits, xs) && NothingOffered(xs) && !s.tx.sending
    ensures Sent(bits, d, c, s, xs) == []
    decreases |xs|
  {
    if xs != [] {
      NothingSent(bits, d, c, Next(bits, d, c, s, xs[0]), xs[1..]);
    }
  }

  // ---------- The hardware ----------

  class UartTx {
    const bits: nat
    const clksPerBit: nat
    var sending: bool
    var baudCtr: nat
    var dataCtr: nat
    var dataReg: seq<bool>
    var serialDataReg: bool

    ghost predicate Valid()
      reads this
    {
      clksPerBit > 0 && View().Ok(bits)
    }

    ghost function View(): Tx
      reads this
    {
      Tx(sending, baudCtr, dataCtr, dataReg, serialDataReg)
    }

    constructor (bits: nat, clksPerBit: nat)
      requires clksPerBit > 0
      ensures Valid() && this.bits == bits && this.clksPerBit == clksPerBit && !sending && serialDataReg
    {
      this.bits, this.clksPerBit := bits, clksPerBit;
      sending, baudCtr, dataCtr, dataReg, serialDataReg := false, 0, 0, seq(bits + 2, _ => false), true;
    }

    method Clock(x: Input) returns (tready: bool, serialData: bool)
      requires Valid() && |x.data| == bits
      modifies this
      ensures Valid()
      ensures tready == (!old(sending) && x.serialReady) && serialData == old(serialDataReg)
      ensures View() == TxNext(bits, clksPerBit, old(View()), x)
    {
      ghost var next := TxNext(bits, clksPerBit, View(), x);
      tready, serialData := !sending && x.serialReady, serialDataReg;
      var baud, ctr := baudCtr, dataCtr;
      var range := Pow2(Clog2(clksPerBit));
      var rolls := baud == clksPerBit % range - 1;
      baudCtr := (baud + 1) % range;
      if rolls {
        dataCtr := (ctr + 1) % Pow2(Clog2(bits + 2));
        baudCtr := 0;
      }
      if !sending {
        baudCtr, dataCtr, dataReg := 0, 0, [false] + x.data + [true];
        if tready && x.tvalid && x.serialReady {
          sending := true;
        }
      } else {
        serialDataReg := dataReg[ctr];
        if ctr == bits + 1 && rolls {
          sending := false;
        }
      }
      assert View() == next;
    }
  }

  class UartRx {
    const bits: nat
    const clksPerBit: nat
    const sync: Cdc.CdcSync
    var capturing: bool
    var baudCtr: nat
    var dataCtr: nat
    var parallelData: seq<bool>
    var parallelDataValid: bool

    ghost predicate Valid()
      reads this, sync
    {
      clksPerBit > 0 && |parallelData| == bits && sync.Valid() && sync.stages == 2
    }

    ghost function View(): Rx
      reads this
    {
      Rx(capturing, baudCtr, dataCtr, parallelData, parallelDataValid)
    }

    constructor (bits: nat, clksPerBit: nat)
      requires clksPerBit > 0
      ensures Valid() && fresh(sync) && this.bits == bits && this.clksPerBit == clksPerBit
      ensures !capturing && !parallelDataValid && sync.tmp == [false, false]
    {
      this.bits, this.clksPerBit := bits, clksPerBit;
      sync := new Cdc.CdcSync(2);
      capturing, baudCtr, dataCtr, parallelData, parallelDataValid := false, 0, 0, seq(bits, _ => false), false;
    }

    method Clock(serialData: bool)
      requires Valid()
      modifies this, sync
      ensures Valid()
      ensures sync.tmp == [serialData, old(sync.tmp[0])]
      ensures View() == RxNext(bits, clksPerBit, old(View()), old(sync.tmp[1]))
    {
      var serialDataReg := sync.O();
      ghost var next := RxNext(bits, clksPerBit, View(), serialDataReg);
      sync.Clock(serialData);
      var baud, ctr := baudCtr, dataCtr;
      var range := Pow2(Clog2(clksPerBit));
      baudCtr := (baud + 1) % range;
      if baud == clksPerBit % range - 1 {
        dataCtr := (ctr + 1) % Pow2(Clog2(bits + 2));
        baudCtr := 0;
      }
      if !capturing {
        baudCtr, dataCtr, parallelDataValid := 0, 0, false;
        if !serialDataReg {
          capturing := true;
        }
      } else if baud == clksPerBit / 2 % range {
        if ctr == bits + 1 {
          capturing, parallelDataValid := false, true;
        } else if 0 < ctr <= bits {
          parallelData := parallelData[ctr - 1 := serialDataReg];
        }
      }
      assert View() == next;
    }
  }
}
