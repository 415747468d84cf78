/** The clock-domain crossings of synth/other (cdc_sync, cdc_pulse, cdc_vector). `Link` is the abstract
    view of one crossing: the register hops its handshake still has to make, the value held still on the
    sending side, and the value the receiving side shows. The classes are the registers. */
module Cdc {
  import opened Axis

  /** One handshake with synchronisers of `n` stages makes 2n+2 hops after its launch: n+1
      towards the receiver (the last of them captures the value), n+1 back. */
  datatype Link<T> = Link(hops: nat, held: T, seen: T) {
    /** The value is on its way and not yet captured. */
    predicate Outbound(n: nat) { hops > n + 1 }
  }

  /** Any set of edges may fall in one tick; `i` and `o` say which of the two clocks rise. */
  datatype Edges = Edges(i: bool, o: bool)

  function Tick<T>(n: nat, s: Link<T>, e: Edges, valid: bool, value: T): Link<T> {
    if s.hops == 0 then
      if e.i && valid then Link(2 * n + 2, value, s.seen) else s
    else if s.Outbound(n) then
      if e.o then Link(s.hops - 1, s.held, if s.hops == n + 2 then s.held else s.seen) else s
    else
      if e.i then s.(hops := s.hops - 1) else s
  }

  predicate Fires<T>(s: Link<T>, e: Edges, valid: bool) {
    s.hops == 0 && e.i && valid
  }

  predicate Captures<T>(n: nat, s: Link<T>, e: Edges) {
    s.hops == n + 2 && e.o
  }

  // ---------- Whole runs of a link ----------

  datatype Offer<T> = Offer(e: Edges, valid: bool, value: T)

  function Run<T>(n: nat, s: Link<T>, offers: seq<Offer<T>>): Link<T>
    decreases |offers|
  {
    if offers == [] then s
    else Run(n, Tick(n, s, offers[0].e, offers[0].valid, offers[0].value), offers[1..])
  }

  /** The values the sender saw accepted (ready and valid on its edge). */
  function Sent<T>(n: nat, s: Link<T>, offers: seq<Offer<T>>): seq<T>
    decreases |offers|
  {
    if offers == [] then [] else
      var x := offers[0];
      (if Fires(s, x.e, x.valid) then [x.value] else [])
      + Sent(n, Tick(n, s, x.e, x.valid, x.value), offers[1..])
  }

  /** The values the receiver saw strobed into `o`. */
  function Delivered<T>(n: nat, s: Link<T>, offers: seq<Offer<T>>): seq<T>
    decreases |offers|
  {
    if offers == [] then [] else
      var x := offers[0];
      var next := Tick(n, s, x.e, x.valid, x.value);
      (if Captures(n, s, x.e) then [next.seen] else []) + Delivered(n, next, offers[1..])
  }

  function InTransit<T>(n: nat, s: Link<T>): seq<T> {
    if s.Outbound(n) then [s.held] else []
  }

  /** Every accepted vector is delivered exactly once and in order, whatever the interleaving of
      the two clocks: what was sent is what was delivered plus at most the one still under way. */
  lemma {:induction false} ExactlyOnce<T>(n: nat, s: Link<T>, offers: seq<Offer<T>>)
    requires s.hops <= 2 * n + 2
    ensures InTransit(n, s) + Sent(n, s, offers)
         == Delivered(n, s, offers) + InTransit(n, Run(n, s, offers))
    ensures Run(n, s, offers).seen
         == (if Delivered(n, s, offers) == [] then s.seen else Last(Delivered(n, s, offers)))
    decreases |offers|
  {
    if offers != [] {
      var x, rest := offers[0], offers[1..];
      var next := Tick(n, s, x.e, x.valid, x.value);
      var first := if Captures(n, s, x.e) then [next.seen] else [];
      var fired := if Fires(s, x.e, x.valid) then [x.value] else [];
      assert next.hops <= 2 * n + 2 && InTransit(n, s) + fired == first + InTransit(n, next);
      assert next.seen == if first == [] then s.seen else first[0];
      hide Tick, Captures, Fires, InTransit;
      ExactlyOnce(n, next, rest);
      Regroup(InTransit(n, s), fired, Sent(n, next, rest), first, InTransit(n, next), Delivered(n, next, rest),
        InTransit(n, Run(n, next, rest)));
    }
  }

  /** Ticks an always-valid, non-decreasing sender still needs until the receiver shows `v` or more:
      hops left, one launch, and the outward trip of the next handshake if this one is too old. */
  function Distance(n: nat, s: Link<nat>, v: nat): nat
    requires s.hops <= 2 * n + 2
  {
    if v <= s.seen then 0
    else if s.Outbound(n) && v <= s.held then s.hops - (n + 1)
    else s.hops + n + 2
  }

  predicate Publishes(offers: seq<Offer<nat>>, v: nat) {
    forall k :: 0 <= k < |offers| ==> offers[k].valid && v <= offers[k].value
  }

  /** A stretch of a run in which both clocks rise at least once. */
  predicate Round<T>(offers: seq<Offer<T>>) {
    (exists k :: 0 <= k < |offers| && offers[k].e.i) && (exists k :: 0 <= k < |offers| && offers[k].e.o)
  }

  /** Once shown, `v` is not about to be replaced by an older value. */
  predicate NotOvertaken(n: nat, s: Link<nat>, v: nat) {
    v <= s.seen && s.Outbound(n) ==> v <= s.held
  }

  /** The distance never grows; if a stretch leaves it unchanged, the clock being waited for did
      not rise in it. */
  lemma {:induction false} DistanceShrinks(n: nat, s: Link<nat>, offers: seq<Offer<nat>>, v: nat)
    requires s.hops <= 2 * n + 2 && NotOvertaken(n, s, v) && Publishes(offers, v)
    decreases |offers|
    ensures var end := Run(n, s, offers);
      && end.hops <= 2 * n + 2 && NotOvertaken(n, end, v)
      && Distance(n, end, v) <= Distance(n, s, v)
      && (Distance(n, end, v) == Distance(n, s, v) > 0 ==>
            forall k :: 0 <= k < |offers| ==> if s.Outbound(n) then !offers[k].e.o else !offers[k].e.i)
  {
    if offers != [] {
      var next := Tick(n, s, offers[0].e, offers[0].valid, offers[0].value);
      DistanceShrinks(n, next, offers[1..], v);
    }
  }

  lemma {:induction false} RunSplits<T>(n: nat, s: Link<T>, a: seq<Offer<T>>, b: seq<Offer<T>>)
    ensures Run(n, s, a + b) == Run(n, Run(n, s, a), b)
    decreases |a|
  {
    if a == [] {
      assert a + b == b;
    } else {
      assert (a + b)[1..] == a[1..] + b;
      RunSplits(n, Tick(n, s, a[0].e, a[0].valid, a[0].value), a[1..], b);
    }
  }

  /** Bounded latency: a value the sender keeps offering (or exceeding) is shown to the receiver
      after at most 3n+4 rounds, however the two clocks are interleaved inside a round. */
  lemma {:induction false} ShownWithinBound(n: nat, s: Link<nat>, rounds: seq<seq<Offer<nat>>>, v: nat)
    requires s.hops <= 2 * n + 2 && NotOvertaken(n, s, v)
    requires forall k :: 0 <= k < |rounds| ==> Round(rounds[k]) && Publishes(rounds[k], v)
    requires Distance(n, s, v) <= |rounds| || |rounds| >= 3 * n + 4
    ensures v <= Run(n, s, Flatten(rounds)).seen
    decreases |rounds|
  {
    if rounds != [] {
      DistanceShrinks(n, s, rounds[0], v);
      RunSplits(n, s, rounds[0], Flatten(rounds[1..]));
      ShownWithinBound(n, Run(n, s, rounds[0]), rounds[1..], v);
    }
  }

  /** The ring of toggles: launch flop, forward chain, acknowledge flop, return chain, return flop. */
  ghost predicate OneChangePoint(ring: seq<bool>, hops: nat) {
    && hops < |ring|
    && forall j :: 0 <= j < |ring| ==> ring[j] == (ring[0] != (|ring| - hops <= j))
  }

  /** What one tick does to the ring: the launch flop may toggle, the forward part follows it
      on the receiver's clock, the return part follows the forward part on the sender's. */
  ghost function Rotate(n: nat, ring: seq<bool>, e: Edges, launch: bool): (r: seq<bool>)
    requires |ring| == 2 * n + 3
  {
    seq(2 * n + 3, j requires 0 <= j < 2 * n + 3 =>
      if j == 0 then ring[0] != launch
      else if j <= n + 1 then (if e.o then ring[j - 1] else ring[j])
      else (if e.i then ring[j - 1] else ring[j]))
  }

  /** At most one change point, for any interleaving of the clocks: the toggle launched into an
      idle ring travels alone, and the hops left count its way home. */
  lemma ChangePointTravels<T>(n: nat, ring: seq<bool>, s: Link<T>, e: Edges, valid: bool, value: T)
    requires |ring| == 2 * n + 3 && OneChangePoint(ring, s.hops)
    ensures OneChangePoint(Rotate(n, ring, e, Fires(s, e, valid)), Tick(n, s, e, valid, value).hops)
  {
  }

  lemma RotateParts(n: nat, en: bool, forward: seq<bool>, back: seq<bool>, e: Edges, launch: bool)
    requires |forward| == |back| == n + 1
    ensures Rotate(n, [en] + forward + back, e, launch)
         == [en != launch]
            + (if e.o then [en] + forward[..n] else forward)
            + (if e.i then [forward[n]] + back[..n] else back)
  {
  }

  /** Register and re-register one bit. */
  class CdcSync {
    const stages: nat
    var tmp: seq<bool>

    constructor (stages: nat)
      requires stages >= 1
      ensures this.stages == stages && tmp == seq(stages, _ => false)
    {
      this.stages := stages;
      tmp := seq(stages, _ => false);
    }

    predicate Valid()
      reads this
    {
      stages >= 1 && |tmp| == stages
    }

    function O(): bool
      requires Valid()
      reads this
    {
      tmp[stages - 1]
    }

    method Clock(i: bool)
      requires Valid()
      modifies this
      ensures Valid()
      ensures tmp == [i] + old(tmp)[..stages - 1]
    {
      tmp := [i] + tmp[..stages - 1];
    }
  }

  /** A synchroniser followed by a flop; `OPulse` is high while the two disagree. */
  class CdcPulse {
    const sync: CdcSync
    var odata: bool

    constructor (stages: nat)
      requires stages >= 1
      ensures Valid() && fresh(sync) && sync.stages == stages
      ensures Chain() == seq(stages + 1, _ => false)
    {
      sync := new CdcSync(stages);
      odata := false;
    }

    predicate Valid()
      reads this, sync
    {
      sync.Valid()
    }

    function OPulse(): bool
      requires Valid()
      reads this, sync
    {
      sync.O() != odata
    }

    ghost function Chain(): seq<bool>
      reads this, sync
    {
      sync.tmp + [odata]
    }

    method Clock(i: bool)
      requires Valid()
      modifies this, sync
      ensures Valid()
      ensures Chain() == [i] + old(Chain())[..sync.stages]
    {
      odata := sync.O();
      sync.Clock(i);
    }
  }

  class CdcVector<T> {
    const stages: nat
    var iTreadySig: bool
    var enIclk: bool
    var iReg: T
    var o: T
    var oStrb: bool
    const ackogen: CdcPulse
    const ackigen: CdcPulse
    ghost var link: Link<T>

    ghost function Repr(): set<object> {
      {this, ackogen, ackogen.sync, ackigen, ackigen.sync}
    }

    ghost function Ring(): seq<bool>
      reads Repr()
    {
      [enIclk] + ackogen.Chain() + ackigen.Chain()
    }

    ghost predicate Valid()
      reads Repr()
    {
      && ackogen != ackigen && ackogen.sync != ackigen.sync
      && ackogen.Valid() && ackogen.sync.stages == stages
      && ackigen.Valid() && ackigen.sync.stages == stages
      && OneChangePoint(Ring(), link.hops)
      && (iTreadySig <==> link.hops == 0)
      && iReg == link.held
      && o == link.seen
    }

    constructor (stages: nat, powerUp: T)
      requires stages >= 1
      ensures Valid() && fresh(Repr())
      ensures this.stages == stages && link == Link(0, powerUp, powerUp)
    {
      this.stages := stages;
      iTreadySig, enIclk, oStrb := true, false, false;
      iReg, o := powerUp, powerUp;
      ackogen := new CdcPulse(stages);
      ackigen := new CdcPulse(stages);
      link := Link(0, powerUp, powerUp);
    }

    /** Each edge detector fires exactly when the change point stands in front of its flop. */
    lemma Pulses()
      requires Valid()
      ensures ackogen.OPulse() <==> link.hops == stages + 2
      ensures ackigen.OPulse() <==> link.hops == 1
    {
      var ring := Ring();
      assert ring[stages] == ackogen.sync.O() && ring[stages + 1] == ackogen.odata;
      assert ring[2 * stages + 1] == ackigen.sync.O() && ring[2 * stages + 2] == ackigen.odata;
    }

    /** The sender's edge. */
    method ClockI(iTvalid: bool, i: T, ackOclk: bool)
      requires ackigen.Valid()
      modifies `iTreadySig, `enIclk, `iReg, ackigen, ackigen.sync
      ensures ackigen.Valid() && ackigen.Chain() == [ackOclk] + old(ackigen.Chain())[..ackigen.sync.stages]
      ensures iTreadySig == if old(iTreadySig) then !iTvalid else old(ackigen.OPulse())
      ensures enIclk == (old(enIclk) != (old(iTreadySig) && iTvalid))
      ensures iReg == if old(iTreadySig) && iTvalid then i else old(iReg)
    {
      var ackIclk, wasReady := ackigen.OPulse(), iTreadySig;
      if wasReady {
        if iTvalid { iTreadySig := false; }
      } else {
        if ackIclk { iTreadySig := true; }
      }
      if wasReady && iTvalid {
        enIclk := !enIclk;
        iReg := i;
      }
      ackigen.Clock(ackOclk);
    }

    /** The receiver's edge. */
    method ClockO(en: bool, held: T)
      requires ackogen.Valid()
      modifies `o, `oStrb, ackogen, ackogen.sync
      ensures ackogen.Valid() && ackogen.Chain() == [en] + old(ackogen.Chain())[..ackogen.sync.stages]
      ensures oStrb == old(ackogen.OPulse()) && o == if old(ackogen.OPulse()) then held else old(o)
    {
      var enOclk := ackogen.OPulse();
      oStrb := false;
      if enOclk {
        o := held;
        oStrb := true;
      }
      ackogen.Clock(en);
    }

    /** One tick: the registers of each clock that rises are updated from the old state. */
    method Clock(e: Edges, iTvalid: bool, i: T)
      requires Valid()
      modifies Repr()
      ensures Valid()
      ensures link == Tick(stages, old(link), e, iTvalid, i)
      ensures e.o ==> oStrb == Captures(stages, old(link), e)
    {
      hide OneChangePoint, Rotate;
      var wasEn, wasReg, ackOclk := enIclk, iReg, ackogen.odata;
      ghost var ring, forward, back, was := Ring(), ackogen.Chain(), ackigen.Chain(), link;
      Pulses();
      if e.i {
        ClockI(iTvalid, i, ackOclk);
      }
      if e.o {
        ClockO(wasEn, wasReg);
      }
      link := Tick(stages, link, e, iTvalid, i);
      ChangePointTravels(stages, ring, was, e, iTvalid, i);
      RotateParts(stages, wasEn, forward, back, e, Fires(was, e, iTvalid));
    }
  }
}
