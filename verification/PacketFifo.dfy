/** synth/axis/axis_packet_fifo.sv: a packet FIFO on one clock. `Fifo` is the abstract machine, two
    queues and an output register; the class keeps the hardware's wrapped pointers and memory. */
module PacketFifo {
  import opened Axis
  import opened Pointers

  datatype Fifo<T> = Fifo(
    ready: seq<Beat<T>>,    // complete packets, readable
    pending: seq<Beat<T>>,  // the packet being written
    dropping: bool,         // it is being discarded
    out: Option<Beat<T>>)
  {
    function Unread(): seq<Beat<T>> { out.ToSeq() + ready }

    predicate Fits(depth: nat) { |ready| + |pending| <= depth }

    predicate Full(depth: nat) { |ready| + |pending| == depth }
  }

  datatype Transfer<T> = Transfer(beat: Beat<T>, drop: bool)

  datatype Input<T> = Input(iTvalid: bool, beat: Beat<T>, drop: bool, oTready: bool)

  function Reset<T>(): Fifo<T> {
    Fifo([], [], false, None)
  }

  predicate ITready<T>(depth: nat, s: Fifo<T>, drop: bool) {
    !s.Full(depth) || drop
  }

  predicate Accepts<T>(depth: nat, s: Fifo<T>, x: Input<T>) {
    x.iTvalid && ITready(depth, s, x.drop)
  }

  /** The output register refills from the queue when it is empty or being taken. */
  function ReadPort<T>(s: Fifo<T>, oTready: bool): Fifo<T> {
    if s.ready != [] && (s.out.None? || oTready) then s.(ready := s.ready[1..], out := Some(s.ready[0]))
    else if oTready then s.(out := None)
    else s
  }

  /** One accepted transfer: the drop flag sticks until the last beat and discards what is pending. */
  function WritePort<T>(s: Fifo<T>, t: Transfer<T>): Fifo<T> {
    if s.dropping || t.drop then s.(pending := [], dropping := !t.beat.last)
    else if t.beat.last then s.(ready := s.ready + s.pending + [t.beat], pending := [])
    else s.(pending := s.pending + [t.beat])
  }

  /** One clock edge. Both ports decide on the old state. */
  function Step<T>(depth: nat, s: Fifo<T>, x: Input<T>): (r: Fifo<T>)
    requires s.Fits(depth)
    ensures r.Fits(depth)
  {
    var m := ReadPort(s, x.oTready);
    if Accepts(depth, s, x) then WritePort(m, Transfer(x.beat, x.drop)) else m
  }

  // ---------- Whole runs ----------

  function Taken<T>(depth: nat, s: Fifo<T>, x: Input<T>): seq<Transfer<T>> {
    if Accepts(depth, s, x) then [Transfer(x.beat, x.drop)] else []
  }

  function Given<T>(s: Fifo<T>, x: Input<T>): seq<Beat<T>> {
    if x.oTready then s.out.ToSeq() else []
  }

  function Run<T>(depth: nat, s: Fifo<T>, xs: seq<Input<T>>): (r: Fifo<T>)
    requires s.Fits(depth)
    ensures r.Fits(depth)
    decreases |xs|
  {
    if xs == [] then s else Run(depth, Step(depth, s, xs[0]), xs[1..])
  }

  function Accepted<T>(depth: nat, s: Fifo<T>, xs: seq<Input<T>>): seq<Transfer<T>>
    requires s.Fits(depth)
    decreases |xs|
  {
    if xs == [] then [] else Taken(depth, s, xs[0]) + Accepted(depth, Step(depth, s, xs[0]), xs[1..])
  }

  function Emitted<T>(depth: nat, s: Fifo<T>, xs: seq<Input<T>>): seq<Beat<T>>
    requires s.Fits(depth)
    decreases |xs|
  {
    if xs == [] then [] else Given(s, xs[0]) + Emitted(depth, Step(depth, s, xs[0]), xs[1..])
  }

  // ---------- What the stream of transfers asks for ----------

  predicate AnyDrop<T>(packet: seq<Transfer<T>>) {
    exists k :: 0 <= k < |packet| && packet[k].drop
  }

  function Beats<T>(packet: seq<Transfer<T>>): seq<Beat<T>> {
    seq(|packet|, k requires 0 <= k < |packet| => packet[k].beat)
  }

  /** The beats of the complete packets in which no transfer carried the drop flag; `open` is the
      part already seen of the packet under way. */
  function Kept<T>(open: seq<Transfer<T>>, ts: seq<Transfer<T>>): seq<Beat<T>>
    decreases |ts|
  {
    if ts == [] then [] else
      var packet := open + [ts[0]];
      if ts[0].beat.last then (if AnyDrop(packet) then [] else Beats(packet)) + Kept([], ts[1..])
      else Kept(packet, ts[1..])
  }

  function StillOpen<T>(open: seq<Transfer<T>>, ts: seq<Transfer<T>>): seq<Transfer<T>>
    decreases |ts|
  {
    if ts == [] then open
    else StillOpen(if ts[0].beat.last then [] else open + [ts[0]], ts[1..])
  }

  /** The write side remembers of the packet under way what it must. */
  ghost predicate Writing<T>(s: Fifo<T>, open: seq<Transfer<T>>) {
    && s.dropping == AnyDrop(open)
    && s.pending == if s.dropping then [] else Beats(open)
  }

  ghost predicate Conserves<T>(s: Fifo<T>, open: seq<Transfer<T>>, ts: seq<Transfer<T>>, es: seq<Beat<T>>, r: Fifo<T>) {
    && s.Unread() + Kept(open, ts) == es + r.Unread()
    && Writing(r, StillOpen(open, ts))
  }

  lemma ReadPortConserves<T>(s: Fifo<T>, open: seq<Transfer<T>>, oTready: bool)
    requires Writing(s, open)
    ensures Conserves(s, open, [], if oTready then s.out.ToSeq() else [], ReadPort(s, oTready))
    ensures Writing(ReadPort(s, oTready), open)
  {
    hide AnyDrop, Beats;
  }

  lemma WritePortKeeps<T>(s: Fifo<T>, open: seq<Transfer<T>>, t: Transfer<T>)
    requires Writing(s, open)
    ensures Conserves(s, open, [t], [], WritePort(s, t))
  {
    var packet := open + [t];
    assert Kept([], [t][1..]) == [];
    assert packet[|open|] == t;
    assert AnyDrop(packet) == (AnyDrop(open) || t.drop) by {
      if AnyDrop(open) {
        var k :| 0 <= k < |open| && open[k].drop;
        assert packet[k].drop;
      }
    }
    assert Beats(packet) == Beats(open) + [t.beat];
  }

  lemma ConservesChain<T>(s: Fifo<T>, open: seq<Transfer<T>>, t: seq<Transfer<T>>, e: seq<Beat<T>>,
                          m: Fifo<T>, ts: seq<Transfer<T>>, es: seq<Beat<T>>, r: Fifo<T>)
    requires |t| <= 1 && Conserves(s, open, t, e, m) && Conserves(m, StillOpen(open, t), ts, es, r)
    ensures Conserves(s, open, t + ts, e + es, r)
  {
    var next := StillOpen(open, t);
    assert Kept(open, t + ts) == Kept(open, t) + Kept(next, ts) && StillOpen(open, t + ts) == StillOpen(next, ts)
    by {
      if t == [] {
        assert t + ts == ts;
      } else {
        assert (t + ts)[0] == t[0] && (t + ts)[1..] == ts && t[1..] == [];
        var o := if t[0].beat.last then [] else open + [t[0]];
        assert StillOpen(o, t[1..]) == o && Kept(o, t[1..]) == [];
      }
    }
    Regroup(s.Unread(), Kept(open, t), Kept(next, ts), e, m.Unread(), es, r.Unread());
  }

  lemma StepConserves<T>(depth: nat, s: Fifo<T>, open: seq<Transfer<T>>, x: Input<T>)
    requires s.Fits(depth) && Writing(s, open)
    ensures Conserves(s, open, Taken(depth, s, x), Given(s, x), Step(depth, s, x))
  {
    hide Conserves, Writing, ReadPort, WritePort, Kept, StillOpen;
    var m, t := ReadPort(s, x.oTready), Transfer(x.beat, x.drop);
    ReadPortConserves(s, open, x.oTready);
    if Accepts(depth, s, x) {
      WritePortKeeps(m, open, t);
      NothingAccepted(open);
      ConservesChain(s, open, [], Given(s, x), m, [t], [], WritePort(m, t));
      assert [] + [t] == [t] && Given(s, x) + [] == Given(s, x);
    }
  }

  lemma NothingAccepted<T>(open: seq<Transfer<T>>)
    ensures StillOpen(open, []) == open
  {
  }

  lemma {:induction false} RunConserves<T>(depth: nat, s: Fifo<T>, open: seq<Transfer<T>>, xs: seq<Input<T>>)
    requires s.Fits(depth) && Writing(s, open)
    ensures Conserves(s, open, Accepted(depth, s, xs), Emitted(depth, s, xs), Run(depth, s, xs))
    decreases |xs|
  {
    if xs != [] {
      var t, next := Taken(depth, s, xs[0]), Step(depth, s, xs[0]);
      StepConserves(depth, s, open, xs[0]);
      RunConserves(depth, next, StillOpen(open, t), xs[1..]);
      ConservesChain(s, open, t, Given(s, xs[0]), next,
        Accepted(depth, next, xs[1..]), Emitted(depth, next, xs[1..]), Run(depth, next, xs[1..]));
    }
  }

  /** Every run from reset outputs, in order, a prefix of the beats of exactly the complete packets
      in which drop was never asserted on an accepted beat; the rest is still inside. */
  lemma EmitsKeptPackets<T>(depth: nat, xs: seq<Input<T>>)
    ensures Kept([], Accepted(depth, Reset(), xs))
         == Emitted(depth, Reset(), xs) + Run(depth, Reset(), xs).Unread()
  {
    RunConserves(depth, Reset(), [], xs);
    assert Reset<T>().Unread() == [];
  }

  // ---------- What the sink sees ----------

  /** Whatever the sink does, a complete packet's beat is on show after the next clock: valid does not
      wait for ready. Once shown, a beat stays until it is taken. */
  lemma ValidComesFirst<T>(depth: nat, s: Fifo<T>, x: Input<T>)
    requires s.Fits(depth)
    ensures s.ready != [] ==> Step(depth, s, x).out.Some?
    ensures s.out.Some? && !x.oTready ==> Step(depth, s, x).out == s.out
  {
  }

  /** The sink takes every beat at latest `patience` cycles after the one in which it is first shown, and
      may hold ready low until it sees valid; `left` is what is left of that for the beat on show. */
  predicate Answers<T>(depth: nat, s: Fifo<T>, xs: seq<Input<T>>, patience: nat, left: nat)
    requires s.Fits(depth)
    decreases |xs|
  {
    if xs == [] then true
    else if s.out.None? || xs[0].oTready then Answers(depth, Step(depth, s, xs[0]), xs[1..], patience, patience)
    else left > 0 && Answers(depth, Step(depth, s, xs[0]), xs[1..], patience, left - 1)
  }

  /** Cycles until the first `count` beats that can be read have left. */
  function DrainTime<T>(s: Fifo<T>, count: nat, patience: nat, left: nat): nat {
    if count == 0 then 0
    else if s.out.Some? then left + 1 + (count - 1) * (patience + 1)
    else 1 + count * (patience + 1)
  }

  lemma DrainStep<T>(depth: nat, s: Fifo<T>, x: Input<T>, count: nat, patience: nat, left: nat)
    requires s.Fits(depth) && 0 < count <= |s.Unread()|
    requires s.out.None? || x.oTready || left > 0
    ensures var next, rest := Step(depth, s, x), count - |Given(s, x)|;
      && 0 <= rest <= |next.Unread()|
      && DrainTime(next, rest, patience, if s.out.None? || x.oTready then patience else left - 1)
         <= DrainTime(s, count, patience, left) - 1
  {
    var next, rest := Step(depth, s, x), count - |Given(s, x)|;
    ValidComesFirst(depth, s, x);
    ReadyKept(depth, s, x);
    assert rest > 0 ==> (rest - 1) * (patience + 1) + (patience + 1) == rest * (patience + 1);
  }

  lemma ReadyKept<T>(depth: nat, s: Fifo<T>, x: Input<T>)
    requires s.Fits(depth)
    ensures |s.Unread()| <= |Given(s, x)| + |Step(depth, s, x).Unread()|
  {
  }

  lemma {:induction false} Leaves<T>(depth: nat, s: Fifo<T>, xs: seq<Input<T>>, count: nat, patience: nat, left: nat)
    requires s.Fits(depth) && count <= |s.Unread()| && left <= patience
    requires Answers(depth, s, xs, patience, left) && |xs| >= DrainTime(s, count, patience, left)
    ensures count <= |Emitted(depth, s, xs)|
    decreases |xs|
  {
    hide Step, Given, DrainTime;
    if count > 0 {
      SomeTime(s, count, patience, left);
      DrainStep(depth, s, xs[0], count, patience, left);
      Leaves(depth, Step(depth, s, xs[0]), xs[1..], count - |Given(s, xs[0])|, patience,
        if s.out.None? || xs[0].oTready then patience else left - 1);
    }
  }

  lemma SomeTime<T>(s: Fifo<T>, count: nat, patience: nat, left: nat)
    requires count > 0
    ensures DrainTime(s, count, patience, left) > 0
  {
  }

  lemma TimeForAll<T>(s: Fifo<T>, count: nat, patience: nat)
    ensures DrainTime(s, count, patience, patience) <= 1 + count * (patience + 1)
  {
    assert count > 0 ==> (count - 1) * (patience + 1) + (patience + 1) == count * (patience + 1);
  }

  lemma PrefixOfSame<T>(a: seq<T>, b: seq<T>, c: seq<T>, d: seq<T>)
    requires a + b == c + d && |a| <= |c|
    ensures a <= c
  {
    assert a == (a + b)[..|a|] == (c + d)[..|a|] == c[..|a|];
  }

  /** Every sink that answers valid, however late, gets everything that can be read in bounded time,
      whatever the source does meanwhile. */
  lemma UnreadDrains<T>(depth: nat, s: Fifo<T>, open: seq<Transfer<T>>, xs: seq<Input<T>>, patience: nat)
    requires s.Fits(depth) && Writing(s, open) && Answers(depth, s, xs, patience, patience)
    requires |xs| >= 1 + |s.Unread()| * (patience + 1)
    ensures s.Unread() <= Emitted(depth, s, xs)
  {
    hide Writing, Answers, DrainTime, Emitted, Accepted, Kept, Run;
    TimeForAll(s, |s.Unread()|, patience);
    Leaves(depth, s, xs, |s.Unread()|, patience, patience);
    RunConserves(depth, s, open, xs);
    PrefixOfSame(s.Unread(), Kept(open, Accepted(depth, s, xs)), Emitted(depth, s, xs), Run(depth, s, xs).Unread());
  }

  // ---------- When a full FIFO moves again ----------

  /** A full FIFO whose sink takes a beat can accept again after that clock, unless the unfinished
      packet fills the whole memory by itself. */
  lemma FullUnblocksIff<T>(depth: nat, s: Fifo<T>, x: Input<T>)
    requires s.Full(depth) && !x.drop && x.oTready
    ensures ITready(depth, Step(depth, s, x), false) <==> |s.pending| < depth
  {
  }

  predicate NoDrop<T>(xs: seq<Input<T>>) {
    forall k :: 0 <= k < |xs| ==> !xs[k].drop
  }

  /** In that one case it locks up: whatever the sink does, no beat without drop is ever accepted. */
  lemma {:induction false} FilledByOnePacketLocksUp<T>(depth: nat, s: Fifo<T>, xs: seq<Input<T>>)
    requires |s.pending| == depth && s.ready == []
    requires NoDrop(xs)
    ensures Accepted(depth, s, xs) == [] && Run(depth, s, xs).pending == s.pending
    decreases |xs|
  {
    if xs != [] {
      FilledByOnePacketLocksUp(depth, Step(depth, s, xs[0]), xs[1..]);
    }
  }

  /** Sources that offer `depth` beats of a packet in a row get there, whatever the sink does. */
  lemma {:induction false} LongPacketFills<T>(depth: nat, s: Fifo<T>, xs: seq<Input<T>>)
    requires s.ready == [] && !s.dropping && |s.pending| + |xs| == depth
    requires forall k :: 0 <= k < |xs| ==> xs[k].iTvalid && !xs[k].drop && !xs[k].beat.last
    ensures var r := Run(depth, s, xs); |r.pending| == depth && r.ready == []
    decreases |xs|
  {
    if xs != [] {
      LongPacketFills(depth, Step(depth, s, xs[0]), xs[1..]);
    }
  }

  /** The first `depth` transfers of a packet without a last and a drop among them, all accepted. */
  predicate FilledByOnePacket<T>(depth: nat, ts: seq<Transfer<T>>) {
    |StillOpen([], ts)| == depth && !AnyDrop(StillOpen([], ts))
  }

  /** Nothing the source or the sink does ever gets a beat accepted again, short of a drop. */
  ghost predicate LockedUp<T(!new)>(depth: nat, s: Fifo<T>)
    requires s.Fits(depth)
  {
    forall xs: seq<Input<T>> :: NoDrop(xs) ==> Accepted(depth, s, xs) == []
  }

  /** A drop is always accepted, also when the FIFO is full, and frees what the packet under way held. */
  lemma DropGetsIn<T>(depth: nat, s: Fifo<T>, x: Input<T>)
    requires s.Fits(depth) && x.iTvalid && x.drop
    ensures Taken(depth, s, x) == [Transfer(x.beat, true)]
    ensures var r := Step(depth, s, x); r.pending == [] && r.dropping == !x.beat.last
  {
  }

  /** So one drop ends a lock-up for good. */
  lemma DropUnlocks<T(!new)>(depth: nat, s: Fifo<T>, x: Input<T>)
    requires depth > 0 && |s.pending| == depth && s.ready == [] && x.iTvalid && x.drop
    ensures !LockedUp(depth, Step(depth, s, x))
  {
    BeatGetsIn(depth, Step(depth, s, x), x.beat);
  }

  /** Where there is room for the packet under way, a beat gets in: at once, or after one is read. */
  lemma BeatGetsIn<T>(depth: nat, s: Fifo<T>, b: Beat<T>)
    requires s.Fits(depth) && |s.pending| < depth
    ensures var xs := [Input(false, b, false, true), Input(true, b, false, true)];
      NoDrop(xs) && Accepted(depth, s, xs) != []
  {
    var wait, offer := Input(false, b, false, true), Input(true, b, false, true);
    var next := Step(depth, s, wait);
    assert [wait, offer][1..] == [offer] && [offer][1..] == [];
    assert ITready(depth, next, false) by {
      if s.Full(depth) {
        FullUnblocksIff(depth, s, wait);
      }
    }
    assert Accepted(depth, next, [offer]) == [Transfer(b, false)] + Accepted(depth, Step(depth, next, offer), []);
  }

  /** Any run from reset: the FIFO is locked up at its end if and only if what was accepted ends in
      `depth` beats of one packet that is neither complete nor dropped. */
  lemma LockedUpIff<T(!new)>(depth: nat, xs: seq<Input<T>>, some: Beat<T>)
    requires depth > 0
    ensures LockedUp(depth, Run(depth, Reset<T>(), xs))
       <==> FilledByOnePacket(depth, Accepted(depth, Reset<T>(), xs))
  {
    var s, open := Run(depth, Reset(), xs), StillOpen([], Accepted(depth, Reset<T>(), xs));
    RunConserves(depth, Reset(), [], xs);
    assert |s.pending| == depth <==> |open| == depth && !AnyDrop(open);
    if |s.pending| == depth {
      forall ys: seq<Input<T>> | NoDrop(ys)
        ensures Accepted(depth, s, ys) == []
      {
        FilledByOnePacketLocksUp(depth, s, ys);
      }
    } else {
      BeatGetsIn(depth, s, some);
    }
  }

  // ---------- The hardware ----------

  /** A beat stored at the write pointer extends the pending cells, and with them the ready ones. */
  lemma Store<B>(depth: nat, mem: seq<B>, rd: nat, committed: nat, wr: nat, b: B)
    requires |mem| == depth && rd < 2 * depth && committed < 2 * depth && wr < 2 * depth
    requires Distance(depth, rd, committed) + Distance(depth, committed, wr) < depth
    ensures var n, m := Distance(depth, rd, committed), Distance(depth, committed, wr);
      var mem' := mem[Addr(depth, wr) := b];
      && Distance(depth, committed, Inc(depth, wr)) == m + 1
      && Distance(depth, rd, Inc(depth, wr)) == n + m + 1
      && Cells(depth, mem', rd, n) == Cells(depth, mem, rd, n)
      && Cells(depth, mem', committed, m + 1) == Cells(depth, mem, committed, m) + [b]
      && Cells(depth, mem', rd, n + m + 1) == Cells(depth, mem, rd, n) + Cells(depth, mem, committed, m) + [b]
  {
    var n, m := Distance(depth, rd, committed), Distance(depth, committed, wr);
    var mem' := mem[Addr(depth, wr) := b];
    CellsWrite(depth, mem, committed, m, b);
    CellsSplit(depth, mem', rd, n, m + 1);
  }

  class PacketFifo<T> {
    const depth: nat
    const mem: array<Beat<T>>
    var rdPtr: nat
    var wrPtr: nat
    var committedWrPtr: nat
    var drop: bool
    var axisOTvalid: bool
    var axisO: Beat<T>

    ghost predicate Valid()
      reads this, mem
    {
      && mem.Length == depth > 0
      && rdPtr < 2 * depth && wrPtr < 2 * depth && committedWrPtr < 2 * depth
      && Distance(depth, rdPtr, committedWrPtr) + Distance(depth, committedWrPtr, wrPtr) <= depth
    }

    ghost function View(): Fifo<T>
      requires Valid()
      reads this, mem
    {
      Fifo(
        Cells(depth, mem[..], rdPtr, Distance(depth, rdPtr, committedWrPtr)),
        Cells(depth, mem[..], committedWrPtr, Distance(depth, committedWrPtr, wrPtr)),
        drop,
        if axisOTvalid then Some(axisO) else None)
    }

    constructor (depth: nat, powerUp: Beat<T>)
      requires depth > 0
      ensures Valid() && fresh(mem) && this.depth == depth
      ensures View() == Reset()
    {
      this.depth := depth;
      mem := new Beat<T>[depth](_ => powerUp);
      wrPtr, rdPtr, committedWrPtr := 0, 0, 0;
      axisOTvalid, axisO := false, powerUp;
      drop := false;
    }

    predicate AxisITready(axisIDrop: bool): (ready: bool)
      requires Valid()
      reads this, mem
      ensures ready <==> ITready(depth, View(), axisIDrop)
    {
      !Pointers.Full(depth, rdPtr, wrPtr) || axisIDrop
    }

    method ClockReadPort(oTready: bool)
      requires Valid()
      modifies this`rdPtr, this`axisO, this`axisOTvalid
      ensures Valid()
      ensures View() == ReadPort(old(View()), oTready)
    {
      var read := rdPtr != committedWrPtr && (!axisOTvalid || oTready);
      if oTready {
        axisOTvalid := false;
      }
      if read {
        CellsRead(depth, mem[..], rdPtr, Distance(depth, rdPtr, committedWrPtr));
        axisO := mem[Addr(depth, rdPtr)];
        axisOTvalid := true;
        rdPtr := Inc(depth, rdPtr);
      }
    }

    method ClockWritePort(t: Transfer<T>)
      requires Valid() && (View().Full(depth) ==> t.drop)
      modifies this`wrPtr, this`committedWrPtr, this`drop, mem
      ensures Valid()
      ensures View() == WritePort(old(View()), t)
    {
      var wasDrop := drop;
      drop := if t.drop then true else wasDrop;
      if wasDrop || t.drop {
        wrPtr := committedWrPtr;
      } else {
        Store(depth, mem[..], rdPtr, committedWrPtr, wrPtr, t.beat);
        mem[Addr(depth, wrPtr)] := t.beat;
        wrPtr := Inc(depth, wrPtr);
        if t.beat.last {
          committedWrPtr := wrPtr;
        }
      }
      if t.beat.last {
        drop := false;
      }
    }

    /** One clock edge. The two ports update different registers; whether the write port moves is
        decided on the old read pointer, and the cell it writes is not the one being read. */
    method Clock(x: Input<T>)
      requires Valid()
      modifies this, mem
      ensures Valid()
      ensures View() == Step(depth, old(View()), x)
    {
      var accepts := AxisITready(x.drop) && x.iTvalid;
      ClockReadPort(x.oTready);
      if accepts {
        ClockWritePort(Transfer(x.beat, x.drop));
      }
    }
  }
}
