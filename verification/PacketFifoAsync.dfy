/** synth/axis/axis_packet_fifo_async.sv: a packet FIFO between two unrelated clocks. `Fifo` is the
    abstract machine, with pointers that never wrap and a log of what was written and not rolled back;
    the class keeps wrapping pointers, a RAM and two crossings, and is proved to run that machine. */
module PacketFifoAsync {
  import opened Axis
  import opened Cdc
  import opened Pointers

  datatype Fifo<T> = Fifo(
    log: seq<Beat<T>>,
    committed: nat,
    rd: nat,
    toReader: Link<nat>,  // carries `committed`
    toWriter: Link<nat>,  // carries `rd`
    out: Option<Beat<T>>)
  {
    /** Committed and not yet output. */
    function Unread(): seq<Beat<T>>
      requires rd <= committed <= |log|
    {
      out.ToSeq() + log[rd..committed]
    }

    function Uncommitted(): seq<Beat<T>>
      requires committed <= |log|
    {
      log[committed..]
    }
  }

  datatype Input<T> = Input(e: Edges, iTvalid: bool, beat: Beat<T>, drop: bool, oTready: bool)

  /** What each side knows of the other is stale, but only ever on the safe side. */
  predicate Ordered<T>(depth: nat, n: nat, s: Fifo<T>) {
    && s.toReader.hops <= 2 * n + 2 && s.toWriter.hops <= 2 * n + 2
    && s.toWriter.seen <= s.toWriter.held <= s.rd
    && s.rd <= s.toReader.seen <= s.toReader.held <= s.committed
    && s.committed <= |s.log| <= s.toWriter.seen + depth
  }

  predicate Accepts<T>(depth: nat, s: Fifo<T>, x: Input<T>) {
    x.e.i && x.iTvalid && |s.log| < s.toWriter.seen + depth
  }

  predicate Reads<T>(s: Fifo<T>, x: Input<T>) {
    x.e.o && s.rd < s.toReader.seen && (s.out.None? || x.oTready)
  }

  predicate Emits<T>(s: Fifo<T>, x: Input<T>) {
    x.e.o && s.out.Some? && x.oTready
  }

  function Step<T>(depth: nat, n: nat, s: Fifo<T>, x: Input<T>): (r: Fifo<T>)
    requires Ordered(depth, n, s)
    ensures Ordered(depth, n, r)
  {
    var keeps := Accepts(depth, s, x) && !x.drop;
    Fifo(
      if keeps then s.log + [x.beat] else if Accepts(depth, s, x) then s.log[..s.committed] else s.log,
      if keeps && x.beat.last then |s.log| + 1 else s.committed,
      if Reads(s, x) then s.rd + 1 else s.rd,
      Tick(n, s.toReader, x.e, true, s.committed),
      Tick(n, s.toWriter, Edges(x.e.o, x.e.i), true, s.rd),
      if Reads(s, x) then Some(s.log[s.rd]) else if x.e.o && x.oTready then None else s.out)
  }

  function Reset<T>(): Fifo<T> {
    Fifo([], 0, 0, Link(0, 0, 0), Link(0, 0, 0), None)
  }

  // ---------- Whole runs ----------

  function Run<T>(depth: nat, n: nat, s: Fifo<T>, xs: seq<Input<T>>): (r: Fifo<T>)
    requires Ordered(depth, n, s)
    ensures Ordered(depth, n, r)
    decreases |xs|
  {
    if xs == [] then s else Run(depth, n, Step(depth, n, s, xs[0]), xs[1..])
  }

  /** The transfers at the input port, each with its drop flag. */
  datatype Transfer<T> = Transfer(beat: Beat<T>, drop: bool)

  function Taken<T>(depth: nat, s: Fifo<T>, x: Input<T>): (ts: seq<Transfer<T>>)
    ensures |ts| <= 1
  {
    if Accepts(depth, s, x) then [Transfer(x.beat, x.drop)] else []
  }

  function Given<T>(s: Fifo<T>, x: Input<T>): seq<Beat<T>> {
    if Emits(s, x) then [s.out.value] else []
  }

  function Accepted<T>(depth: nat, n: nat, s: Fifo<T>, xs: seq<Input<T>>): seq<Transfer<T>>
    requires Ordered(depth, n, s)
    decreases |xs|
  {
    if xs == [] then [] else
      Taken(depth, s, xs[0]) + Accepted(depth, n, Step(depth, n, s, xs[0]), xs[1..])
  }

  /** The transfers at the output port. */
  function Emitted<T>(depth: nat, n: nat, s: Fifo<T>, xs: seq<Input<T>>): seq<Beat<T>>
    requires Ordered(depth, n, s)
    decreases |xs|
  {
    if xs == [] then [] else
      Given(s, xs[0]) + Emitted(depth, n, Step(depth, n, s, xs[0]), xs[1..])
  }

  /** What the port protocol promises to forward: everything since the last commit or drop, each
      time a last beat is accepted without drop. `open` is the packet under way. */
  function Committed<T>(open: seq<Beat<T>>, ts: seq<Transfer<T>>): seq<Beat<T>>
    decreases |ts|
  {
    if ts == [] then []
    else if ts[0].drop then Committed([], ts[1..])
    else if ts[0].beat.last then open + [ts[0].beat] + Committed([], ts[1..])
    else Committed(open + [ts[0].beat], ts[1..])
  }

  function StillOpen<T>(open: seq<Beat<T>>, ts: seq<Transfer<T>>): seq<Beat<T>>
    decreases |ts|
  {
    if ts == [] then open
    else if ts[0].drop || ts[0].beat.last then StillOpen([], ts[1..])
    else StillOpen(open + [ts[0].beat], ts[1..])
  }

  /** Nothing is lost between two states: what was unread plus what the transfers commit is what was
      emitted plus what is unread now. */
  ghost predicate Conserves<T>(s: Fifo<T>, ts: seq<Transfer<T>>, es: seq<Beat<T>>, r: Fifo<T>)
    requires s.rd <= s.committed <= |s.log| && r.rd <= r.committed <= |r.log|
  {
    && s.Unread() + Committed(s.Uncommitted(), ts) == es + r.Unread()
    && r.Uncommitted() == StillOpen(s.Uncommitted(), ts)
  }

  /** The read side moves beats from the log to the output register to the sink. */
  lemma ReadSideConserves<T>(depth: nat, n: nat, s: Fifo<T>, x: Input<T>)
    requires Ordered(depth, n, s)
    ensures var r := Step(depth, n, s, x); Conserves(s, [], Given(s, x), s.(rd := r.rd, out := r.out))
  {
    if Reads(s, x) {
      assert s.log[s.rd..s.committed] == [s.log[s.rd]] + s.log[s.rd + 1..s.committed];
    }
  }

  /** The write side appends to what is committed exactly what the transfer commits. */
  lemma WriteSideCommits<T>(depth: nat, n: nat, s: Fifo<T>, x: Input<T>)
    requires Ordered(depth, n, s)
    ensures var r := Step(depth, n, s, x);
      Conserves(s.(rd := r.rd, out := r.out), Taken(depth, s, x), [], r)
  {
    var r := Step(depth, n, s, x);
    if Accepts(depth, s, x) && !x.drop && x.beat.last {
      assert r.log[r.rd..r.committed] == s.log[r.rd..s.committed] + (s.Uncommitted() + [x.beat]);
    } else {
      assert r.log[r.rd..r.committed] == s.log[r.rd..s.committed];
    }
  }

  lemma ConservesChain<T>(s: Fifo<T>, t: seq<Transfer<T>>, e: seq<Beat<T>>,
                          m: Fifo<T>, ts: seq<Transfer<T>>, es: seq<Beat<T>>, r: Fifo<T>)
    requires s.rd <= s.committed <= |s.log| && m.rd <= m.committed <= |m.log| && r.rd <= r.committed <= |r.log|
    requires |t| <= 1 && Conserves(s, t, e, m) && Conserves(m, ts, es, r)
    ensures Conserves(s, t + ts, e + es, r)
  {
    var open := s.Uncommitted();
    assert Committed(open, t + ts) == Committed(open, t) + Committed(StillOpen(open, t), ts)
        && StillOpen(open, t + ts) == StillOpen(StillOpen(open, t), ts)
    by {
      assert t + ts == if t == [] then ts else [t[0]] + ts;
    }
    Regroup(s.Unread(), Committed(open, t), Committed(m.Uncommitted(), ts), e, m.Unread(), es, r.Unread());
  }

  lemma StepConserves<T>(depth: nat, n: nat, s: Fifo<T>, x: Input<T>)
    requires Ordered(depth, n, s)
    ensures Conserves(s, Taken(depth, s, x), Given(s, x), Step(depth, n, s, x))
  {
    var r := Step(depth, n, s, x);
    var mid := s.(rd := r.rd, out := r.out);
    ReadSideConserves(depth, n, s, x);
    WriteSideCommits(depth, n, s, x);
    hide Conserves, Taken, Given, Committed, StillOpen;
    ConservesChain(s, [], Given(s, x), mid, Taken(depth, s, x), [], r);
    assert [] + Taken(depth, s, x) == Taken(depth, s, x) && Given(s, x) + [] == Given(s, x);
  }

  lemma {:induction false} RunConserves<T>(depth: nat, n: nat, s: Fifo<T>, xs: seq<Input<T>>)
    requires Ordered(depth, n, s)
    ensures Conserves(s, Accepted(depth, n, s, xs), Emitted(depth, n, s, xs), Run(depth, n, s, xs))
    decreases |xs|
  {
    hide Step, Taken, Given;
    if xs != [] {
      var next := Step(depth, n, s, xs[0]);
      StepConserves(depth, n, s, xs[0]);
      RunConserves(depth, n, next, xs[1..]);
      hide Conserves;
      ConservesChain(s, Taken(depth, s, xs[0]), Given(s, xs[0]), next,
        Accepted(depth, n, next, xs[1..]), Emitted(depth, n, next, xs[1..]), Run(depth, n, next, xs[1..]));
    }
  }

  /** Safety of every run from reset, for any interleaving of the two clocks and any back-pressure:
      the beats emitted, then the one held at the output, then the unread ones, are the committed
      beats, so nothing is lost, duplicated, reordered or shown before its packet is committed. */
  lemma EmitsCommittedPrefix<T>(depth: nat, n: nat, xs: seq<Input<T>>)
    requires Ordered(depth, n, Reset<T>())
    ensures var r := Run(depth, n, Reset(), xs);
      Committed([], Accepted(depth, n, Reset(), xs)) == Emitted(depth, n, Reset(), xs) + r.Unread()
  {
    RunConserves(depth, n, Reset(), xs);
    assert Reset<T>().Unread() == [] && Reset<T>().Uncommitted() == [];
  }

  // ---------- Progress ----------

  /** What the run offers to the crossing towards the reader. */
  function CommitOffers<T>(depth: nat, n: nat, s: Fifo<T>, xs: seq<Input<T>>): seq<Offer<nat>>
    requires Ordered(depth, n, s)
    decreases |xs|
  {
    if xs == [] then [] else
      [Offer(xs[0].e, true, s.committed)] + CommitOffers(depth, n, Step(depth, n, s, xs[0]), xs[1..])
  }

  lemma {:induction false} RunCrosses<T>(depth: nat, n: nat, s: Fifo<T>, xs: seq<Input<T>>)
    requires Ordered(depth, n, s)
    ensures var os := CommitOffers(depth, n, s, xs);
      && |os| == |xs| && Publishes(os, s.committed)
      && (forall k :: 0 <= k < |xs| ==> os[k].e == xs[k].e)
      && Run(depth, n, s, xs).toReader == Cdc.Run(n, s.toReader, os)
      && s.committed <= Run(depth, n, s, xs).committed
    decreases |xs|
  {
    if xs != [] {
      RunCrosses(depth, n, Step(depth, n, s, xs[0]), xs[1..]);
    }
  }

  predicate BothRise<T>(xs: seq<Input<T>>) {
    (exists k :: 0 <= k < |xs| && xs[k].e.i) && (exists k :: 0 <= k < |xs| && xs[k].e.o)
  }

  /** A committed packet is seen by the reader at most 3n+4 rounds later, a round being any stretch
      in which both clocks rise. */
  lemma {:induction false} CommitBecomesVisible<T>(depth: nat, n: nat, s: Fifo<T>, rounds: seq<seq<Input<T>>>, v: nat)
    requires Ordered(depth, n, s) && v <= s.committed
    requires forall k :: 0 <= k < |rounds| ==> BothRise(rounds[k])
    requires Cdc.Distance(n, s.toReader, v) <= |rounds| || 3 * n + 4 <= |rounds|
    ensures v <= Run(depth, n, s, Flatten(rounds)).toReader.seen
    decreases |rounds|
  {
    if rounds != [] {
      var next := Run(depth, n, s, rounds[0]);
      RunCrosses(depth, n, s, rounds[0]);
      RoundProgress(depth, n, s, rounds[0], v);
      CommitBecomesVisible(depth, n, next, rounds[1..], v);
      RunSplits(depth, n, s, rounds[0], Flatten(rounds[1..]));
    }
  }

  lemma RoundProgress<T>(depth: nat, n: nat, s: Fifo<T>, xs: seq<Input<T>>, v: nat)
    requires Ordered(depth, n, s) && v <= s.committed && BothRise(xs)
    ensures var d := Cdc.Distance(n, Run(depth, n, s, xs).toReader, v);
      d < Cdc.Distance(n, s.toReader, v) || d == 0
  {
    var os := CommitOffers(depth, n, s, xs);
    RunCrosses(depth, n, s, xs);
    DistanceShrinks(n, s.toReader, os, v);
    var i :| 0 <= i < |xs| && xs[i].e.i;
    var o :| 0 <= o < |xs| && xs[o].e.o;
    assert os[i].e.i && os[o].e.o;
  }

  lemma {:induction false} RunSplits<T>(depth: nat, n: nat, s: Fifo<T>, a: seq<Input<T>>, b: seq<Input<T>>)
    requires Ordered(depth, n, s)
    ensures Run(depth, n, s, a + b) == Run(depth, n, Run(depth, n, s, a), b)
    decreases |a|
  {
    if a == [] {
      assert a + b == b;
    } else {
      assert (a + b)[1..] == a[1..] + b;
      RunSplits(depth, n, Step(depth, n, s, a[0]), a[1..], b);
    }
  }

  // The way back: what the reader has freed reaches the writer.

  function FreedOffers<T>(depth: nat, n: nat, s: Fifo<T>, xs: seq<Input<T>>): seq<Offer<nat>>
    requires Ordered(depth, n, s)
    decreases |xs|
  {
    if xs == [] then [] else
      [Offer(Edges(xs[0].e.o, xs[0].e.i), true, s.rd)] + FreedOffers(depth, n, Step(depth, n, s, xs[0]), xs[1..])
  }

  lemma {:induction false} RunReturns<T>(depth: nat, n: nat, s: Fifo<T>, xs: seq<Input<T>>)
    requires Ordered(depth, n, s)
    ensures var os := FreedOffers(depth, n, s, xs);
      && |os| == |xs| && Publishes(os, s.rd)
      && (forall k :: 0 <= k < |xs| ==> os[k].e == Edges(xs[k].e.o, xs[k].e.i))
      && Run(depth, n, s, xs).toWriter == Cdc.Run(n, s.toWriter, os)
      && s.rd <= Run(depth, n, s, xs).rd
    decreases |xs|
  {
    if xs != [] {
      RunReturns(depth, n, Step(depth, n, s, xs[0]), xs[1..]);
    }
  }

  lemma ReturnProgress<T>(depth: nat, n: nat, s: Fifo<T>, xs: seq<Input<T>>, v: nat)
    requires Ordered(depth, n, s) && v <= s.rd && BothRise(xs)
    ensures var d := Cdc.Distance(n, Run(depth, n, s, xs).toWriter, v);
      d < Cdc.Distance(n, s.toWriter, v) || d == 0
  {
    var os := FreedOffers(depth, n, s, xs);
    RunReturns(depth, n, s, xs);
    DistanceShrinks(n, s.toWriter, os, v);
    var i :| 0 <= i < |xs| && xs[i].e.i;
    var o :| 0 <= o < |xs| && xs[o].e.o;
    assert os[i].e.o && os[o].e.i;
  }

  /** Space the reader has freed is known to the writer at most 3n+4 rounds later. */
  lemma {:induction false} SpaceReturns<T>(depth: nat, n: nat, s: Fifo<T>, rounds: seq<seq<Input<T>>>, v: nat)
    requires Ordered(depth, n, s) && v <= s.rd
    requires forall k :: 0 <= k < |rounds| ==> BothRise(rounds[k])
    requires Cdc.Distance(n, s.toWriter, v) <= |rounds| || 3 * n + 4 <= |rounds|
    ensures v <= Run(depth, n, s, Flatten(rounds)).toWriter.seen
    decreases |rounds|
  {
    if rounds != [] {
      var next := Run(depth, n, s, rounds[0]);
      RunReturns(depth, n, s, rounds[0]);
      ReturnProgress(depth, n, s, rounds[0], v);
      SpaceReturns(depth, n, next, rounds[1..], v);
      RunSplits(depth, n, s, rounds[0], Flatten(rounds[1..]));
    }
  }

  /** Beats of the log that have left through the output port. */
  function Gone<T>(s: Fifo<T>): int {
    s.rd - |s.out.ToSeq()|
  }

  function Rises<T>(xs: seq<Input<T>>): nat {
    if xs == [] then 0 else (if xs[0].e.o then 1 else 0) + Rises(xs[1..])
  }

  /** Whatever the sink does, a beat visible to the reader is on show after the next output edge: valid
      does not wait for ready. Once shown, a beat stays until it is taken. */
  lemma ValidComesFirst<T>(depth: nat, n: nat, s: Fifo<T>, x: Input<T>)
    requires Ordered(depth, n, s)
    ensures x.e.o && s.rd < s.toReader.seen ==> Step(depth, n, s, x).out.Some?
    ensures s.out.Some? && !Emits(s, x) ==> Step(depth, n, s, x).out == s.out
  {
  }

  /** The sink takes every beat at latest `patience` output edges after the one at which it is first shown,
      and may hold ready low until it sees valid; `left` is what is left of that for the beat on show. */
  predicate Answers<T>(depth: nat, n: nat, s: Fifo<T>, xs: seq<Input<T>>, patience: nat, left: nat)
    requires Ordered(depth, n, s)
    decreases |xs|
  {
    if xs == [] then true
    else if !xs[0].e.o then Answers(depth, n, Step(depth, n, s, xs[0]), xs[1..], patience, left)
    else if s.out.None? || xs[0].oTready then Answers(depth, n, Step(depth, n, s, xs[0]), xs[1..], patience, patience)
    else left > 0 && Answers(depth, n, Step(depth, n, s, xs[0]), xs[1..], patience, left - 1)
  }

  /** Output edges for that many beats. */
  function Times(count: nat, patience: nat): (n: nat)
    ensures count > 0 ==> n > 0
    ensures patience == 0 ==> n == count
  {
    if count == 0 then 0 else Times(count - 1, patience) + patience + 1
  }

  /** Output edges until the first v beats of the log have left. */
  function DrainTime<T>(s: Fifo<T>, v: nat, patience: nat, left: nat): nat {
    if v <= Gone(s) then 0
    else
      var more: nat := v - Gone(s) - 1;
      if s.out.Some? then left + 1 + Times(more, patience) else 1 + Times(more + 1, patience)
  }

  lemma DrainStep<T>(depth: nat, n: nat, s: Fifo<T>, x: Input<T>, v: nat, patience: nat, left: nat)
    requires Ordered(depth, n, s) && Gone(s) < v <= s.toReader.seen
    requires !x.e.o || s.out.None? || x.oTready || left > 0
    ensures var next := Step(depth, n, s, x);
      && v <= next.toReader.seen
      && if !x.e.o then DrainTime(next, v, patience, left) == DrainTime(s, v, patience, left)
         else DrainTime(next, v, patience, if s.out.None? || x.oTready then patience else left - 1)
              < DrainTime(s, v, patience, left)
  {
  }

  /** Every sink that answers valid, however late, gets every beat visible to the reader, within as many
      output edges as its patience allows for each, and one to fill the output register. */
  lemma {:induction false} VisibleDrains<T>(depth: nat, n: nat, s: Fifo<T>, xs: seq<Input<T>>, v: nat,
                                            patience: nat, left: nat)
    requires Ordered(depth, n, s) && v <= s.toReader.seen && left <= patience
    requires Answers(depth, n, s, xs, patience, left) && DrainTime(s, v, patience, left) <= Rises(xs)
    ensures v <= Gone(Run(depth, n, s, xs))
    decreases |xs|
  {
    hide Step, Gone, DrainTime, Ordered;
    if v <= Gone(s) {
      GoneStays(depth, n, s, xs);
    } else {
      SomeTime(s, v, patience, left);
      DrainStep(depth, n, s, xs[0], v, patience, left);
      VisibleDrains(depth, n, Step(depth, n, s, xs[0]), xs[1..], v, patience,
        if !xs[0].e.o then left else if s.out.None? || xs[0].oTready then patience else left - 1);
    }
  }

  lemma SomeTime<T>(s: Fifo<T>, v: nat, patience: nat, left: nat)
    ensures DrainTime(s, v, patience, left) > 0 <==> v > Gone(s)
  {
  }

  lemma {:induction false} GoneStays<T>(depth: nat, n: nat, s: Fifo<T>, xs: seq<Input<T>>)
    requires Ordered(depth, n, s)
    ensures Gone(s) <= Gone(Run(depth, n, s, xs))
    decreases |xs|
  {
    if xs != [] {
      GoneStays(depth, n, Step(depth, n, s, xs[0]), xs[1..]);
    }
  }

  lemma {:induction false} ReadyAnswers<T>(depth: nat, n: nat, s: Fifo<T>, xs: seq<Input<T>>)
    requires Ordered(depth, n, s) && forall k :: 0 <= k < |xs| ==> xs[k].oTready
    ensures Answers(depth, n, s, xs, 0, 0)
    decreases |xs|
  {
    hide Step;
    if xs != [] {
      ReadyAnswers(depth, n, Step(depth, n, s, xs[0]), xs[1..]);
    }
  }

  // ---------- Lock-up ----------

  /** Once the packet under way fills the memory, nothing is accepted any more, not even a drop. */
  lemma {:induction false} FilledByOnePacketLocksUp<T>(depth: nat, n: nat, s: Fifo<T>, xs: seq<Input<T>>)
    requires Ordered(depth, n, s) && |s.Uncommitted()| == depth
    ensures Accepted(depth, n, s, xs) == []
    decreases |xs|
  {
    if xs != [] {
      FilledByOnePacketLocksUp(depth, n, Step(depth, n, s, xs[0]), xs[1..]);
    }
  }

  /** Sources that offer `depth` beats of one packet at edges of theirs get there, if all that was read
      is known to the writer: whatever the sink and its clock do. */
  lemma {:induction false} LongPacketFills<T>(depth: nat, n: nat, s: Fifo<T>, xs: seq<Input<T>>)
    requires Ordered(depth, n, s) && s.committed == s.toWriter.seen && |s.Uncommitted()| + |xs| == depth
    requires forall k :: 0 <= k < |xs| ==> xs[k].e.i && xs[k].iTvalid && !xs[k].drop && !xs[k].beat.last
    ensures |Run(depth, n, s, xs).Uncommitted()| == depth
    decreases |xs|
  {
    if xs != [] {
      LongPacketFills(depth, n, Step(depth, n, s, xs[0]), xs[1..]);
    }
  }

  /** Both clocks rise, the source is idle and the sink ready. */
  function Draining<T>(b: Beat<T>): Input<T> { Input(Edges(true, true), false, b, false, true) }

  function DrainRounds<T>(b: Beat<T>, m: nat): (rounds: seq<seq<Input<T>>>)
    ensures |rounds| == m && forall k :: 0 <= k < m ==> rounds[k] == [Draining(b)]
  {
    seq(m, _ => [Draining(b)])
  }

  lemma {:induction false} IdleKeepsLog<T>(depth: nat, n: nat, s: Fifo<T>, xs: seq<Input<T>>)
    requires Ordered(depth, n, s) && forall k :: 0 <= k < |xs| ==> !xs[k].iTvalid
    ensures var r := Run(depth, n, s, xs); r.log == s.log && r.committed == s.committed
    decreases |xs|
  {
    if xs != [] {
      IdleKeepsLog(depth, n, Step(depth, n, s, xs[0]), xs[1..]);
    }
  }

  lemma {:induction false} DrainFlat<T>(b: Beat<T>, m: nat)
    ensures var xs := Flatten(DrainRounds(b, m));
      && (forall k :: 0 <= k < |xs| ==> xs[k] == Draining(b))
      && Rises(xs) == m && (forall k :: 0 <= k < m ==> BothRise(DrainRounds(b, m)[k]))
    decreases m
  {
    var rounds := DrainRounds(b, m);
    forall k | 0 <= k < m
      ensures BothRise(rounds[k])
    {
      assert rounds[k][0].e == Edges(true, true);
    }
    if m != 0 {
      DrainFlat(b, m - 1);
      assert rounds[1..] == DrainRounds(b, m - 1);
      assert Flatten(rounds) == [Draining(b)] + Flatten(rounds[1..]);
      assert ([Draining(b)] + Flatten(rounds[1..]))[1..] == Flatten(rounds[1..]);
    }
  }

  /** Left alone, with its clocks running and its sink ready, the writer comes to know that every
      committed beat has been read. */
  lemma AllSpaceReturns<T>(depth: nat, n: nat, s: Fifo<T>, b: Beat<T>) returns (xs: seq<Input<T>>)
    requires Ordered(depth, n, s)
    ensures forall k :: 0 <= k < |xs| ==> !xs[k].iTvalid
    ensures var r := Run(depth, n, s, xs); r.log == s.log && r.committed == s.committed == r.toWriter.seen
  {
    hide Step, Run;
    var cross, v := DrainRounds(b, 3 * n + 4), s.committed;
    DrainFlat(b, 3 * n + 4);
    CommitBecomesVisible(depth, n, s, cross, v);
    var s1 := Run(depth, n, s, Flatten(cross));
    IdleKeepsLog(depth, n, s, Flatten(cross));
    var empty := DrainRounds(b, v + 2);
    DrainFlat(b, v + 2);
    ReadyAnswers(depth, n, s1, Flatten(empty));
    VisibleDrains(depth, n, s1, Flatten(empty), v, 0, 0);
    var s2 := Run(depth, n, s1, Flatten(empty));
    IdleKeepsLog(depth, n, s1, Flatten(empty));
    SpaceReturns(depth, n, s2, cross, v);
    IdleKeepsLog(depth, n, s2, Flatten(cross));
    xs := Flatten(cross) + (Flatten(empty) + Flatten(cross));
    RunSplits(depth, n, s, Flatten(cross), Flatten(empty) + Flatten(cross));
    RunSplits(depth, n, s1, Flatten(empty), Flatten(cross));
  }

  /** Nothing the source, the sink or the clocks do ever gets a beat accepted again. */
  ghost predicate LockedUp<T(!new)>(depth: nat, n: nat, s: Fifo<T>)
    requires Ordered(depth, n, s)
  {
    forall xs: seq<Input<T>> :: Accepted(depth, n, s, xs) == []
  }

  /** So such a packet locks a FIFO up that comes from reset. */
  lemma LongPacketLocksUp<T(!new)>(depth: nat, n: nat, xs: seq<Input<T>>)
    requires Ordered(depth, n, Reset<T>()) && |xs| == depth
    requires forall k :: 0 <= k < |xs| ==> xs[k].e.i && xs[k].iTvalid && !xs[k].drop && !xs[k].beat.last
    ensures LockedUp(depth, n, Run(depth, n, Reset<T>(), xs))
  {
    LongPacketFills(depth, n, Reset<T>(), xs);
    var s := Run(depth, n, Reset<T>(), xs);
    forall ys: seq<Input<T>>
      ensures Accepted(depth, n, s, ys) == []
    {
      FilledByOnePacketLocksUp(depth, n, s, ys);
    }
  }

  lemma {:induction false} AcceptedSplits<T>(depth: nat, n: nat, s: Fifo<T>, a: seq<Input<T>>, b: seq<Input<T>>)
    requires Ordered(depth, n, s)
    ensures Accepted(depth, n, s, a + b) == Accepted(depth, n, s, a) + Accepted(depth, n, Run(depth, n, s, a), b)
    decreases |a|
  {
    hide Step, Taken;
    if a == [] {
      assert a + b == b;
    } else {
      assert (a + b)[1..] == a[1..] + b;
      AcceptedSplits(depth, n, Step(depth, n, s, a[0]), a[1..], b);
    }
  }

  /** Any run from reset, however the clocks interleave: the FIFO is locked up at its end if and only if
      what was accepted ends in `depth` beats of one packet that is neither complete nor dropped. */
  lemma LockedUpIff<T(!new)>(depth: nat, n: nat, xs: seq<Input<T>>, some: Beat<T>)
    requires depth > 0 && Ordered(depth, n, Reset<T>())
    ensures LockedUp(depth, n, Run(depth, n, Reset<T>(), xs))
       <==> |StillOpen([], Accepted(depth, n, Reset<T>(), xs))| == depth
  {
    hide Step, Run, Accepted, StillOpen, Reset;
    var s := Run(depth, n, Reset<T>(), xs);
    RunConserves(depth, n, Reset(), xs);
    NothingAtReset<T>();
    if |s.Uncommitted()| == depth {
      forall ys: seq<Input<T>>
        ensures Accepted(depth, n, s, ys) == []
      {
        FilledByOnePacketLocksUp(depth, n, s, ys);
      }
    } else {
      var ys := AllSpaceReturns(depth, n, s, some);
      var r, offer := Run(depth, n, s, ys), Input(Edges(true, true), true, some, false, true);
      AcceptedSplits(depth, n, s, ys, [offer]);
      OneIsAccepted(depth, n, r, offer);
      assert Accepted(depth, n, s, ys + [offer]) != [];
    }
  }

  lemma NothingAtReset<T>()
    ensures Reset<T>().committed == 0 == |Reset<T>().log| && Reset<T>().Uncommitted() == []
  {
  }

  lemma OneIsAccepted<T>(depth: nat, n: nat, s: Fifo<T>, x: Input<T>)
    requires Ordered(depth, n, s) && Accepts(depth, s, x)
    ensures Accepted(depth, n, s, [x]) != []
  {
  }

  // ---------- The hardware ----------

  /** LOG2_DEPTH+1 bit pointers, written for any depth (2^LOG2_DEPTH in the hardware). */
  function Wrap(depth: nat, k: nat): (p: nat)
    requires depth > 0
    ensures p < 2 * depth
  {
    k % (2 * depth)
  }

  /** Two wrapped pointers at most `depth` apart tell their true distance. */
  lemma WrapDistance(depth: nat, a: nat, b: nat)
    requires depth > 0 && a <= b <= a + depth
    ensures Wrap(depth, b) == (if Wrap(depth, a) + (b - a) < 2 * depth then Wrap(depth, a) + (b - a)
                               else Wrap(depth, a) + (b - a) - 2 * depth)
    ensures Wrap(depth, a) == Wrap(depth, b) <==> a == b
    ensures Addr(depth, Wrap(depth, a)) == Addr(depth, Wrap(depth, b)) <==> a == b || b == a + depth
  {
    var m := 2 * depth;
    var q := a / m;
    assert a == m * q + a % m;
    var r := a % m + (b - a);
    if r < m {
      ModUnique(b, m, q, r);
    } else {
      assert b == m * (q + 1) + (r - m) by { assert m * (q + 1) == m * q + m; }
      ModUnique(b, m, q + 1, r - m);
    }
  }

  lemma IncWraps(depth: nat, k: nat)
    requires depth > 0
    ensures Inc(depth, Wrap(depth, k)) == Wrap(depth, k + 1)
  {
    WrapDistance(depth, k, k + 1);
  }

  lemma ModUnique(x: int, m: int, q: int, r: int)
    requires m > 0 && x == m * q + r && 0 <= r < m
    ensures x % m == r
  {
    var k := x / m - q;
    assert m * k == r - x % m by {
      assert m * (x / m) + x % m == x;
      assert m * k == m * (x / m) - m * q;
    }
    MulBounds(m, k);
  }

  lemma MulBounds(m: int, k: int)
    requires m > 0
    ensures k >= 1 ==> m * k >= m
    ensures k <= -1 ==> m * k <= -m
  {
  }

  /** `cell` of the RAM holds entry k of the log for every entry not yet read. */
  ghost predicate Stored<T>(depth: nat, mem: seq<Beat<T>>, s: Fifo<T>)
    requires depth > 0
  {
    && |mem| == depth
    && forall k :: s.rd <= k < |s.log| ==> mem[Addr(depth, Wrap(depth, k))] == s.log[k]
  }

  /** A write lands in no cell that still holds an unread entry. */
  lemma WriteKeepsUnread<T>(depth: nat, n: nat, mem: seq<Beat<T>>, s: Fifo<T>, x: Input<T>)
    requires depth > 0 && Ordered(depth, n, s) && Stored(depth, mem, s)
    ensures Stored(depth,
        if Accepts(depth, s, x) then mem[Addr(depth, Wrap(depth, |s.log|)) := x.beat] else mem,
        Step(depth, n, s, x))
  {
    forall k | s.rd <= k < |s.log|
      ensures Accepts(depth, s, x) ==> Addr(depth, Wrap(depth, k)) != Addr(depth, Wrap(depth, |s.log|))
    {
      WrapDistance(depth, k, |s.log|);
    }
  }

  function WrapLink(depth: nat, s: Link<nat>): Link<nat>
    requires depth > 0
  {
    Link(s.hops, Wrap(depth, s.held), Wrap(depth, s.seen))
  }

  /** The registers as one value, to keep the arithmetic apart from the heap. */
  datatype Regs<T> = Regs(
    wrptr: nat,
    committed: nat,
    rdptr: nat,
    oTvalid: bool,
    dob: Beat<T>,
    ram: seq<Beat<T>>,
    wrptrIToO: Link<nat>,
    rdptrOToI: Link<nat>)

  /** The registers show the abstract state modulo the pointer width. */
  ghost predicate Shows<T>(depth: nat, n: nat, g: Regs<T>, s: Fifo<T>) {
    && depth > 0 && Ordered(depth, n, s)
    && g.wrptr == Wrap(depth, |s.log|)
    && g.committed == Wrap(depth, s.committed)
    && g.rdptr == Wrap(depth, s.rd)
    && g.wrptrIToO == WrapLink(depth, s.toReader)
    && g.rdptrOToI == WrapLink(depth, s.toWriter)
    && g.oTvalid == s.out.Some?
    && (g.oTvalid ==> g.dob == s.out.value)
    && Stored(depth, g.ram, s)
  }

  lemma ShowsOrdered<T>(depth: nat, n: nat, g: Regs<T>, s: Fifo<T>)
    requires Shows(depth, n, g, s)
    ensures depth > 0 && Ordered(depth, n, s) && |g.ram| == depth
  {
  }

  /** Both tests decide what the unbounded counters say. */
  lemma TestsAreExact<T>(depth: nat, n: nat, g: Regs<T>, s: Fifo<T>)
    requires Shows(depth, n, g, s)
    ensures Full(depth, g.rdptrOToI.seen, g.wrptr) <==> |s.log| == s.toWriter.seen + depth
    ensures g.rdptr == g.wrptrIToO.seen <==> s.rd == s.toReader.seen
    ensures g.rdptr < 2 * depth && g.wrptr < 2 * depth
  {
    WrapDistance(depth, s.toWriter.seen, |s.log|);
    WrapDistance(depth, s.rd, s.toReader.seen);
  }

  function RegStep<T>(depth: nat, n: nat, g: Regs<T>, x: Input<T>): Regs<T>
    requires depth > 0 && |g.ram| == depth
    requires g.wrptr < 2 * depth && g.rdptr < 2 * depth && g.rdptrOToI.seen < 2 * depth
  {
    var wea := !Full(depth, g.rdptrOToI.seen, g.wrptr) && x.iTvalid;
    var readFromRam := g.rdptr != g.wrptrIToO.seen && (!g.oTvalid || x.oTready);
    Regs(
      if !(x.e.i && wea) then g.wrptr else if x.drop then g.committed else Inc(depth, g.wrptr),
      if x.e.i && wea && !x.drop && x.beat.last then Inc(depth, g.wrptr) else g.committed,
      if x.e.o && readFromRam then Inc(depth, g.rdptr) else g.rdptr,
      if x.e.o then readFromRam || (g.oTvalid && !x.oTready) else g.oTvalid,
      if x.e.o && readFromRam then g.ram[Addr(depth, g.rdptr)] else g.dob,
      if x.e.i && wea then g.ram[Addr(depth, g.wrptr) := x.beat] else g.ram,
      Tick(n, g.wrptrIToO, x.e, true, g.committed),
      Tick(n, g.rdptrOToI, Edges(x.e.o, x.e.i), true, g.rdptr))
  }

  /** The wrapped machine refines the unbounded one, tick by tick. */
  lemma RegStepShowsStep<T>(depth: nat, n: nat, g: Regs<T>, s: Fifo<T>, x: Input<T>)
    requires Shows(depth, n, g, s)
    ensures g.wrptr < 2 * depth && g.rdptr < 2 * depth && g.rdptrOToI.seen < 2 * depth
    ensures Shows(depth, n, RegStep(depth, n, g, x), Step(depth, n, s, x))
  {
    TestsAreExact(depth, n, g, s);
    WriteKeepsUnread(depth, n, g.ram, s, x);
    IncWraps(depth, |s.log|);
    IncWraps(depth, s.rd);
    LinkWraps(depth, n, s.toReader, x.e, s.committed);
    LinkWraps(depth, n, s.toWriter, Edges(x.e.o, x.e.i), s.rd);
    PointersShow(depth, n, g, s, x);
    hide Wrap, Inc, Full, Tick, WrapLink, Ordered, Stored;
  }

  lemma LinkWraps(depth: nat, n: nat, s: Link<nat>, e: Edges, value: nat)
    requires depth > 0
    ensures WrapLink(depth, Tick(n, s, e, true, value)) == Tick(n, WrapLink(depth, s), e, true, Wrap(depth, value))
  {
    hide Wrap;
  }

  lemma PointersShow<T>(depth: nat, n: nat, g: Regs<T>, s: Fifo<T>, x: Input<T>)
    requires Shows(depth, n, g, s) && g.wrptr < 2 * depth && g.rdptr < 2 * depth && g.rdptrOToI.seen < 2 * depth
    requires Full(depth, g.rdptrOToI.seen, g.wrptr) <==> |s.log| == s.toWriter.seen + depth
    requires g.rdptr == g.wrptrIToO.seen <==> s.rd == s.toReader.seen
    requires Inc(depth, g.wrptr) == Wrap(depth, |s.log| + 1) && Inc(depth, g.rdptr) == Wrap(depth, s.rd + 1)
    ensures var r, next := RegStep(depth, n, g, x), Step(depth, n, s, x);
      && r.wrptr == Wrap(depth, |next.log|) && r.committed == Wrap(depth, next.committed)
      && r.rdptr == Wrap(depth, next.rd)
      && r.oTvalid == next.out.Some? && (r.oTvalid ==> r.dob == next.out.value)
      && r.ram == if Accepts(depth, s, x) then g.ram[Addr(depth, Wrap(depth, |s.log|)) := x.beat] else g.ram
  {
    hide Wrap, Inc, Full, Tick, WrapLink, Addr;
  }

  lemma RegStepLinks<T>(depth: nat, n: nat, g: Regs<T>, x: Input<T>)
    requires depth > 0 && |g.ram| == depth
    requires g.wrptr < 2 * depth && g.rdptr < 2 * depth && g.rdptrOToI.seen < 2 * depth
    ensures var r := RegStep(depth, n, g, x);
      && r.wrptrIToO == Tick(n, g.wrptrIToO, x.e, true, g.committed)
      && r.rdptrOToI == Tick(n, g.rdptrOToI, Edges(x.e.o, x.e.i), true, g.rdptr)
  {
  }

  lemma SameRegs<T>(a: Regs<T>, b: Regs<T>)
    requires a.(wrptrIToO := b.wrptrIToO, rdptrOToI := b.rdptrOToI) == b
    requires a.wrptrIToO == b.wrptrIToO && a.rdptrOToI == b.rdptrOToI
    ensures a == b
  {
  }

  lemma ResetShows<T>(depth: nat, n: nat, g: Regs<T>)
    requires depth > 0 && |g.ram| == depth && !g.oTvalid
    requires g.wrptr == g.committed == g.rdptr == 0
    requires g.wrptrIToO == g.rdptrOToI == Link(0, 0, 0)
    ensures Shows(depth, n, g, Reset())
  {
  }

  /** The two instances of cdc_vector: the committed pointer to the reader, the read pointer back. */
  class Crossings {
    const stages: nat
    const wrptrIToO: CdcVector<nat>
    const rdptrOToI: CdcVector<nat>

    ghost function Repr(): set<object> {
      {this} + wrptrIToO.Repr() + rdptrOToI.Repr()
    }

    ghost predicate Valid()
      reads Repr()
    {
      && wrptrIToO.Repr() !! rdptrOToI.Repr()
      && wrptrIToO.Valid() && wrptrIToO.stages == stages
      && rdptrOToI.Valid() && rdptrOToI.stages == stages
    }

    ghost function ToReader(): Link<nat>
      reads wrptrIToO
    {
      wrptrIToO.link
    }

    ghost function ToWriter(): Link<nat>
      reads rdptrOToI
    {
      rdptrOToI.link
    }

    constructor (stages: nat)
      requires stages >= 1
      ensures Valid() && fresh(Repr()) && this.stages == stages
      ensures ToReader() == ToWriter() == Link(0, 0, 0)
    {
      this.stages := stages;
      wrptrIToO := new CdcVector<nat>(stages, 0);
      rdptrOToI := new CdcVector<nat>(stages, 0);
    }

    /** The pointers each side is shown. */
    method Seen() returns (wrptrOclk: nat, rdptrIclk: nat)
      requires Valid()
      ensures wrptrOclk == ToReader().seen && rdptrIclk == ToWriter().seen
    {
      wrptrOclk, rdptrIclk := wrptrIToO.o, rdptrOToI.o;
    }

    method Clock(e: Edges, committed: nat, rdptr: nat)
      requires Valid()
      modifies Repr()
      ensures Valid()
      ensures ToReader() == Tick(stages, old(ToReader()), e, true, committed)
      ensures ToWriter() == Tick(stages, old(ToWriter()), Edges(e.o, e.i), true, rdptr)
    {
      hide Cdc.CdcVector.Valid, Tick;
      wrptrIToO.Clock(e, true, committed);
      rdptrOToI.Clock(Edges(e.o, e.i), true, rdptr);
    }
  }

  class AsyncPacketFifo<T> {
    const depth: nat
    const stages: nat
    var wrptrIclk: nat
    var committedWrptrIclk: nat
    var rdptrOclk: nat
    var axisOTvalid: bool
    var dob: Beat<T>
    const ram: array<Beat<T>>
    const crossings: Crossings
    ghost var spec: Fifo<T>

    ghost function Repr(): set<object> {
      {this, ram} + crossings.Repr()
    }

    ghost function View(): Regs<T>
      reads this, ram, crossings.Repr()
    {
      OwnView(crossings.ToReader(), crossings.ToWriter())
    }

    ghost function OwnView(toReader: Link<nat>, toWriter: Link<nat>): Regs<T>
      reads this, ram
    {
      Regs(wrptrIclk, committedWrptrIclk, rdptrOclk, axisOTvalid, dob, ram[..], toReader, toWriter)
    }

    ghost predicate Valid()
      reads Repr()
    {
      && {this, ram} !! crossings.Repr()
      && crossings.Valid() && crossings.stages == stages
      && Shows(depth, stages, View(), spec)
    }

    constructor (depth: nat, stages: nat, powerUp: Beat<T>)
      requires depth > 0 && stages >= 1
      ensures Valid() && fresh(Repr())
      ensures this.depth == depth && this.stages == stages && spec == Reset()
    {
      hide Shows, Stored, Crossings.Valid, Reset;
      this.depth, this.stages := depth, stages;
      wrptrIclk, committedWrptrIclk, rdptrOclk := 0, 0, 0;
      axisOTvalid, dob := false, powerUp;
      ram := new Beat<T>[depth](_ => powerUp);
      crossings := new Crossings(stages);
      spec := Reset();
      new;
      ResetShows(depth, stages, View());
    }

    /** The registers of this module proper, those of the risen clocks updated from the old state. */
    method ClockOwn(x: Input<T>, rdptrIclk: nat, wrptrOclk: nat,
        ghost toReader: Link<nat>, ghost toWriter: Link<nat>)
      requires ram.Length == depth > 0
      requires wrptrIclk < 2 * depth && rdptrOclk < 2 * depth && rdptrIclk < 2 * depth
      requires toReader.seen == wrptrOclk && toWriter.seen == rdptrIclk
      modifies this, ram
      ensures spec == old(spec)
      ensures OwnView(toReader, toWriter)
        == RegStep(depth, stages, old(OwnView(toReader, toWriter)), x)
           .(wrptrIToO := toReader, rdptrOToI := toWriter)
    {
      hide Addr, Inc, Full;
      var axisITready := !Full(depth, rdptrIclk, wrptrIclk);
      var readFromRam := rdptrOclk != wrptrOclk && (!axisOTvalid || x.oTready);
      if x.e.o {
        if x.oTready {
          axisOTvalid := false;
        }
        if readFromRam {
          axisOTvalid := true;
          dob := ram[Addr(depth, rdptrOclk)];
          rdptrOclk := Inc(depth, rdptrOclk);
        }
      }
      if x.e.i && axisITready && x.iTvalid {
        ram[Addr(depth, wrptrIclk)] := x.beat;
        var incremented := Inc(depth, wrptrIclk);
        wrptrIclk := incremented;
        if x.drop {
          wrptrIclk := committedWrptrIclk;
        } else if x.beat.last {
          committedWrptrIclk := incremented;
        }
      }
    }

    /** One tick of either clock or of both. */
    method Clock(x: Input<T>)
      requires Valid()
      modifies Repr()
      ensures Valid()
      ensures spec == Step(depth, stages, old(spec), x)
    {
      hide Shows, Stored, Step, Ordered, Crossings.Valid, Tick, RegStep, Wrap, Addr;
      ghost var was := View();
      ShowsOrdered(depth, stages, was, spec);
      ghost var next := Step(depth, stages, spec, x);
      RegStepShowsStep(depth, stages, was, spec, x);
      var committed, rdptr := committedWrptrIclk, rdptrOclk;
      RegStepLinks(depth, stages, was, x);
      var wrptrOclk, rdptrIclk := crossings.Seen();
      ClockOwn(x, rdptrIclk, wrptrOclk, crossings.ToReader(), crossings.ToWriter());
      crossings.Clock(x.e, committed, rdptr);
      spec := next;
      SameRegs(RegStep(depth, stages, was, x), View());
    }
  }
}
