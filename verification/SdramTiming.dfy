/** Timing of whole runs of the SDRAM controller: spacing of commands, read latency, start-up,
    refreshes and how long a row stays open.

    Each property is a relation between the controller's state and the list of commands issued so far
    (`Remembers`, `InFlight`, `StartUp`, `OpenFor`), kept by every step; the statements about pairs of
    commands anywhere in a run follow from it.

    The refresh requester and the main state machine run side by side. `Wait` is the exact number of
    cycles until a pending request is answered, whatever is offered meanwhile. */
module SdramTiming {
  import opened Axis
  import opened SdramController

  // ---------- Command spacing ----------

  /** What the timers remember of each command issued so far, `ago` cycles back. */
  ghost predicate Remembers(p: Params, s: Ctl, c: Cmd, ago: nat) {
    && (c == Active ==> p.tRCD <= s.timeout + ago && p.tRASmin <= s.rasMin + ago)
    && (c == Write ==> p.tWR <= s.wr + ago)
    && (c == Precharge ==> p.tRP <= s.timeout + ago)
    && (c == AutoRefresh ==> p.tRC <= s.timeout + ago)
    && (c == SetMode ==> p.tRSC <= s.timeout + ago)
  }

  ghost predicate RemembersAll(p: Params, s: Ctl, cs: seq<Cmd>) {
    forall i :: 0 <= i < |cs| ==> Remembers(p, s, cs[i], |cs| - 1 - i)
  }

  lemma {:induction false} TimersRemember(p: Params, reqs: seq<Option<Request>>)
    requires p.Valid()
    ensures RemembersAll(p, After(p, reqs), Cmds(p, reqs))
    decreases |reqs|
  {
    if reqs != [] {
      var before := reqs[..|reqs| - 1];
      TimersRemember(p, before);
      StepRemembers(p, After(p, before), Cmds(p, before), reqs[|reqs| - 1]);
    }
  }

  lemma StepRemembers(p: Params, s: Ctl, cs: seq<Cmd>, req: Option<Request>)
    requires p.Valid() && |s.cl| == p.tCL && RemembersAll(p, s, cs)
    ensures RemembersAll(p, Step(p, s, req), cs + [Drive(p, s, req).cmd])
  {
    var next, r := cs + [Drive(p, s, req).cmd], Step(p, s, req);
    forall i | 0 <= i < |next|
      ensures Remembers(p, r, next[i], |next| - 1 - i)
    {
      if i < |cs| {
        assert Remembers(p, s, cs[i], |cs| - 1 - i);
      }
    }
  }

  /** The precharge of all banks is the very first command and never comes again. */
  lemma {:induction false} StartsOnce(p: Params, reqs: seq<Option<Request>>)
    requires p.Valid()
    ensures After(p, reqs).sm == InitPrecharge <==> reqs == []
    decreases |reqs|
  {
    if |reqs| == 1 {
      assert reqs[..0] == [];
    } else if reqs != [] {
      StartsOnce(p, reqs[..|reqs| - 1]);
    }
  }

  /** The spacings the device asks for, between any two commands of the run. */
  ghost predicate Spaced(p: Params, first: Cmd, second: Cmd, gap: nat) {
    && (first == Active && second != Nop ==> gap > p.tRCD)
    && (first == Active && second == Precharge ==> gap > p.tRASmin)
    && (first == Write && second == Precharge ==> gap > p.tWR)
    && (first == Precharge && second != Nop ==> gap > p.tRP)
    && (first == AutoRefresh && second != Nop ==> gap > p.tRC)
    && (first == SetMode && second != Nop ==> gap > p.tRSC)
  }

  lemma {:induction false} CommandsAreSpaced(p: Params, reqs: seq<Option<Request>>, i: nat, j: nat)
    requires p.Valid() && i < j < |reqs|
    ensures Spaced(p, Cmds(p, reqs)[i], Cmds(p, reqs)[j], j - i)
    decreases |reqs|
  {
    var before := reqs[..|reqs| - 1];
    if j < |reqs| - 1 {
      CommandsAreSpaced(p, before, i, j);
    } else {
      TimersRemember(p, before);
      StartsOnce(p, before);
      assert Remembers(p, After(p, before), Cmds(p, before)[i], |before| - 1 - i);
    }
  }

  // ---------- Read latency ----------

  /** The shift register is the last tCL cycles' worth of "was it a READ". */
  ghost predicate InFlight(p: Params, s: Ctl, cs: seq<Cmd>)
    requires |s.cl| == p.tCL
  {
    forall k :: 0 <= k < p.tCL ==> s.cl[k] == (|cs| + k >= p.tCL && cs[|cs| + k - p.tCL] == Read)
  }

  lemma {:induction false} ShiftRegisterTracksReads(p: Params, reqs: seq<Option<Request>>)
    requires p.Valid()
    ensures InFlight(p, After(p, reqs), Cmds(p, reqs))
    decreases |reqs|
  {
    hide Step, Drive, InFlight;
    if reqs == [] {
      NothingInFlight(p);
    } else {
      var before := reqs[..|reqs| - 1];
      ShiftRegisterTracksReads(p, before);
      StepShifts(p, After(p, before), Cmds(p, before), reqs[|reqs| - 1]);
    }
  }

  lemma NothingInFlight(p: Params)
    requires p.Valid()
    ensures InFlight(p, Reset(p), [])
  {
  }

  lemma ShiftsRead(p: Params, s: Ctl, req: Option<Request>)
    requires p.Valid() && |s.cl| == p.tCL
    ensures Step(p, s, req).cl == s.cl[1..] + [Drive(p, s, req).cmd == Read]
  {
    hide CloseRow, Hits, NoneSet, Row, Bank, Col, ModeWord;
  }

  lemma StepShifts(p: Params, s: Ctl, cs: seq<Cmd>, req: Option<Request>)
    requires p.Valid() && |s.cl| == p.tCL && InFlight(p, s, cs)
    ensures |Step(p, s, req).cl| == p.tCL && InFlight(p, Step(p, s, req), cs + [Drive(p, s, req).cmd])
  {
    hide Step, Drive;
    ShiftsRead(p, s, req);
  }

  predicate ReadDqValid(s: Ctl)
    requires s.cl != []
  {
    s.cl[0]
  }

  /** read_dq_valid is high in a cycle exactly when a READ was issued tCL cycles before. */
  lemma ReadDataAfterCasLatency(p: Params, reqs: seq<Option<Request>>)
    requires p.Valid()
    ensures ReadDqValid(After(p, reqs)) <==> |reqs| >= p.tCL && Cmds(p, reqs)[|reqs| - p.tCL] == Read
  {
    ShiftRegisterTracksReads(p, reqs);
  }

  lemma {:induction false} CmdsPrefix(p: Params, reqs: seq<Option<Request>>, j: nat)
    requires p.Valid() && j <= |reqs|
    ensures Cmds(p, reqs[..j]) == Cmds(p, reqs)[..j]
    ensures j < |reqs| ==> Cmds(p, reqs)[j] == BusAt(p, reqs, j).cmd
    decreases |reqs|
  {
    if j == |reqs| {
      assert reqs[..j] == reqs;
    } else {
      var before := reqs[..|reqs| - 1];
      assert before[..j] == reqs[..j];
      CmdsPrefix(p, before, j);
    }
  }

  /** No WRITE while any read is in flight. */
  lemma NoWriteDuringRead(p: Params, reqs: seq<Option<Request>>, i: nat, j: nat)
    requires p.Valid() && i < j < |reqs| && j - i <= p.tCL
    ensures !(Cmds(p, reqs)[i] == Read && Cmds(p, reqs)[j] == Write)
  {
    hide Step, After, Cmds, Drive;
    var before := reqs[..j];
    CmdsPrefix(p, reqs, j);
    ShiftRegisterTracksReads(p, before);
    var k := i + p.tCL - j;
    assert After(p, before).cl[k] == (Cmds(p, before)[|before| + k - p.tCL] == Read);
    if Cmds(p, reqs)[j] == Write {
      WriteNeedsQuiet(p, After(p, before), reqs[j]);
    }
  }

  lemma WriteNeedsQuiet(p: Params, s: Ctl, req: Option<Request>)
    requires p.Valid() && Drive(p, s, req).cmd == Write
    ensures NoneSet(s.cl)
  {
  }

  // ---------- Start-up ----------

  function Count(cs: seq<Cmd>, c: Cmd): nat {
    if cs == [] then 0 else Count(cs[..|cs| - 1], c) + (if cs[|cs| - 1] == c then 1 else 0)
  }

  /** How the counter of start-up refreshes relates to the commands issued so far. */
  ghost predicate StartUp(s: Ctl, refreshes: nat, actives: nat) {
    match s.sm
    case InitPrecharge => refreshes == actives == 0 && s.initRefresh == 0
    case InitSetMode => refreshes == actives == 0 && s.initRefresh == 0
    case Idle => s.initRefresh + refreshes >= 8 && (actives > 0 ==> s.initRefresh == 0)
    case Open => refreshes >= 8 && s.initRefresh == 0
  }

  lemma StepStartUp(p: Params, s: Ctl, req: Option<Request>, refreshes: nat, actives: nat)
    requires p.Valid() && |s.cl| == p.tCL && StartUp(s, refreshes, actives)
    ensures var c := Drive(p, s, req).cmd;
      StartUp(Step(p, s, req), refreshes + (if c == AutoRefresh then 1 else 0),
        actives + (if c == Active then 1 else 0))
  {
  }

  lemma {:induction false} RunStartsUp(p: Params, reqs: seq<Option<Request>>)
    requires p.Valid()
    ensures StartUp(After(p, reqs), Count(Cmds(p, reqs), AutoRefresh), Count(Cmds(p, reqs), Active))
    decreases |reqs|
  {
    if reqs != [] {
      var before := reqs[..|reqs| - 1];
      RunStartsUp(p, before);
      StepStartUp(p, After(p, before), reqs[|reqs| - 1], Count(Cmds(p, before), AutoRefresh),
        Count(Cmds(p, before), Active));
      assert Cmds(p, reqs)[..|reqs| - 1] == Cmds(p, before);
    }
  }

  /** Eight refreshes precede the first ACTIVE. */
  lemma EightRefreshesFirst(p: Params, reqs: seq<Option<Request>>, j: nat)
    requires p.Valid() && j < |reqs| && Cmds(p, reqs)[j] == Active
    ensures Count(Cmds(p, reqs)[..j], AutoRefresh) >= 8
  {
    var upto := reqs[..j + 1];
    CmdsPrefix(p, reqs, j);
    CmdsPrefix(p, reqs, j + 1);
    RunStartsUp(p, upto);
    assert Cmds(p, upto)[..j] == Cmds(p, reqs)[..j] && Cmds(p, upto)[j] == Active;
    assert Count(Cmds(p, upto), AutoRefresh) == Count(Cmds(p, reqs)[..j], AutoRefresh);
  }

  // ---------- Refresh requests ----------

  function Max(a: nat, b: nat): nat { if a < b then b else a }

  /** With a request pending, the cycles left until it is answered. */
  function Wait(p: Params, s: Ctl): nat {
    match s.sm
    case InitPrecharge => s.timeout + 1 + p.tRP + 1 + p.tRSC
    case InitSetMode => s.timeout + 1 + p.tRSC
    case Idle => s.timeout
    case Open => Max(s.timeout, Max(s.rasMin, s.wr)) + 1 + p.tRP
  }

  /** The longest any request waits. */
  function Bound(p: Params): nat {
    Max(Max(p.tRC, Max(p.tRCD, Max(p.tRASmin, p.tWR)) + 1 + p.tRP), p.tRP + p.tRSC + 2)
  }

  ghost predicate TimersBounded(p: Params, s: Ctl) {
    && s.rasMin <= p.tRASmin && s.rasMax <= p.tRASmax && s.wr <= p.tWR
    && s.refreshCtr < p.refreshInterval
    && s.timeout <= TimeoutMax(p, s.sm)
  }

  function TimeoutMax(p: Params, sm: Sm): nat {
    match sm
    case InitPrecharge => 0
    case InitSetMode => p.tRP
    case Idle => Max(p.tRSC, Max(p.tRC, p.tRP))
    case Open => p.tRCD
  }

  lemma StepBounded(p: Params, s: Ctl, req: Option<Request>)
    requires p.Valid() && |s.cl| == p.tCL && TimersBounded(p, s)
    ensures TimersBounded(p, Step(p, s, req))
  {
    match s.sm
    case InitPrecharge =>
    case InitSetMode =>
    case Idle =>
    case Open =>
  }

  lemma WaitBounded(p: Params, s: Ctl)
    requires TimersBounded(p, s)
    ensures Wait(p, s) <= Bound(p)
  {
    match s.sm
    case InitPrecharge =>
    case InitSetMode =>
    case Idle =>
    case Open =>
  }

  /** A pending request is answered by an AUTO_REFRESH, and until then each cycle brings it one
      closer to that. */
  lemma RequestAdvances(p: Params, s: Ctl, req: Option<Request>)
    requires p.Valid() && |s.cl| == p.tCL && s.refreshValid
    ensures var bus := Drive(p, s, req);
      if Wait(p, s) == 0 then bus.cmd == AutoRefresh && bus.refreshReady
      else !bus.refreshReady && Wait(p, Step(p, s, req)) == Wait(p, s) - 1
  {
    match s.sm
    case InitPrecharge =>
    case InitSetMode =>
    case Idle =>
    case Open => assert CloseRow(p, s, req);
  }

  /** A request is lost when the next one falls due while it is still pending. */
  predicate Loses(p: Params, s: Ctl, req: Option<Request>)
    requires p.Valid()
  {
    s.refreshCtr == p.refreshInterval - 1 && s.refreshValid && !Drive(p, s, req).refreshReady
  }

  predicate FallsDue(p: Params, s: Ctl) {
    s.refreshCtr == p.refreshInterval - 1
  }

  function RequestsMade(p: Params, reqs: seq<Option<Request>>): nat
    requires p.Valid()
  {
    if reqs == [] then 0 else
      RequestsMade(p, reqs[..|reqs| - 1]) + (if FallsDue(p, After(p, reqs[..|reqs| - 1])) then 1 else 0)
  }

  /** A pending request is no older than the bound allows, and what was made is answered or pending. */
  ghost predicate OnTime(p: Params, s: Ctl, made: nat, refreshes: nat) {
    && TimersBounded(p, s)
    && (s.refreshValid ==> s.refreshCtr + Wait(p, s) <= Bound(p))
    && made <= refreshes + (if s.refreshValid then 1 else 0)
  }

  lemma StepOnTime(p: Params, s: Ctl, req: Option<Request>, made: nat, refreshes: nat)
    requires p.Valid() && |s.cl| == p.tCL && p.refreshInterval > Bound(p) && OnTime(p, s, made, refreshes)
    ensures !Loses(p, s, req)
    ensures OnTime(p, Step(p, s, req), made + (if FallsDue(p, s) then 1 else 0),
              refreshes + (if Drive(p, s, req).cmd == AutoRefresh then 1 else 0))
  {
    StepBounded(p, s, req);
    WaitBounded(p, Step(p, s, req));
    if s.refreshValid {
      RequestAdvances(p, s, req);
    }
  }

  /** When the refresh interval exceeds the bound, no run ever loses a request: each is pending for
      at most `Bound` cycles, and every one made has been answered by an AUTO_REFRESH or is pending. */
  lemma {:induction false} NoRefreshIsLost(p: Params, reqs: seq<Option<Request>>)
    requires p.Valid() && p.refreshInterval > Bound(p)
    ensures OnTime(p, After(p, reqs), RequestsMade(p, reqs), Count(Cmds(p, reqs), AutoRefresh))
    ensures forall req :: !Loses(p, After(p, reqs), req)
    decreases |reqs|
  {
    var s, made, refreshes := After(p, reqs), RequestsMade(p, reqs), Count(Cmds(p, reqs), AutoRefresh);
    if reqs != [] {
      var before := reqs[..|reqs| - 1];
      NoRefreshIsLost(p, before);
      StepOnTime(p, After(p, before), reqs[|reqs| - 1], RequestsMade(p, before), Count(Cmds(p, before), AutoRefresh));
      assert Cmds(p, reqs)[..|reqs| - 1] == Cmds(p, before);
    }
    forall req
      ensures !Loses(p, s, req)
    {
      StepOnTime(p, s, req, made, refreshes);
    }
  }

  /** A request pending at cycle i is answered by an AUTO_REFRESH exactly `Wait` cycles later,
      whatever else is asked for in between. */
  lemma {:induction false} AnsweredOnTime(p: Params, reqs: seq<Option<Request>>, i: nat)
    requires p.Valid() && i < |reqs| && After(p, reqs[..i]).refreshValid
    requires i + Wait(p, After(p, reqs[..i])) < |reqs|
    ensures Cmds(p, reqs)[i + Wait(p, After(p, reqs[..i]))] == AutoRefresh
    decreases |reqs| - i
  {
    var s := After(p, reqs[..i]);
    RequestAdvances(p, s, reqs[i]);
    if Wait(p, s) == 0 {
      CmdsPrefix(p, reqs, i);
    } else {
      assert reqs[..i + 1][..i] == reqs[..i];
      AnsweredOnTime(p, reqs, i + 1);
    }
  }

  /** The requester makes one request every `refreshInterval` cycles. */
  lemma {:induction false} RequestsAreRegular(p: Params, reqs: seq<Option<Request>>)
    requires p.Valid()
    ensures RequestsMade(p, reqs) * p.refreshInterval + After(p, reqs).refreshCtr == |reqs|
    ensures After(p, reqs).refreshCtr < p.refreshInterval
    decreases |reqs|
  {
    if reqs != [] {
      var before := reqs[..|reqs| - 1];
      RequestsAreRegular(p, before);
      OneMore(RequestsMade(p, before), p.refreshInterval);
    }
  }

  lemma OneMore(k: nat, n: nat)
    ensures (k + 1) * n == k * n + n
  {
  }

  // ---------- How long a row stays open ----------

  /** Cycles spent in the open state since the last ACTIVE. */
  function Age(cs: seq<Cmd>): nat {
    if cs == [] || cs[|cs| - 1] == Active then 0 else 1 + Age(cs[..|cs| - 1])
  }

  ghost predicate OpenFor(p: Params, s: Ctl, age: nat) {
    && s.timeout <= Dec'(p.tRCD, age) && s.rasMin <= Dec'(p.tRASmin, age)
    && s.rasMax == Dec'(p.tRASmax, age)
    && (if age < p.tRASmax then s.wr <= p.tWR else s.wr <= Dec'(p.tWR, age - p.tRASmax))
    && age <= p.tRASmax + p.tWR
  }

  function Dec'(x: nat, k: nat): nat { if k < x then x - k else 0 }

  lemma {:induction false} RowAges(p: Params, reqs: seq<Option<Request>>)
    requires p.Valid() && p.tRASmin <= p.tRASmax && p.tRCD <= p.tRASmax
    ensures var s := After(p, reqs);
      && s.wr <= p.tWR
      && (s.sm == Open ==> OpenFor(p, s, Age(Cmds(p, reqs))))
    decreases |reqs|
  {
    if reqs != [] {
      hide Step, Drive, OpenFor;
      var before := reqs[..|reqs| - 1];
      RowAges(p, before);
      assert Cmds(p, reqs)[..|reqs| - 1] == Cmds(p, before);
      StepAges(p, After(p, before), Cmds(p, before), reqs[|reqs| - 1]);
    }
  }

  lemma StepAges(p: Params, s: Ctl, cs: seq<Cmd>, req: Option<Request>)
    requires p.Valid() && p.tRASmin <= p.tRASmax && p.tRCD <= p.tRASmax && |s.cl| == p.tCL
    requires s.wr <= p.tWR && (s.sm == Open ==> OpenFor(p, s, Age(cs)))
    ensures var r, next := Step(p, s, req), cs + [Drive(p, s, req).cmd];
      r.wr <= p.tWR && (r.sm == Open ==> OpenFor(p, r, Age(next)))
  {
    hide Row, Bank, Col, Hits, NoneSet, ModeWord;
    var next := cs + [Drive(p, s, req).cmd];
    assert next[..|cs|] == cs;
  }

  /** No row stays open longer: in any window of more than tRASmax + tWR + 1 cycles after an ACTIVE
      there is a PRECHARGE. */
  lemma {:induction false} RowCloses(p: Params, reqs: seq<Option<Request>>, i: nat, j: nat)
    requires p.Valid() && p.tRASmin <= p.tRASmax && p.tRCD <= p.tRASmax
    requires i < j < |reqs| && Cmds(p, reqs)[i] == Active
    requires forall k :: i < k < j ==> Cmds(p, reqs)[k] != Precharge
    ensures j - i <= p.tRASmax + p.tWR + 1
  {
    var upto := reqs[..j];
    CmdsPrefix(p, reqs, j);
    RowAges(p, upto);
    StillOpen(p, reqs, i, j);
  }

  lemma {:induction false} StillOpen(p: Params, reqs: seq<Option<Request>>, i: nat, j: nat)
    requires p.Valid() && i < j <= |reqs| && Cmds(p, reqs)[i] == Active
    requires forall k :: i < k < j ==> Cmds(p, reqs)[k] != Precharge
    ensures After(p, reqs[..j]).sm == Open && Age(Cmds(p, reqs[..j])) == j - i - 1
    decreases j
  {
    var last, upto := reqs[..j - 1], reqs[..j];
    CmdsPrefix(p, reqs, j);
    CmdsPrefix(p, reqs, j - 1);
    assert upto[..j - 1] == last;
    assert Cmds(p, upto)[..j - 1] == Cmds(p, last) && Cmds(p, upto)[j - 1] == Drive(p, After(p, last), reqs[j - 1]).cmd;
    if j > i + 1 {
      StillOpen(p, reqs, i, j - 1);
      StaysOpen(p, After(p, last), reqs[j - 1]);
    } else {
      Opens(p, After(p, last), reqs[j - 1]);
    }
    assert Age(Cmds(p, upto)) == if Cmds(p, upto)[j - 1] == Active then 0 else 1 + Age(Cmds(p, last));
  }

  lemma Opens(p: Params, s: Ctl, req: Option<Request>)
    requires p.Valid() && |s.cl| == p.tCL && Drive(p, s, req).cmd == Active
    ensures Step(p, s, req).sm == Open
  {
  }

  /** Only a PRECHARGE leaves the open state, and no ACTIVE is issued in it. */
  lemma StaysOpen(p: Params, s: Ctl, req: Option<Request>)
    requires p.Valid() && |s.cl| == p.tCL && s.sm == Open
    ensures Step(p, s, req).sm == (if Drive(p, s, req).cmd == Precharge then Idle else Open)
    ensures Drive(p, s, req).cmd != Active
  {
  }
}
