/** A request held on offer is served. It may find the wrong row open, and a refresh may come between: the
    path to its READ or WRITE is at most a close, an activation and the row's own delay, and after a
    refresh there is time for that before the next, if the interval is long enough. If the row may not
    stay open past the delay, nothing is ever served. */
module SdramService {
  import opened Axis
  import opened SdramController
  import opened SdramTiming

  /** Held on offer, the request is taken in this cycle or one of the next k. */
  predicate ServedIn(p: Params, s: Ctl, r: Request, k: nat)
    requires p.Valid() && |s.cl| == p.tCL
    decreases k
  {
    Drive(p, s, Some(r)).cmdReady || (k > 0 && ServedIn(p, Step(p, s, Some(r)), r, k - 1))
  }

  lemma {:induction false} LaterStill(p: Params, s: Ctl, r: Request, k: nat, m: nat)
    requires p.Valid() && |s.cl| == p.tCL && k <= m && ServedIn(p, s, r, k)
    ensures ServedIn(p, s, r, m)
    decreases k
  {
    hide Drive;
    if !Drive(p, s, Some(r)).cmdReady {
      LaterStill(p, Step(p, s, Some(r)), r, k - 1, m - 1);
    }
  }

  // ---------- The read shift register ----------

  /** Cycles until no read is in flight, if none is started. */
  function InFlight(cl: seq<bool>): (n: nat)
    ensures n <= |cl| && (n == 0 <==> NoneSet(cl))
  {
    if cl == [] then 0 else
      assert cl == cl[..|cl| - 1] + [cl[|cl| - 1]];
      if cl[|cl| - 1] then |cl| else InFlight(cl[..|cl| - 1])
  }

  lemma {:induction false} FlightEnds(cl: seq<bool>)
    requires cl != []
    ensures InFlight(cl[1..] + [false]) == Dec(InFlight(cl))
    decreases |cl|
  {
    var next := cl[1..] + [false];
    assert next[..|next| - 1] == cl[1..];
    if |cl| > 1 {
      var front := cl[..|cl| - 1];
      assert cl[1..][..|cl| - 2] == front[1..];
      if !cl[|cl| - 1] {
        FlightEnds(front);
        assert (front[1..] + [false])[..|front| - 1] == front[1..];
      }
    }
  }

  // ---------- The path to the command ----------

  predicate Ready(s: Ctl) { (s.sm == Idle || s.sm == Open) && s.initRefresh == 0 }

  /** Cycles from an ACTIVE to the command. */
  function Delay(p: Params, r: Request): nat { if r.we then Max(p.tRCD, p.tCL) else p.tRCD }

  function Draining(s: Ctl, r: Request): nat { if r.we then InFlight(s.cl) else 0 }

  /** The open row is the request's, and stays open long enough. */
  predicate Usable(p: Params, s: Ctl, r: Request)
    requires p.Valid()
  {
    Hits(p, s, r) && s.rasMax > Max(s.timeout, Draining(s, r))
  }

  function UntilClosed(p: Params, s: Ctl, r: Request): nat
    requires p.Valid()
  {
    Max(Max(s.timeout, if Hits(p, s, r) then s.rasMax else 0), Max(s.rasMin, s.wr))
  }

  /** Cycles until the command, if no refresh comes between. */
  function Path(p: Params, s: Ctl, r: Request): nat
    requires p.Valid()
  {
    if s.sm != Open then s.timeout + 1 + Delay(p, r)
    else if Usable(p, s, r) then Max(s.timeout, Draining(s, r))
    else UntilClosed(p, s, r) + 1 + p.tRP + 1 + Delay(p, r)
  }

  lemma PathShrinks(p: Params, s: Ctl, r: Request)
    requires p.Valid() && |s.cl| == p.tCL && Ready(s) && !s.refreshValid && Delay(p, r) < p.tRASmax
    ensures var t := Step(p, s, Some(r));
      || Drive(p, s, Some(r)).cmdReady
      || (Path(p, s, r) > 0 && Path(p, t, r) < Path(p, s, r) && Ready(t)
          && t.refreshValid == (s.refreshCtr == p.refreshInterval - 1))
  {
    hide InFlight, Row, Bank, Col, ModeWord, Timeout;
    FlightEnds(s.cl);
    TimeoutFits(p);
    if s.sm == Idle {
      IdlePath(p, s, r);
    } else if Usable(p, s, r) {
      UsablePath(p, s, r);
    } else {
      ClosingPath(p, s, r);
    }
  }

  lemma TimeoutFits(p: Params)
    requires p.Valid()
    ensures Timeout(p.tRP) == p.tRP && Timeout(p.tRCD) == p.tRCD && Timeout(p.tRC) == p.tRC && Timeout(p.tRSC) == p.tRSC
  {
  }

  lemma IdlePath(p: Params, s: Ctl, r: Request)
    requires p.Valid() && |s.cl| == p.tCL && Ready(s) && s.sm == Idle && !s.refreshValid && Delay(p, r) < p.tRASmax
    ensures var t := Step(p, s, Some(r));
      && Path(p, t, r) < Path(p, s, r) && Ready(t) && t.refreshValid == (s.refreshCtr == p.refreshInterval - 1)
  {
    hide InFlight, Row, Bank, Col, ModeWord, Timeout;
    TimeoutFits(p);
  }

  lemma UsablePath(p: Params, s: Ctl, r: Request)
    requires p.Valid() && |s.cl| == p.tCL && Ready(s) && s.sm == Open && !s.refreshValid && Usable(p, s, r)
    ensures var t := Step(p, s, Some(r));
      || Drive(p, s, Some(r)).cmdReady
      || (Path(p, s, r) > 0 && Path(p, t, r) < Path(p, s, r) && Ready(t)
          && t.refreshValid == (s.refreshCtr == p.refreshInterval - 1))
  {
    hide InFlight, Row, Bank, Col, ModeWord, Timeout, NoneSet;
    FlightEnds(s.cl);
    NothingInFlightIs(s.cl);
  }

  lemma NothingInFlightIs(cl: seq<bool>)
    ensures InFlight(cl) == 0 <==> NoneSet(cl)
  {
  }

  lemma ClosingPath(p: Params, s: Ctl, r: Request)
    requires p.Valid() && |s.cl| == p.tCL && Ready(s) && s.sm == Open && !s.refreshValid && !Usable(p, s, r)
    ensures var t := Step(p, s, Some(r));
      && Path(p, t, r) < Path(p, s, r) && Ready(t) && t.refreshValid == (s.refreshCtr == p.refreshInterval - 1)
  {
    hide InFlight, Row, Bank, Col, ModeWord, Timeout, NoneSet;
    TimeoutFits(p);
    FlightEnds(s.cl);
    NothingInFlightIs(s.cl);
  }

  // ---------- Service ----------

  /** From the cycle a refresh is asked for to the command, if no other comes between. */
  function AfterRefresh(p: Params, r: Request): nat { 1 + p.tRC + 1 + Delay(p, r) }

  /** The interval leaves time for a refresh and an access, and the row stays open for its delay. */
  predicate Roomy(p: Params, r: Request) {
    p.Valid() && Delay(p, r) < p.tRASmax && p.refreshInterval > Bound(p) + AfterRefresh(p, r) + 1
  }

  /** No refresh falls due before the path is at its end. */
  lemma {:induction false} ServedDirectly(p: Params, s: Ctl, r: Request, k: nat)
    requires Roomy(p, r) && |s.cl| == p.tCL && Ready(s) && !s.refreshValid
    requires Path(p, s, r) <= k && s.refreshCtr + k < p.refreshInterval
    ensures ServedIn(p, s, r, k)
    decreases k
  {
    hide Drive, Path, Bound, Ready, Delay;
    PathShrinks(p, s, r);
    if !Drive(p, s, Some(r)).cmdReady {
      CounterRuns(p, s, r);
      ServedDirectly(p, Step(p, s, Some(r)), r, k - 1);
    }
  }

  lemma CounterRuns(p: Params, s: Ctl, r: Request)
    requires p.Valid() && |s.cl| == p.tCL
    ensures |Step(p, s, Some(r)).cl| == p.tCL
    ensures s.refreshCtr < p.refreshInterval - 1 ==> Step(p, s, Some(r)).refreshCtr == s.refreshCtr + 1
    ensures s.refreshCtr == p.refreshInterval - 1 ==> Step(p, s, Some(r)).refreshCtr == 0
  {
    hide Drive;
  }

  /** A refresh is asked for; it is answered in time, and the access after it is out of reach of the next. */
  lemma {:induction false} ServedAfterRefresh(p: Params, s: Ctl, r: Request)
    requires Roomy(p, r) && |s.cl| == p.tCL && Ready(s) && s.refreshValid && TimersBounded(p, s)
    requires s.refreshCtr + Wait(p, s) <= Bound(p)
    ensures ServedIn(p, s, r, Wait(p, s) + AfterRefresh(p, r))
    decreases Wait(p, s)
  {
    hide Bound, Drive, Delay, TimeoutMax;
    var t, k := Step(p, s, Some(r)), Wait(p, s) + AfterRefresh(p, r);
    RequestAdvances(p, s, Some(r));
    StepBounded(p, s, Some(r));
    CounterRuns(p, s, r);
    WaitStep(p, s, r);
    if !Drive(p, s, Some(r)).cmdReady {
      if Wait(p, s) == 0 {
        ServedDirectly(p, t, r, k - 1);
      } else {
        ServedAfterRefresh(p, t, r);
      }
    }
  }

  lemma WaitStep(p: Params, s: Ctl, r: Request)
    requires p.Valid() && |s.cl| == p.tCL && Ready(s) && s.refreshValid && s.refreshCtr < p.refreshInterval - 1
    ensures var t := Step(p, s, Some(r));
      && Ready(t)
      && (Wait(p, s) == 0 ==> !t.refreshValid && t.sm == Idle && t.timeout == p.tRC)
      && (Wait(p, s) > 0 ==> t.refreshValid)
  {
    hide Row, Bank, Col, ModeWord, Timeout, NoneSet;
    TimeoutFits(p);
    RequestAdvances(p, s, Some(r));
  }

  /** At most one refresh comes between. */
  lemma {:induction false} ServedWhenReady(p: Params, s: Ctl, r: Request)
    requires Roomy(p, r) && |s.cl| == p.tCL && Ready(s) && TimersBounded(p, s)
    requires s.refreshValid ==> s.refreshCtr + Wait(p, s) <= Bound(p)
    ensures ServedIn(p, s, r, Path(p, s, r) + Bound(p) + AfterRefresh(p, r))
    decreases if s.refreshValid then 0 else 1 + Path(p, s, r)
  {
    hide Bound, Drive, Delay, TimeoutMax, Path, Ready, Wait;
    var t, k := Step(p, s, Some(r)), Path(p, s, r) + Bound(p) + AfterRefresh(p, r);
    if s.refreshValid {
      ServedAfterRefresh(p, s, r);
      LaterStill(p, s, r, Wait(p, s) + AfterRefresh(p, r), k);
    } else if !Drive(p, s, Some(r)).cmdReady {
      PathShrinks(p, s, r);
      StepBounded(p, s, Some(r));
      CounterRuns(p, s, r);
      WaitBounded(p, t);
      ServedWhenReady(p, t, r);
      LaterStill(p, t, r, Path(p, t, r) + Bound(p) + AfterRefresh(p, r), k - 1);
    }
  }

  // ---------- From power-up ----------

  function Times(n: nat, k: nat): nat { if n == 0 then 0 else Times(n - 1, k) + k }

  /** Cycles until the initialisation is over. */
  function Setup(p: Params, s: Ctl): nat {
    match s.sm
    case InitPrecharge => s.timeout + 1 + p.tRP + 1 + p.tRSC + Times(8, p.tRC + 1)
    case InitSetMode => s.timeout + 1 + p.tRSC + Times(8, p.tRC + 1)
    case _ => if s.initRefresh == 0 then 0 else s.timeout + Times(s.initRefresh, p.tRC + 1)
  }

  /** Nothing but the idle state refreshes, and it counts down from eight. */
  predicate Starting(s: Ctl) {
    s.initRefresh <= 8 && (s.sm == Open ==> s.initRefresh == 0)
  }

  lemma SetupShrinks(p: Params, s: Ctl, req: Option<Request>)
    requires p.Valid() && |s.cl| == p.tCL && Starting(s)
    ensures Starting(Step(p, s, req)) && |Step(p, s, req).cl| == p.tCL
    ensures if Ready(s) then Ready(Step(p, s, req)) else Setup(p, s) > 0 && Setup(p, Step(p, s, req)) < Setup(p, s)
  {
    hide Row, Bank, Col, ModeWord, Timeout, NoneSet, Hits;
    TimeoutFits(p);
  }

  lemma {:induction false} AlwaysStarting(p: Params, reqs: seq<Option<Request>>)
    requires p.Valid()
    ensures Starting(After(p, reqs))
    decreases |reqs|
  {
    hide Step;
    if reqs != [] {
      AlwaysStarting(p, reqs[..|reqs| - 1]);
      SetupShrinks(p, After(p, reqs[..|reqs| - 1]), reqs[|reqs| - 1]);
    }
  }

  /** The longest path. */
  function PathMax(p: Params, r: Request): nat {
    Max(Max(TimeoutMax(p, Idle), Max(p.tRCD, p.tRASmax)), Max(p.tRASmin, p.tWR)) + 1 + p.tRP + 1 + Delay(p, r)
  }

  lemma PathBounded(p: Params, s: Ctl, r: Request)
    requires p.Valid() && |s.cl| == p.tCL && Ready(s) && TimersBounded(p, s) && Delay(p, r) < p.tRASmax
    ensures Path(p, s, r) <= PathMax(p, r)
  {
    hide Row, Bank;
  }

  /** Any cycle of any run, whatever was asked for before: a request held on offer from then on is taken
      within the time of the initialisation, a path, a refresh, and a path after that. */
  lemma HeldRequestIsServed(p: Params, reqs: seq<Option<Request>>, r: Request)
    requires Roomy(p, r)
    ensures var s := After(p, reqs);
      ServedIn(p, s, r, Setup(p, s) + PathMax(p, r) + Bound(p) + AfterRefresh(p, r))
  {
    hide Setup, PathMax, AfterRefresh, Cmds;
    var s := After(p, reqs);
    NoRefreshIsLost(p, reqs);
    AlwaysStarting(p, reqs);
    ServedFrom(p, s, r, RequestsMade(p, reqs), Count(Cmds(p, reqs), AutoRefresh));
  }

  lemma {:induction false} ServedFrom(p: Params, s: Ctl, r: Request, made: nat, refreshes: nat)
    requires Roomy(p, r) && |s.cl| == p.tCL && Starting(s) && OnTime(p, s, made, refreshes)
    ensures ServedIn(p, s, r, Setup(p, s) + PathMax(p, r) + Bound(p) + AfterRefresh(p, r))
    decreases Setup(p, s)
  {
    hide Bound, Drive, Delay, TimeoutMax, Path, Ready, Wait, Setup, PathMax, Starting;
    var t, k := Step(p, s, Some(r)), Setup(p, s) + PathMax(p, r) + Bound(p) + AfterRefresh(p, r);
    if Ready(s) {
      PathBounded(p, s, r);
      ServedWhenReady(p, s, r);
      LaterStill(p, s, r, Path(p, s, r) + Bound(p) + AfterRefresh(p, r), k);
    } else if !Drive(p, s, Some(r)).cmdReady {
      SetupShrinks(p, s, Some(r));
      StepOnTime(p, s, Some(r), made, refreshes);
      var made', refreshes' := made + (if FallsDue(p, s) then 1 else 0),
        refreshes + (if Drive(p, s, Some(r)).cmd == AutoRefresh then 1 else 0);
      ServedFrom(p, t, r, made', refreshes');
      LaterStill(p, t, r, Setup(p, t) + PathMax(p, r) + Bound(p) + AfterRefresh(p, r), k - 1);
    }
  }

  // ---------- A row that closes too soon ----------

  /** The row's time runs out before the delay does. */
  predicate TooShort(s: Ctl) { s.sm == Open ==> s.rasMax <= s.timeout }

  lemma {:induction false} NeverServed(p: Params, reqs: seq<Option<Request>>, req: Option<Request>)
    requires p.Valid() && p.tRASmax <= p.tRCD
    ensures TooShort(After(p, reqs)) && !Drive(p, After(p, reqs), req).cmdReady
    decreases |reqs|
  {
    hide Row, Bank, Col, ModeWord, Timeout, NoneSet;
    TimeoutFits(p);
    if reqs != [] {
      NeverServed(p, reqs[..|reqs| - 1], None);
    }
  }

  lemma {:induction false} NeverServedIn(p: Params, reqs: seq<Option<Request>>, r: Request, k: nat)
    requires p.Valid() && p.tRASmax <= p.tRCD
    ensures !ServedIn(p, After(p, reqs), r, k)
    decreases k
  {
    hide Step, Drive;
    NeverServed(p, reqs, Some(r));
    if k > 0 {
      assert (reqs + [Some(r)])[..|reqs|] == reqs;
      NeverServedIn(p, reqs + [Some(r)], r, k - 1);
    }
  }

  ghost predicate EverServed(p: Params, reqs: seq<Option<Request>>, r: Request)
    requires p.Valid()
  {
    exists k: nat :: ServedIn(p, After(p, reqs), r, k)
  }

  /** A read held on offer is served, in any cycle of any run and within a bound, if and only if the longest
      time a row may stay open exceeds the delay of the row. */
  lemma ReadsServedIff(p: Params, r: Request)
    requires p.Valid() && !r.we && p.refreshInterval > Bound(p) + AfterRefresh(p, r) + 1
    ensures p.tRCD < p.tRASmax <==> forall reqs: seq<Option<Request>> :: EverServed(p, reqs, r)
  {
    if p.tRCD < p.tRASmax {
      forall reqs: seq<Option<Request>>
        ensures EverServed(p, reqs, r)
      {
        HeldRequestIsServed(p, reqs, r);
      }
    } else {
      var none: seq<Option<Request>> := [];
      forall k: nat
        ensures !ServedIn(p, After(p, none), r, k)
      {
        NeverServedIn(p, none, r, k);
      }
      assert !EverServed(p, none, r);
    }
  }
}
