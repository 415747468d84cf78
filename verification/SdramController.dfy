/** synth/wishbone/wb_sdram_controller.sv: the command state machine, its timers and the refresh
    requester. All times are in clock cycles. */
module SdramController {
  import opened Axis

  datatype Params = Params(
    tRC: nat, tRP: nat, tRSC: nat, tRCD: nat,
    tRASmin: nat, tRASmax: nat, tWR: nat, tCL: nat,
    refreshInterval: nat,            // CLOCK_CYCLES_PER_REFRESH_CYCLE
    banks: nat, cols: nat)
  {
    /** The timeout counter has eight bits (no timeout needs more, says its declaration) and the
        read shift register at least two. */
    predicate Valid() {
      && tRC < 256 && tRP < 256 && tRSC < 256 && tRCD < 256
      && tCL >= 2 && refreshInterval > 0
      && banks > 0 && cols > 0
    }
  }

  const A10 := 1024

  datatype Cmd = Nop | AutoRefresh | Precharge | SetMode | Active | Write | Read

  datatype Sm = InitPrecharge | InitSetMode | Idle | Open

  datatype Ctl = Ctl(
    sm: Sm,
    timeout: nat,
    rasMin: nat,
    rasMax: nat,
    wr: nat,
    cl: seq<bool>,          // t_cl_shreg, bit 0 first
    initRefresh: nat,
    openBank: nat,
    openRow: nat,
    refreshCtr: nat,
    refreshValid: bool)

  datatype Request = Request(addr: nat, we: bool, data: int)

  /** The address is row, bank, column from the top. */
  function Col(p: Params, addr: nat): (c: nat)
    requires p.Valid()
    ensures c < p.cols
  {
    addr % p.cols
  }

  function Bank(p: Params, addr: nat): (b: nat)
    requires p.Valid()
    ensures b < p.banks
  {
    addr / p.cols % p.banks
  }

  function Row(p: Params, addr: nat): nat
    requires p.Valid()
  {
    addr / p.cols / p.banks
  }

  /** What the controller drives in one cycle. */
  datatype Bus = Bus(cmd: Cmd, a: nat, bs: nat, refreshReady: bool, cmdReady: bool)

  const QUIET := Bus(Nop, 0, 0, false, false)

  predicate Hits(p: Params, s: Ctl, r: Request)
    requires p.Valid()
  {
    Row(p, r.addr) == s.openRow && Bank(p, r.addr) == s.openBank
  }

  predicate CloseRow(p: Params, s: Ctl, req: Option<Request>)
    requires p.Valid()
  {
    s.refreshValid || s.rasMax == 0 || (req.Some? && !Hits(p, s, req.value))
  }

  predicate NoneSet(bits: seq<bool>) {
    forall k :: 0 <= k < |bits| ==> !bits[k]
  }

  /** Burst length one, sequential, the CAS latency in bits 4 to 6. */
  function ModeWord(p: Params): nat { p.tCL % 8 * 16 }

  function Drive(p: Params, s: Ctl, req: Option<Request>): Bus
    requires p.Valid()
  {
    if s.timeout > 0 then QUIET else
      match s.sm
      case InitPrecharge => Bus(Precharge, A10, 0, false, false)
      case InitSetMode => Bus(SetMode, ModeWord(p), 0, false, false)
      case Idle =>
        if s.refreshValid || s.initRefresh > 0 then Bus(AutoRefresh, 0, 0, true, false)
        else if req.Some? then Bus(Active, Row(p, req.value.addr), Bank(p, req.value.addr), true, false)
        else Bus(Nop, 0, 0, true, false)
      case Open =>
        if CloseRow(p, s, req) then
          if s.rasMin == 0 && s.wr == 0 then Bus(Precharge, 0, s.openBank, false, false) else QUIET
        else if req.Some? && (!req.value.we || NoneSet(s.cl)) then
          Bus(if req.value.we then Write else Read, Col(p, req.value.addr), s.openBank, false, true)
        else QUIET
  }

  function Dec(x: nat): nat { if x > 0 then x - 1 else 0 }

  /** The eight-bit timeout register. */
  function Timeout(x: nat): (r: nat)
    ensures x < 256 ==> r == x
  {
    x % 256
  }

  function Step(p: Params, s: Ctl, req: Option<Request>): Ctl
    requires p.Valid() && |s.cl| == p.tCL
  {
    var bus := Drive(p, s, req);
    var wraps := s.refreshCtr == p.refreshInterval - 1;
    var t := s.(
      cl := s.cl[1..] + [bus.cmd == Read],
      rasMin := Dec(s.rasMin),
      rasMax := Dec(s.rasMax),
      timeout := Dec(s.timeout),
      wr := Dec(s.wr),
      refreshCtr := if wraps then 0 else s.refreshCtr + 1,
      refreshValid := wraps || (s.refreshValid && !bus.refreshReady));
    if s.timeout > 0 then t else
      match s.sm
      case InitPrecharge => t.(timeout := Timeout(p.tRP), sm := InitSetMode)
      case InitSetMode => t.(sm := Idle, timeout := Timeout(p.tRSC), initRefresh := 8)
      case Idle =>
        if bus.cmd == Active then
          t.(openBank := bus.bs, openRow := bus.a, sm := Open, timeout := Timeout(p.tRCD),
             rasMin := p.tRASmin, rasMax := p.tRASmax)
        else if bus.cmd == AutoRefresh then
          t.(timeout := Timeout(p.tRC), initRefresh := Dec(s.initRefresh))
        else t
      case Open =>
        if bus.cmd == Precharge then t.(sm := Idle, timeout := Timeout(p.tRP))
        else if bus.cmd == Write then t.(wr := p.tWR)
        else t
  }

  function Reset(p: Params): Ctl {
    Ctl(InitPrecharge, 0, 0, 0, 0, seq(p.tCL, _ => false), 0, 0, 0, 0, false)
  }

  // ---------- Whole runs, one request offer (or none) per cycle ----------

  function After(p: Params, reqs: seq<Option<Request>>): (s: Ctl)
    requires p.Valid()
    ensures |s.cl| == p.tCL
  {
    if reqs == [] then Reset(p) else Step(p, After(p, reqs[..|reqs| - 1]), reqs[|reqs| - 1])
  }

  function BusAt(p: Params, reqs: seq<Option<Request>>, i: nat): Bus
    requires p.Valid() && i < |reqs|
  {
    Drive(p, After(p, reqs[..i]), reqs[i])
  }

  /** The command of every cycle. */
  function Cmds(p: Params, reqs: seq<Option<Request>>): (cs: seq<Cmd>)
    requires p.Valid()
    ensures |cs| == |reqs|
  {
    if reqs == [] then [] else
      Cmds(p, reqs[..|reqs| - 1]) + [BusAt(p, reqs, |reqs| - 1).cmd]
  }

  // ---------- The hardware ----------

  class WbSdramController {
    const p: Params
    var state: Sm
    var timeoutCtr: nat
    var tRasMinCtr: nat
    var tRasMaxCtr: nat
    var tWrCtr: nat
    var tClShreg: seq<bool>
    var initRefreshCtr: nat
    var openBank: nat
    var openRow: nat
    var refreshCtr: nat
    var refreshRequestValid: bool

    ghost predicate Valid()
      reads this
    {
      p.Valid() && |tClShreg| == p.tCL
    }

    function View(): Ctl
      reads this
    {
      Ctl(state, timeoutCtr, tRasMinCtr, tRasMaxCtr, tWrCtr, tClShreg, initRefreshCtr,
        openBank, openRow, refreshCtr, refreshRequestValid)
    }

    constructor (p: Params)
      requires p.Valid()
      ensures Valid() && this.p == p && View() == Reset(p)
    {
      this.p := p;
      state, timeoutCtr, initRefreshCtr := InitPrecharge, 0, 0;
      tRasMinCtr, tRasMaxCtr, tWrCtr := 0, 0, 0;
      tClShreg := seq(p.tCL, _ => false);
      openBank, openRow := 0, 0;
      refreshCtr, refreshRequestValid := 0, false;
    }

    /** The refresh requester's clocked block. */
    method ClockRefresh(requestReady: bool)
      requires p.Valid()
      modifies this`refreshCtr, this`refreshRequestValid
      ensures refreshRequestValid ==
        (old(refreshCtr) == p.refreshInterval - 1 || (old(refreshRequestValid) && !requestReady))
      ensures refreshCtr == if old(refreshCtr) == p.refreshInterval - 1 then 0 else old(refreshCtr) + 1
    {
      if refreshRequestValid && requestReady {
        refreshRequestValid := false;
      }
      if refreshCtr == p.refreshInterval - 1 {
        refreshCtr := 0;
        refreshRequestValid := true;
      } else {
        refreshCtr := refreshCtr + 1;
      }
    }

    /** The shift register and the four timers, which run whatever the state. */
    method ClockTimers(isRead: bool)
      requires Valid()
      modifies this`tClShreg, this`tRasMinCtr, this`tRasMaxCtr, this`timeoutCtr, this`tWrCtr
      ensures tClShreg == old(tClShreg)[1..] + [isRead]
      ensures tRasMinCtr == Dec(old(tRasMinCtr)) && tRasMaxCtr == Dec(old(tRasMaxCtr))
      ensures timeoutCtr == Dec(old(timeoutCtr)) && tWrCtr == Dec(old(tWrCtr))
    {
      tClShreg := tClShreg[1..] + [isRead];
      if tRasMinCtr > 0 {
        tRasMinCtr := tRasMinCtr - 1;
      }
      if tRasMaxCtr > 0 {
        tRasMaxCtr := tRasMaxCtr - 1;
      }
      if timeoutCtr > 0 {
        timeoutCtr := timeoutCtr - 1;
      }
      if tWrCtr > 0 {
        tWrCtr := tWrCtr - 1;
      }
    }

    /** One clock edge: the outputs of the cycle are decided from the old state, then both clocked
        blocks update it. A later assignment to a timer overrides its decrement. */
    method Clock(req: Option<Request>) returns (bus: Bus)
      requires Valid()
      modifies this
      ensures Valid()
      ensures bus == Drive(p, old(View()), req)
      ensures View() == Step(p, old(View()), req)
    {
      hide CloseRow, Hits, NoneSet, Row, Bank, Col, ModeWord, Timeout;
      bus := Drive(p, View(), req);
      var wasTimeout := timeoutCtr;
      ClockTimers(bus.cmd == Read);
      ClockRefresh(bus.refreshReady);
      if wasTimeout == 0 {
        match state
        case InitPrecharge =>
          timeoutCtr := Timeout(p.tRP);
          state := InitSetMode;
        case InitSetMode =>
          state := Idle;
          timeoutCtr := Timeout(p.tRSC);
          initRefreshCtr := 8;
        case Idle =>
          if bus.cmd == Active {
            openBank, openRow := bus.bs, bus.a;
            state := Open;
            timeoutCtr := Timeout(p.tRCD);
            tRasMinCtr, tRasMaxCtr := p.tRASmin, p.tRASmax;
          } else if bus.cmd == AutoRefresh {
            timeoutCtr := Timeout(p.tRC);
            if initRefreshCtr > 0 {
              initRefreshCtr := initRefreshCtr - 1;
            }
          }
        case Open =>
          if bus.cmd == Precharge {
            state := Idle;
            timeoutCtr := Timeout(p.tRP);
          } else if bus.cmd == Write {
            tWrCtr := p.tWR;
          }
      }
    }
  }
}
