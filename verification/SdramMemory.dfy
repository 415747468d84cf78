/** The SDRAM controller together with an ideal SDRAM device is a flat memory: for any requests,
    refreshes and forced closes, every command is legal for the device, and the data that comes back
    is what a plain array would have returned. The device reads as late as the mode word told it to. */
module SdramMemory {
  import opened Axis
  import opened SdramController

  datatype Cell = Cell(bank: nat, row: nat, col: nat)

  /** A device with a row buffer per bank and a read pipeline as long as the CAS latency in its mode
      register; the word driven in a cycle is `pipe[0]`. */
  datatype Device = Device(open: map<nat, nat>, mem: map<Cell, int>, pipe: seq<Option<int>>)

  function Lookup<K>(m: map<K, int>, k: K): int {
    if k in m then m[k] else 0
  }

  /** Address line 10: precharge all banks, or precharge after this read or write. */
  predicate A10Set(bus: Bus) { bus.a / 0x400 % 2 == 1 }

  /** The CAS latency is in bits 4 to 6 of the mode word. */
  function CasLatency(word: nat): nat { word / 16 % 8 }

  /** The other bits are zero for bursts of one, in sequence. */
  predicate ModeLegal(word: nat) {
    word == CasLatency(word) * 16 && CasLatency(word) > 0
  }

  predicate NothingComing(pipe: seq<Option<int>>) {
    forall k :: 0 <= k < |pipe| ==> pipe[k].None?
  }

  predicate Legal(d: Device, bus: Bus) {
    match bus.cmd
    case Active => bus.bs !in d.open
    case Read => bus.bs in d.open && d.pipe != []
    case Write => bus.bs in d.open
    case AutoRefresh => d.open == map[]
    case SetMode => d.open == map[] && ModeLegal(bus.a) && NothingComing(d.pipe)
    case Precharge => true
    case Nop => true
  }

  /** The cell a READ or WRITE touches: in the row open in that bank, whichever that is. */
  function Target(d: Device, bus: Bus): Cell
    requires bus.bs in d.open
  {
    Cell(bus.bs, d.open[bus.bs], bus.a % 0x400)
  }

  function DeviceStep(d: Device, bus: Bus, dq: int): Device
    requires Legal(d, bus)
  {
    Device(
      match bus.cmd
      case Active => d.open[bus.bs := bus.a]
      case Precharge => if A10Set(bus) then map[] else d.open - {bus.bs}
      case Read => if A10Set(bus) then d.open - {bus.bs} else d.open
      case Write => if A10Set(bus) then d.open - {bus.bs} else d.open
      case _ => d.open,
      if bus.cmd == Write then d.mem[Target(d, bus) := dq] else d.mem,
      if bus.cmd == SetMode then seq(CasLatency(bus.a), _ => None)
      else if d.pipe == [] then []
      else d.pipe[1..] + [if bus.cmd == Read then Some(Lookup(d.mem, Target(d, bus))) else None])
  }

  function CellOf(p: Params, addr: nat): Cell
    requires p.Valid()
  {
    Cell(Bank(p, addr), Row(p, addr), Col(p, addr))
  }

  /** Different addresses are different cells. */
  lemma CellsAreDistinct(p: Params, a: nat, b: nat)
    requires p.Valid() && CellOf(p, a) == CellOf(p, b)
    ensures a == b
  {
    var x, y := a / p.cols, b / p.cols;
    assert x == p.banks * (x / p.banks) + x % p.banks;
    assert y == p.banks * (y / p.banks) + y % p.banks;
    assert a == p.cols * x + a % p.cols;
    assert b == p.cols * y + b % p.cols;
  }

  /** The controller clears address line 10 of a READ or WRITE and then puts the column on the low
      lines, so a column that reaches line 10 sets it again. */
  predicate ColumnsFit(p: Params) { p.cols <= A10 }

  /** No READ or WRITE the controller can ever drive asks the device to precharge, if and only if the
      columns fit below that line. */
  lemma AutoPrechargeNeverIff(p: Params)
    requires p.Valid()
    ensures ColumnsFit(p) <==> forall s: Ctl, req: Option<Request> ::
      Drive(p, s, req).cmd == Read || Drive(p, s, req).cmd == Write ==> !A10Set(Drive(p, s, req))
  {
    if !ColumnsFit(p) {
      var s, req := RowZeroOpen(p), Some(Request(A10, false, 0));
      HighColumn(p);
      assert Drive(p, s, req).cmd == Read && A10Set(Drive(p, s, req));
    }
  }

  /** The mode word has three bits for the latency, the lowest of it. */
  predicate LatencyFits(p: Params) { p.tCL < 8 }

  predicate Fits(p: Params) { ColumnsFit(p) && LatencyFits(p) }

  /** The word the controller sends makes the device's latency the controller's own, if it fits. */
  lemma ModeWordIsRight(p: Params)
    requires p.Valid()
    ensures ModeLegal(ModeWord(p)) && CasLatency(ModeWord(p)) == p.tCL <==> LatencyFits(p)
  {
  }

  /** Row 0 of bank 0 open, and nothing to wait for. */
  function RowZeroOpen(p: Params): Ctl {
    Ctl(Open, 0, 0, 1, 0, seq(p.tCL, _ => false), 0, 0, 0, 0, false)
  }

  lemma HighColumn(p: Params)
    requires p.Valid() && !ColumnsFit(p)
    ensures Col(p, A10) == A10 && Bank(p, A10) == 0 && Row(p, A10) == 0
  {
    assert A10 / p.cols == 0;
  }

  // ---------- The flat memory ----------

  /** The memory's contents after serving requests in order. */
  function FlatMem(start: map<nat, int>, served: seq<Request>): map<nat, int> {
    if served == [] then start else
      var r := served[|served| - 1];
      var before := FlatMem(start, served[..|served| - 1]);
      if r.we then before[r.addr := r.data] else before
  }

  /** The words the reads among them return: the last value written to the same address. */
  function FlatReads(start: map<nat, int>, served: seq<Request>): seq<int> {
    if served == [] then [] else
      var r, before := served[|served| - 1], served[..|served| - 1];
      FlatReads(start, before) + (if r.we then [] else [Lookup(FlatMem(start, before), r.addr)])
  }

  // ---------- Controller and device, cycle by cycle ----------

  ghost predicate SameContents(p: Params, mem: map<Cell, int>, flat: map<nat, int>)
    requires p.Valid()
  {
    forall addr: nat :: Lookup(mem, CellOf(p, addr)) == Lookup(flat, addr)
  }

  /** The device's banks are as the controller believes, its contents are the flat memory's, and once its
      mode is set its pipeline is as long as the controller's shift register and holds a word exactly where
      that holds a one. */
  ghost predicate Agree(p: Params, s: Ctl, d: Device, flat: map<nat, int>)
    requires p.Valid() && |s.cl| == p.tCL
  {
    BanksAgree(s, d.open) && SameContents(p, d.mem, flat) && PipesAgree(s, d.pipe)
  }

  predicate BanksAgree(s: Ctl, open: map<nat, nat>) {
    && (s.sm == InitPrecharge ==> s.timeout == 0)
    && (s.sm == InitSetMode || s.sm == Idle ==> open == map[])
    && (s.sm == Open ==> open == map[s.openBank := s.openRow])
  }

  predicate PipesAgree(s: Ctl, pipe: seq<Option<int>>) {
    if s.sm == InitPrecharge || s.sm == InitSetMode then NoneSet(s.cl) && NothingComing(pipe)
    else |pipe| == |s.cl| && forall k :: 0 <= k < |pipe| ==> s.cl[k] == pipe[k].Some?
  }

  function Dq(req: Option<Request>): int {
    if req.Some? then req.value.data else 0
  }

  /** The request taken in this cycle, if any. */
  function Taken(p: Params, s: Ctl, req: Option<Request>): seq<Request>
    requires p.Valid()
  {
    if Drive(p, s, req).cmdReady then req.ToSeq() else []
  }

  /** Every command is legal, and a READ or WRITE goes to the cell of its own address. */
  lemma CommandsAreLegal(p: Params, s: Ctl, d: Device, flat: map<nat, int>, req: Option<Request>)
    requires p.Valid() && Fits(p) && |s.cl| == p.tCL && Agree(p, s, d, flat)
    ensures var bus := Drive(p, s, req);
      && Legal(d, bus)
      && (bus.cmdReady <==> bus.cmd == Read || bus.cmd == Write)
      && (bus.cmdReady ==> req.Some? && (req.value.we <==> bus.cmd == Write)
                           && Target(d, bus) == CellOf(p, req.value.addr) && !A10Set(bus))
  {
  }

  lemma WriteAgrees(p: Params, mem: map<Cell, int>, flat: map<nat, int>, addr: nat, data: int)
    requires p.Valid() && SameContents(p, mem, flat)
    ensures SameContents(p, mem[CellOf(p, addr) := data], flat[addr := data])
  {
    forall a: nat
      ensures Lookup(mem[CellOf(p, addr) := data], CellOf(p, a)) == Lookup(flat[addr := data], a)
    {
      if a != addr {
        if CellOf(p, a) == CellOf(p, addr) { CellsAreDistinct(p, a, addr); }
        assert Lookup(mem, CellOf(p, a)) == Lookup(flat, a);
      }
    }
  }

  lemma BanksStayAgreed(p: Params, s: Ctl, d: Device, req: Option<Request>)
    requires p.Valid() && |s.cl| == p.tCL && BanksAgree(s, d.open)
    requires var bus := Drive(p, s, req); Legal(d, bus) && (bus.cmd == Read || bus.cmd == Write ==> !A10Set(bus))
    ensures BanksAgree(Step(p, s, req), DeviceStep(d, Drive(p, s, req), Dq(req)).open)
  {
    hide CloseRow, NoneSet, ModeLegal, NothingComing, Col, Row, Bank, ModeWord, Timeout;
  }

  lemma PipesStayAgreed(p: Params, s: Ctl, d: Device, req: Option<Request>)
    requires p.Valid() && LatencyFits(p) && |s.cl| == p.tCL && PipesAgree(s, d.pipe)
    requires Legal(d, Drive(p, s, req))
    ensures PipesAgree(Step(p, s, req), DeviceStep(d, Drive(p, s, req), Dq(req)).pipe)
  {
    hide CloseRow, Col, Row, Bank, Timeout, ModeWord, ModeLegal, CasLatency;
    ModeWordIsRight(p);
  }

  lemma StepAgrees(p: Params, s: Ctl, d: Device, flat: map<nat, int>, req: Option<Request>)
    requires p.Valid() && Fits(p) && |s.cl| == p.tCL && Agree(p, s, d, flat)
    ensures Legal(d, Drive(p, s, req))
    ensures Agree(p, Step(p, s, req), DeviceStep(d, Drive(p, s, req), Dq(req)), FlatMem(flat, Taken(p, s, req)))
  {
    hide Step, Drive, PipesAgree, BanksAgree;
    var bus := Drive(p, s, req);
    CommandsAreLegal(p, s, d, flat, req);
    BanksStayAgreed(p, s, d, req);
    PipesStayAgreed(p, s, d, req);
    if bus.cmd == Write {
      WriteAgrees(p, d.mem, flat, req.value.addr, req.value.data);
      assert [req.value][..0] == [];
    }
  }

  /** A step of the two together. */
  ghost predicate StaysAgreed(p: Params, s: Ctl, d: Device, flat: map<nat, int>, req: Option<Request>)
    requires p.Valid() && |s.cl| == p.tCL
  {
    && Legal(d, Drive(p, s, req))
    && Agree(p, Step(p, s, req), DeviceStep(d, Drive(p, s, req), Dq(req)), FlatMem(flat, Taken(p, s, req)))
  }

  /** Controller and device stay agreed on the open rows, the latency and the contents, from every agreed
      state and with every request, if and only if columns and latency fit. */
  lemma StaysAgreedIff(p: Params)
    requires p.Valid()
    ensures Fits(p) <==> forall s: Ctl, d: Device, flat: map<nat, int>, req: Option<Request> ::
      |s.cl| == p.tCL && Agree(p, s, d, flat) ==> StaysAgreed(p, s, d, flat, req)
  {
    if Fits(p) {
      forall s: Ctl, d: Device, flat: map<nat, int>, req: Option<Request>
        | |s.cl| == p.tCL && Agree(p, s, d, flat)
        ensures StaysAgreed(p, s, d, flat, req)
      {
        StepAgrees(p, s, d, flat, req);
      }
    } else if !ColumnsFit(p) {
      HighReadDisagrees(p);
    } else {
      CutLatencyDisagrees(p);
    }
  }

  lemma HighReadDisagrees(p: Params)
    requires p.Valid() && !ColumnsFit(p)
    ensures var s, req := RowZeroOpen(p), Some(Request(A10, false, 0));
      var d := Device(map[0 := 0], map[], seq(p.tCL, _ => None));
      Agree(p, s, d, map[]) && !StaysAgreed(p, s, d, map[], req)
  {
    var s, req := RowZeroOpen(p), Some(Request(A10, false, 0));
    var d := Device(map[0 := 0], map[], seq(p.tCL, _ => None));
    HighColumn(p);
    var bus := Drive(p, s, req);
    assert bus.cmd == Read && A10Set(bus);
    if Legal(d, bus) {
      assert 0 !in DeviceStep(d, bus, Dq(req)).open;
    }
  }

  /** About to set the mode. */
  function SettingMode(p: Params): Ctl {
    Ctl(InitSetMode, 0, 0, 0, 0, seq(p.tCL, _ => false), 0, 0, 0, 0, false)
  }

  lemma CutLatencyDisagrees(p: Params)
    requires p.Valid() && !LatencyFits(p)
    ensures var s, d := SettingMode(p), Device(map[], map[], []);
      Agree(p, s, d, map[]) && !StaysAgreed(p, s, d, map[], None)
  {
    var s, d := SettingMode(p), Device(map[], map[], []);
    var bus := Drive(p, s, None);
    assert bus.cmd == SetMode && Step(p, s, None).sm == Idle;
    if Legal(d, bus) {
      assert |DeviceStep(d, bus, Dq(None)).pipe| < 8;
    }
  }

  // ---------- Whole runs ----------

  /** Power-up: nothing is known of the banks and the mode, and the contents are whatever they are. */
  ghost predicate PowerUp(p: Params, d: Device, flat: map<nat, int>)
    requires p.Valid()
  {
    NothingComing(d.pipe) && SameContents(p, d.mem, flat)
  }

  /** The device after the run; an illegal command would leave it as it is. */
  function DeviceAfter(p: Params, start: Device, reqs: seq<Option<Request>>): Device
    requires p.Valid()
  {
    if reqs == [] then start else
      var before := reqs[..|reqs| - 1];
      var d, bus := DeviceAfter(p, start, before), BusAt(p, reqs, |reqs| - 1);
      if Legal(d, bus) then DeviceStep(d, bus, Dq(reqs[|reqs| - 1])) else d
  }

  /** The requests the controller has taken, in order. */
  function Served(p: Params, reqs: seq<Option<Request>>): seq<Request>
    requires p.Valid()
  {
    if reqs == [] then [] else
      var before := reqs[..|reqs| - 1];
      Served(p, before) + Taken(p, After(p, before), reqs[|reqs| - 1])
  }

  /** The words read in the cycles in which the controller says there is one. */
  function Received(p: Params, start: Device, reqs: seq<Option<Request>>): seq<int>
    requires p.Valid()
  {
    if reqs == [] then [] else
      var before := reqs[..|reqs| - 1];
      Received(p, start, before) + Arriving(After(p, before), DeviceAfter(p, start, before))
  }

  function Arriving(s: Ctl, d: Device): seq<int>
  {
    if s.cl != [] && s.cl[0] && d.pipe != [] && d.pipe[0].Some? then [d.pipe[0].value] else []
  }

  function Words(pipe: seq<Option<int>>): seq<int> {
    if pipe == [] then [] else pipe[0].ToSeq() + Words(pipe[1..])
  }

  lemma {:induction false} WordsAppend(pipe: seq<Option<int>>, w: Option<int>)
    ensures Words(pipe + [w]) == Words(pipe) + w.ToSeq()
    decreases |pipe|
  {
    if pipe == [] {
      assert pipe + [w] == [w];
    } else {
      assert (pipe + [w])[1..] == pipe[1..] + [w];
      WordsAppend(pipe[1..], w);
    }
  }

  lemma {:induction false} FlatMemSplits(start: map<nat, int>, served: seq<Request>, t: seq<Request>)
    requires |t| <= 1
    ensures FlatMem(start, served + t) == FlatMem(FlatMem(start, served), t)
    ensures FlatReads(start, served + t) == FlatReads(start, served)
        + (if t == [] || t[0].we then [] else [Lookup(FlatMem(start, served), t[0].addr)])
  {
    if t == [] {
      assert served + t == served;
    } else {
      assert (served + t)[..|served + t| - 1] == served && t[..0] == [];
    }
  }

  /** Every run: all commands are legal for the device, it drives a word in exactly the cycles in which the
      controller says so, and the words received, followed by those still in its pipeline, are the words a
      flat memory returns for the requests served. */
  lemma {:induction false} IsFlatMemory(p: Params, start: Device, flat: map<nat, int>, reqs: seq<Option<Request>>)
    requires p.Valid() && Fits(p) && PowerUp(p, start, flat)
    ensures var d := DeviceAfter(p, start, reqs);
      && Agree(p, After(p, reqs), d, FlatMem(flat, Served(p, reqs)))
      && (forall req :: Legal(d, Drive(p, After(p, reqs), req)))
      && (After(p, reqs).cl[0] <==> d.pipe != [] && d.pipe[0].Some?)
      && FlatReads(flat, Served(p, reqs)) == Received(p, start, reqs) + Words(d.pipe)
    decreases |reqs|
  {
    hide Agree, Legal, Drive, DeviceStep, PowerUp, FlatMem, Words, ColumnsFit, After, DeviceAfter, Served, Received,
      FlatReads;
    var s, d := After(p, reqs), DeviceAfter(p, start, reqs);
    if reqs == [] {
      StartsAgreed(p, start, flat);
    } else {
      var before, req := reqs[..|reqs| - 1], reqs[|reqs| - 1];
      IsFlatMemory(p, start, flat, before);
      RunStep(p, start, flat, before, req);
      assert before + [req] == reqs;
    }
    forall req
      ensures Legal(d, Drive(p, s, req))
    {
      CommandsAreLegal(p, s, d, FlatMem(flat, Served(p, reqs)), req);
    }
    WordIsExpected(p, s, d, FlatMem(flat, Served(p, reqs)));
  }

  lemma WordIsExpected(p: Params, s: Ctl, d: Device, flat: map<nat, int>)
    requires p.Valid() && |s.cl| == p.tCL && Agree(p, s, d, flat)
    ensures s.cl[0] <==> d.pipe != [] && d.pipe[0].Some?
  {
  }

  lemma StartsAgreed(p: Params, start: Device, flat: map<nat, int>)
    requires p.Valid() && PowerUp(p, start, flat)
    ensures After(p, []) == Reset(p) && DeviceAfter(p, start, []) == start
    ensures Agree(p, Reset(p), start, FlatMem(flat, Served(p, [])))
    ensures FlatReads(flat, Served(p, [])) == Received(p, start, []) + Words(start.pipe)
  {
    NoWords(start.pipe);
  }

  lemma {:induction false} NoWords(pipe: seq<Option<int>>)
    requires forall k :: 0 <= k < |pipe| ==> pipe[k].None?
    ensures Words(pipe) == []
    decreases |pipe|
  {
    if pipe != [] { NoWords(pipe[1..]); }
  }

  lemma RunStep(p: Params, start: Device, flat: map<nat, int>, before: seq<Option<Request>>, req: Option<Request>)
    requires p.Valid() && Fits(p)
    requires Agree(p, After(p, before), DeviceAfter(p, start, before), FlatMem(flat, Served(p, before)))
    requires FlatReads(flat, Served(p, before))
          == Received(p, start, before) + Words(DeviceAfter(p, start, before).pipe)
    ensures var reqs := before + [req];
      && Agree(p, After(p, reqs), DeviceAfter(p, start, reqs), FlatMem(flat, Served(p, reqs)))
      && FlatReads(flat, Served(p, reqs)) == Received(p, start, reqs) + Words(DeviceAfter(p, start, reqs).pipe)
  {
    var s, d, mem := After(p, before), DeviceAfter(p, start, before), FlatMem(flat, Served(p, before));
    StepAgrees(p, s, d, mem, req);
    PipeDelivers(p, s, d, mem, req);
    FlatMemSplits(flat, Served(p, before), Taken(p, s, req));
    Unfold(p, start, before, req);
    var t := Taken(p, s, req);
    Extend(FlatReads(flat, Served(p, before)), Received(p, start, before), Words(d.pipe),
      if t == [] || t[0].we then [] else [Lookup(mem, t[0].addr)],
      Arriving(s, d), Words(DeviceStep(d, Drive(p, s, req), Dq(req)).pipe));
  }

  /** One more cycle, as the functions over runs see it. */
  lemma Unfold(p: Params, start: Device, before: seq<Option<Request>>, req: Option<Request>)
    requires p.Valid()
    ensures var reqs, s, d := before + [req], After(p, before), DeviceAfter(p, start, before);
      && After(p, reqs) == Step(p, s, req)
      && Served(p, reqs) == Served(p, before) + Taken(p, s, req)
      && Received(p, start, reqs) == Received(p, start, before) + Arriving(s, d)
      && DeviceAfter(p, start, reqs)
         == if Legal(d, Drive(p, s, req)) then DeviceStep(d, Drive(p, s, req), Dq(req)) else d
  {
    var reqs := before + [req];
    assert reqs[..|reqs| - 1] == before;
  }

  /** One cycle of the read pipeline: what it held and what enters is what arrives and what it holds. */
  lemma PipeDelivers(p: Params, s: Ctl, d: Device, flat: map<nat, int>, req: Option<Request>)
    requires p.Valid() && Fits(p) && |s.cl| == p.tCL && Agree(p, s, d, flat)
    requires Legal(d, Drive(p, s, req))
    ensures var t := Taken(p, s, req);
      Words(d.pipe) + (if t == [] || t[0].we then [] else [Lookup(flat, t[0].addr)])
      == Arriving(s, d) + Words(DeviceStep(d, Drive(p, s, req), Dq(req)).pipe)
  {
    var bus := Drive(p, s, req);
    CommandsAreLegal(p, s, d, flat, req);
    PipeMoves(d, bus, Dq(req));
    if bus.cmd == Read {
      assert Lookup(d.mem, CellOf(p, req.value.addr)) == Lookup(flat, req.value.addr);
    }
  }

  lemma PipeMoves(d: Device, bus: Bus, dq: int)
    requires Legal(d, bus)
    ensures Words(d.pipe) + (if bus.cmd == Read then [Lookup(d.mem, Target(d, bus))] else [])
         == (if d.pipe == [] then [] else d.pipe[0].ToSeq()) + Words(DeviceStep(d, bus, dq).pipe)
  {
    hide ModeLegal, CasLatency, A10Set, Lookup;
    if bus.cmd == SetMode || d.pipe == [] {
      NoWords(d.pipe);
      NoWords(DeviceStep(d, bus, dq).pipe);
    } else {
      WordsAppend(d.pipe[1..], if bus.cmd == Read then Some(Lookup(d.mem, Target(d, bus))) else None);
    }
  }

  // ---------- What does not fit ----------

  /** Quick timing. */
  function Quick(tCL: nat, cols: nat): Params {
    Params(0, 0, 0, 0, 0, 100, 0, tCL, 1000, 4, cols)
  }

  /** Reading one address over and over. */
  function Reading(addr: nat): Option<Request> { Some(Request(addr, false, 0)) }

  function Repeated(addr: nat, n: nat): seq<Option<Request>> {
    if n == 0 then [] else Repeated(addr, n - 1) + [Reading(addr)]
  }

  /** Controller and device in cycle n of that: two cycles of initialisation, eight refreshes, and then
      an ACTIVE. */
  function CtlAt(tCL: nat, n: nat): Ctl
    requires n <= 11
  {
    Ctl(if n == 0 then InitPrecharge else if n == 1 then InitSetMode else if n <= 10 then Idle else Open, 0, 0,
      if n == 11 then 100 else 0, 0, seq(tCL, _ => false), if 2 <= n <= 10 then 10 - n else 0, 0, 0, n, false)
  }

  function BusOf(tCL: nat, addr: nat, n: nat): Bus
    requires n <= 11
  {
    if n == 0 then Bus(Precharge, A10, 0, false, false)
    else if n == 1 then Bus(SetMode, tCL % 8 * 16, 0, false, false)
    else if n < 10 then Bus(AutoRefresh, 0, 0, true, false)
    else if n == 10 then Bus(Active, 0, 0, true, false)
    else Bus(Read, addr, 0, false, true)
  }

  lemma LowAddress(cols: nat, addr: nat)
    requires addr < cols
    ensures addr / cols == 0 && addr % cols == addr
  {
  }

  lemma NoBits(n: nat)
    requires n > 0
    ensures seq(n, _ => false)[1..] + [false] == seq(n, _ => false)
  {
  }

  lemma CtlCycle(tCL: nat, cols: nat, addr: nat, n: nat)
    requires n <= 11 && tCL >= 2 && addr < cols
    ensures Drive(Quick(tCL, cols), CtlAt(tCL, n), Reading(addr)) == BusOf(tCL, addr, n)
    ensures n < 11 ==> Step(Quick(tCL, cols), CtlAt(tCL, n), Reading(addr)) == CtlAt(tCL, n + 1)
    ensures n == 11 ==>
      var s := Step(Quick(tCL, cols), CtlAt(tCL, n), Reading(addr));
      Drive(Quick(tCL, cols), s, Reading(addr)) == BusOf(tCL, addr, 11)
  {
    LowAddress(cols, addr);
    NoBits(tCL);
  }

  lemma BusOpens(tCL: nat, addr: nat, n: nat)
    requires n <= 11
    ensures n <= 10 ==> BusOf(tCL, addr, n).cmd != Read && BusOf(tCL, addr, n).cmd != Write
    ensures BusOf(tCL, addr, n).cmd == Active <==> n == 10
    ensures n == 0 ==> BusOf(tCL, addr, n).cmd == Precharge && A10Set(BusOf(tCL, addr, n))
    ensures n == 1 ==> BusOf(tCL, addr, n) == Bus(SetMode, tCL % 8 * 16, 0, false, false)
    ensures n == 10 ==> BusOf(tCL, addr, n).a == 0 && BusOf(tCL, addr, n).bs == 0
    ensures n == 11 ==> BusOf(tCL, addr, n) == Bus(Read, addr, 0, false, true)
    ensures 1 < n < 10 ==> BusOf(tCL, addr, n).cmd == AutoRefresh
  {
  }

  predicate OpensAt(latency: nat, d: Device, n: nat) {
    && NothingComing(d.pipe) && (n >= 2 ==> |d.pipe| == latency)
    && (1 <= n <= 10 ==> d.open == map[]) && (n == 11 ==> d.open == map[0 := 0])
  }

  lemma DeviceCycle(tCL: nat, addr: nat, d: Device, n: nat)
    requires n < 11 && tCL % 8 > 0 && OpensAt(tCL % 8, d, n)
    ensures Legal(d, BusOf(tCL, addr, n))
    ensures OpensAt(tCL % 8, DeviceStep(d, BusOf(tCL, addr, n), Dq(Reading(addr))), n + 1)
  {
    hide BusOf;
    BusOpens(tCL, addr, n);
  }

  lemma QuickReset(tCL: nat, cols: nat, start: Device)
    requires NothingComing(start.pipe)
    ensures Reset(Quick(tCL, cols)) == CtlAt(tCL, 0) && OpensAt(tCL % 8, start, 0)
  {
  }

  lemma {:induction false} QuickRun(tCL: nat, cols: nat, addr: nat, start: Device, n: nat)
    requires n <= 11 && tCL >= 2 && tCL % 8 > 0 && addr < cols && NothingComing(start.pipe)
    ensures var reqs := Repeated(addr, n);
      && After(Quick(tCL, cols), reqs) == CtlAt(tCL, n)
      && OpensAt(tCL % 8, DeviceAfter(Quick(tCL, cols), start, reqs), n)
  {
    hide Drive, Step, BusOf, Legal, DeviceStep, CtlAt, OpensAt, Reset, Served, Received, Taken, Arriving;
    var p := Quick(tCL, cols);
    if n == 0 {
      QuickReset(tCL, cols, start);
    } else {
      QuickRun(tCL, cols, addr, start, n - 1);
      CtlCycle(tCL, cols, addr, n - 1);
      BusOpens(tCL, addr, n - 1);
      DeviceCycle(tCL, addr, DeviceAfter(p, start, Repeated(addr, n - 1)), n - 1);
      Unfold(p, start, Repeated(addr, n - 1), Reading(addr));
    }
  }

  lemma HighReadCloses(d: Device)
    requires OpensAt(2, d, 11)
    ensures var bus := Bus(Read, A10, 0, false, true);
      Legal(d, bus) && !Legal(DeviceStep(d, bus, 0), bus)
  {
  }

  /** From power-up with eleven column bits, reading column 1024 of row 0 over and over: the first READ, in
      cycle 11, makes the device close the row, and the next one finds it closed. */
  lemma HighReadTwice(start: Device)
    requires NothingComing(start.pipe)
    ensures var p := Quick(2, 2048);
      var s, d := After(p, Repeated(A10, 12)), DeviceAfter(p, start, Repeated(A10, 12));
      Drive(p, s, Reading(A10)).cmd == Read && !Legal(d, Drive(p, s, Reading(A10)))
  {
    hide Drive, Step, BusOf, Row, Col, Bank, After, DeviceAfter, Served, Received, CtlAt;
    QuickRun(2, 2048, A10, start, 11);
    CtlCycle(2, 2048, A10, 11);
    BusOpens(2, A10, 11);
    HighReadCloses(DeviceAfter(Quick(2, 2048), start, Repeated(A10, 11)));
    Unfold(Quick(2, 2048), start, Repeated(A10, 11), Reading(A10));
  }
  // A latency of ten is cut to two.

  predicate ReadingOn(s: Ctl, d: Device, count: nat) {
    && s.sm == Open && s.timeout == 0 && s.rasMax == 100 - count && s.openBank == 0 == s.openRow
    && s.refreshCtr == 11 + count && !s.refreshValid
    && |s.cl| == 10 && (forall k :: 0 <= k < 10 - count ==> !s.cl[k])
    && d.open == map[0 := 0] && |d.pipe| == 2
  }

  lemma ReadsOn(s: Ctl, d: Device, count: nat)
    requires count < 10 && ReadingOn(s, d, count)
    ensures var p, x := Quick(10, 1024), Reading(0);
      && Legal(d, Drive(p, s, x)) && ReadingOn(Step(p, s, x), DeviceStep(d, Drive(p, s, x), Dq(x)), count + 1)
      && Taken(p, s, x) == [x.value] && Arriving(s, d) == []
  {
    LowAddress(1024, 0);
  }

  lemma StartsReading(d: Device)
    requires OpensAt(2, d, 11)
    ensures ReadingOn(CtlAt(10, 11), d, 0)
  {
  }

  lemma Quiet(n: nat, d: Device)
    requires n < 11 && OpensAt(2, d, n)
    ensures Taken(Quick(10, 1024), CtlAt(10, n), Reading(0)) == [] && Arriving(CtlAt(10, n), d) == []
  {
    CtlCycle(10, 1024, 0, n);
  }

  lemma NoCycles(p: Params, start: Device)
    requires p.Valid()
    ensures Served(p, []) == [] && Received(p, start, []) == []
  {
  }

  lemma {:induction false} NothingServed(start: Device, n: nat)
    requires n <= 11 && NothingComing(start.pipe)
    ensures Served(Quick(10, 1024), Repeated(0, n)) == [] && Received(Quick(10, 1024), start, Repeated(0, n)) == []
  {
    hide Drive, Step, Legal, DeviceStep, Taken, Arriving, OpensAt, CtlAt, Served, Received, After, DeviceAfter;
    if n == 0 {
      NoCycles(Quick(10, 1024), start);
    } else {
      NothingServed(start, n - 1);
      QuickRun(10, 1024, 0, start, n - 1);
      Quiet(n - 1, DeviceAfter(Quick(10, 1024), start, Repeated(0, n - 1)));
      Unfold(Quick(10, 1024), start, Repeated(0, n - 1), Reading(0));
    }
  }

  lemma {:induction false} LatencyRun(start: Device, count: nat)
    requires count <= 10 && NothingComing(start.pipe)
    ensures var p, reqs := Quick(10, 1024), Repeated(0, 11 + count);
      && ReadingOn(After(p, reqs), DeviceAfter(p, start, reqs), count)
      && Served(p, reqs) == seq(count, _ => Request(0, false, 0)) && Received(p, start, reqs) == []
    decreases count
  {
    hide Drive, Step, Legal, DeviceStep, ReadingOn, Taken, Arriving, Served, Received, After, DeviceAfter;
    var p := Quick(10, 1024);
    if count == 0 {
      QuickRun(10, 1024, 0, start, 11);
      StartsReading(DeviceAfter(p, start, Repeated(0, 11)));
      NothingServed(start, 11);
    } else {
      LatencyRun(start, count - 1);
      var before := Repeated(0, 10 + count);
      ReadsOn(After(p, before), DeviceAfter(p, start, before), count - 1);
      Unfold(p, start, before, Reading(0));
    }
  }

  /** From power-up with a latency of ten: of ten reads served, none has been received, and the device has
      only the last two words still to give. */
  lemma CutLatencyLosesReads(start: Device)
    requires NothingComing(start.pipe)
    ensures var p, reqs := Quick(10, 1024), Repeated(0, 21);
      && Served(p, reqs) == seq(10, _ => Request(0, false, 0)) && Received(p, start, reqs) == []
      && |DeviceAfter(p, start, reqs).pipe| == 2
  {
    hide Repeated, After, DeviceAfter, Served, Received;
    LatencyRun(start, 10);
  }
}
