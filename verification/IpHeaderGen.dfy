/** synth/network/ip_header_gen.sv with the checksum module inside it: one counter feeds a request's
    words to the checksum, the other lays the header's words on the output. The checksum is taken in the
    cycle it is presented only if the output stands at word 2 by then, and the feeding goes on while
    words 3 and 4 leave. */
module IpHeaderGen {
  import opened ByteStream
  import opened IpChecksum
  import opened IpHeader

  const CTR_MAX := 4
  const CTR_CHECKSUM_IDX := 2
  const ALL_KEPT := [true, true, true, true]

  datatype Gen = Gen(sumCtr: nat, outCtr: nat, sum: Acc4) {
    predicate Ok() { sumCtr <= CTR_MAX && outCtr <= CTR_MAX && sum.Ok() }
  }

  /** The lines driven from outside in a cycle. */
  datatype Lines = Lines(iTvalid: bool, request: Request, oTready: bool)

  function FedHalf(r: Request, k: nat, upper: bool): Half
    requires r.Ok() && k <= CTR_MAX
  {
    FedHalves(FedWords(r)[k])[if upper then 1 else 0]
  }

  function SumInput(g: Gen, i: Lines): Input4
    requires g.Ok() && i.request.Ok()
  {
    Input4(i.iTvalid, FedHalf(i.request, g.sumCtr, false), FedHalf(i.request, g.sumCtr, true), g.sumCtr == CTR_MAX,
      g.outCtr == CTR_CHECKSUM_IDX)
  }

  function OutLanes(r: Request, csum: Half, k: nat): (lanes: seq<byte>)
    requires r.Ok() && k <= CTR_MAX
    ensures |lanes| == 4
  {
    match k
    case 0 => Word0(r)
    case 1 => WORD_1
    case 2 => Word2Lower(r) + Swap(Vector16(csum))
    case 3 => Swap(r.src)
    case _ => Swap(r.dst)
  }

  function HeaderWord(r: Request, csum: Half, k: nat): (w: Word)
    requires r.Ok() && k <= CTR_MAX
    ensures w.Lanes(4)
  {
    Word(OutLanes(r, csum, k), ALL_KEPT, k == CTR_MAX)
  }

  predicate OutValid(g: Gen, i: Lines) {
    if g.outCtr == CTR_CHECKSUM_IDX then g.sum.stage.Presented? else i.iTvalid
  }

  predicate Emits(g: Gen, i: Lines) { OutValid(g, i) && i.oTready }

  /** Valid does not wait for ready. A word on offer that is not taken is still there in the next cycle,
      the request being held, but for word 2: its checksum is presented for one cycle only. */
  lemma StaysOnOfferIff(g: Gen, i: Lines)
    requires g.Ok() && i.request.Ok() && i.iTvalid && OutValid(g, i) && !i.oTready
    ensures OutValid(g, i.(oTready := true))
    ensures var r := Next(g, i);
      && r.outCtr == g.outCtr && (OutValid(r, i) <==> g.outCtr != CTR_CHECKSUM_IDX)
      && (g.outCtr != CTR_CHECKSUM_IDX ==>
          HeaderWord(i.request, Csum(r.sum.acc), r.outCtr) == HeaderWord(i.request, Csum(g.sum.acc), g.outCtr))
  {
    hide FedHalf, Csum;
  }

  predicate Accepts(g: Gen, i: Lines) { i.iTvalid && i.oTready && g.outCtr == CTR_MAX }

  function Next(g: Gen, i: Lines): (r: Gen)
    requires g.Ok() && i.request.Ok()
    ensures r.Ok()
  {
    Gen(
      if !Takes4(g.sum, SumInput(g, i)) then g.sumCtr else if g.sumCtr == CTR_MAX then 0 else g.sumCtr + 1,
      if !Emits(g, i) then g.outCtr else if g.outCtr == CTR_MAX then 0 else g.outCtr + 1,
      Next4(g.sum, SumInput(g, i)))
  }

  // ---------- With a source and a sink ----------

  /** The generator and the requests its source has for it; `shown` is that the first is on offer, and then
      it stays there until it is accepted. */
  datatype System = System(g: Gen, queue: seq<Request>, shown: bool) {
    predicate Ok() {
      && g.Ok() && (forall k :: 0 <= k < |queue| ==> queue[k].Ok())
      && (shown ==> queue != []) && (g.outCtr > 0 ==> shown)
    }
  }

  datatype Cycle = Cycle(offers: bool, oTready: bool)

  const NO_REQUEST := Request([0, 0, 0, 0], [0, 0, 0, 0], 0, 0)

  function Drive(s: System, x: Cycle): (i: Lines)
    requires s.Ok()
    ensures i.request.Ok()
  {
    if s.queue == [] then Lines(false, NO_REQUEST, x.oTready) else Lines(s.shown || x.offers, s.queue[0], x.oTready)
  }

  function Step(s: System, x: Cycle): (r: System)
    requires s.Ok()
    ensures r.Ok()
  {
    var i := Drive(s, x);
    System(Next(s.g, i), if Accepts(s.g, i) then s.queue[1..] else s.queue, i.iTvalid && !Accepts(s.g, i))
  }

  function Start(queue: seq<Request>): System {
    System(Gen(0, 0, RESET4), queue, false)
  }

  function EmittedNow(s: System, x: Cycle): seq<Word>
    requires s.Ok()
  {
    var i := Drive(s, x);
    if Emits(s.g, i) then [HeaderWord(i.request, Csum(s.g.sum.acc), s.g.outCtr)] else []
  }

  function Emitted(s: System, xs: seq<Cycle>): (ws: seq<Word>)
    requires s.Ok()
    ensures AllLanes(4, ws)
    decreases |xs|
  {
    if xs == [] then [] else EmittedNow(s, xs[0]) + Emitted(Step(s, xs[0]), xs[1..])
  }

  // ---------- What every header carries ----------

  /** Beside a run: what the checksum has accepted since a result was last taken, and what the one in the
      header under way counted. */
  datatype Trace = Trace(h: History, counted: seq<Half>)

  const NO_TRACE := Trace(History([], []), [])

  function Traced(t: Trace, s: System, x: Cycle): Trace
    requires s.Ok()
  {
    var i := Drive(s, x);
    Trace(Logged(t.h, s.g.sum, SumInput(s.g, i)),
      if Emits(s.g, i) && s.g.outCtr == CTR_CHECKSUM_IDX then Counted(t.h.missed + [t.h.open]) else t.counted)
  }

  /** A request whose header has left, and the words its checksum counted. */
  datatype Sending = Sending(request: Request, counted: seq<Half>)

  function SentNow(s: System, t: Trace, x: Cycle): (sent: seq<Sending>)
    requires s.Ok()
    ensures |sent| <= 1 && (sent != [] ==> sent[0].request.Ok())
  {
    if Accepts(s.g, Drive(s, x)) then [Sending(s.queue[0], t.counted)] else []
  }

  function Sent(s: System, t: Trace, xs: seq<Cycle>): (sent: seq<Sending>)
    requires s.Ok()
    ensures forall k :: 0 <= k < |sent| ==> sent[k].request.Ok()
    decreases |xs|
  {
    hide Step, Traced, SentNow;
    if xs == [] then [] else SentNow(s, t, xs[0]) + Sent(Step(s, xs[0]), Traced(t, s, xs[0]), xs[1..])
  }

  function Run(s: System, xs: seq<Cycle>): (r: System)
    requires s.Ok()
    ensures r.Ok()
    decreases |xs|
  {
    if xs == [] then s else Run(Step(s, xs[0]), xs[1..])
  }

  function RunTrace(s: System, t: Trace, xs: seq<Cycle>): Trace
    requires s.Ok()
    decreases |xs|
  {
    if xs == [] then t else RunTrace(Step(s, xs[0]), Traced(t, s, xs[0]), xs[1..])
  }

  function HeaderWords(r: Request, csum: Half, n: nat): (ws: seq<Word>)
    requires r.Ok() && n <= CTR_MAX + 1
    ensures |ws| == n && AllLanes(4, ws)
  {
    if n == 0 then [] else HeaderWords(r, csum, n - 1) + [HeaderWord(r, csum, n - 1)]
  }

  function Headers(sent: seq<Sending>): (ws: seq<Word>)
    requires forall k :: 0 <= k < |sent| ==> sent[k].request.Ok()
    ensures AllLanes(4, ws)
  {
    if sent == [] then []
    else HeaderWords(sent[0].request, Checksum(sent[0].counted), CTR_MAX + 1) + Headers(sent[1..])
  }

  /** The words of the header under way that have left. */
  function Begun(s: System, t: Trace): (ws: seq<Word>)
    requires s.Ok()
    ensures AllLanes(4, ws)
  {
    if s.queue == [] then [] else HeaderWords(s.queue[0], Checksum(t.counted), s.g.outCtr)
  }

  lemma SameStart(r: Request, a: Half, b: Half, n: nat)
    requires r.Ok() && n <= CTR_CHECKSUM_IDX
    ensures HeaderWords(r, a, n) == HeaderWords(r, b, n)
  {
    if n != 0 {
      SameStart(r, a, b, n - 1);
    }
  }

  lemma OneHeader(sent: seq<Sending>)
    requires |sent| <= 1 && (sent != [] ==> sent[0].request.Ok())
    ensures Headers(sent)
         == if sent == [] then [] else HeaderWords(sent[0].request, Checksum(sent[0].counted), CTR_MAX + 1)
  {
    hide Checksum, HeaderWords;
    if sent != [] {
      assert sent[1..] == [];
    }
  }

  lemma StepSends(s: System, t: Trace, x: Cycle)
    requires s.Ok() && Tracks(t.h, s.g.sum)
    ensures Tracks(Traced(t, s, x).h, Step(s, x).g.sum)
    ensures Begun(s, t) + EmittedNow(s, x) == Headers(SentNow(s, t, x)) + Begun(Step(s, x), Traced(t, s, x))
  {
    hide Next4, Logged, Tracks, Checksum, Csum, OutLanes, FedHalf, Counted;
    var i, was, now := Drive(s, x), t.counted, Traced(t, s, x).counted;
    StepTracks(t.h, s.g.sum, SumInput(s.g, i));
    OneHeader(SentNow(s, t, x));
    if Emits(s.g, i) {
      if s.g.outCtr == CTR_CHECKSUM_IDX {
        PresentedIsCounted(t.h, s.g.sum);
        SameStart(i.request, Checksum(was), Checksum(now), s.g.outCtr);
      } else if s.g.outCtr == CTR_MAX {
        SameWord(i.request, Csum(s.g.sum.acc), Checksum(was), s.g.outCtr);
      } else {
        SameWord(i.request, Csum(s.g.sum.acc), Checksum(was), s.g.outCtr);
      }
    }
  }

  lemma SameWord(r: Request, a: Half, b: Half, k: nat)
    requires r.Ok() && k <= CTR_MAX && k != CTR_CHECKSUM_IDX
    ensures HeaderWord(r, a, k) == HeaderWord(r, b, k)
  {
  }

  lemma Chain<T>(before: seq<T>, out: seq<T>, later: seq<T>, done: seq<T>, after: seq<T>, end: seq<T>)
    requires before + out == done + after && after + later == end
    ensures before + (out + later) == done + end
  {
    assert before + (out + later) == (before + out) + later;
    assert done + (after + later) == (done + after) + later;
  }

  lemma HeadersAppend(first: seq<Sending>, rest: seq<Sending>)
    requires |first| <= 1 && (first != [] ==> first[0].request.Ok())
    requires forall k :: 0 <= k < |rest| ==> rest[k].request.Ok()
    ensures Headers(first + rest) == Headers(first) + Headers(rest)
  {
    if first == [] {
      assert first + rest == rest;
    } else {
      assert first == [first[0]] && (first + rest)[1..] == rest && first[1..] == [];
    }
  }

  /** Any requests, offered at any time, and any back-pressure: the words emitted are the headers of the
      requests in order, each with the checksum of what was counted for it. */
  lemma {:induction false} HeadersAreSent(s: System, t: Trace, xs: seq<Cycle>)
    requires s.Ok() && Tracks(t.h, s.g.sum)
    ensures Begun(s, t) + Emitted(s, xs) == Headers(Sent(s, t, xs)) + Begun(Run(s, xs), RunTrace(s, t, xs))
    decreases |xs|
  {
    hide Step, Traced, Begun, Tracks, SentNow, EmittedNow, HeaderWords, Checksum;
    if xs != [] {
      var x, next, after, rest := xs[0], Step(s, xs[0]), Traced(t, s, xs[0]), xs[1..];
      StepSends(s, t, x);
      HeadersAreSent(next, after, rest);
      HeadersAppend(SentNow(s, t, x), Sent(next, after, rest));
      Chain(Begun(s, t), EmittedNow(s, x), Emitted(next, rest), Headers(SentNow(s, t, x)), Begun(next, after),
        Headers(Sent(next, after, rest)) + Begun(Run(next, rest), RunTrace(next, after, rest)));
    }
  }

  /** From reset: whole headers, one for each request accepted, and the beginning of the next. */
  lemma HeadersFromReset(queue: seq<Request>, xs: seq<Cycle>)
    requires forall k :: 0 <= k < |queue| ==> queue[k].Ok()
    ensures var s, t := Start(queue), NO_TRACE;
      Emitted(s, xs) == Headers(Sent(s, t, xs)) + Begun(Run(s, xs), RunTrace(s, t, xs))
  {
    hide Emitted, Sent, Run, RunTrace, Tracks;
    var s, t := Start(queue), NO_TRACE;
    ResetTracks();
    HeadersAreSent(s, t, xs);
    assert Begun(s, t) == [];
    assert [] + Emitted(s, xs) == Emitted(s, xs);
  }

  /** Headers as a stream of bytes, each one packet. */
  function HeaderStream(sent: seq<Sending>): seq<Token>
    requires forall k :: 0 <= k < |sent| ==> sent[k].request.Ok()
  {
    if sent == [] then []
    else Marks(Header(sent[0].request, Checksum(sent[0].counted))) + [End] + HeaderStream(sent[1..])
  }

  lemma HeaderWordTokens(r: Request, csum: Half, k: nat)
    requires r.Ok() && k <= CTR_MAX
    ensures WordTokens(HeaderWord(r, csum, k))
         == Marks(Header(r, csum)[4 * k..4 * k + 4]) + (if k == CTR_MAX then [End] else [])
  {
    hide OutLanes, Header, Kept;
    var w := HeaderWord(r, csum, k);
    KeptPacked(w.data, w.keep, 4);
    HeaderLanes(r, csum, k);
    assert w.data[..4] == w.data;
  }

  lemma HeaderLanes(r: Request, csum: Half, k: nat)
    requires r.Ok() && k <= CTR_MAX
    ensures OutLanes(r, csum, k) == Header(r, csum)[4 * k..4 * k + 4]
  {
    hide Swap, Vector16, Word0, Word2Lower;
  }

  lemma {:induction false} HeaderWordsTokens(r: Request, csum: Half, n: nat)
    requires r.Ok() && n <= CTR_MAX + 1
    ensures WordStream(HeaderWords(r, csum, n))
         == Marks(Header(r, csum)[..4 * n]) + (if n == CTR_MAX + 1 then [End] else [])
  {
    hide HeaderWord, Header, WordTokens;
    if n > 0 {
      var words, w, h := HeaderWords(r, csum, n - 1), HeaderWord(r, csum, n - 1), Header(r, csum);
      HeaderWordsTokens(r, csum, n - 1);
      HeaderWordTokens(r, csum, n - 1);
      WordStreamAppend(words, [w]);
      assert [w][1..] == [] && WordStream([w]) == WordTokens(w);
      assert h[..4 * n] == h[..4 * (n - 1)] + h[4 * (n - 1)..4 * n];
    }
  }

  lemma {:induction false} HeadersTokens(sent: seq<Sending>)
    requires forall k :: 0 <= k < |sent| ==> sent[k].request.Ok()
    ensures WordStream(Headers(sent)) == HeaderStream(sent)
    decreases |sent|
  {
    hide HeaderWords, Header, Checksum;
    if sent != [] {
      var r, csum := sent[0].request, Checksum(sent[0].counted);
      HeadersTokens(sent[1..]);
      HeaderWordsTokens(r, csum, CTR_MAX + 1);
      WordStreamAppend(HeaderWords(r, csum, CTR_MAX + 1), Headers(sent[1..]));
      assert Header(r, csum)[..20] == Header(r, csum);
    }
  }

  /** As bytes, from reset: one packet of the twenty bytes of its header for each request accepted, in order,
      and the first bytes of the next, four for each word that has left. */
  lemma HeaderBytesFromReset(queue: seq<Request>, xs: seq<Cycle>)
    requires forall k :: 0 <= k < |queue| ==> queue[k].Ok()
    ensures var s, t := Start(queue), NO_TRACE;
      var r, after := Run(s, xs), RunTrace(s, t, xs);
      WordStream(Emitted(s, xs))
      == HeaderStream(Sent(s, t, xs))
       + if r.queue == [] then [] else Marks(Header(r.queue[0], Checksum(after.counted))[..4 * r.g.outCtr])
  {
    hide Emitted, Sent, Run, RunTrace, Headers, HeaderStream, Header, HeaderWords, Checksum;
    var s, t := Start(queue), NO_TRACE;
    var r, after := Run(s, xs), RunTrace(s, t, xs);
    HeadersFromReset(queue, xs);
    HeadersTokens(Sent(s, t, xs));
    WordStreamAppend(Headers(Sent(s, t, xs)), Begun(r, after));
    if r.queue != [] {
      HeaderWordsTokens(r.queue[0], Checksum(after.counted), r.g.outCtr);
    }
  }

  lemma {:induction false} SentInOrder(s: System, t: Trace, xs: seq<Cycle>)
    requires s.Ok()
    ensures |Sent(s, t, xs)| <= |s.queue|
    ensures forall k :: 0 <= k < |Sent(s, t, xs)| ==> Sent(s, t, xs)[k].request == s.queue[k]
    decreases |xs|
  {
    hide Next, Traced, Drive;
    if xs != [] {
      SentInOrder(Step(s, xs[0]), Traced(t, s, xs[0]), xs[1..]);
    }
  }

  // ---------- When a header is right ----------

  /** What a receiver checks: the header sums to all ones. */
  predicate HeaderRight(sent: Sending)
    requires sent.request.Ok()
  {
    OnesSum(Network(Header(sent.request, Checksum(sent.counted)))) == 0xFFFF
  }

  /** It does if and only if what its checksum counted adds up, modulo 65535, to what it should have
      counted. */
  lemma HeaderRightIff(r: Request, counted: seq<Half>)
    requires r.Ok()
    ensures HeaderRight(Sending(r, counted)) <==> Total(counted) % 0xFFFF == Total(AllFed(r)) % 0xFFFF
  {
    hide OnesSum, Total, Network, AllFed;
    var csum, whole := Checksum(counted), Network(Header(r, Checksum(counted)));
    HeaderTotal(r, csum);
    FedTotal(r);
    StartsNonzero(r, csum);
    SumIsResidue(counted);
    SumIsResidue(whole);
    RightIff(Total(AllFed(r)), Total(counted), OnesSum(counted), OnesSum(whole));
  }

  lemma RightIff(due: nat, counted: nat, sum: Half, whole: Half)
    requires sum % 0xFFFF == counted % 0xFFFF
    requires whole % 0xFFFF == (due + 0xFFFF - sum) % 0xFFFF && whole != 0
    ensures whole == 0xFFFF <==> counted % 0xFFFF == due % 0xFFFF
  {
  }

  lemma StartsNonzero(r: Request, csum: Half)
    requires r.Ok()
    ensures |Network(Header(r, csum))| > 0 && Network(Header(r, csum))[0] != 0
  {
    hide Swap;
    var h := Header(r, csum);
    assert h[0] == Word0(r)[0] == 0x45;
    assert Network(h)[0] == BigEndian(h[0], h[1]);
  }

  /** The words fed as n of a request, the addresses being those of `a`. */
  function FedUpTo(a: Request, r: Request, n: nat): seq<Half>
    requires a.Ok() && r.Ok() && n <= CTR_MAX + 1
  {
    if n == 0 then [] else FedUpTo(a, r, n - 1) + FedHalves(FedWords(if n <= 2 then a else r)[n - 1])
  }

  lemma AllIsUpToFive(r: Request)
    requires r.Ok()
    ensures FedUpTo(r, r, 5) == AllFed(r)
  {
    hide FedHalves, FedWords;
    var h := FedHalves(FedWords(r)[0]);
    assert [] + h == h;
    assert FedUpTo(r, r, 1) == h;
    assert FedUpTo(r, r, 2) == h + FedHalves(FedWords(r)[1]);
    assert FedUpTo(r, r, 3) == FedUpTo(r, r, 2) + FedHalves(FedWords(r)[2]);
    assert FedUpTo(r, r, 4) == FedUpTo(r, r, 3) + FedHalves(FedWords(r)[3]);
  }

  lemma FedGrows(a: Request, r: Request, n: nat)
    requires a.Ok() && r.Ok() && n <= CTR_MAX && (n < 2 ==> a == r)
    ensures FedUpTo(a, r, n) + [FedHalf(r, n, false), FedHalf(r, n, true)] == FedUpTo(a, r, n + 1)
  {
    hide FedWords;
    var halves := FedHalves(FedWords(r)[n]);
    assert halves == [halves[0], halves[1]];
  }

  // ---------- The first header ----------

  function Copies(k: nat, packet: seq<Half>): (packets: seq<seq<Half>>)
    ensures |packets| == k
  {
    if k == 0 then [] else Copies(k - 1, packet) + [packet]
  }

  /** Results missed since the accumulators were last cleared, when word 2 leaves. */
  function Untaken(k: nat, s: System, xs: seq<Cycle>): nat
    requires s.Ok()
    decreases |xs|
  {
    if xs == [] || (s.g.outCtr == CTR_CHECKSUM_IDX && Emits(s.g, Drive(s, xs[0]))) then k
    else Untaken(Missing(k, s), Step(s, xs[0]), xs[1..])
  }

  function Missing(k: nat, s: System): nat {
    if !s.g.sum.stage.Presented? then k else if s.g.outCtr == CTR_CHECKSUM_IDX then 0 else k + 1
  }

  ghost predicate First(s: System, t: Trace, r: Request, k: nat)
    requires s.Ok()
  {
    && s.queue != [] && s.queue[0] == r && s.g.outCtr <= CTR_CHECKSUM_IDX
    && t.h.missed == Copies(k, AllFed(r))
    && (if s.g.sum.stage.Idle? then t.h.open == FedUpTo(r, r, s.g.sumCtr)
        else s.g.sumCtr == 0 && t.h.open == AllFed(r))
  }

  lemma FirstStep(s: System, t: Trace, r: Request, k: nat, x: Cycle)
    requires s.Ok() && First(s, t, r, k)
    ensures var now, at2 := Emits(s.g, Drive(s, x)), s.g.outCtr == CTR_CHECKSUM_IDX;
      if now && at2 then
        Step(s, x).g.outCtr == 3 && Traced(t, s, x).counted == Counted(Copies(k + 1, AllFed(r)))
      else
        First(Step(s, x), Traced(t, s, x), r, Missing(k, s))
  {
    hide Accumulate, Fold, Bits17, FedHalf, AllFed, FedUpTo, Counted;
    AllIsUpToFive(r);
    FedGrows(r, r, s.g.sumCtr);
    NoneFed(r, r);
  }

  lemma NoneFed(a: Request, r: Request)
    requires a.Ok() && r.Ok()
    ensures FedUpTo(a, r, 0) == []
  {
  }

  lemma {:induction false} KeepsCounted(s: System, t: Trace, xs: seq<Cycle>)
    requires s.Ok() && s.g.outCtr > CTR_CHECKSUM_IDX && Sent(s, t, xs) != []
    ensures Sent(s, t, xs)[0] == Sending(s.queue[0], t.counted)
    decreases |xs|
  {
    hide Next4, Logged, SumInput;
    if xs != [] && !Accepts(s.g, Drive(s, xs[0])) {
      KeepsCounted(Step(s, xs[0]), Traced(t, s, xs[0]), xs[1..]);
    }
  }

  lemma {:induction false} FirstSent(s: System, t: Trace, r: Request, k: nat, xs: seq<Cycle>)
    requires s.Ok() && First(s, t, r, k) && Sent(s, t, xs) != []
    ensures Sent(s, t, xs)[0] == Sending(r, Counted(Copies(Untaken(k, s, xs) + 1, AllFed(r))))
    decreases |xs|
  {
    hide Next, Traced, Counted, AllFed, Copies;
    if xs != [] {
      FirstStep(s, t, r, k, xs[0]);
      var next, after, rest := Step(s, xs[0]), Traced(t, s, xs[0]), xs[1..];
      assert Sent(s, t, xs) == Sent(next, after, rest);
      if s.g.outCtr == CTR_CHECKSUM_IDX && Emits(s.g, Drive(s, xs[0])) {
        KeepsCounted(next, after, rest);
      } else {
        FirstSent(next, after, r, Missing(k, s), rest);
      }
    }
  }

  function SumTo(k: nat): nat { if k == 0 then 0 else SumTo(k - 1) + k }

  lemma Distribute(a: nat, b: nat, c: nat)
    ensures (a + b) * c == a * c + b * c
  {
  }

  lemma {:induction false} AllHighsTotal(k: nat, packet: seq<Half>)
    ensures Total(AllHighs(Copies(k, packet))) == k * Total(Highs(packet))
    decreases k
  {
    hide Highs;
    if k != 0 {
      hide Total;
      AllHighsTotal(k - 1, packet);
      TotalAppend(AllHighs(Copies(k - 1, packet)), Highs(packet));
      Distribute(k - 1, 1, Total(Highs(packet)));
    }
  }

  /** What k missed results of the same packet leave. */
  lemma {:induction false} CopiesLeave(k: nat, packet: seq<Half>)
    ensures Total(Left(Copies(k, packet))) == k * Total(packet) + SumTo(k) * Total(Highs(packet))
    decreases k
  {
    hide Highs, AllHighs;
    AllHighsTotal(k, packet);
    TotalAppend(Counted(Copies(k, packet)), AllHighs(Copies(k, packet)));
    if k != 0 {
      hide Total;
      CopiesLeave(k - 1, packet);
      TotalAppend(Left(Copies(k - 1, packet)), packet);
      Distribute(k - 1, 1, Total(packet));
      Distribute(SumTo(k - 1), k, Total(Highs(packet)));
    }
  }

  /** The first request after reset, whatever the timing: its header is right if and only if what the
      missed results left comes round to nothing. */
  lemma FirstHeaderRightIff(queue: seq<Request>, xs: seq<Cycle>)
    requires queue != [] && forall k :: 0 <= k < |queue| ==> queue[k].Ok()
    ensures Sent(Start(queue), NO_TRACE, xs) != [] ==>
      (HeaderRight(Sent(Start(queue), NO_TRACE, xs)[0])
       <==> Total(Left(Copies(Untaken(0, Start(queue), xs), AllFed(queue[0])))) % 0xFFFF == 0)
  {
    hide Untaken, Sent, AllFed, Total, HeaderRight, Left;
    var r, fed, k := queue[0], AllFed(queue[0]), Untaken(0, Start(queue), xs);
    NoneFed(r, r);
    if Sent(Start(queue), NO_TRACE, xs) != [] {
      FirstSent(Start(queue), NO_TRACE, r, 0, xs);
    }
    HeaderRightIff(r, Counted(Copies(k + 1, fed)));
    assert Copies(k + 1, fed)[..k] == Copies(k, fed);
    TotalAppend(Left(Copies(k, fed)), fed);
  }

  // ---------- When no result is missed ----------

  /** Cycles since the request was offered, up to the one in which its result is presented. */
  function Progress(g: Gen): (p: nat)
    requires g.Ok()
    ensures p <= 7
  {
    match g.sum.stage
    case Idle => g.sumCtr
    case Folding => 5
    case Adding => 6
    case Presented => 7
  }

  function ReadyCycles(xs: seq<Cycle>): nat {
    if xs == [] then 0 else (if xs[0].oTready then 1 else 0) + ReadyCycles(xs[1..])
  }

  /** Once word 2 is awaited with nothing left over, a stalling sink only has the checksum made anew. */
  lemma {:induction false} NoneMissedAtTwo(s: System, xs: seq<Cycle>)
    requires s.Ok() && s.g.outCtr == CTR_CHECKSUM_IDX
    ensures Untaken(0, s, xs) == 0
    decreases |xs|
  {
    hide Next4, SumInput;
    if xs != [] && !Emits(s.g, Drive(s, xs[0])) {
      NoneMissedAtTwo(Step(s, xs[0]), xs[1..]);
    }
  }

  lemma ReadyAfter(xs: seq<Cycle>, n: nat)
    requires 0 < n <= |xs|
    ensures ReadyCycles(xs[..n]) == (if xs[0].oTready then 1 else 0) + ReadyCycles(xs[1..][..n - 1])
  {
    assert xs[..n][1..] == xs[1..][..n - 1];
  }

  predicate OnOffer(s: System, xs: seq<Cycle>)
    requires s.Ok()
  {
    && s.queue != [] && xs != [] && (s.shown || xs[0].offers)
    && s.g.outCtr <= CTR_CHECKSUM_IDX && (s.g.sum.stage.Idle? || s.g.sumCtr == 0)
  }

  /** A cycle in which word 2 does not leave. */
  lemma Progresses(s: System, xs: seq<Cycle>)
    requires s.Ok() && OnOffer(s, xs) && |xs| > 1 && !(s.g.outCtr == CTR_CHECKSUM_IDX && Emits(s.g, Drive(s, xs[0])))
    ensures OnOffer(Step(s, xs[0]), xs[1..])
    ensures Progress(Step(s, xs[0]).g) == if Progress(s.g) == 7 then 0 else Progress(s.g) + 1
    ensures Step(s, xs[0]).g.outCtr
         == s.g.outCtr + if s.g.outCtr < CTR_CHECKSUM_IDX && xs[0].oTready then 1 else 0
  {
    hide Accumulate, Fold, Bits17, FedHalf;
  }

  lemma OnlyAtPresented(s: System, xs: seq<Cycle>)
    requires s.Ok() && OnOffer(s, xs)
    ensures s.g.outCtr <= CTR_CHECKSUM_IDX && (Progress(s.g) == 7 <==> s.g.sum.stage.Presented?)
    ensures s.g.outCtr == CTR_CHECKSUM_IDX && xs[0].oTready ==>
      (Emits(s.g, Drive(s, xs[0])) <==> s.g.sum.stage.Presented?)
  {
  }

  /** Two words leave before the result is presented, and the sink is ready for it or nothing was missed
      before: no more results are missed. */
  lemma {:induction false} NoMoreMissed(k: nat, s: System, xs: seq<Cycle>)
    requires s.Ok() && OnOffer(s, xs)
    requires var left := 7 - Progress(s.g);
      left < |xs| && s.g.outCtr + ReadyCycles(xs[..left]) >= CTR_CHECKSUM_IDX && (k == 0 || xs[left].oTready)
    ensures Untaken(k, s, xs) == k
    decreases |xs|
  {
    hide Step, OnOffer;
    var left := 7 - Progress(s.g);
    if s.g.outCtr == CTR_CHECKSUM_IDX && k == 0 {
      NoneMissedAtTwo(s, xs);
    } else if left == 0 {
      assert ReadyCycles(xs[..0]) == 0;
      OnlyAtPresented(s, xs);
    } else {
      ReadyAfter(xs, left);
      OnlyAtPresented(s, xs);
      Progresses(s, xs);
      NoMoreMissed(k, Step(s, xs[0]), xs[1..]);
    }
  }

  /** Fewer than two words leave before the result is presented: it is missed. */
  lemma {:induction false} OneMissed(k: nat, s: System, xs: seq<Cycle>)
    requires s.Ok() && OnOffer(s, xs)
    requires var left := 7 - Progress(s.g);
      && left + 8 < |xs| && s.g.outCtr + ReadyCycles(xs[..left]) < CTR_CHECKSUM_IDX
      && s.g.outCtr + ReadyCycles(xs[..left + 8]) >= CTR_CHECKSUM_IDX && xs[left + 8].oTready
    ensures Untaken(k, s, xs) == k + 1
    decreases |xs|
  {
    hide Step, OnOffer;
    var left := 7 - Progress(s.g);
    Progresses(s, xs);
    ReadyAfter(xs, left + 8);
    if left == 0 {
      NoMoreMissed(k + 1, Step(s, xs[0]), xs[1..]);
    } else {
      ReadyAfter(xs, left);
      OneMissed(k, Step(s, xs[0]), xs[1..]);
    }
  }

  // ---------- When a header leaves ----------

  /** Words 2, 3 and 4 leave in three cycles in which the sink is ready, if the result is there. */
  lemma LastWordsLeave(s: System, t: Trace, xs: seq<Cycle>)
    requires s.Ok() && s.g.outCtr == CTR_CHECKSUM_IDX && s.g.sum.stage.Presented?
    requires |xs| >= 3 && xs[0].oTready && xs[1].oTready && xs[2].oTready
    ensures Sent(s, t, xs) != []
  {
    hide Next4, Logged, SumInput;
    var s1, t1 := Step(s, xs[0]), Traced(t, s, xs[0]);
    var s2, t2 := Step(s1, xs[1]), Traced(t1, s1, xs[1]);
    assert s1.g.outCtr == 3 && s2.g.outCtr == 4;
    assert xs[1..][0] == xs[1] && xs[1..][1..][0] == xs[2];
    assert SentNow(s2, t2, xs[2]) != [];
    assert Sent(s2, t2, xs[1..][1..]) != [];
  }

  /** Two words leave before the result is presented, and the sink is ready then and for two cycles more:
      the header leaves. */
  lemma {:induction false} HeaderLeaves(s: System, t: Trace, xs: seq<Cycle>)
    requires s.Ok() && OnOffer(s, xs)
    requires var left := 7 - Progress(s.g);
      && left + 2 < |xs| && s.g.outCtr + ReadyCycles(xs[..left]) >= CTR_CHECKSUM_IDX
      && xs[left].oTready && xs[left + 1].oTready && xs[left + 2].oTready
    ensures Sent(s, t, xs) != []
    decreases |xs|
  {
    hide Step, OnOffer, Traced, SentNow;
    var left := 7 - Progress(s.g);
    OnlyAtPresented(s, xs);
    if left == 0 {
      assert ReadyCycles(xs[..0]) == 0;
      LastWordsLeave(s, t, xs);
    } else {
      ReadyAfter(xs, left);
      Progresses(s, xs);
      HeaderLeaves(Step(s, xs[0]), Traced(t, s, xs[0]), xs[1..]);
    }
  }

  lemma {:induction false} HeaderLeavesLate(s: System, t: Trace, xs: seq<Cycle>)
    requires s.Ok() && OnOffer(s, xs)
    requires var left := 7 - Progress(s.g);
      && left + 10 < |xs| && s.g.outCtr + ReadyCycles(xs[..left]) < CTR_CHECKSUM_IDX
      && s.g.outCtr + ReadyCycles(xs[..left + 8]) >= CTR_CHECKSUM_IDX
      && xs[left + 8].oTready && xs[left + 9].oTready && xs[left + 10].oTready
    ensures Sent(s, t, xs) != []
    decreases |xs|
  {
    hide Step, OnOffer, Traced, SentNow;
    var left := 7 - Progress(s.g);
    Progresses(s, xs);
    ReadyAfter(xs, left + 8);
    if left == 0 {
      HeaderLeaves(Step(s, xs[0]), Traced(t, s, xs[0]), xs[1..]);
    } else {
      ReadyAfter(xs, left);
      HeaderLeavesLate(Step(s, xs[0]), Traced(t, s, xs[0]), xs[1..]);
    }
  }

  /** A sink that takes two words within seven cycles of the request being offered gets a right first
      header, however it stalls afterwards; if it is ready for the next three it has it by then. */
  lemma PromptSinkGetsRightHeader(queue: seq<Request>, xs: seq<Cycle>)
    requires queue != [] && forall k :: 0 <= k < |queue| ==> queue[k].Ok()
    requires |xs| > 7 && xs[0].offers && ReadyCycles(xs[..7]) >= 2
    ensures Sent(Start(queue), NO_TRACE, xs) != [] ==> HeaderRight(Sent(Start(queue), NO_TRACE, xs)[0])
    ensures |xs| >= 10 && xs[7].oTready && xs[8].oTready && xs[9].oTready ==> Sent(Start(queue), NO_TRACE, xs) != []
  {
    hide Sent, AllFed, HeaderRight, Untaken, ReadyCycles, Left, Copies, Total;
    NoMoreMissed(0, Start(queue), xs);
    FirstHeaderRightIff(queue, xs);
    NothingLeft(AllFed(queue[0]));
    if |xs| >= 10 && xs[7].oTready && xs[8].oTready && xs[9].oTready {
      HeaderLeaves(Start(queue), NO_TRACE, xs);
    }
  }

  lemma NothingLeft(packet: seq<Half>)
    ensures Total(Left(Copies(0, packet))) == 0
    ensures Total(Left(Copies(1, packet))) == Total(packet) + Total(Highs(packet))
  {
    hide Highs;
    CopiesLeave(0, packet);
    CopiesLeave(1, packet);
    assert SumTo(0) == 0;
  }

  /** One that takes fewer, and then is ready again, gets a right one if and only if the words fed and their
      upper halves once more add up to nothing modulo 65535. */
  lemma LateSinkHeaderRightIff(queue: seq<Request>, xs: seq<Cycle>)
    requires queue != [] && forall k :: 0 <= k < |queue| ==> queue[k].Ok()
    requires |xs| > 15 && xs[0].offers && ReadyCycles(xs[..7]) < 2 <= ReadyCycles(xs[..15]) && xs[15].oTready
    ensures Sent(Start(queue), NO_TRACE, xs) != [] ==>
      (HeaderRight(Sent(Start(queue), NO_TRACE, xs)[0])
       <==> (Total(AllFed(queue[0])) + Total(Highs(AllFed(queue[0])))) % 0xFFFF == 0)
    ensures |xs| >= 18 && xs[16].oTready && xs[17].oTready ==> Sent(Start(queue), NO_TRACE, xs) != []
  {
    hide Sent, AllFed, HeaderRight, Untaken, ReadyCycles, Left, Copies, Total, Highs;
    OneMissed(0, Start(queue), xs);
    FirstHeaderRightIff(queue, xs);
    NothingLeft(AllFed(queue[0]));
    if |xs| >= 18 && xs[16].oTready && xs[17].oTready {
      HeaderLeavesLate(Start(queue), NO_TRACE, xs);
    }
  }

  function Repeat(x: Cycle, n: nat): (xs: seq<Cycle>)
    ensures |xs| == n && forall k :: 0 <= k < n ==> xs[k] == x
  {
    if n == 0 then [] else [x] + Repeat(x, n - 1)
  }

  lemma {:induction false} ReadyOfRepeat(x: Cycle, n: nat)
    ensures ReadyCycles(Repeat(x, n)) == if x.oTready then n else 0
    decreases n
  {
    if n != 0 {
      ReadyOfRepeat(x, n - 1);
    }
  }

  /** What an empty payload between zero addresses has the checksum count: 0x4500, 20, 0x4000 and 0xFF00,
      20 and 0x4000 of them in upper halves. */
  lemma NoRequestTotals()
    ensures NO_REQUEST.Ok()
    ensures Total(AllFed(NO_REQUEST)) == 99348 && Total(Highs(AllFed(NO_REQUEST))) == 16404
  {
    hide Total, Highs;
    var r := NO_REQUEST;
    EqualWords(FedHalves(FedWords(r)[0]), 0, 0);
    EqualWords(FedHalves(FedWords(r)[1]), 0, 0);
    EqualWords(FedHalves(FedWords(r)[2]), 0x4500, 20);
    EqualWords(FedHalves(FedWords(r)[3]), 0, 0x4000);
    EqualWords(FedHalves(FedWords(r)[4]), 0xFF00, 0);
    TenTotals(0, 0, 0, 0, 0x4500, 20, 0, 0x4000, 0xFF00, 0);
  }

  lemma EqualWords(ws: seq<Half>, low: Half, high: Half)
    requires |ws| == 2 && ws[0] == low && ws[1] == high
    ensures ws == [low, high]
  {
  }

  lemma TenTotals(a: Half, b: Half, c: Half, d: Half, e: Half, f: Half, g: Half, h: Half, i: Half, j: Half)
    ensures var ws := [a, b] + [c, d] + [e, f] + [g, h] + [i, j];
      Total(ws) == a + b + c + d + e + f + g + h + i + j && Total(Highs(ws)) == b + d + f + h + j
  {
    hide Total, Highs;
    PairTotals([], a, b);
    PairTotals([a, b], c, d);
    PairTotals([a, b] + [c, d], e, f);
    PairTotals([a, b] + [c, d] + [e, f], g, h);
    PairTotals([a, b] + [c, d] + [e, f] + [g, h], i, j);
    assert [] + [a, b] == [a, b];
    NoTotals();
  }

  lemma NoTotals()
    ensures Total([]) == 0 == Total(Highs([]))
  {
  }

  lemma PairTotals(ws: seq<Half>, low: Half, high: Half)
    ensures Total(ws + [low, high]) == Total(ws) + low + high
    ensures Total(Highs(ws + [low, high])) == Total(Highs(ws)) + high
  {
    LanesGrow(ws, low, high);
    TotalSnoc(ws, low);
    TotalSnoc(ws + [low], high);
    TotalSnoc(Highs(ws), high);
    assert ws + [low, high] == ws + [low] + [high];
  }

  /** A failing run: a sink that holds the first two words off for eight cycles and is ready from then on
      has a header after eighteen, and the header is wrong. */
  lemma LateHeaderIsWrong()
    ensures var xs := Repeat(Cycle(true, false), 8) + Repeat(Cycle(true, true), 10);
      var sent := Sent(Start([NO_REQUEST]), NO_TRACE, xs);
      sent != [] && !HeaderRight(sent[0])
  {
    hide Sent, HeaderRight, AllFed, Highs, Total;
    var off, on := Cycle(true, false), Cycle(true, true);
    var xs := Repeat(off, 8) + Repeat(on, 10);
    assert xs[..7] == Repeat(off, 7);
    ReadyOfRepeat(off, 7);
    EightAndSeven(off, on);
    NoRequestTotals();
    LateSinkHeaderRightIff([NO_REQUEST], xs);
  }

  lemma EightAndSeven(off: Cycle, on: Cycle)
    requires !off.oTready && on.oTready
    ensures ReadyCycles((Repeat(off, 8) + Repeat(on, 10))[..15]) == 7
  {
    assert (Repeat(off, 8) + Repeat(on, 10))[..15] == Repeat(off, 8) + Repeat(on, 7);
    ReadyAppend(Repeat(off, 8), Repeat(on, 7));
    ReadyOfRepeat(off, 8);
    ReadyOfRepeat(on, 7);
  }

  lemma {:induction false} ReadyAppend(a: seq<Cycle>, b: seq<Cycle>)
    ensures ReadyCycles(a + b) == ReadyCycles(a) + ReadyCycles(b)
    decreases |a|
  {
    if a == [] {
      assert a + b == b;
    } else {
      assert (a + b)[1..] == a[1..] + b;
      ReadyAppend(a[1..], b);
    }
  }

  // ---------- A sink that waits for valid ----------

  /** Ready is valid of the cycle before. */
  predicate OneBehind(s: System, wasValid: bool, xs: seq<Cycle>)
    requires s.Ok()
    decreases |xs|
  {
    xs == [] || (xs[0].oTready == wasValid && OneBehind(Step(s, xs[0]), OutValid(s.g, Drive(s, xs[0])), xs[1..]))
  }

  /** Words 0 and 1 leave before a checksum is there, and then ready is never high in the one cycle in which
      it is. */
  ghost predicate Starving(s: System, wasValid: bool)
    requires s.Ok()
  {
    && s.g.outCtr <= 2
    && (s.g.outCtr < 2 ==> s.g.sum.stage.Idle? && s.shown == wasValid
                           && s.g.sumCtr == s.g.outCtr + if wasValid then 1 else 0)
    && (s.g.outCtr == 1 ==> wasValid)
    && (s.g.outCtr == 2 ==> !(wasValid && s.g.sum.stage.Presented?))
  }

  lemma StarvesOn(s: System, wasValid: bool, x: Cycle)
    requires s.Ok() && Starving(s, wasValid) && x.oTready == wasValid
    ensures Starving(Step(s, x), OutValid(s.g, Drive(s, x))) && !Accepts(s.g, Drive(s, x))
  {
    hide Accumulate, Fold, Bits17, FedHalf;
  }

  /** Such a sink never gets a header, whatever is offered and when. */
  lemma {:induction false} OneBehindStarves(s: System, t: Trace, wasValid: bool, xs: seq<Cycle>)
    requires s.Ok() && Starving(s, wasValid) && OneBehind(s, wasValid, xs)
    ensures Sent(s, t, xs) == []
    decreases |xs|
  {
    hide Step, Starving, Traced, Drive, OutValid, Accepts;
    if xs != [] {
      StarvesOn(s, wasValid, xs[0]);
      OneBehindStarves(Step(s, xs[0]), Traced(t, s, xs[0]), OutValid(s.g, Drive(s, xs[0])), xs[1..]);
    }
  }

  lemma OneBehindGetsNone(queue: seq<Request>, xs: seq<Cycle>)
    requires forall k :: 0 <= k < |queue| ==> queue[k].Ok()
    requires OneBehind(Start(queue), false, xs)
    ensures Sent(Start(queue), NO_TRACE, xs) == []
  {
    hide Sent, OneBehind;
    OneBehindStarves(Start(queue), NO_TRACE, false, xs);
  }

  // ---------- A sink that never stalls ----------

  predicate AlwaysReady(xs: seq<Cycle>) {
    forall k :: 0 <= k < |xs| ==> xs[k].oTready
  }

  function Head(s: System): (r: Request)
    requires s.Ok()
    ensures r.Ok()
  {
    if s.queue == [] then NO_REQUEST else s.queue[0]
  }

  /** The addresses counted for the header under way are those of `a`: while words 3 and 4 of a header
      leave, its request's addresses are already fed again. */
  ghost predicate Locked(s: System, t: Trace, a: Request)
    requires s.Ok() && a.Ok()
  {
    var g, open := s.g, t.h.open;
    && t.h.missed == []
    && (g.outCtr < 2 ==> g.sum.stage.Idle? && g.sumCtr <= 2 + g.outCtr)
    && (g.outCtr <= 2 ==>
      if g.sum.stage.Idle? then
        (g.sumCtr >= 2 || s.queue == [] || a == s.queue[0]) && open == FedUpTo(a, Head(s), g.sumCtr)
      else g.sumCtr == 0 && open == FedUpTo(a, Head(s), 5))
    && (g.outCtr > 2 ==>
      && g.sum.stage.Idle? && g.sumCtr == g.outCtr - 3 && open == FedUpTo(Head(s), Head(s), g.sumCtr)
      && t.counted == FedUpTo(a, Head(s), 5))
  }

  lemma LockedStep(s: System, t: Trace, a: Request, x: Cycle)
    requires s.Ok() && a.Ok() && Locked(s, t, a) && x.oTready
    ensures Locked(Step(s, x), Traced(t, s, x), if Accepts(s.g, Drive(s, x)) then Head(s) else a)
    ensures Accepts(s.g, Drive(s, x)) ==> t.counted == FedUpTo(a, s.queue[0], 5)
  {
    hide Accumulate, Fold, Bits17, FedHalf, FedUpTo, Counted;
    if Drive(s, x).iTvalid && s.g.sum.stage.Idle? {
      FedGrows(if s.g.outCtr > 2 then Head(s) else a, Head(s), s.g.sumCtr);
    }
    NoneFed(a, Head(s));
    NoneFed(Head(s), Head(s));
    SameAddresses(Head(s), Head(s), Head(Step(s, x)));
    CountedOne(t.h.open);
  }

  lemma SameAddresses(a: Request, r: Request, q: Request)
    requires a.Ok() && r.Ok() && q.Ok()
    ensures FedUpTo(a, r, 2) == FedUpTo(a, q, 2)
  {
    assert FedUpTo(a, r, 1) == FedUpTo(a, q, 1);
  }

  /** Whose addresses the header of request k counts. */
  function Before(a: Request, queue: seq<Request>, k: nat): Request
    requires k <= |queue|
  {
    if k == 0 then a else queue[k - 1]
  }

  lemma OneMoreSent(a: Request, queue: seq<Request>, counted: seq<Half>, later: seq<Sending>)
    requires a.Ok() && (forall k :: 0 <= k < |queue| ==> queue[k].Ok()) && 0 < |later| + 1 <= |queue|
    requires counted == FedUpTo(a, queue[0], 5)
    requires forall k :: 0 <= k < |later| ==>
      later[k] == Sending(queue[1..][k], FedUpTo(Before(queue[0], queue[1..], k), queue[1..][k], 5))
    ensures var sent := [Sending(queue[0], counted)] + later;
      forall k :: 0 <= k < |sent| ==> sent[k] == Sending(queue[k], FedUpTo(Before(a, queue, k), queue[k], 5))
  {
    hide FedUpTo;
    var sent := [Sending(queue[0], counted)] + later;
    forall k | 0 < k < |sent|
      ensures sent[k] == Sending(queue[k], FedUpTo(Before(a, queue, k), queue[k], 5))
    {
      assert sent[k] == later[k - 1] && queue[1..][k - 1] == queue[k];
    }
  }

  lemma {:induction false} LockedRun(s: System, t: Trace, a: Request, xs: seq<Cycle>)
    requires s.Ok() && a.Ok() && Locked(s, t, a) && AlwaysReady(xs)
    ensures |Sent(s, t, xs)| <= |s.queue|
    ensures forall k :: 0 <= k < |Sent(s, t, xs)| ==>
      Sent(s, t, xs)[k] == Sending(s.queue[k], FedUpTo(Before(a, s.queue, k), s.queue[k], 5))
    decreases |xs|
  {
    hide Next, Traced, Drive, Locked, FedUpTo;
    if xs != [] {
      var x, next, after, rest := xs[0], Step(s, xs[0]), Traced(t, s, xs[0]), xs[1..];
      LockedStep(s, t, a, x);
      var now := Accepts(s.g, Drive(s, x));
      LockedRun(next, after, if now then Head(s) else a, rest);
      if now {
        OneMoreSent(a, s.queue, t.counted, Sent(next, after, rest));
      } else {
        assert Sent(s, t, xs) == Sent(next, after, rest);
      }
    }
  }

  predicate AlwaysOffering(xs: seq<Cycle>) {
    forall k :: 0 <= k < |xs| ==> xs[k].offers
  }

  /** Cycles until the header under way has left. */
  function Due(g: Gen): nat
    requires g.Ok()
  {
    if g.outCtr > CTR_CHECKSUM_IDX then 5 - g.outCtr else 10 - Progress(g)
  }

  lemma LockedMoves(s: System, t: Trace, a: Request, x: Cycle)
    requires s.Ok() && a.Ok() && Locked(s, t, a) && s.queue != [] && x.offers && x.oTready
    ensures var next := Step(s, x);
      if Accepts(s.g, Drive(s, x)) then Due(s.g) == 1 && next.queue == s.queue[1..] && Due(next.g) <= 10
      else Due(next.g) == Due(s.g) - 1 && next.queue == s.queue
  {
    hide Accumulate, Fold, Bits17, FedHalf, FedUpTo;
  }

  /** Ten cycles for each request, and all headers have left. */
  lemma {:induction false} LockedProgress(s: System, t: Trace, a: Request, xs: seq<Cycle>)
    requires s.Ok() && a.Ok() && Locked(s, t, a) && AlwaysReady(xs) && AlwaysOffering(xs)
    requires s.queue == [] || |xs| >= Due(s.g) + 10 * (|s.queue| - 1)
    ensures |Sent(s, t, xs)| == |s.queue|
    decreases |xs|
  {
    hide Next, Traced, Drive, Locked, FedUpTo, Due;
    if s.queue == [] {
      LockedRun(s, t, a, xs);
    } else {
      DuePositive(s.g);
      var x, next, after, rest := xs[0], Step(s, xs[0]), Traced(t, s, xs[0]), xs[1..];
      LockedStep(s, t, a, x);
      LockedMoves(s, t, a, x);
      LockedProgress(next, after, if Accepts(s.g, Drive(s, x)) then Head(s) else a, rest);
    }
  }

  lemma DuePositive(g: Gen)
    requires g.Ok()
    ensures 1 <= Due(g) <= 10
  {
  }

  function AddressTotal(r: Request): nat
    requires r.Ok()
  {
    Total(Network(Swap(r.src))) + Total(Network(Swap(r.dst)))
  }

  lemma MixedTotal(a: Request, r: Request)
    requires a.Ok() && r.Ok()
    ensures Total(FedUpTo(a, r, 5)) + AddressTotal(r) == Total(AllFed(r)) + AddressTotal(a)
  {
    hide FedHalves, Total, Network, Swap;
    var p, q := FedUpTo(a, r, 2), FedUpTo(r, r, 2);
    var w := FedWords(r);
    AddressesFed(a, r);
    AddressesFed(r, r);
    AllIsUpToFive(r);
    forall z | z == a || z == r
      ensures Total(FedUpTo(z, r, 5))
           == Total(FedUpTo(z, r, 2)) + Total(FedHalves(w[2])) + Total(FedHalves(w[3])) + Total(FedHalves(w[4]))
    {
      TotalAppend(FedUpTo(z, r, 2), FedHalves(w[2]));
      TotalAppend(FedUpTo(z, r, 3), FedHalves(w[3]));
      TotalAppend(FedUpTo(z, r, 4), FedHalves(w[4]));
    }
  }

  lemma AddressesFed(a: Request, r: Request)
    requires a.Ok() && r.Ok()
    ensures Total(FedUpTo(a, r, 2)) == AddressTotal(a)
  {
    hide Total, Network, FedHalves, Swap;
    var w := FedWords(a);
    FedIsNetwork(Swap(a.src));
    FedIsNetwork(Swap(a.dst));
    assert FedUpTo(a, r, 1) == [] + FedHalves(w[0]) == FedHalves(w[0]);
    TotalAppend(FedHalves(w[0]), FedHalves(w[1]));
  }

  lemma SameResidue(counted: nat, due: nat, from: nat, own: nat)
    requires counted + own == due + from
    ensures counted % 0xFFFF == due % 0xFFFF <==> from % 0xFFFF == own % 0xFFFF
  {
    assert counted - due == from - own;
  }

  /** The addresses of the request before it add up to its own modulo 65535, if there is one. */
  predicate FollowsItsLike(queue: seq<Request>, k: nat)
    requires k < |queue| && forall j :: 0 <= j < |queue| ==> queue[j].Ok()
  {
    k == 0 || AddressTotal(queue[k - 1]) % 0xFFFF == AddressTotal(queue[k]) % 0xFFFF
  }

  lemma SteadyHeader(queue: seq<Request>, xs: seq<Cycle>, k: nat)
    requires forall j :: 0 <= j < |queue| ==> queue[j].Ok()
    requires AlwaysReady(xs) && k < |Sent(Start(queue), NO_TRACE, xs)|
    ensures k < |queue|
    ensures HeaderRight(Sent(Start(queue), NO_TRACE, xs)[k])
       <==> FollowsItsLike(queue, k)
  {
    hide Sent, AllFed, HeaderRight, AddressTotal, FedUpTo, Total;
    var s, a := Start(queue), Head(Start(queue));
    NoneFed(a, a);
    LockedRun(s, NO_TRACE, a, xs);
    var from, r := Before(a, queue, k), queue[k];
    MixedTotal(from, r);
    HeaderRightIff(r, FedUpTo(from, r, 5));
    SameResidue(Total(FedUpTo(from, r, 5)), Total(AllFed(r)), AddressTotal(from), AddressTotal(r));
  }

  lemma SteadyCount(queue: seq<Request>, xs: seq<Cycle>)
    requires forall j :: 0 <= j < |queue| ==> queue[j].Ok()
    requires AlwaysReady(xs)
    ensures |Sent(Start(queue), NO_TRACE, xs)| <= |queue|
    ensures AlwaysOffering(xs) && |xs| >= 10 * |queue| ==> |Sent(Start(queue), NO_TRACE, xs)| == |queue|
  {
    hide Sent, FedUpTo;
    var s, a := Start(queue), Head(Start(queue));
    NoneFed(a, a);
    LockedRun(s, NO_TRACE, a, xs);
    if AlwaysOffering(xs) && |xs| >= 10 * |queue| {
      LockedProgress(s, NO_TRACE, a, xs);
    }
  }

  /** A sink that is always ready, any number of requests, offered at any time: every header counts the
      addresses of the request before it, so it is right if and only if those add up to its own modulo
      65535; the first one always is. If they are offered at once, ten cycles for each are enough. */
  lemma HeadersAfterTheFirstRightIff(queue: seq<Request>, xs: seq<Cycle>)
    requires forall k :: 0 <= k < |queue| ==> queue[k].Ok()
    requires AlwaysReady(xs)
    ensures |Sent(Start(queue), NO_TRACE, xs)| <= |queue|
    ensures forall k :: 0 <= k < |Sent(Start(queue), NO_TRACE, xs)| ==>
      (HeaderRight(Sent(Start(queue), NO_TRACE, xs)[k])
       <==> FollowsItsLike(queue, k))
    ensures AlwaysOffering(xs) && |xs| >= 10 * |queue| ==> |Sent(Start(queue), NO_TRACE, xs)| == |queue|
  {
    hide Sent, HeaderRight, FollowsItsLike;
    SteadyCount(queue, xs);
    forall k | 0 <= k < |Sent(Start(queue), NO_TRACE, xs)|
      ensures HeaderRight(Sent(Start(queue), NO_TRACE, xs)[k])
         <==> FollowsItsLike(queue, k)
    {
      SteadyHeader(queue, xs, k);
    }
  }

  /** A failing run: two requests whose addresses add up differently, twenty cycles, no stall. */
  lemma SecondHeaderIsWrong(r: Request, q: Request)
    requires r.Ok() && q.Ok() && AddressTotal(r) % 0xFFFF != AddressTotal(q) % 0xFFFF
    ensures var sent := Sent(Start([r, q]), NO_TRACE, Repeat(Cycle(true, true), 20));
      |sent| == 2 && HeaderRight(sent[0]) && !HeaderRight(sent[1])
  {
    hide Sent, HeaderRight, AddressTotal;
    var queue, xs := [r, q], Repeat(Cycle(true, true), 20);
    HeadersAfterTheFirstRightIff(queue, xs);
    SteadyHeader(queue, xs, 0);
    SteadyHeader(queue, xs, 1);
  }

  /** Such as 0.0.0.1 and 0.0.0.0 as sources. */
  lemma AddressesDiffer()
    ensures var r := NO_REQUEST.(src := [1, 0, 0, 0]);
      r.Ok() && AddressTotal(r) == 1 && AddressTotal(NO_REQUEST) == 0
  {
    hide Total;
    var r := NO_REQUEST.(src := [1, 0, 0, 0]);
    NetworkWord(Swap(r.src));
    NetworkWord(Swap(NO_REQUEST.src));
    EqualWords(Network(Swap(r.src)), 0, 1);
    EqualWords(Network(Swap(NO_REQUEST.src)), 0, 0);
    PairTotals([], 0, 1);
    PairTotals([], 0, 0);
    NoTotals();
    assert [] + [0, 1] == [0, 1] && [] + [0, 0] == [0, 0];
  }

  // ---------- The hardware ----------

  lemma FedLanes(r: Request, k: nat, last: bool)
    requires r.Ok() && k <= CTR_MAX
    ensures var fed := Word(FedWords(r)[k], ALL_KEPT, last);
      Lanes16(fed, 0) == FedHalf(r, k, false) && Lanes16(fed, 2) == FedHalf(r, k, true)
  {
    hide FedWords;
  }

  class HeaderGen {
    var checksumCtr: nat
    var outputCtr: nat
    const checksummer: Checksum4

    ghost predicate Valid()
      reads this, checksummer
    {
      checksumCtr <= CTR_MAX && outputCtr <= CTR_MAX && checksummer.Valid()
    }

    ghost function View(): Gen
      reads this, checksummer
    {
      Gen(checksumCtr, outputCtr, checksummer.View())
    }

    constructor ()
      ensures Valid() && View() == Gen(0, 0, RESET4) && fresh(checksummer)
    {
      checksumCtr, outputCtr := 0, 0;
      checksummer := new Checksum4();
    }

    method Clock(iTvalid: bool, request: Request, oTready: bool) returns (iTready: bool, oTvalid: bool, o: Word)
      requires Valid() && request.Ok()
      modifies this, checksummer
      ensures Valid()
      ensures var g, i := old(View()), Lines(iTvalid, request, oTready);
        && View() == Next(g, i)
        && oTvalid == OutValid(g, i) && o == HeaderWord(request, Csum(g.sum.acc), g.outCtr)
        && (iTready && iTvalid <==> Accepts(g, i))
    {
      hide Next4, Csum, FedWords, FedHalf, Lanes16, OutLanes;
      FedLanes(request, checksumCtr, checksumCtr == CTR_MAX);
      var sumLast, out := checksumCtr == CTR_MAX, outputCtr;
      var fed := Word(FedWords(request)[checksumCtr], ALL_KEPT, sumLast);
      var sumTready, sumTvalid, csum := checksummer.Clock(iTvalid, fed, out == CTR_CHECKSUM_IDX);
      oTvalid := if out == CTR_CHECKSUM_IDX then sumTvalid else iTvalid;
      o := HeaderWord(request, csum, out);
      iTready := oTready && o.last;
      if sumTready && iTvalid && sumLast {
        checksumCtr := 0;
      } else if sumTready && iTvalid {
        checksumCtr := checksumCtr + 1;
      }
      if oTready && oTvalid && o.last {
        outputCtr := 0;
      } else if oTready && oTvalid {
        outputCtr := out + 1;
      }
    }
  }
}
