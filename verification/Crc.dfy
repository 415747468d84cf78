/** The CRC of synth/network/gmii_tx_mac.sv. Vectors of bits are sequences indexed by bit number. */
module Crc {

  /** Bit i of a vector, zero below it. */
  predicate Bit(c: seq<bool>, i: int)
    requires i < |c|
  {
    i >= 0 && c[i]
  }

  /** The top byte of the register with the data byte. */
  function Top(crc: seq<bool>, data: seq<bool>): (x: seq<bool>)
    requires |crc| == 32 && |data| == 8
    ensures |x| == 8
  {
    seq(8, j requires 0 <= j < 8 => crc[24 + j] != data[j])
  }

  /** Every one of the 32 exclusive-or equations takes crc[24+j] together with data[j], here x[j];
      what is left of equation i is crc[i-8], from bit 8 on. */
  predicate Equation(i: nat, x: seq<bool>)
    requires i < 32 && |x| == 8
  {
    match i
    case 0 => x[0] != x[6]
    case 1 => ((x[0] != x[1]) != x[6]) != x[7]
    case 2 => (((x[0] != x[1]) != x[2]) != x[6]) != x[7]
    case 3 => ((x[1] != x[2]) != x[3]) != x[7]
    case 4 => (((x[0] != x[2]) != x[3]) != x[4]) != x[6]
    case 5 => (((((x[0] != x[1]) != x[3]) != x[4]) != x[5]) != x[6]) != x[7]
    case 6 => ((((x[1] != x[2]) != x[4]) != x[5]) != x[6]) != x[7]
    case 7 => (((x[0] != x[2]) != x[3]) != x[5]) != x[7]
    case 8 => ((x[0] != x[1]) != x[3]) != x[4]
    case 9 => ((x[1] != x[2]) != x[4]) != x[5]
    case 10 => ((x[0] != x[2]) != x[3]) != x[5]
    case 11 => ((x[0] != x[1]) != x[3]) != x[4]
    case 12 => ((((x[0] != x[1]) != x[2]) != x[4]) != x[5]) != x[6]
    case 13 => ((((x[1] != x[2]) != x[3]) != x[5]) != x[6]) != x[7]
    case 14 => (((x[2] != x[3]) != x[4]) != x[6]) != x[7]
    case 15 => ((x[3] != x[4]) != x[5]) != x[7]
    case 16 => (x[0] != x[4]) != x[5]
    case 17 => (x[1] != x[5]) != x[6]
    case 18 => (x[2] != x[6]) != x[7]
    case 19 => x[3] != x[7]
    case 20 => x[4]
    case 21 => x[5]
    case 22 => x[0]
    case 23 => (x[0] != x[1]) != x[6]
    case 24 => (x[1] != x[2]) != x[7]
    case 25 => x[2] != x[3]
    case 26 => ((x[0] != x[3]) != x[4]) != x[6]
    case 27 => ((x[1] != x[4]) != x[5]) != x[7]
    case 28 => (x[2] != x[5]) != x[6]
    case 29 => (x[3] != x[6]) != x[7]
    case 30 => x[4] != x[7]
    case _ => x[5]
  }

  /** crc[31:0] after one byte, data[7] being the first bit on the wire. */
  function Crc32(crc: seq<bool>, data: seq<bool>): (r: seq<bool>)
    requires |crc| == 32 && |data| == 8
    ensures |r| == 32
  {
    seq(32, i requires 0 <= i < 32 =>
      Bit(crc, i - 8) != Equation(i, Top(crc, data)))
  }

  // ---------- The bit-serial register ----------

  /** G(x) = x^32 + x^26 + x^23 + x^22 + x^16 + x^12 + x^11 + x^10 + x^8 + x^7 + x^5 + x^4 + x^2 + x + 1
      (clause 3.2.9 of IEEE 802.3-2018), bits 0 to 31. */
  const G: seq<bool> := Polynomial()

  predicate InG(i: int) {
    i == 26 || i == 23 || i == 22 || i == 16 || i == 12 || i == 11 || i == 10 || i == 8 || i == 7 || i == 5
    || i == 4 || i == 2 || i == 1 || i == 0
  }

  function Polynomial(): (g: seq<bool>)
    ensures |g| == 32
  {
    seq(32, i requires 0 <= i < 32 => InG(i))
  }

  /** One bit into the shift register of the polynomial with coefficients g (leading term left out). */
  function Shift(g: seq<bool>, crc: seq<bool>, bit: bool): (r: seq<bool>)
    requires |crc| == |g| == 32
    ensures |r| == 32
  {
    var feedback := crc[31] != bit;
    seq(32, i requires 0 <= i < 32 => (i > 0 && crc[i - 1]) != (feedback && g[i]))
  }

  /** Bits into the shift register, first one first. */
  function ShiftAll(g: seq<bool>, crc: seq<bool>, bits: seq<bool>): (r: seq<bool>)
    requires |crc| == |g| == 32
    ensures |r| == 32
    decreases |bits|
  {
    if bits == [] then crc else ShiftAll(g, Shift(g, crc, bits[0]), bits[1..])
  }

  lemma {:induction false} ShiftAllSplits(g: seq<bool>, crc: seq<bool>, a: seq<bool>, b: seq<bool>)
    requires |crc| == |g| == 32
    ensures ShiftAll(g, crc, a + b) == ShiftAll(g, ShiftAll(g, crc, a), b)
    decreases |a|
  {
    if a == [] {
      assert a + b == b;
    } else {
      assert (a + b)[1..] == a[1..] + b;
      ShiftAllSplits(g, Shift(g, crc, a[0]), a[1..], b);
    }
  }

  lemma ShiftBit(g: seq<bool>, c: seq<bool>, b: bool, i: int)
    requires |c| == |g| == 32 && i < 32
    ensures Bit(ShiftAll(g, c, [b]), i) == (Bit(c, i - 1) != ((c[31] != b) && Bit(g, i)))
  {
    assert ShiftAll(g, c, [b]) == Shift(g, c, b) by {
      assert [b][1..] == [];
    }
  }

  lemma Shift2(g: seq<bool>, c: seq<bool>, b0: bool, b1: bool, i: int)
    requires |c| == |g| == 32 && i < 32
    ensures var f0 := c[31] != b0;
      var f1 := (c[30] != b1) != (f0 && g[31]);
      Bit(ShiftAll(g, c, [b0, b1]), i) == (Bit(c, i - 2) != ((f0 && Bit(g, i - 1)) != (f1 && Bit(g, i))))
  {
    var s := ShiftAll(g, c, [b0]);
    assert [b0, b1] == [b0] + [b1];
    ShiftAllSplits(g, c, [b0], [b1]);
    ShiftBit(g, s, b1, i);
    ShiftBit(g, c, b0, i - 1);
    ShiftBit(g, c, b0, 31);
  }

  /** What four feedback bits add in place i. */
  predicate Taps(g: seq<bool>, f0: bool, f1: bool, f2: bool, f3: bool, i: int)
    requires |g| == 32 && i < 32
  {
    ((f0 && Bit(g, i - 3)) != (f1 && Bit(g, i - 2))) != ((f2 && Bit(g, i - 1)) != (f3 && Bit(g, i)))
  }

  lemma Shift4(g: seq<bool>, c: seq<bool>, b0: bool, b1: bool, b2: bool, b3: bool, i: int)
    requires |c| == |g| == 32 && i < 32 && !g[31] && !g[30] && !g[29]
    ensures Bit(ShiftAll(g, c, [b0, b1, b2, b3]), i)
         == (Bit(c, i - 4) != Taps(g, c[31] != b0, c[30] != b1, c[29] != b2, c[28] != b3, i))
  {
    hide ShiftAll;
    var s := ShiftAll(g, c, [b0, b1]);
    assert [b0, b1, b2, b3] == [b0, b1] + [b2, b3];
    ShiftAllSplits(g, c, [b0, b1], [b2, b3]);
    Shift2(g, s, b2, b3, i);
    assert s[31] == c[29] by { Shift2(g, c, b0, b1, 31); }
    assert s[30] == c[28] by { Shift2(g, c, b0, b1, 30); }
    Shift2(g, c, b0, b1, i - 2);
  }

  /** The polynomial's high taps: only bit 26 is connected among 25 to 31. */
  predicate HighTaps(g: seq<bool>)
    requires |g| == 32
  {
    !g[31] && !g[30] && !g[29] && !g[28] && !g[27] && g[26] && !g[25]
  }

  lemma Shift4Top(g: seq<bool>, c: seq<bool>, b0: bool, b1: bool, b2: bool, b3: bool)
    requires |c| == |g| == 32 && HighTaps(g)
    ensures var s := ShiftAll(g, c, [b0, b1, b2, b3]);
      s[31] == c[27] && s[30] == c[26] && s[29] == (c[25] != (c[31] != b0)) && s[28] == (c[24] != (c[30] != b1))
  {
    Shift4(g, c, b0, b1, b2, b3, 31);
    Shift4(g, c, b0, b1, b2, b3, 30);
    Shift4(g, c, b0, b1, b2, b3, 29);
    Shift4(g, c, b0, b1, b2, b3, 28);
  }

  /** The bits of a byte in the order the parallel form takes them: data[7] first. */
  function FromTop(d: seq<bool>): seq<bool>
    requires |d| == 8
  {
    [d[7], d[6], d[5], d[4], d[3], d[2], d[1], d[0]]
  }

  /** What eight bits add in place i: the feedback of the first two comes round again. */
  predicate Column(g: seq<bool>, i: int, x: seq<bool>)
    requires |g| == 32 && i < 32 && |x| == 8
  {
    Taps(g, x[7], x[6], x[5], x[4], i - 4) != Taps(g, x[3], x[2], x[1] != x[7], x[0] != x[6], i)
  }

  lemma ByteInTwo(g: seq<bool>, c: seq<bool>, d: seq<bool>)
    requires |c| == |g| == 32 && |d| == 8
    ensures ShiftAll(g, c, FromTop(d))
         == ShiftAll(g, ShiftAll(g, c, [d[7], d[6], d[5], d[4]]), [d[3], d[2], d[1], d[0]])
  {
    var high, low := [d[7], d[6], d[5], d[4]], [d[3], d[2], d[1], d[0]];
    assert FromTop(d) == high + low;
    ShiftAllSplits(g, c, high, low);
  }

  lemma HighHalf(g: seq<bool>, c: seq<bool>, d: seq<bool>, x: seq<bool>, i: int)
    requires |c| == |g| == 32 && |d| == 8 && i < 32 && HighTaps(g) && x == Top(c, d)
    ensures var s := ShiftAll(g, c, [d[7], d[6], d[5], d[4]]);
      && (s[31] != d[3]) == x[3] && (s[30] != d[2]) == x[2]
      && (s[29] != d[1]) == (x[1] != x[7]) && (s[28] != d[0]) == (x[0] != x[6])
      && Bit(s, i) == (Bit(c, i - 4) != Taps(g, x[7], x[6], x[5], x[4], i))
  {
    hide Taps, ShiftAll, Bit;
    Shift4(g, c, d[7], d[6], d[5], d[4], i);
    Shift4Top(g, c, d[7], d[6], d[5], d[4]);
  }

  lemma Shift8(g: seq<bool>, c: seq<bool>, d: seq<bool>, i: int)
    requires |c| == |g| == 32 && |d| == 8 && i < 32 && HighTaps(g)
    ensures Bit(ShiftAll(g, c, FromTop(d)), i) == (Bit(c, i - 8) != Column(g, i, Top(c, d)))
  {
    hide Taps, ShiftAll, Bit, Top;
    var s := ShiftAll(g, c, [d[7], d[6], d[5], d[4]]);
    ByteInTwo(g, c, d);
    HighHalf(g, c, d, Top(c, d), i - 4);
    Shift4(g, s, d[3], d[2], d[1], d[0], i);
  }

  /** The taps of G, spelt out. */
  predicate IsG(g: seq<bool>) {
    && |g| == 32
    && g[0] && g[1] && g[2] && !g[3] && g[4] && g[5] && !g[6] && g[7]
    && g[8] && !g[9] && g[10] && g[11] && g[12] && !g[13] && !g[14] && !g[15]
    && g[16] && !g[17] && !g[18] && !g[19] && !g[20] && !g[21] && g[22] && g[23]
    && !g[24] && !g[25] && g[26] && !g[27] && !g[28] && !g[29] && !g[30] && !g[31]
  }

  lemma TapsOfG()
    ensures IsG(G)
  {
  }

  lemma Columns0To7(g: seq<bool>, x: seq<bool>)
    requires IsG(g) && |x| == 8
    ensures Equation(0, x) == Column(g, 0, x)
    ensures Equation(1, x) == Column(g, 1, x)
    ensures Equation(2, x) == Column(g, 2, x)
    ensures Equation(3, x) == Column(g, 3, x)
    ensures Equation(4, x) == Column(g, 4, x)
    ensures Equation(5, x) == Column(g, 5, x)
    ensures Equation(6, x) == Column(g, 6, x)
    ensures Equation(7, x) == Column(g, 7, x)
  {
  }

  lemma Columns8To15(g: seq<bool>, x: seq<bool>)
    requires IsG(g) && |x| == 8
    ensures Equation(8, x) == Column(g, 8, x)
    ensures Equation(9, x) == Column(g, 9, x)
    ensures Equation(10, x) == Column(g, 10, x)
    ensures Equation(11, x) == Column(g, 11, x)
    ensures Equation(12, x) == Column(g, 12, x)
    ensures Equation(13, x) == Column(g, 13, x)
    ensures Equation(14, x) == Column(g, 14, x)
    ensures Equation(15, x) == Column(g, 15, x)
  {
  }

  lemma Columns16To23(g: seq<bool>, x: seq<bool>)
    requires IsG(g) && |x| == 8
    ensures Equation(16, x) == Column(g, 16, x)
    ensures Equation(17, x) == Column(g, 17, x)
    ensures Equation(18, x) == Column(g, 18, x)
    ensures Equation(19, x) == Column(g, 19, x)
    ensures Equation(20, x) == Column(g, 20, x)
    ensures Equation(21, x) == Column(g, 21, x)
    ensures Equation(22, x) == Column(g, 22, x)
    ensures Equation(23, x) == Column(g, 23, x)
  {
  }

  lemma Columns24To31(g: seq<bool>, x: seq<bool>)
    requires IsG(g) && |x| == 8
    ensures Equation(24, x) == Column(g, 24, x)
    ensures Equation(25, x) == Column(g, 25, x)
    ensures Equation(26, x) == Column(g, 26, x)
    ensures Equation(27, x) == Column(g, 27, x)
    ensures Equation(28, x) == Column(g, 28, x)
    ensures Equation(29, x) == Column(g, 29, x)
    ensures Equation(30, x) == Column(g, 30, x)
    ensures Equation(31, x) == Column(g, 31, x)
  {
  }

  lemma EquationIsColumn(g: seq<bool>, i: nat, x: seq<bool>)
    requires IsG(g) && i < 32 && |x| == 8
    ensures Equation(i, x) == Column(g, i, x)
  {
    hide *;
    if i < 8 {
      Columns0To7(g, x);
    } else if i < 16 {
      Columns8To15(g, x);
    } else if i < 24 {
      Columns16To23(g, x);
    } else {
      Columns24To31(g, x);
    }
  }

  lemma Crc32Bit(c: seq<bool>, d: seq<bool>, i: nat)
    requires |c| == 32 && |d| == 8 && i < 32
    ensures Crc32(c, d)[i] == (Bit(c, i - 8) != Equation(i, Top(c, d)))
  {
  }

  lemma ParallelIsSerialAt(g: seq<bool>, c: seq<bool>, d: seq<bool>, i: nat)
    requires |c| == |g| == 32 && |d| == 8 && IsG(g) && i < 32
    ensures Crc32(c, d)[i] == ShiftAll(g, c, FromTop(d))[i]
  {
    assert HighTaps(g);
    assert Bit(ShiftAll(g, c, FromTop(d)), i) == ShiftAll(g, c, FromTop(d))[i];
    hide *;
    Crc32Bit(c, d, i);
    Shift8(g, c, d, i);
    EquationIsColumn(g, i, Top(c, d));
  }

  lemma EqualBits(a: seq<bool>, b: seq<bool>)
    requires |a| == |b| == 32 && forall i :: 0 <= i < 32 ==> a[i] == b[i]
    ensures a == b
  {
  }

  lemma ParallelIsSerialFor(g: seq<bool>, c: seq<bool>, d: seq<bool>)
    requires |c| == |g| == 32 && |d| == 8 && IsG(g)
    ensures Crc32(c, d) == ShiftAll(g, c, FromTop(d))
  {
    forall i | 0 <= i < 32
      ensures Crc32(c, d)[i] == ShiftAll(g, c, FromTop(d))[i]
    {
      hide *;
      ParallelIsSerialAt(g, c, d, i);
    }
    hide *;
    EqualBits(Crc32(c, d), ShiftAll(g, c, FromTop(d)));
  }

  /** The 32 equations are eight steps of the bit-serial register. */
  lemma ParallelIsSerial(c: seq<bool>, d: seq<bool>)
    requires |c| == 32 && |d| == 8
    ensures Crc32(c, d) == ShiftAll(G, c, FromTop(d))
  {
    TapsOfG();
    hide *;
    ParallelIsSerialFor(G, c, d);
  }

  // ---------- The definition by polynomial division ----------

  /** Coefficients, highest power first. */
  function Coeffs(c: seq<bool>): (s: seq<bool>)
    requires |c| == 32
    ensures |s| == 32
  {
    seq(32, k requires 0 <= k < 32 => c[31 - k])
  }

  /** One step of long division by x^32 + g: take the leading term off. */
  function TakeLeading(g: seq<bool>, s: seq<bool>): (r: seq<bool>)
    requires |g| == 32 && |s| > 32
    ensures |r| == |s| - 1
  {
    seq(|s| - 1, k requires 0 <= k < |s| - 1 => s[k + 1] != (k < 32 && s[0] && g[31 - k]))
  }

  /** The remainder, 32 coefficients. */
  function Remainder(g: seq<bool>, s: seq<bool>): (r: seq<bool>)
    requires |g| == 32 && |s| >= 32
    ensures |r| == 32
    decreases |s|
  {
    if |s| == 32 then s else Remainder(g, TakeLeading(g, s))
  }

  function Zeros(n: nat): seq<bool> { seq(n, _ => false) }

  function Ones(n: nat): seq<bool> { seq(n, _ => true) }

  /** A register value added onto the leading 32 coefficients. */
  function Onto(c: seq<bool>, s: seq<bool>): (r: seq<bool>)
    requires |c| == 32 && |s| >= 32
    ensures |r| == |s|
  {
    seq(|s|, k requires 0 <= k < |s| => s[k] != (k < 32 && c[31 - k]))
  }

  /** The shift register computes the remainder of (bits times x^32), with its initial contents
      added onto the leading coefficients. */
  lemma {:induction false} RegisterIsDivision(g: seq<bool>, c: seq<bool>, bits: seq<bool>)
    requires |g| == |c| == 32
    ensures Remainder(g, Onto(c, bits + Zeros(32))) == Coeffs(ShiftAll(g, c, bits))
    decreases |bits|
  {
    var s := Onto(c, bits + Zeros(32));
    if bits != [] {
      var next := Shift(g, c, bits[0]);
      assert TakeLeading(g, s) == Onto(next, bits[1..] + Zeros(32));
      RegisterIsDivision(g, next, bits[1..]);
    }
  }

  function Complement(s: seq<bool>): (r: seq<bool>)
    ensures |r| == |s|
  {
    seq(|s|, k requires 0 <= k < |s| => !s[k])
  }

  /** The check sequence of clause 3.2.9 of IEEE 802.3-2018: complement the first 32 bits of the frame,
      multiply by x^32, divide by G(x), complement the remainder; sent highest power first. */
  function CheckSequence(frame: seq<bool>): (r: seq<bool>)
    ensures |r| == 32
  {
    var m := frame + Zeros(32);
    Complement(Remainder(G, Complement(m[..32]) + m[32..]))
  }

  // ---------- Bytes ----------

  /** Eight bits, indexed by bit number. Bytes go on the wire bit 0 first. */
  type Octet = s: seq<bool> | |s| == 8 witness [false, false, false, false, false, false, false, false]

  function Wire(bytes: seq<Octet>): seq<bool> {
    if bytes == [] then [] else bytes[0] + Wire(bytes[1..])
  }

  lemma {:induction false} WireAppend(a: seq<Octet>, b: seq<Octet>)
    ensures Wire(a + b) == Wire(a) + Wire(b)
    decreases |a|
  {
    if a == [] {
      assert a + b == b;
    } else {
      assert (a + b)[1..] == a[1..] + b;
      WireAppend(a[1..], b);
    }
  }

  function BitReverse8(d: Octet): Octet {
    [d[7], d[6], d[5], d[4], d[3], d[2], d[1], d[0]]
  }

  /** The crc register after the bytes, one parallel step each. */
  function CrcOf(crc: seq<bool>, bytes: seq<Octet>): (r: seq<bool>)
    requires |crc| == 32
    ensures |r| == 32
  {
    if bytes == [] then crc else Crc32(CrcOf(crc, bytes[..|bytes| - 1]), BitReverse8(bytes[|bytes| - 1]))
  }

  lemma {:induction false} CrcIsRegister(crc: seq<bool>, bytes: seq<Octet>)
    requires |crc| == 32
    ensures CrcOf(crc, bytes) == ShiftAll(G, crc, Wire(bytes))
    decreases |bytes|
  {
    if bytes != [] {
      var before, last := bytes[..|bytes| - 1], bytes[|bytes| - 1];
      CrcIsRegister(crc, before);
      ParallelIsSerial(CrcOf(crc, before), BitReverse8(last));
      assert FromTop(BitReverse8(last)) == last;
      assert bytes == before + [last];
      WireAppend(before, [last]);
      assert Wire([last]) == last by { assert [last][1..] == []; }
      ShiftAllSplits(G, crc, Wire(before), last);
    }
  }

  /** ~bit_reverse_32(crc), as four bytes, the lowest first. */
  function Fcs(crc: seq<bool>): (r: seq<Octet>)
    requires |crc| == 32
    ensures |r| == 4
  {
    var v := Complement(Coeffs(crc));
    [v[0..8], v[8..16], v[16..24], v[24..32]]
  }

  lemma FcsOnWire(crc: seq<bool>)
    requires |crc| == 32
    ensures Wire(Fcs(crc)) == Complement(Coeffs(crc))
  {
    var v, f := Complement(Coeffs(crc)), Fcs(crc);
    assert f[1..][1..][1..] == [f[3]] && f[1..][1..] == [f[2], f[3]] && f[1..] == [f[1], f[2], f[3]];
    assert [f[3]][1..] == [];
    assert Wire([f[3]]) == f[3];
    assert Wire([f[2], f[3]]) == f[2] + Wire([f[3]]);
    assert Wire(f) == f[0] + (f[1] + Wire([f[2], f[3]]));
  }

  /** The bytes the transmitter appends are, on the wire, the check sequence the standard defines for
      the bytes before them. */
  lemma FcsIsCheckSequence(bytes: seq<Octet>)
    ensures Wire(Fcs(CrcOf(Ones(32), bytes))) == CheckSequence(Wire(bytes))
  {
    var crc, m := CrcOf(Ones(32), bytes), Wire(bytes) + Zeros(32);
    FcsOnWire(crc);
    CrcIsRegister(Ones(32), bytes);
    RegisterIsDivision(G, Ones(32), Wire(bytes));
    assert Complement(m[..32]) + m[32..] == Onto(Ones(32), m);
  }

  /** Feeding a register its own check sequence leaves the same residue whatever it held. */
  lemma {:induction false} ResidueAfter(g: seq<bool>, c: seq<bool>, k: nat)
    requires |g| == |c| == 32 && k <= 32
    ensures forall i :: 0 <= i < 32 ==>
      ShiftAll(g, c, Complement(Coeffs(c))[..k])[i] == (Bit(c, i - k) != ShiftAll(g, Zeros(32), Ones(k))[i])
    decreases k
  {
    if k > 0 {
      var v := Complement(Coeffs(c));
      ResidueAfter(g, c, k - 1);
      assert v[..k] == v[..k - 1] + [v[k - 1]] && Ones(k) == Ones(k - 1) + [true];
      ShiftAllSplits(g, c, v[..k - 1], [v[k - 1]]);
      ShiftAllSplits(g, Zeros(32), Ones(k - 1), [true]);
      forall i | 0 <= i < 32
        ensures ShiftAll(g, c, v[..k])[i] == (Bit(c, i - k) != ShiftAll(g, Zeros(32), Ones(k))[i])
      {
        ShiftBit(g, ShiftAll(g, c, v[..k - 1]), v[k - 1], i);
        ShiftBit(g, ShiftAll(g, Zeros(32), Ones(k - 1)), true, i);
      }
    }
  }

  const RESIDUE: seq<bool> := ShiftAll(G, Zeros(32), Ones(32))

  /** A receiver that runs the same register over frame and check sequence ends on one constant. */
  lemma ResidueIsConstant(bytes: seq<Octet>)
    ensures var crc := CrcOf(Ones(32), bytes);
      CrcOf(Ones(32), bytes + Fcs(crc)) == RESIDUE
  {
    hide ShiftAll, RESIDUE;
    var crc := CrcOf(Ones(32), bytes);
    CrcIsRegister(Ones(32), bytes);
    CrcIsRegister(Ones(32), bytes + Fcs(crc));
    WireAppend(bytes, Fcs(crc));
    FcsOnWire(crc);
    ShiftAllSplits(G, Ones(32), Wire(bytes), Wire(Fcs(crc)));
    ResidueOfAny(crc);
  }

  lemma ResidueOfAny(crc: seq<bool>)
    requires |crc| == 32
    ensures ShiftAll(G, crc, Complement(Coeffs(crc))) == RESIDUE
  {
    var v := Complement(Coeffs(crc));
    ResidueAfter(G, crc, 32);
    assert v[..32] == v;
    forall i | 0 <= i < 32
      ensures ShiftAll(G, crc, v)[i] == RESIDUE[i]
    {
      assert !Bit(crc, i - 32);
    }
  }

  // ---------- Its 32 bits ----------

  /** 0xB1F740B4 */
  predicate AfterOne(c: seq<bool>) {
    && |c| == 32
    && !c[0] && !c[1] && c[2] && !c[3] && c[4] && c[5] && !c[6] && c[7]
    && !c[8] && !c[9] && !c[10] && !c[11] && !c[12] && !c[13] && c[14] && !c[15]
    && c[16] && c[17] && c[18] && !c[19] && c[20] && c[21] && c[22] && c[23]
    && c[24] && !c[25] && !c[26] && !c[27] && c[28] && c[29] && !c[30] && c[31]
  }

  /** 0xFF48647D */
  predicate AfterTwo(c: seq<bool>) {
    && |c| == 32
    && c[0] && !c[1] && c[2] && c[3] && c[4] && c[5] && c[6] && !c[7]
    && !c[8] && !c[9] && c[10] && !c[11] && !c[12] && c[13] && c[14] && !c[15]
    && !c[16] && !c[17] && !c[18] && c[19] && !c[20] && !c[21] && c[22] && !c[23]
    && c[24] && c[25] && c[26] && c[27] && c[28] && c[29] && c[30] && c[31]
  }

  /** 0x48647D00 */
  predicate AfterThree(c: seq<bool>) {
    && |c| == 32
    && !c[0] && !c[1] && !c[2] && !c[3] && !c[4] && !c[5] && !c[6] && !c[7]
    && c[8] && !c[9] && c[10] && c[11] && c[12] && c[13] && c[14] && !c[15]
    && !c[16] && !c[17] && c[18] && !c[19] && !c[20] && c[21] && c[22] && !c[23]
    && !c[24] && !c[25] && !c[26] && c[27] && !c[28] && !c[29] && c[30] && !c[31]
  }

  /** 0xC704DD7B */
  predicate IsResidue(c: seq<bool>) {
    && |c| == 32
    && c[0] && c[1] && !c[2] && c[3] && c[4] && c[5] && c[6] && !c[7]
    && c[8] && !c[9] && c[10] && c[11] && c[12] && !c[13] && c[14] && c[15]
    && !c[16] && !c[17] && c[18] && !c[19] && !c[20] && !c[21] && !c[22] && !c[23]
    && c[24] && c[25] && c[26] && !c[27] && !c[28] && !c[29] && c[30] && c[31]
  }

  function AllOnes8(): Octet { [true, true, true, true, true, true, true, true] }

  predicate Complemented(x: seq<bool>, c: seq<bool>)
    requires |x| == 8 && |c| == 32
  {
    && x[0] == !c[24] && x[1] == !c[25] && x[2] == !c[26] && x[3] == !c[27]
    && x[4] == !c[28] && x[5] == !c[29] && x[6] == !c[30] && x[7] == !c[31]
  }

  lemma TopOfOnes(c: seq<bool>)
    requires |c| == 32
    ensures Complemented(Top(c, AllOnes8()), c)
  {
  }

  lemma LowBits(c: seq<bool>, d: seq<bool>)
    requires |c| == 32 && |d| == 8
    ensures var r, x := Crc32(c, d), Top(c, d); r[0] == Equation(0, x) && r[1] == Equation(1, x)
    ensures var r, x := Crc32(c, d), Top(c, d); r[2] == Equation(2, x) && r[3] == Equation(3, x)
    ensures var r, x := Crc32(c, d), Top(c, d); r[4] == Equation(4, x) && r[5] == Equation(5, x)
    ensures var r, x := Crc32(c, d), Top(c, d); r[6] == Equation(6, x) && r[7] == Equation(7, x)
    ensures var r, x := Crc32(c, d), Top(c, d); r[8] == (c[0] != Equation(8, x)) && r[9] == (c[1] != Equation(9, x))
    ensures var r, x := Crc32(c, d), Top(c, d); r[10] == (c[2] != Equation(10, x)) && r[11] == (c[3] != Equation(11, x))
    ensures var r, x := Crc32(c, d), Top(c, d); r[12] == (c[4] != Equation(12, x)) && r[13] == (c[5] != Equation(13, x))
    ensures var r, x := Crc32(c, d), Top(c, d); r[14] == (c[6] != Equation(14, x)) && r[15] == (c[7] != Equation(15, x))
  {
    hide Equation;
  }

  lemma HighBits(c: seq<bool>, d: seq<bool>)
    requires |c| == 32 && |d| == 8
    ensures var r, x := Crc32(c, d), Top(c, d);
      r[16] == (c[8] != Equation(16, x)) && r[17] == (c[9] != Equation(17, x))
    ensures var r, x := Crc32(c, d), Top(c, d);
      r[18] == (c[10] != Equation(18, x)) && r[19] == (c[11] != Equation(19, x))
    ensures var r, x := Crc32(c, d), Top(c, d);
      r[20] == (c[12] != Equation(20, x)) && r[21] == (c[13] != Equation(21, x))
    ensures var r, x := Crc32(c, d), Top(c, d);
      r[22] == (c[14] != Equation(22, x)) && r[23] == (c[15] != Equation(23, x))
    ensures var r, x := Crc32(c, d), Top(c, d);
      r[24] == (c[16] != Equation(24, x)) && r[25] == (c[17] != Equation(25, x))
    ensures var r, x := Crc32(c, d), Top(c, d);
      r[26] == (c[18] != Equation(26, x)) && r[27] == (c[19] != Equation(27, x))
    ensures var r, x := Crc32(c, d), Top(c, d);
      r[28] == (c[20] != Equation(28, x)) && r[29] == (c[21] != Equation(29, x))
    ensures var r, x := Crc32(c, d), Top(c, d);
      r[30] == (c[22] != Equation(30, x)) && r[31] == (c[23] != Equation(31, x))
  {
    hide Equation;
  }

  lemma FirstOnes(c: seq<bool>)
    requires |c| == 32 && c == Zeros(32)
    ensures AfterOne(Crc32(c, AllOnes8()))
  {
    hide Crc32, Top, AllOnes8;
    TopOfOnes(c);
    LowBits(c, AllOnes8());
    HighBits(c, AllOnes8());
  }

  lemma SecondOnes(c: seq<bool>)
    requires AfterOne(c)
    ensures AfterTwo(Crc32(c, AllOnes8()))
  {
    hide Crc32, Top, AllOnes8;
    TopOfOnes(c);
    LowBits(c, AllOnes8());
    HighBits(c, AllOnes8());
  }

  lemma ThirdOnes(c: seq<bool>)
    requires AfterTwo(c)
    ensures AfterThree(Crc32(c, AllOnes8()))
  {
    hide Crc32, Top, AllOnes8;
    TopOfOnes(c);
    LowBits(c, AllOnes8());
    HighBits(c, AllOnes8());
  }

  lemma FourthOnes(c: seq<bool>)
    requires AfterThree(c)
    ensures IsResidue(Crc32(c, AllOnes8()))
  {
    hide Crc32, Top, AllOnes8;
    TopOfOnes(c);
    LowBits(c, AllOnes8());
    HighBits(c, AllOnes8());
  }

  lemma {:induction false} WireOfOnes(n: nat)
    ensures Wire(seq(n, _ => AllOnes8())) == Ones(8 * n)
    decreases n
  {
    if n != 0 {
      WireOfOnes(n - 1);
      assert seq(n, _ => AllOnes8())[1..] == seq(n - 1, _ => AllOnes8());
      assert AllOnes8() == Ones(8) && Ones(8) + Ones(8 * (n - 1)) == Ones(8 * n);
    }
  }

  lemma OneMoreByte(crc: seq<bool>, n: nat)
    requires |crc| == 32
    ensures CrcOf(crc, []) == crc
    ensures CrcOf(crc, seq(n + 1, _ => AllOnes8())) == Crc32(CrcOf(crc, seq(n, _ => AllOnes8())), AllOnes8())
  {
    hide Crc32;
    assert seq(n + 1, _ => AllOnes8())[..n] == seq(n, _ => AllOnes8());
  }

  /** A register's value, bit 31 its most significant. */
  function Value(c: seq<bool>): nat
    requires |c| == 32
  {
    ByteValue(c[0..8]) + 0x100 * ByteValue(c[8..16]) + 0x1_0000 * ByteValue(c[16..24])
    + 0x100_0000 * ByteValue(c[24..32])
  }

  function ByteValue(b: seq<bool>): nat
    requires |b| == 8
  {
    Digit(b[0], 1) + Digit(b[1], 2) + Digit(b[2], 4) + Digit(b[3], 8)
    + Digit(b[4], 16) + Digit(b[5], 32) + Digit(b[6], 64) + Digit(b[7], 128)
  }

  function Digit(bit: bool, weight: nat): nat { if bit then weight else 0 }

  lemma ResidueValue(c: seq<bool>)
    requires IsResidue(c)
    ensures Value(c) == 0xC704DD7B
  {
  }

  /** What a receiver compares with: x^31 + x^30 + x^26 + x^25 + x^24 + x^18 + x^15 + x^14 + x^12 + x^11
      + x^10 + x^8 + x^6 + x^5 + x^4 + x^3 + x + 1. */
  lemma ResidueIs()
    ensures Value(RESIDUE) == 0xC704DD7B
  {
    hide ShiftAll, Crc32, CrcOf, Value, AfterOne, AfterTwo, AfterThree, IsResidue, Wire, Ones;
    var r := seq(5, n requires 0 <= n < 5 => CrcOf(Zeros(32), seq(n, _ => AllOnes8())));
    OneMoreByte(Zeros(32), 0);
    OneMoreByte(Zeros(32), 1);
    OneMoreByte(Zeros(32), 2);
    OneMoreByte(Zeros(32), 3);
    assert seq(0, _ => AllOnes8()) == [];
    FirstOnes(r[0]);
    SecondOnes(r[1]);
    ThirdOnes(r[2]);
    FourthOnes(r[3]);
    ResidueValue(r[4]);
    CrcIsRegister(Zeros(32), seq(4, _ => AllOnes8()));
    WireOfOnes(4);
  }
}
