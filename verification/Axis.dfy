/** AXI4-Stream vocabulary shared by the stream components (section 2.2.1 of ARM IHI 0051A:
    a transfer takes place on a clock edge where valid and ready are both high). */
module Axis {

  datatype Option<+T> = None | Some(value: T) {
    function ToSeq(): seq<T> {
      if this.Some? then [value] else []
    }
  }

  /** A beat of a stream that is only stored and forwarded: tdata, tuser and tkeep together are
      the payload. */
  datatype Beat<+T> = Beat(payload: T, last: bool)

  function Last<T>(s: seq<T>): T
    requires s != []
  {
    s[|s| - 1]
  }

  function Flatten<T>(parts: seq<seq<T>>): seq<T> {
    if parts == [] then [] else parts[0] + Flatten(parts[1..])
  }

  /** One step of a conservation law followed by the rest of the run. */
  lemma Regroup<T>(before: seq<T>, in0: seq<T>, ins: seq<T>, out0: seq<T>, middle: seq<T>, outs: seq<T>, after: seq<T>)
    requires before + in0 == out0 + middle
    requires middle + ins == outs + after
    ensures before + (in0 + ins) == (out0 + outs) + after
  {
    calc {
      before + (in0 + ins);
      (before + in0) + ins;
      out0 + (middle + ins);
      (out0 + outs) + after;
    }
  }

  /** The same, for a run extended by one step at its end. */
  lemma Extend<T>(ins: seq<T>, outs: seq<T>, inside: seq<T>, in1: seq<T>, out1: seq<T>, inside': seq<T>)
    requires ins == outs + inside
    requires inside + in1 == out1 + inside'
    ensures ins + in1 == (outs + out1) + inside'
  {
    calc {
      ins + in1;
      outs + (inside + in1);
      (outs + out1) + inside';
    }
  }
}
