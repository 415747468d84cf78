/** Read and write pointers one bit wider than the address, as both packet FIFOs use them: the
    address bits select a cell, the extra bit tells full from empty. Written for any depth, which
    is 2^LOG2_DEPTH in the hardware. */
module Pointers {

  /** The address bits of a pointer. */
  function Addr(depth: nat, p: nat): (a: nat)
    requires p < 2 * depth
    ensures a < depth
  {
    if p < depth then p else p - depth
  }

  function Inc(depth: nat, p: nat): (q: nat)
    requires p < 2 * depth
    ensures q < 2 * depth
  {
    if p + 1 == 2 * depth then 0 else p + 1
  }

  /** The address bits match and the top bits do not. */
  predicate Full(depth: nat, rd: nat, wr: nat)
    requires rd < 2 * depth && wr < 2 * depth
  {
    Addr(depth, rd) == Addr(depth, wr) && (rd < depth) != (wr < depth)
  }

  /** The pointer k places on. */
  function At(depth: nat, p: nat, k: nat): (q: nat)
    requires p < 2 * depth && k <= depth
    ensures q < 2 * depth
  {
    if p + k < 2 * depth then p + k else p + k - 2 * depth
  }

  /** How far b is ahead of a. */
  function Distance(depth: nat, a: nat, b: nat): (d: nat)
    requires a < 2 * depth && b < 2 * depth
    ensures d < 2 * depth
    ensures d <= depth ==> At(depth, a, d) == b
  {
    if a <= b then b - a else b + 2 * depth - a
  }

  /** The contents of n consecutive cells, starting where p points. */
  ghost function Cells<B>(depth: nat, mem: seq<B>, p: nat, n: nat): (s: seq<B>)
    requires |mem| == depth && p < 2 * depth && n <= depth
    ensures |s| == n
  {
    seq(n, k requires 0 <= k < n => mem[Addr(depth, At(depth, p, k))])
  }

  lemma CellsRead<B>(depth: nat, mem: seq<B>, p: nat, n: nat)
    requires |mem| == depth && p < 2 * depth && 0 < n <= depth
    ensures Cells(depth, mem, p, n) == [mem[Addr(depth, p)]] + Cells(depth, mem, Inc(depth, p), n - 1)
  {
  }

  lemma CellsSplit<B>(depth: nat, mem: seq<B>, p: nat, n: nat, m: nat)
    requires |mem| == depth && p < 2 * depth && n + m <= depth
    ensures Cells(depth, mem, p, n + m) == Cells(depth, mem, p, n) + Cells(depth, mem, At(depth, p, n), m)
  {
  }

  /** A write one past n < depth cells appends to them. */
  lemma CellsWrite<B>(depth: nat, mem: seq<B>, p: nat, n: nat, b: B)
    requires |mem| == depth && p < 2 * depth && n < depth
    ensures Cells(depth, mem[Addr(depth, At(depth, p, n)) := b], p, n + 1) == Cells(depth, mem, p, n) + [b]
    ensures At(depth, p, n + 1) == Inc(depth, At(depth, p, n))
  {
  }
}
