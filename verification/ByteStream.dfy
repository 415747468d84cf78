/** Streams of bytes with null bytes: a word has lanes, and tkeep says which lanes carry a byte.
    What a stream means, whatever its width and wherever its null bytes are, is its sequence of
    tokens: the kept bytes in order, and an end mark after each word that asserts last. */
module ByteStream {

  type byte = x: int | 0 <= x < 256

  datatype Word = Word(data: seq<byte>, keep: seq<bool>, last: bool) {
    predicate Lanes(n: nat) { |data| == n && |keep| == n }
  }

  datatype Token = Byte(b: byte) | End

  function Marks(bytes: seq<byte>): (ts: seq<Token>)
    ensures |ts| == |bytes|
  {
    seq(|bytes|, i requires 0 <= i < |bytes| => Byte(bytes[i]))
  }

  function Kept(data: seq<byte>, keep: seq<bool>): (bytes: seq<byte>)
    requires |data| == |keep|
    ensures |bytes| <= |keep|
  {
    if keep == [] then [] else (if keep[0] then [data[0]] else []) + Kept(data[1..], keep[1..])
  }

  function WordTokens(w: Word): seq<Token>
    requires |w.data| == |w.keep|
  {
    Marks(Kept(w.data, w.keep)) + (if w.last then [End] else [])
  }

  /** Kept bytes sit at the bottom: keep is `count` ones below zeros. */
  predicate Packed(keep: seq<bool>, count: nat) {
    count <= |keep| && forall i :: 0 <= i < |keep| ==> keep[i] == (i < count)
  }

  /** A word seen without its null lanes. */
  datatype Chunk = Chunk(bytes: seq<byte>, last: bool) {
    function Tokens(): seq<Token> { Marks(bytes) + (if last then [End] else []) }

    /** Full unless it ends a packet. */
    predicate WellPacked(n: nat) { |bytes| <= n && (!last ==> |bytes| == n) }
  }

  function ToChunk(w: Word): Chunk
    requires |w.data| == |w.keep|
  {
    Chunk(Kept(w.data, w.keep), w.last)
  }

  function ChunkStream(cs: seq<Chunk>): seq<Token> {
    if cs == [] then [] else cs[0].Tokens() + ChunkStream(cs[1..])
  }

  predicate AllLanes(n: nat, ws: seq<Word>) {
    forall k :: 0 <= k < |ws| ==> ws[k].Lanes(n)
  }

  function WordStream(ws: seq<Word>): seq<Token>
    requires forall k :: 0 <= k < |ws| ==> |ws[k].data| == |ws[k].keep|
  {
    if ws == [] then [] else WordTokens(ws[0]) + WordStream(ws[1..])
  }

  lemma MarksAppend(a: seq<byte>, b: seq<byte>)
    ensures Marks(a + b) == Marks(a) + Marks(b)
  {
  }

  lemma {:induction false} KeptAppend(d1: seq<byte>, k1: seq<bool>, d2: seq<byte>, k2: seq<bool>)
    requires |d1| == |k1| && |d2| == |k2|
    ensures Kept(d1 + d2, k1 + k2) == Kept(d1, k1) + Kept(d2, k2)
    decreases |k1|
  {
    if k1 == [] {
      assert d1 + d2 == d2 && k1 + k2 == k2;
    } else {
      var d, k := d1 + d2, k1 + k2;
      var head := if k1[0] then [d1[0]] else [];
      assert d[1..] == d1[1..] + d2 && k[1..] == k1[1..] + k2;
      KeptAppend(d1[1..], k1[1..], d2, k2);
      calc {
        Kept(d, k);
        head + Kept(d[1..], k[1..]);
        head + (Kept(d1[1..], k1[1..]) + Kept(d2, k2));
        (head + Kept(d1[1..], k1[1..])) + Kept(d2, k2);
        Kept(d1, k1) + Kept(d2, k2);
      }
    }
  }

  lemma {:induction false} KeptPacked(data: seq<byte>, keep: seq<bool>, count: nat)
    requires |data| == |keep| && Packed(keep, count)
    ensures Kept(data, keep) == data[..count]
    decreases |keep|
  {
    if keep != [] {
      KeptPacked(data[1..], keep[1..], if count == 0 then 0 else count - 1);
    }
  }

  lemma {:induction false} KeptNone(data: seq<byte>, keep: seq<bool>)
    requires |data| == |keep| && forall i :: 0 <= i < |keep| ==> !keep[i]
    ensures Kept(data, keep) == []
  {
    KeptPacked(data, keep, 0);
  }

  lemma {:induction false} KeptSome(data: seq<byte>, keep: seq<bool>, k: nat)
    requires |data| == |keep| && k < |keep| && keep[k]
    ensures Kept(data, keep) != []
    decreases k
  {
    if k > 0 {
      KeptSome(data[1..], keep[1..], k - 1);
    }
  }

  lemma {:induction false} WordStreamAppend(a: seq<Word>, b: seq<Word>)
    requires forall k :: 0 <= k < |a| ==> |a[k].data| == |a[k].keep|
    requires forall k :: 0 <= k < |b| ==> |b[k].data| == |b[k].keep|
    ensures WordStream(a + b) == WordStream(a) + WordStream(b)
    decreases |a|
  {
    if a == [] {
      assert a + b == b;
    } else {
      assert (a + b)[1..] == a[1..] + b;
      WordStreamAppend(a[1..], b);
    }
  }

  lemma {:induction false} ChunkStreamAppend(a: seq<Chunk>, b: seq<Chunk>)
    ensures ChunkStream(a + b) == ChunkStream(a) + ChunkStream(b)
    decreases |a|
  {
    if a == [] {
      assert a + b == b;
    } else {
      assert (a + b)[1..] == a[1..] + b;
      ChunkStreamAppend(a[1..], b);
    }
  }

  // ---------- A token stream has only one well-packed form ----------

  predicate NonNull(cs: seq<Chunk>) {
    forall k :: 0 <= k < |cs| ==> cs[k].bytes != []
  }

  predicate AllWellPacked(n: nat, cs: seq<Chunk>) {
    forall k :: 0 <= k < |cs| ==> cs[k].WellPacked(n)
  }

  /** Two well-packed streams without null words that mean the same are the same. */
  lemma {:induction false} PackedFormIsUnique(n: nat, a: seq<Chunk>, b: seq<Chunk>)
    requires n > 0 && AllWellPacked(n, a) && AllWellPacked(n, b) && NonNull(a) && NonNull(b)
    requires ChunkStream(a) == ChunkStream(b)
    ensures a == b
    decreases |a|
  {
    if a == [] {
      if b != [] { HeadTokens(b); }
    } else if b == [] {
      HeadTokens(a);
    } else {
      HeadAgrees(n, a, b);
      assert ChunkStream(a)[|a[0].Tokens()|..] == ChunkStream(a[1..]);
      assert ChunkStream(b)[|b[0].Tokens()|..] == ChunkStream(b[1..]);
      PackedFormIsUnique(n, a[1..], b[1..]);
      assert a == [a[0]] + a[1..] && b == [b[0]] + b[1..];
    }
  }

  lemma HeadTokens(a: seq<Chunk>)
    requires NonNull(a) && a != []
    ensures forall i :: 0 <= i < |a[0].bytes| ==> ChunkStream(a)[i] == Byte(a[0].bytes[i])
    ensures |ChunkStream(a)| >= |a[0].bytes| > 0
    ensures a[0].last ==> |ChunkStream(a)| > |a[0].bytes| && ChunkStream(a)[|a[0].bytes|] == End
    ensures !a[0].last && |ChunkStream(a)| > |a[0].bytes| ==> ChunkStream(a)[|a[0].bytes|].Byte?
  {
    if |a| > 1 {
      assert a[1] == a[1..][0];
      assert a[1].Tokens()[0] == Byte(a[1].bytes[0]);
      assert ChunkStream(a[1..])[0] == a[1].Tokens()[0];
    }
  }

  lemma HeadAgrees(n: nat, a: seq<Chunk>, b: seq<Chunk>)
    requires n > 0 && AllWellPacked(n, a) && AllWellPacked(n, b) && NonNull(a) && NonNull(b)
    requires a != [] && b != [] && ChunkStream(a) == ChunkStream(b)
    ensures a[0] == b[0]
  {
    HeadTokens(a);
    HeadTokens(b);
    var s := ChunkStream(a);
    assert forall i :: 0 <= i < |a[0].bytes| ==> s[i] == Byte(a[0].bytes[i]) == Byte(b[0].bytes[i]);
  }
}
