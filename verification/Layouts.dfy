/** Flattened datatypes: the blocks of an element, and the addresses that a run of elements covers. */
module Layouts {
  import opened Basics

  /** One block of an element: displacement from the element's start, and length in bytes. */
  datatype Block = Block(dis: nat, len: nat)

  datatype Layout =
    | Contiguous(length: nat)
    | Scattered(extent: nat, length: nat, blocks: seq<Block>)
  {
    function Stride(): nat { if Contiguous? then length else extent }
    function Len(): nat { length }
  }

  function Total(blocks: seq<Block>): nat {
    if blocks == [] then 0 else Total(blocks[..|blocks| - 1]) + blocks[|blocks| - 1].len
  }

  /** The block lengths add up to the type's length, and every block lies inside one stride. */
  ghost predicate WellFormed(t: Layout) {
    t.Scattered? ==>
      && Total(t.blocks) == t.length
      && forall i :: 0 <= i < |t.blocks| ==> t.blocks[i].dis + t.blocks[i].len <= t.extent
  }

  ghost predicate BlocksApart(blocks: seq<Block>) {
    forall i, j :: 0 <= i < |blocks| && 0 <= j < |blocks| && i != j ==>
      blocks[i].dis + blocks[i].len <= blocks[j].dis || blocks[j].dis + blocks[j].len <= blocks[i].dis
  }

  ghost predicate NonOverlapping(t: Layout) {
    WellFormed(t) && (t.Scattered? ==> BlocksApart(t.blocks))
  }

  // ---------- addresses ----------

  function Span(addr: nat, len: nat): (s: seq<nat>)
    ensures |s| == len && forall i :: 0 <= i < len ==> s[i] == addr + i
  {
    seq(len, i => addr + i)
  }

  /** The addresses of one element's bytes in the order of its blocks. */
  function BlockAddrs(addr: nat, blocks: seq<Block>): seq<nat> {
    if blocks == [] then [] else
    var m := |blocks| - 1;
    BlockAddrs(addr, blocks[..m]) + Span(addr + blocks[m].dis, blocks[m].len)
  }

  function ElementAddrs(t: Layout, addr: nat): seq<nat> {
    if t.Contiguous? then Span(addr, t.length) else BlockAddrs(addr, t.blocks)
  }

  /** The byte stream of `count` consecutive elements, the first of them at `addr`. */
  function Stream(t: Layout, addr: nat, count: nat): seq<nat>
    decreases count
  {
    if count == 0 then [] else ElementAddrs(t, addr) + Stream(t, addr + t.Stride(), count - 1)
  }

  lemma OneElement(t: Layout, addr: nat)
    ensures Stream(t, addr, 1) == ElementAddrs(t, addr)
  {
    assert Stream(t, addr + t.Stride(), 0) == [];
  }

  /** k * n by repeated addition, which keeps the inductions below linear. */
  ghost function Fold(k: nat, n: nat): nat {
    if k == 0 then 0 else n + Fold(k - 1, n)
  }

  lemma {:induction false} FoldIsProduct(k: nat, n: nat)
    ensures Fold(k, n) == k * n
  {
    if k > 0 {
      FoldIsProduct(k - 1, n);
      assert k * n == n + (k - 1) * n;
    }
  }

  /** The address of element k of a buffer. */
  ghost function Address(t: Layout, buf: nat, k: nat): nat { buf + Fold(k, t.Stride()) }

  lemma AddressIs(t: Layout, buf: nat, k: nat)
    ensures Address(t, buf, k) == buf + k * t.Stride()
  {
    FoldIsProduct(k, t.Stride());
  }

  lemma {:induction false} BlockAddrsLength(addr: nat, blocks: seq<Block>)
    ensures |BlockAddrs(addr, blocks)| == Total(blocks)
  {
    if blocks != [] { BlockAddrsLength(addr, blocks[..|blocks| - 1]); }
  }

  lemma ElementLength(t: Layout, addr: nat)
    requires WellFormed(t)
    ensures |ElementAddrs(t, addr)| == t.Len()
  {
    if t.Scattered? { BlockAddrsLength(addr, t.blocks); }
  }

  lemma {:induction false} StreamFold(t: Layout, addr: nat, count: nat)
    requires WellFormed(t)
    ensures |Stream(t, addr, count)| == Fold(count, t.Len())
    decreases count
  {
    if count > 0 {
      StreamFold(t, addr + t.Stride(), count - 1);
      ElementLength(t, addr);
    }
  }

  lemma StreamLength(t: Layout, addr: nat, count: nat)
    requires WellFormed(t)
    ensures |Stream(t, addr, count)| == count * t.Len()
  {
    StreamFold(t, addr, count);
    FoldIsProduct(count, t.Len());
  }

  lemma {:induction false} StreamSplitFold(t: Layout, addr: nat, a: nat, b: nat)
    ensures Stream(t, addr, a + b) == Stream(t, addr, a) + Stream(t, addr + Fold(a, t.Stride()), b)
    decreases a
  {
    if a > 0 { StreamSplitFold(t, addr + t.Stride(), a - 1, b); }
  }

  /** Byte j of block i comes behind all the blocks listed before it. */
  lemma {:induction false} BlockAddrsAt(addr: nat, blocks: seq<Block>, i: nat, j: nat)
    requires i < |blocks| && j < blocks[i].len
    ensures Total(blocks[..i]) + j < |BlockAddrs(addr, blocks)|
    ensures BlockAddrs(addr, blocks)[Total(blocks[..i]) + j] == addr + blocks[i].dis + j
  {
    var m := |blocks| - 1;
    BlockAddrsLength(addr, blocks[..m]);
    if i < m {
      BlockAddrsAt(addr, blocks[..m], i, j);
      assert blocks[..m][..i] == blocks[..i];
    }
  }

  /** Byte b of every element lies `dis` behind the element's start. */
  ghost predicate ByteAt(t: Layout, b: nat, dis: nat) {
    forall addr: nat :: b < |ElementAddrs(t, addr)| == t.Len() && ElementAddrs(t, addr)[b] == addr + dis
  }

  lemma {:induction false} InElement(t: Layout, addr: nat, count: nat, k: nat, b: nat, dis: nat, skip: nat, step: nat)
    requires k < count && ByteAt(t, b, dis) && skip == Fold(k, t.Len()) && step == Fold(k, t.Stride())
    ensures skip + b < |Stream(t, addr, count)| && Stream(t, addr, count)[skip + b] == addr + step + dis
    decreases k
  {
    if k > 0 {
      InElement(t, addr + t.Stride(), count - 1, k - 1, b, dis, skip - t.Len(), step - t.Stride());
    }
    assert b < |ElementAddrs(t, addr)| == t.Len();
  }

  lemma BlockByteAt(t: Layout, i: nat, j: nat)
    requires WellFormed(t) && t.Scattered? && i < |t.blocks| && j < t.blocks[i].len
    ensures ByteAt(t, Total(t.blocks[..i]) + j, t.blocks[i].dis + j)
  {
    forall addr: nat
      ensures Total(t.blocks[..i]) + j < |ElementAddrs(t, addr)| == t.Len()
      ensures ElementAddrs(t, addr)[Total(t.blocks[..i]) + j] == addr + (t.blocks[i].dis + j)
    {
      ElementLength(t, addr);
      BlockAddrsAt(addr, t.blocks, i, j);
    }
  }

  /** The byte stream goes element by element, block by block in the order of the list, byte by byte. */
  lemma StreamAt(t: Layout, addr: nat, count: nat, k: nat, i: nat, j: nat)
    requires WellFormed(t) && t.Scattered? && k < count && i < |t.blocks| && j < t.blocks[i].len
    ensures 0 <= k * t.Len() + Total(t.blocks[..i]) + j < |Stream(t, addr, count)|
    ensures Stream(t, addr, count)[k * t.Len() + Total(t.blocks[..i]) + j]
         == addr + k * t.Stride() + t.blocks[i].dis + j
  {
    BlockByteAt(t, i, j);
    FoldIsProduct(k, t.Len());
    FoldIsProduct(k, t.Stride());
    InElement(t, addr, count, k, Total(t.blocks[..i]) + j, t.blocks[i].dis + j, k * t.Len(), k * t.Stride());
  }

  /** The stream from element k on is the whole stream with k * len bytes dropped. */
  lemma StreamFromElement(t: Layout, addr: nat, count: nat, k: nat, o: nat)
    requires WellFormed(t) && k <= count && o == k * t.Len()
    ensures o <= |Stream(t, addr, count)|
    ensures Stream(t, Address(t, addr, k), count - k) == Stream(t, addr, count)[o..]
  {
    StreamSplitFold(t, addr, k, count - k);
    StreamFold(t, addr, k);
    FoldIsProduct(k, t.Len());
  }

  lemma {:induction false} ContiguousFold(t: Layout, addr: nat, count: nat)
    requires t.Contiguous?
    ensures Stream(t, addr, count) == Span(addr, Fold(count, t.length))
    decreases count
  {
    if count > 0 { ContiguousFold(t, addr + t.length, count - 1); }
  }

  lemma ContiguousStream(t: Layout, addr: nat, count: nat)
    requires t.Contiguous?
    ensures Stream(t, addr, count) == Span(addr, count * t.length)
  {
    ContiguousFold(t, addr, count);
    FoldIsProduct(count, t.length);
  }

  // ---------- footprint ----------

  lemma {:induction false} BlockAddrsWithin(addr: nat, blocks: seq<Block>, extent: nat, i: nat)
    requires forall b :: 0 <= b < |blocks| ==> blocks[b].dis + blocks[b].len <= extent
    requires i < |BlockAddrs(addr, blocks)|
    ensures addr <= BlockAddrs(addr, blocks)[i] < addr + extent
  {
    var m := |blocks| - 1;
    if i < |BlockAddrs(addr, blocks[..m])| { BlockAddrsWithin(addr, blocks[..m], extent, i); }
  }

  lemma ElementWithin(t: Layout, addr: nat, i: nat)
    requires WellFormed(t) && i < |ElementAddrs(t, addr)|
    ensures addr <= ElementAddrs(t, addr)[i] < addr + t.Stride()
  {
    if t.Scattered? { BlockAddrsWithin(addr, t.blocks, t.extent, i); }
  }

  lemma {:induction false} StreamWithinFold(t: Layout, addr: nat, count: nat, i: nat)
    requires WellFormed(t) && i < |Stream(t, addr, count)|
    ensures addr <= Stream(t, addr, count)[i] < addr + Fold(count, t.Stride())
    decreases count
  {
    var first := |ElementAddrs(t, addr)|;
    if i < first { ElementWithin(t, addr, i); } else { StreamWithinFold(t, addr + t.Stride(), count - 1, i - first); }
  }

  /** `count` elements touch only the first count * stride bytes. */
  lemma StreamWithin(t: Layout, addr: nat, count: nat, i: nat)
    requires WellFormed(t) && i < |Stream(t, addr, count)|
    ensures addr <= Stream(t, addr, count)[i] < addr + count * t.Stride()
  {
    StreamWithinFold(t, addr, count, i);
    FoldIsProduct(count, t.Stride());
  }

  /** An address of an element lies in one of its blocks. */
  lemma {:induction false} BlockOf(addr: nat, blocks: seq<Block>, i: nat) returns (b: nat)
    requires i < |BlockAddrs(addr, blocks)|
    ensures b < |blocks| && addr + blocks[b].dis <= BlockAddrs(addr, blocks)[i] < addr + blocks[b].dis + blocks[b].len
  {
    var m := |blocks| - 1;
    if i < |BlockAddrs(addr, blocks[..m])| { b := BlockOf(addr, blocks[..m], i); } else { b := m; }
  }

  lemma {:induction false} BlockAddrsNoDup(addr: nat, blocks: seq<Block>)
    requires BlocksApart(blocks)
    ensures NoDup(BlockAddrs(addr, blocks))
  {
    if blocks != [] {
      var m := |blocks| - 1;
      var head, tail := BlockAddrs(addr, blocks[..m]), Span(addr + blocks[m].dis, blocks[m].len);
      BlockAddrsNoDup(addr, blocks[..m]);
      forall i, j | 0 <= i < |head| && 0 <= j < |tail| ensures head[i] != tail[j] {
        var b := BlockOf(addr, blocks[..m], i);
      }
    }
  }

  /** No byte is covered twice when the blocks of an element do not overlap. */
  lemma {:induction false} StreamNoDup(t: Layout, addr: nat, count: nat)
    requires NonOverlapping(t)
    ensures NoDup(Stream(t, addr, count))
    decreases count
  {
    if count > 0 {
      var head, tail := ElementAddrs(t, addr), Stream(t, addr + t.Stride(), count - 1);
      StreamNoDup(t, addr + t.Stride(), count - 1);
      if t.Scattered? { BlockAddrsNoDup(addr, t.blocks); }
      forall i, j | 0 <= i < |head| && 0 <= j < |tail| ensures head[i] != tail[j] {
        ElementWithin(t, addr, i);
        StreamWithinFold(t, addr + t.Stride(), count - 1, j);
      }
    }
  }
}
