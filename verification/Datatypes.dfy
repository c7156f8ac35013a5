/** The type constructors, with the 64-bit arithmetic they compute in. */
module Datatypes {
  import opened Basics
  import opened Layouts
  import opened Words

  /** The size of a slot's staging buffers, in bytes. */
  const MAX_IN_PLACE_LEN: nat := 64

  /** The machine's form of a scattered type: stride, length, and one entry a block. */
  datatype Entry = Entry(dis: int, len: nat)
  datatype Vector = Vector(stride: int, len: nat, entries: seq<Entry>)

  function Sum(entries: seq<Entry>): nat {
    if entries == [] then 0 else Sum(entries[..|entries| - 1]) + entries[|entries| - 1].len
  }

  /** The farthest end of an entry, as the signed arithmetic sees it; never below 0. */
  function Reach(entries: seq<Entry>): (r: int)
    ensures 0 <= r < HALF
  {
    if entries == [] then 0 else
    var e := entries[|entries| - 1];
    Max(Signed(e.dis + e.len), Reach(entries[..|entries| - 1]))
  }

  // ---------- the constructors ----------

  /** What the caller asks for block by block; `lens` are the lengths of the old types. */
  datatype Request = Request(blocklengths: seq<int>, displacements: seq<int>, lens: seq<nat>)
  {
    ghost predicate Valid() {
      && |blocklengths| == |displacements| == |lens|
      && forall i :: 0 <= i < |displacements| ==> displacements[i] < HALF
    }

    /** The number of bytes block i should have. */
    function Bytes(i: nat): int
      requires |blocklengths| == |lens| && i < |lens|
    {
      blocklengths[i] * lens[i]
    }

    predicate Accepted()
      requires |blocklengths| == |displacements|
    {
      |blocklengths| != 0 && forall i :: 0 <= i < |blocklengths| ==> blocklengths[i] != 0 && displacements[i] >= 0
    }

    ghost predicate Built(v: Vector)
      requires Valid()
    {
      && |v.entries| == |lens|
      && (forall i :: 0 <= i < |lens| ==> v.entries[i] == Entry(displacements[i], Word(Bytes(i))))
      && Summed(v)
    }

    /** The loop over the blocks. */
    method Fill() returns (v: Vector)
      requires Valid()
      ensures Built(v)
    {
      v := Vector(0, 0, []);
      for i := 0 to |lens|
        invariant |v.entries| == i && Summed(v)
        invariant forall j :: 0 <= j < i ==> v.entries[j] == Entry(displacements[j], Word(Bytes(j)))
      {
        v := Append(v, Entry(displacements[i], Word(blocklengths[i] * lens[i])));
      }
    }
  }

  /** The stride and the length are those of the entries. */
  ghost predicate Summed(v: Vector) {
    v.stride == Reach(v.entries) && v.len == Word(Sum(v.entries))
  }

  method Append(v: Vector, e: Entry) returns (w: Vector)
    requires Summed(v)
    ensures Summed(w) && w.entries == v.entries + [e]
  {
    assert (v.entries + [e])[..|v.entries|] == v.entries;
    WordSum(Sum(v.entries), e.len);
    w := Vector(Max(Signed(e.dis + e.len), v.stride), Word(v.len + e.len), v.entries + [e]);
  }

  method CreateHindexed(blocklengths: seq<int>, displacements: seq<int>, oldtype: Layout) returns (r: Option<Vector>)
    requires |blocklengths| == |displacements|
    requires forall i :: 0 <= i < |displacements| ==> displacements[i] < HALF
    ensures r.Some? <==>
      && oldtype.Contiguous? && |blocklengths| > 0
      && forall i :: 0 <= i < |blocklengths| ==> blocklengths[i] != 0 && displacements[i] >= 0
    ensures r.Some? ==> |r.value.entries| == |blocklengths| && forall i :: 0 <= i < |blocklengths| ==>
      r.value.entries[i] == Entry(displacements[i], Word(blocklengths[i] * oldtype.Len()))
    ensures r.Some? ==> Request(blocklengths, displacements, seq(|displacements|, _ => oldtype.Len())).Built(r.value)
  {
    var q := Request(blocklengths, displacements, seq(|displacements|, _ => oldtype.Len()));
    if oldtype.Scattered? { return None; }
    if !q.Accepted() { return None; }
    var v := q.Fill();
    return Some(v);
  }

  method CreateStruct(blocklengths: seq<int>, displacements: seq<int>, types: seq<Layout>) returns (r: Option<Vector>)
    requires |blocklengths| == |displacements| == |types|
    requires forall i :: 0 <= i < |displacements| ==> displacements[i] < HALF
    ensures r.Some? <==>
      && |blocklengths| > 0 && (forall i :: 0 <= i < |types| ==> types[i].Contiguous?)
      && forall i :: 0 <= i < |blocklengths| ==> blocklengths[i] != 0 && displacements[i] >= 0
    ensures r.Some? ==> |r.value.entries| == |blocklengths| && forall i :: 0 <= i < |blocklengths| ==>
      r.value.entries[i] == Entry(displacements[i], Word(blocklengths[i] * types[i].Len()))
    ensures r.Some? ==> Request(blocklengths, displacements, Lens(types)).Built(r.value)
  {
    var q := Request(blocklengths, displacements, Lens(types));
    if !q.Accepted() || exists i :: 0 <= i < |types| && types[i].Scattered? { return None; }
    var v := q.Fill();
    return Some(v);
  }

  function Lens(types: seq<Layout>): seq<nat> { seq(|types|, i requires 0 <= i < |types| => types[i].Len()) }

  // ---------- when the arithmetic means what was asked ----------

  function Asked(q: Request, n: nat): int
    requires |q.blocklengths| == |q.lens| && n <= |q.lens|
  {
    if n == 0 then 0 else Asked(q, n - 1) + q.Bytes(n - 1)
  }

  /** Every block has the length asked for and ends inside the stride, and the type's length is their sum. */
  ghost predicate Faithful(q: Request, v: Vector)
    requires q.Valid() && |v.entries| == |q.lens|
  {
    && (forall i :: 0 <= i < |q.lens| ==>
          v.entries[i].len == q.Bytes(i) && v.entries[i].dis + v.entries[i].len <= v.stride)
    && v.len == Asked(q, |q.lens|)
  }

  /** No block is negative or ends past the signed range, and the lengths add up below 2^64. */
  ghost predicate Representable(q: Request)
    requires q.Valid()
  {
    && (forall i :: 0 <= i < |q.lens| ==> 0 <= q.Bytes(i) && q.displacements[i] + q.Bytes(i) < HALF)
    && Asked(q, |q.lens|) < WORD
  }

  lemma {:induction false} ReachBounds(entries: seq<Entry>, i: nat)
    requires i < |entries|
    ensures Signed(entries[i].dis + entries[i].len) <= Reach(entries)
  {
    if i < |entries| - 1 { ReachBounds(entries[..|entries| - 1], i); }
  }

  lemma {:induction false} SumAsked(q: Request, entries: seq<Entry>)
    requires |q.blocklengths| == |q.lens| && |entries| <= |q.lens|
    requires forall i :: 0 <= i < |entries| ==> entries[i].len == q.Bytes(i)
    ensures Sum(entries) == Asked(q, |entries|)
  {
    if entries != [] { SumAsked(q, entries[..|entries| - 1]); }
  }

  /** The reach is 0 or the end of some entry, and no entry ends beyond it. */
  lemma {:induction false} ReachAttained(entries: seq<Entry>)
    ensures Reach(entries) == 0
         || exists i :: 0 <= i < |entries| && Reach(entries) == Signed(entries[i].dis + entries[i].len)
    ensures forall i :: 0 <= i < |entries| ==> Signed(entries[i].dis + entries[i].len) <= Reach(entries)
  {
    forall i | 0 <= i < |entries| ensures Signed(entries[i].dis + entries[i].len) <= Reach(entries) {
      ReachBounds(entries, i);
    }
    if entries != [] {
      var m := |entries| - 1;
      ReachAttained(entries[..m]);
      if Reach(entries) == Reach(entries[..m]) && Reach(entries) != 0 {
        var i :| 0 <= i < m && Reach(entries) == Signed(entries[..m][i].dis + entries[..m][i].len);
        assert entries[i] == entries[..m][i];
      }
    }
  }

  /** The constructed type is the one asked for exactly when the request is representable. */
  lemma FaithfulExactly(q: Request, v: Vector)
    requires q.Valid() && q.Accepted() && q.Built(v)
    ensures Faithful(q, v) <==> Representable(q)
  {
    if Faithful(q, v) {
      SumAsked(q, v.entries);
      InRange(Asked(q, |q.lens|));
    }
    if Representable(q) {
      forall i | 0 <= i < |q.lens|
        ensures v.entries[i].len == q.Bytes(i) && v.entries[i].dis + v.entries[i].len <= v.stride
      {
        InRange(q.Bytes(i));
        InRange(q.displacements[i] + q.Bytes(i));
        ReachBounds(v.entries, i);
      }
      SumAsked(q, v.entries);
      InRange(Asked(q, |q.lens|));
    }
  }

  /** The guard lets a negative block length through: its block then reaches past the stride. */
  lemma NegativeBlock(q: Request, v: Vector)
    requires q == Request([-1], [0], [4]) && q.Valid() && q.Built(v)
    ensures q.Accepted() && v.stride == 0 && v.entries[0].len == WORD - 4 && !Faithful(q, v)
  {
    var e := v.entries[0];
    assert e == Entry(0, Word(q.Bytes(0))) && q.Bytes(0) == -4;
    assert v.entries[..0] == [];
    assert v.stride == Max(Signed(e.dis + e.len), Reach(v.entries[..0]));
  }

  /** The layout of a vector, as the copying routines walk it. */
  ghost predicate Describes(v: Vector, t: Layout) {
    && t.Scattered? && t.extent == v.stride && t.length == v.len && |t.blocks| == |v.entries|
    && forall i :: 0 <= i < |t.blocks| ==> t.blocks[i].dis == v.entries[i].dis && t.blocks[i].len == v.entries[i].len
  }

  lemma {:induction false} TotalSum(blocks: seq<Block>, entries: seq<Entry>)
    requires |blocks| == |entries| && forall i :: 0 <= i < |blocks| ==> blocks[i].len == entries[i].len
    ensures Total(blocks) == Sum(entries)
  {
    if blocks != [] { TotalSum(blocks[..|blocks| - 1], entries[..|entries| - 1]); }
  }

  /** A representable request gives a well-formed type: `count` elements stay inside count * stride bytes. */
  lemma {:induction false} Footprint(q: Request, v: Vector, t: Layout, addr: nat, count: nat, i: nat)
    requires q.Valid() && q.Accepted() && q.Built(v) && Representable(q) && Describes(v, t)
    requires i < |Stream(t, addr, count)|
    ensures WellFormed(t) && t.Len() == Asked(q, |q.lens|)
    ensures addr <= Stream(t, addr, count)[i] < addr + count * t.Stride()
  {
    FaithfulExactly(q, v);
    SumAsked(q, v.entries);
    TotalSum(t.blocks, v.entries);
    StreamWithin(t, addr, count, i);
  }

  /** What passes the staging guard stays inside a slot's 64-byte buffers. */
  lemma StagingFits(t: Layout, count: nat, i: nat)
    requires WellFormed(t) && count * t.Stride() <= MAX_IN_PLACE_LEN && i < |Stream(t, 0, count)|
    ensures Stream(t, 0, count)[i] < MAX_IN_PLACE_LEN == 64
  {
    StreamWithin(t, 0, count, i);
  }

  // ---------- derived types ----------

  /** Resizing keeps the old blocks and changes only the distance from one element to the next. */
  function Resized(t: Layout, lb: int, extent: int): Option<Layout> {
    if lb != 0 || extent < t.Stride() then None
    else if t.Contiguous? then Some(Scattered(extent, t.Len(), [Block(0, t.Len())]))
    else Some(Scattered(extent, t.Len(), t.blocks))
  }

  /** Refused are other lower bounds than 0 and extents below the old stride. */
  lemma ResizedRefuses(t: Layout, lb: int, extent: int)
    ensures Resized(t, lb, extent).None? <==> lb != 0 || extent < t.Stride()
  {
  }

  /** Elements of the type as it was, `extent` bytes apart. */
  function Spread(t: Layout, extent: nat, addr: nat, count: nat): seq<nat>
    decreases count
  {
    if count == 0 then [] else ElementAddrs(t, addr) + Spread(t, extent, addr + extent, count - 1)
  }

  lemma ResizedElement(t: Layout, extent: nat, addr: nat)
    requires t.Stride() <= extent
    ensures ElementAddrs(Resized(t, 0, extent).value, addr) == ElementAddrs(t, addr)
  {
    if t.Contiguous? {
      assert [Block(0, t.Len())][..0] == [];
      assert BlockAddrs(addr, [Block(0, t.Len())]) == BlockAddrs(addr, []) + Span(addr, t.Len());
    }
  }

  /** A resized type is as sound as the old one. */
  lemma ResizedSound(t: Layout, extent: nat)
    requires NonOverlapping(t) && t.Stride() <= extent
    ensures var r := Resized(t, 0, extent).value; NonOverlapping(r) && r.Len() == t.Len() && r.Stride() == extent
  {
    assert [Block(0, t.Len())][..0] == [];
  }

  /** Its elements are the old ones, `extent` apart. */
  lemma {:induction false} ResizedStream(t: Layout, extent: nat, r: Layout, addr: nat, count: nat)
    requires Resized(t, 0, extent) == Some(r)
    ensures Stream(r, addr, count) == Spread(t, extent, addr, count)
    decreases count
  {
    if count > 0 {
      ResizedElement(t, extent, addr);
      assert r.Stride() == extent;
      ResizedStream(t, extent, r, addr + extent, count - 1);
    }
  }

  /** The blocks of `count` elements: copied as they stand, every copy at the displacements of the first. */
  function Repeated(blocks: seq<Block>, count: nat): seq<Block> {
    if count == 0 then [] else Repeated(blocks, count - 1) + blocks
  }

  function ContiguousOf(t: Layout, count: nat): Layout {
    if t.Contiguous? then Contiguous(Word(count * t.Len()))
    else Scattered(count * t.Stride(), Word(count * t.Len()), Repeated(t.blocks, count))
  }

  /** Block b of copy k. */
  lemma {:induction false} RepeatedAt(blocks: seq<Block>, count: nat, k: nat, b: nat)
    requires k < count && b < |blocks|
    ensures |Repeated(blocks, count)| == count * |blocks|
    ensures 0 <= k * |blocks| + b < count * |blocks| && Repeated(blocks, count)[k * |blocks| + b] == blocks[b]
  {
    assert count * |blocks| == (count - 1) * |blocks| + |blocks|;
    if k < count - 1 {
      RepeatedAt(blocks, count - 1, k, b);
    } else {
      RepeatedLength(blocks, count - 1);
    }
  }

  lemma {:induction false} RepeatedLength(blocks: seq<Block>, count: nat)
    ensures |Repeated(blocks, count)| == count * |blocks|
  {
    if count > 0 {
      RepeatedLength(blocks, count - 1);
      assert count * |blocks| == (count - 1) * |blocks| + |blocks|;
    }
  }

  /** Extent and length of the derived type, and its blocks: block b of every copy is the old block b. */
  lemma ContiguousShape(t: Layout, count: nat, k: nat, b: nat)
    ensures ContiguousOf(t, count).Len() == count * t.Len() % 0x1_0000_0000_0000_0000
    ensures ContiguousOf(t, count).Scattered? <==> t.Scattered?
    ensures t.Scattered? ==>
      ContiguousOf(t, count).extent == count * t.extent && |ContiguousOf(t, count).blocks| == count * |t.blocks|
    ensures t.Scattered? && k < count && b < |t.blocks| ==>
      0 <= k * |t.blocks| + b < count * |t.blocks| && ContiguousOf(t, count).blocks[k * |t.blocks| + b] == t.blocks[b]
  {
    if t.Scattered? {
      RepeatedLength(t.blocks, count);
      if k < count && b < |t.blocks| { RepeatedAt(t.blocks, count, k, b); }
    }
  }

  method TypeContiguous(t: Layout, count: nat) returns (r: Layout)
    ensures r == ContiguousOf(t, count)
  {
    if t.Contiguous? { return Contiguous(Word(count * t.Len())); }
    var blocks := [];
    for i := 0 to count
      invariant blocks == Repeated(t.blocks, i)
    {
      blocks := blocks + t.blocks;
    }
    r := Scattered(count * t.Stride(), Word(count * t.Len()), blocks);
  }

  lemma {:induction false} RepeatedMember(blocks: seq<Block>, count: nat, b: nat)
    requires b < |Repeated(blocks, count)|
    ensures Repeated(blocks, count)[b] in blocks
  {
    if b < |Repeated(blocks, count - 1)| { RepeatedMember(blocks, count - 1, b); }
  }

  /** Every address of the repeated blocks lies in the first element. */
  lemma RepeatedWithin(t: Layout, addr: nat, count: nat, i: nat)
    requires t.Scattered? && WellFormed(t) && i < |BlockAddrs(addr, Repeated(t.blocks, count))|
    ensures BlockAddrs(addr, Repeated(t.blocks, count))[i] < addr + t.extent
  {
    var r := Repeated(t.blocks, count);
    forall b | 0 <= b < |r| ensures r[b].dis + r[b].len <= t.extent { RepeatedMember(t.blocks, count, b); }
    BlockAddrsWithin(addr, r, t.extent, i);
  }

  lemma OneRepeat(t: Layout, addr: nat, count: nat)
    requires t.Scattered? && count <= 1
    ensures BlockAddrs(addr, Repeated(t.blocks, count)) == Stream(t, addr, count)
  {
    if count == 1 {
      assert Repeated(t.blocks, 0) + t.blocks == t.blocks;
      assert Stream(t, addr + t.extent, 0) == [];
    }
  }

  lemma {:induction false} TotalAppend(a: seq<Block>, b: seq<Block>)
    ensures Total(a + b) == Total(a) + Total(b)
  {
    if b == [] {
      assert a + b == a;
    } else {
      TotalAppend(a, b[..|b| - 1]);
      assert (a + b)[..|a + b| - 1] == a + b[..|b| - 1];
    }
  }

  lemma {:induction false} NoBytes(blocks: seq<Block>, count: nat)
    requires Total(blocks) == 0
    ensures Total(Repeated(blocks, count)) == 0
  {
    if count > 0 {
      NoBytes(blocks, count - 1);
      TotalAppend(Repeated(blocks, count - 1), blocks);
    }
  }

  /** A contiguous type repeated: one range, unless its length wraps around. */
  lemma RepeatedRange(t: Layout, count: nat, addr: nat)
    requires t.Contiguous?
    ensures ElementAddrs(ContiguousOf(t, count), addr) == Stream(t, addr, count) <==> count * t.Len() < WORD
  {
    ContiguousStream(t, addr, count);
    InRange(count * t.Len());
    assert |Span(addr, Word(count * t.Len()))| == Word(count * t.Len());
  }

  /**
    One element of the derived type is `count` elements of the old one exactly when the old type is
    contiguous and the length does not wrap, or it is scattered and there is at most one element or no
    byte at all: the blocks of a scattered type are copied without being moved along by the stride.
   */
  lemma {:induction false} ContiguousExactly(t: Layout, count: nat, addr: nat)
    requires WellFormed(t)
    ensures ElementAddrs(ContiguousOf(t, count), addr) == Stream(t, addr, count)
        <==> if t.Contiguous? then count * t.Len() < WORD else count <= 1 || t.Len() == 0
  {
    if t.Contiguous? {
      RepeatedRange(t, count, addr);
    } else if count <= 1 {
      OneRepeat(t, addr, count);
    } else if t.Len() == 0 {
      BlockAddrsLength(addr, Repeated(t.blocks, count));
      NoBytes(t.blocks, count);
      StreamFold(t, addr, count);
      FoldIsProduct(count, 0);
    } else {
      SecondElement(t, addr, count);
      var w, i := Stream(t, addr, count), t.Len();
      if BlockAddrs(addr, Repeated(t.blocks, count)) == w { RepeatedWithin(t, addr, count, i); }
    }
  }

  lemma SecondElement(t: Layout, addr: nat, count: nat)
    requires WellFormed(t) && t.Len() > 0 && count >= 2
    ensures t.Len() < |Stream(t, addr, count)| && Stream(t, addr, count)[t.Len()] >= addr + t.Stride()
  {
    var next := addr + t.Stride();
    var head, tail := ElementAddrs(t, addr), Stream(t, next, count - 1);
    ElementLength(t, addr);
    ElementLength(t, next);
    assert tail == ElementAddrs(t, next) + Stream(t, next + t.Stride(), count - 2);
    StreamWithinFold(t, next, count - 1, 0);
    assert Stream(t, addr, count) == head + tail;
  }

  const ONE_IN_TWO := Scattered(2, 1, [Block(0, 1)])

  lemma OneByte(addr: nat)
    ensures ONE_IN_TWO.blocks == [Block(0, 1)] && BlockAddrs(addr, ONE_IN_TWO.blocks) == [addr]
  {
    assert ONE_IN_TWO.blocks[..0] == [];
    assert BlockAddrs(addr, ONE_IN_TWO.blocks) == BlockAddrs(addr, []) + Span(addr, 1);
  }

  lemma ByteTwice(addr: nat)
    ensures Repeated(ONE_IN_TWO.blocks, 2) == [Block(0, 1), Block(0, 1)]
    ensures BlockAddrs(addr, Repeated(ONE_IN_TWO.blocks, 2)) == [addr, addr]
  {
    var b := ONE_IN_TWO.blocks;
    OneByte(addr);
    assert Repeated(b, 1) == b;
    assert Repeated(b, 2) == b + b == [Block(0, 1), Block(0, 1)];
    assert (b + b)[..1] == b;
  }

  /** Two elements of one byte in every second: the derived type covers the first byte twice. */
  lemma ContiguousMisplaces(addr: nat)
    ensures WellFormed(ONE_IN_TWO) && ElementAddrs(ContiguousOf(ONE_IN_TWO, 2), addr) == [addr, addr]
    ensures Stream(ONE_IN_TWO, addr, 2) == [addr, addr + 2]
  {
    ByteTwice(addr);
    OneByte(addr);
    OneByte(addr + 2);
    OneElement(ONE_IN_TWO, addr + 2);
    assert ONE_IN_TWO.blocks[..0] == [];
  }
}
