/**
  Moving typed data: scatter/gather lists of byte ranges, the kernel's cross-memory copy, and the
  three routines that build such lists from datatypes.
 */
module TypedCopy {
  import opened Basics
  import opened Layouts

  type Byte = b: int | 0 <= b < 256

  /** A `struct iovec`: `len` bytes from `addr` on. */
  datatype Range = Range(addr: nat, len: nat)

  function Addrs(iov: seq<Range>): seq<nat> {
    if iov == [] then [] else Addrs(iov[..|iov| - 1]) + Span(iov[|iov| - 1].addr, iov[|iov| - 1].len)
  }

  /** A list's addresses are those of its ranges, in the order of the list. */
  lemma {:induction false} AddrsAt(iov: seq<Range>, i: nat, j: nat)
    requires i < |iov| && j < iov[i].len
    ensures |Addrs(iov[..i])| + j < |Addrs(iov)| && Addrs(iov)[|Addrs(iov[..i])| + j] == iov[i].addr + j
  {
    var m := |iov| - 1;
    if i < m {
      AddrsAt(iov[..m], i, j);
      assert iov[..m][..i] == iov[..i];
    }
  }

  // ---------- the kernel's copy ----------

  ghost predicate Within(at: seq<nat>, mem: seq<Byte>) {
    forall i :: 0 <= i < |at| ==> at[i] < |mem|
  }

  function Gather(mem: seq<Byte>, at: seq<nat>): (vals: seq<Byte>)
    requires Within(at, mem)
    ensures |vals| == |at| && forall i :: 0 <= i < |at| ==> vals[i] == mem[at[i]]
  {
    seq(|at|, i requires 0 <= i < |at| => mem[at[i]])
  }

  /** Store the values at the addresses, one after the other. */
  function Store(mem: seq<Byte>, at: seq<nat>, vals: seq<Byte>): (after: seq<Byte>)
    requires |at| == |vals| && Within(at, mem)
    ensures |after| == |mem|
  {
    if at == [] then mem else
    var m := |at| - 1;
    Store(mem, at[..m], vals[..m])[at[m] := vals[m]]
  }

  /** What the n bytes read at `from` become once stored at `to`. */
  function Deliver(src: seq<Byte>, from: seq<nat>, dst: seq<Byte>, to: seq<nat>, n: nat): (after: seq<Byte>)
    requires n <= |from| && n <= |to| && Within(from[..n], src) && Within(to[..n], dst)
    ensures |after| == |dst|
  {
    Store(dst, to[..n], Gather(src, from[..n]))
  }

  /** The bytes read back at the destination are those of the source; every other byte is as before. */
  lemma {:induction false} StoreReads(mem: seq<Byte>, at: seq<nat>, vals: seq<Byte>)
    requires |at| == |vals| && Within(at, mem) && NoDup(at)
    ensures Gather(Store(mem, at, vals), at) == vals
    ensures forall a: nat :: a < |mem| && a !in at ==> Store(mem, at, vals)[a] == mem[a]
  {
    if at != [] {
      var m := |at| - 1;
      StoreReads(mem, at[..m], vals[..m]);
      var head := Store(mem, at[..m], vals[..m]);
      var after := Store(mem, at, vals);
      forall i | 0 <= i < |at| ensures after[at[i]] == vals[i] {
        if i < m { assert Gather(head, at[..m])[i] == vals[..m][i]; }
      }
      forall a: nat | a < |mem| && a !in at ensures after[a] == mem[a] {
        assert at[m] in at;
        assert a !in at[..m];
      }
    }
  }

  // ---------- copying between processes ----------

  class Memory {
    var bytes: seq<Byte>

    constructor (bytes: seq<Byte>)
      ensures this.bytes == bytes
    {
      this.bytes := bytes;
    }
  }

  /** The address lists a copy may use: inside the memories, and disjoint within one memory. */
  ghost predicate Copyable(src: Memory, from: seq<nat>, dst: Memory, to: seq<nat>)
    reads src, dst
  {
    && Within(from, src.bytes) && Within(to, dst.bytes)
    && (src == dst ==> forall i, j :: 0 <= i < |from| && 0 <= j < |to| ==> from[i] != to[j])
  }

  /**
    `process_vm_readv` and `process_vm_writev`, taken as given: bytes move in the order of the two
    lists until the shorter one is used up; the result is how many moved.
   */
  method VmCopy(src: Memory, from: seq<Range>, dst: Memory, to: seq<Range>) returns (n: nat)
    requires Copyable(src, Addrs(from), dst, Addrs(to))
    modifies dst
    ensures n == Min(|Addrs(from)|, |Addrs(to)|)
    ensures dst.bytes == Deliver(old(src.bytes), Addrs(from), old(dst.bytes), Addrs(to), n)
  {
    n := Min(|Addrs(from)|, |Addrs(to)|);
    dst.bytes := Deliver(src.bytes, Addrs(from), dst.bytes, Addrs(to), n);
  }

  /** One element's ranges: the inner loop over the blocks. */
  method AppendElement(t: Layout, addr: nat, iov: seq<Range>) returns (longer: seq<Range>)
    requires t.Scattered?
    ensures Addrs(longer) == Addrs(iov) + ElementAddrs(t, addr)
  {
    longer := iov;
    var b := 0;
    while b < |t.blocks|
      invariant 0 <= b <= |t.blocks|
      invariant Addrs(longer) == Addrs(iov) + BlockAddrs(addr, t.blocks[..b])
    {
      var next := longer + [Range(addr + t.blocks[b].dis, t.blocks[b].len)];
      assert next[..|longer|] == longer;
      assert t.blocks[..b + 1][..b] == t.blocks[..b];
      longer := next;
      b := b + 1;
    }
    assert t.blocks[..b] == t.blocks;
  }

  /** Element j lies j - first strides after element `first`. */
  lemma {:induction false} AddressFrom(t: Layout, buf: nat, first: nat, j: nat)
    requires first <= j
    ensures Address(t, Address(t, buf, first), j - first) == Address(t, buf, j)
  {
    if first > 0 { AddressFrom(t, buf, first - 1, j - 1); }
  }

  lemma OneMore(t: Layout, at: nat, k: nat)
    ensures Stream(t, at, k + 1) == Stream(t, at, k) + ElementAddrs(t, Address(t, at, k))
  {
    StreamSplitFold(t, at, k, 1);
    OneElement(t, Address(t, at, k));
  }

  lemma NextElement(t: Layout, buf: nat, first: nat, j: nat)
    requires first <= j
    ensures Stream(t, Address(t, buf, first), j + 1 - first)
         == Stream(t, Address(t, buf, first), j - first) + ElementAddrs(t, Address(t, buf, j))
  {
    OneMore(t, Address(t, buf, first), j - first);
    AddressFrom(t, buf, first, j);
  }

  /** One range holds the first `bytes` addresses of a contiguous buffer. */
  lemma OneRange(t: Layout, addr: nat, count: nat, bytes: nat)
    requires t.Contiguous? && bytes <= |Stream(t, addr, count)|
    ensures Addrs([Range(addr, bytes)]) == Span(addr, bytes) <= Stream(t, addr, count)
  {
    ContiguousFold(t, addr, count);
    assert [Range(addr, bytes)][..0] == [];
  }

  /** The ranges of element j of a buffer. */
  method AppendNumbered(t: Layout, buf: nat, j: nat, iov: seq<Range>) returns (longer: seq<Range>)
    requires t.Scattered?
    ensures Addrs(longer) == Addrs(iov) + ElementAddrs(t, Address(t, buf, j))
  {
    AddressIs(t, buf, j);
    longer := AppendElement(t, buf + j * t.Stride(), iov);
  }

  /** The ranges of a scattered buffer's elements `first` up to `end`, block by block. */
  method ScatteredIov(t: Layout, buf: nat, first: nat, end: nat) returns (iov: seq<Range>)
    requires t.Scattered? && first <= end
    ensures Addrs(iov) == Stream(t, Address(t, buf, first), end - first)
  {
    iov := [];
    for j := first to end
      invariant Addrs(iov) == Stream(t, Address(t, buf, first), j - first)
    {
      NextElement(t, buf, first, j);
      iov := AppendNumbered(t, buf, j, iov);
    }
  }

  /**
    The list for elements `first` up to `end` of a buffer: all their blocks when the type is
    scattered, one range of `bytes` bytes when it is contiguous.
   */
  method BuildIov(t: Layout, buf: nat, first: nat, end: nat, bytes: nat) returns (iov: seq<Range>)
    requires first <= end
    requires bytes <= |Stream(t, Address(t, buf, first), end - first)|
    ensures Addrs(iov) <= Stream(t, Address(t, buf, first), end - first)
    ensures if t.Contiguous? then |Addrs(iov)| == bytes
            else Addrs(iov) == Stream(t, Address(t, buf, first), end - first)
  {
    if t.Contiguous? {
      AddressIs(t, buf, first);
      OneRange(t, Address(t, buf, first), end - first, bytes);
      iov := [Range(buf + first * t.Len(), bytes)];
    } else {
      iov := ScatteredIov(t, buf, first, end);
    }
  }
}
