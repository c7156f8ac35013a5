/**
  The three copying routines of the library: into the owner of a cookie, out of it, and within one
  process; what they do to the byte streams of the two buffers, and when a point-to-point message
  has the same outcome whichever side comes first.
 */
module Transfers {
  import opened Basics
  import opened Layouts
  import opened TypedCopy

  ghost predicate Sound(t: Layout) { WellFormed(t) && t.Len() > 0 }

  // ---------- arithmetic ----------

  lemma Product(k: nat, n: nat, m: nat)
    requires n > 0
    ensures k * n <= m * n <==> k <= m
    ensures k * n == m * n <==> k == m
  {
    if k < m { assert m * n == k * n + (m - k) * n; }
    if m < k { assert k * n == m * n + (k - m) * n; }
  }

  lemma Quotient(total: nat, len: nat)
    requires len > 0
    ensures total / len * len <= total < (total / len + 1) * len
    ensures total / len * len == WholeElements(total, len)
  {
    assert (total / len + 1) * len == total / len * len + len;
  }

  /** The bytes of the whole elements in a message. */
  function WholeElements(bytes: nat, len: nat): (r: nat)
    requires len > 0
    ensures r <= bytes
  {
    bytes - bytes % len
  }

  /** The elements of a buffer of `count` that `bytes` bytes fill. */
  function Filled(count: nat, bytes: nat, len: nat): nat
    requires len > 0
  {
    Min(count, bytes / len)
  }

  /** A count stays when the bytes reach past it, and otherwise drops to the whole elements in the bytes. */
  lemma FilledExactly(count: nat, len: nat, bytes: nat)
    requires len > 0
    ensures var after := Filled(count, bytes, len);
      if count * len < bytes then after == count else after * len <= bytes < (after + 1) * len
    ensures Filled(count, bytes, len) == if count * len < bytes then count else bytes / len
  {
    Quotient(bytes, len);
    if count * len < bytes {
      if bytes / len < count { Product(bytes / len + 1, len, count); }
    } else if count < bytes / len {
      Product(bytes / len, len, count);
    }
  }

  // ---------- the routines ----------

  /** Lists that hold the first addresses of two streams deliver the same bytes as the streams. */
  lemma ListsSuffice(src: Memory, from: seq<nat>, list: seq<nat>, dst: Memory, to: seq<nat>, list': seq<nat>, n: nat)
    requires Copyable(src, from, dst, to) && list <= from && list' <= to
    requires n == Min(|list|, |list'|)
    ensures Copyable(src, list, dst, list')
    ensures Deliver(src.bytes, list, dst.bytes, list', n) == Deliver(src.bytes, from, dst.bytes, to, n)
  {
    assert list == from[..|list|] && list' == to[..|list'|];
    assert list[..n] == from[..n] && list'[..n] == to[..n];
  }

  /** The byte stream of a buffer's elements `first` up to `end`. */
  ghost function Elements(t: Layout, buf: nat, first: nat, end: nat): seq<nat>
    requires first <= end
  {
    Stream(t, Address(t, buf, first), end - first)
  }

  lemma ElementsLength(t: Layout, buf: nat, first: nat, end: nat)
    requires first <= end && WellFormed(t)
    ensures |Elements(t, buf, first, end)| == (end - first) * t.Len()
  {
    StreamLength(t, Address(t, buf, first), end - first);
  }

  /** The size check: `total` bytes fit from element k on. */
  lemma Room(t: Layout, buf: nat, k: nat, size: nat, total: nat)
    requires Sound(t)
    ensures k * t.Len() + total <= size * t.Len() <==> k <= size && total <= |Elements(t, buf, k, size)|
  {
    Product(k, t.Len(), size);
    if k <= size {
      ElementsLength(t, buf, k, size);
      assert size * t.Len() == k * t.Len() + (size - k) * t.Len();
    }
  }

  method HasRoom(t: Layout, ghost buf: nat, k: nat, size: nat, total: nat) returns (fits: bool)
    requires Sound(t)
    ensures fits <==> k <= size && total <= |Elements(t, buf, k, size)|
  {
    Room(t, buf, k, size, total);
    fits := !(size * t.Len() < k * t.Len() + total);
  }

  lemma RangeOf(t: Layout, buf: nat, first: nat, end: nat, bytes: nat, addr: nat)
    requires first <= end && t.Contiguous? && bytes <= |Elements(t, buf, first, end)| && addr == buf + first * t.Len()
    ensures Span(addr, bytes) <= Elements(t, buf, first, end)
  {
    AddressIs(t, buf, first);
    OneRange(t, addr, end - first, bytes);
  }

  lemma StreamPrefix(t: Layout, at: nat, a: nat, b: nat)
    requires a <= b
    ensures Stream(t, at, a) <= Stream(t, at, b)
  {
    StreamSplitFold(t, at, a, b - a);
  }

  lemma ElementsPrefix(t: Layout, buf: nat, first: nat, mid: nat, end: nat)
    requires first <= mid <= end
    ensures Elements(t, buf, first, mid) <= Elements(t, buf, first, end)
  {
    StreamPrefix(t, Address(t, buf, first), mid - first, end - first);
  }

  /** `total` bytes of the one stream are stored at the other, and nothing else changes. */
  ghost predicate Poured(src: seq<Byte>, from: seq<nat>, dst: seq<Byte>, to: seq<nat>, total: nat, after: seq<Byte>) {
    && total <= |from| && total <= |to| && Within(from, src) && Within(to, dst)
    && after == Deliver(src, from, dst, to, total)
  }

  /** Fill both lists and hand them to the kernel. */
  method Pour(src: Memory, st: Layout, sbuf: nat, sfirst: nat, send: nat,
              dst: Memory, dt: Layout, dbuf: nat, dfirst: nat, dend: nat, total: nat) returns (moved: nat)
    requires sfirst <= send && dfirst <= dend
    requires Copyable(src, Elements(st, sbuf, sfirst, send), dst, Elements(dt, dbuf, dfirst, dend))
    requires total == Min(|Elements(st, sbuf, sfirst, send)|, |Elements(dt, dbuf, dfirst, dend)|)
    modifies dst
    ensures moved == total
    ensures Poured(old(src.bytes), Elements(st, sbuf, sfirst, send), old(dst.bytes), Elements(dt, dbuf, dfirst, dend),
                   total, dst.bytes)
  {
    ghost var from, to := Elements(st, sbuf, sfirst, send), Elements(dt, dbuf, dfirst, dend);
    var source := BuildIov(st, sbuf, sfirst, send, total);
    var target := BuildIov(dt, dbuf, dfirst, dend, total);
    ListsSuffice(src, from, Addrs(source), dst, to, Addrs(target), total);
    moved := VmCopy(src, source, dst, target);
  }

  /** The same, into the first m of the destination's elements. */
  method PourInto(src: Memory, st: Layout, sbuf: nat, sfirst: nat, send: nat,
                  dst: Memory, dt: Layout, dbuf: nat, dfirst: nat, m: nat, dend: nat, total: nat) returns (moved: nat)
    requires sfirst <= send && dfirst <= dend
    requires Copyable(src, Elements(st, sbuf, sfirst, send), dst, Elements(dt, dbuf, dfirst, dend))
    requires Elements(dt, dbuf, dfirst, dfirst + m) <= Elements(dt, dbuf, dfirst, dend)
    requires total == |Elements(dt, dbuf, dfirst, dfirst + m)| <= |Elements(st, sbuf, sfirst, send)|
    modifies dst
    ensures moved == total
    ensures Poured(old(src.bytes), Elements(st, sbuf, sfirst, send), old(dst.bytes), Elements(dt, dbuf, dfirst, dend),
                   total, dst.bytes)
  {
    ghost var from, to := Elements(st, sbuf, sfirst, send), Elements(dt, dbuf, dfirst, dend);
    ListsSuffice(src, from, from, dst, to, Elements(dt, dbuf, dfirst, dfirst + m), total);
    moved := Pour(src, st, sbuf, sfirst, send, dst, dt, dbuf, dfirst, dfirst + m, total);
  }

  /** How many elements of `len` bytes, and how many bytes in all, `bytes` bytes fill. */
  method WholeIn(bytes: nat, len: nat) returns (m: nat, total: nat)
    requires len > 0
    ensures total == m * len == WholeElements(bytes, len)
  {
    m := bytes / len;
    total := m * len;
    Quotient(bytes, len);
  }

  /** A posted buffer: what its cookie says about it, and the memory of the process that owns it. */
  class Posted {
    const owner: Memory
    const buf: nat
    const t: Layout
    const size: nat
    var count: nat

    constructor (owner: Memory, buf: nat, t: Layout, size: nat)
      ensures this.owner == owner && this.buf == buf && this.t == t && this.size == size == count
    {
      this.owner, this.buf, this.t, this.size, count := owner, buf, t, size, size;
    }

    /** Write n local elements, from element `skip` on, into the posted buffer at element `seek`. */
    method WriteToOwner(local: Memory, lbuf: nat, lt: Layout, n: nat, seek: nat, skip: nat) returns (ok: bool)
      requires Sound(t) && Sound(lt)
      requires seek <= size ==> Copyable(local, Elements(lt, lbuf, skip, skip + n), owner, Elements(t, buf, seek, size))
      modifies owner, this
      ensures ok <==> seek <= size && |Elements(lt, lbuf, skip, skip + n)| <= |Elements(t, buf, seek, size)|
      ensures !ok ==> owner.bytes == old(owner.bytes) && count == old(count)
      ensures ok ==> count == Filled(old(count), |Elements(lt, lbuf, skip, skip + n)|, t.Len())
      ensures var bytes := |Elements(lt, lbuf, skip, skip + n)|;
        ok ==> if old(count) * t.Len() < bytes then count == old(count)
               else count * t.Len() <= bytes < (count + 1) * t.Len()
      ensures ok ==> Poured(old(local.bytes), Elements(lt, lbuf, skip, skip + n), old(owner.bytes),
                            Elements(t, buf, seek, size), |Elements(lt, lbuf, skip, skip + n)|, owner.bytes)
    {
      var total := n * lt.Len();
      ElementsLength(lt, lbuf, skip, skip + n);
      ok := HasRoom(t, buf, seek, size, total);
      if !ok { return; }
      FilledExactly(count, t.Len(), total);
      count := if count * t.Len() < total then count else total / t.Len();
      var moved := Pour(local, lt, lbuf, skip, skip + n, owner, t, buf, seek, size, total);
      ok := moved == total;
    }

    /** The bytes a read moves: n local elements, or as many whole ones as remain when n is 0. */
    ghost function ReadTotal(lt: Layout, n: nat, skip: nat): nat
      requires lt.Len() > 0 && (n == 0 ==> skip <= size)
    {
      if n != 0 then n * lt.Len() else WholeElements(|Elements(t, buf, skip, size)|, lt.Len())
    }

    /** The size checks of a read, and how many local elements it fills. */
    method ReadPlan(ghost lbuf: nat, lt: Layout, lsize: nat, n: nat, seek: nat, skip: nat)
      returns (fits: bool, m: nat, total: nat)
      requires Sound(t) && Sound(lt) && (n == 0 ==> skip <= size)
      ensures total == ReadTotal(lt, n, skip)
      ensures fits <==>
        && skip <= size && total <= |Elements(t, buf, skip, size)|
        && seek <= lsize && total <= |Elements(lt, lbuf, seek, lsize)|
      ensures fits ==> |Elements(lt, lbuf, seek, seek + m)| == total
      ensures fits ==> Elements(lt, lbuf, seek, seek + m) <= Elements(lt, lbuf, seek, lsize)
    {
      m, total := ReadCount(lt, n, skip);
      fits := HasRoom(t, buf, skip, size, total);
      if !fits { return; }
      fits := HasRoom(lt, lbuf, seek, lsize, total);
      if fits { FirstElements(lt, lbuf, seek, m, lsize, total); }
    }

    method ReadCount(lt: Layout, n: nat, skip: nat) returns (m: nat, total: nat)
      requires Sound(t) && Sound(lt) && (n == 0 ==> skip <= size)
      ensures total == m * lt.Len() == ReadTotal(lt, n, skip)
    {
      if n != 0 {
        m, total := n, n * lt.Len();
      } else {
        ElementsLength(t, buf, skip, size);
        m, total := WholeIn((size - skip) * t.Len(), lt.Len());
      }
    }

    /** Read from posted element `skip` on into the local buffer at element `seek`. */
    method ReadFromOwner(local: Memory, lbuf: nat, lt: Layout, lsize: nat, n: nat, seek: nat, skip: nat)
      returns (ok: bool)
      requires Sound(t) && Sound(lt) && (n == 0 ==> skip <= size)
      requires skip <= size && seek <= lsize ==>
        Copyable(owner, Elements(t, buf, skip, size), local, Elements(lt, lbuf, seek, lsize))
      modifies local
      ensures ok <==>
        && skip <= size && ReadTotal(lt, n, skip) <= |Elements(t, buf, skip, size)|
        && seek <= lsize && ReadTotal(lt, n, skip) <= |Elements(lt, lbuf, seek, lsize)|
      ensures !ok ==> local.bytes == old(local.bytes)
      ensures ok ==> Poured(old(owner.bytes), Elements(t, buf, skip, size), old(local.bytes),
                            Elements(lt, lbuf, seek, lsize), ReadTotal(lt, n, skip), local.bytes)
    {
      var fits, m, total := ReadPlan(lbuf, lt, lsize, n, seek, skip);
      if !fits { return false; }
      var moved := PourInto(owner, t, buf, skip, size, local, lt, lbuf, seek, m, lsize, total);
      ok := moved == total;
    }
  }

  lemma FirstElements(t: Layout, buf: nat, first: nat, m: nat, end: nat, total: nat)
    requires Sound(t) && first <= end && total == m * t.Len() <= |Elements(t, buf, first, end)|
    ensures Elements(t, buf, first, first + m) <= Elements(t, buf, first, end)
    ensures |Elements(t, buf, first, first + m)| == total
  {
    ElementsLength(t, buf, first, end);
    ElementsLength(t, buf, first, first + m);
    Product(m, t.Len(), end - first);
    ElementsPrefix(t, buf, first, first + m, end);
  }

  /** The C library's `memcpy`, on ranges that do not overlap. */
  method Memcpy(mem: Memory, from: nat, to: nat, n: nat)
    requires Copyable(mem, Span(from, n), mem, Span(to, n))
    modifies mem
    ensures mem.bytes == Deliver(old(mem.bytes), Span(from, n), old(mem.bytes), Span(to, n), n)
  {
    mem.bytes := Deliver(mem.bytes, Span(from, n), mem.bytes, Span(to, n), n);
  }

  /** Both types contiguous: one `memcpy` of `total` bytes. */
  method CopyRange(mem: Memory, sbuf: nat, st: Layout, n: nat, skip: nat,
                   dbuf: nat, dt: Layout, dn: nat, seek: nat, total: nat)
    requires st.Contiguous? && dt.Contiguous?
    requires Copyable(mem, Elements(st, sbuf, skip, skip + n), mem, Elements(dt, dbuf, seek, seek + dn))
    requires total == |Elements(st, sbuf, skip, skip + n)| <= |Elements(dt, dbuf, seek, seek + dn)|
    modifies mem
    ensures Poured(old(mem.bytes), Elements(st, sbuf, skip, skip + n), old(mem.bytes),
                   Elements(dt, dbuf, seek, seek + dn), total, mem.bytes)
  {
    ghost var from, to := Elements(st, sbuf, skip, skip + n), Elements(dt, dbuf, seek, seek + dn);
    var source, target := sbuf + skip * st.Len(), dbuf + seek * dt.Len();
    RangeOf(st, sbuf, skip, skip + n, total, source);
    RangeOf(dt, dbuf, seek, seek + dn, total, target);
    ListsSuffice(mem, from, Span(source, total), mem, to, Span(target, total), total);
    Memcpy(mem, source, target, total);
  }

  /** Copy within one process; 0 is returned when the destination is too small. */
  method UmpiCopy(mem: Memory, sbuf: nat, st: Layout, n: nat, skip: nat,
                  dbuf: nat, dt: Layout, dn: nat, seek: nat) returns (copied: nat)
    requires Sound(st) && Sound(dt)
    requires |Elements(st, sbuf, skip, skip + n)| <= |Elements(dt, dbuf, seek, seek + dn)| ==>
      Copyable(mem, Elements(st, sbuf, skip, skip + n), mem, Elements(dt, dbuf, seek, seek + dn))
    modifies mem
    ensures var from, to := Elements(st, sbuf, skip, skip + n), Elements(dt, dbuf, seek, seek + dn);
      copied == if |from| <= |to| then |from| else 0
    ensures |Elements(st, sbuf, skip, skip + n)| > |Elements(dt, dbuf, seek, seek + dn)| ==> mem.bytes == old(mem.bytes)
    ensures |Elements(st, sbuf, skip, skip + n)| <= |Elements(dt, dbuf, seek, seek + dn)| ==>
      Poured(old(mem.bytes), Elements(st, sbuf, skip, skip + n), old(mem.bytes), Elements(dt, dbuf, seek, seek + dn),
             |Elements(st, sbuf, skip, skip + n)|, mem.bytes)
  {
    ElementsLength(st, sbuf, skip, skip + n);
    ElementsLength(dt, dbuf, seek, seek + dn);
    var total := n * st.Len();
    if total > dn * dt.Len() { return 0; }
    if st.Contiguous? && dt.Contiguous? {
      CopyRange(mem, sbuf, st, n, skip, dbuf, dt, dn, seek, total);
      return total;
    }
    copied := Pour(mem, st, sbuf, skip, skip + n, mem, dt, dbuf, seek, seek + dn, total);
  }

  /** A read of n elements moves their bytes, a read without a number the whole elements that remain. */
  lemma ReadMoves(p: Posted, lbuf: nat, lt: Layout, n: nat, seek: nat, skip: nat)
    requires Sound(lt) && (n == 0 ==> skip <= p.size)
    ensures n != 0 ==> p.ReadTotal(lt, n, skip) == |Elements(lt, lbuf, seek, seek + n)|
    ensures n == 0 ==> p.ReadTotal(lt, n, skip) == |Elements(p.t, p.buf, skip, p.size)| / lt.Len() * lt.Len()
  {
    if n != 0 { ElementsLength(lt, lbuf, seek, seek + n); }
    else { Quotient(|Elements(p.t, p.buf, skip, p.size)|, lt.Len()); }
  }
}
