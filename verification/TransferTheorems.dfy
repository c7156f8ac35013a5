/**
  What a typed copy means for the two buffers read as byte streams, and when a point-to-point
  message has the same outcome whichever side comes first.
 */
module TransferTheorems {
  import opened Basics
  import opened Layouts
  import opened TypedCopy
  import opened Transfers

  lemma SliceNoDup(w: seq<nat>, lo: nat, hi: nat)
    requires NoDup(w) && lo <= hi <= |w|
    ensures NoDup(w[lo..hi])
  {
  }

  lemma OffStretch(w: seq<nat>, lo: nat, hi: nat, i: nat)
    requires NoDup(w) && lo <= hi <= |w| && i < |w| && !(lo <= i < hi)
    ensures w[i] !in w[lo..hi]
  {
    forall k | 0 <= k < hi - lo ensures w[lo..hi][k] != w[i] {
      assert w[lo..hi][k] == w[lo + k];
    }
  }

  /**
    Read as byte streams, the bytes of `to` from offset o on are replaced by those of `from` from
    offset i on; addresses outside `to` keep their values.
   */
  ghost predicate StreamsJoined(src: seq<Byte>, from: seq<nat>, i: nat, dst: seq<Byte>, to: seq<nat>, o: nat,
                                total: nat, after: seq<Byte>)
  {
    && i + total <= |from| && o + total <= |to| && |after| == |dst|
    && Within(from, src) && Within(to, dst)
    && Gather(after, to) == Gather(dst, to)[..o] + Gather(src, from)[i..i + total] + Gather(dst, to)[o + total..]
    && forall a: nat :: a < |dst| && a !in to ==> after[a] == dst[a]
  }

  lemma StretchRead(mem: seq<Byte>, to: seq<nat>, o: nat, vals: seq<Byte>, k: nat)
    requires NoDup(to) && Within(to, mem) && o + |vals| <= |to| && k < |to|
    ensures Within(to[o..o + |vals|], mem)
    ensures Store(mem, to[o..o + |vals|], vals)[to[k]] == if o <= k < o + |vals| then vals[k - o] else mem[to[k]]
  {
    var at := to[o..o + |vals|];
    SliceNoDup(to, o, o + |vals|);
    StoreReads(mem, at, vals);
    if o <= k < o + |vals| {
      assert Gather(Store(mem, at, vals), at)[k - o] == vals[k - o];
    } else {
      OffStretch(to, o, o + |vals|, k);
    }
  }

  lemma StretchKeeps(mem: seq<Byte>, to: seq<nat>, o: nat, vals: seq<Byte>, a: nat)
    requires NoDup(to) && Within(to, mem) && o + |vals| <= |to| && a < |mem| && a !in to
    ensures Within(to[o..o + |vals|], mem) && Store(mem, to[o..o + |vals|], vals)[a] == mem[a]
  {
    SliceNoDup(to, o, o + |vals|);
    StoreReads(mem, to[o..o + |vals|], vals);
  }

  lemma StretchStored(mem: seq<Byte>, to: seq<nat>, o: nat, vals: seq<Byte>)
    requires NoDup(to) && Within(to, mem) && o + |vals| <= |to|
    ensures Within(to[o..o + |vals|], mem)
    ensures Gather(Store(mem, to[o..o + |vals|], vals), to)
         == Gather(mem, to)[..o] + vals + Gather(mem, to)[o + |vals|..]
  {
    var after := Store(mem, to[o..o + |vals|], vals);
    forall k | 0 <= k < |to|
      ensures Gather(after, to)[k] == if o <= k < o + |vals| then vals[k - o] else Gather(mem, to)[k]
    {
      StretchRead(mem, to, o, vals, k);
    }
  }

  lemma Stretches(src: seq<Byte>, from: seq<nat>, i: nat, to: seq<nat>, o: nat, total: nat)
    requires i + total <= |from| && o + total <= |to| && Within(from, src)
    ensures from[i..][..total] == from[i..i + total] && to[o..][..total] == to[o..o + total]
    ensures Within(from[i..i + total], src)
    ensures Gather(src, from[i..i + total]) == Gather(src, from)[i..i + total]
  {
  }

  lemma StretchMoved(src: seq<Byte>, from: seq<nat>, i: nat, dst: seq<Byte>, to: seq<nat>, o: nat,
                     total: nat, after: seq<Byte>)
    requires i <= |from| && o <= |to| && Within(from, src) && Within(to, dst) && NoDup(to)
    requires Poured(src, from[i..], dst, to[o..], total, after)
    ensures StreamsJoined(src, from, i, dst, to, o, total, after)
  {
    Stretches(src, from, i, to, o, total);
    var vals := Gather(src, from)[i..i + total];
    StretchStored(dst, to, o, vals);
    forall a: nat | a < |dst| && a !in to ensures after[a] == dst[a] {
      StretchKeeps(dst, to, o, vals, a);
    }
  }

  lemma ElementsSuffix(t: Layout, buf: nat, first: nat, end: nat, o: nat)
    requires WellFormed(t) && first <= end && o == first * t.Len()
    ensures o <= |Stream(t, buf, end)| && Elements(t, buf, first, end) == Stream(t, buf, end)[o..]
  {
    StreamFromElement(t, buf, end, first, o);
  }

  /**
    A typed copy joins the two byte streams: the destination's from element `seek` on (byte offset o),
    the source's from element `skip` on (byte offset i). Bytes that no block covers keep their values.
   */
  lemma {:induction false} CopyJoinsStreams(src: seq<Byte>, st: Layout, sbuf: nat, skip: nat, send: nat, i: nat,
                         dst: seq<Byte>, dt: Layout, dbuf: nat, seek: nat, size: nat, o: nat,
                         total: nat, after: seq<Byte>)
    requires WellFormed(st) && skip <= send && i == skip * st.Len()
    requires NonOverlapping(dt) && seek <= size && o == seek * dt.Len()
    requires Within(Stream(st, sbuf, send), src) && Within(Stream(dt, dbuf, size), dst)
    requires Poured(src, Elements(st, sbuf, skip, send), dst, Elements(dt, dbuf, seek, size), total, after)
    ensures StreamsJoined(src, Stream(st, sbuf, send), i, dst, Stream(dt, dbuf, size), o, total, after)
  {
    ElementsSuffix(st, sbuf, skip, send, i);
    ElementsSuffix(dt, dbuf, seek, size, o);
    StreamNoDup(dt, dbuf, size);
    StretchMoved(src, Stream(st, sbuf, send), i, dst, Stream(dt, dbuf, size), o, total, after);
  }
}
