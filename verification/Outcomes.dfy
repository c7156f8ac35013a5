/**
  The outcome of a point-to-point message: what its receiver is told and what its memory holds, when
  the send comes first and when the receive does.
 */
module Outcomes {
  import opened Basics
  import opened Layouts
  import opened Matching
  import opened Processes
  import opened TypedCopy
  import opened Transfers

  datatype Status = Status(envelope: Envelope, len: nat)

  /** The receiver's call returns an error or not, a status or none, and leaves this in its memory. */
  datatype Outcome = Outcome(failed: bool, status: Option<Status>, memory: seq<Byte>)

  /**
    The receiver reads whole elements of its own type. The status is that of the message's cookie: its
    label, and everything that was sent. A read that does not fit fails the call that posts the receive,
    before any wait, so that there is no status.
   */
  ghost function SentFirst(envelope: Envelope, src: seq<Byte>, from: seq<nat>, dst: seq<Byte>, to: seq<nat>,
          rlen: nat): Outcome
    requires rlen > 0 && Within(from, src) && Within(to, dst)
  {
    var moved := WholeElements(|from|, rlen);
    if |to| < moved then Outcome(true, None, dst)
    else Outcome(false, Some(Status(envelope, |from|)), Deliver(src, from, dst, to, moved))
  }

  /**
    The sender writes every byte. The status is that of the receive's cookie: the label the sender put
    there, and the whole elements of the receiver's type. A write that does not fit leaves the cookie's
    count as the receiver posted it, and the receiver's wait reports that with the error.
   */
  ghost function PostedFirst(envelope: Envelope, src: seq<Byte>, from: seq<nat>, dst: seq<Byte>, to: seq<nat>,
          rlen: nat): Outcome
    requires rlen > 0 && Within(from, src) && Within(to, dst)
  {
    if |to| < |from| then Outcome(true, Some(Status(envelope, |to|)), dst)
    else Outcome(false, Some(Status(envelope, WholeElements(|from|, rlen))), Deliver(src, from, dst, to, |from|))
  }

  /**
    Error, status and memory do not depend on who comes first exactly when the message is a whole number of
    the receiver's elements and fits.
   */
  lemma OutcomeIndependent(envelope: Envelope, src: seq<Byte>, from: seq<nat>, dst: seq<Byte>, to: seq<nat>, rlen: nat)
    requires rlen > 0 && Within(from, src) && Within(to, dst)
    ensures SentFirst(envelope, src, from, dst, to, rlen) == PostedFirst(envelope, src, from, dst, to, rlen)
        <==> |from| % rlen == 0 && |from| <= |to|
  {
    Quotient(|from|, rlen);
  }

  /** Five bytes into elements of four: one order moves four bytes and reports five, the other the reverse. */
  lemma OrderShows(envelope: Envelope, src: seq<Byte>, dst: seq<Byte>)
    requires |src| == 5 && |dst| == 8
    ensures Within(Span(0, 5), src) && Within(Span(0, 8), dst)
    ensures SentFirst(envelope, src, Span(0, 5), dst, Span(0, 8), 4)
         == Outcome(false, Some(Status(envelope, 5)), src[..4] + dst[4..])
    ensures PostedFirst(envelope, src, Span(0, 5), dst, Span(0, 8), 4)
         == Outcome(false, Some(Status(envelope, 4)), src + dst[5..])
  {
    SpanStored(src, dst, 4);
    SpanStored(src, dst, 5);
  }

  /** Eight bytes into room for one element of four: both orders fail, one of them with a status of four bytes. */
  lemma TruncationShows(envelope: Envelope, src: seq<Byte>, dst: seq<Byte>)
    requires |src| == 8 && |dst| == 4
    ensures Within(Span(0, 8), src) && Within(Span(0, 4), dst)
    ensures SentFirst(envelope, src, Span(0, 8), dst, Span(0, 4), 4) == Outcome(true, None, dst)
    ensures PostedFirst(envelope, src, Span(0, 8), dst, Span(0, 4), 4)
         == Outcome(true, Some(Status(envelope, 4)), dst)
  {
    Quotient(8, 4);
  }

  lemma SpanStored(src: seq<Byte>, dst: seq<Byte>, n: nat)
    requires n <= |src| <= |dst|
    ensures Within(Span(0, |src|), src) && Within(Span(0, |dst|), dst)
    ensures Deliver(src, Span(0, |src|), dst, Span(0, |dst|), n) == src[..n] + dst[n..]
  {
    var to := Span(0, |dst|)[..n];
    var vals := Gather(src, Span(0, |src|)[..n]);
    var after := Store(dst, to, vals);
    StoreReads(dst, to, vals);
    forall a | 0 <= a < |dst| ensures after[a] == (src[..n] + dst[n..])[a] {
      if a < n { assert Gather(after, to)[a] == vals[a]; assert to[a] == a; }
    }
  }

  /** A write that fits leaves the whole elements it filled in `count_`. */
  lemma StatusAfter(size: nat, len: nat, total: nat, count: nat)
    requires len > 0 && total <= size * len && count == Filled(size, total, len)
    ensures count * len == WholeElements(total, len)
  {
    Quotient(total, len);
    if size < total / len { Product(total / len, len, size); }
  }

  /** The status length after a write of `total` bytes into a whole posted buffer. */
  method StatusLength(receive: Posted, ghost total: nat) returns (len: nat)
    requires Sound(receive.t) && total <= |Stream(receive.t, receive.buf, receive.size)|
    requires receive.count == Filled(receive.size, total, receive.t.Len())
    ensures len == WholeElements(total, receive.t.Len())
  {
    StreamLength(receive.t, receive.buf, receive.size);
    StatusAfter(receive.size, receive.t.Len(), total, receive.count);
    len := receive.count * receive.t.Len();
  }

  /** The status length of a cookie whose count is still the one it was posted with. */
  method SentLength(message: Posted) returns (len: nat)
    requires Sound(message.t) && message.count == message.size
    ensures len == |Stream(message.t, message.buf, message.size)|
  {
    StreamLength(message.t, message.buf, message.size);
    len := message.count * message.t.Len();
  }

  lemma WholeBuffer(t: Layout, buf: nat, count: nat)
    ensures Elements(t, buf, 0, count) == Stream(t, buf, count)
  {
  }

  /** The receiver reads: how much arrives, and whether it fits. */
  method Read(message: Posted, receiver: Memory, rbuf: nat, rt: Layout, rcount: nat) returns (ok: bool)
    requires Sound(message.t) && Sound(rt)
    requires Copyable(message.owner, Stream(message.t, message.buf, message.size), receiver, Stream(rt, rbuf, rcount))
    modifies receiver
    ensures ok <==>
      WholeElements(|Stream(message.t, message.buf, message.size)|, rt.Len()) <= |Stream(rt, rbuf, rcount)|
    ensures ok ==> Poured(old(message.owner.bytes), Stream(message.t, message.buf, message.size), old(receiver.bytes),
                          Stream(rt, rbuf, rcount),
                          WholeElements(|Stream(message.t, message.buf, message.size)|, rt.Len()), receiver.bytes)
    ensures !ok ==> receiver.bytes == old(receiver.bytes)
  {
    WholeBuffer(message.t, message.buf, message.size);
    WholeBuffer(rt, rbuf, rcount);
    Quotient(|Stream(message.t, message.buf, message.size)|, rt.Len());
    ok := message.ReadFromOwner(receiver, rbuf, rt, rcount, 0, 0, 0);
  }

  /** The sender writes: everything or nothing. */
  method Write(receive: Posted, sender: Memory, sbuf: nat, st: Layout, scount: nat) returns (ok: bool)
    requires Sound(receive.t) && Sound(st) && receive.count == receive.size
    requires Copyable(sender, Stream(st, sbuf, scount), receive.owner, Stream(receive.t, receive.buf, receive.size))
    modifies receive.owner, receive
    ensures ok <==> |Stream(st, sbuf, scount)| <= |Stream(receive.t, receive.buf, receive.size)|
    ensures ok ==> receive.count == Filled(receive.size, |Stream(st, sbuf, scount)|, receive.t.Len())
    ensures ok ==> Poured(old(sender.bytes), Stream(st, sbuf, scount), old(receive.owner.bytes),
                          Stream(receive.t, receive.buf, receive.size), |Stream(st, sbuf, scount)|,
                          receive.owner.bytes)
    ensures !ok ==> receive.owner.bytes == old(receive.owner.bytes) && receive.count == receive.size
  {
    WholeBuffer(st, sbuf, scount);
    WholeBuffer(receive.t, receive.buf, receive.size);
    ok := receive.WriteToOwner(sender, sbuf, st, scount, 0, 0);
  }

  /** A send from rank `rank` with tag `tag`, later a matching receive: the status is the send's cookie. */
  method SendThenReceive(rank: int, tag: int, sender: Memory, sbuf: nat, st: Layout, scount: nat,
                         receiver: Memory, rbuf: nat, rt: Layout, rcount: nat)
    returns (ok: bool, status: Option<Status>)
    requires Sound(st) && Sound(rt)
    requires Copyable(sender, Stream(st, sbuf, scount), receiver, Stream(rt, rbuf, rcount))
    modifies receiver
    ensures Outcome(!ok, status, receiver.bytes)
         == SentFirst(Stored(Sent(rank, tag)), old(sender.bytes), Stream(st, sbuf, scount),
                      old(receiver.bytes), Stream(rt, rbuf, rcount), rt.Len())
  {
    var cookie := new Cookie(Int16(rank), Int16(tag));
    var message := new Posted(sender, sbuf, st, scount);
    ok := Read(message, receiver, rbuf, rt, rcount);
    if !ok { return false, None; }
    var len := SentLength(message);
    status := Some(Status(Envelope(cookie.src, cookie.tag), len));
  }

  /** A receive posted for (from, want), later a matching send: the sender puts its label on the cookie. */
  method ReceiveThenSend(from: int, want: int, rank: int, tag: int, sender: Memory, sbuf: nat, st: Layout, scount: nat,
                         receiver: Memory, rbuf: nat, rt: Layout, rcount: nat)
    returns (ok: bool, status: Option<Status>)
    requires Sound(st) && Sound(rt)
    requires Copyable(sender, Stream(st, sbuf, scount), receiver, Stream(rt, rbuf, rcount))
    modifies receiver
    ensures Outcome(!ok, status, receiver.bytes)
         == PostedFirst(Stored(Sent(rank, tag)), old(sender.bytes), Stream(st, sbuf, scount),
                        old(receiver.bytes), Stream(rt, rbuf, rcount), rt.Len())
  {
    var cookie := new Cookie(Int16(from), Int16(want));
    var receive := new Posted(receiver, rbuf, rt, rcount);
    cookie.src, cookie.tag := Int16(rank), Int16(tag);
    ok := Write(receive, sender, sbuf, st, scount);
    var len: nat;
    if ok { len := StatusLength(receive, |Stream(st, sbuf, scount)|); } else { len := SentLength(receive); }
    status := Some(Status(Envelope(cookie.src, cookie.tag), len));
  }
}
