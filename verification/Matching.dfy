/**
  Point-to-point matching in one receiving process: its inbox of unmatched messages and its outbox
  of unmatched receives, over every sequence of sends to it and receives posted by it.
 */
module Matching {
  import opened Basics

  const ANY_SOURCE: int := -1
  const ANY_TAG: int := -1

  /** A message from rank `src`, or a receive posted for `source`, with their full-width tags. */
  datatype Event = Sent(src: int, tag: int) | Posted(source: int, tag: int)

  /** The 16-bit fields in which a cookie keeps a rank or a tag. */
  function Int16(x: int): int { (x + 0x8000) % 0x1_0000 - 0x8000 }

  datatype Envelope = Envelope(src: int, tag: int)

  function Stored(e: Event): Envelope {
    match e
    case Sent(src, tag) => Envelope(Int16(src), Int16(tag))
    case Posted(source, tag) => Envelope(Int16(source), Int16(tag))
  }

  /** `recv_match`: does a stored message satisfy a receive for (source, tag)? */
  predicate RecvMatch(c: Envelope, source: int, tag: int) {
    (c.tag == tag || (tag == ANY_TAG && c.tag >= 0)) && (c.src == source || source == ANY_SOURCE)
  }

  /** `send_match`: does a stored receive accept a message from (source, tag)? */
  predicate SendMatch(c: Envelope, source: int, tag: int) {
    (c.tag == tag || c.tag == ANY_TAG) && (c.src == source || c.src == ANY_SOURCE)
  }

  /** What MPI means by a message matching a receive. */
  predicate Matches(message: Event, receive: Event) {
    && message.Sent? && receive.Posted?
    && (message.tag == receive.tag || receive.tag == ANY_TAG)
    && (message.src == receive.source || receive.source == ANY_SOURCE)
  }

  predicate InRange(e: Event) {
    match e
    case Sent(src, tag) => 0 <= src < 0x8000 && 0 <= tag < 0x8000
    case Posted(source, tag) => ANY_SOURCE <= source < 0x8000 && ANY_TAG <= tag < 0x8000
  }

  /** The two tests agree with each other and with MPI's meaning. */
  lemma MatchDuality(message: Event, receive: Event)
    requires InRange(message) && InRange(receive) && message.Sent? && receive.Posted?
    ensures RecvMatch(Stored(message), receive.source, receive.tag) <==> Matches(message, receive)
    ensures SendMatch(Stored(receive), message.src, message.tag) <==> Matches(message, receive)
    ensures Matches(message, receive) <==>
      (message.tag == receive.tag || receive.tag == -1) && (message.src == receive.source || receive.source == -1)
  {
  }

  /** A receive for exactly a message's own tag finds it if and only if the tag fits 16 signed bits. */
  lemma TagLimit(src: int, tag: int)
    requires 0 <= src < 0x8000 && 0 <= tag < 0x8000_0000
    ensures RecvMatch(Stored(Sent(src, tag)), src, tag) <==> tag <= 0x7fff
    ensures SendMatch(Stored(Posted(src, tag)), src, tag) <==> tag <= 0x7fff || (tag + 1) % 0x1_0000 == 0
  {
  }

  /** Indices into the event sequence: unmatched messages, unmatched receives, and pairs matched so far. */
  datatype Boxes = Boxes(inbox: seq<nat>, outbox: seq<nat>, pairs: seq<(nat, nat)>)

  predicate Indexed(events: seq<Event>, b: Boxes) {
    && (forall i :: 0 <= i < |b.inbox| ==> b.inbox[i] < |events|)
    && (forall i :: 0 <= i < |b.outbox| ==> b.outbox[i] < |events|)
  }

  /** The first message of the inbox that satisfies the receive, or the inbox's length. */
  function FirstMessage(events: seq<Event>, inbox: seq<nat>, source: int, tag: int): (at: nat)
    requires forall i :: 0 <= i < |inbox| ==> inbox[i] < |events|
    ensures at <= |inbox|
    ensures at < |inbox| ==> RecvMatch(Stored(events[inbox[at]]), source, tag)
    ensures forall i :: 0 <= i < at ==> !RecvMatch(Stored(events[inbox[i]]), source, tag)
  {
    if inbox == [] || RecvMatch(Stored(events[inbox[0]]), source, tag) then 0
    else 1 + FirstMessage(events, inbox[1..], source, tag)
  }

  /** The first receive of the outbox that accepts the message, or the outbox's length. */
  function FirstReceive(events: seq<Event>, outbox: seq<nat>, source: int, tag: int): (at: nat)
    requires forall i :: 0 <= i < |outbox| ==> outbox[i] < |events|
    ensures at <= |outbox|
    ensures at < |outbox| ==> SendMatch(Stored(events[outbox[at]]), source, tag)
    ensures forall i :: 0 <= i < at ==> !SendMatch(Stored(events[outbox[i]]), source, tag)
  {
    if outbox == [] || SendMatch(Stored(events[outbox[0]]), source, tag) then 0
    else 1 + FirstReceive(events, outbox[1..], source, tag)
  }

  /** `recv_request` or `send_request` for the newest event. */
  function Handle(events: seq<Event>, b: Boxes, e: Event): (after: Boxes)
    requires Indexed(events, b)
    ensures Indexed(events + [e], after)
  {
    match e
    case Posted(source, tag) =>
      var at := FirstMessage(events, b.inbox, source, tag);
      if at < |b.inbox| then Boxes(Without(b.inbox, at), b.outbox, b.pairs + [(b.inbox[at], |events|)])
      else b.(outbox := b.outbox + [|events|])
    case Sent(src, tag) =>
      var at := FirstReceive(events, b.outbox, src, tag);
      if at < |b.outbox| then Boxes(b.inbox, Without(b.outbox, at), b.pairs + [(|events|, b.outbox[at])])
      else b.(inbox := b.inbox + [|events|])
  }

  /** The boxes after a whole history. */
  function After(events: seq<Event>): (b: Boxes)
    ensures Indexed(events, b)
  {
    if events == [] then Boxes([], [], [])
    else Handle(events[..|events| - 1], AfterPrefix(events), events[|events| - 1])
  }

  function AfterPrefix(events: seq<Event>): (b: Boxes)
    requires events != []
    ensures Indexed(events[..|events| - 1], b)
    decreases events, 0
  {
    After(events[..|events| - 1])
  }

  // ---------- the invariant ----------

  ghost predicate Ascending(s: seq<nat>) {
    forall i, j :: 0 <= i < j < |s| ==> s[i] < s[j]
  }

  /** An event is still waiting in its box or is part of a pair. */
  ghost predicate Placed(events: seq<Event>, b: Boxes, i: nat)
    requires i < |events|
  {
    if events[i].Sent? then i in b.inbox || exists m :: 0 <= m < |b.pairs| && b.pairs[m].0 == i
    else i in b.outbox || exists m :: 0 <= m < |b.pairs| && b.pairs[m].1 == i
  }

  ghost predicate MatchedBefore(b: Boxes, m: nat, message: nat) {
    exists h :: 0 <= h < m && h < |b.pairs| && b.pairs[h].0 == message
  }

  ghost predicate UsedBefore(b: Boxes, m: nat, receive: nat) {
    exists h :: 0 <= h < m && h < |b.pairs| && b.pairs[h].1 == receive
  }

  /** Pair m matches, and overtook neither an earlier message nor an earlier receive. */
  ghost predicate PairOk(events: seq<Event>, b: Boxes, m: nat)
    requires m < |b.pairs|
  {
    var (i, r) := b.pairs[m];
    && i < |events| && r < |events| && Matches(events[i], events[r])
    && (forall h: nat :: h < i && Matches(events[h], events[r]) ==> MatchedBefore(b, m, h))
    && (forall h: nat :: h < r && Matches(events[i], events[h]) ==> UsedBefore(b, m, h))
  }

  /** A box of messages, or of receives, in the order they came in. */
  ghost predicate Shape(events: seq<Event>, ids: seq<nat>, messages: bool) {
    && Ascending(ids) && (forall i :: 0 <= i < |ids| ==> ids[i] < |events|)
    && (forall i :: 0 <= i < |ids| ==> events[ids[i]].Sent? == messages)
  }

  ghost predicate Inv(events: seq<Event>, b: Boxes) {
    && Indexed(events, b) && Shape(events, b.inbox, true) && Shape(events, b.outbox, false)
    && (forall i, r :: 0 <= i < |b.inbox| && 0 <= r < |b.outbox| ==> !Matches(events[b.inbox[i]], events[b.outbox[r]]))
    && (forall i :: 0 <= i < |events| ==> Placed(events, b, i))
    && (forall m :: 0 <= m < |b.pairs| ==> PairOk(events, b, m))
  }

  ghost predicate AllInRange(events: seq<Event>) {
    forall i :: 0 <= i < |events| ==> InRange(events[i])
  }

  lemma PairOkExtends(events: seq<Event>, b: Boxes, e: Event, after: Boxes, m: nat)
    requires m < |b.pairs| <= |after.pairs| && b.pairs == after.pairs[..|b.pairs|] && PairOk(events, b, m)
    ensures PairOk(events + [e], after, m)
  {
    var (i, r) := b.pairs[m];
    assert after.pairs[m] == b.pairs[m];
    forall h: nat | h < i && Matches((events + [e])[h], (events + [e])[r]) ensures MatchedBefore(after, m, h) {
      assert MatchedBefore(b, m, h);
      var g :| 0 <= g < m && g < |b.pairs| && b.pairs[g].0 == h;
      assert after.pairs[g] == b.pairs[g];
    }
    forall h: nat | h < r && Matches((events + [e])[i], (events + [e])[h]) ensures UsedBefore(after, m, h) {
      assert UsedBefore(b, m, h);
      var g :| 0 <= g < m && g < |b.pairs| && b.pairs[g].1 == h;
      assert after.pairs[g] == b.pairs[g];
    }
  }

  lemma WithoutMembers(s: seq<nat>, at: nat, x: nat)
    requires at < |s| && Ascending(s)
    ensures Ascending(Without(s, at))
    ensures x in Without(s, at) <==> x in s && x != s[at]
  {
    var d := Without(s, at);
    if x in s && x != s[at] {
      var i :| 0 <= i < |s| && s[i] == x;
      assert d[if i < at then i else i - 1] == x;
    }
  }

  /** A receive that finds a message takes the earliest one, and no earlier receive wanted that message. */
  lemma ReceiveFinds(events: seq<Event>, b: Boxes, e: Event, at: nat)
    requires Inv(events, b) && AllInRange(events + [e]) && e.Posted? && at < |b.inbox|
    requires at == FirstMessage(events, b.inbox, e.source, e.tag)
    ensures PairOk(events + [e], Handle(events, b, e), |b.pairs|)
  {
    var after := Handle(events, b, e);
    var all := events + [e];
    var i, r := b.inbox[at], |events|;
    assert InRange(all[i]) && InRange(all[r]);
    MatchDuality(all[i], e);
    forall h: nat | h < i && Matches(all[h], e) ensures MatchedBefore(after, |b.pairs|, h) {
      assert Placed(events, b, h) && InRange(all[h]);
      MatchDuality(all[h], e);
      assert h !in b.inbox;
      var g :| 0 <= g < |b.pairs| && b.pairs[g].0 == h;
      assert after.pairs[g] == b.pairs[g];
    }
    forall h: nat | h < r && Matches(all[i], all[h]) ensures UsedBefore(after, |b.pairs|, h) {
      assert Placed(events, b, h);
      assert h !in b.outbox;
      var g :| 0 <= g < |b.pairs| && b.pairs[g].1 == h;
      assert after.pairs[g] == b.pairs[g];
    }
  }

  /** The mirror image for a message that finds a posted receive. */
  lemma SendFinds(events: seq<Event>, b: Boxes, e: Event, at: nat)
    requires Inv(events, b) && AllInRange(events + [e]) && e.Sent? && at < |b.outbox|
    requires at == FirstReceive(events, b.outbox, e.src, e.tag)
    ensures PairOk(events + [e], Handle(events, b, e), |b.pairs|)
  {
    var after := Handle(events, b, e);
    var all := events + [e];
    var i, r := |events|, b.outbox[at];
    assert InRange(all[i]) && InRange(all[r]);
    MatchDuality(e, all[r]);
    forall h: nat | h < r && Matches(e, all[h]) ensures UsedBefore(after, |b.pairs|, h) {
      assert Placed(events, b, h) && InRange(all[h]);
      MatchDuality(e, all[h]);
      assert h !in b.outbox;
      var g :| 0 <= g < |b.pairs| && b.pairs[g].1 == h;
      assert after.pairs[g] == b.pairs[g];
    }
    forall h: nat | h < i && Matches(all[h], all[r]) ensures MatchedBefore(after, |b.pairs|, h) {
      assert Placed(events, b, h);
      assert h !in b.inbox;
      var g :| 0 <= g < |b.pairs| && b.pairs[g].0 == h;
      assert after.pairs[g] == b.pairs[g];
    }
  }

  lemma PlacedExtends(events: seq<Event>, b: Boxes, e: Event, i: nat)
    requires Inv(events, b) && i < |events|
    ensures Placed(events + [e], Handle(events, b, e), i)
  {
    var after := Handle(events, b, e);
    assert Placed(events, b, i);
    if after.pairs != b.pairs {
      var last := after.pairs[|b.pairs|];
      if e.Posted? { WithoutMembers(b.inbox, FirstMessage(events, b.inbox, e.source, e.tag), i); }
      else { WithoutMembers(b.outbox, FirstReceive(events, b.outbox, e.src, e.tag), i); }
      assert after.pairs[|b.pairs|] == last;
    }
    if events[i].Sent? && i !in b.inbox {
      var m :| 0 <= m < |b.pairs| && b.pairs[m].0 == i;
      assert after.pairs[m] == b.pairs[m];
    }
    if events[i].Posted? && i !in b.outbox {
      var m :| 0 <= m < |b.pairs| && b.pairs[m].1 == i;
      assert after.pairs[m] == b.pairs[m];
    }
  }

  lemma PlacedNewest(events: seq<Event>, b: Boxes, e: Event)
    requires Inv(events, b)
    ensures Placed(events + [e], Handle(events, b, e), |events|)
  {
    var after := Handle(events, b, e);
    assert (events + [e])[|events|] == e;
    if after.pairs != b.pairs {
      assert after.pairs[|b.pairs|] == after.pairs[|after.pairs| - 1];
    } else if e.Sent? {
      assert after.inbox[|b.inbox|] == |events|;
    } else {
      assert after.outbox[|b.outbox|] == |events|;
    }
  }

  /** No message left in the inbox would ever match a receive left in the outbox. */
  lemma BoxesApart(events: seq<Event>, b: Boxes, e: Event, i: nat, r: nat)
    requires Inv(events, b) && AllInRange(events + [e])
    requires i < |Handle(events, b, e).inbox| && r < |Handle(events, b, e).outbox|
    ensures var all := events + [e]; var after := Handle(events, b, e);
      && all[after.inbox[i]].Sent? && all[after.outbox[r]].Posted?
      && !Matches(all[after.inbox[i]], all[after.outbox[r]])
  {
    var all := events + [e];
    var after := Handle(events, b, e);
    var x, y := after.inbox[i], after.outbox[r];
    assert InRange(all[x]) && InRange(all[y]);
    if e.Posted? {
      var at := FirstMessage(events, b.inbox, e.source, e.tag);
      if at < |b.inbox| { WithoutMembers(b.inbox, at, x); }
      assert x in b.inbox && events[x].Sent?;
      if y == |events| { MatchDuality(all[x], e); }
    } else {
      var at := FirstReceive(events, b.outbox, e.src, e.tag);
      if at < |b.outbox| { WithoutMembers(b.outbox, at, y); }
      assert y in b.outbox && events[y].Posted?;
      if x == |events| { MatchDuality(e, all[y]); }
    }
  }

  lemma ShapeKept(events: seq<Event>, e: Event, ids: seq<nat>, messages: bool)
    requires Shape(events, ids, messages)
    ensures Shape(events + [e], ids, messages)
  {
  }

  lemma ShapeGrown(events: seq<Event>, e: Event, ids: seq<nat>)
    requires Shape(events, ids, e.Sent?)
    ensures Shape(events + [e], ids + [|events|], e.Sent?)
  {
  }

  lemma ShapeTaken(events: seq<Event>, e: Event, ids: seq<nat>, messages: bool, at: nat)
    requires Shape(events, ids, messages) && at < |ids|
    ensures Shape(events + [e], Without(ids, at), messages)
  {
    WithoutMembers(ids, at, 0);
  }

  lemma {:induction false} BoxShapes(events: seq<Event>, b: Boxes, e: Event)
    requires Indexed(events, b) && Shape(events, b.inbox, true) && Shape(events, b.outbox, false)
    ensures var after := Handle(events, b, e);
      Shape(events + [e], after.inbox, true) && Shape(events + [e], after.outbox, false)
  {
    ShapeKept(events, e, b.inbox, true);
    ShapeKept(events, e, b.outbox, false);
    if e.Posted? {
      var at := FirstMessage(events, b.inbox, e.source, e.tag);
      if at < |b.inbox| { ShapeTaken(events, e, b.inbox, true, at); } else { ShapeGrown(events, e, b.outbox); }
    } else {
      var at := FirstReceive(events, b.outbox, e.src, e.tag);
      if at < |b.outbox| { ShapeTaken(events, e, b.outbox, false, at); } else { ShapeGrown(events, e, b.inbox); }
    }
  }

  lemma HandleInv(events: seq<Event>, b: Boxes, e: Event)
    requires Inv(events, b) && AllInRange(events + [e])
    ensures Inv(events + [e], Handle(events, b, e))
  {
    var all := events + [e];
    var after := Handle(events, b, e);
    BoxShapes(events, b, e);
    forall i, r | 0 <= i < |after.inbox| && 0 <= r < |after.outbox|
      ensures !Matches(all[after.inbox[i]], all[after.outbox[r]])
    {
      BoxesApart(events, b, e, i, r);
    }
    forall i | 0 <= i < |all| ensures Placed(all, after, i) {
      if i < |events| { PlacedExtends(events, b, e, i); } else { PlacedNewest(events, b, e); }
    }
    forall m | 0 <= m < |after.pairs| ensures PairOk(all, after, m) {
      if m < |b.pairs| { PairOkExtends(events, b, e, after, m); }
      else if e.Posted? { ReceiveFinds(events, b, e, FirstMessage(events, b.inbox, e.source, e.tag)); }
      else { SendFinds(events, b, e, FirstReceive(events, b.outbox, e.src, e.tag)); }
    }
  }

  lemma {:induction false} HistoryInv(events: seq<Event>)
    requires AllInRange(events)
    ensures Inv(events, After(events))
  {
    if events != [] {
      var prior := events[..|events| - 1];
      HistoryInv(prior);
      assert prior + [events[|events| - 1]] == events;
      HandleInv(prior, After(prior), events[|events| - 1]);
    }
  }

  /** After any history, no unmatched message matches an unmatched receive. */
  lemma NothingMatchableWaits(events: seq<Event>, i: nat, r: nat)
    requires AllInRange(events) && i < |After(events).inbox| && r < |After(events).outbox|
    ensures !Matches(events[After(events).inbox[i]], events[After(events).outbox[r]])
  {
    HistoryInv(events);
  }

  /**
    Non-overtaking: when pair m was made, every earlier message its receive could have taken had been
    taken, and every earlier receive its message could have satisfied had been satisfied.
   */
  lemma NonOvertaking(events: seq<Event>, m: nat)
    requires AllInRange(events) && m < |After(events).pairs|
    ensures var b := After(events); var (i, r) := b.pairs[m];
      && i < |events| && r < |events| && Matches(events[i], events[r])
      && (forall h: nat :: h < i && Matches(events[h], events[r]) ==> MatchedBefore(b, m, h))
      && (forall h: nat :: h < r && Matches(events[i], events[h]) ==> UsedBefore(b, m, h))
  {
    HistoryInv(events);
    assert PairOk(events, After(events), m);
  }

  // ---------- each event is used once ----------

  /** A message or receive is in one pair at most, and then no longer in its box. */
  ghost predicate Once(b: Boxes) {
    && (forall m, h :: 0 <= m < h < |b.pairs| ==> b.pairs[m].0 != b.pairs[h].0 && b.pairs[m].1 != b.pairs[h].1)
    && (forall m :: 0 <= m < |b.pairs| ==> b.pairs[m].0 !in b.inbox && b.pairs[m].1 !in b.outbox)
  }

  lemma {:induction false} OnceReceived(events: seq<Event>, b: Boxes, e: Event)
    requires Inv(events, b) && Once(b) && e.Posted?
    ensures Once(Handle(events, b, e))
  {
    var at := FirstMessage(events, b.inbox, e.source, e.tag);
    forall m | 0 <= m < |b.pairs| ensures b.pairs[m].0 < |events| && b.pairs[m].1 < |events| {
      assert PairOk(events, b, m);
    }
    if at < |b.inbox| {
      WithoutMembers(b.inbox, at, b.inbox[at]);
      forall m | 0 <= m < |b.pairs| ensures b.pairs[m].0 !in Without(b.inbox, at) {
        WithoutMembers(b.inbox, at, b.pairs[m].0);
      }
    }
  }

  lemma {:induction false} OnceSent(events: seq<Event>, b: Boxes, e: Event)
    requires Inv(events, b) && Once(b) && e.Sent?
    ensures Once(Handle(events, b, e))
  {
    var at := FirstReceive(events, b.outbox, e.src, e.tag);
    forall m | 0 <= m < |b.pairs| ensures b.pairs[m].0 < |events| && b.pairs[m].1 < |events| {
      assert PairOk(events, b, m);
    }
    if at < |b.outbox| {
      WithoutMembers(b.outbox, at, b.outbox[at]);
      forall m | 0 <= m < |b.pairs| ensures b.pairs[m].1 !in Without(b.outbox, at) {
        WithoutMembers(b.outbox, at, b.pairs[m].1);
      }
    }
  }

  lemma {:induction false} HistoryOnce(events: seq<Event>)
    requires AllInRange(events)
    ensures Once(After(events))
  {
    if events != [] {
      var prior, e := events[..|events| - 1], events[|events| - 1];
      HistoryOnce(prior);
      HistoryInv(prior);
      if e.Posted? { OnceReceived(prior, After(prior), e); } else { OnceSent(prior, After(prior), e); }
    }
  }

  /**
    After any history every message and every receive either waits in its box or is part of a pair, not
    both, and no two pairs share one.
   */
  lemma {:induction false} EachUsedOnce(events: seq<Event>, i: nat)
    requires AllInRange(events) && i < |events|
    ensures var b := After(events);
      && (events[i].Sent? ==> (i in b.inbox <==> forall m :: 0 <= m < |b.pairs| ==> b.pairs[m].0 != i))
      && (events[i].Posted? ==> (i in b.outbox <==> forall m :: 0 <= m < |b.pairs| ==> b.pairs[m].1 != i))
      && (forall m, h :: 0 <= m < h < |b.pairs| ==> b.pairs[m].0 != b.pairs[h].0 && b.pairs[m].1 != b.pairs[h].1)
  {
    HistoryInv(events);
    HistoryOnce(events);
    assert Placed(events, After(events), i);
  }
}
