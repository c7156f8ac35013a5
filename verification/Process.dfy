/**
  A process's four lists of cookies, updated in place: creating and matching requests, and reclaiming
  the finished ones.
 */
module Processes {
  import opened Basics
  import opened Matching

  /** A node of the lists. A request handle is a reference to one. */
  class Cookie {
    var src: int
    var tag: int
    var used: int
    var busy: int
    var err: int

    constructor (src: int, tag: int)
      ensures Label(this) == Envelope(src, tag) && used == 1 && busy == 1 && err == 0
    {
      this.src, this.tag := src, tag;
      used, busy, err := 1, 1, 0;
    }

    method Reset(src: int, tag: int)
      modifies this
      ensures Label(this) == Envelope(src, tag) && used == 1 && busy == 1 && err == 0
    {
      this.src, this.tag := src, tag;
      used, busy, err := 1, 1, 0;
    }
  }

  ghost function Label(c: Cookie): Envelope
    reads c
  {
    Envelope(c.src, c.tag)
  }

  ghost predicate Apart(a: seq<Cookie>, b: seq<Cookie>) {
    forall i, j :: 0 <= i < |a| && 0 <= j < |b| ==> a[i] != b[j]
  }

  /** No node is on two lists, or twice on one. */
  ghost predicate OneListEach(free: seq<Cookie>, inbox: seq<Cookie>, outbox: seq<Cookie>, pending: seq<Cookie>) {
    && NoDup(free) && NoDup(inbox) && NoDup(outbox) && NoDup(pending)
    && Apart(free, inbox) && Apart(free, outbox) && Apart(free, pending)
    && Apart(inbox, outbox) && Apart(inbox, pending) && Apart(outbox, pending)
  }

  // ---------- reclaiming ----------

  /** Which cookies some handle still refers to. */
  ghost function Used(cs: seq<Cookie>): (used: seq<bool>)
    reads cs
    ensures |used| == |cs| && forall i :: 0 <= i < |cs| ==> (used[i] <==> cs[i].used != 0)
  {
    seq(|cs|, i requires 0 <= i < |cs| reads cs => cs[i].used != 0)
  }

  function Kept<T>(cs: seq<T>, used: seq<bool>): seq<T>
    requires |cs| == |used|
  {
    if cs == [] then [] else if used[0] then [cs[0]] + Kept(cs[1..], used[1..]) else Kept(cs[1..], used[1..])
  }

  function Pushed<T>(cs: seq<T>, used: seq<bool>, onto: seq<T>): seq<T>
    requires |cs| == |used|
    decreases |cs|
  {
    if cs == [] then onto else Pushed(cs[1..], used[1..], if used[0] then onto else [cs[0]] + onto)
  }

  /** The cookies still referred to by some handle, in order. */
  ghost function Referred(cs: seq<Cookie>): seq<Cookie>
    reads cs
  {
    Kept(cs, Used(cs))
  }

  /** The cookies referred to by none, pushed one by one onto the front of a list. */
  ghost function PushFinished(cs: seq<Cookie>, onto: seq<Cookie>): seq<Cookie>
    reads cs
  {
    Pushed(cs, Used(cs), onto)
  }

  /** An element kept comes behind the kept ones before it: a multiset counts them. */
  lemma {:induction false} KeptAt<T>(cs: seq<T>, used: seq<bool>, j: nat)
    requires |cs| == |used|
    ensures |Kept(cs, used)| == multiset(used)[true]
    ensures j < |cs| && used[j] ==>
      multiset(used[..j])[true] < |Kept(cs, used)| && Kept(cs, used)[multiset(used[..j])[true]] == cs[j]
  {
    if cs != [] {
      KeptAt(cs[1..], used[1..], if j == 0 then 0 else j - 1);
      assert used == [used[0]] + used[1..];
      if 0 < j < |cs| { assert used[..j] == [used[0]] + used[1..][..j - 1]; }
    }
  }

  /** What was there stays behind the elements pushed. */
  lemma {:induction false} PushedOnto<T>(cs: seq<T>, used: seq<bool>, onto: seq<T>)
    requires |cs| == |used|
    ensures |Pushed(cs, used, onto)| == multiset(used)[false] + |onto|
    ensures Pushed(cs, used, onto)[multiset(used)[false]..] == onto
    decreases |cs|
  {
    if cs != [] {
      var next := if used[0] then onto else [cs[0]] + onto;
      var all, m := Pushed(cs, used, onto), multiset(used[1..])[false];
      PushedOnto(cs[1..], used[1..], next);
      assert used == [used[0]] + used[1..];
      assert !used[0] ==> all[m + 1..] == all[m..][1..];
    }
  }

  /** Elements pushed come in front of the list, the last one first. */
  lemma {:induction false} PushedAt<T>(cs: seq<T>, used: seq<bool>, onto: seq<T>, j: nat)
    requires |cs| == |used| && j < |cs| && !used[j]
    ensures multiset(used[j + 1..])[false] < |Pushed(cs, used, onto)|
    ensures Pushed(cs, used, onto)[multiset(used[j + 1..])[false]] == cs[j]
    decreases |cs|
  {
    var next := if used[0] then onto else [cs[0]] + onto;
    if j == 0 {
      var all, m := Pushed(cs, used, onto), multiset(used[1..])[false];
      PushedOnto(cs[1..], used[1..], next);
      assert all[m..][0] == cs[0];
    } else {
      PushedAt(cs[1..], used[1..], next, j - 1);
      assert used[1..][j..] == used[j + 1..];
    }
  }

  /**
    The cookies still referred to keep their order, and the finished ones come in front of the free list, the
    one that was last in the pending list first.
   */
  lemma SplitInOrder(cs: seq<Cookie>, onto: seq<Cookie>, j: nat)
    requires j < |cs|
    ensures var at := multiset(Used(cs)[..j])[true];
      cs[j].used != 0 ==> at < |Referred(cs)| && Referred(cs)[at] == cs[j]
    ensures var at, all := multiset(Used(cs)[j + 1..])[false], PushFinished(cs, onto);
      cs[j].used == 0 ==> at < |all| && all[at] == cs[j]
    ensures var m, all := multiset(Used(cs))[false], PushFinished(cs, onto); m <= |all| && all[m..] == onto
  {
    KeptAt(cs, Used(cs), j);
    PushedOnto(cs, Used(cs), onto);
    if cs[j].used == 0 { PushedAt(cs, Used(cs), onto, j); }
  }

  lemma {:induction false} SplitByFlags<T>(cs: seq<T>, used: seq<bool>, onto: seq<T>)
    requires |cs| == |used|
    ensures forall x :: x in Kept(cs, used) ==> exists j :: 0 <= j < |cs| && cs[j] == x && used[j]
    ensures forall x :: x in Pushed(cs, used, onto) ==> x in onto || exists j :: 0 <= j < |cs| && cs[j] == x && !used[j]
    ensures |Kept(cs, used)| + |Pushed(cs, used, onto)| == |cs| + |onto|
    decreases |cs|
  {
    if cs != [] {
      var next := if used[0] then onto else [cs[0]] + onto;
      SplitByFlags(cs[1..], used[1..], next);
      forall x | x in Kept(cs, used) ensures exists j :: 0 <= j < |cs| && cs[j] == x && used[j] {
        if x in Kept(cs[1..], used[1..]) {
          var j :| 0 <= j < |cs[1..]| && cs[1..][j] == x && used[1..][j];
          assert cs[j + 1] == x && used[j + 1];
        }
      }
      forall x | x in Pushed(cs, used, onto) ensures x in onto || exists j :: 0 <= j < |cs| && cs[j] == x && !used[j] {
        if x !in next {
          var j :| 0 <= j < |cs[1..]| && cs[1..][j] == x && !used[1..][j];
          assert cs[j + 1] == x && !used[j + 1];
        }
      }
    }
  }

  /** The split separates exactly by `used_` and loses nothing. */
  lemma SplitByUse(cs: seq<Cookie>, onto: seq<Cookie>)
    ensures var r := Referred(cs); forall i :: 0 <= i < |r| ==> r[i] in cs && r[i].used != 0
    ensures var f := PushFinished(cs, onto); forall i :: 0 <= i < |f| ==> f[i] in onto || (f[i] in cs && f[i].used == 0)
    ensures |Referred(cs)| + |PushFinished(cs, onto)| == |cs| + |onto|
  {
    SplitByFlags(cs, Used(cs), onto);
    var r, f := Referred(cs), PushFinished(cs, onto);
    forall i | 0 <= i < |r| ensures r[i] in cs && r[i].used != 0 { assert r[i] in r; }
    forall i | 0 <= i < |f| ensures f[i] in onto || (f[i] in cs && f[i].used == 0) { assert f[i] in f; }
  }

  lemma {:induction false} SplitOnce<T>(cs: seq<T>, used: seq<bool>, onto: seq<T>)
    requires |cs| == |used| && NoDup(cs) && NoDup(onto) && forall x :: x in cs ==> x !in onto
    ensures NoDup(Kept(cs, used)) && NoDup(Pushed(cs, used, onto))
    ensures forall x :: x in Kept(cs, used) ==> x !in Pushed(cs, used, onto)
    decreases |cs|
  {
    if cs != [] {
      var c, rest := cs[0], cs[1..];
      var next := if used[0] then onto else [c] + onto;
      assert cs == [c] + rest && c in cs && c !in rest;
      forall x | x in rest ensures x !in next { assert x in cs; }
      SplitOnce(rest, used[1..], next);
      SplitByFlags(rest, used[1..], next);
      assert c !in Kept(rest, used[1..]);
      assert used[0] ==> c !in Pushed(rest, used[1..], next);
    }
  }

  /** Nor does it put a cookie on both lists, or on one twice. */
  lemma SplitNoDup(cs: seq<Cookie>, onto: seq<Cookie>)
    requires NoDup(cs) && NoDup(onto) && Apart(cs, onto)
    ensures NoDup(Referred(cs)) && NoDup(PushFinished(cs, onto)) && Apart(PushFinished(cs, onto), Referred(cs))
  {
    SplitOnce(cs, Used(cs), onto);
    var r, f := Referred(cs), PushFinished(cs, onto);
    forall i, j | 0 <= i < |f| && 0 <= j < |r| ensures f[i] != r[j] { assert r[j] in r && f[i] in f; }
  }

  lemma WithoutApart(cs: seq<Cookie>, at: nat, ds: seq<Cookie>)
    requires at < |cs| && NoDup(cs) && Apart(cs, ds)
    ensures NoDup(Without(cs, at)) && Apart(Without(cs, at), ds) && Apart(Without(cs, at), [cs[at]] + ds)
  {
    var w := Without(cs, at);
    forall i | 0 <= i < |w| ensures exists j :: 0 <= j < |cs| && j != at && w[i] == cs[j] {
      var j := if i < at then i else i + 1;
      assert w[i] == cs[j];
    }
    forall i, j | 0 <= i < |w| && 0 <= j < |[cs[at]] + ds| ensures w[i] != ([cs[at]] + ds)[j] {
      var h :| 0 <= h < |cs| && h != at && w[i] == cs[h];
    }
    forall i, j | 0 <= i < |w| && 0 <= j < |ds| ensures w[i] != ds[j] {
      var h :| 0 <= h < |cs| && h != at && w[i] == cs[h];
    }
  }

  lemma InboxToPending(free: seq<Cookie>, inbox: seq<Cookie>, outbox: seq<Cookie>, pending: seq<Cookie>, at: nat)
    requires OneListEach(free, inbox, outbox, pending) && at < |inbox|
    ensures OneListEach(free, Without(inbox, at), outbox, [inbox[at]] + pending)
  {
    WithoutApart(inbox, at, pending);
    WithoutApart(inbox, at, outbox);
    WithoutApart(inbox, at, free);
  }

  lemma OutboxToPending(free: seq<Cookie>, inbox: seq<Cookie>, outbox: seq<Cookie>, pending: seq<Cookie>, at: nat)
    requires OneListEach(free, inbox, outbox, pending) && at < |outbox|
    ensures OneListEach(free, inbox, Without(outbox, at), [outbox[at]] + pending)
  {
    WithoutApart(outbox, at, pending);
    WithoutApart(outbox, at, inbox);
    WithoutApart(outbox, at, free);
  }

  /** A node from the free list, or a new one, can be appended to either box. */
  lemma NodeToBox(free: seq<Cookie>, left: seq<Cookie>, inbox: seq<Cookie>, outbox: seq<Cookie>,
          pending: seq<Cookie>, c: Cookie)
    requires OneListEach(free, inbox, outbox, pending)
    requires if c in free then free == [c] + left else left == free && c !in inbox && c !in outbox && c !in pending
    ensures OneListEach(left, inbox, outbox + [c], pending)
    ensures OneListEach(left, inbox + [c], outbox, pending)
  {
    if c in free {
      assert free[0] == c;
      assert forall i :: 0 <= i < |left| ==> left[i] == free[i + 1];
    }
  }

  lemma FinalizeLists(free: seq<Cookie>, inbox: seq<Cookie>, outbox: seq<Cookie>, pending: seq<Cookie>, m: nat)
    requires OneListEach(free, inbox, outbox, pending) && m <= |PushFinished(pending, free)|
    ensures OneListEach(PushFinished(pending, free)[..m], inbox, outbox, Referred(pending))
  {
    SplitNoDup(pending, free);
    SplitByUse(pending, free);
    var f, r := PushFinished(pending, free), Referred(pending);
    MembersApart(f, free, pending, inbox);
    MembersApart(f, free, pending, outbox);
    MembersApart(r, free, pending, inbox);
    MembersApart(r, free, pending, outbox);
  }

  lemma MembersApart(a: seq<Cookie>, free: seq<Cookie>, pending: seq<Cookie>, box: seq<Cookie>)
    requires forall i :: 0 <= i < |a| ==> a[i] in free || a[i] in pending
    requires Apart(free, box) && Apart(box, pending)
    ensures Apart(a, box) && Apart(box, a)
  {
  }

  // ---------- the boxes and the matching model ----------

  /** The cookies of a box carry the stored envelopes of the events it holds, in order. */
  ghost predicate Holds(events: seq<Event>, box: seq<Cookie>, indices: seq<nat>)
    reads box
  {
    |box| == |indices| && forall i :: 0 <= i < |box| ==>
      indices[i] < |events| && Label(box[i]) == Stored(events[indices[i]])
  }

  lemma HoldsLater(events: seq<Event>, e: Event, box: seq<Cookie>, indices: seq<nat>)
    requires Holds(events, box, indices)
    ensures Holds(events + [e], box, indices)
  {
  }

  lemma HoldsTaken(events: seq<Event>, e: Event, box: seq<Cookie>, indices: seq<nat>, at: nat)
    requires Holds(events, box, indices) && at < |box|
    ensures Holds(events + [e], Without(box, at), Without(indices, at))
  {
  }

  lemma HoldsNewest(events: seq<Event>, e: Event, box: seq<Cookie>, indices: seq<nat>, c: Cookie)
    requires Holds(events, box, indices) && Label(c) == Stored(e)
    ensures Holds(events + [e], box + [c], indices + [|events|])
  {
  }

  lemma AfterNewest(events: seq<Event>, e: Event)
    ensures After(events + [e]) == Handle(events, After(events), e)
  {
    assert (events + [e])[..|events|] == events;
  }

  class Process {
    var free: seq<Cookie>
    var inbox: seq<Cookie>
    var outbox: seq<Cookie>
    var pending: seq<Cookie>
    var probing: bool        // waiting for a message to come in
    const trigger: nat       // outstanding requests per process
    ghost var events: seq<Event>

    /** Every node is on one list only, and the boxes are those of the matching model. */
    ghost predicate Valid()
      reads this, inbox, outbox
    {
      && OneListEach(free, inbox, outbox, pending)
      && Holds(events, inbox, After(events).inbox)
      && Holds(events, outbox, After(events).outbox)
    }

    constructor (trigger: nat)
      ensures Valid() && free == inbox == outbox == pending == [] && events == [] && this.trigger == trigger && !probing
    {
      free, inbox, outbox, pending := [], [], [], [];
      this.trigger, probing := trigger, false;
      events := [];
    }

    /** Take a node off the free list, or allocate one. */
    method TakeNode(src: int, tag: int) returns (c: Cookie)
      requires OneListEach(free, inbox, outbox, pending)
      modifies this`free, free
      ensures Label(c) == Envelope(src, tag) && c.used == 1 && c.busy == 1 && c.err == 0
      ensures if old(free) == [] then free == [] && fresh(c) else c == old(free)[0] && free == old(free)[1..]
      ensures forall d :: d in old(free) || d in inbox || d in outbox || d in pending ==> d == c || unchanged(d)
    {
      if free == [] {
        c := new Cookie(src, tag);
      } else {
        c := free[0];
        free := free[1..];
        c.Reset(src, tag);
      }
    }

    method FindMessage(source: int, tag: int) returns (i: nat)
      requires Valid()
      ensures i == FirstMessage(events, After(events).inbox, source, tag)
    {
      i := 0;
      while i < |inbox| && !RecvMatch(Envelope(inbox[i].src, inbox[i].tag), source, tag)
        invariant 0 <= i <= |inbox|
        invariant forall j :: 0 <= j < i ==> !RecvMatch(Stored(events[After(events).inbox[j]]), source, tag)
      {
        i := i + 1;
      }
    }

    method FindReceive(source: int, tag: int) returns (i: nat)
      requires Valid()
      ensures i == FirstReceive(events, After(events).outbox, source, tag)
    {
      i := 0;
      while i < |outbox| && !SendMatch(Envelope(outbox[i].src, outbox[i].tag), source, tag)
        invariant 0 <= i <= |outbox|
        invariant forall j :: 0 <= j < i ==> !SendMatch(Stored(events[After(events).outbox[j]]), source, tag)
      {
        i := i + 1;
      }
    }

    method TakeMessage(i: nat) returns (request: Cookie)
      requires i < |inbox| && OneListEach(free, inbox, outbox, pending)
      modifies this`inbox, this`pending, {inbox[i]}`used
      ensures OneListEach(free, inbox, outbox, pending)
      ensures request == old(inbox)[i] && request.used == old(request.used) + 1
      ensures inbox == Without(old(inbox), i) && pending == [request] + old(pending)
    {
      InboxToPending(free, inbox, outbox, pending, i);
      request := inbox[i];
      inbox := inbox[..i] + inbox[i + 1..];
      pending := [request] + pending;
      request.used := request.used + 1;
    }

    method TakeReceive(i: nat, src: int, tag: int) returns (request: Cookie)
      requires OneListEach(free, inbox, outbox, pending) && i < |outbox|
      modifies this`outbox, this`pending, outbox[i]
      ensures OneListEach(free, inbox, outbox, pending)
      ensures request == old(outbox)[i] && request.used == old(request.used) + 1 && Label(request) == Envelope(src, tag)
      ensures request.busy == old(request.busy) && request.err == old(request.err)
      ensures outbox == Without(old(outbox), i) && pending == [request] + old(pending)
    {
      OutboxToPending(free, inbox, outbox, pending, i);
      request := outbox[i];
      outbox := outbox[..i] + outbox[i + 1..];
      pending := [request] + pending;
      request.src, request.tag := src, tag;
      request.used := request.used + 1;
    }

    /** The request came off the front of the free list, or was allocated because that was empty. */
    twostate predicate FromFree(new c: Cookie)
      reads this
    {
      if old(free) == [] then free == [] && fresh(c) else old(free) == [c] + free
    }

    /** `create_request`: a node, free to go at the end of either box. */
    method CreateNode(src: int, tag: int) returns (c: Cookie)
      requires Valid()
      modifies this`free, free
      ensures Label(c) == Envelope(src, tag) && c.used == 1 && c.busy == 1 && c.err == 0
      ensures if old(free) == [] then free == [] && fresh(c) else old(free) == [c] + free
      ensures forall d :: d in old(free) || d in inbox || d in outbox || d in pending ==> d == c || unchanged(d)
      ensures OneListEach(free, inbox, outbox + [c], pending) && OneListEach(free, inbox + [c], outbox, pending)
      ensures Holds(events, inbox, After(events).inbox) && Holds(events, outbox, After(events).outbox)
    {
      c := TakeNode(src, tag);
      NodeToBox(old(free), free, inbox, outbox, pending, c);
    }

    /** Post a receive nothing in the inbox satisfies. */
    method PostReceive(source: int, tag: int) returns (request: Cookie)
      requires Valid() && FirstMessage(events, After(events).inbox, source, tag) == |inbox|
      modifies this`free, this`outbox, this`events, free
      ensures Valid() && events == old(events) + [Posted(source, tag)]
      ensures outbox == old(outbox) + [request] && FromFree(request)
      ensures Label(request) == Stored(Posted(source, tag))
      ensures request.used == 1 && request.busy == 1 && request.err == 0
      ensures forall d :: d in old(free) || d in inbox || d in old(outbox) || d in pending ==>
        d == request || unchanged(d)
    {
      ghost var b := After(events);
      request := CreateNode(Int16(source), Int16(tag));
      AfterNewest(events, Posted(source, tag));
      HoldsLater(events, Posted(source, tag), inbox, b.inbox);
      HoldsNewest(events, Posted(source, tag), outbox, b.outbox, request);
      outbox := outbox + [request];
      events := events + [Posted(source, tag)];
    }

    /** Leave a message no posted receive accepts. */
    method LeaveMessage(src: int, tag: int) returns (request: Cookie)
      requires Valid() && FirstReceive(events, After(events).outbox, src, tag) == |outbox|
      modifies this`free, this`inbox, this`events, free
      ensures Valid() && events == old(events) + [Sent(src, tag)]
      ensures inbox == old(inbox) + [request] && FromFree(request)
      ensures Label(request) == Stored(Sent(src, tag)) && request.used == 1 && request.busy == 1 && request.err == 0
      ensures forall d :: d in old(free) || d in old(inbox) || d in outbox || d in pending ==>
        d == request || unchanged(d)
    {
      ghost var b := After(events);
      request := CreateNode(Int16(src), Int16(tag));
      AfterNewest(events, Sent(src, tag));
      HoldsLater(events, Sent(src, tag), outbox, b.outbox);
      HoldsNewest(events, Sent(src, tag), inbox, b.inbox, request);
      inbox := inbox + [request];
      events := events + [Sent(src, tag)];
    }

    /** Take message i, the first that satisfies the receive. */
    method AcceptMessage(i: nat, source: int, tag: int) returns (request: Cookie)
      requires Valid() && i == FirstMessage(events, After(events).inbox, source, tag) && i < |inbox|
      modifies this`inbox, this`pending, this`events, {inbox[i]}`used
      ensures Valid() && events == old(events) + [Posted(source, tag)]
      ensures request == old(inbox)[i] && request.used == old(request.used) + 1
      ensures inbox == Without(old(inbox), i) && pending == [request] + old(pending)
    {
      ghost var b := After(events);
      AfterNewest(events, Posted(source, tag));
      request := TakeMessage(i);
      HoldsTaken(events, Posted(source, tag), old(inbox), b.inbox, i);
      HoldsLater(events, Posted(source, tag), outbox, b.outbox);
      events := events + [Posted(source, tag)];
    }

    /** Satisfy receive i, the first that accepts the message. */
    method SatisfyReceive(i: nat, src: int, tag: int) returns (request: Cookie)
      requires Valid() && i == FirstReceive(events, After(events).outbox, src, tag) && i < |outbox|
      modifies this`outbox, this`pending, this`events, outbox[i]
      ensures Valid() && events == old(events) + [Sent(src, tag)]
      ensures request == old(outbox)[i] && request.used == old(request.used) + 1
      ensures Label(request) == Envelope(Int16(src), Int16(tag))
      ensures request.busy == old(request.busy) && request.err == old(request.err)
      ensures outbox == Without(old(outbox), i) && pending == [request] + old(pending)
    {
      ghost var b := After(events);
      AfterNewest(events, Sent(src, tag));
      HoldsTaken(events, Sent(src, tag), outbox, b.outbox, i);
      HoldsLater(events, Sent(src, tag), inbox, b.inbox);
      request := TakeReceive(i, Int16(src), Int16(tag));
      events := events + [Sent(src, tag)];
    }

    /** `recv_request`: take the first matching message off the inbox, or post the receive. */
    method RecvRequest(source: int, tag: int) returns (request: Cookie)
      requires Valid()
      modifies this, free, inbox
      ensures Valid() && events == old(events) + [Posted(source, tag)] && probing == old(probing)
      ensures forall d :: d in old(free) || d in old(inbox) || d in old(outbox) || d in old(pending) ==>
        d == request || unchanged(d)
      ensures var at := FirstMessage(old(events), After(old(events)).inbox, source, tag);
        if at < |old(inbox)| then
          && request == old(inbox)[at] && request.used == old(request.used) + 1
          && request.busy == old(request.busy) && request.err == old(request.err)
          && Label(request) == old(Label(request))
          && inbox == Without(old(inbox), at) && pending == [request] + old(pending)
          && outbox == old(outbox) && free == old(free)
        else
          && outbox == old(outbox) + [request] && FromFree(request)
          && request.used == 1 && request.busy == 1 && request.err == 0
          && Label(request) == Envelope(Int16(source), Int16(tag))
          && inbox == old(inbox) && pending == old(pending)
    {
      var i := FindMessage(source, tag);
      if i < |inbox| {
        request := AcceptMessage(i, source, tag);
      } else {
        request := PostReceive(source, tag);
      }
    }

    /**
      `send_request` to this process by rank `src`: satisfy the first matching receive, or leave the
      message and signal the process if it probes.
     */
    method SendRequest(src: int, tag: int) returns (request: Cookie, signal: bool)
      requires Valid()
      modifies this, free, outbox
      ensures Valid() && events == old(events) + [Sent(src, tag)]
      ensures probing == old(probing)
      ensures forall d :: d in old(free) || d in old(inbox) || d in old(outbox) || d in old(pending) ==>
        d == request || unchanged(d)
      ensures signal <==> probing && |inbox| == |old(inbox)| + 1
      ensures var at := FirstReceive(old(events), After(old(events)).outbox, src, tag);
        if at < |old(outbox)| then
          && request == old(outbox)[at] && request.used == old(request.used) + 1
          && request.busy == old(request.busy) && request.err == old(request.err)
          && Label(request) == Envelope(Int16(src), Int16(tag))
          && outbox == Without(old(outbox), at) && pending == [request] + old(pending)
          && inbox == old(inbox) && free == old(free)
        else
          && inbox == old(inbox) + [request] && FromFree(request)
          && request.used == 1 && request.busy == 1 && request.err == 0
          && Label(request) == Envelope(Int16(src), Int16(tag))
          && outbox == old(outbox) && pending == old(pending)
    {
      var i := FindReceive(src, tag);
      if i < |outbox| {
        request := SatisfyReceive(i, src, tag);
        signal := false;
      } else {
        request := LeaveMessage(src, tag);
        signal := probing;
      }
    }

    /**
      `finalize`: give up one handle of `c`; then sweep the pending list, and cut an overlong free
      list down to half the trigger.
     */
    method Finalize(c: Cookie)
      requires Valid() && c !in inbox && c !in outbox
      modifies this`free, this`pending, c`used
      ensures Valid() && c.used == old(c.used) - 1
      ensures pending == Referred(old(pending))
      ensures var all := PushFinished(old(pending), old(free));
        free == all[..if |all| > trigger then trigger / 2 else |all|]
      ensures |free| <= trigger
    {
      c.used := c.used - 1;
      ghost var all := PushFinished(pending, free);
      FinalizeLists(free, inbox, outbox, pending, if |all| > trigger then trigger / 2 else |all|);
      SweepAndCut(all);
    }

    method SweepAndCut(ghost all: seq<Cookie>)
      requires all == PushFinished(pending, free)
      modifies this`free, this`pending
      ensures pending == Referred(old(pending))
      ensures free == all[..if |all| > trigger then trigger / 2 else |all|]
    {
      Sweep();
      Cut();
    }

    /** Cut an overlong free list down to its first nodes. */
    method Cut()
      modifies this`free
      ensures free == old(free)[..if |old(free)| > trigger then trigger / 2 else |old(free)|]
    {
      if |free| > trigger {
        free := free[..trigger / 2];
      }
    }

    /** Move the node at i to the front of the free list when no handle refers to it. */
    method Splice(i: nat, ghost here: seq<Cookie>, ghost c: Cookie, ghost rest: seq<Cookie>) returns (moved: bool)
      requires pending == here + [c] + rest && i == |here|
      modifies this`free, this`pending
      ensures moved <==> c.used == 0
      ensures free == if moved then [c] + old(free) else old(free)
      ensures pending == if moved then here + rest else here + [c] + rest
    {
      moved := pending[i].used == 0;
      if moved {
        free := [pending[i]] + free;
        pending := pending[..i] + pending[i + 1..];
      }
    }

    method Sweep()
      modifies this`free, this`pending
      ensures pending == Referred(old(pending))
      ensures free == PushFinished(old(pending), old(free))
    {
      ghost var used, kept, rest := Used(pending), [], pending;
      var i := 0;
      while i < |pending|
        invariant i == |kept| && pending == kept + rest && |used| == |rest|
        invariant forall j :: 0 <= j < |rest| ==> (used[j] <==> rest[j].used != 0)
        invariant kept + Kept(rest, used) == Referred(old(pending))
        invariant Pushed(rest, used, free) == PushFinished(old(pending), old(free))
        decreases |rest|
      {
        Ahead(kept, rest, used);
        var moved := Splice(i, kept, rest[0], rest[1..]);
        if !moved {
          kept := kept + [rest[0]];
          i := i + 1;
        }
        rest, used := rest[1..], used[1..];
      }
    }
  }

  lemma Ahead<T>(kept: seq<T>, rest: seq<T>, used: seq<bool>)
    requires |rest| == |used| && |kept + rest| > |kept|
    ensures kept + rest == kept + [rest[0]] + rest[1..]
    ensures kept + Kept(rest, used) == (if used[0] then kept + [rest[0]] else kept) + Kept(rest[1..], used[1..])
  {
    assert rest == [rest[0]] + rest[1..];
    Concat(kept, [rest[0]], rest[1..]);
    Concat(kept, [rest[0]], Kept(rest[1..], used[1..]));
  }

  lemma Concat<T>(a: seq<T>, b: seq<T>, c: seq<T>)
    ensures a + b + c == a + (b + c)
  {
  }
}
