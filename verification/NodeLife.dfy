/**
  The list nodes behind all cookies: from a process's free list into a slot's box, through a private
  list to the owner's pending list and back, over runs of many collectives and of messages.

  A node belongs to one process, takes on cookies one after the other, and keeps its identity, so a
  handle that outlives its cookie would be seen here. Which free node is taken, and whether one is taken
  when there is one, is left open; so is when a rank's call fails, which destroys its private list.
 */
module NodeLife {
  import opened Basics
  import L = Ledger
  import opened LedgerPlans
  import opened LedgerRuns
  import T = LedgerTheorems
  import P = LedgerProgress
  import C = RootedCalls
  import R = SlotRing
  import opened SlotRuns

  /** What a node is: on its process's free list, cookie c of collective t, a message's, or given back. */
  datatype Holder = Free | Cookie(number: nat, cookie: nat) | Message | Erased

  datatype Node = Node(home: nat, holder: Holder)

  /** `failed`: collective and position of the ranks whose calls have returned an error. */
  datatype System = System(world: World, nodes: seq<Node>, failed: set<(nat, nat)>)

  /** `node` is the free node taken, if any, or the node whose holder goes. */
  datatype Event =
    | EnterWith(rank: nat, reuse: Option<nat>)
    | Work(number: nat, action: L.Action)
    | Fail(number: nat, pos: nat)
    | Reclaim(number: nat, cookie: nat, node: nat)
    | TakeMessage(home: nat, reuse: Option<nat>)
    | DropMessage(node: nat)
    | Erase(node: nat)

  predicate Reusable(nodes: seq<Node>, home: nat, reuse: Option<nat>) {
    reuse.Some? ==> reuse.value < |nodes| && nodes[reuse.value] == Node(home, Free)
  }

  /** `create_request`: a node off the free list of its process, reset, or a new one. */
  function Take(nodes: seq<Node>, home: nat, reuse: Option<nat>, holder: Holder): seq<Node>
    requires Reusable(nodes, home, reuse)
  {
    if reuse.Some? then nodes[reuse.value := Node(home, holder)] else nodes + [Node(home, holder)]
  }

  /** Rank r's join has created a cookie of its own. */
  predicate Creates(n: nat, kinds: nat -> L.Kind, w: World, r: nat)
    requires Sized(n, w) && r < n && EnterSlot(n, kinds, w, r).Entered?
  {
    var me := |LedgerAt(w, w.issued[r]).order|;
    var s := LedgerAt(EnterSlot(n, kinds, w, r).world, w.issued[r]);
    me < |s.procs| && s.procs[me].handle == me
  }

  /** Only a rooted collective refuses transfers; the last one has been reported. */
  predicate CanFail(kinds: nat -> L.Kind, w: World, t: nat, k: nat) {
    && t in w.ledgers && kinds(t).Rooted? && k < |w.ledgers[t].procs|
    && w.ledgers[t].procs[k].phase == L.Serving && !w.ledgers[t].procs[k].copied
  }

  /** The cookies still on the private list of position k of collective t. */
  function ListOf(w: World, t: nat, k: nat): set<nat> {
    if t in w.ledgers && k < |w.ledgers[t].procs| then C.Listed(w.ledgers[t].procs[k].script) else {}
  }

  /** The nodes left when a private list is destroyed with everything on it. */
  function Destroy(nodes: seq<Node>, t: nat, list: set<nat>): (left: seq<Node>)
    ensures |left| == |nodes|
    ensures forall id :: 0 <= id < |nodes| ==> left[id] == Spared(nodes[id], t, list)
  {
    seq(|nodes|, id requires 0 <= id < |nodes| => Spared(nodes[id], t, list))
  }

  function Spared(node: Node, t: nat, list: set<nat>): Node {
    var lost := node.holder.Cookie? && node.holder.number == t && node.holder.cookie in list;
    if lost then node.(holder := Erased) else node
  }

  predicate Possible(n: nat, kinds: nat -> L.Kind, sys: System, e: Event) {
    Sized(n, sys.world) &&
    match e
    case EnterWith(r, reuse) =>
      && r < n && EnterSlot(n, kinds, sys.world, r).Entered? && Reusable(sys.nodes, r, reuse)
      && (!Creates(n, kinds, sys.world, r) ==> reuse.None?)
    case Work(t, a) => CanAct(n, kinds, sys.world, t, a) && !a.Reclaim? && (t, a.pos) !in sys.failed
    case Fail(t, k) => CanFail(kinds, sys.world, t, k) && (t, k) !in sys.failed
    case Reclaim(t, c, id) =>
      CanAct(n, kinds, sys.world, t, L.Reclaim(c)) && id < |sys.nodes| && sys.nodes[id].holder == Cookie(t, c)
    case TakeMessage(home, reuse) => home < n && Reusable(sys.nodes, home, reuse)
    case DropMessage(id) => id < |sys.nodes| && sys.nodes[id].holder == Message
    case Erase(id) => id < |sys.nodes| && sys.nodes[id].holder == Free
  }

  function Happens(n: nat, kinds: nat -> L.Kind, sys: System, e: Event): System
    requires Possible(n, kinds, sys, e)
  {
    match e
    case EnterWith(r, reuse) =>
      var holder := Cookie(sys.world.issued[r], |LedgerAt(sys.world, sys.world.issued[r]).order|);
      sys.(world := EnterSlot(n, kinds, sys.world, r).world,
           nodes := if Creates(n, kinds, sys.world, r) then Take(sys.nodes, r, reuse, holder) else sys.nodes)
    case Work(t, a) => sys.(world := Acted(n, kinds, sys.world, t, a))
    case Fail(t, k) =>
      sys.(nodes := Destroy(sys.nodes, t, ListOf(sys.world, t, k)), failed := sys.failed + {(t, k)})
    case Reclaim(t, c, id) =>
      sys.(world := Acted(n, kinds, sys.world, t, L.Reclaim(c)),
           nodes := sys.nodes[id := sys.nodes[id].(holder := Free)])
    case TakeMessage(home, reuse) => sys.(nodes := Take(sys.nodes, home, reuse, Message))
    case DropMessage(id) => sys.(nodes := sys.nodes[id := sys.nodes[id].(holder := Free)])
    case Erase(id) => sys.(nodes := sys.nodes[id := sys.nodes[id].(holder := Erased)])
  }

  function AfterEvents(n: nat, kinds: nat -> L.Kind, events: seq<Event>): Option<System> {
    if events == [] then Some(System(Initial(n), [], {})) else
    var prior := AfterEvents(n, kinds, events[..|events| - 1]);
    if prior.None? || !Possible(n, kinds, prior.value, events[|events| - 1]) then None
    else Some(Happens(n, kinds, prior.value, events[|events| - 1]))
  }

  // ---------- cookies that are on a list ----------

  predicate Listed(ck: L.Cookie) { ck.place != L.Nowhere && ck.place != L.Reclaimed }

  /** Cookie c of collective t has been destroyed with the private list of a rank whose call failed. */
  ghost predicate Dropped(w: World, failed: set<(nat, nat)>, t: nat, c: nat) {
    exists k :: (t, k) in failed && c in ListOf(w, t, k)
  }

  /** Cookie c of collective t is in its slot's box, on a private list or on its owner's pending list. */
  predicate OnList(w: World, t: nat, c: nat) {
    t in w.ledgers && c < |w.ledgers[t].cookies| && Listed(w.ledgers[t].cookies[c])
  }

  ghost predicate Live(w: World, failed: set<(nat, nat)>, t: nat, c: nat) {
    OnList(w, t, c) && !Dropped(w, failed, t, c)
  }

  function Owner(w: World, t: nat, c: nat): nat {
    if t in w.ledgers && c < |w.ledgers[t].order| then w.ledgers[t].order[c] else 0
  }

  lemma ListedStep(kind: L.Kind, n: nat, s: L.State, a: L.Action, c: nat)
    requires Inv(kind, n, s) && L.WellFormed(n, s) && L.Enabled(kind, n, s, a) && !a.Join? && c < |s.cookies|
    ensures |L.Next(kind, n, s, a).cookies| == |s.cookies| && L.Next(kind, n, s, a).order == s.order
    ensures Listed(L.Next(kind, n, s, a).cookies[c]) <==> Listed(s.cookies[c]) && a != L.Reclaim(c)
  {
    P.OtherSteps(kind, n, s, a);
    assert CookieInv(kind, n, s, c);
    if a.Relink? && s.procs[a.pos].script[0].cookie == c { HeadOwed(s, a.pos, c); }
  }

  /** A join section moves older cookies between lists only. */
  lemma ListedJoinOld(kind: L.Kind, n: nat, s: L.State, r: nat, p: L.Plan, c: nat)
    requires |s.cookies| == |s.order| == |s.procs| <= n && c < |s.order|
    requires p.touched.Some? ==> p.touched.value < |s.procs|
    requires CookieInv(kind, n, s, c) && Routed(s.box, |s.order|, p, c)
    ensures Listed(L.ApplyPlan(s, r, p).cookies[c]) <==> Listed(s.cookies[c])
  {
    JoinFrame(s, r, p, c);
  }

  /** It creates a cookie exactly when the newcomer's request is its own. */
  lemma ListedJoinNew(s: L.State, r: nat, p: L.Plan)
    requires |s.cookies| == |s.order| == |s.procs| && |s.order| !in s.box
    requires p.touched.Some? ==> p.touched.value < |s.procs|
    requires Routed(s.box, |s.order|, p, |s.order|)
    ensures var t := L.ApplyPlan(s, r, p);
      && |t.cookies| == |t.procs| == |s.order| + 1
      && (Listed(t.cookies[|s.order|]) <==> t.procs[|s.order|].handle == |s.order|)
  {
  }

  lemma ListedJoin(kind: L.Kind, n: nat, s: L.State, r: nat, c: nat)
    requires Inv(kind, n, s) && L.WellFormed(n, s) && L.Enabled(kind, n, s, L.Join(r)) && c <= |s.order|
    ensures var t := L.Next(kind, n, s, L.Join(r));
      && |t.cookies| == |t.procs| == |s.order| + 1 && t.order == s.order + [r]
      && (if c < |s.order| then Listed(t.cookies[c]) <==> Listed(s.cookies[c])
          else Listed(t.cookies[c]) <==> t.procs[c].handle == c)
  {
    var p := L.PlanFor(kind, n, s.order, s.box, r);
    PlanSoundAt(kind, n, s.order, r, c);
    if c < |s.order| {
      assert CookieInv(kind, n, s, c);
      ListedJoinOld(kind, n, s, r, p, c);
    } else {
      ListedJoinNew(s, r, p);
    }
  }

  // ---------- the invariant ----------

  predicate Held(nodes: seq<Node>, t: nat, c: nat) {
    exists id :: 0 <= id < |nodes| && nodes[id].holder == Cookie(t, c)
  }

  /** Every node is on one list at most, every listed cookie has a node of its owner, and only one. */
  ghost predicate NodesOk(n: nat, w: World, failed: set<(nat, nat)>, nodes: seq<Node>) {
    && (forall id :: 0 <= id < |nodes| ==> nodes[id].home < n)
    && (forall id :: 0 <= id < |nodes| && nodes[id].holder.Cookie? ==>
          Live(w, failed, nodes[id].holder.number, nodes[id].holder.cookie)
          && Owner(w, nodes[id].holder.number, nodes[id].holder.cookie) == nodes[id].home)
    && (forall i, j :: 0 <= i < j < |nodes| && nodes[i].holder.Cookie? ==> nodes[i].holder != nodes[j].holder)
    && (forall t: nat, c: nat :: Live(w, failed, t, c) ==> Held(nodes, t, c))
  }

  /** The cookies on lists are the same in both worlds, and so are their owners. */
  ghost predicate SameCookies(w: World, v: World, failed: set<(nat, nat)>) {
    forall t: nat, c: nat ::
      (Live(v, failed, t, c) <==> Live(w, failed, t, c)) && (OnList(w, t, c) ==> Owner(v, t, c) == Owner(w, t, c))
  }

  /** `v` has one more cookie on a list, and it is r's. */
  ghost predicate OneMore(w: World, v: World, failed: set<(nat, nat)>, t0: nat, c0: nat, r: nat) {
    && !Live(w, failed, t0, c0) && Live(v, failed, t0, c0) && Owner(v, t0, c0) == r
    && forall t: nat, c: nat :: (t, c) != (t0, c0) ==>
         (Live(v, failed, t, c) <==> Live(w, failed, t, c)) && (OnList(w, t, c) ==> Owner(v, t, c) == Owner(w, t, c))
  }

  ghost predicate OneLess(w: World, v: World, failed: set<(nat, nat)>, t0: nat, c0: nat) {
    && Live(w, failed, t0, c0) && !Live(v, failed, t0, c0)
    && forall t: nat, c: nat :: (t, c) != (t0, c0) ==>
         (Live(v, failed, t, c) <==> Live(w, failed, t, c)) && (OnList(w, t, c) ==> Owner(v, t, c) == Owner(w, t, c))
  }

  lemma Unmoved(n: nat, w: World, v: World, failed: set<(nat, nat)>, nodes: seq<Node>)
    requires NodesOk(n, w, failed, nodes) && SameCookies(w, v, failed)
    ensures NodesOk(n, v, failed, nodes)
  {
  }

  /** Overwriting a node that holds no cookie of a collective, or adding one, hides no other. */
  lemma StillHeld(nodes: seq<Node>, home: nat, reuse: Option<nat>, holder: Holder, t: nat, c: nat)
    requires Reusable(nodes, home, reuse)
    ensures Held(nodes, t, c) || holder == Cookie(t, c) <==> Held(Take(nodes, home, reuse, holder), t, c)
  {
    var now := Take(nodes, home, reuse, holder);
    if id :| 0 <= id < |nodes| && nodes[id].holder == Cookie(t, c) { assert now[id].holder == Cookie(t, c); }
    var at := if reuse.Some? then reuse.value else |nodes|;
    assert now[at].holder == holder;
  }

  lemma Taken(n: nat, w: World, v: World, failed: set<(nat, nat)>, nodes: seq<Node>, home: nat, reuse: Option<nat>,
          holder: Holder)
    requires NodesOk(n, w, failed, nodes) && home < n && Reusable(nodes, home, reuse)
    requires if holder.Cookie? then OneMore(w, v, failed, holder.number, holder.cookie, home)
             else SameCookies(w, v, failed)
    ensures NodesOk(n, v, failed, Take(nodes, home, reuse, holder))
  {
    forall t: nat, c: nat | Live(v, failed, t, c) ensures Held(Take(nodes, home, reuse, holder), t, c) {
      StillHeld(nodes, home, reuse, holder, t, c);
    }
  }

  lemma Freed(n: nat, w: World, v: World, failed: set<(nat, nat)>, nodes: seq<Node>, id: nat, holder: Holder)
    requires NodesOk(n, w, failed, nodes) && id < |nodes| && !holder.Cookie?
    requires var was := nodes[id].holder;
      if was.Cookie? then OneLess(w, v, failed, was.number, was.cookie) else SameCookies(w, v, failed)
    ensures NodesOk(n, v, failed, nodes[id := nodes[id].(holder := holder)])
  {
    var now := nodes[id := nodes[id].(holder := holder)];
    forall t: nat, c: nat | Live(v, failed, t, c) ensures Held(now, t, c) {
      assert Live(w, failed, t, c);
      var at :| 0 <= at < |nodes| && nodes[at].holder == Cookie(t, c);
      assert now[at] == nodes[at];
    }
  }

  /** One more failed rank: exactly the nodes on its list are destroyed. */
  lemma DestroyedOk(n: nat, w: World, failed: set<(nat, nat)>, nodes: seq<Node>, t0: nat, k: nat)
    requires NodesOk(n, w, failed, nodes)
    ensures NodesOk(n, w, failed + {(t0, k)}, Destroy(nodes, t0, ListOf(w, t0, k)))
  {
    var now := Destroy(nodes, t0, ListOf(w, t0, k));
    forall t: nat, c: nat
      ensures Dropped(w, failed + {(t0, k)}, t, c) <==> Dropped(w, failed, t, c) || (t == t0 && c in ListOf(w, t0, k))
    {
      if t == t0 && c in ListOf(w, t0, k) { assert (t, k) in failed + {(t0, k)}; }
      if j :| (t, j) in failed && c in ListOf(w, t, j) { assert (t, j) in failed + {(t0, k)}; }
    }
    forall t: nat, c: nat | Live(w, failed + {(t0, k)}, t, c) ensures Held(now, t, c) {
      assert Live(w, failed, t, c);
      var at :| 0 <= at < |nodes| && nodes[at].holder == Cookie(t, c);
      assert now[at] == nodes[at];
    }
  }

  // ---------- what a step does to the cookies on lists ----------

  /** Failed ranks are there, and were in their calls. */
  ghost predicate FailedOk(w: World, failed: set<(nat, nat)>) {
    forall t: nat, k: nat :: (t, k) in failed ==>
      t in w.ledgers && k < |w.ledgers[t].procs| && !w.ledgers[t].procs[k].copied
      && w.ledgers[t].procs[k].phase == L.Serving
  }

  /** The records of failed ranks, and so what they have dropped, stay as they are. */
  ghost predicate Frozen(w: World, v: World, failed: set<(nat, nat)>) {
    forall t: nat, k: nat :: (t, k) in failed ==>
      t in w.ledgers && t in v.ledgers && k < |w.ledgers[t].procs| && k < |v.ledgers[t].procs|
      && v.ledgers[t].procs[k].script == w.ledgers[t].procs[k].script && !v.ledgers[t].procs[k].copied
      && v.ledgers[t].procs[k].phase == L.Serving
  }

  lemma FrozenDropped(w: World, v: World, failed: set<(nat, nat)>, t: nat, c: nat)
    requires Frozen(w, v, failed)
    ensures Dropped(w, failed, t, c) <==> Dropped(v, failed, t, c)
  {
    if k :| (t, k) in failed && c in ListOf(w, t, k) { assert c in ListOf(v, t, k); }
    if k :| (t, k) in failed && c in ListOf(v, t, k) { assert c in ListOf(w, t, k); }
  }

  lemma ActFrozen(n: nat, kinds: nat -> L.Kind, w: World, u: nat, a: L.Action, failed: set<(nat, nat)>)
    requires WorldInv(n, kinds, w) && CanAct(n, kinds, w, u, a) && FailedOk(w, failed)
    requires !a.Reclaim? ==> (u, a.pos) !in failed
    ensures Frozen(w, Acted(n, kinds, w, u, a), failed)
  {
    assert LedgerOk(n, kinds, w, u);
    forall t: nat, k: nat | (t, k) in failed && t == u
      ensures var v := Acted(n, kinds, w, u, a);
        k < |v.ledgers[t].procs| && v.ledgers[t].procs[k].script == w.ledgers[t].procs[k].script
        && !v.ledgers[t].procs[k].copied && v.ledgers[t].procs[k].phase == L.Serving
    {
      C.OwnSteps(kinds(u), n, w.ledgers[u], a, k);
    }
  }

  lemma ActMoves(n: nat, kinds: nat -> L.Kind, w: World, u: nat, a: L.Action, failed: set<(nat, nat)>)
    requires WorldInv(n, kinds, w) && CanAct(n, kinds, w, u, a) && Frozen(w, Acted(n, kinds, w, u, a), failed)
    requires a.Reclaim? ==> Live(w, failed, u, a.cookie)
    ensures var v := Acted(n, kinds, w, u, a);
      if a.Reclaim? then OneLess(w, v, failed, u, a.cookie) else SameCookies(w, v, failed)
  {
    var v := Acted(n, kinds, w, u, a);
    assert LedgerOk(n, kinds, w, u);
    forall t: nat, c: nat
      ensures Live(v, failed, t, c) <==> Live(w, failed, t, c) && !(a == L.Reclaim(c) && t == u)
      ensures OnList(w, t, c) ==> Owner(v, t, c) == Owner(w, t, c)
    {
      FrozenDropped(w, v, failed, t, c);
      P.OtherSteps(kinds(u), n, w.ledgers[u], a);
      if t == u && c < |w.ledgers[u].cookies| { ListedStep(kinds(u), n, w.ledgers[u], a, c); }
    }
  }

  lemma EnterFrozen(n: nat, kinds: nat -> L.Kind, w: World, r: nat, failed: set<(nat, nat)>)
    requires Matched(n, kinds) && WorldInv(n, kinds, w) && r < n && EnterSlot(n, kinds, w, r).Entered?
    requires FailedOk(w, failed)
    ensures Frozen(w, EnterSlot(n, kinds, w, r).world, failed)
  {
    var t0 := w.issued[r];
    JoinsOwn(n, kinds, w, r);
    forall t: nat, k: nat | (t, k) in failed && t == t0
      ensures var v := EnterSlot(n, kinds, w, r).world;
        k < |v.ledgers[t].procs| && v.ledgers[t].procs[k].script == w.ledgers[t].procs[k].script
        && !v.ledgers[t].procs[k].copied && v.ledgers[t].procs[k].phase == L.Serving
    {
      C.OwnSteps(kinds(t0), n, LedgerAt(w, t0), L.Join(r), k);
    }
  }

  /** A cookie that does not exist yet is on nobody's list. */
  lemma NotDropped(n: nat, kinds: nat -> L.Kind, w: World, failed: set<(nat, nat)>, t: nat, c: nat)
    requires WorldInv(n, kinds, w) && FailedOk(w, failed) && (t in w.ledgers ==> c >= |w.ledgers[t].procs|)
    ensures !Dropped(w, failed, t, c)
  {
    forall k: nat | (t, k) in failed ensures c !in ListOf(w, t, k) {
      assert LedgerOk(n, kinds, w, t) && ProcInv(w.ledgers[t], k);
    }
  }

  /** The cookies on lists after rank r has entered: its own may be new. */
  lemma EnterLists(n: nat, kinds: nat -> L.Kind, w: World, r: nat, t: nat, c: nat)
    requires Matched(n, kinds) && WorldInv(n, kinds, w) && r < n && EnterSlot(n, kinds, w, r).Entered?
    ensures var v := EnterSlot(n, kinds, w, r).world; var t0 := w.issued[r];
      if (t, c) == (t0, |LedgerAt(w, t0).order|) then
        !OnList(w, t, c) && (OnList(v, t, c) <==> Creates(n, kinds, w, r)) && Owner(v, t, c) == r
      else (OnList(v, t, c) <==> OnList(w, t, c)) && (OnList(w, t, c) ==> Owner(v, t, c) == Owner(w, t, c))
  {
    var t0 := w.issued[r];
    JoinsOwn(n, kinds, w, r);
    if t == t0 && c <= |LedgerAt(w, t0).order| { ListedJoin(kinds(t0), n, LedgerAt(w, t0), r, c); }
  }

  lemma EnterMoves(n: nat, kinds: nat -> L.Kind, w: World, r: nat, failed: set<(nat, nat)>)
    requires Matched(n, kinds) && WorldInv(n, kinds, w) && r < n && EnterSlot(n, kinds, w, r).Entered?
    requires FailedOk(w, failed) && Frozen(w, EnterSlot(n, kinds, w, r).world, failed)
    ensures var v := EnterSlot(n, kinds, w, r).world; var t0 := w.issued[r];
      if Creates(n, kinds, w, r) then OneMore(w, v, failed, t0, |LedgerAt(w, t0).order|, r)
      else SameCookies(w, v, failed)
  {
    var v, t0 := EnterSlot(n, kinds, w, r).world, w.issued[r];
    var me := |LedgerAt(w, t0).order|;
    OwnIsNew(n, kinds, w, r);
    NotDropped(n, kinds, w, failed, t0, me);
    EnterLists(n, kinds, w, r, t0, me);
    FrozenDropped(w, v, failed, t0, me);
    forall t: nat, c: nat | (t, c) != (t0, me)
      ensures Live(v, failed, t, c) <==> Live(w, failed, t, c)
      ensures OnList(w, t, c) ==> Owner(v, t, c) == Owner(w, t, c)
    {
      FrozenDropped(w, v, failed, t, c);
      EnterLists(n, kinds, w, r, t, c);
    }
  }

  lemma OwnIsNew(n: nat, kinds: nat -> L.Kind, w: World, r: nat)
    requires Matched(n, kinds) && WorldInv(n, kinds, w) && r < n && EnterSlot(n, kinds, w, r).Entered?
    ensures var t0 := w.issued[r]; t0 in w.ledgers ==> |w.ledgers[t0].procs| == |w.ledgers[t0].order|
  {
    if w.issued[r] in w.ledgers { assert LedgerOk(n, kinds, w, w.issued[r]); }
  }

  ghost predicate SystemOk(n: nat, kinds: nat -> L.Kind, sys: System) {
    WorldInv(n, kinds, sys.world) && FailedOk(sys.world, sys.failed) && NodesOk(n, sys.world, sys.failed, sys.nodes)
  }

  lemma {:induction false} AlwaysOk(n: nat, kinds: nat -> L.Kind, events: seq<Event>)
    requires n > 0 && Matched(n, kinds) && AfterEvents(n, kinds, events).Some?
    ensures SystemOk(n, kinds, AfterEvents(n, kinds, events).value)
  {
    if events == [] {
      WorldStarts(n, kinds);
    } else {
      var prior := events[..|events| - 1];
      AlwaysOk(n, kinds, prior);
      HappensOk(n, kinds, AfterEvents(n, kinds, prior).value, events[|events| - 1]);
    }
  }

  lemma EnterOk(n: nat, kinds: nat -> L.Kind, sys: System, r: nat, reuse: Option<nat>)
    requires n > 0 && Matched(n, kinds) && Possible(n, kinds, sys, EnterWith(r, reuse)) && SystemOk(n, kinds, sys)
    ensures SystemOk(n, kinds, Happens(n, kinds, sys, EnterWith(r, reuse)))
  {
    var w, v := sys.world, Happens(n, kinds, sys, EnterWith(r, reuse)).world;
    EnterInv(n, kinds, w, r);
    EnterFrozen(n, kinds, w, r, sys.failed);
    EnterMoves(n, kinds, w, r, sys.failed);
    if Creates(n, kinds, w, r) {
      Taken(n, w, v, sys.failed, sys.nodes, r, reuse, Cookie(w.issued[r], |LedgerAt(w, w.issued[r]).order|));
    } else {
      Unmoved(n, w, v, sys.failed, sys.nodes);
    }
  }

  lemma WorkOk(n: nat, kinds: nat -> L.Kind, sys: System, t: nat, a: L.Action)
    requires n > 0 && Possible(n, kinds, sys, Work(t, a)) && SystemOk(n, kinds, sys)
    ensures SystemOk(n, kinds, Happens(n, kinds, sys, Work(t, a)))
  {
    ActInv(n, kinds, sys.world, t, a);
    ActFrozen(n, kinds, sys.world, t, a, sys.failed);
    ActMoves(n, kinds, sys.world, t, a, sys.failed);
    Unmoved(n, sys.world, Acted(n, kinds, sys.world, t, a), sys.failed, sys.nodes);
  }

  lemma ReclaimOk(n: nat, kinds: nat -> L.Kind, sys: System, t: nat, c: nat, id: nat)
    requires n > 0 && Possible(n, kinds, sys, Reclaim(t, c, id)) && SystemOk(n, kinds, sys)
    ensures SystemOk(n, kinds, Happens(n, kinds, sys, Reclaim(t, c, id)))
  {
    ActInv(n, kinds, sys.world, t, L.Reclaim(c));
    ActFrozen(n, kinds, sys.world, t, L.Reclaim(c), sys.failed);
    ActMoves(n, kinds, sys.world, t, L.Reclaim(c), sys.failed);
    Freed(n, sys.world, Acted(n, kinds, sys.world, t, L.Reclaim(c)), sys.failed, sys.nodes, id, Free);
  }

  lemma HappensOk(n: nat, kinds: nat -> L.Kind, sys: System, e: Event)
    requires n > 0 && Matched(n, kinds) && Possible(n, kinds, sys, e) && SystemOk(n, kinds, sys)
    ensures SystemOk(n, kinds, Happens(n, kinds, sys, e))
  {
    var w := sys.world;
    match e
    case EnterWith(r, reuse) => EnterOk(n, kinds, sys, r, reuse);
    case Work(t, a) => WorkOk(n, kinds, sys, t, a);
    case Fail(t, k) => DestroyedOk(n, w, sys.failed, sys.nodes, t, k);
    case Reclaim(t, c, id) => ReclaimOk(n, kinds, sys, t, c, id);
    case TakeMessage(home, reuse) => Taken(n, w, w, sys.failed, sys.nodes, home, reuse, Message);
    case DropMessage(id) => Freed(n, w, w, sys.failed, sys.nodes, id, Free);
    case Erase(id) => Freed(n, w, w, sys.failed, sys.nodes, id, Erased);
  }

  // ---------- main results ----------

  /**
    In every run of collectives and messages, a request that has not been left refers to exactly one
    node, its owner's, unless that was destroyed with the private list of a rank whose call failed. The
    node is on exactly one list: the box of the slot the collective is in, one rank's private list, or the
    pending list. It is never the node that is reset, put on a free list or given back, and only the
    failure of the rank on whose private list it is destroys it.
   */
  lemma {:induction false} HandleSafety(n: nat, kinds: nat -> L.Kind, events: seq<Event>, t: nat, k: nat, e: Event)
    returns (id: nat)
    requires n > 0 && Matched(n, kinds) && AfterEvents(n, kinds, events).Some?
    requires var sys := AfterEvents(n, kinds, events).value;
      t in sys.world.ledgers && k < |sys.world.ledgers[t].procs| && sys.world.ledgers[t].procs[k].phase != L.Left
      && !Dropped(sys.world, sys.failed, t, sys.world.ledgers[t].procs[k].handle)
    ensures var sys := AfterEvents(n, kinds, events).value; var s := sys.world.ledgers[t]; var c := s.procs[k].handle;
      && id < |sys.nodes| && c < |s.order| == |s.cookies|
      && sys.nodes[id] == Node(s.order[c], Cookie(t, c))
      && (forall other :: 0 <= other < |sys.nodes| && sys.nodes[other].holder == Cookie(t, c) ==> other == id)
      && OnOneList(n, sys.world, t, c)
      && (Possible(n, kinds, sys, e) && !(e.Fail? && e.number == t && c in ListOf(sys.world, t, e.pos)) ==>
            id < |Happens(n, kinds, sys, e).nodes| && Happens(n, kinds, sys, e).nodes[id] == sys.nodes[id])
  {
    AlwaysOk(n, kinds, events);
    var sys := AfterEvents(n, kinds, events).value;
    var w := sys.world;
    var c := w.ledgers[t].procs[k].handle;
    HandleIsLive(n, kinds, w, t, k);
    ListedOnce(n, kinds, w, t, c);
    assert Live(w, sys.failed, t, c);
    id :| 0 <= id < |sys.nodes| && sys.nodes[id].holder == Cookie(t, c);
    if Possible(n, kinds, sys, e) && !(e.Fail? && e.number == t && c in ListOf(w, t, e.pos)) {
      KeepsNode(n, kinds, sys, e, id, t, c);
    }
  }

  lemma HandleIsLive(n: nat, kinds: nat -> L.Kind, w: World, t: nat, k: nat)
    requires WorldInv(n, kinds, w) && t in w.ledgers
    requires k < |w.ledgers[t].procs| && w.ledgers[t].procs[k].phase != L.Left
    ensures var s := w.ledgers[t]; var c := s.procs[k].handle;
      && |s.order| == |s.cookies| == |s.procs| && c < |s.order| && OnList(w, t, c) && s.cookies[c].used > 0
  {
    var s := w.ledgers[t];
    assert LedgerOk(n, kinds, w, t);
    assert ProcInv(s, k);
    assert CookieInv(kinds(t), n, s, s.procs[k].handle);
    T.HolderCounted(s.procs, k, s.procs[k].handle);
  }

  /** Cookie c is in the box of the slot that the collective has claimed, or on one private list, or pending. */
  ghost predicate OnOneList(n: nat, w: World, t: nat, c: nat)
    requires t in w.ledgers && c < |w.ledgers[t].cookies|
  {
    var s := w.ledgers[t];
    var boxed := Sized(n, w) && w.slots[t % R.SLOTS].number == t && c in Box(w, t % R.SLOTS);
    match s.cookies[c].place
    case InBox => boxed && L.Owed(s.procs, true, c) == 0
    case InTodo => !boxed && L.Owed(s.procs, true, c) == 1
    case InPending => !boxed && L.Owed(s.procs, true, c) == 0
    case _ => false
  }

  lemma ListedOnce(n: nat, kinds: nat -> L.Kind, w: World, t: nat, c: nat)
    requires WorldInv(n, kinds, w) && OnList(w, t, c)
    ensures OnOneList(n, w, t, c)
  {
    var s := w.ledgers[t];
    assert LedgerOk(n, kinds, w, t);
    assert CookieInv(kinds(t), n, s, c);
    if c in s.box { BoxInSlot(n, kinds, w, t); }
  }

  /** A collective with cookies in its box is the one that its slot belongs to. */
  lemma BoxInSlot(n: nat, kinds: nat -> L.Kind, w: World, t: nat)
    requires WorldInv(n, kinds, w) && t in w.ledgers && w.ledgers[t].box != []
    ensures w.slots[t % R.SLOTS].number == t
  {
    var s := w.ledgers[t];
    assert LedgerOk(n, kinds, w, t);
    var first := s.order[0];
    var missing := T.MissingRank(s.order, n);
    assert w.issued[first] > t && w.issued[missing] <= t;
    R.PassedBounds(w.issued, t);
    assert R.Underway(n, RingOf(w), t);
    assert RingOf(w).slots[t % R.SLOTS] == SlotOf(w, t % R.SLOTS);
  }

  /** No event touches a node whose cookie is in use, but the failure of the rank on whose list it is. */
  lemma KeepsNode(n: nat, kinds: nat -> L.Kind, sys: System, e: Event, id: nat, t: nat, c: nat)
    requires Possible(n, kinds, sys, e) && NodesOk(n, sys.world, sys.failed, sys.nodes)
    requires id < |sys.nodes| && sys.nodes[id].holder == Cookie(t, c) && OnList(sys.world, t, c)
    requires sys.world.ledgers[t].cookies[c].used > 0
    requires !(e.Fail? && e.number == t && c in ListOf(sys.world, t, e.pos))
    ensures id < |Happens(n, kinds, sys, e).nodes| && Happens(n, kinds, sys, e).nodes[id] == sys.nodes[id]
  {
  }
}
