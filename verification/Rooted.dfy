/**
  Bcast, scatter and gather(v): what the buffers hold, for every arrival order and interleaving.
  Counts, offsets and buffers are in elements; a rank's buffer is the one its request registers.
 */
module RootedCollectives {
  import opened Basics
  import opened Ledger
  import opened LedgerPlans
  import opened LedgerRuns
  import opened LedgerTheorems
  import opened LedgerProgress

  /**
    Rank r's segment of the root's buffer starts at `late[r]` when the root serves a rank that came
    before it, and at `early[r]` when a rank that came after the root serves itself. `total` is the
    size the root registers: every transfer is checked against it, whatever the buffer's length.
   */
  datatype Spec = Spec(n: nat, root: nat, toLeaves: bool, total: nat, early: seq<nat>, late: seq<nat>, len: seq<nat>)

  function KindOf(sp: Spec): Kind { Rooted(sp.root, sp.toLeaves) }

  function Bcast(n: nat, root: nat, count: nat): Spec {
    Spec(n, root, true, count, seq(n, _ => 0), seq(n, _ => 0), seq(n, _ => count))
  }

  function Scatter(n: nat, root: nat, count: nat): Spec {
    Spec(n, root, true, count * n, seq(n, r => count * r), seq(n, r => count * r), seq(n, _ => count))
  }

  /** Gatherv registers the sum of the counts, gaps between the segments not included. */
  function Gatherv(n: nat, root: nat, counts: seq<nat>, displs: seq<nat>): Spec {
    Spec(n, root, false, SumOf(counts), displs, displs, counts)
  }

  /** Gather's late path seeks to the source rank itself, not to count times the rank. */
  function Gather(n: nat, root: nat, count: nat): Spec {
    Spec(n, root, false, count * n, seq(n, r => count * r), seq(n, r => r), seq(n, _ => count))
  }

  /** Overwrite part of a buffer; a piece that does not fit is refused. */
  function Put<V>(dst: seq<V>, at: nat, piece: seq<V>): (r: seq<V>)
    ensures |r| == |dst|
    ensures at + |piece| <= |dst| ==>
      forall i :: 0 <= i < |r| ==> r[i] == if at <= i < at + |piece| then piece[i - at] else dst[i]
  {
    if at + |piece| <= |dst| then dst[..at] + piece + dst[at + |piece|..] else dst
  }

  function Piece<V>(src: seq<V>, at: nat, len: nat): seq<V> {
    if at + len <= |src| then src[at..at + len] else []
  }

  predicate Shape<V>(sp: Spec, mem: seq<seq<V>>) {
    && |mem| == |sp.early| == |sp.late| == |sp.len| == sp.n
    && Sizes(KindOf(sp), sp.n)
  }

  /** The size check of leaf r's transfer, made by the root when it is late and by the leaf otherwise. */
  predicate Accepts(sp: Spec, r: nat, late: bool)
    requires r < |sp.early| && r < |sp.late| && r < |sp.len|
  {
    if late then sp.toLeaves || sp.late[r] + sp.len[r] <= sp.total else sp.early[r] + sp.len[r] <= sp.total
  }

  /** The bytes moved by position k's transfer `it`: none when it is refused. */
  function Transfer<V>(sp: Spec, order: seq<nat>, k: nat, it: Item, mem: seq<seq<V>>): (after: seq<seq<V>>)
    requires Shape(sp, mem) && k < |order| && it.cookie < |order|
    requires forall i :: 0 <= i < |order| ==> order[i] < sp.n
    ensures |after| == |mem|
  {
    var me, other := order[k], order[it.cookie];
    var late := it == RootItem(sp, it.cookie);
    if it.Move? || !Accepts(sp, if late then other else me, late) then mem
    else if sp.toLeaves then
      if late then mem[other := Put(mem[other], 0, Piece(mem[me], sp.late[other], sp.len[other]))]
      else mem[me := Put(mem[me], 0, Piece(mem[other], sp.early[me], sp.len[me]))]
    else
      if late then mem[me := Put(mem[me], sp.late[other], Piece(mem[other], 0, sp.len[other]))]
      else mem[other := Put(mem[other], sp.early[me], Piece(mem[me], 0, sp.len[me]))]
  }

  /** Only copies move bytes. */
  function Effect<V>(sp: Spec, s: State, a: Action, mem: seq<seq<V>>): (after: seq<seq<V>>)
    requires Shape(sp, mem) && Inv(KindOf(sp), sp.n, s) && WellFormed(sp.n, s)
    requires Enabled(KindOf(sp), sp.n, s, a)
    ensures |after| == |mem|
  {
    if a.Copy? then Transfer(sp, s.order, a.pos, s.procs[a.pos].script[0], mem) else mem
  }

  /** The buffers after a run. */
  function Buffers<V>(sp: Spec, acts: seq<Action>, init: seq<seq<V>>): (mem: seq<seq<V>>)
    requires Shape(sp, init) && After(KindOf(sp), sp.n, acts).Some?
    ensures |mem| == |init|
  {
    if acts == [] then init else
    var prior := acts[..|acts| - 1];
    Effect(sp, After(KindOf(sp), sp.n, prior).value, acts[|acts| - 1], Buffers(sp, prior, init))
  }

  // ---------- who has been served ----------

  function RootItem(sp: Spec, c: nat): Item { if sp.toLeaves then Write(c) else Read(c) }
  function LeafItem(sp: Spec, c: nat): Item { if sp.toLeaves then Read(c) else Write(c) }

  ghost predicate TypedItem(sp: Spec, order: seq<nat>, k: nat, it: Item) {
    && k < |order| && it.cookie < k
    && (if order[k] == sp.root then order[it.cookie] != sp.root && (it.Move? || it == RootItem(sp, it.cookie))
        else order[it.cookie] == sp.root && it == LeafItem(sp, it.cookie))
  }

  ghost predicate Typed(sp: Spec, s: State) {
    forall k, i :: 0 <= k < |s.procs| && 0 <= i < |Uncopied(s.procs[k])| ==>
      TypedItem(sp, s.order, k, Uncopied(s.procs[k])[i])
  }

  /** The transfer for the leaf at position j has moved its bytes. */
  ghost predicate Served(sp: Spec, s: State, j: nat)
    requires j < |s.order| == |s.procs|
  {
    && sp.root in s.order
    && var p := IndexOf(s.order, sp.root);
       if j < p then RootItem(sp, j) !in Uncopied(s.procs[p]) else Uncopied(s.procs[j]) == []
  }

  ghost predicate Serves(sp: Spec, s: State, a: Action, j: nat)
    requires |s.order| == |s.procs|
  {
    && a.Copy? && a.pos < |s.procs| && s.procs[a.pos].script != []
    && var it := s.procs[a.pos].script[0];
       || (s.order[a.pos] == sp.root && it == RootItem(sp, j))
       || (a.pos == j && s.order[j] != sp.root && it.cookie < |s.order| && s.order[it.cookie] == sp.root
           && it == LeafItem(sp, it.cookie))
  }

  lemma TypedNewcomer(sp: Spec, s: State, r: nat, i: nat)
    requires Inv(KindOf(sp), sp.n, s) && WellFormed(sp.n, s) && Enabled(KindOf(sp), sp.n, s, Join(r))
    requires i < |PlanFor(KindOf(sp), sp.n, s.order, s.box, r).script|
    ensures TypedItem(sp, s.order + [r], |s.order|, PlanFor(KindOf(sp), sp.n, s.order, s.box, r).script[i])
  {
    if r == sp.root { ServeItems(s.box, sp.toLeaves, i); }
  }

  lemma TypedStep(sp: Spec, s: State, a: Action)
    requires Inv(KindOf(sp), sp.n, s) && WellFormed(sp.n, s) && Enabled(KindOf(sp), sp.n, s, a) && Typed(sp, s)
    ensures Typed(sp, Next(KindOf(sp), sp.n, s, a))
  {
    var t := Next(KindOf(sp), sp.n, s, a);
    if a.Join? { UncopiedJoin(KindOf(sp), sp.n, s, a.rank); } else { OtherSteps(KindOf(sp), sp.n, s, a); }
    forall k, i | 0 <= k < |t.procs| && 0 <= i < |Uncopied(t.procs[k])|
      ensures TypedItem(sp, t.order, k, Uncopied(t.procs[k])[i])
    {
      if k < |s.procs| {
        UncopiedStep(KindOf(sp), sp.n, s, a, k);
        var from := if Consumes(a, k) then i + 1 else i;
        assert TypedItem(sp, s.order, k, Uncopied(s.procs[k])[from]);
      } else {
        TypedNewcomer(sp, s, a.rank, i);
      }
    }
  }

  lemma IndexOfPrefix(order: seq<nat>, r: nat, x: nat)
    requires x in order && r !in order
    ensures x in order + [r] && IndexOf(order + [r], x) == IndexOf(order, x)
  {
    IndexOfAppend(order, r, x);
  }

  lemma ServedJoin(sp: Spec, s: State, r: nat, j: nat)
    requires Inv(KindOf(sp), sp.n, s) && WellFormed(sp.n, s) && Enabled(KindOf(sp), sp.n, s, Join(r))
    requires j < |s.order| && s.order[j] != sp.root
    ensures |Next(KindOf(sp), sp.n, s, Join(r)).procs| == |Next(KindOf(sp), sp.n, s, Join(r)).order| == |s.order| + 1
    ensures Served(sp, Next(KindOf(sp), sp.n, s, Join(r)), j) ==> Served(sp, s, j)
  {
    UncopiedJoin(KindOf(sp), sp.n, s, r);
    UncopiedStep(KindOf(sp), sp.n, s, Join(r), j);
    if sp.root in s.order {
      IndexOfPrefix(s.order, r, sp.root);
      UncopiedStep(KindOf(sp), sp.n, s, Join(r), IndexOf(s.order, sp.root));
    } else if r == sp.root {
      IndexOfAppend(s.order, r, sp.root);
      BoxHolds(KindOf(sp), sp.n, s.order, j);
      ServeReaches(s.box, sp.toLeaves, j);
    }
  }

  /** A leaf becomes served only by the copy of its own transfer. */
  lemma {:induction false} ServedStep(sp: Spec, s: State, a: Action, j: nat)
    requires Inv(KindOf(sp), sp.n, s) && WellFormed(sp.n, s) && Enabled(KindOf(sp), sp.n, s, a) && Typed(sp, s)
    requires j < |s.order| && s.order[j] != sp.root && !a.Join?
    ensures |Next(KindOf(sp), sp.n, s, a).procs| == |Next(KindOf(sp), sp.n, s, a).order|
    ensures Next(KindOf(sp), sp.n, s, a).order == s.order
    ensures Served(sp, Next(KindOf(sp), sp.n, s, a), j) ==> Served(sp, s, j) || Serves(sp, s, a, j)
  {
    OtherSteps(KindOf(sp), sp.n, s, a);
    UncopiedStep(KindOf(sp), sp.n, s, a, j);
    if sp.root in s.order {
      UncopiedStep(KindOf(sp), sp.n, s, a, IndexOf(s.order, sp.root));
      assert Consumes(a, j) ==> TypedItem(sp, s.order, j, Uncopied(s.procs[j])[0]);
    }
  }

  lemma NewcomerNotServed(sp: Spec, s: State, r: nat)
    requires Inv(KindOf(sp), sp.n, s) && WellFormed(sp.n, s) && Enabled(KindOf(sp), sp.n, s, Join(r)) && r != sp.root
    ensures var t := Next(KindOf(sp), sp.n, s, Join(r));
      |t.procs| == |t.order| == |s.order| + 1 && !Served(sp, t, |s.order|)
  {
    UncopiedJoin(KindOf(sp), sp.n, s, r);
    if sp.root in s.order {
      IndexOfPrefix(s.order, r, sp.root);
    }
  }

  // ---------- what the buffers hold ----------

  /** The caller's side: every segment lies inside the root's buffer, and every leaf has its elements. */
  predicate Legal<V>(sp: Spec, init: seq<seq<V>>) {
    && Shape(sp, init)
    && forall r :: 0 <= r < sp.n && r != sp.root ==>
         sp.early[r] + sp.len[r] <= |init[sp.root]| && sp.len[r] <= |init[r]|
  }

  /** Legal buffers, and for every segment that is not empty one place and no refusal. */
  predicate Fits<V>(sp: Spec, init: seq<seq<V>>) {
    && Legal(sp, init)
    && forall r :: 0 <= r < sp.n && r != sp.root ==>
         sp.len[r] == 0 || (sp.early[r] == sp.late[r] && Accepts(sp, r, false) && Accepts(sp, r, true))
  }

  /** No transfer of the operation is ever refused. */
  predicate Admitted(sp: Spec)
    requires |sp.early| == |sp.late| == |sp.len| == sp.n
  {
    forall r :: 0 <= r < sp.n && r != sp.root ==> Accepts(sp, r, false) && Accepts(sp, r, true)
  }

  /** The leaves contribute nothing. */
  predicate Empty(sp: Spec)
    requires |sp.len| == sp.n
  {
    !sp.toLeaves && forall r :: 0 <= r < sp.n && r != sp.root ==> sp.len[r] == 0
  }

  predicate InSegment(sp: Spec, r: nat, i: nat)
    requires r < |sp.early| && r < |sp.len|
  {
    sp.early[r] <= i < sp.early[r] + sp.len[r]
  }

  ghost predicate Disjoint(sp: Spec)
    requires |sp.early| == |sp.len| == sp.n
  {
    forall q, r, i: nat :: 0 <= q < sp.n && 0 <= r < sp.n && q != sp.root && r != sp.root && q != r ==>
      !(InSegment(sp, q, i) && InSegment(sp, r, i))
  }

  /** A leaf's buffer once it has received its segment of the root's original buffer. */
  function Received<V>(sp: Spec, init: seq<seq<V>>, r: nat): seq<V>
    requires Fits(sp, init) && r < sp.n && r != sp.root
  {
    Put(init[r], 0, init[sp.root][sp.early[r]..sp.early[r] + sp.len[r]])
  }

  /** Leaf r's original contribution stands in its segment of the root's buffer. */
  ghost predicate Collected<V>(sp: Spec, init: seq<seq<V>>, root: seq<V>, r: nat)
    requires Fits(sp, init) && r < sp.n && r != sp.root && |root| == |init[sp.root]|
  {
    root[sp.early[r]..sp.early[r] + sp.len[r]] == init[r][..sp.len[r]]
  }

  ghost predicate OutsideKept<V>(sp: Spec, init: seq<seq<V>>, root: seq<V>)
    requires Fits(sp, init) && |root| == |init[sp.root]|
  {
    forall i :: 0 <= i < |root| ==>
      root[i] == init[sp.root][i] || exists r :: 0 <= r < sp.n && r != sp.root && InSegment(sp, r, i)
  }

  ghost predicate Leafward<V>(sp: Spec, init: seq<seq<V>>, s: State, mem: seq<seq<V>>) {
    && Fits(sp, init) && |mem| == sp.n && |s.order| == |s.procs|
    && mem[sp.root] == init[sp.root]
    && (forall r :: 0 <= r < sp.n && r != sp.root ==> mem[r] == init[r] || mem[r] == Received(sp, init, r))
    && (forall j :: 0 <= j < |s.order| && s.order[j] < sp.n && s.order[j] != sp.root && Served(sp, s, j) ==>
          mem[s.order[j]] == Received(sp, init, s.order[j]))
  }

  ghost predicate Rootward<V>(sp: Spec, init: seq<seq<V>>, s: State, mem: seq<seq<V>>) {
    && Fits(sp, init) && |mem| == sp.n && |s.order| == |s.procs|
    && (forall r :: 0 <= r < sp.n && r != sp.root ==> mem[r] == init[r])
    && |mem[sp.root]| == |init[sp.root]|
    && OutsideKept(sp, init, mem[sp.root])
    && (forall j :: 0 <= j < |s.order| && s.order[j] < sp.n && s.order[j] != sp.root && Served(sp, s, j) ==>
          Collected(sp, init, mem[sp.root], s.order[j]))
  }

  /** Position k waits on a cookie of its own, or there was one to share. */
  ghost predicate HandleFits(sp: Spec, order: seq<nat>, k: nat, handle: nat)
    requires k < |order|
  {
    handle != k ==> if order[k] == sp.root then k + 1 == sp.n else sp.root in order[..k]
  }

  /** A request is a rank's own cookie, or one it joined: the root only as last, a leaf only after the root. */
  ghost predicate Handles(sp: Spec, s: State)
    requires |s.procs| == |s.order|
  {
    forall k :: 0 <= k < |s.order| ==> HandleFits(sp, s.order, k, s.procs[k].handle)
  }

  ghost predicate DataInv<V>(sp: Spec, init: seq<seq<V>>, s: State, mem: seq<seq<V>>) {
    && |s.order| == |s.procs|
    && Typed(sp, s) && Handles(sp, s)
    && (if sp.toLeaves then Leafward(sp, init, s, mem) else Rootward(sp, init, s, mem))
  }

  /** Which leaf a copy serves, and from which end. */
  lemma CopyServes(sp: Spec, s: State, k: nat) returns (j: nat)
    requires Inv(KindOf(sp), sp.n, s) && WellFormed(sp.n, s) && Enabled(KindOf(sp), sp.n, s, Copy(k)) && Typed(sp, s)
    ensures j < |s.order| && s.order[j] != sp.root && s.procs[k].script[0].cookie < k
    ensures var it := s.procs[k].script[0];
      || (s.order[k] == sp.root && it == RootItem(sp, j))
      || (k == j && s.order[it.cookie] == sp.root
           && it == LeafItem(sp, it.cookie))
    ensures ServesLeaf(sp, s.order, k, s.procs[k].script[0], s.order[j])
    ensures forall i :: 0 <= i < |s.order| && s.order[i] != sp.root && Serves(sp, s, Copy(k), i) ==> i == j
  {
    assert Uncopied(s.procs[k])[0] == s.procs[k].script[0];
    assert TypedItem(sp, s.order, k, s.procs[k].script[0]);
    j := if s.order[k] == sp.root then s.procs[k].script[0].cookie else k;
  }

  lemma PutNothing<V>(dst: seq<V>, at: nat)
    ensures Put(dst, at, []) == dst
  {
  }

  lemma PutTwice<V>(dst: seq<V>, piece: seq<V>)
    requires |piece| <= |dst|
    ensures Put(Put(dst, 0, piece), 0, piece) == Put(dst, 0, piece)
  {
  }

  /** The copy serves leaf r, from the root's end or from its own. */
  predicate ServesLeaf(sp: Spec, order: seq<nat>, k: nat, it: Item, r: nat)
    requires k < |order| && it.cookie < |order|
  {
    || (order[k] == sp.root && order[it.cookie] == r && it == RootItem(sp, it.cookie))
    || (order[k] == r && order[it.cookie] == sp.root && it == LeafItem(sp, it.cookie))
  }

  /** Early or late, the copy that serves leaf r moves the same elements to the same place. */
  lemma TransferMoves<V>(sp: Spec, init: seq<seq<V>>, order: seq<nat>, k: nat, it: Item, mem: seq<seq<V>>, r: nat)
    requires Fits(sp, init) && |mem| == sp.n && |mem[sp.root]| == |init[sp.root]|
    requires k < |order| && it.cookie < |order| && forall i :: 0 <= i < |order| ==> order[i] < sp.n
    requires r < sp.n && r != sp.root && |mem[r]| == |init[r]| && ServesLeaf(sp, order, k, it, r)
    ensures Transfer(sp, order, k, it, mem) ==
      if sp.toLeaves then mem[r := Put(mem[r], 0, mem[sp.root][sp.early[r]..sp.early[r] + sp.len[r]])]
      else mem[sp.root := Put(mem[sp.root], sp.early[r], mem[r][..sp.len[r]])]
  {
    if sp.len[r] == 0 {
      assert mem[r][..0] == [] && mem[sp.root][sp.early[r]..sp.early[r]] == [];
      PutNothing(mem[r], 0);
      PutNothing(mem[sp.root], sp.early[r]);
      PutNothing(mem[sp.root], sp.late[r]);
      assert Piece(mem[r], 0, 0) == [] && Piece(mem[sp.root], sp.late[r], 0) == [];
    }
  }

  /** A leaf receives its block; no other leaf becomes served. */
  lemma LeafwardMoved<V>(sp: Spec, init: seq<seq<V>>, s: State, t: State, mem: seq<seq<V>>, r: nat)
    requires Leafward(sp, init, s, mem) && t.order == s.order && |t.procs| == |s.procs| && r < sp.n && r != sp.root
    requires forall i :: 0 <= i < |t.order| && t.order[i] < sp.n && t.order[i] != sp.root && Served(sp, t, i) ==>
      Served(sp, s, i) || s.order[i] == r
    ensures Leafward(sp, init, t, mem[r := Received(sp, init, r)])
  {
  }

  lemma LeafMoves<V>(sp: Spec, init: seq<seq<V>>, order: seq<nat>, k: nat, it: Item, mem: seq<seq<V>>, r: nat)
    requires Fits(sp, init) && |mem| == sp.n && mem[sp.root] == init[sp.root] && sp.toLeaves
    requires k < |order| && it.cookie < |order| && forall i :: 0 <= i < |order| ==> order[i] < sp.n
    requires r < sp.n && r != sp.root && ServesLeaf(sp, order, k, it, r)
    requires mem[r] == init[r] || mem[r] == Received(sp, init, r)
    ensures Transfer(sp, order, k, it, mem) == mem[r := Received(sp, init, r)]
  {
    TransferMoves(sp, init, order, k, it, mem, r);
    PutTwice(init[r], init[sp.root][sp.early[r]..sp.early[r] + sp.len[r]]);
  }

  lemma LeafwardEffect<V>(sp: Spec, init: seq<seq<V>>, s: State, mem: seq<seq<V>>, k: nat, r: nat)
    requires Inv(KindOf(sp), sp.n, s) && WellFormed(sp.n, s) && Enabled(KindOf(sp), sp.n, s, Copy(k))
    requires sp.toLeaves && Leafward(sp, init, s, mem) && r < sp.n && r != sp.root
    requires ServesLeaf(sp, s.order, k, s.procs[k].script[0], r)
    ensures Effect(sp, s, Copy(k), mem) == mem[r := Received(sp, init, r)]
  {
    LeafMoves(sp, init, s.order, k, s.procs[k].script[0], mem, r);
  }

  lemma LeafwardCopy<V>(sp: Spec, init: seq<seq<V>>, s: State, mem: seq<seq<V>>, k: nat)
    requires Inv(KindOf(sp), sp.n, s) && WellFormed(sp.n, s) && Enabled(KindOf(sp), sp.n, s, Copy(k)) && Typed(sp, s)
    requires sp.toLeaves && Leafward(sp, init, s, mem)
    ensures Leafward(sp, init, Next(KindOf(sp), sp.n, s, Copy(k)), Effect(sp, s, Copy(k), mem))
  {
    var t := Next(KindOf(sp), sp.n, s, Copy(k));
    var j := CopyServes(sp, s, k);
    LeafwardEffect(sp, init, s, mem, k, s.order[j]);
    forall i | 0 <= i < |t.order| && t.order[i] < sp.n && t.order[i] != sp.root && Served(sp, t, i)
      ensures Served(sp, s, i) || s.order[i] == s.order[j]
    {
      ServedStep(sp, s, Copy(k), i);
    }
    LeafwardMoved(sp, init, s, t, mem, s.order[j]);
  }

  lemma CollectedPut<V>(sp: Spec, init: seq<seq<V>>, root: seq<V>, r: nat, q: nat)
    requires Fits(sp, init) && Disjoint(sp) && r < sp.n && r != sp.root && |root| == |init[sp.root]|
    requires q < sp.n && q != sp.root && (q == r || Collected(sp, init, root, q))
    ensures Collected(sp, init, Put(root, sp.early[r], init[r][..sp.len[r]]), q)
  {
    var after := Put(root, sp.early[r], init[r][..sp.len[r]]);
    forall i | 0 <= i < sp.len[q] ensures after[sp.early[q] + i] == init[q][i] {
      assert InSegment(sp, q, sp.early[q] + i);
      if q != r {
        assert !InSegment(sp, r, sp.early[q] + i);
        assert root[sp.early[q]..sp.early[q] + sp.len[q]][i] == init[q][..sp.len[q]][i];
      }
    }
  }

  lemma OutsidePut<V>(sp: Spec, init: seq<seq<V>>, root: seq<V>, r: nat)
    requires Fits(sp, init) && r < sp.n && r != sp.root && |root| == |init[sp.root]| && OutsideKept(sp, init, root)
    ensures OutsideKept(sp, init, Put(root, sp.early[r], init[r][..sp.len[r]]))
  {
    var after := Put(root, sp.early[r], init[r][..sp.len[r]]);
    forall i | 0 <= i < |after|
      ensures after[i] == init[sp.root][i] || exists q :: 0 <= q < sp.n && q != sp.root && InSegment(sp, q, i)
    {
      if InSegment(sp, r, i) {} else { assert after[i] == root[i]; }
    }
  }

  lemma RootwardEffect<V>(sp: Spec, init: seq<seq<V>>, s: State, mem: seq<seq<V>>, k: nat, r: nat)
    requires Inv(KindOf(sp), sp.n, s) && WellFormed(sp.n, s) && Enabled(KindOf(sp), sp.n, s, Copy(k))
    requires !sp.toLeaves && Rootward(sp, init, s, mem) && r < sp.n && r != sp.root
    requires ServesLeaf(sp, s.order, k, s.procs[k].script[0], r)
    ensures Effect(sp, s, Copy(k), mem) == mem[sp.root := Put(mem[sp.root], sp.early[r], init[r][..sp.len[r]])]
  {
    TransferMoves(sp, init, s.order, k, s.procs[k].script[0], mem, r);
  }

  lemma RootwardMoved<V>(sp: Spec, init: seq<seq<V>>, s: State, t: State, mem: seq<seq<V>>, r: nat)
    requires !sp.toLeaves && Rootward(sp, init, s, mem) && Disjoint(sp) && r < sp.n && r != sp.root
    requires t.order == s.order && |t.procs| == |s.procs|
    requires forall i :: 0 <= i < |t.order| && t.order[i] < sp.n && t.order[i] != sp.root && Served(sp, t, i) ==>
      Served(sp, s, i) || s.order[i] == r
    ensures Rootward(sp, init, t, mem[sp.root := Put(mem[sp.root], sp.early[r], init[r][..sp.len[r]])])
  {
    OutsidePut(sp, init, mem[sp.root], r);
    forall i | 0 <= i < |t.order| && t.order[i] < sp.n && t.order[i] != sp.root && Served(sp, t, i)
      ensures Collected(sp, init, Put(mem[sp.root], sp.early[r], init[r][..sp.len[r]]), t.order[i])
    {
      CollectedPut(sp, init, mem[sp.root], r, t.order[i]);
    }
  }

  lemma RootwardCopy<V>(sp: Spec, init: seq<seq<V>>, s: State, mem: seq<seq<V>>, k: nat)
    requires Inv(KindOf(sp), sp.n, s) && WellFormed(sp.n, s) && Enabled(KindOf(sp), sp.n, s, Copy(k)) && Typed(sp, s)
    requires !sp.toLeaves && Rootward(sp, init, s, mem) && Disjoint(sp)
    ensures Rootward(sp, init, Next(KindOf(sp), sp.n, s, Copy(k)), Effect(sp, s, Copy(k), mem))
  {
    var t := Next(KindOf(sp), sp.n, s, Copy(k));
    var j := CopyServes(sp, s, k);
    RootwardEffect(sp, init, s, mem, k, s.order[j]);
    forall i | 0 <= i < |t.order| && t.order[i] < sp.n && t.order[i] != sp.root && Served(sp, t, i)
      ensures Served(sp, s, i) || s.order[i] == s.order[j]
    {
      ServedStep(sp, s, Copy(k), i);
    }
    RootwardMoved(sp, init, s, t, mem, s.order[j]);
  }

  /** No leaf becomes served. */
  ghost predicate NoneServed(sp: Spec, s: State, t: State)
    requires |s.order| == |s.procs| && |t.order| == |t.procs|
  {
    forall i :: 0 <= i < |t.order| && t.order[i] < sp.n && t.order[i] != sp.root && Served(sp, t, i) ==>
      i < |s.order| && t.order[i] == s.order[i] && Served(sp, s, i)
  }

  lemma {:induction false} NoneServedStep(sp: Spec, s: State, a: Action)
    requires Inv(KindOf(sp), sp.n, s) && WellFormed(sp.n, s) && Enabled(KindOf(sp), sp.n, s, a)
    requires !a.Copy? && Typed(sp, s)
    ensures var t := Next(KindOf(sp), sp.n, s, a); |t.order| == |t.procs| && NoneServed(sp, s, t)
  {
    var t := Next(KindOf(sp), sp.n, s, a);
    if a.Join? { UncopiedJoin(KindOf(sp), sp.n, s, a.rank); } else { OtherSteps(KindOf(sp), sp.n, s, a); }
    forall i | 0 <= i < |t.order| && t.order[i] < sp.n && t.order[i] != sp.root && Served(sp, t, i)
      ensures i < |s.order| && t.order[i] == s.order[i] && Served(sp, s, i)
    {
      if a.Join? {
        if i == |s.order| { NewcomerNotServed(sp, s, a.rank); } else { ServedJoin(sp, s, a.rank, i); }
      } else {
        ServedStep(sp, s, a, i);
      }
    }
  }

  lemma QuietStep<V>(sp: Spec, init: seq<seq<V>>, s: State, t: State, mem: seq<seq<V>>)
    requires |s.order| == |s.procs| && |t.order| == |t.procs| && NoneServed(sp, s, t)
    requires if sp.toLeaves then Leafward(sp, init, s, mem) else Rootward(sp, init, s, mem)
    ensures if sp.toLeaves then Leafward(sp, init, t, mem) else Rootward(sp, init, t, mem)
  {
  }

  lemma NewHandle(sp: Spec, s: State, r: nat)
    requires Inv(KindOf(sp), sp.n, s) && WellFormed(sp.n, s) && Enabled(KindOf(sp), sp.n, s, Join(r))
    ensures HandleFits(sp, s.order + [r], |s.order|, PlanFor(KindOf(sp), sp.n, s.order, s.box, r).handle)
  {
    assert (s.order + [r])[..|s.order|] == s.order;
  }

  lemma {:induction false} HandlesStep(sp: Spec, s: State, a: Action)
    requires Inv(KindOf(sp), sp.n, s) && WellFormed(sp.n, s) && Enabled(KindOf(sp), sp.n, s, a) && Handles(sp, s)
    ensures |Next(KindOf(sp), sp.n, s, a).procs| == |Next(KindOf(sp), sp.n, s, a).order|
    ensures Handles(sp, Next(KindOf(sp), sp.n, s, a))
  {
    var t := Next(KindOf(sp), sp.n, s, a);
    if a.Join? { UncopiedJoin(KindOf(sp), sp.n, s, a.rank); } else { OtherSteps(KindOf(sp), sp.n, s, a); }
    forall k | 0 <= k < |t.order| ensures HandleFits(sp, t.order, k, t.procs[k].handle) {
      if k < |s.order| {
        UncopiedStep(KindOf(sp), sp.n, s, a, k);
        assert t.order[..k] == s.order[..k] && HandleFits(sp, s.order, k, s.procs[k].handle);
      } else {
        NewHandle(sp, s, a.rank);
      }
    }
  }

  lemma {:induction false} AlwaysTyped(sp: Spec, acts: seq<Action>)
    requires Sizes(KindOf(sp), sp.n) && After(KindOf(sp), sp.n, acts).Some?
    ensures Typed(sp, After(KindOf(sp), sp.n, acts).value)
    ensures var s := After(KindOf(sp), sp.n, acts).value; |s.procs| == |s.order| && Handles(sp, s)
  {
    if acts != [] {
      var prior := acts[..|acts| - 1];
      AlwaysTyped(sp, prior);
      TypedStep(sp, After(KindOf(sp), sp.n, prior).value, acts[|acts| - 1]);
      HandlesStep(sp, After(KindOf(sp), sp.n, prior).value, acts[|acts| - 1]);
    }
  }

  lemma CopyData<V>(sp: Spec, init: seq<seq<V>>, s: State, mem: seq<seq<V>>, k: nat)
    requires Inv(KindOf(sp), sp.n, s) && WellFormed(sp.n, s) && Enabled(KindOf(sp), sp.n, s, Copy(k)) && Typed(sp, s)
    requires if sp.toLeaves then Leafward(sp, init, s, mem) else Rootward(sp, init, s, mem)
    requires sp.toLeaves || Disjoint(sp)
    ensures var t, after := Next(KindOf(sp), sp.n, s, Copy(k)), Effect(sp, s, Copy(k), mem);
      if sp.toLeaves then Leafward(sp, init, t, after) else Rootward(sp, init, t, after)
  {
    if sp.toLeaves { LeafwardCopy(sp, init, s, mem, k); } else { RootwardCopy(sp, init, s, mem, k); }
  }

  lemma {:induction false} BuffersInv<V>(sp: Spec, acts: seq<Action>, init: seq<seq<V>>)
    requires Fits(sp, init) && (sp.toLeaves || Disjoint(sp)) && After(KindOf(sp), sp.n, acts).Some?
    ensures DataInv(sp, init, After(KindOf(sp), sp.n, acts).value, Buffers(sp, acts, init))
  {
    AlwaysTyped(sp, acts);
    if acts != [] {
      var prior := acts[..|acts| - 1];
      var a := acts[|acts| - 1];
      var s := After(KindOf(sp), sp.n, prior).value;
      var mem := Buffers(sp, prior, init);
      BuffersInv(sp, prior, init);
      if a.Copy? {
        CopyData(sp, init, s, mem, a.pos);
      } else {
        NoneServedStep(sp, s, a);
        QuietStep(sp, init, s, Next(KindOf(sp), sp.n, s, a), mem);
      }
    }
  }

  // ---------- when a request completes ----------

  lemma LeafReturned(sp: Spec, s: State, j: nat)
    requires Inv(KindOf(sp), sp.n, s) && Typed(sp, s) && Handles(sp, s)
    requires j < |s.order| && s.order[j] != sp.root && Completed(s, j)
    ensures Served(sp, s, j)
  {
    var order := s.order;
    ReturnedMeansServed(KindOf(sp), sp.n, s, j, j, 0);
    if s.procs[j].handle != j {
      var i := IndexOf(order[..j], sp.root);
      IndexOfUnique(order, sp.root, i);
    } else {
      if |order| == sp.n { Pigeonhole(order, sp.n, sp.root); }
      var p := IndexOf(order, sp.root);
      if j < p && RootItem(sp, j) in Uncopied(s.procs[p]) {
        var i :| 0 <= i < |Uncopied(s.procs[p])| && Uncopied(s.procs[p])[i] == RootItem(sp, j);
        ReturnedMeansServed(KindOf(sp), sp.n, s, j, p, i);
      }
    }
  }

  lemma RootReturned(sp: Spec, s: State, p: nat, j: nat)
    requires Inv(KindOf(sp), sp.n, s) && Typed(sp, s) && Handles(sp, s)
    requires p < |s.order| && s.order[p] == sp.root && Completed(s, p)
    ensures |s.order| == sp.n
    ensures j < |s.order| && j != p ==> s.order[j] != sp.root && Served(sp, s, j)
  {
    IndexOfUnique(s.order, sp.root, p);
    ReturnedMeansServed(KindOf(sp), sp.n, s, p, p, 0);
    if j < |s.order| && j > p && Uncopied(s.procs[j]) != [] {
      assert TypedItem(sp, s.order, j, Uncopied(s.procs[j])[0]);
      IndexOfUnique(s.order, sp.root, Uncopied(s.procs[j])[0].cookie);
      ReturnedMeansServed(KindOf(sp), sp.n, s, p, j, 0);
    }
  }

  /** Rank r holds its segment of what the root sent, and the rest of both buffers is unchanged. */
  ghost predicate GotSegment<V>(sp: Spec, init: seq<seq<V>>, mem: seq<seq<V>>, r: nat)
    requires Fits(sp, init)
  {
    && r < sp.n == |mem| && r != sp.root && |mem[r]| == |init[r]|
    && mem[r][..sp.len[r]] == init[sp.root][sp.early[r]..sp.early[r] + sp.len[r]]
    && mem[r][sp.len[r]..] == init[r][sp.len[r]..]
    && mem[sp.root] == init[sp.root]
  }

  /**
    Bcast and scatter: when a rank's wait returns, its buffer holds its segment of what the root sent,
    whoever arrived first and however the other ranks' steps interleave.
   */
  lemma {:induction false} LeafReceives<V>(sp: Spec, acts: seq<Action>, init: seq<seq<V>>, k: nat)
    requires sp.toLeaves && Fits(sp, init) && After(KindOf(sp), sp.n, acts).Some?
    requires var s := After(KindOf(sp), sp.n, acts).value;
      Completed(s, k) && s.order[k] != sp.root
    ensures GotSegment(sp, init, Buffers(sp, acts, init), After(KindOf(sp), sp.n, acts).value.order[k])
  {
    var s := After(KindOf(sp), sp.n, acts).value;
    BuffersInv(sp, acts, init);
    LeafReturned(sp, s, k);
  }

  /**
    Gatherv, and gather of one element per rank: when the root's wait returns, every contribution is
    in its place, nothing else in the root's buffer has changed, and no leaf's buffer has changed.
   */
  lemma {:induction false} RootCollects<V>(sp: Spec, acts: seq<Action>, init: seq<seq<V>>, k: nat)
    requires !sp.toLeaves && Fits(sp, init) && Disjoint(sp) && After(KindOf(sp), sp.n, acts).Some?
    requires var s := After(KindOf(sp), sp.n, acts).value;
      Completed(s, k) && s.order[k] == sp.root
    ensures var mem := Buffers(sp, acts, init);
      && (forall r :: 0 <= r < sp.n && r != sp.root ==> mem[r] == init[r])
      && |mem[sp.root]| == |init[sp.root]|
      && (forall r :: 0 <= r < sp.n && r != sp.root ==> Collected(sp, init, mem[sp.root], r))
      && OutsideKept(sp, init, mem[sp.root])
  {
    var s := After(KindOf(sp), sp.n, acts).value;
    var mem := Buffers(sp, acts, init);
    BuffersInv(sp, acts, init);
    RootReturned(sp, s, k, k);
    forall r | 0 <= r < sp.n && r != sp.root ensures Collected(sp, init, mem[sp.root], r) {
      Pigeonhole(s.order, sp.n, r);
      var j := IndexOf(s.order, r);
      RootReturned(sp, s, k, j);
    }
  }

  // ---------- the operations ----------

  lemma {:induction false} MultipleBelow(count: nat, r: nat, n: nat)
    requires r < n
    ensures 0 <= count * r && count * r + count <= count * n
  {
    var more := n - (r + 1);
    assert n == r + 1 + more;
    assert count * (r + 1 + more) == count * r + count + count * more;
  }

  /** A broadcast of `count` elements meets the conditions of LeafReceives. */
  lemma BcastFits<V>(n: nat, root: nat, count: nat, init: seq<seq<V>>)
    requires |init| == n >= 2 && root < n && forall r :: 0 <= r < n ==> count <= |init[r]|
    ensures Fits(Bcast(n, root, count), init)
  {
  }

  /** So does a scatter of `count` elements a rank: rank r is sent block r of the root's data. */
  lemma {:induction false} ScatterFits<V>(n: nat, root: nat, count: nat, init: seq<seq<V>>)
    requires |init| == n >= 2 && root < n && count * n <= |init[root]|
    requires forall r :: 0 <= r < n && r != root ==> count <= |init[r]|
    ensures Fits(Scatter(n, root, count), init)
  {
    forall r | 0 <= r < n ensures count * r + count <= count * n { MultipleBelow(count, r, n); }
  }

  /** Gatherv refuses nothing exactly when each leaf's segment ends within the sum of the counts. */
  lemma GathervAdmits(n: nat, root: nat, counts: seq<nat>, displs: seq<nat>)
    requires |counts| == |displs| == n && root < n
    ensures Admitted(Gatherv(n, root, counts, displs)) <==>
      forall r :: 0 <= r < n && r != root ==> displs[r] + counts[r] <= SumOf(counts)
  {
    var sp := Gatherv(n, root, counts, displs);
    if Admitted(sp) {
      forall r | 0 <= r < n && r != root ensures displs[r] + counts[r] <= SumOf(counts) {
        assert Accepts(sp, r, false);
      }
    }
  }

  /** A gatherv into a buffer that covers every segment meets the conditions of RootCollects under that condition. */
  lemma GathervFits<V>(n: nat, root: nat, counts: seq<nat>, displs: seq<nat>, init: seq<seq<V>>)
    requires |init| == |counts| == |displs| == n >= 2 && root < n
    requires Legal(Gatherv(n, root, counts, displs), init)
    ensures Fits(Gatherv(n, root, counts, displs), init) <==>
      forall r :: 0 <= r < n && r != root ==> counts[r] == 0 || displs[r] + counts[r] <= SumOf(counts)
  {
    var sp := Gatherv(n, root, counts, displs);
    if Fits(sp, init) {
      forall r | 0 <= r < n && r != root ensures counts[r] == 0 || displs[r] + counts[r] <= SumOf(counts) {
        assert sp.len[r] == 0 || Accepts(sp, r, false);
      }
    }
  }
}
