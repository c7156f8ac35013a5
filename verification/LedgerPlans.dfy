/** Every join section hands out exactly the transfers that the cookies' counts announce. */
module LedgerPlans {
  import opened Basics
  import opened Ledger

  lemma TallyCons(it: Item, rest: seq<Item>, move: bool, c: nat)
    ensures Tally([it] + rest, move, c) == Weight(it, move, c) + Tally(rest, move, c)
  {
    assert ([it] + rest)[1..] == rest;
  }

  lemma TallyCons2(a: Item, b: Item, rest: seq<Item>, move: bool, c: nat)
    ensures Tally([a, b] + rest, move, c) == Weight(a, move, c) + Weight(b, move, c) + Tally(rest, move, c)
  {
    TallyCons(a, [b] + rest, move, c);
    TallyCons(b, rest, move, c);
    assert [a] + ([b] + rest) == [a, b] + rest;
  }

  lemma {:induction false} ServeTally(todo: seq<nat>, write: bool, move: bool, c: nat)
    requires NoDup(todo)
    ensures Tally(Serve(todo, write), move, c) == if c in todo then 1 else 0
    ensures |Serve(todo, write)| == 2 * |todo|
  {
    if todo != [] {
      var rest := todo[1..];
      ServeTally(rest, write, move, c);
      assert c in todo <==> c == todo[0] || c in rest;
      TallyCons2(Move(todo[0]), if write then Write(todo[0]) else Read(todo[0]), Serve(rest, write), move, c);
    }
  }

  /** The private list is served from its front: each cookie is relinked, then its one transfer made. */
  lemma {:induction false} ServeInOrder(todo: seq<nat>, write: bool, i: nat)
    requires i < |todo|
    ensures |Serve(todo, write)| == 2 * |todo| && Serve(todo, write)[2 * i] == Move(todo[i])
    ensures Serve(todo, write)[2 * i + 1] == if write then Write(todo[i]) else Read(todo[i])
  {
    if |todo| > 1 { ServeInOrder(todo[1..], write, if i == 0 then 0 else i - 1); }
  }

  /** A sweep fetches and then answers each cookie, from the front of the list. */
  lemma {:induction false} SweepInOrder(todo: seq<nat>, i: nat)
    requires i < |todo|
    ensures |Sweep(todo)| == 3 * |todo| && Sweep(todo)[3 * i] == Move(todo[i])
    ensures Sweep(todo)[3 * i + 1] == Read(todo[i]) && Sweep(todo)[3 * i + 2] == Write(todo[i])
  {
    if |todo| > 1 { SweepInOrder(todo[1..], if i == 0 then 0 else i - 1); }
  }

  lemma {:induction false} ServeItems(todo: seq<nat>, write: bool, i: nat)
    requires i < |Serve(todo, write)|
    ensures var it := Serve(todo, write)[i];
      it.cookie in todo && (it.Move? || it == if write then Write(it.cookie) else Read(it.cookie))
  {
    if i >= 2 { ServeItems(todo[1..], write, i - 2); }
  }

  lemma {:induction false} ServeReaches(todo: seq<nat>, write: bool, c: nat)
    requires c in todo
    ensures (if write then Write(c) else Read(c)) in Serve(todo, write)
  {
    if c == todo[0] {
      assert Serve(todo, write)[1] == if write then Write(c) else Read(c);
    } else {
      ServeReaches(todo[1..], write, c);
    }
  }

  lemma {:induction false} SweepTally(todo: seq<nat>, move: bool, c: nat)
    requires NoDup(todo)
    ensures Tally(Sweep(todo), move, c) == if c !in todo then 0 else if move then 1 else 2
    ensures |Sweep(todo)| == 3 * |todo|
  {
    if todo != [] {
      var rest := todo[1..];
      SweepTally(rest, move, c);
      assert c in todo <==> c == todo[0] || c in rest;
      TallyCons2(Move(todo[0]), Read(todo[0]), [Write(todo[0])] + Sweep(rest), move, c);
      TallyCons(Write(todo[0]), Sweep(rest), move, c);
      assert [Move(todo[0]), Read(todo[0])] + ([Write(todo[0])] + Sweep(rest)) == Sweep(todo);
    }
  }

  /** Cookie c is in the slot's box or is the one the joiner creates. */
  ghost predicate InPlay(box: seq<nat>, me: nat, p: Plan, c: nat) {
    c in box || (c == me && p.handle == me)
  }

  /** A plan keeps the ledger: whatever it takes off the future transfers it puts in its script. */
  ghost predicate Balanced(kind: Kind, n: nat, order: seq<nat>, r: nat, p: Plan, c: nat)
    requires |order| < n
  {
    var later := Tally(p.script, false, c) + Future(kind, n, order + [r], c);
    && (c < |order| ==> Future(kind, n, order, c) == (if p.touched == Some(c) then 1 else 0) + later)
    && (c == |order| && p.handle == |order| ==> p.busy == later)
  }

  /** A cookie in play ends up in exactly one of the box, the todo list and the pending list. */
  ghost predicate Routed(box: seq<nat>, me: nat, p: Plan, c: nat) {
    && (InPlay(box, me, p, c) <==> c in p.todo || c in p.retired || c in p.box)
    && !(c in p.todo && c in p.retired) && !(c in p.todo && c in p.box) && !(c in p.retired && c in p.box)
    && Tally(p.script, true, c) == (if c in p.todo then 1 else 0)
    && (Tally(p.script, false, c) > 0 ==> InPlay(box, me, p, c))
  }

  ghost predicate SoundAt(kind: Kind, n: nat, order: seq<nat>, r: nat, p: Plan, c: nat)
    requires |order| < n
  {
    Balanced(kind, n, order, r, p, c) && Routed(BoxOf(kind, n, order), |order|, p, c)
  }

  ghost predicate Sound(kind: Kind, n: nat, order: seq<nat>, r: nat, p: Plan)
    requires |order| < n
  {
    && p.box == BoxOf(kind, n, order + [r])
    && (p.handle == |order| || p.handle in BoxOf(kind, n, order))
    && (p.touched.Some? ==> p.touched.value in BoxOf(kind, n, order))
    && |p.script| <= 3 * n
    && (forall c: nat :: SoundAt(kind, n, order, r, p, c))
  }

  lemma BoxHolds(kind: Kind, n: nat, order: seq<nat>, c: nat)
    requires |order| <= n
    ensures c in BoxOf(kind, n, order) <==>
      |order| < n && if RootJoined(kind, order) then c == IndexOf(order, kind.root) else c < |order|
  {
    IotaMember(|order|, c);
  }

  lemma IotaSuccessor(n: nat)
    ensures Iota(n + 1) == Iota(n) + [n]
  {
  }

  lemma IndexOfAppend(order: seq<nat>, r: nat, x: nat)
    requires r !in order
    ensures x in order ==> IndexOf(order + [r], x) == IndexOf(order, x)
    ensures r in order + [r] && IndexOf(order + [r], r) == |order|
  {
    var now := order + [r];
    assert now[|order|] == r;
    if x in order {
      FirstIndex(now, x, IndexOf(order, x));
    }
    FirstIndex(now, r, |order|);
  }

  lemma {:induction false} FirstIndex(s: seq<nat>, x: nat, i: nat)
    requires i < |s| && s[i] == x && x !in s[..i]
    ensures x in s && IndexOf(s, x) == i
  {
    if i > 0 {
      assert s[0] in s[..i];
      assert s[1..][..i - 1] == s[..i][1..];
      FirstIndex(s[1..], x, i - 1);
    }
  }

  // ---------- bcast, scatter, gather ----------

  /** The root's cookie is there: the leaf serves itself from it. */
  lemma LateLeafSound(n: nat, root: nat, down: bool, order: seq<nat>, r: nat, c: nat)
    requires |order| < n && n >= 2 && root != r && r !in order && root in order
    ensures var kind := Rooted(root, down); var box := BoxOf(kind, n, order);
            var p := LeafPlan(n, root, down, order, box);
            p.box == BoxOf(kind, n, order + [r]) && SoundAt(kind, n, order, r, p, c)
  {
    var kind := Rooted(root, down);
    IndexOfAppend(order, r, root);
    var box := BoxOf(kind, n, order);
    var p := LeafPlan(n, root, down, order, box);
    assert box == [IndexOf(order, root)] && Tally(p.script, false, c) == if c == box[0] then 1 else 0;
  }

  /** It is not: the leaf posts a cookie of its own. */
  lemma EarlyLeafSound(n: nat, root: nat, down: bool, order: seq<nat>, r: nat, c: nat)
    requires |order| + 1 < n && root != r && r !in order && root !in order
    ensures var kind := Rooted(root, down); var box := BoxOf(kind, n, order);
            var p := LeafPlan(n, root, down, order, box);
            p.box == BoxOf(kind, n, order + [r]) && SoundAt(kind, n, order, r, p, c)
  {
    var kind := Rooted(root, down);
    BoxHolds(kind, n, order, c);
    BoxHolds(kind, n, order + [r], c);
    IotaSuccessor(|order|);
    assert order != [] ==> order[Iota(|order|)[0]] in order;
  }

  lemma LeafSound(n: nat, root: nat, down: bool, order: seq<nat>, r: nat, c: nat)
    requires |order| < n && n >= 2 && root != r && r !in order
    requires |order| + 1 == n ==> root in order
    ensures var kind := Rooted(root, down); var box := BoxOf(kind, n, order);
            var p := LeafPlan(n, root, down, order, box);
            p.box == BoxOf(kind, n, order + [r]) && SoundAt(kind, n, order, r, p, c)
  {
    if root in order { LateLeafSound(n, root, down, order, r, c); } else { EarlyLeafSound(n, root, down, order, r, c); }
  }

  lemma RootSound(n: nat, root: nat, down: bool, order: seq<nat>, c: nat)
    requires |order| < n && n >= 2 && root !in order
    ensures var kind := Rooted(root, down); var box := BoxOf(kind, n, order);
            var p := RootPlan(n, down, |order|, box);
            && p.box == BoxOf(kind, n, order + [root]) && |p.script| <= 2 * n
            && SoundAt(kind, n, order, root, p, c)
  {
    var kind := Rooted(root, down);
    IndexOfAppend(order, root, root);
    BoxHolds(kind, n, order, c);
    ServeTally(BoxOf(kind, n, order), down, false, c);
    ServeTally(BoxOf(kind, n, order), down, true, c);
  }

  // ---------- allgather ----------

  lemma AllgatherSound(n: nat, order: seq<nat>, r: nat, c: nat)
    requires |order| < n && n >= 2
    ensures var box := BoxOf(Allgather, n, order);
            var p := AllgatherPlan(n, |order|, box);
            && p.box == BoxOf(Allgather, n, order + [r]) && |p.script| <= 2 * n
            && SoundAt(Allgather, n, order, r, p, c)
  {
    var box := BoxOf(Allgather, n, order);
    BoxHolds(Allgather, n, order, c);
    IotaSuccessor(|order|);
    if |order| + 1 == n {
      var rest := box[1..];
      assert c in box <==> c == box[0] || c in rest;
      ServeTally(rest, true, false, c);
      ServeTally(rest, true, true, c);
      TallyCons2(Move(box[0]), Read(box[0]), Serve(rest, true), false, c);
      TallyCons2(Move(box[0]), Read(box[0]), Serve(rest, true), true, c);
    }
  }

  // ---------- allreduce ----------

  lemma AllreduceSound(n: nat, order: seq<nat>, r: nat, chained: bool, c: nat)
    requires |order| < n && n >= 2
    ensures var kind := if chained then AllreduceChain else AllreduceInPlace;
            var box := BoxOf(kind, n, order);
            var p := AllreducePlan(n, |order|, box, chained);
            && p.box == BoxOf(kind, n, order + [r]) && |p.script| <= 2 * n
            && SoundAt(kind, n, order, r, p, c)
  {
    var kind := if chained then AllreduceChain else AllreduceInPlace;
    BoxHolds(kind, n, order, c);
    IotaSuccessor(|order|);
    ServeTally(BoxOf(kind, n, order), true, false, c);
    ServeTally(BoxOf(kind, n, order), true, true, c);
  }

  // ---------- scan ----------

  lemma BySourceMembers(order: seq<nat>, c: nat)
    requires NoDup(order)
    requires forall r :: 0 <= r < |order| ==> r in order
    requires forall i :: 0 <= i < |order| ==> order[i] < |order|
    ensures NoDup(BySource(order))
    ensures c in BySource(order) <==> c < |order|
  {
    var todo := BySource(order);
    forall i, j | 0 <= i < j < |todo| ensures todo[i] != todo[j] {
      assert order[todo[i]] == i && order[todo[j]] == j;
    }
    if c < |order| {
      IndexOfUnique(order, order[c], c);
      assert todo[order[c]] == c;
    }
  }

  lemma SweepSound(todo: seq<nat>, move: bool, c: nat)
    requires todo != [] && NoDup(todo)
    ensures var script := [Move(todo[0]), Read(todo[0])] + Sweep(todo[1..]);
      && |script| < 3 * |todo|
      && Tally(script, move, c) ==
         if c !in todo then 0 else if move || c == todo[0] then 1 else 2
  {
    var rest := todo[1..];
    assert c in todo <==> c == todo[0] || c in rest;
    SweepTally(rest, move, c);
    TallyCons2(Move(todo[0]), Read(todo[0]), Sweep(rest), move, c);
  }

  lemma ScanSound(n: nat, order: seq<nat>, r: nat, c: nat)
    requires |order| < n
    requires NoDup(order + [r]) && r < n && forall i :: 0 <= i < |order| ==> order[i] < n
    requires |order| + 1 == n ==> forall q :: 0 <= q < n ==> q in order + [r]
    ensures var box := BoxOf(Scan, n, order);
            var p := ScanPlan(n, order, box, r);
            && p.box == BoxOf(Scan, n, order + [r]) && |p.script| <= 3 * n
            && SoundAt(Scan, n, order, r, p, c)
  {
    BoxHolds(Scan, n, order, c);
    IotaSuccessor(|order|);
    if |order| + 1 == n {
      var now := order + [r];
      var todo := BySource(now);
      BySourceMembers(now, c);
      SweepSound(todo, false, c);
      SweepSound(todo, true, c);
      assert now[todo[0]] == 0;
      if c < n && c != todo[0] { assert now[c] != 0; }
    }
  }

  ghost predicate SoundBox(kind: Kind, n: nat, order: seq<nat>, r: nat, p: Plan)
    requires |order| < n
  {
    p.box == BoxOf(kind, n, order + [r]) && |p.script| <= 3 * n
  }

  lemma PlanSoundAt(kind: Kind, n: nat, order: seq<nat>, r: nat, c: nat)
    requires Joinable(kind, n, order, BoxOf(kind, n, order), r)
    requires NoDup(order + [r]) && forall i :: 0 <= i < |order| ==> order[i] < n
    ensures var p := PlanFor(kind, n, order, BoxOf(kind, n, order), r);
      SoundBox(kind, n, order, r, p) && SoundAt(kind, n, order, r, p, c)
  {
    if kind.Rooted? && |order| + 1 == n { Pigeonhole(order + [r], n, kind.root); }
    match kind
    case Rooted(root, down) =>
      if r == root { RootSound(n, root, down, order, c); } else { LeafSound(n, root, down, order, r, c); }
    case Allgather => AllgatherSound(n, order, r, c);
    case AllreduceChain => AllreduceSound(n, order, r, true, c);
    case AllreduceInPlace => AllreduceSound(n, order, r, false, c);
    case Scan => ScanSound(n, order, r, c);
  }

  /** All the state machines hand out the announced number of transfers, whatever the arrival order. */
  lemma PlanSound(kind: Kind, n: nat, order: seq<nat>, r: nat)
    requires Joinable(kind, n, order, BoxOf(kind, n, order), r)
    requires NoDup(order + [r]) && forall i :: 0 <= i < |order| ==> order[i] < n
    ensures Sound(kind, n, order, r, PlanFor(kind, n, order, BoxOf(kind, n, order), r))
  {
    var p := PlanFor(kind, n, order, BoxOf(kind, n, order), r);
    forall c: nat ensures SoundAt(kind, n, order, r, p, c) { PlanSoundAt(kind, n, order, r, c); }
    PlanSoundAt(kind, n, order, r, |order|);
  }
}
