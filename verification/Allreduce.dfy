/** Allreduce: every rank ends with one and the same fold of all contributions. */
module AllreduceCollective {
  import opened Basics
  import opened Folds
  import opened Ledger
  import opened LedgerPlans
  import opened LedgerRuns
  import opened LedgerTheorems
  import opened LedgerProgress
  import opened LastServes

  /** `given[r]` is rank r's contribution, which in place is the first content of its receive buffer. */
  datatype Spec<V> = Spec(n: nat, given: seq<V>, inPlace: bool)

  /** Receive buffers by rank, and the slot's staging buffer. */
  datatype Memory<V> = Memory(recv: seq<V>, stage: Option<V>)

  function KindOf<V>(sp: Spec<V>): Kind {
    if sp.inPlace then AllreduceInPlace else AllreduceChain
  }

  predicate Sized<V>(sp: Spec<V>, m: Memory<V>) {
    sp.n >= 2 && |m.recv| == |sp.given| == sp.n
  }

  predicate Fits<V(==)>(sp: Spec<V>, init: Memory<V>) {
    Sized(sp, init) && (sp.inPlace ==> init.recv == sp.given)
  }

  function Combine<V>(op: (V, V) -> V, a: V, b: Option<V>): V {
    if b.Some? then op(a, b.value) else a
  }

  function Effect<V>(op: (V, V) -> V, sp: Spec<V>, s: State, a: Action, m: Memory<V>): (after: Memory<V>)
    requires Sized(sp, m) && Inv(KindOf(sp), sp.n, s) && WellFormed(sp.n, s) && Enabled(KindOf(sp), sp.n, s, a)
    ensures Sized(sp, after)
  {
    match a
    case Join(r) =>
      if !sp.inPlace then
        // the partial result of the rank before, read out of its receive buffer under the slot lock
        var mine := if s.order == [] then sp.given[r] else op(sp.given[r], m.recv[s.order[s.box[|s.box| - 1]]]);
        m.(recv := m.recv[r := mine])
      else if |s.order| + 1 < sp.n then
        m.(stage := Some(Combine(op, m.recv[r], if s.order == [] then None else m.stage)))
      else if m.stage.Some? then
        m.(recv := m.recv[r := op(m.stage.value, m.recv[r])])
      else m
    case Copy(k) =>
      assert ProcInv(s, k);
      m.(recv := m.recv[s.order[s.procs[k].script[0].cookie] := m.recv[s.order[k]]])
    case _ => m
  }

  function Memories<V>(op: (V, V) -> V, sp: Spec<V>, acts: seq<Action>, init: Memory<V>): (m: Memory<V>)
    requires Sized(sp, init) && After(KindOf(sp), sp.n, acts).Some?
    ensures Sized(sp, m)
  {
    if acts == [] then init else
    var prior := acts[..|acts| - 1];
    Effect(op, sp, After(KindOf(sp), sp.n, prior).value, acts[|acts| - 1], Memories(op, sp, prior, init))
  }

  // ---------- the last rank's script ----------

  ghost predicate TypedList(n: nat, todo: seq<Item>) {
    forall i :: 0 <= i < |todo| ==> todo[i].cookie < n - 1 && !todo[i].Read?
  }

  lemma LastScript<V>(sp: Spec<V>, s: State, r: nat)
    requires sp.n >= 2 && Inv(KindOf(sp), sp.n, s) && WellFormed(sp.n, s) && Enabled(KindOf(sp), sp.n, s, Join(r))
    requires |s.order| + 1 == sp.n
    ensures var script := PlanFor(KindOf(sp), sp.n, s.order, s.box, r).script;
      && TypedList(sp.n, script)
      && (forall c :: 0 <= c < sp.n - 1 ==> Write(c) in script)
  {
    var box := s.box;
    assert box == Iota(sp.n - 1);
    forall i | 0 <= i < |Serve(box, true)| ensures Serve(box, true)[i].cookie < sp.n - 1 && !Serve(box, true)[i].Read? {
      ServeItems(box, true, i);
    }
    forall c | 0 <= c < sp.n - 1 ensures Write(c) in Serve(box, true) {
      assert box[c] == c;
      ServeReaches(box, true, c);
    }
  }

  // ---------- what the buffers hold ----------

  /** The result the protocol computes: the contributions chained in order of arrival. */
  ghost predicate Partial<V>(op: (V, V) -> V, sp: Spec<V>, s: State, m: Memory<V>)
    requires Sized(sp, m) && Arrivals(KindOf(sp), sp.n, s.order)
  {
    if sp.inPlace then
      m.recv == sp.given && (s.order != [] ==> m.stage == Some(ChainFold(op, sp.given, s.order)))
    else
      forall j :: 0 <= j < |s.order| ==> m.recv[s.order[j]] == ChainFold(op, sp.given, s.order[..j + 1])
  }

  /** All have joined: whoever is not still to be served holds the total. */
  ghost predicate Complete<V>(op: (V, V) -> V, sp: Spec<V>, order: seq<nat>, todo: seq<Item>, m: Memory<V>)
    requires Sized(sp, m) && Arrivals(KindOf(sp), sp.n, order) && |order| == sp.n
  {
    var total := ChainFold(op, sp.given, order);
    && TypedList(sp.n, todo)
    && m.recv[order[sp.n - 1]] == total
    && (forall c :: 0 <= c < sp.n - 1 && Write(c) !in todo ==> m.recv[order[c]] == total)
  }

  ghost predicate DataInv<V>(op: (V, V) -> V, sp: Spec<V>, s: State, m: Memory<V>) {
    && Sized(sp, m) && |s.order| == |s.procs| <= sp.n && Arrivals(KindOf(sp), sp.n, s.order)
    && (if |s.order| < sp.n then Partial(op, sp, s, m)
        else Complete(op, sp, s.order, Uncopied(s.procs[sp.n - 1]), m))
  }

  /** The chained form: each rank extends the partial result of the rank before it. */
  lemma Chained<V>(op: (V, V) -> V, sp: Spec<V>, s: State, m: Memory<V>, r: nat, j: nat)
    requires Inv(KindOf(sp), sp.n, s) && WellFormed(sp.n, s) && Enabled(KindOf(sp), sp.n, s, Join(r))
    requires DataInv(op, sp, s, m) && !sp.inPlace && j <= |s.order|
    ensures Effect(op, sp, s, Join(r), m).recv[(s.order + [r])[j]] == ChainFold(op, sp.given, (s.order + [r])[..j + 1])
  {
    var now := s.order + [r];
    if j < |s.order| {
      assert now[..j + 1] == s.order[..j + 1] && s.order[j] != r;
    } else {
      assert now[..j + 1] == now && now[..j] == s.order && s.order[..j] == s.order;
    }
  }

  lemma JoinPartial<V>(op: (V, V) -> V, sp: Spec<V>, s: State, m: Memory<V>, r: nat)
    requires Inv(KindOf(sp), sp.n, s) && WellFormed(sp.n, s) && Enabled(KindOf(sp), sp.n, s, Join(r))
    requires DataInv(op, sp, s, m) && |s.order| + 1 < sp.n
    ensures DataInv(op, sp, Next(KindOf(sp), sp.n, s, Join(r)), Effect(op, sp, s, Join(r), m))
  {
    UncopiedJoin(KindOf(sp), sp.n, s, r);
    JoinArrivals(KindOf(sp), sp.n, s.order, r);
    assert (s.order + [r])[..|s.order|] == s.order;
    if !sp.inPlace {
      forall j: nat | j <= |s.order|
        ensures Effect(op, sp, s, Join(r), m).recv[(s.order + [r])[j]]
             == ChainFold(op, sp.given, (s.order + [r])[..j + 1])
      {
        Chained(op, sp, s, m, r, j);
      }
    }
  }

  lemma JoinLast<V(!new)>(op: (V, V) -> V, sp: Spec<V>, s: State, m: Memory<V>, r: nat)
    requires Reducible(op)
    requires Inv(KindOf(sp), sp.n, s) && WellFormed(sp.n, s) && Enabled(KindOf(sp), sp.n, s, Join(r))
    requires DataInv(op, sp, s, m) && |s.order| + 1 == sp.n
    ensures DataInv(op, sp, Next(KindOf(sp), sp.n, s, Join(r)), Effect(op, sp, s, Join(r), m))
  {
    var t := Next(KindOf(sp), sp.n, s, Join(r));
    UncopiedJoin(KindOf(sp), sp.n, s, r);
    JoinArrivals(KindOf(sp), sp.n, s.order, r);
    LastScript(sp, s, r);
    assert t.order[..|s.order|] == s.order;
    assert s.order[..|s.order|] == s.order;
    if sp.inPlace { assert Commutes(op, m.stage.value, m.recv[r]); }
  }

  /** The next rank in the list is handed the total. */
  lemma HandsOn<V>(op: (V, V) -> V, sp: Spec<V>, order: seq<nat>, todo: seq<Item>, m: Memory<V>)
    requires Sized(sp, m) && Arrivals(KindOf(sp), sp.n, order) && |order| == sp.n
    requires Complete(op, sp, order, todo, m) && todo != [] && !todo[0].Move?
    ensures todo[0].cookie < sp.n - 1
    ensures Complete(op, sp, order, todo[1..], m.(recv := m.recv[order[todo[0].cookie] := m.recv[order[sp.n - 1]]]))
  {
    assert todo == [todo[0]] + todo[1..];
    assert todo[0].Write?;
  }

  lemma CopyData<V>(op: (V, V) -> V, sp: Spec<V>, s: State, m: Memory<V>, k: nat)
    requires Inv(KindOf(sp), sp.n, s) && WellFormed(sp.n, s) && Enabled(KindOf(sp), sp.n, s, Copy(k))
    requires DataInv(op, sp, s, m) && Idle(sp.n, s)
    ensures DataInv(op, sp, Next(KindOf(sp), sp.n, s, Copy(k)), Effect(op, sp, s, Copy(k), m))
  {
    var t := Next(KindOf(sp), sp.n, s, Copy(k));
    UncopiedStep(KindOf(sp), sp.n, s, Copy(k), k);
    assert ProcInv(s, k) && k == sp.n - 1;
    assert Uncopied(t.procs[k]) == s.procs[k].script[1..];
    HandsOn(op, sp, s.order, s.procs[k].script, m);
  }

  lemma QuietComplete<V>(op: (V, V) -> V, sp: Spec<V>, order: seq<nat>, todo: seq<Item>, later: seq<Item>, m: Memory<V>)
    requires Sized(sp, m) && Arrivals(KindOf(sp), sp.n, order) && |order| == sp.n
    requires Complete(op, sp, order, todo, m) && (later == todo || (todo != [] && later == todo[1..]))
    requires forall it :: it !in later && !it.Move? ==> it !in todo
    ensures Complete(op, sp, order, later, m)
  {
    forall c | 0 <= c < sp.n - 1 && Write(c) !in later
      ensures m.recv[order[c]] == ChainFold(op, sp.given, order)
    {
      assert Write(c) !in todo;
    }
  }

  lemma QuietData<V>(op: (V, V) -> V, sp: Spec<V>, s: State, t: State, m: Memory<V>)
    requires SameWork(sp.n, s, t) && DataInv(op, sp, s, m)
    ensures DataInv(op, sp, t, m)
  {
    if |s.order| == sp.n {
      QuietComplete(op, sp, s.order, Uncopied(s.procs[sp.n - 1]), Uncopied(t.procs[sp.n - 1]), m);
    }
  }

  lemma {:induction false} QuietStep<V>(op: (V, V) -> V, sp: Spec<V>, s: State, m: Memory<V>, a: Action)
    requires Inv(KindOf(sp), sp.n, s) && WellFormed(sp.n, s) && Enabled(KindOf(sp), sp.n, s, a)
    requires !a.Join? && !a.Copy? && DataInv(op, sp, s, m)
    ensures DataInv(op, sp, Next(KindOf(sp), sp.n, s, a), m)
  {
    SameTransfers(KindOf(sp), sp.n, s, a);
    QuietData(op, sp, s, Next(KindOf(sp), sp.n, s, a), m);
  }

  lemma {:induction false} MemoryInv<V(!new)>(op: (V, V) -> V, sp: Spec<V>, acts: seq<Action>, init: Memory<V>)
    requires Reducible(op) && Fits(sp, init) && After(KindOf(sp), sp.n, acts).Some?
    ensures DataInv(op, sp, After(KindOf(sp), sp.n, acts).value, Memories(op, sp, acts, init))
  {
    if acts != [] {
      var prior := acts[..|acts| - 1];
      var a := acts[|acts| - 1];
      var s := After(KindOf(sp), sp.n, prior).value;
      var m := Memories(op, sp, prior, init);
      MemoryInv(op, sp, prior, init);
      AlwaysIdle(KindOf(sp), sp.n, prior);
      match a
      case Join(r) =>
        if |s.order| + 1 < sp.n { JoinPartial(op, sp, s, m, r); } else { JoinLast(op, sp, s, m, r); }
      case Copy(k) => CopyData(op, sp, s, m, k);
      case _ => QuietStep(op, sp, s, m, a);
    }
  }

  predicate HoldsTotal<V(==)>(op: (V, V) -> V, sp: Spec<V>, m: Memory<V>, r: nat) {
    0 < sp.n <= |sp.given| && r < |m.recv| && m.recv[r] == RankFold(op, sp.given, sp.n)
  }

  lemma CompletedHoldsTotal<V(!new)>(op: (V, V) -> V, sp: Spec<V>, s: State, m: Memory<V>, k: nat)
    requires Reducible(op) && Inv(KindOf(sp), sp.n, s) && Idle(sp.n, s) && DataInv(op, sp, s, m) && Completed(s, k)
    ensures HoldsTotal(op, sp, m, s.order[k])
  {
    NothingLeft(KindOf(sp), sp.n, s, k);
    assert Complete(op, sp, s.order, Uncopied(s.procs[sp.n - 1]), m);
    ChainIsRankFold(op, sp.given, s.order, sp.n);
  }

  /**
    When a rank's wait returns, its buffer holds the fold of all contributions in rank order, in
    both forms of the protocol, for every arrival order and every interleaving.
   */
  lemma {:induction false} EveryRankHoldsTotal<V(!new)>(op: (V, V) -> V, sp: Spec<V>, acts: seq<Action>,
          init: Memory<V>, k: nat)
    requires Reducible(op) && Fits(sp, init) && After(KindOf(sp), sp.n, acts).Some?
    requires Completed(After(KindOf(sp), sp.n, acts).value, k)
    ensures HoldsTotal(op, sp, Memories(op, sp, acts, init), After(KindOf(sp), sp.n, acts).value.order[k])
    ensures Memories(op, sp, acts, init).recv[After(KindOf(sp), sp.n, acts).value.order[k]]
         == RankFold(op, sp.given, sp.n)
  {
    MemoryInv(op, sp, acts, init);
    AlwaysIdle(KindOf(sp), sp.n, acts);
    CompletedHoldsTotal(op, sp, After(KindOf(sp), sp.n, acts).value, Memories(op, sp, acts, init), k);
  }

  /** For instance: a sum of 64-bit numbers leaves every rank with their sum modulo 2^64. */
  lemma {:induction false} EveryRankHoldsSum(sp: Spec<int>, given: seq<nat>, acts: seq<Action>,
          init: Memory<int>, k: nat)
    requires sp.given == given && forall i :: 0 <= i < |given| ==> given[i] < 0x1_0000_0000_0000_0000
    requires Fits(sp, init) && After(KindOf(sp), sp.n, acts).Some?
    requires Completed(After(KindOf(sp), sp.n, acts).value, k)
    ensures var r, recv := After(KindOf(sp), sp.n, acts).value.order[k], Memories(WrappingSum, sp, acts, init).recv;
      r < |recv| == |given| && recv[r] == SumOf(given) % 0x1_0000_0000_0000_0000
  {
    WrappingReducible();
    EveryRankHoldsTotal(WrappingSum, sp, acts, init, k);
    FoldIsSum(given, |given|);
    assert given[..|given|] == given;
  }
}
