/** Scan and exscan: the last rank sweeps the ranks in order and hands each its prefix. */
module ScanCollective {
  import opened Basics
  import opened Folds
  import opened Ledger
  import opened LedgerPlans
  import opened LedgerRuns
  import opened LedgerTheorems
  import opened LedgerProgress
  import opened LastServes

  /** `exclusive` for exscan. `given[r]` is rank r's contribution. */
  datatype Spec<V> = Spec(n: nat, given: seq<V>, exclusive: bool)

  /**
    The buffer each rank's cookie registers (its receive buffer; for rank 0 of exscan its send
    buffer), and the slot's two staging buffers.
   */
  datatype Memory<V> = Memory(bufs: seq<V>, sendStage: Option<V>, recvStage: Option<V>)

  predicate Sized<V>(sp: Spec<V>, m: Memory<V>) {
    sp.n >= 1 && |m.bufs| == |sp.given| == sp.n
  }

  function Combine<V>(op: (V, V) -> V, a: Option<V>, b: Option<V>): Option<V> {
    if a.Some? && b.Some? then Some(op(a.value, b.value)) else None
  }

  function Effect<V>(op: (V, V) -> V, sp: Spec<V>, s: State, a: Action, m: Memory<V>): (after: Memory<V>)
    requires Sized(sp, m) && Inv(Scan, sp.n, s) && WellFormed(sp.n, s) && Enabled(Scan, sp.n, s, a)
    ensures Sized(sp, after)
  {
    match a
    case Join(r) => m.(bufs := m.bufs[r := sp.given[r]])
    case Copy(k) =>
      assert ProcInv(s, k);
      Sweeping(op, sp, s.order[s.procs[k].script[0].cookie], s.procs[k].script, m)
    case _ => m
  }

  /** The copy at the head of the sweep, which concerns rank r, with the reduction around it. */
  function Sweeping<V>(op: (V, V) -> V, sp: Spec<V>, r: nat, script: seq<Item>, m: Memory<V>): (after: Memory<V>)
    requires Sized(sp, m) && r < sp.n && script != []
    ensures Sized(sp, after)
  {
    var folded := Combine(op, m.recvStage, m.sendStage);
    match script[0]
    case Move(_) => m
    case Read(_) =>
      if r == 0 then m.(sendStage := Some(m.bufs[r])) else m.(recvStage := Some(m.bufs[r]))
    case Write(_) =>
      if sp.exclusive then
        var sent := if m.sendStage.Some? then m.(bufs := m.bufs[r := m.sendStage.value]) else m;
        if |script| > 1 then sent.(sendStage := folded) else sent
      else if folded.Some? then m.(sendStage := folded, bufs := m.bufs[r := folded.value])
      else m
  }

  function Memories<V>(op: (V, V) -> V, sp: Spec<V>, acts: seq<Action>, init: Memory<V>): (m: Memory<V>)
    requires Sized(sp, init) && After(Scan, sp.n, acts).Some?
    ensures Sized(sp, m)
  {
    if acts == [] then init else
    var prior := acts[..|acts| - 1];
    Effect(op, sp, After(Scan, sp.n, prior).value, acts[|acts| - 1], Memories(op, sp, prior, init))
  }

  /** What MPI defines as rank r's result: ranks 0..r for scan, 0..r-1 for exscan. */
  function Result<V>(op: (V, V) -> V, sp: Spec<V>, r: nat): V
    requires r < sp.n <= |sp.given|
  {
    if sp.exclusive then if r == 0 then sp.given[0] else RankFold(op, sp.given, r)
    else RankFold(op, sp.given, r + 1)
  }

  // ---------- the sort ----------

  /** `sorted` lists the cookies of a full box in ascending order of their source rank. */
  ghost predicate SortedBox(order: seq<nat>, sorted: seq<nat>) {
    && NoDup(order) && |sorted| == |order| && NoDup(sorted)
    && (forall i :: 0 <= i < |order| ==> order[i] < |order|)
    && (forall i :: 0 <= i < |sorted| ==> sorted[i] < |order|)
    && (forall i :: 0 <= i < |order| - 1 ==> order[sorted[i]] <= order[sorted[i + 1]])
  }

  /** However the sort orders its work, rank k's cookie ends up at index k. */
  lemma SortedBySource(order: seq<nat>, sorted: seq<nat>)
    requires SortedBox(order, sorted)
    ensures forall r :: 0 <= r < |order| ==> r in order
    ensures sorted == BySource(order)
  {
    forall r | 0 <= r < |order| ensures r in order { Pigeonhole(order, |order|, r); }
    forall k | 0 <= k < |order| ensures sorted[k] == BySource(order)[k] {
      SourcesClimb(order, sorted, k);
      SourcesStayBelow(order, sorted, k);
      IndexOfUnique(order, k, sorted[k]);
    }
  }

  lemma SourcesDiffer(order: seq<nat>, sorted: seq<nat>, k: nat)
    requires SortedBox(order, sorted) && k + 1 < |order|
    ensures order[sorted[k]] < order[sorted[k + 1]]
  {
    var a, b := sorted[k], sorted[k + 1];
    assert a != b;
    assert order[a] != order[b];
  }

  lemma {:induction false} SourcesClimb(order: seq<nat>, sorted: seq<nat>, k: nat)
    requires SortedBox(order, sorted) && k < |order|
    ensures order[sorted[k]] >= k
  {
    if k > 0 {
      SourcesClimb(order, sorted, k - 1);
      SourcesDiffer(order, sorted, k - 1);
    }
  }

  lemma {:induction false} SourcesStayBelow(order: seq<nat>, sorted: seq<nat>, k: nat)
    requires SortedBox(order, sorted) && k < |order|
    ensures order[sorted[k]] <= k
    decreases |order| - k
  {
    if k + 1 < |order| {
      SourcesStayBelow(order, sorted, k + 1);
      SourcesDiffer(order, sorted, k);
    }
  }

  // ---------- the sweep ----------

  ghost predicate AllIn(order: seq<nat>, n: nat) {
    && |order| == n && NoDup(order)
    && (forall i :: 0 <= i < n ==> order[i] < n)
    && (forall r :: 0 <= r < n ==> r in order)
  }

  /** What is left of the sweep when rank q is next, before its relinking (0), read (1) or write (2). */
  ghost function Remaining(order: seq<nat>, n: nat, q: nat, t: nat): seq<Item>
    requires AllIn(order, n) && n > 0 && q <= n
  {
    var todo := BySource(order);
    if q == n then []
    else if t == 0 then (if q == 0 then [Move(todo[0]), Read(todo[0])] + Sweep(todo[1..]) else Sweep(todo[q..]))
    else if q == 0 then [Read(todo[0])] + Sweep(todo[1..])
    else if t == 1 then [Read(todo[q]), Write(todo[q])] + Sweep(todo[q + 1..])
    else [Write(todo[q])] + Sweep(todo[q + 1..])
  }

  ghost predicate Swept<V>(op: (V, V) -> V, sp: Spec<V>, m: Memory<V>, q: nat, t: nat)
    requires Sized(sp, m)
  {
    && q <= sp.n && t <= 2 && (q == 0 ==> t <= 1)
    && (forall r :: 0 <= r < sp.n ==> m.bufs[r] == if r < q then Result(op, sp, r) else sp.given[r])
    && (0 < q && (q < sp.n || !sp.exclusive) ==> m.sendStage == Some(RankFold(op, sp.given, q)))
    && (t == 2 && q < sp.n ==> m.recvStage == Some(sp.given[q]))
  }

  /** The last rank has `todo` before it: the buffers are those of a sweep that got this far. */
  ghost predicate At<V>(op: (V, V) -> V, sp: Spec<V>, order: seq<nat>, todo: seq<Item>, m: Memory<V>, q: nat, t: nat) {
    && Sized(sp, m) && AllIn(order, sp.n)
    && Swept(op, sp, m, q, t)
    && todo == Remaining(order, sp.n, q, t)
  }

  ghost predicate Somewhere<V>(op: (V, V) -> V, sp: Spec<V>, order: seq<nat>, todo: seq<Item>, m: Memory<V>) {
    exists q: nat, t: nat :: At(op, sp, order, todo, m, q, t)
  }

  ghost predicate DataInv<V>(op: (V, V) -> V, sp: Spec<V>, s: State, m: Memory<V>) {
    && Sized(sp, m) && |s.order| == |s.procs| <= sp.n
    && (forall j :: 0 <= j < |s.order| ==> s.order[j] < sp.n)
    && (if |s.order| < sp.n then forall j :: 0 <= j < |s.order| ==> m.bufs[s.order[j]] == sp.given[s.order[j]]
        else Somewhere(op, sp, s.order, Uncopied(s.procs[sp.n - 1]), m))
  }

  lemma SweepHead(order: seq<nat>, n: nat, q: nat)
    requires AllIn(order, n) && 0 < q < n
    ensures var todo := BySource(order);
      Sweep(todo[q..]) == [Move(todo[q]), Read(todo[q]), Write(todo[q])] + Sweep(todo[q + 1..])
  {
    var todo := BySource(order);
    assert todo[q..][1..] == todo[q + 1..];
  }

  lemma RemainingRelinked(order: seq<nat>, n: nat, q: nat)
    requires AllIn(order, n) && q < n
    ensures Remaining(order, n, q, 0) != [] && Remaining(order, n, q, 0)[0].Move?
    ensures Remaining(order, n, q, 0)[1..] == Remaining(order, n, q, 1)
  {
    if q > 0 { SweepHead(order, n, q); }
  }

  lemma RemainingRead(order: seq<nat>, n: nat, q: nat)
    requires AllIn(order, n) && q < n
    ensures var r := Remaining(order, n, q, 1);
      && r != [] && r[0] == Read(BySource(order)[q])
      && r[1..] == if q == 0 then Remaining(order, n, 1, 0) else Remaining(order, n, q, 2)
  {
  }

  lemma RemainingWritten(order: seq<nat>, n: nat, q: nat)
    requires AllIn(order, n) && 0 < q < n
    ensures var r := Remaining(order, n, q, 2);
      && r != [] && r[0] == Write(BySource(order)[q])
      && r[1..] == Remaining(order, n, q + 1, 0)
      && (|r| > 1 <==> q + 1 < n)
  {
    if q + 1 < n { SweepHead(order, n, q + 1); } else { assert BySource(order)[q + 1..] == []; }
  }

  lemma ReadAdvances<V(!new)>(op: (V, V) -> V, sp: Spec<V>, m: Memory<V>, q: nat, script: seq<Item>)
    requires Sized(sp, m) && Swept(op, sp, m, q, 1) && q < sp.n && script != [] && script[0].Read?
    ensures var after := Sweeping(op, sp, q, script, m);
      if q == 0 then Swept(op, sp, after, 1, 0) else Swept(op, sp, after, q, 2)
  {
  }

  lemma WriteAdvances<V(!new)>(op: (V, V) -> V, sp: Spec<V>, m: Memory<V>, q: nat, script: seq<Item>)
    requires Reducible(op) && Sized(sp, m) && Swept(op, sp, m, q, 2) && q < sp.n && script != [] && script[0].Write?
    requires |script| > 1 <==> q + 1 < sp.n
    ensures Swept(op, sp, Sweeping(op, sp, q, script, m), q + 1, 0)
  {
    var fold := RankFold(op, sp.given, q + 1);
    assert Commutes(op, sp.given[q], RankFold(op, sp.given, q));
    assert Combine(op, m.recvStage, m.sendStage) == Some(fold);
  }

  lemma JoinData<V>(op: (V, V) -> V, sp: Spec<V>, s: State, m: Memory<V>, r: nat)
    requires Inv(Scan, sp.n, s) && WellFormed(sp.n, s) && Enabled(Scan, sp.n, s, Join(r))
    requires DataInv(op, sp, s, m)
    ensures DataInv(op, sp, Next(Scan, sp.n, s, Join(r)), Effect(op, sp, s, Join(r), m))
  {
    var t := Next(Scan, sp.n, s, Join(r));
    var after := Effect(op, sp, s, Join(r), m);
    UncopiedJoin(Scan, sp.n, s, r);
    JoinArrivals(Scan, sp.n, s.order, r);
    if |t.order| == sp.n {
      forall q | 0 <= q < sp.n ensures q in t.order && after.bufs[q] == sp.given[q] {
        Pigeonhole(t.order, sp.n, q);
        var j := IndexOf(t.order, q);
        assert j < |s.order| ==> t.order[j] == s.order[j];
      }
      assert At(op, sp, t.order, Uncopied(t.procs[sp.n - 1]), after, 0, 0);
    }
  }

  lemma CopyKeeps<V(!new)>(op: (V, V) -> V, sp: Spec<V>, order: seq<nat>, todo: seq<Item>, m: Memory<V>)
    requires Reducible(op) && Sized(sp, m) && Somewhere(op, sp, order, todo, m) && todo != [] && !todo[0].Move?
    ensures todo[0].cookie < |order| && order[todo[0].cookie] < sp.n
    ensures Somewhere(op, sp, order, todo[1..], Sweeping(op, sp, order[todo[0].cookie], todo, m))
  {
    var q: nat, t: nat :| At(op, sp, order, todo, m, q, t);
    if t == 0 && q < sp.n { RemainingRelinked(order, sp.n, q); }
    if t == 2 { RemainingWritten(order, sp.n, q); } else { RemainingRead(order, sp.n, q); }
    if t == 2 { WriteAdvances(op, sp, m, q, todo); } else { ReadAdvances(op, sp, m, q, todo); }
    var after := Sweeping(op, sp, q, todo, m);
    assert if q == 0 || t == 2 then At(op, sp, order, todo[1..], after, q + 1, 0)
           else At(op, sp, order, todo[1..], after, q, 2);
  }

  lemma RelinkKeeps<V>(op: (V, V) -> V, sp: Spec<V>, order: seq<nat>, todo: seq<Item>, m: Memory<V>)
    requires Sized(sp, m) && Somewhere(op, sp, order, todo, m) && todo != [] && todo[0].Move?
    ensures Somewhere(op, sp, order, todo[1..], m)
  {
    var q: nat, t: nat :| At(op, sp, order, todo, m, q, t);
    if t == 1 { RemainingRead(order, sp.n, q); } else if t == 2 { RemainingWritten(order, sp.n, q); }
    RemainingRelinked(order, sp.n, q);
    assert At(op, sp, order, todo[1..], m, q, 1);
  }

  /** A step of the last rank, or of anyone once all have joined, and what it leaves the last rank to do. */
  ghost predicate LastStepped(n: nat, s: State, t: State, a: Action) {
    && t.order == s.order && |t.procs| == |s.procs| == |s.order|
    && (a.Copy? ==> a.pos == n - 1 && |s.order| == n)
    && (|s.order| == n > 0 ==>
         var todo, later := Uncopied(s.procs[n - 1]), Uncopied(t.procs[n - 1]);
         if a.Copy? then todo == s.procs[n - 1].script != [] && !todo[0].Move? && later == todo[1..]
         else later == todo || (todo != [] && todo[0].Move? && later == todo[1..]))
  }

  lemma LastStep(n: nat, s: State, a: Action)
    requires Inv(Scan, n, s) && WellFormed(n, s) && Enabled(Scan, n, s, a) && Idle(n, s) && !a.Join?
    ensures LastStepped(n, s, Next(Scan, n, s, a), a)
  {
    OtherSteps(Scan, n, s, a);
    if a.Copy? { UncopiedStep(Scan, n, s, a, a.pos); }
    if |s.order| == n > 0 { UncopiedStep(Scan, n, s, a, n - 1); }
  }

  lemma CopyStepped<V(!new)>(op: (V, V) -> V, sp: Spec<V>, s: State, t: State, m: Memory<V>, k: nat)
    requires Reducible(op) && LastStepped(sp.n, s, t, Copy(k)) && DataInv(op, sp, s, m) && sp.n > 0
    ensures var script := s.procs[sp.n - 1].script;
      && script[0].cookie < |s.order| && s.order[script[0].cookie] < sp.n
      && DataInv(op, sp, t, Sweeping(op, sp, s.order[script[0].cookie], script, m))
  {
    CopyKeeps(op, sp, s.order, Uncopied(s.procs[sp.n - 1]), m);
  }

  lemma QuietStepped<V(!new)>(op: (V, V) -> V, sp: Spec<V>, s: State, t: State, m: Memory<V>, a: Action)
    requires LastStepped(sp.n, s, t, a) && !a.Copy? && DataInv(op, sp, s, m) && sp.n > 0
    ensures DataInv(op, sp, t, m)
  {
    if |s.order| == sp.n {
      var todo := Uncopied(s.procs[sp.n - 1]);
      if todo != [] && todo[0].Move? { RelinkKeeps(op, sp, s.order, todo, m); }
    }
  }

  lemma StepData<V(!new)>(op: (V, V) -> V, sp: Spec<V>, s: State, m: Memory<V>, a: Action)
    requires Reducible(op) && Inv(Scan, sp.n, s) && WellFormed(sp.n, s) && Enabled(Scan, sp.n, s, a) && !a.Join?
    requires DataInv(op, sp, s, m) && Idle(sp.n, s) && sp.n > 0
    ensures DataInv(op, sp, Next(Scan, sp.n, s, a), Effect(op, sp, s, a, m))
  {
    LastStep(sp.n, s, a);
    var t := Next(Scan, sp.n, s, a);
    if a.Copy? { CopyStepped(op, sp, s, t, m, a.pos); } else { QuietStepped(op, sp, s, t, m, a); }
  }

  lemma {:induction false} MemoryInv<V(!new)>(op: (V, V) -> V, sp: Spec<V>, acts: seq<Action>, init: Memory<V>)
    requires Reducible(op) && Sized(sp, init) && After(Scan, sp.n, acts).Some?
    ensures DataInv(op, sp, After(Scan, sp.n, acts).value, Memories(op, sp, acts, init))
  {
    if acts != [] {
      var prior := acts[..|acts| - 1];
      var a := acts[|acts| - 1];
      var s := After(Scan, sp.n, prior).value;
      var m := Memories(op, sp, prior, init);
      MemoryInv(op, sp, prior, init);
      AlwaysIdle(Scan, sp.n, prior);
      match a
      case Join(r) => JoinData(op, sp, s, m, r);
      case _ => StepData(op, sp, s, m, a);
    }
  }

  // ---------- when a request completes ----------

  lemma {:induction false} SweepReaches(todo: seq<nat>, c: nat)
    requires c in todo
    ensures Write(c) in Sweep(todo)
  {
    if c == todo[0] {
      assert Sweep(todo)[2] == Write(c);
    } else {
      SweepReaches(todo[1..], c);
    }
  }

  /** A rank not yet handed its prefix still has a write coming. */
  lemma RemainingReaches(order: seq<nat>, n: nat, q: nat, t: nat, r: nat)
    requires AllIn(order, n) && q <= r < n && 0 < r && t <= 2 && (q == 0 ==> t <= 1)
    ensures Write(BySource(order)[r]) in Remaining(order, n, q, t)
  {
    var todo := BySource(order);
    if q == 0 {
      assert todo[1..][r - 1] == todo[r];
      SweepReaches(todo[1..], todo[r]);
    } else if t == 0 {
      assert todo[q..][r - q] == todo[r];
      SweepReaches(todo[q..], todo[r]);
    } else if q == r {
      assert Remaining(order, n, q, t)[if t == 1 then 1 else 0] == Write(todo[r]);
    } else {
      assert todo[q + 1..][r - q - 1] == todo[r];
      SweepReaches(todo[q + 1..], todo[r]);
    }
  }

  predicate HoldsResult<V(==)>(op: (V, V) -> V, sp: Spec<V>, m: Memory<V>, r: nat) {
    r < sp.n <= |sp.given| && r < |m.bufs| && m.bufs[r] == Result(op, sp, r)
  }

  lemma NoWriteLeft(n: nat, s: State, k: nat)
    requires Inv(Scan, n, s) && Idle(n, s) && Completed(s, k)
    ensures k < |s.order| == |s.procs| == n && Write(k) !in Uncopied(s.procs[n - 1])
  {
    ReturnedMeansServed(Scan, n, s, k, k, 0);
    if Write(k) in Uncopied(s.procs[n - 1]) {
      var i :| 0 <= i < |Uncopied(s.procs[n - 1])| && Uncopied(s.procs[n - 1])[i] == Write(k);
      ReturnedMeansServed(Scan, n, s, k, n - 1, i);
    }
  }

  lemma ServedHoldsResult<V>(op: (V, V) -> V, sp: Spec<V>, order: seq<nat>, todo: seq<Item>, m: Memory<V>, k: nat)
    requires Somewhere(op, sp, order, todo, m) && k < |order| && Write(k) !in todo
    ensures HoldsResult(op, sp, m, order[k])
  {
    var q: nat, t: nat :| At(op, sp, order, todo, m, q, t);
    IndexOfUnique(order, order[k], k);
    if q <= order[k] && 0 < order[k] { RemainingReaches(order, sp.n, q, t, order[k]); }
  }

  lemma LateHoldsResult<V>(op: (V, V) -> V, sp: Spec<V>, s: State, m: Memory<V>, k: nat)
    requires DataInv(op, sp, s, m) && k < |s.order| == |s.procs| == sp.n
    requires Write(k) !in Uncopied(s.procs[sp.n - 1])
    ensures HoldsResult(op, sp, m, s.order[k])
  {
    ServedHoldsResult(op, sp, s.order, Uncopied(s.procs[sp.n - 1]), m, k);
  }

  lemma CompletedHoldsResult<V>(op: (V, V) -> V, sp: Spec<V>, s: State, m: Memory<V>, k: nat)
    requires Inv(Scan, sp.n, s) && Idle(sp.n, s) && DataInv(op, sp, s, m) && Completed(s, k)
    ensures HoldsResult(op, sp, m, s.order[k])
  {
    NoWriteLeft(sp.n, s, k);
    LateHoldsResult(op, sp, s, m, k);
  }

  /** Rank r holds the fold of ranks 0..r, or of the ranks below r; rank 0 of exscan keeps what it gave. */
  predicate HoldsPrefix<V(==)>(op: (V, V) -> V, sp: Spec<V>, m: Memory<V>, r: nat) {
    && r < sp.n <= |sp.given| && r < |m.bufs|
    && (!sp.exclusive ==> m.bufs[r] == RankFold(op, sp.given, r + 1))
    && (sp.exclusive && r > 0 ==> m.bufs[r] == RankFold(op, sp.given, r))
    && (sp.exclusive && r == 0 ==> m.bufs[r] == sp.given[0])
  }

  lemma ResultIsPrefix<V>(op: (V, V) -> V, sp: Spec<V>, m: Memory<V>, r: nat)
    requires HoldsResult(op, sp, m, r)
    ensures HoldsPrefix(op, sp, m, r)
  {
  }

  /**
    When a rank's wait returns, its buffer holds the fold of its prefix of the ranks, for every
    arrival order and every interleaving. (Rank 0 of exscan keeps what it gave.)
   */
  lemma {:induction false} EveryRankHoldsPrefix<V(!new)>(op: (V, V) -> V, sp: Spec<V>, acts: seq<Action>,
          init: Memory<V>, k: nat)
    requires Reducible(op) && Sized(sp, init) && After(Scan, sp.n, acts).Some?
    requires Completed(After(Scan, sp.n, acts).value, k)
    ensures HoldsPrefix(op, sp, Memories(op, sp, acts, init), After(Scan, sp.n, acts).value.order[k])
  {
    MemoryInv(op, sp, acts, init);
    AlwaysIdle(Scan, sp.n, acts);
    CompletedHoldsResult(op, sp, After(Scan, sp.n, acts).value, Memories(op, sp, acts, init), k);
    ResultIsPrefix(op, sp, Memories(op, sp, acts, init), After(Scan, sp.n, acts).value.order[k]);
  }

  /** Rank r holds the sum of ranks 0..r, or of the ranks below r, modulo 2^64. */
  predicate HoldsPartialSum(given: seq<nat>, exclusive: bool, bufs: seq<int>, r: nat) {
    && r < |bufs| == |given|
    && (!exclusive ==> bufs[r] == SumOf(given[..r + 1]) % 0x1_0000_0000_0000_0000)
    && (exclusive && r > 0 ==> bufs[r] == SumOf(given[..r]) % 0x1_0000_0000_0000_0000)
  }

  lemma PrefixIsSum(sp: Spec<int>, given: seq<nat>, m: Memory<int>, r: nat)
    requires sp.given == given && forall i :: 0 <= i < |given| ==> given[i] < 0x1_0000_0000_0000_0000
    requires |m.bufs| == |given| && HoldsPrefix(WrappingSum, sp, m, r)
    ensures HoldsPartialSum(given, sp.exclusive, m.bufs, r)
  {
    if !sp.exclusive { FoldIsSum(given, r + 1); } else if r > 0 { FoldIsSum(given, r); }
  }

  /** For instance, with sums of 64-bit numbers. */
  lemma {:induction false} EveryRankHoldsPartialSum(sp: Spec<int>, given: seq<nat>, acts: seq<Action>,
          init: Memory<int>, k: nat)
    requires sp.given == given && forall i :: 0 <= i < |given| ==> given[i] < 0x1_0000_0000_0000_0000
    requires Sized(sp, init) && After(Scan, sp.n, acts).Some? && Completed(After(Scan, sp.n, acts).value, k)
    ensures HoldsPartialSum(given, sp.exclusive, Memories(WrappingSum, sp, acts, init).bufs,
                            After(Scan, sp.n, acts).value.order[k])
  {
    WrappingReducible();
    EveryRankHoldsPrefix(WrappingSum, sp, acts, init, k);
    PrefixIsSum(sp, given, Memories(WrappingSum, sp, acts, init), After(Scan, sp.n, acts).value.order[k]);
  }
}
