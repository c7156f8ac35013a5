/** Allgather: every rank ends with the rank-ordered concatenation of all contributions. */
module AllgatherCollective {
  import opened Basics
  import opened Ledger
  import opened LedgerPlans
  import opened LedgerRuns
  import opened LedgerTheorems
  import opened LedgerProgress
  import opened LastServes

  /**
    `given[r]` is rank r's contribution, one block; it lies in its receive buffer already when the
    rank passes MPI_IN_PLACE and in a separate send buffer otherwise. A receive buffer has n blocks.
   */
  datatype Spec<V> = Spec(n: nat, given: seq<V>, inPlace: seq<bool>)

  predicate Grid<V>(sp: Spec<V>, mem: seq<seq<V>>) {
    && sp.n >= 2 && |mem| == |sp.given| == |sp.inPlace| == sp.n
    && forall r :: 0 <= r < sp.n ==> |mem[r]| == sp.n
  }

  predicate Fits<V(==)>(sp: Spec<V>, init: seq<seq<V>>) {
    Grid(sp, init) && forall r :: 0 <= r < sp.n && sp.inPlace[r] ==> init[r][r] == sp.given[r]
  }

  /** What rank r delivers: read out of its receive buffer when in place. */
  function Contribution<V>(sp: Spec<V>, mem: seq<seq<V>>, r: nat): V
    requires Grid(sp, mem) && r < sp.n
  {
    if sp.inPlace[r] then mem[r][r] else sp.given[r]
  }

  function Effect<V>(sp: Spec<V>, s: State, a: Action, mem: seq<seq<V>>): (after: seq<seq<V>>)
    requires Grid(sp, mem) && Inv(Allgather, sp.n, s) && WellFormed(sp.n, s) && Enabled(Allgather, sp.n, s, a)
    ensures Grid(sp, after)
  {
    match a
    case Join(r) =>
      // the first rank fills its own block; later ranks write theirs into the first rank's buffer
      var first := if s.order == [] then r else s.order[s.box[0]];
      mem[first := mem[first][r := Contribution(sp, mem, r)]]
    case Copy(k) =>
      assert ProcInv(s, k);
      var me, other := s.order[k], s.order[s.procs[k].script[0].cookie];
      if s.procs[k].script[0].Read? then mem[me := mem[other]] else mem[other := mem[me]]
    case _ => mem
  }

  function Buffers<V>(sp: Spec<V>, acts: seq<Action>, init: seq<seq<V>>): (mem: seq<seq<V>>)
    requires Grid(sp, init) && After(Allgather, sp.n, acts).Some?
    ensures Grid(sp, mem)
  {
    if acts == [] then init else
    var prior := acts[..|acts| - 1];
    Effect(sp, After(Allgather, sp.n, prior).value, acts[|acts| - 1], Buffers(sp, prior, init))
  }

  // ---------- the last rank's script ----------

  /** The first rank's buffer is read before anything is written, and only ranks in between are written to. */
  ghost predicate TypedList(n: nat, todo: seq<Item>) {
    forall i :: 0 <= i < |todo| ==> TypedAt(n, todo, i)
  }

  ghost predicate TypedAt(n: nat, todo: seq<Item>, i: nat)
    requires i < |todo|
  {
    && todo[i].cookie < n - 1
    && (todo[i].Read? ==> todo[i].cookie == 0 && forall h :: 0 <= h < i ==> todo[h].Move?)
    && (todo[i].Write? ==> 0 < todo[i].cookie)
  }

  lemma TypedTail(n: nat, todo: seq<Item>)
    requires TypedList(n, todo) && todo != []
    ensures TypedList(n, todo[1..])
  {
    forall i | 0 <= i < |todo[1..]| ensures TypedAt(n, todo[1..], i) {
      assert TypedAt(n, todo, i + 1);
      if todo[i + 1].Read? {
        forall h | 0 <= h < i ensures todo[1..][h].Move? { assert todo[1..][h] == todo[h + 1]; }
      }
    }
  }

  lemma LastScript(n: nat, s: State, r: nat)
    requires Inv(Allgather, n, s) && WellFormed(n, s) && Enabled(Allgather, n, s, Join(r)) && |s.order| + 1 == n >= 2
    ensures var script := PlanFor(Allgather, n, s.order, s.box, r).script;
      && TypedList(n, script) && Read(0) in script
      && (forall c :: 0 < c < n - 1 ==> Write(c) in script)
  {
    var box := s.box;
    assert box == Iota(n - 1) && box[0] == 0;
    var script := PlanFor(Allgather, n, s.order, box, r).script;
    assert script == [Move(0), Read(0)] + Serve(box[1..], true);
    assert script[1] == Read(0);
    forall i | 0 <= i < |script| ensures TypedAt(n, script, i) {
      if i >= 2 { ServeItems(box[1..], true, i - 2); }
    }
    forall c | 0 < c < n - 1 ensures Write(c) in script {
      assert box[1..][c - 1] == c;
      ServeReaches(box[1..], true, c);
    }
  }

  // ---------- what the buffers hold ----------

  ghost predicate DataInv<V>(sp: Spec<V>, init: seq<seq<V>>, s: State, mem: seq<seq<V>>) {
    && Grid(sp, mem) && Grid(sp, init) && |s.order| == |s.procs| <= sp.n && Arrivals(Allgather, sp.n, s.order)
    && (forall r :: 0 <= r < sp.n && r !in s.order ==> mem[r] == init[r])
    && (forall j :: 0 <= j < |s.order| ==> mem[s.order[0]][s.order[j]] == sp.given[s.order[j]])
    && (|s.order| == sp.n ==> Complete(sp, s.order, Uncopied(s.procs[sp.n - 1]), mem))
  }

  /** All have joined: whoever is not still to be served holds everything. */
  ghost predicate Complete<V>(sp: Spec<V>, order: seq<nat>, todo: seq<Item>, mem: seq<seq<V>>)
    requires Grid(sp, mem) && Arrivals(Allgather, sp.n, order) && |order| == sp.n
  {
    && TypedList(sp.n, todo)
    && mem[order[0]] == sp.given
    && (Read(0) !in todo ==> mem[order[sp.n - 1]] == sp.given)
    && (forall c :: 0 < c < sp.n - 1 && Write(c) !in todo ==> mem[order[c]] == sp.given)
  }

  lemma JoinData<V>(sp: Spec<V>, init: seq<seq<V>>, s: State, mem: seq<seq<V>>, r: nat)
    requires Fits(sp, init) && Inv(Allgather, sp.n, s) && WellFormed(sp.n, s) && Enabled(Allgather, sp.n, s, Join(r))
    requires DataInv(sp, init, s, mem)
    ensures DataInv(sp, init, Next(Allgather, sp.n, s, Join(r)), Effect(sp, s, Join(r), mem))
  {
    var t := Next(Allgather, sp.n, s, Join(r));
    var after := Effect(sp, s, Join(r), mem);
    UncopiedJoin(Allgather, sp.n, s, r);
    JoinArrivals(Allgather, sp.n, s.order, r);
    if s.order != [] { assert s.box[0] == 0; }
    var first := t.order[0];
    assert after == mem[first := mem[first][r := sp.given[r]]];
    forall j | 0 <= j < |t.order| ensures after[first][t.order[j]] == sp.given[t.order[j]] {
      if j < |s.order| { assert t.order[j] == s.order[j] != r; }
    }
    if |t.order| == sp.n {
      LastScript(sp.n, s, r);
      forall q | 0 <= q < sp.n ensures after[first][q] == sp.given[q] {
        Pigeonhole(t.order, sp.n, q);
      }
      assert after[first] == sp.given;
    }
  }

  /** Only the last rank copies, the head of its script, and what is left is the rest. */
  lemma LastCopies(n: nat, s: State, k: nat)
    requires Inv(Allgather, n, s) && WellFormed(n, s) && Enabled(Allgather, n, s, Copy(k)) && Idle(n, s)
    ensures k == n - 1 && |s.order| == |s.procs| == n
    ensures var todo, t := Uncopied(s.procs[k]), Next(Allgather, n, s, Copy(k));
      && todo == s.procs[k].script != [] && !todo[0].Move?
      && t.order == s.order && |t.procs| == n && Uncopied(t.procs[k]) == todo[1..]
  {
    OtherSteps(Allgather, n, s, Copy(k));
    UncopiedStep(Allgather, n, s, Copy(k), k);
  }

  /** The first rank's complete buffer is read. */
  lemma ReadDone<V>(sp: Spec<V>, order: seq<nat>, todo: seq<Item>, mem: seq<seq<V>>)
    requires Grid(sp, mem) && Arrivals(Allgather, sp.n, order) && |order| == sp.n && Complete(sp, order, todo, mem)
    requires todo != [] && todo[0].Read?
    ensures todo[0].cookie == 0 && mem[order[0]] == sp.given
    ensures Complete(sp, order, todo[1..], mem[order[sp.n - 1] := sp.given])
  {
    assert TypedAt(sp.n, todo, 0);
    TypedTail(sp.n, todo);
    forall c | 0 < c < sp.n - 1 && Write(c) !in todo[1..] ensures Write(c) !in todo {
      assert todo == [todo[0]] + todo[1..];
    }
  }

  /** A complete buffer is written to a rank in between. */
  lemma WriteDone<V>(sp: Spec<V>, order: seq<nat>, todo: seq<Item>, mem: seq<seq<V>>)
    requires Grid(sp, mem) && Arrivals(Allgather, sp.n, order) && |order| == sp.n && Complete(sp, order, todo, mem)
    requires todo != [] && todo[0].Write?
    ensures todo[0].cookie < sp.n && mem[order[sp.n - 1]] == sp.given
    ensures Complete(sp, order, todo[1..], mem[order[todo[0].cookie] := sp.given])
  {
    assert TypedAt(sp.n, todo, 0);
    TypedTail(sp.n, todo);
    forall i | 0 <= i < |todo| ensures todo[i] != Read(0) { assert TypedAt(sp.n, todo, i); }
    assert todo == [todo[0]] + todo[1..];
  }

  /** One more complete buffer. */
  lemma GivenStored<V>(sp: Spec<V>, init: seq<seq<V>>, s: State, t: State, mem: seq<seq<V>>, x: nat)
    requires DataInv(sp, init, s, mem) && |s.order| == sp.n && t.order == s.order && |t.procs| == sp.n && x < sp.n
    requires Complete(sp, s.order, Uncopied(t.procs[sp.n - 1]), mem[x := sp.given])
    ensures DataInv(sp, init, t, mem[x := sp.given])
  {
    forall r | 0 <= r < sp.n ensures r in s.order { Pigeonhole(s.order, sp.n, r); }
  }

  lemma CopyData<V>(sp: Spec<V>, init: seq<seq<V>>, s: State, mem: seq<seq<V>>, k: nat)
    requires Inv(Allgather, sp.n, s) && WellFormed(sp.n, s) && Enabled(Allgather, sp.n, s, Copy(k))
    requires DataInv(sp, init, s, mem) && Idle(sp.n, s)
    ensures DataInv(sp, init, Next(Allgather, sp.n, s, Copy(k)), Effect(sp, s, Copy(k), mem))
  {
    LastCopies(sp.n, s, k);
    var t, todo := Next(Allgather, sp.n, s, Copy(k)), s.procs[k].script;
    if todo[0].Read? {
      ReadDone(sp, s.order, todo, mem);
      GivenStored(sp, init, s, t, mem, s.order[k]);
    } else {
      WriteDone(sp, s.order, todo, mem);
      GivenStored(sp, init, s, t, mem, s.order[todo[0].cookie]);
    }
  }

  lemma CompleteFewer<V>(sp: Spec<V>, order: seq<nat>, todo: seq<Item>, later: seq<Item>, mem: seq<seq<V>>)
    requires Grid(sp, mem) && Arrivals(Allgather, sp.n, order) && |order| == sp.n && Complete(sp, order, todo, mem)
    requires later == todo || (todo != [] && later == todo[1..])
    requires forall it :: it !in later && !it.Move? ==> it !in todo
    ensures Complete(sp, order, later, mem)
  {
    if later != todo { TypedTail(sp.n, todo); }
  }

  lemma QuietData<V>(sp: Spec<V>, init: seq<seq<V>>, s: State, t: State, mem: seq<seq<V>>)
    requires SameWork(sp.n, s, t) && DataInv(sp, init, s, mem)
    ensures DataInv(sp, init, t, mem)
  {
    if |s.procs| == sp.n {
      CompleteFewer(sp, s.order, Uncopied(s.procs[sp.n - 1]), Uncopied(t.procs[sp.n - 1]), mem);
    }
  }

  lemma {:induction false} BuffersInv<V>(sp: Spec<V>, acts: seq<Action>, init: seq<seq<V>>)
    requires Fits(sp, init) && After(Allgather, sp.n, acts).Some?
    ensures DataInv(sp, init, After(Allgather, sp.n, acts).value, Buffers(sp, acts, init))
  {
    if acts != [] {
      var prior := acts[..|acts| - 1];
      var a := acts[|acts| - 1];
      var s := After(Allgather, sp.n, prior).value;
      var mem := Buffers(sp, prior, init);
      BuffersInv(sp, prior, init);
      AlwaysIdle(Allgather, sp.n, prior);
      if a.Join? { JoinData(sp, init, s, mem, a.rank); }
      else if a.Copy? { CopyData(sp, init, s, mem, a.pos); }
      else {
        SameTransfers(Allgather, sp.n, s, a);
        QuietData(sp, init, s, Next(Allgather, sp.n, s, a), mem);
      }
    }
  }

  predicate HoldsAll<V(==)>(sp: Spec<V>, mem: seq<seq<V>>, r: nat) {
    r < sp.n && r < |mem| && mem[r] == sp.given
  }

  lemma CompletedHoldsAll<V>(sp: Spec<V>, init: seq<seq<V>>, s: State, mem: seq<seq<V>>, k: nat)
    requires Inv(Allgather, sp.n, s) && Idle(sp.n, s) && DataInv(sp, init, s, mem) && Completed(s, k)
    ensures HoldsAll(sp, mem, s.order[k])
  {
    NothingLeft(Allgather, sp.n, s, k);
    assert Complete(sp, s.order, Uncopied(s.procs[sp.n - 1]), mem);
  }

  /**
    When a rank's wait returns, its buffer is the concatenation of all contributions in rank order:
    first, last or in between, in place or not, in every interleaving.
   */
  lemma {:induction false} EveryRankHoldsAll<V>(sp: Spec<V>, acts: seq<Action>, init: seq<seq<V>>, k: nat)
    requires Fits(sp, init) && After(Allgather, sp.n, acts).Some?
    requires Completed(After(Allgather, sp.n, acts).value, k)
    ensures HoldsAll(sp, Buffers(sp, acts, init), After(Allgather, sp.n, acts).value.order[k])
    ensures Buffers(sp, acts, init)[After(Allgather, sp.n, acts).value.order[k]] == sp.given
  {
    BuffersInv(sp, acts, init);
    AlwaysIdle(Allgather, sp.n, acts);
    CompletedHoldsAll(sp, init, After(Allgather, sp.n, acts).value, Buffers(sp, acts, init), k);
  }

  lemma CopiesComplete<V>(sp: Spec<V>, init: seq<seq<V>>, s: State, mem: seq<seq<V>>, k: nat)
    requires Inv(Allgather, sp.n, s) && WellFormed(sp.n, s) && Enabled(Allgather, sp.n, s, Copy(k))
    requires Idle(sp.n, s) && DataInv(sp, init, s, mem)
    ensures |s.order| == sp.n && k == sp.n - 1
    ensures HoldsAll(sp, mem, if s.procs[k].script[0].Read? then s.order[0] else s.order[k])
  {
    var todo := s.procs[k].script;
    assert todo == Uncopied(s.procs[k]);
    assert Complete(sp, s.order, todo, mem);
    assert TypedAt(sp.n, todo, 0);
    if todo[0].Write? {
      forall i | 0 <= i < |todo| ensures todo[i] != Read(0) { assert TypedAt(sp.n, todo, i); }
    }
  }

  /** Whatever the last rank copies is already complete: the first rank's buffer, then its own. */
  lemma {:induction false} OnlyCompleteDataMoves<V>(sp: Spec<V>, acts: seq<Action>, init: seq<seq<V>>, k: nat)
    requires Fits(sp, init) && After(Allgather, sp.n, acts).Some?
    requires Enabled(Allgather, sp.n, After(Allgather, sp.n, acts).value, Copy(k))
    ensures var s := After(Allgather, sp.n, acts).value;
      && |s.order| == sp.n && k == sp.n - 1
      && HoldsAll(sp, Buffers(sp, acts, init), if s.procs[k].script[0].Read? then s.order[0] else s.order[k])
  {
    BuffersInv(sp, acts, init);
    AlwaysIdle(Allgather, sp.n, acts);
    CopiesComplete(sp, init, After(Allgather, sp.n, acts).value, Buffers(sp, acts, init), k);
  }
}
