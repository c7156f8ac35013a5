/** Allgatherv: one gatherv per root, with a barrier in each round that lets the root join first. */
module Allgatherv {
  import opened Basics
  import opened Ledger
  import opened LedgerRuns
  import opened LedgerTheorems
  import opened LedgerProgress
  import opened RootedCollectives

  // ---------- the barrier ----------

  /** Per rank: gatherv slots joined, barrier waits begun, barrier waits finished, requests waited for and left. */
  datatype Front = Front(joins: seq<nat>, arrivals: seq<nat>, passes: seq<nat>, ends: seq<nat>)

  datatype Motion = JoinRound(rank: nat) | Arrive(rank: nat) | Pass(rank: nat) | EndRound(rank: nat)

  predicate Sized(n: nat, f: Front) { |f.joins| == |f.arrivals| == |f.passes| == |f.ends| == n }

  /** Round `ends[r]` is the one rank r is in; its root joins before its barrier, every other rank after it. */
  predicate Ready(n: nat, f: Front, m: Motion)
    requires Sized(n, f)
  {
    var r := m.rank;
    && r < n && f.ends[r] < n
    && var k := f.ends[r];
       match m
       case JoinRound(_) => f.joins[r] == k && f.passes[r] == if r == k then k else k + 1
       case Arrive(_) => f.arrivals[r] == f.passes[r] == k && f.joins[r] == if r == k then k + 1 else k
       case Pass(_) => f.arrivals[r] == f.passes[r] + 1 && forall q :: 0 <= q < n ==> f.arrivals[q] >= f.arrivals[r]
       // the root's wait returns only when all ranks have joined and been served
       case EndRound(_) => f.joins[r] == f.passes[r] == k + 1 && (r == k ==> forall q :: 0 <= q < n ==> f.joins[q] > k)
  }

  function Advance(f: Front, m: Motion): Front
    requires m.rank < |f.joins| == |f.arrivals| == |f.passes| == |f.ends|
  {
    var r := m.rank;
    match m
    case JoinRound(_) => f.(joins := f.joins[r := f.joins[r] + 1])
    case Arrive(_) => f.(arrivals := f.arrivals[r := f.arrivals[r] + 1])
    case Pass(_) => f.(passes := f.passes[r := f.passes[r] + 1])
    case EndRound(_) => f.(ends := f.ends[r := f.ends[r] + 1])
  }

  ghost predicate RankInOrder(f: Front, n: nat, r: nat)
    requires Sized(n, f) && r < n
  {
    && f.ends[r] <= f.joins[r] <= f.ends[r] + 1 && f.ends[r] <= f.passes[r] <= f.arrivals[r] <= f.ends[r] + 1
    && (f.arrivals[r] > r ==> f.joins[r] > r)
    && (f.joins[r] > f.ends[r] && f.ends[r] != r ==> f.passes[r] > f.ends[r])
  }

  ghost predicate FrontInv(n: nat, f: Front) {
    && Sized(n, f)
    && (forall r :: 0 <= r < n ==> RankInOrder(f, n, r))
    && (forall r, q :: 0 <= r < n && 0 <= q < n ==> f.passes[r] <= f.arrivals[q])
    && (forall k, q :: 0 <= k < n && 0 <= q < n && f.ends[k] > k ==> f.joins[q] > k)
  }

  /** The ranks' progress after a run of moves, or None when one was not allowed. */
  function AfterMoves(n: nat, moves: seq<Motion>): (f: Option<Front>)
    ensures f.Some? ==> Sized(n, f.value)
  {
    if moves == [] then Some(Front(seq(n, _ => 0), seq(n, _ => 0), seq(n, _ => 0), seq(n, _ => 0))) else
    var prior := AfterMoves(n, moves[..|moves| - 1]);
    var m := moves[|moves| - 1];
    if prior.None? || !Ready(n, prior.value, m) then None else
    Some(Advance(prior.value, m))
  }

  lemma RankStays(n: nat, f: Front, m: Motion, r: nat)
    requires Sized(n, f) && r < n && RankInOrder(f, n, r) && Ready(n, f, m)
    ensures Sized(n, Advance(f, m)) && RankInOrder(Advance(f, m), n, r)
  {
  }

  lemma AdvanceInv(n: nat, f: Front, m: Motion)
    requires FrontInv(n, f) && Ready(n, f, m)
    ensures FrontInv(n, Advance(f, m))
  {
    var g := Advance(f, m);
    forall r | 0 <= r < n ensures RankInOrder(g, n, r) { RankStays(n, f, m, r); }
    forall r, q | 0 <= r < n && 0 <= q < n ensures g.passes[r] <= g.arrivals[q] { assert f.passes[r] <= f.arrivals[q]; }
    forall k, q | 0 <= k < n && 0 <= q < n && g.ends[k] > k ensures g.joins[q] > k {
      if f.ends[k] > k { assert f.joins[q] > k; }
    }
  }

  /** The four counts of every rank stay in program order, and no rank passes a barrier another has not begun. */
  lemma {:induction false} AlwaysFront(n: nat, moves: seq<Motion>)
    requires AfterMoves(n, moves).Some?
    ensures FrontInv(n, AfterMoves(n, moves).value)
  {
    if moves != [] {
      AlwaysFront(n, moves[..|moves| - 1]);
      AdvanceInv(n, AfterMoves(n, moves[..|moves| - 1]).value, moves[|moves| - 1]);
    }
  }

  /** Whenever a rank has joined round k, or is about to as a leaf, the root of round k has joined it. */
  lemma {:induction false} RootJoinsFirst(n: nat, moves: seq<Motion>, r: nat, k: nat)
    requires AfterMoves(n, moves).Some? && r < n && k < n
    ensures var f := AfterMoves(n, moves).value;
      && (f.joins[r] > k ==> f.joins[k] > k)
      && (k != r && f.joins[r] == k && Ready(n, f, JoinRound(r)) ==> f.joins[k] > k)
  {
    AlwaysFront(n, moves);
    var f := AfterMoves(n, moves).value;
    assert RankInOrder(f, n, r) && RankInOrder(f, n, k);
    assert f.passes[r] <= f.arrivals[k];
  }

  /**
    Rounds do not overlap: once a leaf has joined round k, which is when it moves its bytes, every
    earlier round has been joined by all ranks, and its root's wait has returned.
   */
  lemma {:induction false} RoundsInOrder(n: nat, moves: seq<Motion>, r: nat, k: nat, before: nat, q: nat)
    requires AfterMoves(n, moves).Some? && r < n && before < k < n && q < n && r != k
    requires AfterMoves(n, moves).value.joins[r] > k
    ensures var f := AfterMoves(n, moves).value; f.ends[before] > before && f.joins[q] > before
  {
    AlwaysFront(n, moves);
    var f := AfterMoves(n, moves).value;
    assert RankInOrder(f, n, r) && RankInOrder(f, n, before);
    assert f.passes[r] <= f.arrivals[before];
  }

  // ---------- the rounds ----------

  /** `given[r]`: rank r's contribution; `inPlace[r]`: it lies in r's receive buffer already. */
  datatype Task<V> = Task(n: nat, counts: seq<nat>, displs: seq<nat>, given: seq<seq<V>>, inPlace: seq<bool>)

  predicate Laid<V>(t: Task<V>, recv: seq<seq<V>>) {
    && t.n >= 2 && |t.counts| == |t.displs| == |t.given| == |t.inPlace| == |recv| == t.n
    && (forall r :: 0 <= r < t.n ==> |t.given[r]| == t.counts[r])
    && (forall r, q :: 0 <= r < t.n && 0 <= q < t.n ==> t.displs[q] + t.counts[q] <= |recv[r]|)
  }

  /** Every segment ends within the sum of the counts, which is the size each root registers. */
  predicate WithinTotal<V>(t: Task<V>)
    requires |t.counts| == |t.displs| == t.n
  {
    forall q :: 0 <= q < t.n ==> t.displs[q] + t.counts[q] <= SumOf(t.counts)
  }

  /** The same, of the segments that are not empty. */
  predicate FilledWithin<V>(t: Task<V>)
    requires |t.counts| == |t.displs| == t.n
  {
    forall q :: 0 <= q < t.n ==> t.counts[q] == 0 || t.displs[q] + t.counts[q] <= SumOf(t.counts)
  }

  ghost predicate Apart<V>(t: Task<V>)
    requires |t.counts| == |t.displs| == t.n
  {
    forall q, r, i: nat :: 0 <= q < t.n && 0 <= r < t.n && q != r ==> !(Covers(t, q, i) && Covers(t, r, i))
  }

  ghost predicate Covers<V>(t: Task<V>, q: nat, i: nat)
    requires q < |t.counts| && q < |t.displs|
  {
    t.displs[q] <= i < t.displs[q] + t.counts[q]
  }

  /** Rank q's segment of a receive buffer holds rank q's contribution. */
  ghost predicate Has<V>(t: Task<V>, buf: seq<V>, q: nat) {
    q < |t.displs| && q < |t.counts| && q < |t.given| && t.displs[q] + t.counts[q] <= |buf|
    && buf[t.displs[q]..t.displs[q] + t.counts[q]] == t.given[q]
  }

  ghost predicate InPlaceGiven<V>(t: Task<V>, recv: seq<seq<V>>)
    requires Laid(t, recv)
  {
    forall r :: 0 <= r < t.n && t.inPlace[r] ==> Has(t, recv[r], r)
  }

  /** The buffers that the ranks register in round k. */
  function Registered<V>(t: Task<V>, k: nat, recv: seq<seq<V>>): (mem: seq<seq<V>>)
    requires Laid(t, recv) && k < t.n
    ensures |mem| == t.n
  {
    seq(t.n, (r: nat) requires r < t.n =>
      if r == k then (if t.inPlace[k] then recv[k] else Put(recv[k], t.displs[k], t.given[k]))
      else if t.inPlace[r] then recv[r][t.displs[r]..t.displs[r] + t.counts[r]]
      else t.given[r])
  }

  function RoundSpec<V>(t: Task<V>, k: nat): Spec { Gatherv(t.n, k, t.counts, t.displs) }

  lemma RegisteredFits<V>(t: Task<V>, k: nat, recv: seq<seq<V>>)
    requires Laid(t, recv) && k < t.n && FilledWithin(t)
    ensures Fits(RoundSpec(t, k), Registered(t, k, recv))
  {
  }

  lemma RegisteredGiven<V>(t: Task<V>, k: nat, recv: seq<seq<V>>, r: nat)
    requires Laid(t, recv) && InPlaceGiven(t, recv) && k < t.n && r < t.n
    ensures if r == k then Has(t, Registered(t, k, recv)[k], k) else Registered(t, k, recv)[r] == t.given[r]
  {
    if r == k && !t.inPlace[k] {
      var buf := Put(recv[k], t.displs[k], t.given[k]);
      assert buf[t.displs[k]..t.displs[k] + t.counts[k]] == t.given[k];
    }
  }

  lemma RootKeepsOwn<V>(t: Task<V>, k: nat, init: seq<seq<V>>, buf: seq<V>)
    requires k < t.n && |t.counts| == |t.displs| == t.n && Apart(t)
    requires Fits(RoundSpec(t, k), init) && |buf| == |init[k]| && OutsideKept(RoundSpec(t, k), init, buf)
    requires Has(t, init[k], k)
    ensures Has(t, buf, k)
  {
    forall i | t.displs[k] <= i < t.displs[k] + t.counts[k] ensures buf[i] == init[k][i] {
      assert Covers(t, k, i);
      forall r | 0 <= r < t.n && r != k ensures !InSegment(RoundSpec(t, k), r, i) {
        assert !Covers(t, r, i);
      }
    }
    assert buf[t.displs[k]..t.displs[k] + t.counts[k]] == init[k][t.displs[k]..t.displs[k] + t.counts[k]];
  }

  lemma RoundDisjoint<V>(t: Task<V>, k: nat)
    requires |t.counts| == |t.displs| == t.n && Apart(t)
    ensures Disjoint(RoundSpec(t, k))
  {
    forall q, r, i: nat | 0 <= q < t.n && 0 <= r < t.n && q != r
      ensures !(InSegment(RoundSpec(t, k), q, i) && InSegment(RoundSpec(t, k), r, i))
    {
      assert !(Covers(t, q, i) && Covers(t, r, i));
    }
  }

  lemma HasAll<V>(t: Task<V>, k: nat, before: seq<seq<V>>, buf: seq<V>)
    requires Laid(t, before) && Apart(t) && InPlaceGiven(t, before) && k < t.n
    requires Fits(RoundSpec(t, k), Registered(t, k, before)) && |buf| == |Registered(t, k, before)[k]|
    requires OutsideKept(RoundSpec(t, k), Registered(t, k, before), buf)
    requires forall q :: 0 <= q < t.n && q != k ==> Collected(RoundSpec(t, k), Registered(t, k, before), buf, q)
    ensures |buf| == |before[k]|
    ensures forall q :: 0 <= q < t.n ==> Has(t, buf, q)
  {
    forall q | 0 <= q < t.n ensures Has(t, buf, q) {
      RegisteredGiven(t, k, before, q);
      if q == k {
        RootKeepsOwn(t, k, Registered(t, k, before), buf);
      } else {
        assert t.given[q][..t.counts[q]] == t.given[q];
        assert Collected(RoundSpec(t, k), Registered(t, k, before), buf, q);
      }
    }
  }

  // ---------- all rounds at once ----------

  /** A step of round k's gatherv. Steps of different rounds may come in any order. */
  datatype Step = Step(round: nat, action: Action)

  function Project(run: seq<Step>, k: nat): seq<Action> {
    if run == [] then [] else
    var last := run[|run| - 1];
    Project(run[..|run| - 1], k) + if last.round == k then [last.action] else []
  }

  /** Round by round the steps are a run of that round's gatherv. */
  ghost predicate Mixed<V>(t: Task<V>, run: seq<Step>) {
    && t.n >= 2
    && (forall i :: 0 <= i < |run| ==> run[i].round < t.n)
    && (forall k :: 0 <= k < t.n ==> Runs(t, run, k))
  }

  ghost predicate Runs<V>(t: Task<V>, run: seq<Step>, k: nat)
    requires t.n >= 2 && k < t.n
  {
    After(Rooted(k, false), t.n, Project(run, k)).Some?
  }

  ghost function LedgerOf<V>(t: Task<V>, run: seq<Step>, k: nat): State
    requires t.n >= 2 && k < t.n && Runs(t, run, k)
  {
    After(Rooted(k, false), t.n, Project(run, k)).value
  }

  lemma MixedPrefix<V>(t: Task<V>, run: seq<Step>)
    requires Mixed(t, run) && run != []
    ensures Mixed(t, run[..|run| - 1])
    ensures var last := run[|run| - 1]; var prior := run[..|run| - 1];
      last.round < t.n && Enabled(Rooted(last.round, false), t.n, LedgerOf(t, prior, last.round), last.action)
  {
    var last := run[|run| - 1];
    var prior := run[..|run| - 1];
    forall k | 0 <= k < t.n ensures Runs(t, prior, k) {
      assert Runs(t, run, k);
      if k == last.round { assert Project(run, k)[..|Project(run, k)| - 1] == Project(prior, k); }
      else { assert Project(run, k) == Project(prior, k); }
    }
    assert Runs(t, run, last.round);
    assert Project(run, last.round)[..|Project(run, last.round)| - 1] == Project(prior, last.round);
  }

  /** What rank r delivers in any round, read where it lies at that moment. */
  function Delivery<V>(t: Task<V>, recv: seq<seq<V>>, r: nat): seq<V>
    requires Laid(t, recv) && r < t.n
  {
    if t.inPlace[r] then recv[r][t.displs[r]..t.displs[r] + t.counts[r]] else t.given[r]
  }

  /** The buffers as round k sees them: the root's receive buffer, and the leaves' segments. */
  function View<V>(t: Task<V>, k: nat, recv: seq<seq<V>>): (mem: seq<seq<V>>)
    requires Laid(t, recv) && k < t.n
    ensures |mem| == t.n
  {
    seq(t.n, (r: nat) requires r < t.n => if r == k then recv[k] else Delivery(t, recv, r))
  }

  /** One step on the shared receive buffers: the root's own copy when it joins, or a transfer. */
  ghost function Effects<V>(t: Task<V>, prior: seq<Step>, step: Step, recv: seq<seq<V>>): seq<seq<V>>
    requires Laid(t, recv) && step.round < t.n && Runs(t, prior, step.round)
    requires Enabled(Rooted(step.round, false), t.n, LedgerOf(t, prior, step.round), step.action)
  {
    var k := step.round;
    match step.action
    case Join(r) =>
      if r == k && !t.inPlace[k] then recv[k := Put(recv[k], t.displs[k], t.given[k])] else recv
    case Copy(_) =>
      recv[k := Effect(RoundSpec(t, k), LedgerOf(t, prior, k), step.action, View(t, k, recv))[k]]
    case _ => recv
  }

  /** Only the round's own root's buffer is written, and its length stays. */
  lemma EffectsLaid<V>(t: Task<V>, prior: seq<Step>, step: Step, recv: seq<seq<V>>)
    requires Laid(t, recv) && step.round < t.n && Runs(t, prior, step.round)
    requires Enabled(Rooted(step.round, false), t.n, LedgerOf(t, prior, step.round), step.action)
    ensures var after := Effects(t, prior, step, recv);
      && Laid(t, after) && |after[step.round]| == |recv[step.round]|
      && forall k :: 0 <= k < t.n && k != step.round ==> after[k] == recv[k]
  {
    if step.action.Copy? {
      EffectLength(RoundSpec(t, step.round), LedgerOf(t, prior, step.round), step.action, View(t, step.round, recv));
    }
  }

  lemma EffectLength<V>(sp: Spec, s: State, a: Action, mem: seq<seq<V>>)
    requires Shape(sp, mem) && Inv(KindOf(sp), sp.n, s) && WellFormed(sp.n, s) && Enabled(KindOf(sp), sp.n, s, a)
    ensures |Effect(sp, s, a, mem)[sp.root]| == |mem[sp.root]|
  {
  }

  /** The receive buffers after a run. */
  ghost function Recv<V>(t: Task<V>, run: seq<Step>, init: seq<seq<V>>): (recv: seq<seq<V>>)
    requires Laid(t, init) && Mixed(t, run)
    ensures Laid(t, recv) && forall k :: 0 <= k < t.n ==> |recv[k]| == |init[k]|
  {
    if run == [] then init else
    var prior := run[..|run| - 1];
    MixedPrefix(t, run);
    EffectsLaid(t, prior, run[|run| - 1], Recv(t, prior, init));
    Effects(t, prior, run[|run| - 1], Recv(t, prior, init))
  }
}
