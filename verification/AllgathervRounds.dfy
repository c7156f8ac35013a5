/**
  What an allgatherv leaves in the receive buffers when its rounds share them, for every interleaving
  of the steps of all rounds.
 */
module AllgathervRounds {
  import opened Basics
  import opened Ledger
  import opened LedgerPlans
  import opened LedgerRuns
  import opened LedgerTheorems
  import opened LedgerProgress
  import Completion
  import opened RootedCollectives
  import opened RootUntouched
  import opened Allgatherv

  // ---------- one round on its own ----------

  /** A copy is possible only once the root has joined. */
  lemma RootIsIn(sp: Spec, acts: seq<Action>, pos: nat)
    requires Sizes(KindOf(sp), sp.n) && After(KindOf(sp), sp.n, acts).Some?
    requires Enabled(KindOf(sp), sp.n, After(KindOf(sp), sp.n, acts).value, Copy(pos))
    ensures sp.root in After(KindOf(sp), sp.n, acts).value.order
  {
    var s := After(KindOf(sp), sp.n, acts).value;
    AlwaysTyped(sp, acts);
    var j := CopyServes(sp, s, pos);
    assert s.order[pos] in s.order && s.order[s.procs[pos].script[0].cookie] in s.order;
  }

  lemma {:induction false} NothingBeforeRoot<V>(sp: Spec, acts: seq<Action>, init: seq<seq<V>>)
    requires Shape(sp, init) && After(KindOf(sp), sp.n, acts).Some?
    requires sp.root !in After(KindOf(sp), sp.n, acts).value.order
    ensures Buffers(sp, acts, init) == init
  {
    if acts != [] {
      var prior, a := acts[..|acts| - 1], acts[|acts| - 1];
      var s := After(KindOf(sp), sp.n, prior).value;
      Completion.OrderGrows(KindOf(sp), sp.n, s, a);
      NothingBeforeRoot(sp, prior, init);
      if a.Copy? { RootIsIn(sp, prior, a.pos); }
    }
  }

  /** Untouched before the root of its round has joined; afterwards the root's buffer of that round run alone. */
  ghost predicate Expected<V>(t: Task<V>, run: seq<Step>, init: seq<seq<V>>, recv: seq<seq<V>>, k: nat)
    requires Laid(t, init) && k < t.n && Runs(t, run, k)
  {
    k < |recv| &&
    recv[k] == if k in LedgerOf(t, run, k).order
               then Buffers(RoundSpec(t, k), Project(run, k), Registered(t, k, init))[k] else init[k]
  }

  /** In one round: the root's own segment is intact, the leaves' data too. */
  lemma {:induction false} RoundKeeps<V>(t: Task<V>, acts: seq<Action>, init: seq<seq<V>>, k: nat)
    requires Laid(t, init) && Apart(t) && InPlaceGiven(t, init) && FilledWithin(t) && k < t.n
    requires After(KindOf(RoundSpec(t, k)), t.n, acts).Some?
    ensures var mem := Buffers(RoundSpec(t, k), acts, Registered(t, k, init));
      && |mem| == t.n && |mem[k]| == |init[k]| && Has(t, mem[k], k)
      && forall r :: 0 <= r < t.n && r != k ==> mem[r] == t.given[r]
  {
    RegisteredFits(t, k, init);
    RoundDisjoint(t, k);
    BuffersInv(RoundSpec(t, k), acts, Registered(t, k, init));
    RoundValues(t, init, k, Buffers(RoundSpec(t, k), acts, Registered(t, k, init)));
  }

  lemma RoundValues<V>(t: Task<V>, init: seq<seq<V>>, k: nat, mem: seq<seq<V>>)
    requires Laid(t, init) && Apart(t) && InPlaceGiven(t, init) && k < t.n && |mem| == t.n
    requires Fits(RoundSpec(t, k), Registered(t, k, init)) && |mem[k]| == |Registered(t, k, init)[k]|
    requires OutsideKept(RoundSpec(t, k), Registered(t, k, init), mem[k])
    requires forall r :: 0 <= r < t.n && r != k ==> mem[r] == Registered(t, k, init)[r]
    ensures |mem[k]| == |init[k]| && Has(t, mem[k], k) && forall r :: 0 <= r < t.n && r != k ==> mem[r] == t.given[r]
  {
    RegisteredGiven(t, k, init, k);
    RootKeepsOwn(t, k, Registered(t, k, init), mem[k]);
    forall r | 0 <= r < t.n && r != k ensures mem[r] == t.given[r] { RegisteredGiven(t, k, init, r); }
  }

  // ---------- all rounds ----------

  lemma ExpectedOwn<V>(t: Task<V>, run: seq<Step>, init: seq<seq<V>>, recv: seq<seq<V>>, r: nat)
    requires Laid(t, init) && Laid(t, recv) && Apart(t) && InPlaceGiven(t, init) && FilledWithin(t)
    requires r < t.n && Runs(t, run, r) && Expected(t, run, init, recv, r)
    ensures Delivery(t, recv, r) == t.given[r]
  {
    if t.inPlace[r] {
      RoundKeeps(t, Project(run, r), init, r);
      assert Has(t, init[r], r);
    }
  }

  lemma {:induction false} ViewExpected<V>(t: Task<V>, prior: seq<Step>, init: seq<seq<V>>, recv: seq<seq<V>>, k: nat)
    requires Laid(t, init) && Laid(t, recv) && Apart(t) && InPlaceGiven(t, init) && FilledWithin(t) && Mixed(t, prior)
    requires k < t.n && Runs(t, prior, k) && k in LedgerOf(t, prior, k).order
    requires forall r :: 0 <= r < t.n ==> Runs(t, prior, r) && Expected(t, prior, init, recv, r)
    ensures View(t, k, recv) == Buffers(RoundSpec(t, k), Project(prior, k), Registered(t, k, init))
  {
    RoundKeeps(t, Project(prior, k), init, k);
    forall r | 0 <= r < t.n && r != k ensures Delivery(t, recv, r) == t.given[r] {
      assert Expected(t, prior, init, recv, r);
      ExpectedOwn(t, prior, init, recv, r);
    }
    assert Expected(t, prior, init, recv, k);
  }

  lemma {:induction false} CopyExpected<V>(t: Task<V>, prior: seq<Step>, init: seq<seq<V>>, recv: seq<seq<V>>,
          k: nat, pos: nat)
    requires Laid(t, init) && Laid(t, recv) && Apart(t) && InPlaceGiven(t, init) && FilledWithin(t) && Mixed(t, prior)
    requires k < t.n && Runs(t, prior, k) && Enabled(Rooted(k, false), t.n, LedgerOf(t, prior, k), Copy(pos))
    requires forall r :: 0 <= r < t.n ==> Runs(t, prior, r) && Expected(t, prior, init, recv, r)
    ensures k in LedgerOf(t, prior, k).order
    ensures Effects(t, prior, Step(k, Copy(pos)), recv)[k] ==
      Effect(RoundSpec(t, k), LedgerOf(t, prior, k), Copy(pos),
             Buffers(RoundSpec(t, k), Project(prior, k), Registered(t, k, init)))[k]
  {
    RootIsIn(RoundSpec(t, k), Project(prior, k), pos);
    ViewExpected(t, prior, init, recv, k);
  }

  /** Round k's projection grows by its own step. */
  lemma Projected<V>(t: Task<V>, prior: seq<Step>, step: Step, now: seq<Step>)
    requires t.n >= 2 && now == prior + [step] && step.round < t.n
    requires Runs(t, prior, step.round) && Runs(t, now, step.round)
    requires Enabled(Rooted(step.round, false), t.n, LedgerOf(t, prior, step.round), step.action)
    ensures Project(now, step.round) == Project(prior, step.round) + [step.action]
    ensures Project(now, step.round)[..|Project(now, step.round)| - 1] == Project(prior, step.round)
    ensures LedgerOf(t, now, step.round)
         == Next(Rooted(step.round, false), t.n, LedgerOf(t, prior, step.round), step.action)
  {
    assert now[..|now| - 1] == prior;
  }

  lemma JoinMovesNothing<V>(sp: Spec, acts: seq<Action>, r: nat, init: seq<seq<V>>)
    requires Shape(sp, init) && After(KindOf(sp), sp.n, acts).Some? && After(KindOf(sp), sp.n, acts + [Join(r)]).Some?
    ensures Buffers(sp, acts + [Join(r)], init) == Buffers(sp, acts, init)
  {
    assert (acts + [Join(r)])[..|acts|] == acts;
  }

  lemma {:induction false} JoinExpected<V>(t: Task<V>, prior: seq<Step>, init: seq<seq<V>>, recv: seq<seq<V>>,
          k: nat, r: nat, now: seq<Step>)
    requires Laid(t, init) && Laid(t, recv) && k < t.n && Runs(t, prior, k) && Expected(t, prior, init, recv, k)
    requires now == prior + [Step(k, Join(r))] && Runs(t, now, k)
    requires Enabled(Rooted(k, false), t.n, LedgerOf(t, prior, k), Join(r))
    ensures Expected(t, now, init, Effects(t, prior, Step(k, Join(r)), recv), k)
  {
    Projected(t, prior, Step(k, Join(r)), now);
    UncopiedJoin(Rooted(k, false), t.n, LedgerOf(t, prior, k), r);
    JoinMovesNothing(RoundSpec(t, k), Project(prior, k), r, Registered(t, k, init));
    if r == k { NothingBeforeRoot(RoundSpec(t, k), Project(prior, k), Registered(t, k, init)); }
  }

  lemma {:induction false} TransferExpected<V>(t: Task<V>, prior: seq<Step>, init: seq<seq<V>>,
          recv: seq<seq<V>>, k: nat, pos: nat, now: seq<Step>)
    requires Laid(t, init) && Laid(t, recv) && Apart(t) && InPlaceGiven(t, init) && FilledWithin(t) && Mixed(t, prior)
    requires k < t.n && Runs(t, prior, k) && Enabled(Rooted(k, false), t.n, LedgerOf(t, prior, k), Copy(pos))
    requires forall r :: 0 <= r < t.n ==> Runs(t, prior, r) && Expected(t, prior, init, recv, r)
    requires now == prior + [Step(k, Copy(pos))] && Runs(t, now, k)
    ensures Expected(t, now, init, Effects(t, prior, Step(k, Copy(pos)), recv), k)
  {
    Projected(t, prior, Step(k, Copy(pos)), now);
    CopyExpected(t, prior, init, recv, k, pos);
    OtherSteps(Rooted(k, false), t.n, LedgerOf(t, prior, k), Copy(pos));
  }

  lemma {:induction false} QuietExpected<V>(t: Task<V>, prior: seq<Step>, init: seq<seq<V>>, recv: seq<seq<V>>,
          k: nat, a: Action, now: seq<Step>)
    requires Laid(t, init) && Laid(t, recv) && k < t.n && Runs(t, prior, k) && Expected(t, prior, init, recv, k)
    requires now == prior + [Step(k, a)] && Runs(t, now, k) && !a.Copy? && !a.Join?
    requires Enabled(Rooted(k, false), t.n, LedgerOf(t, prior, k), a)
    ensures Expected(t, now, init, Effects(t, prior, Step(k, a), recv), k)
  {
    Projected(t, prior, Step(k, a), now);
    OtherSteps(Rooted(k, false), t.n, LedgerOf(t, prior, k), a);
  }

  lemma {:induction false} StepExpected<V>(t: Task<V>, prior: seq<Step>, init: seq<seq<V>>, recv: seq<seq<V>>,
          step: Step, now: seq<Step>)
    requires Laid(t, init) && Laid(t, recv) && Apart(t) && InPlaceGiven(t, init) && FilledWithin(t) && Mixed(t, prior)
    requires now == prior + [step] && step.round < t.n && Runs(t, prior, step.round) && Runs(t, now, step.round)
    requires Enabled(Rooted(step.round, false), t.n, LedgerOf(t, prior, step.round), step.action)
    requires forall r :: 0 <= r < t.n ==> Runs(t, prior, r) && Expected(t, prior, init, recv, r)
    ensures Expected(t, now, init, Effects(t, prior, step, recv), step.round)
  {
    assert Expected(t, prior, init, recv, step.round);
    match step.action
    case Copy(pos) => TransferExpected(t, prior, init, recv, step.round, pos, now);
    case Join(r) => JoinExpected(t, prior, init, recv, step.round, r, now);
    case _ => QuietExpected(t, prior, init, recv, step.round, step.action, now);
  }

  lemma OtherExpected<V>(t: Task<V>, prior: seq<Step>, init: seq<seq<V>>, recv: seq<seq<V>>,
          after: seq<seq<V>>, now: seq<Step>, k: nat)
    requires Laid(t, init) && k < t.n && Runs(t, prior, k) && Expected(t, prior, init, recv, k)
    requires Runs(t, now, k) && Project(now, k) == Project(prior, k) && k < |after| && after[k] == recv[k]
    ensures Expected(t, now, init, after, k)
  {
  }

  /** Every buffer is what its own round makes of it. */
  ghost predicate Separate<V>(t: Task<V>, run: seq<Step>, init: seq<seq<V>>, recv: seq<seq<V>>)
    requires Laid(t, init)
  {
    forall r :: 0 <= r < t.n ==> Runs(t, run, r) && Expected(t, run, init, recv, r)
  }

  /** One more step, on any round, keeps it so. */
  lemma {:induction false} EachExpected<V>(t: Task<V>, prior: seq<Step>, init: seq<seq<V>>, recv: seq<seq<V>>,
          step: Step, now: seq<Step>, k: nat)
    requires Laid(t, init) && Laid(t, recv) && Apart(t) && InPlaceGiven(t, init) && FilledWithin(t) && Mixed(t, prior)
    requires now == prior + [step] && step.round < t.n && Runs(t, prior, step.round) && Runs(t, now, step.round)
    requires Enabled(Rooted(step.round, false), t.n, LedgerOf(t, prior, step.round), step.action)
    requires Separate(t, prior, init, recv) && k < t.n && Runs(t, now, k)
    ensures Expected(t, now, init, Effects(t, prior, step, recv), k)
  {
    EffectsLaid(t, prior, step, recv);
    if k == step.round {
      StepExpected(t, prior, init, recv, step, now);
    } else {
      assert now[..|now| - 1] == prior;
      assert Project(now, k) == Project(prior, k);
      OtherExpected(t, prior, init, recv, Effects(t, prior, step, recv), now, k);
    }
  }

  lemma StepSeparate<V>(t: Task<V>, prior: seq<Step>, init: seq<seq<V>>, recv: seq<seq<V>>, step: Step, now: seq<Step>)
    requires Laid(t, init) && Laid(t, recv) && Apart(t) && InPlaceGiven(t, init) && FilledWithin(t)
    requires Mixed(t, prior) && Mixed(t, now) && now == prior + [step] && step.round < t.n
    requires Enabled(Rooted(step.round, false), t.n, LedgerOf(t, prior, step.round), step.action)
    requires Separate(t, prior, init, recv)
    ensures Separate(t, now, init, Effects(t, prior, step, recv))
  {
    assert Runs(t, now, step.round);
    forall k | 0 <= k < t.n ensures Runs(t, now, k) && Expected(t, now, init, Effects(t, prior, step, recv), k) {
      EachExpected(t, prior, init, recv, step, now, k);
    }
  }

  lemma {:induction false} AlwaysSeparate<V>(t: Task<V>, run: seq<Step>, init: seq<seq<V>>)
    requires Laid(t, init) && Apart(t) && InPlaceGiven(t, init) && FilledWithin(t) && Mixed(t, run)
    ensures Separate(t, run, init, Recv(t, run, init))
  {
    if run == [] {
      forall k | 0 <= k < t.n ensures Runs(t, run, k) && Expected(t, run, init, Recv(t, run, init), k) {
        assert After(Rooted(k, false), t.n, []) == Some(INIT);
      }
    } else {
      var prior, step := run[..|run| - 1], run[|run| - 1];
      MixedPrefix(t, run);
      AlwaysSeparate(t, prior, init);
      StepSeparate(t, prior, init, Recv(t, prior, init), step, run);
    }
  }

  /**
    Each buffer is what its own round makes of it: before the root joins it is untouched, afterwards it
    is the root's buffer of that round's gatherv run alone.
   */
  lemma {:induction false} RoundsAreSeparate<V>(t: Task<V>, run: seq<Step>, init: seq<seq<V>>, k: nat)
    requires Laid(t, init) && Apart(t) && InPlaceGiven(t, init) && FilledWithin(t) && Mixed(t, run) && k < t.n
    ensures Runs(t, run, k) && Expected(t, run, init, Recv(t, run, init), k)
  {
    AlwaysSeparate(t, run, init);
  }

  /** Element i lies in no rank's segment. */
  predicate Uncovered<V>(t: Task<V>, i: nat)
    requires |t.counts| == |t.displs| == t.n
  {
    forall q :: 0 <= q < t.n ==> !(t.displs[q] <= i < t.displs[q] + t.counts[q])
  }

  lemma {:induction false} GapsKept<V>(t: Task<V>, k: nat, init: seq<seq<V>>, buf: seq<V>)
    requires Laid(t, init) && k < t.n && Fits(RoundSpec(t, k), Registered(t, k, init)) && |buf| == |init[k]|
    requires |Registered(t, k, init)[k]| == |init[k]| && OutsideKept(RoundSpec(t, k), Registered(t, k, init), buf)
    ensures forall i :: 0 <= i < |buf| && Uncovered(t, i) ==> buf[i] == init[k][i]
  {
    forall i | 0 <= i < |buf| && Uncovered(t, i) ensures buf[i] == init[k][i] {
      forall r | 0 <= r < t.n ensures !InSegment(RoundSpec(t, k), r, i) {}
      assert Registered(t, k, init)[k][i] == init[k][i];
    }
  }

  /** The buffer `start` with every rank's contribution in its segment. */
  ghost predicate Assembled<V>(t: Task<V>, start: seq<V>, buf: seq<V>)
    requires |t.counts| == |t.displs| == t.n
  {
    && |buf| == |start| && (forall q :: 0 <= q < t.n ==> Has(t, buf, q))
    && forall i :: 0 <= i < |buf| && Uncovered(t, i) ==> buf[i] == start[i]
  }

  lemma {:induction false} RootAssembles<V>(t: Task<V>, run: seq<Step>, init: seq<seq<V>>, k: nat, pos: nat)
    requires Laid(t, init) && Apart(t) && InPlaceGiven(t, init) && FilledWithin(t) && Mixed(t, run) && k < t.n
    requires Runs(t, run, k) && Completed(LedgerOf(t, run, k), pos) && LedgerOf(t, run, k).order[pos] == k
    ensures Assembled(t, init[k], Recv(t, run, init)[k])
  {
    RoundsAreSeparate(t, run, init, k);
    RegisteredFits(t, k, init);
    RoundDisjoint(t, k);
    RootCollects(RoundSpec(t, k), Project(run, k), Registered(t, k, init), pos);
    HasAll(t, k, init, Recv(t, run, init)[k]);
    GapsKept(t, k, init, Recv(t, run, init)[k]);
  }

  lemma AssembledMeans<V>(t: Task<V>, start: seq<V>, buf: seq<V>)
    requires |t.counts| == |t.displs| == |t.given| == t.n && Assembled(t, start, buf)
    ensures |buf| == |start|
    ensures forall q :: 0 <= q < t.n ==>
      t.displs[q] + t.counts[q] <= |buf| && buf[t.displs[q]..t.displs[q] + t.counts[q]] == t.given[q]
    ensures forall i :: 0 <= i < |buf| && Uncovered(t, i) ==> buf[i] == start[i]
  {
    forall q | 0 <= q < t.n
      ensures t.displs[q] + t.counts[q] <= |buf| && buf[t.displs[q]..t.displs[q] + t.counts[q]] == t.given[q]
    {
      assert Has(t, buf, q);
    }
  }

  /**
    Once rank k's wait on its own round has returned, its buffer holds every rank's segment at its
    displacement, in place or not, and what was between the segments, however the steps of all rounds
    interleave.
   */
  lemma {:induction false} EveryRankHoldsAllSegments<V>(t: Task<V>, run: seq<Step>, init: seq<seq<V>>, k: nat, pos: nat)
    requires Laid(t, init) && Apart(t) && InPlaceGiven(t, init) && FilledWithin(t) && Mixed(t, run) && k < t.n
    requires Runs(t, run, k) && Completed(LedgerOf(t, run, k), pos) && LedgerOf(t, run, k).order[pos] == k
    ensures var buf := Recv(t, run, init)[k];
      && |buf| == |init[k]|
      && (forall q :: 0 <= q < t.n ==> buf[t.displs[q]..t.displs[q] + t.counts[q]] == t.given[q])
      && (forall i :: 0 <= i < |buf| && Uncovered(t, i) ==> buf[i] == init[k][i])
  {
    RootAssembles(t, run, init, k, pos);
    AssembledMeans(t, init[k], Recv(t, run, init)[k]);
  }

  /** In every run, at every moment, an in-place rank's own segment is the contribution it was given. */
  lemma {:induction false} OwnSegmentKept<V>(t: Task<V>, run: seq<Step>, init: seq<seq<V>>, r: nat)
    requires Laid(t, init) && Apart(t) && InPlaceGiven(t, init) && FilledWithin(t) && Mixed(t, run) && r < t.n
    ensures Delivery(t, Recv(t, run, init), r) == t.given[r]
    ensures t.inPlace[r] ==> Recv(t, run, init)[r][t.displs[r]..t.displs[r] + t.counts[r]] == t.given[r]
  {
    RoundsAreSeparate(t, run, init, r);
    ExpectedOwn(t, run, init, Recv(t, run, init), r);
  }

  // ---------- beyond the total ----------

  /** No run writes past the sum of the counts, the root's own segment apart. */
  lemma {:induction false} BeyondSumKept<V>(t: Task<V>, run: seq<Step>, init: seq<seq<V>>, k: nat, i: nat)
    requires Laid(t, init) && Mixed(t, run) && k < t.n && SumOf(t.counts) <= i < |init[k]| && !Covers(t, k, i)
    ensures Recv(t, run, init)[k][i] == init[k][i]
  {
    if run != [] {
      var prior, step := run[..|run| - 1], run[|run| - 1];
      MixedPrefix(t, run);
      BeyondSumKept(t, prior, init, k, i);
      EffectsLaid(t, prior, step, Recv(t, prior, init));
      if k == step.round && step.action.Copy? {
        CopyWithinSum(t, prior, Recv(t, prior, init), k, step.action.pos, i);
      }
    }
  }

  lemma {:induction false} CopyWithinSum<V>(t: Task<V>, prior: seq<Step>, recv: seq<seq<V>>, k: nat, pos: nat, i: nat)
    requires Laid(t, recv) && k < t.n && Runs(t, prior, k) && SumOf(t.counts) <= i < |recv[k]|
    requires Enabled(Rooted(k, false), t.n, LedgerOf(t, prior, k), Copy(pos))
    ensures var after := Effects(t, prior, Step(k, Copy(pos)), recv);
      |after| == t.n && |after[k]| > i && after[k][i] == recv[k][i]
  {
    var sp := RoundSpec(t, k);
    var s := LedgerOf(t, prior, k);
    AlwaysTyped(sp, Project(prior, k));
    var j := CopyServes(sp, s, pos);
    CopyMisses(sp, s, View(t, k, recv), pos, s.order[j], i);
  }

  lemma LastOfSegment<V>(t: Task<V>, buf: seq<V>, q: nat)
    requires q < |t.counts| && q < |t.displs| && q < |t.given| && t.counts[q] > 0 && |t.given[q]| == t.counts[q]
    ensures Has(t, buf, q) ==> buf[t.displs[q] + t.counts[q] - 1] == t.given[q][t.counts[q] - 1]
  {
    if Has(t, buf, q) {
      assert buf[t.displs[q]..t.displs[q] + t.counts[q]][t.counts[q] - 1] == t.given[q][t.counts[q] - 1];
    }
  }

  /** A segment that ends past the sum of the counts never reaches another rank's buffer. */
  lemma {:induction false} SegmentLost<V>(t: Task<V>, run: seq<Step>, init: seq<seq<V>>, k: nat, q: nat)
    requires Laid(t, init) && Mixed(t, run) && Apart(t) && k < t.n && q < t.n && k != q
    requires t.counts[q] > 0 && t.displs[q] + t.counts[q] > SumOf(t.counts)
    requires init[k][t.displs[q] + t.counts[q] - 1] != t.given[q][t.counts[q] - 1]
    ensures !Has(t, Recv(t, run, init)[k], q)
  {
    var i := t.displs[q] + t.counts[q] - 1;
    assert Covers(t, q, i);
    BeyondSumKept(t, run, init, k, i);
    LastOfSegment(t, Recv(t, run, init)[k], q);
  }
}
