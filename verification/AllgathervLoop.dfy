/**
  The whole loop of an allgatherv: one gatherv per root, the barrier in front of the leaves' parts, and
  ranks that leave the loop with an error when a transfer of theirs is refused.
 */
module AllgathervLoop {
  import opened Basics
  import opened Ledger
  import opened LedgerPlans
  import opened LedgerRuns
  import opened LedgerTheorems
  import opened LedgerProgress
  import Completion
  import opened RootedCollectives
  import C = RootedCalls
  import opened Allgatherv

  /** `rounds[k]`: the ledger of root k's gatherv; `refused` and `gone`: ranks refused, and out of the loop. */
  datatype Loop = Loop(front: Front, rounds: seq<State>, refused: set<nat>, gone: set<nat>)

  datatype Event = Do(step: Step) | Barrier(motion: Motion) | Quit(rank: nat)

  predicate Fitted<V>(t: Task<V>) { t.n >= 2 && |t.counts| == |t.displs| == t.n }

  predicate Sound(n: nat, x: Loop) {
    Allgatherv.Sized(n, x.front) && |x.rounds| == n
  }

  /** Rank r's transfer in its present round has been reported. */
  predicate Reported(n: nat, x: Loop, r: nat)
    requires Sound(n, x)
  {
    r < n && x.front.ends[r] < n &&
    var s := x.rounds[x.front.ends[r]];
    r in s.order && |s.procs| == |s.order| && !s.procs[IndexOf(s.order, r)].copied
  }

  /** The step comes where the loop has it, from a rank that has not been refused (or only reports that). */
  predicate InTurn(n: nat, x: Loop, k: nat, a: Action)
    requires Sound(n, x) && k < n
  {
    var order := x.rounds[k].order;
    match a
    case Join(r) => r < n && r !in x.refused && x.front.ends[r] == k && Ready(n, x.front, JoinRound(r))
    case Reclaim(_) => true
    case Leave(p) => p < |order| && order[p] < n
    case Wait(p) => p < |order| && order[p] < n && order[p] !in x.refused && x.front.passes[order[p]] > k
    case _ => a.pos < |order| && order[a.pos] !in x.gone && (order[a.pos] in x.refused ==> a.Notify?)
  }

  predicate Possible(n: nat, x: Loop, e: Event)
    requires Sound(n, x)
  {
    match e
    case Do(Step(k, a)) =>
      k < n && WellFormed(n, x.rounds[k]) && Enabled(Rooted(k, false), n, x.rounds[k], a) && InTurn(n, x, k, a)
    case Barrier(m) => (m.Arrive? || m.Pass?) && m.rank !in x.refused && Ready(n, x.front, m)
    case Quit(r) => r in x.refused && r !in x.gone && Reported(n, x, r)
  }

  function Moved(n: nat, x: Loop, k: nat, a: Action): Front
    requires Sound(n, x) && k < n && InTurn(n, x, k, a)
  {
    match a
    case Join(r) => Advance(x.front, JoinRound(r))
    case Leave(p) => Advance(x.front, EndRound(x.rounds[k].order[p]))
    case _ => x.front
  }

  function Happens<V>(t: Task<V>, x: Loop, e: Event): (y: Loop)
    requires Fitted(t) && Sound(t.n, x) && Possible(t.n, x, e)
    requires e.Do? ==> Inv(Rooted(e.step.round, false), t.n, x.rounds[e.step.round])
    ensures Sound(t.n, y)
  {
    match e
    case Do(Step(k, a)) =>
      var s := x.rounds[k];
      Loop(Moved(t.n, x, k, a), x.rounds[k := Next(Rooted(k, false), t.n, s, a)],
           if C.Refused(RoundSpec(t, k), s, a) then x.refused + {s.order[a.pos]} else x.refused, x.gone)
    case Barrier(m) => x.(front := Advance(x.front, m))
    case Quit(r) => x.(gone := x.gone + {r})
  }

  function Start(n: nat): Loop {
    Loop(Front(seq(n, _ => 0), seq(n, _ => 0), seq(n, _ => 0), seq(n, _ => 0)), seq(n, _ => INIT), {}, {})
  }

  // ---------- what every event keeps ----------

  ghost predicate Members(n: nat, f: Front, k: nat, s: State)
    requires Allgatherv.Sized(n, f)
  {
    && |s.procs| == |s.order| && (s.order != [] ==> s.order[0] == k && s.procs[0].handle == 0)
    && (forall i :: 0 <= i < |s.order| ==> s.order[i] < n)
    && (forall r :: 0 <= r < n ==> (r in s.order <==> f.joins[r] > k))
    && (forall p :: 0 <= p < |s.procs| ==>
          (s.procs[p].phase == Left <==> f.ends[s.order[p]] > k)
          && (s.procs[p].phase != Serving ==> f.passes[s.order[p]] > k))
  }

  /** A leaf whose transfer is over was refused, or its segment ends within the sum of the counts. */
  ghost predicate Checked<V>(t: Task<V>, refused: set<nat>, k: nat, s: State, p: nat)
    requires Fitted(t) && k < t.n && p < |s.procs| == |s.order|
  {
    s.order[p] != k && Uncopied(s.procs[p]) == [] ==>
      s.order[p] in refused || (s.order[p] < t.n && Accepts(RoundSpec(t, k), s.order[p], false))
  }

  ghost predicate RoundInv<V>(t: Task<V>, x: Loop, k: nat)
    requires Fitted(t) && Sound(t.n, x) && k < t.n
  {
    var s := x.rounds[k];
    && Inv(Rooted(k, false), t.n, s) && WellFormed(t.n, s) && Typed(RoundSpec(t, k), s) && Members(t.n, x.front, k, s)
    && (forall p :: 0 <= p < |s.procs| ==> C.ListInv(RoundSpec(t, k), s, p) && Checked(t, x.refused, k, s, p))
  }

  /** A refused rank is a leaf of its present round, has nothing left to do there, and goes no further. */
  ghost predicate RefusedInv(n: nat, x: Loop, r: nat)
    requires Sound(n, x)
  {
    r < n && x.front.ends[r] < n && x.front.ends[r] != r &&
    var s := x.rounds[x.front.ends[r]];
    r in s.order && |s.procs| == |s.order| && Idle(s.procs[IndexOf(s.order, r)])
  }

  ghost predicate Idle(p: Proc) { p.phase == Serving && Uncopied(p) == [] }

  ghost predicate LoopInv<V>(t: Task<V>, x: Loop) {
    && Fitted(t) && Sound(t.n, x) && FrontInv(t.n, x.front)
    && (forall k :: 0 <= k < t.n ==> RoundInv(t, x, k))
    && (forall r :: r in x.refused ==> RefusedInv(t.n, x, r))
    && x.gone <= x.refused && forall r :: 0 <= r < t.n ==> x.front.ends[r] <= t.n
  }

  /** A rank of round k that has not left it is in that round. */
  lemma Present(n: nat, f: Front, k: nat, s: State, p: nat)
    requires FrontInv(n, f) && Members(n, f, k, s) && k < n && p < |s.procs| && s.procs[p].phase != Left
    ensures f.ends[s.order[p]] == k && f.joins[s.order[p]] == k + 1
  {
    assert s.order[p] in s.order && RankInOrder(f, n, s.order[p]);
  }

  /** The root's wait returns only when all ranks have joined its round. */
  lemma RootWaitsForAll(n: nat, f: Front, k: nat, s: State, q: nat)
    requires Inv(Rooted(k, false), n, s) && FrontInv(n, f) && Members(n, f, k, s) && k < n && q < n
    requires Completed(s, 0) && s.order[0] == k
    ensures f.joins[q] > k
  {
    assert ProcInv(s, 0);
    ReturnedMeansServed(Rooted(k, false), n, s, 0, 0, 0);
    IndexOfUnique(s.order, k, 0);
    Pigeonhole(s.order, n, q);
  }

  lemma LeavesInTurn(n: nat, f: Front, k: nat, s: State, p: nat)
    requires Inv(Rooted(k, false), n, s) && FrontInv(n, f) && Members(n, f, k, s) && k < n
    requires p < |s.procs| && s.procs[p].phase == Returned
    ensures Ready(n, f, EndRound(s.order[p])) && f.ends[s.order[p]] == k
  {
    Present(n, f, k, s, p);
    assert RankInOrder(f, n, s.order[p]);
    if s.order[p] == k {
      assert p == 0;
      forall q | 0 <= q < n ensures f.joins[q] > k { RootWaitsForAll(n, f, k, s, q); }
    }
  }

  /** A rank that leaves a round is in it. */
  ghost predicate LeavesPresent(n: nat, x: Loop, e: Event)
    requires Sound(n, x) && Possible(n, x, e)
  {
    e.Do? && e.step.action.Leave? ==>
      x.front.ends[x.rounds[e.step.round].order[e.step.action.pos]] == e.step.round
  }

  /** The ranks' progress stays in order, whatever step is taken. */
  lemma FrontKeeps<V>(t: Task<V>, x: Loop, e: Event)
    requires LoopInv(t, x) && Possible(t.n, x, e)
    ensures e.Do? ==> RoundInv(t, x, e.step.round)
    ensures FrontInv(t.n, Happens(t, x, e).front)
    ensures forall r :: 0 <= r < t.n ==> Happens(t, x, e).front.ends[r] <= t.n
    ensures LeavesPresent(t.n, x, e)
  {
    match e
    case Do(Step(k, a)) =>
      assert RoundInv(t, x, k);
      match a {
        case Join(r) => AdvanceInv(t.n, x.front, JoinRound(r));
        case Leave(p) =>
          LeavesInTurn(t.n, x.front, k, x.rounds[k], p);
          AdvanceInv(t.n, x.front, EndRound(x.rounds[k].order[p]));
        case _ =>
      }
    case Barrier(m) => AdvanceInv(t.n, x.front, m);
    case Quit(_) =>
  }

  // ---------- one step of a round ----------

  /** Step a of round k, as far as the front is concerned. */
  lemma JoinMembers(n: nat, f: Front, k: nat, s: State, r: nat)
    requires Inv(Rooted(k, false), n, s) && WellFormed(n, s) && Enabled(Rooted(k, false), n, s, Join(r))
    requires FrontInv(n, f) && Members(n, f, k, s) && k < n && r < n && f.ends[r] == k && Ready(n, f, JoinRound(r))
    ensures Members(n, Allgatherv.Advance(f, JoinRound(r)), k, Next(Rooted(k, false), n, s, Join(r)))
  {
    var t := Next(Rooted(k, false), n, s, Join(r));
    UncopiedJoin(Rooted(k, false), n, s, r);
    assert RankInOrder(f, n, r) && RankInOrder(f, n, k);
    if s.order == [] { assert k !in s.order; }
    forall p | 0 <= p < |s.procs|
      ensures t.procs[p].handle == s.procs[p].handle && (t.procs[p].phase == Left <==> s.procs[p].phase == Left)
      ensures t.procs[p].phase == Serving <==> s.procs[p].phase == Serving
    {
      C.OwnSteps(Rooted(k, false), n, s, Join(r), p);
      UncopiedStep(Rooted(k, false), n, s, Join(r), p);
    }
  }

  /** A step that moves nobody on to another part of the loop. */
  lemma QuietMembers(n: nat, f: Front, k: nat, s: State, a: Action)
    requires Inv(Rooted(k, false), n, s) && WellFormed(n, s) && Enabled(Rooted(k, false), n, s, a) && k < n
    requires Allgatherv.Sized(n, f) && Members(n, f, k, s) && !a.Join? && !a.Leave?
    requires a.Wait? ==> f.passes[s.order[a.pos]] > k
    ensures Members(n, f, k, Next(Rooted(k, false), n, s, a))
  {
    var t := Next(Rooted(k, false), n, s, a);
    OtherSteps(Rooted(k, false), n, s, a);
    forall p | 0 <= p < |s.procs|
      ensures t.procs[p].handle == s.procs[p].handle && (t.procs[p].phase == Left <==> s.procs[p].phase == Left)
      ensures t.procs[p].phase == Serving || s.procs[p].phase != Serving || a == Wait(p)
    {
      UncopiedStep(Rooted(k, false), n, s, a, p);
      PhaseOf(Rooted(k, false), n, s, a, p);
    }
  }

  lemma PhaseOf(kind: Kind, n: nat, s: State, a: Action, p: nat)
    requires Inv(kind, n, s) && WellFormed(n, s) && Enabled(kind, n, s, a) && p < |s.procs| && !a.Join? && a != Leave(p)
    ensures p < |Next(kind, n, s, a).procs|
    ensures Next(kind, n, s, a).procs[p].phase == Left <==> s.procs[p].phase == Left
    ensures Next(kind, n, s, a).procs[p].phase == Serving || s.procs[p].phase != Serving || a == Wait(p)
  {
    assert ProcInv(s, p);
    C.OwnSteps(kind, n, s, a, p);
  }

  lemma LeaveMembers(n: nat, f: Front, k: nat, s: State, p: nat)
    requires Inv(Rooted(k, false), n, s) && WellFormed(n, s) && Enabled(Rooted(k, false), n, s, Leave(p)) && k < n
    requires FrontInv(n, f) && Members(n, f, k, s) && f.ends[s.order[p]] == k
    ensures Members(n, Allgatherv.Advance(f, EndRound(s.order[p])), k, Next(Rooted(k, false), n, s, Leave(p)))
  {
    OtherSteps(Rooted(k, false), n, s, Leave(p));
  }

  /** The ranks' moves that round k does not see. */
  lemma UnseenMembers(n: nat, f: Front, g: Front, k: nat, s: State)
    requires Allgatherv.Sized(n, f) && Allgatherv.Sized(n, g) && Members(n, f, k, s)
    requires forall r :: 0 <= r < n ==>
      (g.joins[r] > k <==> f.joins[r] > k) && (g.ends[r] > k <==> f.ends[r] > k) && g.passes[r] >= f.passes[r]
    ensures Members(n, g, k, s)
  {
  }

  lemma StepMembers<V>(t: Task<V>, x: Loop, k: nat, a: Action)
    requires LoopInv(t, x) && Possible(t.n, x, Do(Step(k, a))) && RoundInv(t, x, k)
    ensures Members(t.n, Happens(t, x, Do(Step(k, a))).front, k, Next(Rooted(k, false), t.n, x.rounds[k], a))
  {
    match a
    case Join(r) => JoinMembers(t.n, x.front, k, x.rounds[k], r);
    case Leave(p) =>
      LeavesInTurn(t.n, x.front, k, x.rounds[k], p);
      LeaveMembers(t.n, x.front, k, x.rounds[k], p);
    case _ => QuietMembers(t.n, x.front, k, x.rounds[k], a);
  }

  /** A leaf that joins a round finds its root there, and has its segment to write. */
  lemma LeafHasTransfer(k: nat, n: nat, s: State, r: nat)
    requires Inv(Rooted(k, false), n, s) && WellFormed(n, s) && Enabled(Rooted(k, false), n, s, Join(r))
    requires r != k && k in s.order
    ensures Uncopied(Next(Rooted(k, false), n, s, Join(r)).procs[|s.procs|]) != []
  {
    UncopiedJoin(Rooted(k, false), n, s, r);
  }

  /** A leaf has transfers only, no relinkings. */
  lemma LeafConsumes(sp: Spec, s: State, a: Action, p: nat)
    requires Inv(KindOf(sp), sp.n, s) && WellFormed(sp.n, s) && Enabled(KindOf(sp), sp.n, s, a) && Typed(sp, s)
    requires Consumes(a, p) && p < |s.procs| == |s.order|
    ensures s.order[p] != sp.root ==> a == Copy(p)
  {
    UncopiedStep(KindOf(sp), sp.n, s, a, p);
    assert TypedItem(sp, s.order, p, Uncopied(s.procs[p])[0]);
  }

  lemma RootCameFirst(n: nat, f: Front, k: nat, s: State, r: nat)
    requires FrontInv(n, f) && Members(n, f, k, s) && k < n && r < n && r != k
    requires f.ends[r] == k && Ready(n, f, JoinRound(r))
    ensures k in s.order
  {
    assert f.passes[r] <= f.arrivals[k] && RankInOrder(f, n, k);
  }

  lemma CheckedStays<V>(t: Task<V>, before: set<nat>, after: set<nat>, k: nat, s: State, a: Action, p: nat)
    requires Fitted(t) && k < t.n && before <= after && Typed(RoundSpec(t, k), s)
    requires Inv(Rooted(k, false), t.n, s) && WellFormed(t.n, s) && Enabled(Rooted(k, false), t.n, s, a)
    requires p < |s.procs| == |s.order| && Checked(t, before, k, s, p)
    requires C.Refused(RoundSpec(t, k), s, a) ==> s.order[a.pos] in after
    ensures |Next(Rooted(k, false), t.n, s, a).procs| == |Next(Rooted(k, false), t.n, s, a).order|
    ensures p < |Next(Rooted(k, false), t.n, s, a).procs| && Checked(t, after, k, Next(Rooted(k, false), t.n, s, a), p)
  {
    C.OrderLength(Rooted(k, false), t.n, s, a);
    UncopiedStep(Rooted(k, false), t.n, s, a, p);
    if Consumes(a, p) { LeafConsumes(RoundSpec(t, k), s, a, p); }
  }

  lemma CheckedNewcomer<V>(t: Task<V>, refused: set<nat>, f: Front, k: nat, s: State, r: nat)
    requires Fitted(t) && k < t.n && r < t.n && FrontInv(t.n, f) && Members(t.n, f, k, s)
    requires Inv(Rooted(k, false), t.n, s) && WellFormed(t.n, s) && Enabled(Rooted(k, false), t.n, s, Join(r))
    requires f.ends[r] == k && Ready(t.n, f, JoinRound(r))
    ensures var u := Next(Rooted(k, false), t.n, s, Join(r));
      |u.procs| == |u.order| == |s.procs| + 1 && Checked(t, refused, k, u, |s.procs|)
  {
    UncopiedJoin(Rooted(k, false), t.n, s, r);
    if r != k {
      RootCameFirst(t.n, f, k, s, r);
      LeafHasTransfer(k, t.n, s, r);
    }
  }

  lemma CheckedStep<V>(t: Task<V>, x: Loop, k: nat, a: Action, p: nat)
    requires LoopInv(t, x) && Possible(t.n, x, Do(Step(k, a))) && RoundInv(t, x, k)
    requires p < |Next(Rooted(k, false), t.n, x.rounds[k], a).procs|
    ensures var y := Happens(t, x, Do(Step(k, a)));
      |y.rounds[k].procs| == |y.rounds[k].order| && Checked(t, y.refused, k, y.rounds[k], p)
  {
    var s := x.rounds[k];
    if p < |s.procs| {
      CheckedStays(t, x.refused, Happens(t, x, Do(Step(k, a))).refused, k, s, a, p);
    } else {
      C.NewcomerUncopied(Rooted(k, false), t.n, s, a);
      if a.Join? {
        CheckedNewcomer(t, x.refused, x.front, k, s, a.rank);
      } else {
        OtherSteps(Rooted(k, false), t.n, s, a);
      }
    }
  }

  lemma StepRound<V>(t: Task<V>, x: Loop, k: nat, a: Action)
    requires LoopInv(t, x) && Possible(t.n, x, Do(Step(k, a))) && RoundInv(t, x, k)
    ensures RoundInv(t, Happens(t, x, Do(Step(k, a))), k)
  {
    var s, sp := x.rounds[k], RoundSpec(t, k);
    var y := Happens(t, x, Do(Step(k, a)));
    NextInv(Rooted(k, false), t.n, s, a);
    InvWellFormed(Rooted(k, false), t.n, y.rounds[k]);
    TypedStep(sp, s, a);
    StepMembers(t, x, k, a);
    C.OrderLength(Rooted(k, false), t.n, s, a);
    forall p | 0 <= p < |y.rounds[k].procs|
      ensures C.ListInv(sp, y.rounds[k], p) && Checked(t, y.refused, k, y.rounds[k], p)
    {
      C.ListStep(sp, s, a, p);
      CheckedStep(t, x, k, a, p);
    }
  }

  /** A round that the event is not about sees no move of a rank through the loop. */
  lemma Unseen<V>(t: Task<V>, x: Loop, e: Event, k: nat, r: nat)
    requires LoopInv(t, x) && Possible(t.n, x, e) && k < t.n && r < t.n && !(e.Do? && e.step.round == k)
    requires e.Do? ==> RoundInv(t, x, e.step.round)
    requires LeavesPresent(t.n, x, e)
    ensures var f, g := x.front, Happens(t, x, e).front;
      (g.joins[r] > k <==> f.joins[r] > k) && (g.ends[r] > k <==> f.ends[r] > k) && g.passes[r] >= f.passes[r]
  {
  }

  lemma OtherRound<V>(t: Task<V>, x: Loop, e: Event, k: nat)
    requires LoopInv(t, x) && Possible(t.n, x, e) && (e.Do? ==> RoundInv(t, x, e.step.round))
    requires k < t.n && RoundInv(t, x, k) && !(e.Do? && e.step.round == k)
    requires LeavesPresent(t.n, x, e)
    ensures RoundInv(t, Happens(t, x, e), k)
  {
    var y := Happens(t, x, e);
    forall r | 0 <= r < t.n
      ensures (y.front.joins[r] > k <==> x.front.joins[r] > k) && (y.front.ends[r] > k <==> x.front.ends[r] > k)
      ensures y.front.passes[r] >= x.front.passes[r]
    {
      Unseen(t, x, e, k, r);
    }
    UnseenMembers(t.n, x.front, y.front, k, x.rounds[k]);
    CheckedGrows(t, x.refused, y.refused, k, x.rounds[k]);
  }

  lemma CheckedGrows<V>(t: Task<V>, before: set<nat>, after: set<nat>, k: nat, s: State)
    requires Fitted(t) && k < t.n && |s.procs| == |s.order| && before <= after
    requires forall p :: 0 <= p < |s.procs| ==> Checked(t, before, k, s, p)
    ensures forall p :: 0 <= p < |s.procs| ==> Checked(t, after, k, s, p)
  {
    forall p | 0 <= p < |s.procs| ensures Checked(t, after, k, s, p) { assert Checked(t, before, k, s, p); }
  }

  // ---------- refused ranks ----------

  /** The rank whose transfer is refused is in its present round, and is not its root. */
  lemma CopyRefused<V>(t: Task<V>, x: Loop, k: nat, p: nat)
    requires LoopInv(t, x) && Possible(t.n, x, Do(Step(k, Copy(p)))) && RoundInv(t, x, k)
    ensures var y := Happens(t, x, Do(Step(k, Copy(p)))); RefusedInv(t.n, y, x.rounds[k].order[p])
  {
    var s, sp := x.rounds[k], RoundSpec(t, k);
    var r := s.order[p];
    var j := CopyServes(sp, s, p);
    assert p > 0 && r != k && ProcInv(s, p) && C.ListInv(sp, s, p);
    Present(t.n, x.front, k, s, p);
    OtherSteps(Rooted(k, false), t.n, s, Copy(p));
    UncopiedStep(Rooted(k, false), t.n, s, Copy(p), p);
    C.OwnSteps(Rooted(k, false), t.n, s, Copy(p), p);
    IndexOfUnique(s.order, r, p);
  }

  /** A refused rank neither joins nor leaves. */
  lemma NotMoved<V>(t: Task<V>, x: Loop, k: nat, a: Action, r: nat)
    requires LoopInv(t, x) && Possible(t.n, x, Do(Step(k, a))) && RoundInv(t, x, k)
    requires r in x.refused && RefusedInv(t.n, x, r)
    ensures Happens(t, x, Do(Step(k, a))).front.ends[r] == x.front.ends[r]
  {
    if a.Leave? && x.rounds[k].order[a.pos] == r {
      LeavesInTurn(t.n, x.front, k, x.rounds[k], a.pos);
      IndexOfUnique(x.rounds[k].order, r, a.pos);
    }
  }

  lemma RefusedOwnRound<V>(t: Task<V>, x: Loop, k: nat, a: Action, r: nat)
    requires LoopInv(t, x) && Possible(t.n, x, Do(Step(k, a))) && RoundInv(t, x, k)
    requires r in x.refused && RefusedInv(t.n, x, r) && k == x.front.ends[r]
    ensures RefusedInv(t.n, Happens(t, x, Do(Step(k, a))), r)
  {
    var s := x.rounds[k];
    var p := IndexOf(s.order, r);
    var u := Next(Rooted(k, false), t.n, s, a);
    NotMoved(t, x, k, a, r);
    C.OrderLength(Rooted(k, false), t.n, s, a);
    Completion.OrderGrows(Rooted(k, false), t.n, s, a);
    UncopiedStep(Rooted(k, false), t.n, s, a, p);
    C.OwnSteps(Rooted(k, false), t.n, s, a, p);
    assert u.order[p] == r && ProcInv(s, p);
    NextInv(Rooted(k, false), t.n, s, a);
    IndexOfUnique(u.order, r, p);
  }

  /** A refused rank stays where it is. */
  lemma RefusedStays<V>(t: Task<V>, x: Loop, e: Event, r: nat)
    requires LoopInv(t, x) && Possible(t.n, x, e) && (e.Do? ==> RoundInv(t, x, e.step.round))
    requires r in x.refused && RefusedInv(t.n, x, r)
    ensures RefusedInv(t.n, Happens(t, x, e), r)
  {
    var k := x.front.ends[r];
    var p := IndexOf(x.rounds[k].order, r);
    if e.Do? && e.step.round == k {
      RefusedOwnRound(t, x, k, e.step.action, r);
    } else if e.Do? {
      NotMoved(t, x, e.step.round, e.step.action, r);
    }
  }

  lemma AllRounds<V>(t: Task<V>, x: Loop, e: Event, k: nat)
    requires LoopInv(t, x) && Possible(t.n, x, e) && (e.Do? ==> RoundInv(t, x, e.step.round)) && k < t.n
    requires LeavesPresent(t.n, x, e)
    ensures RoundInv(t, Happens(t, x, e), k)
  {
    assert RoundInv(t, x, k);
    if e.Do? && e.step.round == k { StepRound(t, x, k, e.step.action); } else { OtherRound(t, x, e, k); }
  }

  lemma AllRefused<V>(t: Task<V>, x: Loop, e: Event, r: nat)
    requires LoopInv(t, x) && Possible(t.n, x, e) && (e.Do? ==> RoundInv(t, x, e.step.round))
    requires r in Happens(t, x, e).refused
    ensures RefusedInv(t.n, Happens(t, x, e), r)
  {
    if r in x.refused { RefusedStays(t, x, e, r); } else { CopyRefused(t, x, e.step.round, e.step.action.pos); }
  }

  lemma EventKeeps<V>(t: Task<V>, x: Loop, e: Event)
    requires LoopInv(t, x) && Possible(t.n, x, e)
    ensures e.Do? ==> RoundInv(t, x, e.step.round)
    ensures LoopInv(t, Happens(t, x, e))
  {
    FrontKeeps(t, x, e);
    var y := Happens(t, x, e);
    forall k | 0 <= k < t.n ensures RoundInv(t, y, k) { AllRounds(t, x, e, k); }
    forall r | r in y.refused ensures RefusedInv(t.n, y, r) { AllRefused(t, x, e, r); }
  }

  lemma StartInv<V>(t: Task<V>)
    requires Fitted(t)
    ensures LoopInv(t, Start(t.n))
  {
    assert AfterMoves(t.n, []).Some?;
    AlwaysFront(t.n, []);
    forall k | 0 <= k < t.n ensures RoundInv(t, Start(t.n), k) {
      assert After(Rooted(k, false), t.n, []) == Some(INIT);
    }
  }

  /** The loop after a run, or None when one of its events was not possible. */
  ghost function LoopAfter<V>(t: Task<V>, events: seq<Event>): (x: Option<Loop>)
    requires Fitted(t)
    ensures x.Some? ==> LoopInv(t, x.value)
  {
    if events == [] then
      StartInv(t);
      Some(Start(t.n))
    else
      var prior := LoopAfter(t, events[..|events| - 1]);
      var e := events[|events| - 1];
      if prior.None? || !Possible(t.n, prior.value, e) then None else
      EventKeeps(t, prior.value, e);
      Some(Happens(t, prior.value, e))
  }

  // ---------- going on ----------

  /** Every rank has been through all rounds. */
  ghost predicate Over<V>(t: Task<V>, x: Loop)
    requires Fitted(t) && Sound(t.n, x)
  {
    forall r :: 0 <= r < t.n ==> x.front.ends[r] == t.n
  }

  lemma {:induction false} Lowest(s: seq<nat>) returns (i: nat)
    requires s != []
    ensures i < |s| && forall j :: 0 <= j < |s| ==> s[i] <= s[j]
  {
    if |s| == 1 { return 0; }
    var m := |s| - 1;
    i := Lowest(s[..m]);
    forall j | 0 <= j < m ensures s[i] <= s[j] { assert s[..m][i] <= s[..m][j]; }
    if s[m] < s[i] { i := m; }
  }

  /** No rank is behind round k, and somebody is in it. */
  ghost predicate Behind(n: nat, f: Front, k: nat) {
    && FrontInv(n, f) && k < n && (forall q :: 0 <= q < n ==> f.ends[q] >= k)
    && exists r :: 0 <= r < n && f.ends[r] == k
  }

  /** What the last ranks can do next on their way to the waits of round k; None when all are there. */
  lemma NextMotion(n: nat, f: Front, k: nat) returns (m: Option<Motion>)
    requires Behind(n, f, k)
    ensures m.Some? ==> Ready(n, f, m.value) && !m.value.EndRound? && f.ends[m.value.rank] == k
    ensures m.None? ==> forall q :: 0 <= q < n ==> f.joins[q] > k && f.passes[q] > k
  {
    if q :| 0 <= q < n && f.arrivals[q] <= k {
      assert RankInOrder(f, n, q);
      return Some(if q == k && f.joins[q] == k then JoinRound(q) else Arrive(q));
    }
    if q :| 0 <= q < n && f.passes[q] <= k {
      assert RankInOrder(f, n, q);
      return Some(Pass(q));
    }
    if q :| 0 <= q < n && f.joins[q] <= k {
      assert RankInOrder(f, n, q);
      return Some(JoinRound(q));
    }
    return None;
  }

  /** A join that the loop has come to is possible in the round's ledger. */
  lemma CanJoin<V>(t: Task<V>, x: Loop, r: nat)
    requires LoopInv(t, x) && r < t.n && r !in x.refused && Ready(t.n, x.front, JoinRound(r))
    ensures Possible(t.n, x, Do(Step(x.front.ends[r], Join(r))))
  {
    var k := x.front.ends[r];
    assert RoundInv(t, x, k);
    var s := x.rounds[k];
    if |s.order| == t.n { Pigeonhole(s.order, t.n, r); }
    JoinEnabled(Rooted(k, false), t.n, s, r);
  }

  lemma AllJoined(n: nat, order: seq<nat>)
    requires NoDup(order) && |order| <= n && forall q :: 0 <= q < n ==> q in order
    ensures |order| == n
  {
    if |order| < n {
      var q := MissingRank(order, n);
      assert false;
    }
  }

  /** With all ranks in round k, its ledger can go on, and the loop lets it. */
  lemma RoundGoesOn<V>(t: Task<V>, x: Loop, k: nat) returns (a: Action)
    requires LoopInv(t, x) && x.refused == {} && k < t.n && RoundInv(t, x, k)
    requires forall q :: 0 <= q < t.n ==> x.front.joins[q] > k && x.front.passes[q] > k
    requires exists r :: 0 <= r < t.n && x.front.ends[r] == k
    ensures Possible(t.n, x, Do(Step(k, a))) && Effective(x.rounds[k], a)
  {
    var s := x.rounds[k];
    var r :| 0 <= r < t.n && x.front.ends[r] == k;
    assert s.procs[IndexOf(s.order, r)].phase != Left;
    AllJoined(t.n, s.order);
    a := SomeStep(Rooted(k, false), t.n, s);
  }

  /** While no rank has been refused, some rank can go on until all are through. */
  lemma GoesOn<V>(t: Task<V>, x: Loop) returns (e: Event)
    requires LoopInv(t, x) && x.refused == {} && !Over(t, x)
    ensures Possible(t.n, x, e) && !e.Quit? && (e.Do? ==> Effective(x.rounds[e.step.round], e.step.action))
  {
    var r := Lowest(x.front.ends);
    var k := x.front.ends[r];
    forall q | 0 <= q < t.n ensures RankInOrder(x.front, t.n, q) {}
    assert Behind(t.n, x.front, k);
    var m := NextMotion(t.n, x.front, k);
    if m.None? {
      assert RoundInv(t, x, k);
      var a := RoundGoesOn(t, x, k);
      return Do(Step(k, a));
    }
    if m.value.JoinRound? {
      CanJoin(t, x, m.value.rank);
      return Do(Step(k, Join(m.value.rank)));
    }
    return Barrier(m.value);
  }

  /** A step of rank r's. */
  ghost predicate TakenBy(n: nat, x: Loop, e: Event, r: nat)
    requires Sound(n, x) && Possible(n, x, e)
  {
    match e
    case Do(Step(k, Join(q))) => q == r
    case Do(Step(k, Reclaim(_))) => false
    case Do(Step(k, a)) => a.pos < |x.rounds[k].order| && x.rounds[k].order[a.pos] == r
    case Barrier(m) => m.rank == r
    case Quit(q) => q == r
  }

  lemma QuittersServe<V>(t: Task<V>, x: Loop, r: nat, k: nat, p: nat)
    requires LoopInv(t, x) && r in x.gone && k < t.n && p < |x.rounds[k].order| == |x.rounds[k].procs|
    requires x.rounds[k].order[p] == r
    ensures x.rounds[k].procs[p].phase == Serving || x.rounds[k].procs[p].phase == Left
  {
    assert RoundInv(t, x, k) && RefusedInv(t.n, x, r) && RankInOrder(x.front, t.n, r);
    var s := x.rounds[k];
    if s.procs[p].phase != Left {
      assert r in s.order && x.front.ends[r] == k;
      IndexOfUnique(s.order, r, p);
    }
  }

  /** A rank whose call has returned its error takes no further step, in any round or at any barrier. */
  lemma {:induction false} QuitIsFinal<V>(t: Task<V>, x: Loop, e: Event, r: nat)
    requires LoopInv(t, x) && Possible(t.n, x, e)
    ensures r in x.gone ==> !TakenBy(t.n, x, e, r)
    ensures e == Quit(r) ==> r in Happens(t, x, e).gone
  {
    if r in x.gone && e.Do? && e.step.action.Leave? {
      assert RoundInv(t, x, e.step.round);
      if x.rounds[e.step.round].order[e.step.action.pos] == r {
        QuittersServe(t, x, r, e.step.round, e.step.action.pos);
      }
    }
  }
}
