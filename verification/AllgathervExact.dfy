/**
  Exactly when an allgatherv keeps its promise: no call returns an error, every run can be completed, and
  every rank ends with every segment at its displacement.
 */
module AllgathervExact {
  import opened Basics
  import opened Ledger
  import opened LedgerRuns
  import opened LedgerTheorems
  import opened LedgerProgress
  import Completion
  import opened RootedCollectives
  import C = RootedCalls
  import opened RootUntouched
  import GathervTotals
  import opened Allgatherv
  import opened AllgathervRounds
  import opened AllgathervLoop

  // ---------- how far a run can still go ----------

  /** What is missing to `cap`, over all entries. */
  ghost function Gap(s: seq<nat>, cap: nat): nat {
    if s == [] then 0 else
    Gap(s[..|s| - 1], cap) + if s[|s| - 1] < cap then cap - s[|s| - 1] else 0
  }

  lemma {:induction false} GapShrinks(s: seq<nat>, i: nat, cap: nat)
    requires i < |s| && s[i] < cap
    ensures Gap(s[i := s[i] + 1], cap) == Gap(s, cap) - 1
  {
    var m := |s| - 1;
    if i == m {
      assert s[i := s[i] + 1][..m] == s[..m];
    } else {
      GapShrinks(s[..m], i, cap);
      assert s[i := s[i] + 1][..m] == s[..m][i := s[i] + 1];
    }
  }

  ghost function FrontGap(f: Front, cap: nat): nat {
    Gap(f.joins, cap) + Gap(f.arrivals, cap) + Gap(f.passes, cap) + Gap(f.ends, cap)
  }

  /** The count that a move raises. */
  ghost function Counted(f: Front, m: Motion): seq<nat> {
    match m
    case JoinRound(_) => f.joins
    case Arrive(_) => f.arrivals
    case Pass(_) => f.passes
    case EndRound(_) => f.ends
  }

  lemma MovesBelow(n: nat, f: Front, m: Motion)
    requires FrontInv(n, f) && Ready(n, f, m)
    ensures m.rank < n == |Counted(f, m)| && Counted(f, m)[m.rank] <= n
  {
    assert RankInOrder(f, n, m.rank);
  }

  lemma MotionShrinks(n: nat, f: Front, m: Motion)
    requires Allgatherv.Sized(n, f) && m.rank < n == |Counted(f, m)| && Counted(f, m)[m.rank] <= n
    ensures FrontGap(Allgatherv.Advance(f, m), n + 1) < FrontGap(f, n + 1)
  {
    GapShrinks(Counted(f, m), m.rank, n + 1);
  }

  ghost function Ledgers(n: nat, rounds: seq<State>): nat {
    if rounds == [] then 0 else Ledgers(n, rounds[..|rounds| - 1]) + Steps(n, rounds[|rounds| - 1])
  }

  ghost function Steps(n: nat, s: State): nat {
    if |s.order| <= n && Potential(n, s) > 0 then Potential(n, s) else 0
  }

  lemma {:induction false} LedgersUpdate(n: nat, rounds: seq<State>, k: nat, s: State)
    requires k < |rounds|
    ensures Ledgers(n, rounds[k := s]) == Ledgers(n, rounds) - Steps(n, rounds[k]) + Steps(n, s)
    ensures Steps(n, rounds[k]) <= Ledgers(n, rounds)
  {
    var m := |rounds| - 1;
    if k == m {
      assert rounds[k := s][..m] == rounds[..m];
    } else {
      LedgersUpdate(n, rounds[..m], k, s);
      assert rounds[k := s][..m] == rounds[..m][k := s];
    }
  }

  lemma StepsDrain(kind: Kind, n: nat, s: State, a: Action)
    requires Inv(kind, n, s) && WellFormed(n, s) && Enabled(kind, n, s, a)
    ensures Steps(n, Next(kind, n, s, a)) + (if Effective(s, a) then 1 else 0) <= Steps(n, s)
  {
    StepDrains(kind, n, s, a);
    NextInv(kind, n, s, a);
    PotentialBounded(kind, n, s);
    PotentialBounded(kind, n, Next(kind, n, s, a));
  }

  ghost function Remaining(n: nat, x: Loop): nat { FrontGap(x.front, n + 1) + Ledgers(n, x.rounds) }

  lemma ReadyShrinks(n: nat, f: Front, m: Motion)
    requires FrontInv(n, f) && Ready(n, f, m)
    ensures FrontGap(Allgatherv.Advance(f, m), n + 1) < FrontGap(f, n + 1)
  {
    MovesBelow(n, f, m);
    MotionShrinks(n, f, m);
  }

  ghost predicate Orderly<V>(t: Task<V>, x: Loop) { Fitted(t) && Sound(t.n, x) && FrontInv(t.n, x.front) }

  /** The move through the loop that a step of a round is, if any. */
  lemma MoveOf<V>(t: Task<V>, x: Loop, k: nat, a: Action) returns (m: Option<Motion>)
    requires Orderly(t, x) && k < t.n && RoundInv(t, x, k) && Possible(t.n, x, Do(Step(k, a)))
    ensures m.Some? ==> Ready(t.n, x.front, m.value)
    ensures Happens(t, x, Do(Step(k, a))).front
         == if m.Some? then Allgatherv.Advance(x.front, m.value) else x.front
    ensures FrontInv(t.n, x.front)
  {
    if a.Leave? { LeavesInTurn(t.n, x.front, k, x.rounds[k], a.pos); }
    m := if a.Join? then Some(JoinRound(a.rank))
         else if a.Leave? then Some(EndRound(x.rounds[k].order[a.pos])) else None;
  }

  /** The ranks are no further from the end of the loop. */
  ghost predicate Nearer(n: nat, f: Front, g: Front) { FrontGap(g, n + 1) <= FrontGap(f, n + 1) }

  lemma MovedShrinks(n: nat, f: Front, g: Front, m: Option<Motion>)
    requires FrontInv(n, f) && (m.Some? ==> Ready(n, f, m.value))
    requires g == if m.Some? then Allgatherv.Advance(f, m.value) else f
    ensures Nearer(n, f, g)
  {
    if m.Some? { ReadyShrinks(n, f, m.value); }
  }

  lemma LedgerShrinks(kind: Kind, n: nat, rounds: seq<State>, k: nat, a: Action)
    requires k < |rounds| && Inv(kind, n, rounds[k]) && WellFormed(n, rounds[k]) && Enabled(kind, n, rounds[k], a)
    requires Effective(rounds[k], a)
    ensures Ledgers(n, rounds[k := Next(kind, n, rounds[k], a)]) < Ledgers(n, rounds)
  {
    StepsDrain(kind, n, rounds[k], a);
    LedgersUpdate(n, rounds, k, Next(kind, n, rounds[k], a));
  }

  lemma FrontDrains<V>(t: Task<V>, x: Loop, k: nat, a: Action, g: Front)
    requires Orderly(t, x) && k < t.n && RoundInv(t, x, k) && Possible(t.n, x, Do(Step(k, a)))
    requires g == Happens(t, x, Do(Step(k, a))).front
    ensures Nearer(t.n, x.front, g)
  {
    var m := MoveOf(t, x, k, a);
    MovedShrinks(t.n, x.front, g, m);
  }

  lemma RoundDrains<V>(t: Task<V>, x: Loop, k: nat, a: Action)
    requires Orderly(t, x) && k < t.n && RoundInv(t, x, k) && Possible(t.n, x, Do(Step(k, a)))
    requires Effective(x.rounds[k], a)
    ensures Ledgers(t.n, Happens(t, x, Do(Step(k, a))).rounds) < Ledgers(t.n, x.rounds)
  {
    LedgerShrinks(Rooted(k, false), t.n, x.rounds, k, a);
  }

  lemma DoDrains<V>(t: Task<V>, x: Loop, k: nat, a: Action)
    requires Orderly(t, x) && k < t.n && RoundInv(t, x, k) && Possible(t.n, x, Do(Step(k, a)))
    requires Effective(x.rounds[k], a)
    ensures Remaining(t.n, Happens(t, x, Do(Step(k, a)))) < Remaining(t.n, x)
  {
    FrontDrains(t, x, k, a, Happens(t, x, Do(Step(k, a))).front);
    RoundDrains(t, x, k, a);
  }

  lemma ExtendLoop<V>(t: Task<V>, events: seq<Event>, e: Event)
    requires Fitted(t) && LoopAfter(t, events).Some? && Possible(t.n, LoopAfter(t, events).value, e)
    requires e.Do? ==> RoundInv(t, LoopAfter(t, events).value, e.step.round)
    ensures LoopAfter(t, events + [e]) == Some(Happens(t, LoopAfter(t, events).value, e))
  {
    assert (events + [e])[..|events|] == events;
  }

  lemma EventDrains<V>(t: Task<V>, x: Loop, e: Event)
    requires Orderly(t, x) && Possible(t.n, x, e) && !e.Quit?
    requires e.Do? ==> RoundInv(t, x, e.step.round) && Effective(x.rounds[e.step.round], e.step.action)
    ensures Remaining(t.n, Happens(t, x, e)) < Remaining(t.n, x)
  {
    if e.Do? {
      DoDrains(t, x, e.step.round, e.step.action);
    } else {
      ReadyShrinks(t.n, x.front, e.motion);
    }
  }

  ghost predicate Reaches<V>(t: Task<V>, events: seq<Event>, left: nat) {
    Fitted(t) && LoopAfter(t, events).Some? && Remaining(t.n, LoopAfter(t, events).value) <= left
  }

  lemma Advances<V>(t: Task<V>, events: seq<Event>, left: nat) returns (e: Event)
    requires Reaches(t, events, left)
    requires LoopAfter(t, events).value.refused == {} && !Over(t, LoopAfter(t, events).value)
    ensures left > 0 && Reaches(t, events + [e], left - 1)
  {
    var x := LoopAfter(t, events).value;
    e := GoesOn(t, x);
    EventKeeps(t, x, e);
    ExtendLoop(t, events, e);
    EventDrains(t, x, e);
  }

  /** From any run, all ranks get through, unless somebody is refused on the way. */
  lemma {:induction false} RunsOn<V>(t: Task<V>, events: seq<Event>, left: nat) returns (all: seq<Event>)
    requires Reaches(t, events, left)
    ensures events <= all && LoopAfter(t, all).Some?
    ensures LoopAfter(t, all).value.refused != {} || Over(t, LoopAfter(t, all).value)
    decreases left
  {
    var x := LoopAfter(t, events).value;
    if x.refused != {} || Over(t, x) { return events; }
    var e := Advances(t, events, left);
    all := RunsOn(t, events + [e], left - 1);
  }

  // ---------- who is refused ----------

  lemma NobodyRefused<V>(t: Task<V>, k: nat, s: State, a: Action)
    requires Fitted(t) && WithinTotal(t) && k < t.n && Typed(RoundSpec(t, k), s)
    requires Inv(Rooted(k, false), t.n, s) && WellFormed(t.n, s) && Enabled(Rooted(k, false), t.n, s, a)
    ensures !C.Refused(RoundSpec(t, k), s, a)
  {
    if a.Copy? { var j := CopyServes(RoundSpec(t, k), s, a.pos); }
  }

  /** When every segment ends within the sum of the counts, no transfer of any run is refused. */
  lemma {:induction false} NeverRefused<V>(t: Task<V>, events: seq<Event>)
    requires Fitted(t) && WithinTotal(t) && LoopAfter(t, events).Some?
    ensures LoopAfter(t, events).value.refused == {}
  {
    if events != [] {
      var prior, e := events[..|events| - 1], events[|events| - 1];
      NeverRefused(t, prior);
      var x := LoopAfter(t, prior).value;
      EventKeeps(t, x, e);
      if e.Do? { NobodyRefused(t, e.step.round, x.rounds[e.step.round], e.step.action); }
    }
  }

  /** Whoever has got through unrefused was accepted in every round of another rank. */
  lemma ThroughMeansAccepted<V>(t: Task<V>, x: Loop, q: nat, k: nat)
    requires LoopInv(t, x) && x.refused == {} && Over(t, x) && q < t.n && k < t.n && q != k
    ensures t.displs[q] + t.counts[q] <= SumOf(t.counts)
  {
    assert RoundInv(t, x, k) && RankInOrder(x.front, t.n, q);
    var s := x.rounds[k];
    var p := IndexOf(s.order, q);
    assert ProcInv(s, p) && Checked(t, x.refused, k, s, p);
  }

  /** When some segment does not, some run refuses a rank. */
  lemma SomebodyRefused<V>(t: Task<V>) returns (events: seq<Event>)
    requires Fitted(t) && !WithinTotal(t)
    ensures LoopAfter(t, events).Some? && LoopAfter(t, events).value.refused != {}
  {
    events := RunsOn(t, [], Remaining(t.n, Start(t.n)));
    var q :| 0 <= q < t.n && t.displs[q] + t.counts[q] > SumOf(t.counts);
    var x := LoopAfter(t, events).value;
    if x.refused == {} {
      ThroughMeansAccepted(t, x, q, if q == 0 then 1 else 0);
      assert false;
    }
  }

  /** No call has returned an error, and all ranks can still get through all rounds. */
  ghost predicate EndsWell<V>(t: Task<V>, events: seq<Event>)
    requires Fitted(t)
  {
    LoopAfter(t, events).Some? ==>
      && LoopAfter(t, events).value.refused == {}
      && exists all :: events <= all && LoopAfter(t, all).Some? && Over(t, LoopAfter(t, all).value)
  }

  lemma {:induction false} WithinEndsWell<V>(t: Task<V>, events: seq<Event>)
    requires Fitted(t) && WithinTotal(t)
    ensures EndsWell(t, events)
  {
    if LoopAfter(t, events).Some? {
      NeverRefused(t, events);
      var all := RunsOn(t, events, Remaining(t.n, LoopAfter(t, events).value));
      NeverRefused(t, all);
    }
  }

  /**
    No rank is refused in any run of an allgatherv, and every run can be carried on until all ranks are
    through all rounds, exactly when every segment, empty or not, ends within the sum of the counts.
   */
  lemma {:induction false} AllgathervExactly<V>(t: Task<V>)
    requires Fitted(t)
    ensures (forall events: seq<Event> :: EndsWell(t, events))
      <==> forall q :: 0 <= q < t.n ==> t.displs[q] + t.counts[q] <= SumOf(t.counts)
  {
    if WithinTotal(t) {
      forall events: seq<Event> ensures EndsWell(t, events) { WithinEndsWell(t, events); }
    } else {
      var events := SomebodyRefused(t);
      assert !EndsWell(t, events);
    }
  }

  // ---------- the data ----------

  /** The steps of the rounds in a run of the loop. */
  function RoundSteps(events: seq<Event>): seq<Step> {
    if events == [] then [] else
    var last := events[|events| - 1];
    RoundSteps(events[..|events| - 1]) + if last.Do? then [last.step] else []
  }

  ghost predicate SameLedger<V>(t: Task<V>, run: seq<Step>, x: Loop, k: nat)
    requires Fitted(t) && k < t.n
  {
    |x.rounds| == t.n && After(Rooted(k, false), t.n, Project(run, k)) == Some(x.rounds[k])
  }

  lemma LedgerOfStep<V>(t: Task<V>, run: seq<Step>, x: Loop, step: Step, y: Loop, k: nat)
    requires Fitted(t) && k < t.n && step.round < t.n && SameLedger(t, run, x, k) && |y.rounds| == t.n
    requires WellFormed(t.n, x.rounds[k])
    requires step.round == k ==> Enabled(Rooted(k, false), t.n, x.rounds[k], step.action)
    requires y.rounds[k] ==
      if step.round == k then Next(Rooted(k, false), t.n, x.rounds[k], step.action) else x.rounds[k]
    ensures SameLedger(t, run + [step], y, k)
  {
    assert (run + [step])[..|run|] == run;
    if step.round == k {
      Completion.Extend(Rooted(k, false), t.n, Project(run, k), step.action);
    } else {
      assert Project(run + [step], k) == Project(run, k);
    }
  }

  /** Only the step's own round changes. */
  lemma RoundsAfter<V>(t: Task<V>, x: Loop, e: Event, k: nat)
    requires LoopInv(t, x) && Possible(t.n, x, e) && k < t.n
    ensures e.Do? ==> RoundInv(t, x, e.step.round) && e.step.round < t.n
    ensures WellFormed(t.n, x.rounds[k])
    ensures e.Do? && e.step.round == k ==> Enabled(Rooted(k, false), t.n, x.rounds[k], e.step.action)
    ensures Happens(t, x, e).rounds[k] ==
      if e.Do? && e.step.round == k then Next(Rooted(k, false), t.n, x.rounds[k], e.step.action) else x.rounds[k]
  {
    assert RoundInv(t, x, k);
    if e.Do? { assert RoundInv(t, x, e.step.round); }
  }

  lemma LedgersFollow<V>(t: Task<V>, run: seq<Step>, x: Loop, e: Event, k: nat)
    requires LoopInv(t, x) && Possible(t.n, x, e) && k < t.n && SameLedger(t, run, x, k)
    ensures e.Do? ==> RoundInv(t, x, e.step.round) && e.step.round < t.n
    ensures SameLedger(t, run + if e.Do? then [e.step] else [], Happens(t, x, e), k)
  {
    RoundsAfter(t, x, e, k);
    if e.Do? {
      LedgerOfStep(t, run, x, e.step, Happens(t, x, e), k);
    } else {
      assert run + [] == run;
    }
  }

  /** Round by round, a run of the loop is a run of that round's gatherv. */
  lemma {:induction false} LoopIsMixed<V>(t: Task<V>, events: seq<Event>, k: nat)
    requires Fitted(t) && LoopAfter(t, events).Some? && k < t.n
    ensures SameLedger(t, RoundSteps(events), LoopAfter(t, events).value, k)
  {
    if events == [] {
      assert After(Rooted(k, false), t.n, []) == Some(INIT);
    } else {
      var prior := events[..|events| - 1];
      LoopIsMixed(t, prior, k);
      LedgersFollow(t, RoundSteps(prior), LoopAfter(t, prior).value, events[|events| - 1], k);
    }
  }

  lemma {:induction false} RoundsInRange<V>(t: Task<V>, events: seq<Event>)
    requires Fitted(t) && LoopAfter(t, events).Some?
    ensures forall i :: 0 <= i < |RoundSteps(events)| ==> RoundSteps(events)[i].round < t.n
  {
    if events != [] { RoundsInRange(t, events[..|events| - 1]); }
  }

  lemma LoopRuns<V>(t: Task<V>, events: seq<Event>)
    requires Fitted(t) && LoopAfter(t, events).Some?
    ensures Mixed(t, RoundSteps(events))
  {
    forall k | 0 <= k < t.n ensures Runs(t, RoundSteps(events), k) { LoopIsMixed(t, events, k); }
    RoundsInRange(t, events);
  }

  /** A rank that is past its own round has returned from its wait there. */
  lemma ThroughOwnRound<V>(t: Task<V>, x: Loop, k: nat)
    requires LoopInv(t, x) && k < t.n && x.front.ends[k] > k
    ensures x.rounds[k].order != [] && x.rounds[k].order[0] == k && Completed(x.rounds[k], 0)
  {
    assert RoundInv(t, x, k) && RankInOrder(x.front, t.n, k);
    assert k in x.rounds[k].order;
  }

  /**
    In every run of the loop, refused ranks or not: a rank that has been through its own round holds every
    segment at its displacement, in place or not, when those that are not empty end within the sum.
   */
  lemma {:induction false} ThroughHoldsAll<V>(t: Task<V>, events: seq<Event>, init: seq<seq<V>>, k: nat)
    requires Laid(t, init) && Apart(t) && InPlaceGiven(t, init) && FilledWithin(t) && k < t.n
    requires LoopAfter(t, events).Some? && LoopAfter(t, events).value.front.ends[k] > k
    ensures Mixed(t, RoundSteps(events))
    ensures var buf := Recv(t, RoundSteps(events), init)[k];
      && |buf| == |init[k]|
      && (forall q :: 0 <= q < t.n ==> buf[t.displs[q]..t.displs[q] + t.counts[q]] == t.given[q])
      && (forall i :: 0 <= i < |buf| && Uncovered(t, i) ==> buf[i] == init[k][i])
  {
    ThroughOwnRound(t, LoopAfter(t, events).value, k);
    LoopRuns(t, events);
    LoopIsMixed(t, events, k);
    RootAssembles(t, RoundSteps(events), init, k, 0);
    AssembledMeans(t, init[k], Recv(t, RoundSteps(events), init)[k]);
  }

  /** The root of round k comes first, as the barrier makes it. */
  ghost predicate Leads<V>(t: Task<V>, k: nat, events: seq<C.Event>)
    requires Fitted(t) && k < t.n
  {
    C.AfterCalls(RoundSpec(t, k), events).Some? &&
    var order := C.AfterCalls(RoundSpec(t, k), events).value.ledger.order;
    order != [] && order[0] == k
  }

  /**
    Taken one by one, the rounds deliver every contribution in every run in which the root comes first, and
    for all contents, exactly when every segment that is not empty ends within the sum of the counts.
   */
  lemma {:induction false} RoundsDeliverExactly<V(!new)>(t: Task<V>, a: V, b: V)
    requires Fitted(t) && Apart(t) && a != b
    ensures
      (forall k: nat, events: seq<C.Event>, init: seq<seq<V>>, pos: nat ::
         k < t.n && Leads(t, k, events) ==> Delivers(RoundSpec(t, k), events, init, pos))
      <==> forall q :: 0 <= q < t.n ==> t.counts[q] == 0 || t.displs[q] + t.counts[q] <= SumOf(t.counts)
  {
    if FilledWithin(t) {
      forall k: nat, events: seq<C.Event>, init: seq<seq<V>>, pos: nat | k < t.n && Leads(t, k, events)
        ensures Delivers(RoundSpec(t, k), events, init, pos)
      {
        LedRoundDelivers(t, k, events, init, pos);
      }
    } else {
      var q :| 0 <= q < t.n && !(t.counts[q] == 0 || t.displs[q] + t.counts[q] <= SumOf(t.counts));
      var k: nat := if q == 0 then 1 else 0;
      var events, pos := GathervTotals.RefusedIsLost(RoundSpec(t, k), q, a, b);
      assert Leads(t, k, events) && !Delivers(RoundSpec(t, k), events, TwoValues(RoundSpec(t, k), a, b), pos);
    }
  }

  /** A root that comes first is refused nothing, so its call returns when its wait does. */
  lemma {:induction false} LedRoundDelivers<V>(t: Task<V>, k: nat, events: seq<C.Event>, init: seq<seq<V>>, pos: nat)
    requires Fitted(t) && Apart(t) && FilledWithin(t) && k < t.n && Leads(t, k, events)
    ensures Delivers(RoundSpec(t, k), events, init, pos)
  {
    var sp := RoundSpec(t, k);
    C.AlwaysCalls(sp, events);
    var x := C.AfterCalls(sp, events).value;
    if Legal(sp, init) && Ended(sp, x, pos) {
      IndexOfUnique(x.ledger.order, k, pos);
      IndexOfUnique(x.ledger.order, k, 0);
      assert pos in x.failed ==> C.RefusedInv(sp, x, pos);
      RoundDisjoint(t, k);
      WaitDelivers(sp, events, init, pos);
    }
  }
}
