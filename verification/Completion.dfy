/** Every run without error returns can be carried on until all ranks have left: what starts also ends. */
module Completion {
  import opened Basics
  import opened Ledger
  import opened LedgerRuns
  import opened LedgerTheorems
  import opened LedgerProgress

  lemma Extend(kind: Kind, n: nat, acts: seq<Action>, a: Action)
    requires Sizes(kind, n) && After(kind, n, acts).Some? && Enabled(kind, n, After(kind, n, acts).value, a)
    ensures After(kind, n, acts + [a]) == Some(Next(kind, n, After(kind, n, acts).value, a))
  {
    assert (acts + [a])[..|acts|] == acts;
  }

  /** Arrivals are never forgotten or reordered. */
  lemma OrderGrows(kind: Kind, n: nat, s: State, a: Action)
    requires WellFormed(n, s) && Enabled(kind, n, s, a)
    ensures s.order <= Next(kind, n, s, a).order
  {
    if a.Join? { UncopiedJoin(kind, n, s, a.rank); } else { OtherSteps(kind, n, s, a); }
  }

  /** Effective steps that can still be made. */
  ghost function Left(kind: Kind, n: nat, acts: seq<Action>): (left: nat)
    requires Sizes(kind, n) && After(kind, n, acts).Some?
  {
    PotentialBounded(kind, n, After(kind, n, acts).value);
    Potential(n, After(kind, n, acts).value)
  }

  ghost predicate Done(kind: Kind, n: nat, acts: seq<Action>)
    requires Sizes(kind, n)
  {
    After(kind, n, acts).Some? && Finished(n, After(kind, n, acts).value)
  }

  ghost predicate Continues(kind: Kind, n: nat, acts: seq<Action>, more: seq<Action>)
    requires Sizes(kind, n) && After(kind, n, acts).Some?
  {
    After(kind, n, more).Some? && After(kind, n, acts).value.order <= After(kind, n, more).value.order
  }

  lemma Advance(kind: Kind, n: nat, acts: seq<Action>) returns (a: Action)
    requires Sizes(kind, n) && After(kind, n, acts).Some? && !Done(kind, n, acts)
    ensures Continues(kind, n, acts, acts + [a]) && Left(kind, n, acts + [a]) < Left(kind, n, acts)
  {
    a := NoDeadlock(kind, n, acts);
    var s := After(kind, n, acts).value;
    StepDrains(kind, n, s, a);
    Extend(kind, n, acts, a);
    OrderGrows(kind, n, s, a);
  }

  lemma {:induction false} CompletesWithin(kind: Kind, n: nat, acts: seq<Action>, left: nat) returns (all: seq<Action>)
    requires Sizes(kind, n) && After(kind, n, acts).Some? && Left(kind, n, acts) <= left
    ensures Continues(kind, n, acts, all) && Done(kind, n, all)
    ensures acts <= all
    decreases left
  {
    if Done(kind, n, acts) { return acts; }
    var a := Advance(kind, n, acts);
    all := CompletesWithin(kind, n, acts + [a], left - 1);
  }

  /** From every reachable state some continuation lets every rank return from its wait and leave. */
  lemma Completes(kind: Kind, n: nat, acts: seq<Action>) returns (all: seq<Action>)
    requires Sizes(kind, n) && After(kind, n, acts).Some?
    ensures Continues(kind, n, acts, all) && Done(kind, n, all) && acts <= all
  {
    all := CompletesWithin(kind, n, acts, Left(kind, n, acts));
  }
}
