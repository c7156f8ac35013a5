/** Which transfers of a collective still have to move their bytes, and when a wait may return. */
module LedgerProgress {
  import opened Basics
  import opened Ledger
  import opened LedgerPlans
  import opened LedgerRuns

  /** The rest of a rank's script, without a head transfer whose bytes are already in place. */
  function Uncopied(p: Proc): seq<Item> {
    if p.copied && p.script != [] then p.script[1..] else p.script
  }

  predicate Consumes(a: Action, k: nat) {
    (a.Copy? || a.Relink?) && a.pos == k
  }

  /** Only a rank's own copies and relinkings shorten what it has to do. */
  lemma UncopiedStep(kind: Kind, n: nat, s: State, a: Action, k: nat)
    requires Inv(kind, n, s) && WellFormed(n, s) && Enabled(kind, n, s, a) && k < |s.procs|
    ensures var t := Next(kind, n, s, a);
      && |s.procs| <= |t.procs| && s.order == t.order[..|s.order|]
      && Uncopied(t.procs[k]) ==
           (if Consumes(a, k) && Uncopied(s.procs[k]) != [] then Uncopied(s.procs[k])[1..] else Uncopied(s.procs[k]))
      && (Consumes(a, k) ==> Uncopied(s.procs[k]) == s.procs[k].script != [])
      && t.procs[k].handle == s.procs[k].handle
  {
    assert ProcInv(s, k);
    match a
    case Join(r) =>
      var p := PlanFor(kind, n, s.order, s.box, r);
      TouchedFrame(s, p, k);
    case Notify(j) =>
      assert ProcInv(s, j);
      var mid := SetProc(s, j, s.procs[j].(script := s.procs[j].script[1..], copied := false));
      NotifyDoneFrame(mid, s.procs[j].script[0].cookie, k);
    case _ =>
  }

  /** A newcomer starts with the whole script its join section planned. */
  lemma UncopiedJoin(kind: Kind, n: nat, s: State, r: nat)
    requires WellFormed(n, s) && Enabled(kind, n, s, Join(r))
    ensures var t := Next(kind, n, s, Join(r));
      && |t.procs| == |s.procs| + 1 && t.order == s.order + [r]
      && Uncopied(t.procs[|s.procs|]) == PlanFor(kind, n, s.order, s.box, r).script
  {
  }

  lemma OtherSteps(kind: Kind, n: nat, s: State, a: Action)
    requires WellFormed(n, s) && Enabled(kind, n, s, a) && !a.Join?
    ensures var t := Next(kind, n, s, a); t.order == s.order && |t.procs| == |s.procs|
  {
  }

  /** Position k's wait on its request has returned. */
  predicate Completed(s: State, k: nat) {
    k < |s.procs| && (s.procs[k].phase == Returned || s.procs[k].phase == Left)
  }

  /** When the owner's wait has returned, nobody has a transfer left to make on its cookie. */
  lemma ReturnedMeansServed(kind: Kind, n: nat, s: State, c: nat, k: nat, i: nat)
    requires Inv(kind, n, s) && Completed(s, c)
    ensures Uncopied(s.procs[c]) == []
    ensures s.procs[c].handle == c ==> Future(kind, n, s.order, c) == 0
    ensures s.procs[c].handle == c && k < |s.procs| && i < |Uncopied(s.procs[k])| && Uncopied(s.procs[k])[i].cookie == c
            ==> Uncopied(s.procs[k])[i].Move?
  {
    assert ProcInv(s, c) && CookieInv(kind, n, s, c);
    if s.procs[c].handle == c && k < |s.procs| && i < |Uncopied(s.procs[k])| && Uncopied(s.procs[k])[i].cookie == c {
      var p := s.procs[k];
      var at := if p.copied && p.script != [] then i + 1 else i;
      assert p.script[at] == Uncopied(p)[i];
      TallyPositive(p.script, at);
      OwedUpdate(s.procs, k, p, false, c);
    }
  }
}
