/**
  The ring and the collectives in it: every slot holds the ledger of the collective that claimed it,
  and a rank that enters joins whatever ledger it finds there. Collective number t is the t-th one of
  every rank; `kinds(t)` is its kind.
 */
module SlotRuns {
  import opened Basics
  import L = Ledger
  import opened LedgerRuns
  import T = LedgerTheorems
  import P = LedgerProgress
  import R = SlotRing

  /** `number`: the collective that last claimed the slot. */
  datatype Claim = Claim(number: nat, ticket: nat, joined: nat)

  /** Ledgers stay after their slot has been recycled: ranks may still be serving, waiting or leaving. */
  datatype World = World(issued: seq<nat>, slots: seq<Claim>, ledgers: map<nat, L.State>)

  datatype Outcome = Entered(world: World) | Aborted | Wedged

  datatype Step = Enter(rank: nat) | Act(number: nat, action: L.Action)

  function Initial(n: nat): World {
    World(seq(n, _ => 0), seq(R.SLOTS, (i: nat) => Claim(i, 0, 0)), map[])
  }

  function LedgerAt(w: World, t: nat): L.State { if t in w.ledgers then w.ledgers[t] else L.INIT }

  predicate Sized(n: nat, w: World) { |w.issued| == n && |w.slots| == R.SLOTS }

  /** The slot's box is the box of the ledger in it. */
  function Box(w: World, i: nat): seq<nat>
    requires i < |w.slots|
  {
    LedgerAt(w, w.slots[i].number).box
  }

  /**
    `get_current_slot` and the join section behind it. A slot with an empty box starts a new ledger;
    `Wedged` stands for a ledger that the rank cannot join.
   */
  function EnterSlot(n: nat, kinds: nat -> L.Kind, w: World, r: nat): Outcome
    requires Sized(n, w) && r < n
  {
    var ticket := R.Ticket(w.issued[r]);
    var turn := R.Turn(ticket);
    var slot := w.slots[turn];
    var vacant := Box(w, turn) == [];
    if !vacant && slot.ticket != ticket then Aborted else
    var number := if vacant then w.issued[r] else slot.number;
    var ledger := if vacant then L.INIT else LedgerAt(w, number);
    if !L.WellFormed(n, ledger) || !L.Enabled(kinds(number), n, ledger, L.Join(r)) then Wedged else
    Entered(World(w.issued[r := w.issued[r] + 1],
                  w.slots[turn := Claim(number, ticket, (if vacant then 0 else slot.joined) + 1)],
                  w.ledgers[number := L.Next(kinds(number), n, ledger, L.Join(r))]))
  }

  predicate CanAct(n: nat, kinds: nat -> L.Kind, w: World, t: nat, a: L.Action) {
    t in w.ledgers && !a.Join? && L.WellFormed(n, w.ledgers[t]) && L.Enabled(kinds(t), n, w.ledgers[t], a)
  }

  function Acted(n: nat, kinds: nat -> L.Kind, w: World, t: nat, a: L.Action): World
    requires CanAct(n, kinds, w, t, a)
  {
    w.(ledgers := w.ledgers[t := L.Next(kinds(t), n, w.ledgers[t], a)])
  }

  /** The world after a run of n ranks, or None when a step was not possible. */
  function After(n: nat, kinds: nat -> L.Kind, steps: seq<Step>): (w: Option<World>)
    ensures w.Some? ==> Sized(n, w.value)
  {
    if steps == [] then Some(Initial(n)) else
    var prior := After(n, kinds, steps[..|steps| - 1]);
    if prior.None? then None else
    match steps[|steps| - 1]
    case Enter(r) =>
      if r >= n then None else
      (match EnterSlot(n, kinds, prior.value, r) case Entered(w) => Some(w) case _ => None)
    case Act(t, a) => if CanAct(n, kinds, prior.value, t, a) then Some(Acted(n, kinds, prior.value, t, a)) else None
  }

  // ---------- the ring of a world ----------

  function Tags(count: nat, number: nat): seq<nat> { seq(count, _ => number) }

  function SlotOf(w: World, i: nat): R.Slot
    requires i < |w.slots|
  {
    var c := w.slots[i];
    R.Slot(c.number, c.ticket, c.joined, Tags(|Box(w, i)|, c.number))
  }

  function RingOf(w: World): (g: R.Ring)
    ensures g.issued == w.issued && |g.slots| == |w.slots|
    ensures forall i :: 0 <= i < |w.slots| ==> g.slots[i] == SlotOf(w, i)
  {
    R.Ring(w.issued, seq(|w.slots|, i requires 0 <= i < |w.slots| => SlotOf(w, i)))
  }

  // ---------- the invariant ----------

  ghost predicate Matched(n: nat, kinds: nat -> L.Kind) { forall t: nat :: L.Sizes(kinds(t), n) }

  /** The ledger of collective t lists exactly the ranks that have entered it. */
  ghost predicate LedgerOk(n: nat, kinds: nat -> L.Kind, w: World, t: nat)
    requires Sized(n, w) && t in w.ledgers
  {
    && Inv(kinds(t), n, w.ledgers[t])
    && w.ledgers[t].order != []
    && forall r :: 0 <= r < n ==> (r in w.ledgers[t].order <==> w.issued[r] > t)
  }

  ghost predicate SlotOk(w: World, i: nat)
    requires i < |w.slots|
  {
    w.slots[i].number % R.SLOTS == i && w.slots[i].joined == |LedgerAt(w, w.slots[i].number).order|
  }

  ghost predicate WorldInv(n: nat, kinds: nat -> L.Kind, w: World) {
    && Sized(n, w) && n > 0 && R.Safe(n, RingOf(w))
    && (forall t: nat :: t in w.ledgers ==> LedgerOk(n, kinds, w, t))
    && (forall i :: 0 <= i < R.SLOTS ==> SlotOk(w, i))
    && (forall r, t: nat :: 0 <= r < n && t < w.issued[r] ==> t in w.ledgers)
  }

  lemma InitInv(kind: L.Kind, n: nat)
    requires L.Sizes(kind, n)
    ensures Inv(kind, n, L.INIT) && L.WellFormed(n, L.INIT)
  {
    assert T.After(kind, n, []) == Some(L.INIT);
  }

  lemma WorldStarts(n: nat, kinds: nat -> L.Kind)
    requires n > 0
    ensures WorldInv(n, kinds, Initial(n))
  {
    R.InitialSafe(n);
    forall i | 0 <= i < R.SLOTS ensures RingOf(Initial(n)).slots[i] == R.Initial(n).slots[i] {
      assert SlotOf(Initial(n), i) == R.Slot(i, 0, 0, Tags(0, i)) && Tags(0, i) == [];
    }
    assert RingOf(Initial(n)).slots == R.Initial(n).slots;
  }

  // ---------- entering ----------

  /** What a rank about to enter its collective t finds. */
  lemma Finds(n: nat, kinds: nat -> L.Kind, w: World, r: nat)
    requires Matched(n, kinds) && WorldInv(n, kinds, w) && r < n && !EnterSlot(n, kinds, w, r).Aborted?
    ensures var t := w.issued[r]; var turn := R.Turn(R.Ticket(t));
      && turn == t % R.SLOTS
      && (if Box(w, turn) == [] then t !in w.ledgers
          else t in w.ledgers && w.slots[turn].number == t && w.slots[turn].ticket == R.Ticket(t))
      && Inv(kinds(t), n, LedgerAt(w, t)) && L.WellFormed(n, LedgerAt(w, t))
      && r !in LedgerAt(w, t).order && |LedgerAt(w, t).order| < n
      && (Box(w, turn) == [] ==> LedgerAt(w, t) == L.INIT)
  {
    var t := w.issued[r];
    var turn := R.Turn(R.Ticket(t));
    R.EntersOwn(n, RingOf(w), r);
    assert RingOf(w).slots[turn] == SlotOf(w, turn);
    if Box(w, turn) == [] {
      NoneEntered(n, kinds, w, t);
      InitInv(kinds(t), n);
    } else {
      assert t == w.slots[turn].number && t in w.ledgers;
      assert LedgerOk(n, kinds, w, t);
      InvWellFormed(kinds(t), n, w.ledgers[t]);
    }
  }

  lemma NoneEntered(n: nat, kinds: nat -> L.Kind, w: World, t: nat)
    requires WorldInv(n, kinds, w) && R.Passed(w.issued, t) == 0
    ensures t !in w.ledgers
  {
    if t in w.ledgers {
      assert LedgerOk(n, kinds, w, t);
      var r := w.ledgers[t].order[0];
      assert r in w.ledgers[t].order && r < n;
      R.PassedBounds(w.issued, t);
    }
  }

  /** The same as a predicate: the slot is vacant and t has no ledger, or the slot holds t's. */
  predicate Own(n: nat, w: World, r: nat) {
    && Sized(n, w) && r < n && R.Turn(R.Ticket(w.issued[r])) == w.issued[r] % R.SLOTS
    && var t := w.issued[r]; var slot := w.slots[t % R.SLOTS];
       if Box(w, t % R.SLOTS) == [] then LedgerAt(w, t) == L.INIT
       else slot.number == t && slot.ticket == R.Ticket(t) && slot.joined == |LedgerAt(w, t).order|
  }

  lemma FindsOwn(n: nat, kinds: nat -> L.Kind, w: World, r: nat)
    requires Matched(n, kinds) && WorldInv(n, kinds, w) && r < n && !EnterSlot(n, kinds, w, r).Aborted?
    ensures Own(n, w, r)
  {
    Finds(n, kinds, w, r);
    assert SlotOk(w, w.issued[r] % R.SLOTS);
  }

  lemma EnterOwn(n: nat, kinds: nat -> L.Kind, w: World, r: nat)
    requires Own(n, w, r) && L.WellFormed(n, LedgerAt(w, w.issued[r]))
    requires L.Enabled(kinds(w.issued[r]), n, LedgerAt(w, w.issued[r]), L.Join(r))
    ensures var t := w.issued[r]; var s := LedgerAt(w, t);
      EnterSlot(n, kinds, w, r) == Entered(World(
        w.issued[r := t + 1], w.slots[t % R.SLOTS := Claim(t, R.Ticket(t), |s.order| + 1)],
        w.ledgers[t := L.Next(kinds(t), n, s, L.Join(r))]))
  {
  }

  /** A rank that enters can always join, and it joins the ledger of its own next collective. */
  lemma JoinsOwn(n: nat, kinds: nat -> L.Kind, w: World, r: nat)
    requires Matched(n, kinds) && WorldInv(n, kinds, w) && r < n && !EnterSlot(n, kinds, w, r).Aborted?
    ensures var t := w.issued[r]; var s := LedgerAt(w, t);
      && Inv(kinds(t), n, s) && L.WellFormed(n, s) && L.Enabled(kinds(t), n, s, L.Join(r))
      && EnterSlot(n, kinds, w, r) == Entered(World(
           w.issued[r := t + 1], w.slots[t % R.SLOTS := Claim(t, R.Ticket(t), |s.order| + 1)],
           w.ledgers[t := L.Next(kinds(t), n, s, L.Join(r))]))
  {
    Finds(n, kinds, w, r);
    FindsOwn(n, kinds, w, r);
    T.JoinEnabled(kinds(w.issued[r]), n, LedgerAt(w, w.issued[r]), r);
    EnterOwn(n, kinds, w, r);
  }

  /** A join section leaves only cookies of its own collective in the box, and none as the last rank's. */
  lemma SectionFaithful(kind: L.Kind, n: nat, s: L.State, r: nat, g: R.Ring)
    requires Inv(kind, n, s) && L.WellFormed(n, s) && L.Enabled(kind, n, s, L.Join(r))
    requires |g.issued| == n && r < n && |g.slots| == R.SLOTS
    requires (R.Current(g, r).box == [] <==> s.order == []) && (s.order != [] ==> R.Current(g, r).joined == |s.order|)
    ensures L.Next(kind, n, s, L.Join(r)).order == s.order + [r]
    ensures R.Faithful(g, r, Tags(|L.Next(kind, n, s, L.Join(r)).box|, g.issued[r]))
  {
    NextInv(kind, n, s, L.Join(r));
    P.UncopiedJoin(kind, n, s, r);
  }

  lemma EnterInv(n: nat, kinds: nat -> L.Kind, w: World, r: nat)
    requires Matched(n, kinds) && WorldInv(n, kinds, w) && r < n && !EnterSlot(n, kinds, w, r).Aborted?
    ensures EnterSlot(n, kinds, w, r).Entered? && WorldInv(n, kinds, EnterSlot(n, kinds, w, r).world)
  {
    JoinsOwn(n, kinds, w, r);
    Finds(n, kinds, w, r);
    EnterRing(n, kinds, w, r);
    EnterLedgers(n, kinds, w, r);
    EnterCounts(n, kinds, w, r);
  }

  /** The box of every slot after rank r has entered: only its own slot's has changed. */
  lemma EnterSlots(n: nat, kinds: nat -> L.Kind, w: World, r: nat, i: nat)
    requires Matched(n, kinds) && WorldInv(n, kinds, w) && r < n && !EnterSlot(n, kinds, w, r).Aborted? && i < R.SLOTS
    ensures EnterSlot(n, kinds, w, r).Entered?
    ensures var v := EnterSlot(n, kinds, w, r).world; |v.slots| == |w.slots|
    ensures var v, t := EnterSlot(n, kinds, w, r).world, w.issued[r];
      if i == t % R.SLOTS then
        && v.slots[i] == Claim(t, R.Ticket(t), |LedgerAt(w, t).order| + 1)
        && LedgerAt(v, t).order == LedgerAt(w, t).order + [r]
      else v.slots[i] == w.slots[i] && LedgerAt(v, v.slots[i].number) == LedgerAt(w, w.slots[i].number)
  {
    JoinsOwn(n, kinds, w, r);
    var t := w.issued[r];
    P.UncopiedJoin(kinds(t), n, LedgerAt(w, t), r);
    assert SlotOk(w, i);
  }

  /** What the join section of rank r leaves in the box, and that the ring may rely on it. */
  lemma LeavesFaithful(n: nat, kinds: nat -> L.Kind, w: World, r: nat) returns (left: seq<nat>)
    requires Matched(n, kinds) && WorldInv(n, kinds, w) && r < n && !EnterSlot(n, kinds, w, r).Aborted?
    ensures EnterSlot(n, kinds, w, r).Entered? && R.Faithful(RingOf(w), r, left)
    ensures left == Tags(|LedgerAt(EnterSlot(n, kinds, w, r).world, w.issued[r]).box|, w.issued[r])
  {
    var t := w.issued[r];
    JoinsOwn(n, kinds, w, r);
    Finds(n, kinds, w, r);
    assert SlotOk(w, t % R.SLOTS) && RingOf(w).slots[t % R.SLOTS] == SlotOf(w, t % R.SLOTS);
    SectionFaithful(kinds(t), n, LedgerAt(w, t), r, RingOf(w));
    left := Tags(|L.Next(kinds(t), n, LedgerAt(w, t), L.Join(r)).box|, t);
  }

  /** What the ring makes of the slot that rank r enters. */
  lemma RingTurn(n: nat, w: World, r: nat, left: seq<nat>)
    requires Own(n, w, r)
    ensures var t := w.issued[r]; var g := RingOf(w);
      R.Enter(g, r, left) == R.Entered(R.Ring(
        g.issued[r := t + 1], g.slots[t % R.SLOTS := R.Slot(t, R.Ticket(t), |LedgerAt(w, t).order| + 1, left)]))
  {
    assert RingOf(w).slots[w.issued[r] % R.SLOTS] == SlotOf(w, w.issued[r] % R.SLOTS);
  }

  /** On the ring, entering is the ring's own step with that box. */
  lemma EnterIsRingStep(n: nat, kinds: nat -> L.Kind, w: World, r: nat, left: seq<nat>)
    requires Matched(n, kinds) && WorldInv(n, kinds, w) && r < n && EnterSlot(n, kinds, w, r).Entered?
    requires left == Tags(|LedgerAt(EnterSlot(n, kinds, w, r).world, w.issued[r]).box|, w.issued[r])
    ensures R.Enter(RingOf(w), r, left) == R.Entered(RingOf(EnterSlot(n, kinds, w, r).world))
  {
    FindsOwn(n, kinds, w, r);
    RingTurn(n, w, r, left);
    JoinsOwn(n, kinds, w, r);
    var v := EnterSlot(n, kinds, w, r).world;
    var slots := R.Enter(RingOf(w), r, left).ring.slots;
    forall i | 0 <= i < R.SLOTS ensures SlotOf(v, i) == slots[i] {
      EnterSlots(n, kinds, w, r, i);
      assert RingOf(w).slots[i] == SlotOf(w, i);
    }
    assert RingOf(v).slots == slots;
  }

  lemma EnterRing(n: nat, kinds: nat -> L.Kind, w: World, r: nat)
    requires Matched(n, kinds) && WorldInv(n, kinds, w) && r < n && !EnterSlot(n, kinds, w, r).Aborted?
    ensures EnterSlot(n, kinds, w, r).Entered? && R.Safe(n, RingOf(EnterSlot(n, kinds, w, r).world))
  {
    var left := LeavesFaithful(n, kinds, w, r);
    EnterIsRingStep(n, kinds, w, r, left);
    R.EnterSafe(n, RingOf(w), r, left);
  }

  lemma EnterLedgers(n: nat, kinds: nat -> L.Kind, w: World, r: nat)
    requires Matched(n, kinds) && WorldInv(n, kinds, w) && r < n && !EnterSlot(n, kinds, w, r).Aborted?
    ensures EnterSlot(n, kinds, w, r).Entered?
    ensures var v := EnterSlot(n, kinds, w, r).world; forall t: nat :: t in v.ledgers ==> LedgerOk(n, kinds, v, t)
  {
    JoinsOwn(n, kinds, w, r);
    var v := EnterSlot(n, kinds, w, r).world;
    forall t: nat | t in v.ledgers ensures LedgerOk(n, kinds, v, t) {
      if t == w.issued[r] {
        JoinedLedgerOk(n, kinds, w, r);
      } else {
        assert LedgerOk(n, kinds, w, t);
      }
    }
  }

  lemma JoinedLedgerOk(n: nat, kinds: nat -> L.Kind, w: World, r: nat)
    requires Matched(n, kinds) && WorldInv(n, kinds, w) && r < n && !EnterSlot(n, kinds, w, r).Aborted?
    ensures EnterSlot(n, kinds, w, r).Entered?
    ensures var v := EnterSlot(n, kinds, w, r).world; w.issued[r] in v.ledgers && LedgerOk(n, kinds, v, w.issued[r])
  {
    JoinsOwn(n, kinds, w, r);
    Finds(n, kinds, w, r);
    var t := w.issued[r];
    NextInv(kinds(t), n, LedgerAt(w, t), L.Join(r));
    P.UncopiedJoin(kinds(t), n, LedgerAt(w, t), r);
    if t in w.ledgers { assert LedgerOk(n, kinds, w, t); }
    forall q | 0 <= q < n ensures q in LedgerAt(w, t).order <==> w.issued[q] > t {
      if w.issued[q] > t { assert t in w.ledgers; }
    }
  }

  lemma EnterCounts(n: nat, kinds: nat -> L.Kind, w: World, r: nat)
    requires Matched(n, kinds) && WorldInv(n, kinds, w) && r < n && !EnterSlot(n, kinds, w, r).Aborted?
    ensures EnterSlot(n, kinds, w, r).Entered?
    ensures var v := EnterSlot(n, kinds, w, r).world;
      |v.slots| == R.SLOTS && forall i :: 0 <= i < R.SLOTS ==> SlotOk(v, i)
    ensures var v := EnterSlot(n, kinds, w, r).world;
      |v.issued| == n && forall q, t: nat :: 0 <= q < n && t < v.issued[q] ==> t in v.ledgers
  {
    JoinsOwn(n, kinds, w, r);
    var v := EnterSlot(n, kinds, w, r).world;
    forall i | 0 <= i < R.SLOTS ensures SlotOk(v, i) {
      EnterSlots(n, kinds, w, r, i);
      assert SlotOk(w, i);
    }
  }

  // ---------- steps outside the slots' locks ----------

  lemma ActInv(n: nat, kinds: nat -> L.Kind, w: World, t: nat, a: L.Action)
    requires WorldInv(n, kinds, w) && CanAct(n, kinds, w, t, a)
    ensures WorldInv(n, kinds, Acted(n, kinds, w, t, a))
  {
    var v := Acted(n, kinds, w, t, a);
    assert LedgerOk(n, kinds, w, t);
    NextInv(kinds(t), n, w.ledgers[t], a);
    P.OtherSteps(kinds(t), n, w.ledgers[t], a);
    SameBox(kinds(t), n, w.ledgers[t], a);
    forall u: nat | u in v.ledgers ensures LedgerOk(n, kinds, v, u) { assert LedgerOk(n, kinds, w, u); }
    forall i | 0 <= i < R.SLOTS ensures SlotOk(v, i) && SlotOf(v, i) == SlotOf(w, i) { assert SlotOk(w, i); }
    assert RingOf(v).slots == RingOf(w).slots;
  }

  lemma SameBox(kind: L.Kind, n: nat, s: L.State, a: L.Action)
    requires L.WellFormed(n, s) && L.Enabled(kind, n, s, a) && !a.Join?
    ensures L.Next(kind, n, s, a).box == s.box
  {
  }

  // ---------- runs ----------

  lemma {:induction false} AlwaysInv(n: nat, kinds: nat -> L.Kind, steps: seq<Step>)
    requires n > 0 && Matched(n, kinds) && After(n, kinds, steps).Some?
    ensures WorldInv(n, kinds, After(n, kinds, steps).value)
  {
    if steps == [] {
      WorldStarts(n, kinds);
    } else {
      var prior := steps[..|steps| - 1];
      AlwaysInv(n, kinds, prior);
      match steps[|steps| - 1]
      case Enter(r) => EnterInv(n, kinds, After(n, kinds, prior).value, r);
      case Act(t, a) => ActInv(n, kinds, After(n, kinds, prior).value, t, a);
    }
  }

  /**
    In every run of matched collectives a slot's box is in use exactly while some but not all ranks
    have joined the collective in it; `joined_` counts the ranks whose tickets have passed that
    collective's, and its ledger lists just these ranks; no two ranks are more than 16 apart.
   */
  lemma {:induction false} SlotsAreSafe(n: nat, kinds: nat -> L.Kind, steps: seq<Step>, i: nat, r: nat, q: nat)
    requires n > 0 && Matched(n, kinds) && After(n, kinds, steps).Some? && i < R.SLOTS && r < n && q < n
    ensures var w := After(n, kinds, steps).value; var slot := w.slots[i];
      && (Box(w, i) != [] <==> 0 < slot.joined < n)
      && slot.joined == |LedgerAt(w, slot.number).order|
      && (r in LedgerAt(w, slot.number).order <==> slot.number in w.ledgers && w.issued[r] > slot.number)
      && (Box(w, i) != [] ==> slot.ticket == R.Ticket(slot.number) && slot.joined == R.Passed(w.issued, slot.number))
      && w.issued[r] <= w.issued[q] + 16
  {
    AlwaysInv(n, kinds, steps);
    var w := After(n, kinds, steps).value;
    var t := w.slots[i].number;
    assert SlotOk(w, i) && R.SlotSafe(n, RingOf(w), i) && RingOf(w).slots[i] == SlotOf(w, i);
    if t in w.ledgers { assert LedgerOk(n, kinds, w, t); }
    R.AtMostSixteenApart(n, RingOf(w), r, q);
  }

  /**
    Entering never wedges: the rank joins the ledger of its own next collective, which no rank that has
    not reached that collective is in; it aborts exactly when some rank is 16 collectives behind.
   */
  lemma {:induction false} EntersOwnCollective(n: nat, kinds: nat -> L.Kind, steps: seq<Step>, r: nat)
    requires n > 0 && Matched(n, kinds) && After(n, kinds, steps).Some? && r < n
    ensures var w := After(n, kinds, steps).value; var out := EnterSlot(n, kinds, w, r); var t := w.issued[r];
      && !out.Wedged?
      && (out.Aborted? <==> exists b :: 0 <= b < n && w.issued[b] + 16 <= t)
      && (out.Entered? ==> t in out.world.ledgers && out.world.ledgers[t].order == LedgerAt(w, t).order + [r]
                           && forall u: nat :: u in w.ledgers && u != t ==>
                                u in out.world.ledgers && out.world.ledgers[u] == w.ledgers[u])
  {
    AlwaysInv(n, kinds, steps);
    var w := After(n, kinds, steps).value;
    AbortsAsRing(n, kinds, w, r);
    if !EnterSlot(n, kinds, w, r).Aborted? {
      JoinsOwn(n, kinds, w, r);
      P.UncopiedJoin(kinds(w.issued[r]), n, LedgerAt(w, w.issued[r]), r);
    }
  }

  /**
    What a gatherv's root has stored in the slot (`displs_`) is no longer needed once its wait has returned:
    no rank has a transfer to its cookie left. A root that waits before its next visit to the slot, 16
    collectives later, overwrites nothing that a leaf still reads.
   */
  lemma {:induction false} DisplacementsRead(n: nat, kinds: nat -> L.Kind, steps: seq<Step>,
          t: nat, k: nat, p: nat, i: nat)
    requires n > 0 && Matched(n, kinds) && After(n, kinds, steps).Some? && t in After(n, kinds, steps).value.ledgers
    requires var s := After(n, kinds, steps).value.ledgers[t];
      P.Completed(s, k) && s.procs[k].handle == k && p < |s.procs| && i < |P.Uncopied(s.procs[p])|
    ensures var it := P.Uncopied(After(n, kinds, steps).value.ledgers[t].procs[p])[i]; it.cookie == k ==> it.Move?
  {
    AlwaysInv(n, kinds, steps);
    assert LedgerOk(n, kinds, After(n, kinds, steps).value, t);
    P.ReturnedMeansServed(kinds(t), n, After(n, kinds, steps).value.ledgers[t], k, p, i);
  }

  lemma AbortsAsRing(n: nat, kinds: nat -> L.Kind, w: World, r: nat)
    requires WorldInv(n, kinds, w) && r < n
    ensures EnterSlot(n, kinds, w, r).Aborted? <==> exists b :: 0 <= b < n && w.issued[b] + R.SLOTS <= w.issued[r]
  {
    var turn := R.Turn(R.Ticket(w.issued[r]));
    assert RingOf(w).slots[turn] == SlotOf(w, turn);
    assert EnterSlot(n, kinds, w, r).Aborted? <==> R.Enter(RingOf(w), r, []).Aborted?;
    if EnterSlot(n, kinds, w, r).Aborted? {
      var b := R.AbortMeansBehind(n, RingOf(w), r, []);
    }
    if b :| 0 <= b < n && w.issued[b] + R.SLOTS <= w.issued[r] {
      R.BehindMeansAbort(n, RingOf(w), r, [], b);
    }
  }
}
