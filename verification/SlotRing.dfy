/**
  The ring of 16 slots: `get_current_slot`, over every run of every number of ranks, with the
  ranks' tickets kept as 32-bit numbers.
 */
module SlotRing {
  import opened Basics

  const SLOTS: nat := 16
  const WRAP: nat := 0x1_0000_0000

  /**
    `box` lists, for each cookie linked in the slot, the number of the collective it belongs to.
    `number` is the collective that last claimed the slot, counted without wrap-around; the program
    stores only `ticket`, its low 32 bits.
   */
  datatype Slot = Slot(number: nat, ticket: nat, joined: nat, box: seq<nat>)

  /** `issued[r]`: how many collectives rank r has entered; its 32-bit ticket is this modulo 2^32. */
  datatype Ring = Ring(issued: seq<nat>, slots: seq<Slot>)

  function Ticket(issued: nat): nat { issued % WRAP }

  function Turn(ticket: nat): nat { ticket % SLOTS }

  function Initial(n: nat): Ring {
    Ring(seq(n, _ => 0), seq(SLOTS, (i: nat) => Slot(i, 0, 0, [])))
  }

  datatype Outcome = Entered(ring: Ring) | Aborted

  /**
    Rank r enters its next collective. `left` is the slot's box after that collective's join section.
    The one fact used about the section, proved for every protocol (BoxInUse), is in Faithful.
   */
  function Enter(g: Ring, r: nat, left: seq<nat>): Outcome
    requires r < |g.issued| && |g.slots| == SLOTS
  {
    var ticket := Ticket(g.issued[r]);
    var turn := Turn(ticket);
    var slot := g.slots[turn];
    if slot.box != [] && slot.ticket != ticket then Aborted
    else
      var claimed := if slot.box == [] then Slot(g.issued[r], ticket, 0, []) else slot;
      Entered(Ring(g.issued[r := g.issued[r] + 1],
                   g.slots[turn := claimed.(joined := claimed.joined + 1, box := left)]))
  }

  /** The slot a rank is about to enter, and how many have joined once it has. */
  function Current(g: Ring, r: nat): Slot
    requires r < |g.issued| && |g.slots| == SLOTS
  {
    g.slots[Turn(Ticket(g.issued[r]))]
  }

  /** A join section links only its own collective's cookies, and empties the box only as the last. */
  ghost predicate Faithful(g: Ring, r: nat, left: seq<nat>)
    requires r < |g.issued| && |g.slots| == SLOTS
  {
    var slot := Current(g, r);
    var joined := if slot.box == [] then 1 else slot.joined + 1;
    && (left == [] <==> joined == |g.issued|)
    && (forall i :: 0 <= i < |left| ==> left[i] == g.issued[r] || left[i] in slot.box)
  }

  datatype Step = Step(rank: nat, left: seq<nat>)

  /** The ring after a run of n ranks, or None when a step aborts or is not faithful. */
  ghost function After(n: nat, steps: seq<Step>): (g: Option<Ring>)
    requires n > 0
    ensures g.Some? ==> Safe(n, g.value)
  {
    if steps == [] then
      InitialSafe(n);
      Some(Initial(n))
    else
      var prior := After(n, steps[..|steps| - 1]);
      var step := steps[|steps| - 1];
      if prior.None? || step.rank >= n || !Faithful(prior.value, step.rank, step.left) then None
      else
        EnterSafe(n, prior.value, step.rank, step.left);
        var out := Enter(prior.value, step.rank, step.left);
        if out.Entered? then Some(out.ring) else None
  }

  // ---------- the invariant ----------

  /** How many ranks have entered collective number t. */
  ghost function Passed(issued: seq<nat>, t: nat): nat {
    if issued == [] then 0 else Passed(issued[..|issued| - 1], t) + (if issued[|issued| - 1] > t then 1 else 0)
  }

  ghost predicate Underway(n: nat, g: Ring, t: nat) {
    0 < Passed(g.issued, t) < n
  }

  /** A slot in use belongs to one collective, and its count is the number of ranks that entered it. */
  ghost predicate SlotSafe(n: nat, g: Ring, i: nat)
    requires i < |g.slots|
  {
    var slot := g.slots[i];
    slot.box != [] ==>
      && slot.number % SLOTS == i && slot.ticket == Ticket(slot.number)
      && slot.joined == Passed(g.issued, slot.number) && 0 < slot.joined < n
      && (forall j :: 0 <= j < |slot.box| ==> slot.box[j] == slot.number)
  }

  ghost predicate Safe(n: nat, g: Ring) {
    && |g.issued| == n && |g.slots| == SLOTS
    && (forall i :: 0 <= i < SLOTS ==> SlotSafe(n, g, i))
    && (forall t: nat :: Underway(n, g, t) ==> g.slots[t % SLOTS].box != [] && g.slots[t % SLOTS].number == t)
  }

  lemma {:induction false} PassedBounds(issued: seq<nat>, t: nat)
    ensures Passed(issued, t) <= |issued|
    ensures (exists r :: 0 <= r < |issued| && issued[r] <= t) ==> Passed(issued, t) < |issued|
    ensures (exists r :: 0 <= r < |issued| && issued[r] > t) ==> Passed(issued, t) > 0
    ensures (forall r :: 0 <= r < |issued| ==> issued[r] > t) ==> Passed(issued, t) == |issued|
    ensures (forall r :: 0 <= r < |issued| ==> issued[r] <= t) ==> Passed(issued, t) == 0
  {
    if issued != [] {
      var rest := issued[..|issued| - 1];
      PassedBounds(rest, t);
      forall r | 0 <= r < |rest| ensures rest[r] == issued[r] {}
    }
  }

  lemma {:induction false} PassedAre(issued: seq<nat>, t: nat)
    ensures Passed(issued, t) == |set r: nat | r < |issued| && issued[r] > t|
  {
    var all := set r: nat | r < |issued| && issued[r] > t;
    if issued == [] {
      assert all == {};
    } else {
      var m := |issued| - 1;
      var rest := set r: nat | r < m && issued[..m][r] > t;
      PassedAre(issued[..m], t);
      assert rest == set r: nat | r < |issued[..m]| && issued[..m][r] > t;
      assert all == rest + (if issued[m] > t then {m} else {});
    }
  }

  lemma {:induction false} PassedUpdate(issued: seq<nat>, r: nat, t: nat)
    requires r < |issued|
    ensures Passed(issued[r := issued[r] + 1], t) == Passed(issued, t) + (if issued[r] == t then 1 else 0)
  {
    var m := |issued| - 1;
    var next := issued[r := issued[r] + 1];
    if r == m {
      assert next[..m] == issued[..m];
    } else {
      PassedUpdate(issued[..m], r, t);
      assert next[..m] == issued[..m][r := issued[r] + 1];
    }
  }

  lemma InitialSafe(n: nat)
    requires n > 0
    ensures Safe(n, Initial(n))
  {
    var g := Initial(n);
    forall t: nat ensures !Underway(n, g, t) { PassedBounds(g.issued, t); }
  }

  /** A ticket is the low 32 bits of the collective's number, and both name the same one of 16 slots. */
  lemma TurnSurvivesWrap(t: nat)
    ensures Turn(Ticket(t)) == t % SLOTS
    ensures Ticket(t) == t % 0x1_0000_0000 && t % 0x1_0000_0000 % 16 == Turn(Ticket(t)) == t % 16
  {
    assert WRAP == SLOTS * 0x1000_0000;
    var q := t / WRAP;
    assert t == q * WRAP + Ticket(t);
    assert t == (q * 0x1000_0000) * SLOTS + Ticket(t);
    RemainderAdd(q * 0x1000_0000, Ticket(t));
  }

  lemma RemainderAdd(k: nat, x: nat)
    ensures (k * SLOTS + x) % SLOTS == x % SLOTS
  {
  }

  /** No rank gets more than 16 collectives ahead of another. */
  lemma AtMostSixteenApart(n: nat, g: Ring, a: nat, b: nat)
    requires Safe(n, g) && a < n && b < n
    ensures g.issued[a] <= g.issued[b] + 16
  {
    if g.issued[a] > g.issued[b] + SLOTS {
      var t := g.issued[b];
      PassedBounds(g.issued, t);
      PassedBounds(g.issued, t + SLOTS);
      assert Underway(n, g, t) && Underway(n, g, t + SLOTS);
      RemainderAdd(1, t);
      assert false;
    }
  }

  lemma {:induction false} PassedWitness(issued: seq<nat>, t: nat) returns (a: nat, b: nat)
    requires 0 < Passed(issued, t) < |issued|
    ensures a < |issued| && issued[a] > t
    ensures b < |issued| && issued[b] <= t
  {
    PassedBounds(issued, t);
    if forall r :: 0 <= r < |issued| ==> issued[r] <= t { assert false; }
    if forall r :: 0 <= r < |issued| ==> issued[r] > t { assert false; }
    a :| a < |issued| && issued[a] > t;
    b :| b < |issued| && issued[b] <= t;
  }

  lemma SameTicketNearby(a: nat, b: nat)
    requires Ticket(a) == Ticket(b) && a <= b + SLOTS && b <= a + SLOTS
    ensures a == b
  {
    var p, q := a / WRAP, b / WRAP;
    assert a == p * WRAP + Ticket(a) && b == q * WRAP + Ticket(b);
    assert a - b == (p - q) * WRAP;
  }

  /** A slot in use holds a collective within 16 of the one any rank is about to enter. */
  lemma NumberNearby(n: nat, g: Ring, i: nat, r: nat)
    requires Safe(n, g) && i < SLOTS && r < n && g.slots[i].box != []
    ensures g.slots[i].number <= g.issued[r] + SLOTS && g.issued[r] <= g.slots[i].number + SLOTS
  {
    assert SlotSafe(n, g, i);
    var a, b := PassedWitness(g.issued, g.slots[i].number);
    AtMostSixteenApart(n, g, a, r);
    AtMostSixteenApart(n, g, r, b);
  }

  /** The slot rank r finds for its collective t is free of other collectives, or the step aborts. */
  lemma EntersOwn(n: nat, g: Ring, r: nat)
    requires Safe(n, g) && r < n
    ensures var slot := Current(g, r); var t := g.issued[r];
      && Turn(Ticket(t)) == t % SLOTS
      && (slot.box == [] ==> Passed(g.issued, t) == 0)
      && (slot.box != [] ==> (slot.ticket == Ticket(t) <==> slot.number == t))
  {
    var t := g.issued[r];
    var slot := Current(g, r);
    TurnSurvivesWrap(t);
    assert SlotSafe(n, g, t % SLOTS);
    if slot.box == [] {
      PassedBounds(g.issued, t);
      assert !Underway(n, g, t);
    } else if slot.ticket == Ticket(t) {
      NumberNearby(n, g, t % SLOTS, r);
      SameTicketNearby(slot.number, t);
    }
  }

  lemma EnterSlots(n: nat, g: Ring, r: nat, left: seq<nat>, i: nat)
    requires Safe(n, g) && r < n && Faithful(g, r, left) && Enter(g, r, left).Entered? && i < SLOTS
    ensures SlotSafe(n, Enter(g, r, left).ring, i)
  {
    var t := g.issued[r];
    var after := Enter(g, r, left).ring;
    EntersOwn(n, g, r);
    assert SlotSafe(n, g, i);
    PassedUpdate(g.issued, r, after.slots[i].number);
    PassedBounds(after.issued, t);
  }

  lemma EnterSafe(n: nat, g: Ring, r: nat, left: seq<nat>)
    requires Safe(n, g) && r < n && Faithful(g, r, left)
    ensures Enter(g, r, left).Entered? ==> Safe(n, Enter(g, r, left).ring)
  {
    if Enter(g, r, left).Entered? {
      var t := g.issued[r];
      var after := Enter(g, r, left).ring;
      EntersOwn(n, g, r);
      forall i | 0 <= i < SLOTS ensures SlotSafe(n, after, i) { EnterSlots(n, g, r, left, i); }
      forall u: nat | Underway(n, after, u)
        ensures after.slots[u % SLOTS].box != [] && after.slots[u % SLOTS].number == u
      {
        PassedUpdate(g.issued, r, u);
        if u != t {
          assert Underway(n, g, u);
        } else {
          assert SlotSafe(n, g, t % SLOTS);
        }
      }
    }
  }

  /**
    In every run: a slot whose box is in use holds cookies of one collective only, its `joined_` is
    the number of ranks that have entered that collective, and the stored 32-bit ticket is that
    collective's; any collective some but not all ranks have entered has its slot to itself; and no
    two ranks are more than 16 collectives apart.
   */
  lemma RingSafety(n: nat, steps: seq<Step>, i: nat, t: nat, a: nat, b: nat)
    requires n > 0 && After(n, steps).Some? && i < SLOTS && a < n && b < n
    ensures var g := After(n, steps).value;
      && SlotSafe(n, g, i)
      && (g.slots[i].box != [] ==>
            && 0 < g.slots[i].joined == |set r: nat | r < n && g.issued[r] > g.slots[i].number| < n
            && g.slots[i].ticket == g.slots[i].number % 0x1_0000_0000)
      && (Underway(n, g, t) ==> g.slots[t % 16].box != [] && g.slots[t % 16].number == t)
      && g.issued[a] <= g.issued[b] + 16
  {
    AtMostSixteenApart(n, After(n, steps).value, a, b);
    PassedAre(After(n, steps).value.issued, After(n, steps).value.slots[i].number);
  }

  lemma AbortMeansBehind(n: nat, g: Ring, r: nat, left: seq<nat>) returns (b: nat)
    requires Safe(n, g) && r < n && Enter(g, r, left).Aborted?
    ensures b < n && g.issued[b] + SLOTS <= g.issued[r]
  {
    var t := g.issued[r];
    var slot := Current(g, r);
    EntersOwn(n, g, r);
    assert SlotSafe(n, g, t % SLOTS);
    var a: nat;
    a, b := PassedWitness(g.issued, slot.number);
    AtMostSixteenApart(n, g, a, r);
    NumberNearby(n, g, t % SLOTS, r);
    CongruentNeighbours(slot.number, t);
  }

  lemma CongruentNeighbours(u: nat, t: nat)
    requires u % SLOTS == t % SLOTS && u != t && u < t + SLOTS && t <= u + SLOTS
    ensures u + SLOTS == t
  {
  }

  lemma BehindMeansAbort(n: nat, g: Ring, r: nat, left: seq<nat>, b: nat)
    requires Safe(n, g) && r < n && b < n && g.issued[b] + SLOTS <= g.issued[r]
    ensures Enter(g, r, left).Aborted?
  {
    var u := g.issued[r] - SLOTS;
    PassedBounds(g.issued, u);
    assert Underway(n, g, u);
    RemainderAdd(1, u);
    EntersOwn(n, g, r);
  }

  /** "Too many outstanding requests" is reported exactly when some rank is still 16 collectives behind. */
  lemma AbortsExactly(n: nat, steps: seq<Step>, r: nat, left: seq<nat>)
    requires n > 0 && After(n, steps).Some? && r < n
    ensures var g := After(n, steps).value;
      Enter(g, r, left).Aborted? <==> exists b :: 0 <= b < n && g.issued[b] + 16 <= g.issued[r]
  {
    var g := After(n, steps).value;
    if Enter(g, r, left).Aborted? {
      var b := AbortMeansBehind(n, g, r, left);
    }
    if b :| 0 <= b < n && g.issued[b] + SLOTS <= g.issued[r] {
      BehindMeansAbort(n, g, r, left, b);
    }
  }
}
