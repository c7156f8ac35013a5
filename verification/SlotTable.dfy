/** The shared slots and the processes' tickets as the program updates them: `get_current_slot`. */
module SlotTable {
  import opened Basics
  import opened SlotRing
  import L = Ledger
  import LedgerRuns
  import SlotRuns

  lemma NextTicket(issued: nat)
    ensures Ticket(issued + 1) == (Ticket(issued) + 1) % WRAP
  {
    var q := issued / WRAP;
    assert issued == q * WRAP + Ticket(issued);
    if Ticket(issued) + 1 == WRAP { assert issued + 1 == (q + 1) * WRAP; }
  }

  ghost function SlotsOf(numbers: seq<nat>, ticket: seq<nat>, joined: seq<nat>, boxes: seq<seq<nat>>): seq<Slot>
    requires |ticket| == |joined| == |boxes| == |numbers|
  {
    seq(|numbers|, i requires 0 <= i < |numbers| => Slot(numbers[i], ticket[i], joined[i], boxes[i]))
  }

  class Shared {
    const size: nat
    var tickets: seq<nat>      // by rank: the process's own counter, 32 bits
    var ticket: seq<nat>       // by slot
    var joined: seq<nat>
    var boxes: seq<seq<nat>>   // for each linked cookie, the number of its collective
    ghost var issued: seq<nat>
    ghost var numbers: seq<nat>

    ghost predicate Sized()
      reads this
    {
      && |tickets| == |issued| == size
      && |ticket| == |joined| == |boxes| == |numbers| == SLOTS
      && (forall r :: 0 <= r < size ==> tickets[r] == Ticket(issued[r]))
    }

    ghost function Abs(): Ring
      requires Sized()
      reads this
    {
      Ring(issued, SlotsOf(numbers, ticket, joined, boxes))
    }

    ghost predicate Valid()
      reads this
    {
      Sized() && Safe(size, Abs())
    }

    constructor (size: nat)
      requires size > 0
      ensures Valid() && this.size == size && Abs() == Initial(size)
      ensures |tickets| == size && forall r :: 0 <= r < size ==> tickets[r] == 0
      ensures |boxes| == 16 && forall i :: 0 <= i < 16 ==> boxes[i] == []
    {
      this.size := size;
      tickets, issued := seq(size, _ => 0), seq(size, _ => 0);
      ticket, joined, boxes := seq(SLOTS, _ => 0), seq(SLOTS, _ => 0), seq(SLOTS, _ => []);
      numbers := seq(SLOTS, (i: nat) => i);
      new;
      assert Abs() == Initial(size);
      InitialSafe(size);
    }

    /** Rank r's next slot, claimed when its box is empty; the process exits when another collective has it. */
    method GetCurrentSlot(r: nat) returns (exits: bool, turn: nat)
      requires Sized() && r < size
      modifies this
      ensures Sized() && turn == old(tickets)[r] % 16 && boxes == old(boxes)
      ensures exits <==> boxes[turn] != [] && old(ticket)[turn] != old(tickets)[r]
      ensures exits ==> Abs() == old(Abs())
      ensures !exits ==> issued == old(issued)[r := old(issued)[r] + 1]
      ensures !exits ==> tickets == old(tickets)[r := (old(tickets)[r] + 1) % 0x1_0000_0000]
      ensures !exits ==> Abs().slots == old(Abs()).slots[turn :=
        if boxes[turn] == [] then Slot(old(issued)[r], old(tickets)[r], 1, [])
        else old(Abs()).slots[turn].(joined := old(joined)[turn] + 1)]
    {
      turn := tickets[r] % SLOTS;
      if boxes[turn] == [] {
        ticket := ticket[turn := tickets[r]];
        joined := joined[turn := 0];
        numbers := numbers[turn := issued[r]];
      } else if ticket[turn] != tickets[r] {
        return true, turn;
      }
      NextTicket(issued[r]);
      tickets := tickets[r := (tickets[r] + 1) % WRAP];
      issued := issued[r := issued[r] + 1];
      joined := joined[turn := joined[turn] + 1];
      exits := false;
    }

    /**
      A rank's whole stay in its slot: `s` is the ledger of the collective the rank joins there, and the
      box is left as its join section leaves it.
     */
    method EnterCollective(r: nat, ghost kind: L.Kind, ghost s: L.State, left: seq<nat>) returns (exits: bool)
      requires Valid() && r < size
      requires LedgerRuns.Inv(kind, size, s) && L.WellFormed(size, s) && L.Enabled(kind, size, s, L.Join(r))
      requires Current(Abs(), r).box == [] <==> s.order == []
      requires s.order != [] ==> Current(Abs(), r).joined == |s.order|
      requires left == SlotRuns.Tags(|L.Next(kind, size, s, L.Join(r)).box|, issued[r])
      modifies this
      ensures Valid()
      ensures (if exits then Aborted else Entered(Abs())) == Enter(old(Abs()), r, left)
      ensures exits ==> Abs() == old(Abs())
    {
      SlotRuns.SectionFaithful(kind, size, s, r, Abs());
      EnterSafe(size, Abs(), r, left);
      ghost var before := Abs();
      var turn: nat;
      exits, turn := GetCurrentSlot(r);
      if !exits {
        ghost var claimed := Abs().slots;
        boxes := boxes[turn := left];
        assert Abs().slots == claimed[turn := claimed[turn].(box := left)];
        assert before.slots[turn].box == old(boxes)[turn] && before.slots[turn].joined == old(joined)[turn];
        assert Abs().slots == Enter(before, r, left).ring.slots;
      }
    }
  }
}
