/**
  The pool allocator's bookkeeping: a bump pointer, and one last-in first-out free list per size class.
 */
module Pool {
  import opened Basics
  import opened Words

  /** Rounding up to the alignment, in 64-bit arithmetic. */
  function Align(v: nat): nat { Word(v + 15) / 16 * 16 }

  /** The bytes given for a request; a block must be able to hold a link. */
  function Rounded(len: nat): nat { Align(if len < 8 then 8 else len) }

  /** The free list for blocks of v bytes. */
  function ListOf(v: nat): nat { Word(v - 1) / 16 }

  /** A request is covered exactly when rounding it up does not wrap around. */
  lemma RoundedCovers(len: nat)
    requires 0 < len < WORD
    ensures Rounded(len) % 16 == 0
    ensures Rounded(len) >= len <==> len <= WORD - 16
    ensures len <= WORD - 16 ==> Rounded(len) == 16 * (ListOf(Rounded(len)) + 1) <= len + 15
    ensures len > WORD - 16 ==> Rounded(len) == 0
  {
  }

  // ---------- the state ----------

  /** A stretch cut off by the bump pointer. */
  datatype Block = Block(addr: nat, size: nat, live: bool)

  /** `free[i]` holds the numbers of the free blocks of 16 * (i + 1) bytes, the next to be reused first. */
  datatype State = State(blocks: seq<Block>, free: seq<seq<nat>>, begin: nat, space: nat)

  datatype Op = Alloc(len: nat) | Dealloc(block: nat, len: nat)

  function Initial(start: nat, space: nat, lists: nat): State {
    State([], seq(lists, i => []), start, space)
  }

  predicate Reusable(s: State, len: nat) {
    ListOf(Rounded(len)) < |s.free| && s.free[ListOf(Rounded(len))] != []
  }

  /** The request can be served; otherwise the process exits. */
  predicate Serves(s: State, len: nat) {
    Reusable(s, len) || Rounded(len) <= s.space
  }

  /** What callers do: ask for bytes, and give back a block with the length it was asked for. */
  ghost predicate Enabled(s: State, op: Op) {
    && 0 < op.len < WORD
    && match op
       case Alloc(len) => Serves(s, len)
       case Dealloc(k, len) =>
         && k < |s.blocks| && s.blocks[k].live && s.blocks[k].size == Rounded(len)
         && ListOf(Rounded(len)) < |s.free|
  }

  /** The number of the block an allocation hands out. */
  function Given(s: State, len: nat): nat {
    if Reusable(s, len) then s.free[ListOf(Rounded(len))][0] else |s.blocks|
  }

  function Mark(blocks: seq<Block>, k: nat, live: bool): seq<Block> {
    if k < |blocks| then blocks[k := blocks[k].(live := live)] else blocks
  }

  /** Cut a new block off the free space. */
  function Cut(s: State, size: nat): State
    requires size <= s.space
  {
    s.(blocks := s.blocks + [Block(s.begin, size, true)], begin := s.begin + size, space := s.space - size)
  }

  /** Pop the front of free list i. */
  function Reuse(s: State, i: nat): State
    requires i < |s.free| && s.free[i] != []
  {
    s.(blocks := Mark(s.blocks, s.free[i][0], true), free := s.free[i := s.free[i][1..]])
  }

  /** Push block k onto free list i. */
  function Release(s: State, k: nat, i: nat): State
    requires i < |s.free|
  {
    s.(blocks := Mark(s.blocks, k, false), free := s.free[i := [k] + s.free[i]])
  }

  ghost function Next(s: State, op: Op): State
    requires Enabled(s, op)
  {
    var size, i := Rounded(op.len), ListOf(Rounded(op.len));
    if op.Dealloc? then Release(s, op.block, i)
    else if Reusable(s, op.len) then Reuse(s, i)
    else Cut(s, size)
  }

  /** The state after a run from a new pool, if every step of it can be taken. */
  ghost function After(start: nat, space: nat, lists: nat, ops: seq<Op>): Option<State> {
    if ops == [] then Some(Initial(start, space, lists)) else
    var m := |ops| - 1;
    match After(start, space, lists, ops[..m])
    case None => None
    case Some(s) => if Enabled(s, ops[m]) then Some(Next(s, ops[m])) else None
  }

  /**
    `std::align` as the constructor uses it: the aligned start and what is left of the space, or the
    null pointer and the space as it was when no aligned block of 16 bytes fits.
   */
  function StdAlign(lo: nat, hi: nat): (nat, nat)
    requires lo <= hi
  {
    var pad := (16 - lo % 16) % 16;
    if hi - lo < 16 + pad then (0, hi - lo) else (lo + pad, hi - lo - pad)
  }

  // ---------- invariants ----------

  function LiveBytes(blocks: seq<Block>): nat {
    if blocks == [] then 0 else
    LiveBytes(blocks[..|blocks| - 1]) + if blocks[|blocks| - 1].live then blocks[|blocks| - 1].size else 0
  }

  function FreeBytes(free: seq<seq<nat>>): nat {
    if free == [] then 0 else
    FreeBytes(free[..|free| - 1]) + |free[|free| - 1]| * (16 * |free|)
  }

  ghost predicate Placed(b: Block, start: nat, end: nat) {
    start <= b.addr && b.addr + b.size <= end && b.addr % 16 == 0 && b.size % 16 == 0
  }

  /** Blocks lie one after the other between the start and the bump pointer, all aligned. */
  ghost predicate Laid(s: State, start: nat) {
    && (forall k :: 0 <= k < |s.blocks| ==> Placed(s.blocks[k], start, s.begin))
    && (forall j, k :: 0 <= j < k < |s.blocks| ==> s.blocks[j].addr + s.blocks[j].size <= s.blocks[k].addr)
    && start <= s.begin && s.begin % 16 == 0
  }

  ghost predicate Listed(s: State, i: nat, j: nat)
    requires i < |s.free| && j < |s.free[i]|
  {
    var k := s.free[i][j];
    k < |s.blocks| && !s.blocks[k].live && s.blocks[k].size == 16 * (i + 1)
  }

  ghost predicate Parked(s: State, k: nat)
    requires k < |s.blocks|
  {
    var i := s.blocks[k].size / 16 - 1;
    0 <= i < |s.free| && k in s.free[i]
  }

  /** Free list i holds blocks of its own size, none twice; and every block not live is on a list. */
  ghost predicate Sorted(s: State) {
    && 16 * |s.free| < WORD
    && (forall i, j :: 0 <= i < |s.free| && 0 <= j < |s.free[i]| ==> Listed(s, i, j))
    && (forall i :: 0 <= i < |s.free| ==> NoDup(s.free[i]))
    && (forall k :: 0 <= k < |s.blocks| && !s.blocks[k].live ==> Parked(s, k))
  }

  ghost predicate Inv(s: State, start: nat, capacity: nat) {
    && Laid(s, start) && Sorted(s)
    && s.begin + s.space == start + capacity
    && LiveBytes(s.blocks) + FreeBytes(s.free) + s.space == capacity
  }
}
