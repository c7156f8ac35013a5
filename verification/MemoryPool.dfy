/**
  The pool itself: its fields updated in place, and the free lists threaded through the memory of the
  free blocks.
 */
module MemoryPools {
  import opened Basics
  import opened Words
  import opened Pool
  import opened PoolTheorems

  // ---------- the lists in memory ----------

  /** Memory is counted in 8-byte words; a word lies in a block. */
  predicate InBlock(b: Block, w: nat) { b.addr <= 8 * w < b.addr + b.size }

  /** Following the links from address p visits exactly the blocks of the list. */
  ghost predicate Chain(mem: seq<nat>, p: nat, list: seq<nat>, blocks: seq<Block>)
    decreases |list|
  {
    list != [] ==>
      && list[0] < |blocks| && p == blocks[list[0]].addr && p / 8 < |mem|
      && Chain(mem, mem[p / 8], list[1..], blocks)
  }

  /** Both arrays describe the free lists. */
  ghost predicate Linked(mem: seq<nat>, first: seq<nat>, count: seq<nat>, s: State) {
    && |first| == |count| == |s.free|
    && forall i :: 0 <= i < |first| ==> count[i] == |s.free[i]| && Chain(mem, first[i], s.free[i], s.blocks)
  }

  /** A chain depends on the words at the addresses of its blocks only. */
  lemma {:induction false} ChainElsewhere(mem: seq<nat>, w: nat, v: nat, p: nat, list: seq<nat>, blocks: seq<Block>)
    requires Chain(mem, p, list, blocks) && w < |mem|
    requires forall j :: 0 <= j < |list| && list[j] < |blocks| ==> blocks[list[j]].addr / 8 != w
    ensures Chain(mem[w := v], p, list, blocks)
    decreases |list|
  {
    if list != [] {
      assert list[0] < |blocks|;
      assert forall j :: 0 <= j < |list[1..]| ==> list[1..][j] == list[j + 1];
      ChainElsewhere(mem, w, v, mem[p / 8], list[1..], blocks);
    }
  }

  lemma {:induction false} ChainMarked(mem: seq<nat>, p: nat, list: seq<nat>, blocks: seq<Block>, k: nat, live: bool)
    requires Chain(mem, p, list, blocks)
    ensures Chain(mem, p, list, Mark(blocks, k, live))
    decreases |list|
  {
    if list != [] { ChainMarked(mem, mem[p / 8], list[1..], blocks, k, live); }
  }

  lemma {:induction false} ChainGrown(mem: seq<nat>, p: nat, list: seq<nat>, blocks: seq<Block>, b: Block)
    requires Chain(mem, p, list, blocks)
    ensures Chain(mem, p, list, blocks + [b])
    decreases |list|
  {
    if list != [] { ChainGrown(mem, mem[p / 8], list[1..], blocks, b); }
  }

  /** The first n addresses reached by following the links from p. */
  ghost function Visited(mem: seq<nat>, p: nat, n: nat): seq<nat>
    decreases n
  {
    if n == 0 then [] else [p] + Visited(mem, if p / 8 < |mem| then mem[p / 8] else 0, n - 1)
  }

  lemma {:induction false} ChainVisits(mem: seq<nat>, p: nat, list: seq<nat>, blocks: seq<Block>, j: nat)
    requires Chain(mem, p, list, blocks) && j < |list|
    ensures |Visited(mem, p, |list|)| == |list| && list[j] < |blocks|
    ensures Visited(mem, p, |list|)[j] == blocks[list[j]].addr
    decreases |list|
  {
    if |list| > 1 { ChainVisits(mem, mem[p / 8], list[1..], blocks, if j == 0 then 0 else j - 1); }
    else { assert list[1..] == []; }
  }

  /** Free list i visits count[i] different blocks: it has no cycle. */
  lemma {:induction false} Acyclic(mem: seq<nat>, first: seq<nat>, count: seq<nat>, s: State, start: nat,
          i: nat, a: nat, b: nat)
    requires Linked(mem, first, count, s) && Sorted(s) && Laid(s, start)
    requires i < |first| && a < b < count[i]
    ensures var v := Visited(mem, first[i], count[i]); |v| == count[i] && v[a] != v[b]
  {
    ChainVisits(mem, first[i], s.free[i], s.blocks, a);
    ChainVisits(mem, first[i], s.free[i], s.blocks, b);
    assert Listed(s, i, a) && Listed(s, i, b);
    assert s.free[i][a] != s.free[i][b];
  }

  /** No word lies in two blocks, so a link written into one block changes no other. */
  lemma WordInOneBlock(s: State, start: nat, k: nat, h: nat, w: nat)
    requires Laid(s, start) && k < |s.blocks| && h < |s.blocks| && k != h && InBlock(s.blocks[k], w)
    ensures !InBlock(s.blocks[h], w)
  {
  }

  lemma FirstWord(b: Block)
    requires b.addr % 16 == 0 && b.size > 0
    ensures InBlock(b, b.addr / 8)
  {
  }

  lemma CutLinked(mem: seq<nat>, first: seq<nat>, count: seq<nat>, s: State, size: nat)
    requires Linked(mem, first, count, s) && size <= s.space
    ensures Linked(mem, first, count, Cut(s, size))
  {
    forall i | 0 <= i < |first| ensures Chain(mem, first[i], s.free[i], Cut(s, size).blocks) {
      ChainGrown(mem, first[i], s.free[i], s.blocks, Block(s.begin, size, true));
    }
  }

  lemma ReuseLinked(mem: seq<nat>, first: seq<nat>, count: seq<nat>, s: State, x: nat)
    requires Linked(mem, first, count, s) && x < |first| && s.free[x] != []
    ensures count[x] > 0 && first[x] / 8 < |mem| && s.free[x][0] < |s.blocks| && first[x] == s.blocks[s.free[x][0]].addr
    ensures Linked(mem, first[x := mem[first[x] / 8]], count[x := count[x] - 1], Reuse(s, x))
  {
    forall i | 0 <= i < |first|
      ensures Chain(mem, first[x := mem[first[x] / 8]][i], Reuse(s, x).free[i], Reuse(s, x).blocks)
    {
      if i == x {
        ChainMarked(mem, mem[first[x] / 8], s.free[x][1..], s.blocks, s.free[x][0], true);
      } else {
        ChainMarked(mem, first[i], s.free[i], s.blocks, s.free[x][0], true);
      }
    }
  }

  /** Writing a word of a block in use leaves every list as it is. */
  lemma {:induction false} WriteLinked(mem: seq<nat>, first: seq<nat>, count: seq<nat>, s: State, start: nat,
          k: nat, w: nat, v: nat, i: nat)
    requires Linked(mem, first, count, s) && Sorted(s) && Laid(s, start)
    requires k < |s.blocks| && s.blocks[k].live && InBlock(s.blocks[k], w) && w < |mem| && i < |first|
    ensures Chain(mem[w := v], first[i], s.free[i], s.blocks)
  {
    forall j | 0 <= j < |s.free[i]|
      ensures s.free[i][j] < |s.blocks| && s.blocks[s.free[i][j]].addr / 8 != w
    {
      assert Listed(s, i, j);
      var h := s.free[i][j];
      assert Placed(s.blocks[h], start, s.begin);
      FirstWord(s.blocks[h]);
      WordInOneBlock(s, start, k, h, w);
    }
    ChainElsewhere(mem, w, v, first[i], s.free[i], s.blocks);
  }

  lemma {:induction false} ReleaseLinked(mem: seq<nat>, first: seq<nat>, count: seq<nat>, s: State, start: nat,
          k: nat, x: nat, w: nat)
    requires Linked(mem, first, count, s) && Sorted(s) && Laid(s, start)
    requires k < |s.blocks| && s.blocks[k].live && x < |first|
    requires w == s.blocks[k].addr / 8 < |mem| && InBlock(s.blocks[k], w)
    ensures Linked(mem[w := first[x]], first[x := s.blocks[k].addr], count[x := count[x] + 1], Release(s, k, x))
  {
    forall i | 0 <= i < |first| ensures Chain(mem[w := first[x]], first[i], s.free[i], Release(s, k, x).blocks) {
      WriteLinked(mem, first, count, s, start, k, w, first[x], i);
      ChainMarked(mem[w := first[x]], first[i], s.free[i], s.blocks, k, false);
    }
    assert ([k] + s.free[x])[1..] == s.free[x];
  }

  /** The first word of a block is inside it. */
  lemma LinkInside(s: State, start: nat, k: nat)
    requires Laid(s, start) && k < |s.blocks| && s.blocks[k].size > 0
    ensures InBlock(s.blocks[k], s.blocks[k].addr / 8)
    ensures 8 * (s.blocks[k].addr / 8) < s.begin
  {
    assert Placed(s.blocks[k], start, s.begin);
    FirstWord(s.blocks[k]);
  }

  // ---------- the pool ----------

  /**
    A request of `size` bytes is answered from the front of the list of its class when that is not empty, else
    by cutting it off the front of the free space when it is no larger than that, else the process exits.
   */
  predicate Answered(size: nat, first: seq<nat>, count: seq<nat>, begin: nat, space: nat, a: Answer, after: nat)
    requires |first| == |count|
  {
    var i := (size - 1) / 16;
    if 0 <= i < |first| && count[i] > 0 then a == Address(first[i]) && after == begin
    else if size <= space then a == Address(begin) && after == begin + size
    else a == Exits && after == begin
  }

  lemma ListIndex(len: nat, lists: nat)
    requires 0 < len < WORD && 16 * lists < WORD
    ensures ListOf(Rounded(len)) < lists <==> 0 <= (Rounded(len) - 1) / 16 < lists
    ensures ListOf(Rounded(len)) < lists ==> ListOf(Rounded(len)) == (Rounded(len) - 1) / 16
  {
    RoundedCovers(len);
  }

  datatype Answer = Null | Address(p: nat) | Exits

  class MemoryPool {
    const mem: array<nat>
    const first: array<nat>
    const count: array<nat>
    var begin: nat
    var space: nat
    ghost const start: nat
    ghost const capacity: nat
    ghost var s: State

    ghost predicate Valid()
      reads this, mem, first, count
    {
      && mem != first && mem != count && first != count
      && Inv(s, start, capacity) && begin == s.begin && space == s.space
      && start + capacity <= 8 * mem.Length
      && Linked(mem[..], first[..], count[..], s)
    }

    constructor (mem: array<nat>, lo: nat, hi: nat, lists: nat)
      requires lo <= hi <= 8 * mem.Length && 16 * lists < WORD
      ensures Valid() && this.mem == mem && mem[..] == old(mem[..]) && fresh(first) && fresh(count)
      ensures (start, capacity) == StdAlign(lo, hi) && s == Initial(start, capacity, lists)
      ensures first.Length == count.Length == lists && forall i :: 0 <= i < lists ==> first[i] == 0 == count[i]
    {
      this.mem := mem;
      first, count := new nat[lists](i => 0), new nat[lists](i => 0);
      begin, space := StdAlign(lo, hi).0, StdAlign(lo, hi).1;
      start, capacity := StdAlign(lo, hi).0, StdAlign(lo, hi).1;
      s := Initial(StdAlign(lo, hi).0, StdAlign(lo, hi).1, lists);
      new;
      EmptyLists(lists);
    }

    method Push(i: nat, p: nat)
      requires i < first.Length && i < count.Length && p / 8 < mem.Length
      requires mem != first && mem != count && first != count
      modifies mem, first, count
      ensures mem[..] == old(mem[..])[p / 8 := old(first[i])]
      ensures first[..] == old(first[..])[i := p] && count[..] == old(count[..])[i := old(count[i]) + 1]
    {
      count[i] := count[i] + 1;
      mem[p / 8] := first[i];
      first[i] := p;
    }

    /** Push a block in use onto the list of its size. */
    method Return(i: nat, p: nat, ghost k: nat)
      requires Valid() && i < first.Length && p / 8 < mem.Length
      requires k < |s.blocks| && s.blocks[k] == Block(p, 16 * (i + 1), true) && InBlock(s.blocks[k], p / 8)
      modifies this`s, mem, first, count
      ensures Valid() && s == Release(old(s), k, i)
      ensures mem[..] == old(mem[..])[p / 8 := old(first[i])]
    {
      ReleaseLinked(mem[..], first[..], count[..], s, start, k, i, p / 8);
      ReleaseInv(s, k, i, start, capacity);
      Push(i, p);
      s := Release(s, k, i);
    }

    method GiveBack(i: nat, p: nat, ghost k: nat)
      requires Valid() && i < first.Length && k < |s.blocks| && s.blocks[k] == Block(p, 16 * (i + 1), true)
      modifies this`s, mem, first, count
      ensures Valid() && s == Release(old(s), k, i)
      ensures InBlock(old(s).blocks[k], p / 8) && p / 8 < mem.Length
      ensures mem[..] == old(mem[..])[p / 8 := mem[p / 8]]
    {
      LinkInside(s, start, k);
      Return(i, p, k);
    }

    method Pop(i: nat) returns (p: nat)
      requires i < first.Length && i < count.Length && count[i] > 0 && first[i] / 8 < mem.Length
      requires mem != first && mem != count && first != count
      modifies first, count
      ensures p == old(first[i])
      ensures first[..] == old(first[..])[i := mem[p / 8]] && count[..] == old(count[..])[i := old(count[i]) - 1]
    {
      count[i] := count[i] - 1;
      p := first[i];
      first[i] := mem[first[i] / 8];
    }

    /** Take the front of free list i. */
    method TakeFree(i: nat) returns (p: nat)
      requires Valid() && i < first.Length && s.free[i] != []
      modifies this`s, first, count
      ensures Valid() && s == Reuse(old(s), i)
      ensures old(s).free[i][0] < |s.blocks| && p == s.blocks[old(s).free[i][0]].addr
    {
      ReuseLinked(mem[..], first[..], count[..], s, i);
      ReuseInv(s, i, start, capacity);
      p := Pop(i);
      s := Reuse(s, i);
    }

    /** Cut off the front of the free space. */
    method TakeNew(size: nat) returns (p: nat)
      requires Valid() && size % 16 == 0 && size <= space
      modifies this
      ensures Valid() && s == Cut(old(s), size) && p == old(begin)
    {
      CutLinked(mem[..], first[..], count[..], s, size);
      CutInv(s, size, start, capacity);
      p := begin;
      begin := p + size;
      space := space - size;
      s := Cut(s, size);
    }

    /** The address handed out is that of the block the bookkeeping names; exhausted, the process exits. */
    method Alloc(len: nat) returns (a: Answer)
      requires Valid() && len < WORD
      modifies this, first, count
      ensures Valid()
      ensures len == 0 ==> a == Null && s == old(s)
      ensures len > 0 && !Serves(old(s), len) ==> a == Exits && s == old(s)
      ensures len > 0 && Serves(old(s), len) ==> s == Next(old(s), Op.Alloc(len))
      ensures len > 0 && Serves(old(s), len) ==>
        Given(old(s), len) < |s.blocks| && a == Address(s.blocks[Given(old(s), len)].addr)
      ensures a == Null <==> len == 0
      ensures first.Length == count.Length
      ensures len > 0 ==>
        Answered(Rounded(len), old(first[..]), old(count[..]), old(begin), old(space), a, begin)
    {
      if len == 0 { return Null; }
      var aligned := Rounded(len);
      var i := ListOf(aligned);
      ListIndex(len, first.Length);
      var p: nat;
      if i < first.Length && count[i] != 0 {
        p := TakeFree(i);
        return Address(p);
      }
      if aligned > space { return Exits; }
      RoundedCovers(len);
      p := TakeNew(aligned);
      return Address(p);
    }

    /** Give back block k; only its own words are written. */
    method Dealloc(p: nat, len: nat, ghost k: nat) returns (exits: bool)
      requires Valid() && len < WORD
      requires len > 0 ==>
        k < |s.blocks| && s.blocks[k].addr == p && s.blocks[k].live && s.blocks[k].size == Rounded(len)
      modifies this`s, mem, first, count
      ensures Valid()
      ensures exits <==> len > 0 && ListOf(Rounded(len)) >= first.Length
      ensures exits || len == 0 ==> s == old(s) && mem[..] == old(mem[..])
      ensures !exits && len > 0 ==> s == Next(old(s), Op.Dealloc(k, len))
      ensures !exits && len > 0 ==>
        InBlock(old(s).blocks[k], p / 8) && p / 8 < mem.Length && mem[..] == old(mem[..])[p / 8 := mem[p / 8]]
    {
      if len == 0 { return false; }
      var aligned := Rounded(len);
      var i := ListOf(aligned);
      if i >= first.Length { return true; }
      RoundedCovers(len);
      GiveBack(i, p, k);
      return false;
    }

    /** A caller writes a word of a block it holds: the pool does not notice. */
    method Use(w: nat, v: nat, ghost k: nat)
      requires Valid() && k < |s.blocks| && s.blocks[k].live && InBlock(s.blocks[k], w)
      modifies mem
      ensures Valid() && w < mem.Length && mem[..] == old(mem[..])[w := v]
    {
      assert Placed(s.blocks[k], start, s.begin);
      forall i | 0 <= i < first.Length ensures Chain(mem[..][w := v], first[i], s.free[i], s.blocks) {
        WriteLinked(mem[..], first[..], count[..], s, start, k, w, v, i);
      }
      mem[w] := v;
    }
  }
}
