/** What every run of allocations and deallocations keeps. */
module PoolTheorems {
  import opened Basics
  import opened Words
  import opened Pool

  // ---------- sums ----------

  lemma {:induction false} MarkLive(blocks: seq<Block>, k: nat, live: bool)
    requires k < |blocks| && blocks[k].live != live
    ensures LiveBytes(Mark(blocks, k, live)) + (if live then 0 else blocks[k].size)
         == LiveBytes(blocks) + (if live then blocks[k].size else 0)
  {
    var m := |blocks| - 1;
    var marked := Mark(blocks, k, live);
    if k < m {
      MarkLive(blocks[..m], k, live);
      assert marked[..m] == Mark(blocks[..m], k, live);
    } else {
      assert marked[..m] == blocks[..m];
    }
  }

  lemma {:induction false} FreeUpdate(free: seq<seq<nat>>, i: nat, list: seq<nat>)
    requires i < |free|
    ensures FreeBytes(free[i := list]) == FreeBytes(free) + (|list| - |free[i]|) * (16 * (i + 1))
  {
    var m := |free| - 1;
    if i < m {
      FreeUpdate(free[..m], i, list);
      assert free[i := list][..m] == free[..m][i := list];
    } else {
      assert free[i := list][..m] == free[..m];
      assert |list| * (16 * |free|) == |free[i]| * (16 * |free|) + (|list| - |free[i]|) * (16 * |free|);
    }
  }

  lemma FreePush(free: seq<seq<nat>>, i: nat, k: nat)
    requires i < |free|
    ensures FreeBytes(free[i := [k] + free[i]]) == FreeBytes(free) + 16 * (i + 1)
  {
    FreeUpdate(free, i, [k] + free[i]);
    assert |[k] + free[i]| - |free[i]| == 1;
  }

  lemma FreePop(free: seq<seq<nat>>, i: nat)
    requires i < |free| && free[i] != []
    ensures FreeBytes(free[i := free[i][1..]]) == FreeBytes(free) - 16 * (i + 1)
  {
    FreeUpdate(free, i, free[i][1..]);
    assert |free[i][1..]| - |free[i]| == -1;
  }

  lemma {:induction false} EmptyLists(lists: nat)
    ensures FreeBytes(seq(lists, i => [])) == 0
  {
    if lists > 0 {
      EmptyLists(lists - 1);
      assert seq<seq<nat>>(lists, i => [])[..lists - 1] == seq<seq<nat>>(lists - 1, i => []);
    }
  }

  lemma CutLive(blocks: seq<Block>, b: Block)
    requires b.live
    ensures LiveBytes(blocks + [b]) == LiveBytes(blocks) + b.size
  {
    assert (blocks + [b])[..|blocks|] == blocks;
  }

  // ---------- one step ----------

  lemma {:induction false} CutInv(s: State, size: nat, start: nat, capacity: nat)
    requires Inv(s, start, capacity) && size % 16 == 0 && size <= s.space
    ensures Inv(Cut(s, size), start, capacity)
  {
    CutLive(s.blocks, Block(s.begin, size, true));
    CutSorted(s, size);
    CutLaid(s, size, start);
  }

  lemma CutLaid(s: State, size: nat, start: nat)
    requires Laid(s, start) && size % 16 == 0 && size <= s.space
    ensures Laid(Cut(s, size), start)
  {
    var s' := Cut(s, size);
    forall k | 0 <= k < |s'.blocks| ensures Placed(s'.blocks[k], start, s'.begin) {
      if k < |s.blocks| { assert Placed(s.blocks[k], start, s.begin); }
    }
    forall j, k | 0 <= j < k < |s'.blocks| ensures s'.blocks[j].addr + s'.blocks[j].size <= s'.blocks[k].addr {
      assert Placed(s.blocks[j], start, s.begin);
    }
  }

  lemma CutSorted(s: State, size: nat)
    requires Sorted(s) && size <= s.space
    ensures Sorted(Cut(s, size))
  {
    var s' := Cut(s, size);
    forall i, j | 0 <= i < |s'.free| && 0 <= j < |s'.free[i]| ensures Listed(s', i, j) {
      assert Listed(s, i, j);
    }
    forall k | 0 <= k < |s'.blocks| && !s'.blocks[k].live ensures Parked(s', k) {
      assert Parked(s, k);
    }
  }

  lemma ReuseSorted(s: State, x: nat)
    requires Sorted(s) && x < |s.free| && s.free[x] != []
    ensures Listed(s, x, 0) && Sorted(Reuse(s, x))
  {
    assert Listed(s, x, 0);
    var s' := Reuse(s, x);
    assert s.free[x] == [s.free[x][0]] + s'.free[x];
    forall i, j | 0 <= i < |s'.free| && 0 <= j < |s'.free[i]| ensures Listed(s', i, j) {
      assert Listed(s, i, if i == x then j + 1 else j);
    }
    forall k | 0 <= k < |s'.blocks| && !s'.blocks[k].live ensures Parked(s', k) {
      assert Parked(s, k);
    }
  }

  lemma ReuseInv(s: State, x: nat, start: nat, capacity: nat)
    requires Inv(s, start, capacity) && x < |s.free| && s.free[x] != []
    ensures Listed(s, x, 0) && Inv(Reuse(s, x), start, capacity)
  {
    ReuseSorted(s, x);
    MarkLive(s.blocks, s.free[x][0], true);
    FreePop(s.free, x);
  }

  lemma ReleaseSorted(s: State, k: nat, x: nat)
    requires Sorted(s) && x < |s.free| && k < |s.blocks| && s.blocks[k].live && s.blocks[k].size == 16 * (x + 1)
    ensures Sorted(Release(s, k, x))
  {
    var s' := Release(s, k, x);
    forall i, j | 0 <= i < |s'.free| && 0 <= j < |s'.free[i]| ensures Listed(s', i, j) {
      if i != x { assert Listed(s, i, j); }
      else if j > 0 { assert Listed(s, i, j - 1); }
    }
    forall j | 0 <= j < |s.free[x]| ensures s.free[x][j] != k { assert Listed(s, x, j); }
    forall h | 0 <= h < |s'.blocks| && !s'.blocks[h].live ensures Parked(s', h) {
      if h != k { assert Parked(s, h); }
    }
  }

  lemma ReleaseInv(s: State, k: nat, x: nat, start: nat, capacity: nat)
    requires Inv(s, start, capacity)
    requires x < |s.free| && k < |s.blocks| && s.blocks[k].live && s.blocks[k].size == 16 * (x + 1)
    ensures Inv(Release(s, k, x), start, capacity)
  {
    ReleaseSorted(s, k, x);
    MarkLive(s.blocks, k, false);
    FreePush(s.free, x, k);
  }

  lemma {:induction false} NextInv(s: State, op: Op, start: nat, capacity: nat)
    requires Inv(s, start, capacity) && Enabled(s, op)
    ensures Inv(Next(s, op), start, capacity)
  {
    RoundedCovers(op.len);
    var x := ListOf(Rounded(op.len));
    if op.Dealloc? { ReleaseInv(s, op.block, x, start, capacity); }
    else if Reusable(s, op.len) { ReuseInv(s, x, start, capacity); }
    else { CutInv(s, Rounded(op.len), start, capacity); }
  }

  // ---------- runs ----------

  lemma {:induction false} RunInv(start: nat, space: nat, lists: nat, ops: seq<Op>)
    requires start % 16 == 0 && 16 * lists < WORD
    ensures var r := After(start, space, lists, ops); r.Some? ==> |r.value.free| == lists && Inv(r.value, start, space)
  {
    if ops == [] {
      EmptyLists(lists);
    } else {
      var m := |ops| - 1;
      RunInv(start, space, lists, ops[..m]);
      var r := After(start, space, lists, ops[..m]);
      if r.Some? && Enabled(r.value, ops[m]) { NextInv(r.value, ops[m], start, space); }
    }
  }

  /** Blocks never overlap, are aligned, and lie inside the pool. */
  lemma BlocksDisjoint(start: nat, space: nat, lists: nat, ops: seq<Op>, j: nat, k: nat)
    requires start % 16 == 0 && 16 * lists < WORD && After(start, space, lists, ops).Some?
    requires var s := After(start, space, lists, ops).value; j < |s.blocks| && k < |s.blocks| && j != k
    ensures var s := After(start, space, lists, ops).value;
      && s.blocks[k].addr % 16 == 0
      && start <= s.blocks[k].addr && s.blocks[k].addr + s.blocks[k].size <= start + space
      && (s.blocks[j].addr + s.blocks[j].size <= s.blocks[k].addr
          || s.blocks[k].addr + s.blocks[k].size <= s.blocks[j].addr)
  {
    RunInv(start, space, lists, ops);
    var s := After(start, space, lists, ops).value;
    assert Placed(s.blocks[k], start, s.begin);
  }

  /** The bytes in use, on the free lists and never cut add up to the pool. */
  lemma {:induction false} BytesConserved(start: nat, space: nat, lists: nat, ops: seq<Op>)
    requires start % 16 == 0 && 16 * lists < WORD && After(start, space, lists, ops).Some?
    ensures var s := After(start, space, lists, ops).value;
      LiveBytes(s.blocks) + FreeBytes(s.free) + s.space == space && s.begin + s.space == start + space
  {
    RunInv(start, space, lists, ops);
  }

  /** A block that is not in use is on one free list, the one of its size, and once. */
  lemma FreeOnce(start: nat, space: nat, lists: nat, ops: seq<Op>, k: nat, i: nat, j: nat, i': nat, j': nat)
    requires start % 16 == 0 && 16 * lists < WORD && After(start, space, lists, ops).Some?
    requires var s := After(start, space, lists, ops).value;
      && k < |s.blocks| && i < lists && i' < lists && |s.free| == lists
      && j < |s.free[i]| && j' < |s.free[i']| && s.free[i][j] == k == s.free[i'][j']
    ensures var s := After(start, space, lists, ops).value;
      i == i' && j == j' && !s.blocks[k].live && s.blocks[k].size == 16 * (i + 1)
  {
    RunInv(start, space, lists, ops);
    var s := After(start, space, lists, ops).value;
    assert Listed(s, i, j) && Listed(s, i', j');
  }

  /**
    What an allocation hands out was not in use, is in use now, and is as long as was asked for; no
    other block changes.
   */
  lemma {:induction false} Handed(start: nat, space: nat, lists: nat, ops: seq<Op>, len: nat)
    requires start % 16 == 0 && 16 * lists < WORD && After(start, space, lists, ops).Some?
    requires Enabled(After(start, space, lists, ops).value, Alloc(len)) && len <= WORD - 16
    ensures var s := After(start, space, lists, ops).value;
      var k, s' := Given(s, len), Next(s, Alloc(len));
      && k < |s'.blocks| && s'.blocks[k].live && s'.blocks[k].size >= len
      && (k < |s.blocks| ==> !s.blocks[k].live)
      && forall j :: 0 <= j < |s.blocks| && j != k ==> s'.blocks[j] == s.blocks[j]
  {
    RunInv(start, space, lists, ops);
    RoundedCovers(len);
    var s := After(start, space, lists, ops).value;
    if Reusable(s, len) { assert Listed(s, ListOf(Rounded(len)), 0); }
  }

  /** A block keeps its place and its size for the rest of the run. */
  lemma {:induction false} BlockKept(start: nat, space: nat, lists: nat, ops: seq<Op>, more: seq<Op>, k: nat)
    requires After(start, space, lists, ops + more).Some?
    ensures After(start, space, lists, ops).Some?
    ensures var s, s' := After(start, space, lists, ops).value, After(start, space, lists, ops + more).value;
      k < |s.blocks| ==>
        k < |s'.blocks| && s'.blocks[k].addr == s.blocks[k].addr && s'.blocks[k].size == s.blocks[k].size
  {
    if more == [] {
      assert ops + more == ops;
    } else {
      var m := |more| - 1;
      assert (ops + more)[..|ops + more| - 1] == ops + more[..m];
      BlockKept(start, space, lists, ops, more[..m], k);
    }
  }

  /** Giving back a block and asking for its size again returns that block, and restores the pool. */
  lemma LastInFirstOut(s: State, k: nat, len: nat, len': nat)
    requires Sorted(s) && Enabled(s, Dealloc(k, len)) && 0 < len' < WORD && Rounded(len') == Rounded(len)
    ensures var freed := Next(s, Dealloc(k, len));
      Enabled(freed, Alloc(len')) && Given(freed, len') == k && Next(freed, Alloc(len')) == s
  {
    var x := ListOf(Rounded(len));
    var freed := Next(s, Dealloc(k, len));
    assert freed.free[x][1..] == s.free[x];
    assert freed.free[x := s.free[x]] == s.free;
    assert Mark(freed.blocks, k, true) == s.blocks;
  }

  /** Giving back a block that came off a free list restores the pool. */
  lemma GivingBackRestores(s: State, len: nat)
    requires Sorted(s) && 0 < len < WORD && Reusable(s, len)
    ensures Enabled(Next(s, Alloc(len)), Dealloc(Given(s, len), len))
    ensures Next(Next(s, Alloc(len)), Dealloc(Given(s, len), len)) == s
  {
    RoundedCovers(len);
    var x := ListOf(Rounded(len));
    assert Listed(s, x, 0);
    var taken := Next(s, Alloc(len));
    assert [s.free[x][0]] + taken.free[x] == s.free[x];
    assert taken.free[x := s.free[x]] == s.free;
    assert Mark(taken.blocks, s.free[x][0], false) == s.blocks;
  }

  // ---------- the constructor ----------

  /**
    The constructor leaves an aligned start inside the given memory, or too little space for any
    block, exactly when an aligned block fits or the memory is shorter than one.
   */
  lemma ConstructorExactly(lo: nat, hi: nat)
    requires 0 < lo <= hi
    ensures var (begin, space) := StdAlign(lo, hi);
      (space >= 16 ==> lo <= begin && begin % 16 == 0 && begin + space <= hi)
      <==> hi - lo < 16 || (lo + 15) / 16 * 16 + 16 <= hi
    ensures (lo + 15) / 16 * 16 + 16 <= hi ==>
      StdAlign(lo, hi) == ((lo + 15) / 16 * 16, hi - (lo + 15) / 16 * 16)
    ensures (lo + 15) / 16 * 16 + 16 > hi ==> StdAlign(lo, hi) == (0, hi - lo)
  {
    NextAligned(lo);
  }

  lemma NextAligned(lo: nat)
    ensures lo + (16 - lo % 16) % 16 == (lo + 15) / 16 * 16
  {
  }

  /** Twenty bytes at 8: no aligned block fits, yet the first request is served at the null pointer. */
  lemma NullHandedOut()
    ensures var (begin, space) := StdAlign(8, 28);
      && Enabled(Initial(begin, space, 4), Alloc(1))
      && Next(Initial(begin, space, 4), Alloc(1)).blocks == [Block(0, 16, true)]
  {
  }
}
