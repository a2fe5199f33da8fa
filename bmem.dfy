/**
 * The stage 1 base memory allocator.  At start-up it grabs every page below
 * BMEM_MAX_ADDR that the firmware will hand out, groups the grabbed pages
 * into blocks, and gauges how much memory from address 0 will be free at run
 * time.  Later requests are carved from the blocks: run-time allocations
 * from the top of the highest block that fits (lowering the run-time top),
 * boot-time allocations from the bottom of the lowest block that fits
 * (raising the boot-time bottom).
 */
module Bmem {
  import opened Common
  import Efi

  /** End of the base memory area the allocator manages (640 KiB). */
  const BMEM_MAX_ADDR: int := 0xa0000
  const NPAGES: int := BMEM_MAX_ADDR / PAGE_SIZE
  const MAX_BMEM_BLKS: int := NPAGES / 2
  /** Real-mode paragraph. */
  const PARA_SIZE: int := 16
  /** At least this much memory from 0 must remain for run time ... */
  const MIN_RUNTIME_TOP: int := 192 * KIBYTE
  /** ... and at least this much of it must lie above the boot-time bottom. */
  const BOOT_SCRATCH: int := 128 * KIBYTE

  /** A block [start, end) of base memory, in bytes. */
  datatype Block = Block(start: int, end: int)

  predicate Within(r: Block, b: Block)
  {
    b.start <= r.start && r.end <= b.end
  }

  predicate Apart(r: Block, q: Block)
  {
    r.end <= q.start || q.end <= r.start
  }

  predicate InsideSome(r: Block, init: seq<Block>)
  {
    exists j :: 0 <= j < |init| && Within(r, init[j])
  }

  /** Non-empty blocks in ascending order, not overlapping, above page 0. */
  predicate Ordered(t: seq<Block>)
  {
    (forall i :: 0 <= i < |t| ==> PAGE_SIZE <= t[i].start < t[i].end <= BMEM_MAX_ADDR) &&
    (forall i, j :: 0 <= i < j < |t| ==> t[i].end <= t[j].start)
  }

  /**
   * The allocator's bookkeeping is sound: the free blocks are ordered, every
   * free block and every region handed out lies inside a block as it was
   * right after start-up, and no two of them overlap.
   */
  ghost predicate Consistent(t: seq<Block>, init: seq<Block>, regions: set<Block>)
  {
    Ordered(t) &&
    (forall i :: 0 <= i < |t| ==> InsideSome(t[i], init)) &&
    (forall r :: r in regions ==> r.start <= r.end && InsideSome(r, init)) &&
    (forall r, q :: r in regions && q in regions && r != q ==> Apart(r, q)) &&
    (forall r, i :: r in regions && 0 <= i < |t| ==> Apart(r, t[i]))
  }

  // ---------------------------------------------------------------------
  // Placement inside one block

  /**
   * bmem_alloc's placement in a block: `size` bytes at the highest address
   * aligned to `align` below the block's end, if that is inside the block.
   */
  function TopFit(b: Block, size: int, align: int): (r: Option<int>)
    requires 0 <= b.start <= b.end && size >= 0 && align >= 1
    ensures r.Some? ==> Aligned(r.value, align) && b.start <= r.value && r.value + size <= b.end
  {
    if b.end - b.start < size then None
    else
      var a := AlignDown(b.end - size, align);
      if a < b.start then None else Some(a)
  }

  /** TopFit is the highest aligned place in the block, and fails only when there is none. */
  lemma TopFitHighest(b: Block, size: int, align: int, x: int)
    requires 0 <= b.start <= b.end && size >= 0 && align >= 1
    requires Aligned(x, align) && b.start <= x && x + size <= b.end
    ensures TopFit(b, size, align).Some? && x <= TopFit(b, size, align).value
  {
    AlignDownGreatest(b.end - size, align, x);
  }

  /**
   * bmem_alloc_boottime's placement in a block: `size` bytes at the lowest
   * address aligned to `align` at or above the block's start, if they fit.
   */
  function BottomFit(b: Block, size: int, align: int): (r: Option<int>)
    requires 0 <= b.start <= b.end && size >= 0 && align >= 1
    ensures r.Some? ==> Aligned(r.value, align) && b.start <= r.value && r.value + size <= b.end
  {
    var a := AlignUp(b.start, align);
    if b.end - b.start < size then None
    else if a > b.end then None
    else if b.end - a < size then None
    else Some(a)
  }

  /**
   * BottomFit is the lowest aligned place in the block, and fails only when
   * the lowest aligned address leaves too little room.
   */
  lemma BottomFitLowest(b: Block, size: int, align: int, x: int)
    requires 0 <= b.start <= b.end && size >= 0 && align >= 1
    requires Aligned(x, align) && b.start <= x
    ensures BottomFit(b, size, align).Some? ==> BottomFit(b, size, align).value <= x
    ensures x + size <= b.end ==> BottomFit(b, size, align).Some?
  {
    AlignUpLeast(b.start, align, x);
  }

  /**
   * The search order of bmem_alloc: among the first k blocks, the highest
   * one in which TopFit succeeds, with the address it gives.
   */
  function HighestBelow(t: seq<Block>, k: int, size: int, align: int): (r: Option<(int, int)>)
    requires Ordered(t) && 0 <= k <= |t| && size >= 0 && align >= 1
    ensures r.Some? ==> 0 <= r.value.0 < k && TopFit(t[r.value.0], size, align) == Some(r.value.1)
    ensures r.Some? ==> forall j :: r.value.0 < j < k ==> TopFit(t[j], size, align).None?
    ensures r.None? ==> forall j :: 0 <= j < k ==> TopFit(t[j], size, align).None?
    decreases k
  {
    if k == 0 then None
    else match TopFit(t[k - 1], size, align)
      case Some(a) => Some((k - 1, a))
      case None => HighestBelow(t, k - 1, size, align)
  }

  /**
   * The search order of bmem_alloc_boottime: from block k upwards, the
   * lowest one in which BottomFit succeeds, with the address it gives.
   */
  function LowestFrom(t: seq<Block>, k: int, size: int, align: int): (r: Option<(int, int)>)
    requires Ordered(t) && 0 <= k <= |t| && size >= 0 && align >= 1
    ensures r.Some? ==> k <= r.value.0 < |t| && BottomFit(t[r.value.0], size, align) == Some(r.value.1)
    ensures r.Some? ==> forall j :: k <= j < r.value.0 ==> BottomFit(t[j], size, align).None?
    ensures r.None? ==> forall j :: k <= j < |t| ==> BottomFit(t[j], size, align).None?
    decreases |t| - k
  {
    if k == |t| then None
    else match BottomFit(t[k], size, align)
      case Some(a) => Some((k, a))
      case None => LowestFrom(t, k + 1, size, align)
  }

  /** The table after block i has been cut down to nb (dropped when nb is empty). */
  function Take(t: seq<Block>, i: int, nb: Block): seq<Block>
    requires 0 <= i < |t|
  {
    if nb.start < nb.end then t[i := nb] else t[..i] + t[i + 1..]
  }

  /**
   * A boot-time allocation of [addr, addr + size) from the bottom of block
   * k: the table loses that part of block k, the boot-time bottom rises
   * past it, and it joins the boot-time regions.
   */
  ghost predicate TookBottom(t0: seq<Block>, bot0: int, regions0: set<Block>, k: int, addr: int, size: int,
                             t: seq<Block>, bot: int, regions: set<Block>)
  {
    0 <= k < |t0| && t == Take(t0, k, Block(addr + size, t0[k].end)) &&
    bot == Max(bot0, addr + size) && regions == regions0 + {Block(addr, addr + size)}
  }

  /** Where entry m of Take(t, i, nb) comes from in t. */
  function TakeSource(t: seq<Block>, i: int, nb: Block, m: int): int
  {
    if nb.start < nb.end || m < i then m else m + 1
  }

  lemma TakeEntry(t: seq<Block>, i: int, nb: Block, m: int)
    requires 0 <= i < |t| && 0 <= m < |Take(t, i, nb)|
    ensures i <= TakeSource(t, i, nb, m) < |t| || 0 <= TakeSource(t, i, nb, m) < i
    ensures TakeSource(t, i, nb, m) == i ==> nb.start < nb.end && Take(t, i, nb)[m] == nb
    ensures TakeSource(t, i, nb, m) != i ==> Take(t, i, nb)[m] == t[TakeSource(t, i, nb, m)]
  {
  }

  /** Cutting block i down to a part of itself keeps the table ordered. */
  lemma TakeKeepsOrdered(t: seq<Block>, i: int, nb: Block)
    requires Ordered(t) && 0 <= i < |t| && Within(nb, t[i])
    ensures Ordered(Take(t, i, nb))
  {
    var t' := Take(t, i, nb);
    forall m | 0 <= m < |t'| ensures PAGE_SIZE <= t'[m].start < t'[m].end <= BMEM_MAX_ADDR {
      TakeEntry(t, i, nb, m);
    }
    forall m, m' | 0 <= m < m' < |t'| ensures t'[m].end <= t'[m'].start {
      TakeEntry(t, i, nb, m);
      TakeEntry(t, i, nb, m');
    }
  }

  /**
   * Handing out r from block i and keeping nb, a part of block i apart from
   * r, keeps the bookkeeping sound.
   */
  lemma TakeKeepsConsistent(t: seq<Block>, init: seq<Block>, regions: set<Block>, i: int, nb: Block, r: Block)
    requires Consistent(t, init, regions) && 0 <= i < |t|
    requires r.start <= r.end && Within(r, t[i]) && Within(nb, t[i]) && Apart(r, nb)
    ensures Consistent(Take(t, i, nb), init, regions + {r})
  {
    var j :| 0 <= j < |init| && Within(t[i], init[j]);
    assert Within(r, init[j]) && Within(nb, init[j]);
    var t' := Take(t, i, nb);
    var regions' := regions + {r};
    TakeKeepsOrdered(t, i, nb);
    forall q, m | q in regions' && 0 <= m < |t'| ensures Apart(q, t'[m]) {
      TakeEntry(t, i, nb, m);
      var src := TakeSource(t, i, nb, m);
      if src != i {
        assert t[i].end <= t[src].start || t[src].end <= t[i].start;
      }
    }
    forall q, q' | q in regions' && q' in regions' && q != q' ensures Apart(q, q') {
      if q == r { assert Apart(q', t[i]); } else if q' == r { assert Apart(q, t[i]); }
    }
    forall m | 0 <= m < |t'| ensures InsideSome(t'[m], init) {
      TakeEntry(t, i, nb, m);
      if TakeSource(t, i, nb, m) == i { assert Within(t'[m], init[j]); }
    }
  }

  /** bmem_check_enough, written with the unsigned subtraction it performs. */
  function EnoughBaseMem(bot: u32, top: u32): (ok: bool)
    ensures ok <==> top >= MIN_RUNTIME_TOP && bot + BOOT_SCRATCH <= top
  {
    !(top < MIN_RUNTIME_TOP || bot > (top - BOOT_SCRATCH) % U32_MOD)
  }

  // ---------------------------------------------------------------------
  // Start-up: page bitmaps and the initial block table

  /** No page of the firmware's free set in [s, s + n). */
  predicate RunFree(free: set<int>, s: int, n: int)
  {
    forall p :: s <= p < s + n ==> p in free
  }

  function FreeBitmap(free: set<int>): (s: seq<bool>)
    ensures |s| == NPAGES
  {
    seq(NPAGES, p => p in free)
  }

  /** First page past the range bmem_init marks for a descriptor (32-bit index). */
  function MarkEnd(d: Efi.MemDesc): int
  {
    var e := (d.physStart / PAGE_SIZE + d.numPages) % U32_MOD;
    if e > NPAGES then NPAGES else e
  }

  /** Page p will be free once boot services exit, according to descriptor d. */
  predicate DescMarks(d: Efi.MemDesc, p: int)
  {
    Efi.FreedAtExit(d.typ) && d.physStart < BMEM_MAX_ADDR && d.physStart / PAGE_SIZE <= p < MarkEnd(d)
  }

  predicate MapMarks(descs: seq<Efi.MemDesc>, p: int)
  {
    exists j :: 0 <= j < |descs| && DescMarks(descs[j], p)
  }

  /** The bitmap a after the memory-map pass of bmem_init has marked descs in it. */
  function MarkDescs(a: seq<bool>, descs: seq<Efi.MemDesc>): (s: seq<bool>)
    ensures |s| == |a|
  {
    seq(|a|, p requires 0 <= p < |a| => a[p] || MapMarks(descs, p))
  }

  /** The bitmap bmem_init sizes run-time memory with. */
  function MarkedBitmap(free: set<int>, descs: seq<Efi.MemDesc>): (s: seq<bool>)
    ensures |s| == NPAGES
  {
    MarkDescs(FreeBitmap(free), descs)
  }

  /**
   * b is a maximal run of available pages that does not include page 0:
   * page aligned, every page in it available, the pages just below and
   * just above it unavailable (or page 0 or off the end).
   */
  ghost predicate IsMaximalRun(avail: seq<bool>, b: Block)
    requires |avail| == NPAGES
  {
    b.start % PAGE_SIZE == 0 && b.end % PAGE_SIZE == 0 &&
    PAGE_SIZE <= b.start < b.end <= BMEM_MAX_ADDR &&
    (forall p :: b.start <= p * PAGE_SIZE < b.end ==> avail[p]) &&
    (b.start == PAGE_SIZE || !avail[b.start / PAGE_SIZE - 1]) &&
    (b.end == BMEM_MAX_ADDR || !avail[b.end / PAGE_SIZE])
  }

  /** Page p lies in one of the blocks of t. */
  ghost predicate Covered(t: seq<Block>, p: int)
  {
    exists i :: 0 <= i < |t| && t[i].start <= p * PAGE_SIZE < t[i].end
  }

  /** t lists, in order, exactly the maximal runs of available pages above page 0. */
  ghost predicate RunTable(avail: seq<bool>, t: seq<Block>)
    requires |avail| == NPAGES
  {
    Ordered(t) &&
    (forall i :: 0 <= i < |t| ==> IsMaximalRun(avail, t[i])) &&
    (forall p {:trigger Covered(t, p)} :: 1 <= p < NPAGES && avail[p] ==> Covered(t, p))
  }

  /**
   * Two maximal runs are separated by at least one unavailable page, so
   * the table of runs always fits in MAX_BMEM_BLKS entries.
   */
  lemma RunTableFits(avail: seq<bool>, t: seq<Block>)
    requires |avail| == NPAGES && RunTable(avail, t)
    ensures |t| <= MAX_BMEM_BLKS
  {
    if |t| > 0 {
      RunStarts(avail, t, |t| - 1);
      assert t[|t| - 1].start < BMEM_MAX_ADDR;
    }
  }

  lemma {:induction false} RunStarts(avail: seq<bool>, t: seq<Block>, i: int)
    requires |avail| == NPAGES && RunTable(avail, t) && 0 <= i < |t|
    ensures t[i].start >= (2 * i + 1) * PAGE_SIZE
  {
    if i > 0 {
      RunStarts(avail, t, i - 1);
      var prev, cur := t[i - 1], t[i];
      assert IsMaximalRun(avail, prev) && IsMaximalRun(avail, cur);
      assert prev.end <= cur.start;
      assert avail[cur.start / PAGE_SIZE] by {
        assert cur.start <= (cur.start / PAGE_SIZE) * PAGE_SIZE < cur.end;
      }
      assert prev.end != cur.start;
      MultiplesApart(prev.end, cur.start, PAGE_SIZE);
      MultiplesApart(prev.start, prev.end, PAGE_SIZE);
    }
  }

  /**
   * The grab loop of bmem_init.  The firmware owns the pages in `free`
   * (indices below NPAGES); AllocatePages(AllocateMaxAddress) hands out any
   * run of the requested length inside it, or fails.  Requests start at
   * MAX_BMEM_BLKS pages and halve on failure; after a success the count,
   * post-decremented past zero, wraps to 2^64 - 1, so the later requests are
   * for 2^k - 1 pages.  All free pages are grabbed in the end.
   */
  method GrabPages(free0: set<int>) returns (avail: array<bool>)
    requires forall p :: p in free0 ==> 0 <= p < NPAGES
    ensures fresh(avail) && avail.Length == NPAGES
    ensures avail[..] == FreeBitmap(free0)
  {
    avail := new bool[NPAGES](_ => false);
    var free := free0;
    var pageCount: int := NPAGES / 2;
    while pageCount != 0
      invariant 0 <= pageCount < U64_MOD
      invariant free <= free0
      invariant forall p :: 0 <= p < NPAGES ==> (avail[p] <==> p in free0 && p !in free)
      invariant pageCount == 0 ==> free == {}
      decreases |free|, pageCount
    {
      ghost var free1, count1 := free, pageCount;
      while true
        invariant 1 <= pageCount < U64_MOD
        invariant free <= free1
        invariant forall p :: 0 <= p < NPAGES ==> (avail[p] <==> p in free0 && p !in free)
        invariant free == free1 ==> pageCount == count1
        decreases |free|
      {
        if !(exists s :: 0 <= s <= NPAGES - pageCount && RunFree(free, s, pageCount)) {
          break;
        }
        var s :| 0 <= s <= NPAGES - pageCount && RunFree(free, s, pageCount);
        ghost var free2, count2 := free, pageCount;
        var idx := s;
        while pageCount != 0
          invariant s <= idx && idx + pageCount <= NPAGES && 0 <= pageCount
          invariant idx - s + pageCount == count2
          invariant free <= free2
          invariant forall p :: s <= p < idx ==> p !in free
          invariant forall p :: p in free2 && !(s <= p < idx) ==> p in free
          invariant forall p :: 0 <= p < NPAGES ==> (avail[p] <==> p in free0 && p !in free)
        {
          assert idx in free2;
          avail[idx] := true;
          free := free - {idx};
          idx := idx + 1;
          pageCount := pageCount - 1;
        }
        assert s in free2 && s !in free;
        ProperSubsetSmaller(free, free2);
        pageCount := U64_MOD - 1;
      }
      if free != free1 { ProperSubsetSmaller(free, free1); }
      if pageCount == 1 {
        forall p | p in free ensures false {
          assert RunFree(free, p, 1);
        }
      }
      pageCount := pageCount / 2;
    }
    assert forall p :: 0 <= p < NPAGES ==> avail[..][p] == FreeBitmap(free0)[p];
  }

  /** An open run of available pages from start up to (not including) page idx. */
  ghost predicate OpenRun(avail: seq<bool>, start: int, idx: int)
    requires |avail| == NPAGES
  {
    idx <= NPAGES && start % PAGE_SIZE == 0 && PAGE_SIZE <= start < idx * PAGE_SIZE &&
    (forall p :: start <= p * PAGE_SIZE < idx * PAGE_SIZE ==> 0 <= p < NPAGES && avail[p]) &&
    (start == PAGE_SIZE || !avail[start / PAGE_SIZE - 1])
  }

  /**
   * What the grouping loop of bmem_init knows before it looks at page idx:
   * t holds the maximal runs that ended below idx, start is either the
   * sentinel BMEM_MAX_ADDR or the start of a run still open at idx, and
   * every available page in [1, idx) is in one of them.
   */
  ghost predicate Partial(avail: seq<bool>, t: seq<Block>, start: int, idx: int)
    requires |avail| == NPAGES
  {
    1 <= idx <= NPAGES && |t| <= MAX_BMEM_BLKS &&
    (start != BMEM_MAX_ADDR ==> OpenRun(avail, start, idx)) &&
    (start != BMEM_MAX_ADDR ==> start >= (2 * |t| + 1) * PAGE_SIZE && (|t| > 0 ==> t[|t| - 1].end < start)) &&
    (start == BMEM_MAX_ADDR ==> (idx == 1 || !avail[idx - 1]) && (|t| > 0 ==> t[|t| - 1].end <= (idx - 1) * PAGE_SIZE)) &&
    (|t| > 0 ==> t[|t| - 1].end >= 2 * |t| * PAGE_SIZE) &&
    (forall i :: 0 <= i < |t| ==> IsMaximalRun(avail, t[i]) && t[i].end < idx * PAGE_SIZE) &&
    (forall i, j :: 0 <= i < j < |t| ==> t[i].end <= t[j].start) &&
    (forall p {:trigger Covered(t, p)} :: 1 <= p < idx && avail[p] ==>
      Covered(t, p) ||
      (start != BMEM_MAX_ADDR && start <= p * PAGE_SIZE))
  }

  /** Page idx is available: a run opens at idx or the open one grows. */
  lemma StepAvail(avail: seq<bool>, t: seq<Block>, start: int, idx: int)
    requires |avail| == NPAGES && Partial(avail, t, start, idx) && idx < NPAGES && avail[idx]
    ensures Partial(avail, t, if start == BMEM_MAX_ADDR then idx * PAGE_SIZE else start, idx + 1)
  {
    var start' := if start == BMEM_MAX_ADDR then idx * PAGE_SIZE else start;
    forall p | start' <= p * PAGE_SIZE < (idx + 1) * PAGE_SIZE ensures 0 <= p < NPAGES && avail[p] {
      if p != idx { assert p * PAGE_SIZE < idx * PAGE_SIZE; }
    }
  }

  /** Page idx is not available and no run is open. */
  lemma StepSkip(avail: seq<bool>, t: seq<Block>, idx: int)
    requires |avail| == NPAGES && Partial(avail, t, BMEM_MAX_ADDR, idx) && idx < NPAGES && !avail[idx]
    ensures Partial(avail, t, BMEM_MAX_ADDR, idx + 1)
  {
  }

  /** Page idx is not available and closes the open run [start, idx). */
  lemma StepClose(avail: seq<bool>, t: seq<Block>, start: int, idx: int)
    requires |avail| == NPAGES && Partial(avail, t, start, idx) && idx <= NPAGES
    requires start != BMEM_MAX_ADDR && (idx == NPAGES || !avail[idx])
    ensures |t| < MAX_BMEM_BLKS && IsMaximalRun(avail, Block(start, idx * PAGE_SIZE))
    ensures idx < NPAGES ==> Partial(avail, t + [Block(start, idx * PAGE_SIZE)], BMEM_MAX_ADDR, idx + 1)
    ensures forall p {:trigger Covered(t + [Block(start, idx * PAGE_SIZE)], p)} :: 1 <= p < idx && avail[p] ==>
      Covered(t + [Block(start, idx * PAGE_SIZE)], p)
  {
    CloseMaximal(avail, t, start, idx);
    CloseCovers(avail, t, start, idx);
    if idx < NPAGES {
      CloseOrdered(avail, t, start, idx);
    }
  }

  lemma CloseMaximal(avail: seq<bool>, t: seq<Block>, start: int, idx: int)
    requires |avail| == NPAGES && Partial(avail, t, start, idx) && idx <= NPAGES
    requires start != BMEM_MAX_ADDR && (idx == NPAGES || !avail[idx])
    ensures |t| < MAX_BMEM_BLKS && IsMaximalRun(avail, Block(start, idx * PAGE_SIZE))
    ensures start + PAGE_SIZE <= idx * PAGE_SIZE
  {
    MultiplesApart(start, idx * PAGE_SIZE, PAGE_SIZE);
  }

  lemma CloseCovers(avail: seq<bool>, t: seq<Block>, start: int, idx: int)
    requires |avail| == NPAGES && Partial(avail, t, start, idx)
    requires start != BMEM_MAX_ADDR
    ensures forall p {:trigger Covered(t + [Block(start, idx * PAGE_SIZE)], p)} :: 1 <= p < idx && avail[p] ==>
      Covered(t + [Block(start, idx * PAGE_SIZE)], p)
  {
    var b := Block(start, idx * PAGE_SIZE);
    var t' := t + [b];
    forall p | 1 <= p < idx && avail[p]
      ensures Covered(t', p)
    {
      if Covered(t, p) {
        var i :| 0 <= i < |t| && t[i].start <= p * PAGE_SIZE < t[i].end;
        assert t'[i] == t[i];
      } else {
        assert t'[|t|] == b;
      }
    }
  }

  lemma CloseOrdered(avail: seq<bool>, t: seq<Block>, start: int, idx: int)
    requires |avail| == NPAGES && Partial(avail, t, start, idx) && idx < NPAGES
    requires start != BMEM_MAX_ADDR && !avail[idx] && start + PAGE_SIZE <= idx * PAGE_SIZE
    requires |t| < MAX_BMEM_BLKS && IsMaximalRun(avail, Block(start, idx * PAGE_SIZE))
    requires forall p {:trigger Covered(t + [Block(start, idx * PAGE_SIZE)], p)} :: 1 <= p < idx && avail[p] ==>
      Covered(t + [Block(start, idx * PAGE_SIZE)], p)
    ensures Partial(avail, t + [Block(start, idx * PAGE_SIZE)], BMEM_MAX_ADDR, idx + 1)
  {
    var b := Block(start, idx * PAGE_SIZE);
    var t' := t + [b];
    assert t'[|t'| - 1] == b;
    assert b.end >= 2 * |t'| * PAGE_SIZE;
    forall i | 0 <= i < |t'| ensures IsMaximalRun(avail, t'[i]) && t'[i].end < (idx + 1) * PAGE_SIZE {
      if i < |t| {
        assert t'[i] == t[i];
      }
    }
    forall i, j | 0 <= i < j < |t'| ensures t'[i].end <= t'[j].start {
      if j == |t| {
        if i < |t| - 1 {
          assert t[i].end <= t[|t| - 1].start;
        }
      } else {
        assert t'[i] == t[i] && t'[j] == t[j];
      }
    }
  }

  /** At the end of the pages with no run open, the table is complete. */
  lemma FinishClosed(avail: seq<bool>, t: seq<Block>, start: int, idx: int)
    requires |avail| == NPAGES && Partial(avail, t, start, idx)
    requires start == BMEM_MAX_ADDR && idx >= NPAGES
    ensures RunTable(avail, t)
  {
  }

  /** At the end of the pages, closing the open run completes the table. */
  lemma FinishOpen(avail: seq<bool>, t: seq<Block>, start: int, idx: int)
    requires |avail| == NPAGES && Partial(avail, t, start, idx)
    requires start != BMEM_MAX_ADDR && idx >= NPAGES
    ensures idx == NPAGES && RunTable(avail, t + [Block(start, idx * PAGE_SIZE)])
  {
    assert idx == NPAGES;
    StepClose(avail, t, start, NPAGES);
    var b := Block(start, NPAGES * PAGE_SIZE);
    var t' := t + [b];
    assert t'[|t|] == b;
    forall i, j | 0 <= i < j < |t'| ensures t'[i].end <= t'[j].start {
      if j == |t| {
        if i < |t| - 1 {
          assert t[i].end <= t[|t| - 1].start;
        }
      } else {
        assert t'[i] == t[i] && t'[j] == t[j];
      }
    }
    forall i | 0 <= i < |t'| ensures IsMaximalRun(avail, t'[i]) && PAGE_SIZE <= t'[i].start < t'[i].end <= BMEM_MAX_ADDR {
      if i < |t| { assert t'[i] == t[i]; }
    }
  }

  /**
   * The blocks the grouping loop of bmem_init still records once it
   * reaches page idx, with `start` either the start of the open run or
   * the sentinel BMEM_MAX_ADDR.
   */
  function Group(avail: seq<bool>, idx: int, start: int): seq<Block>
    requires |avail| == NPAGES && 1 <= idx <= NPAGES
    decreases NPAGES - idx
  {
    if idx == NPAGES then
      (if start != BMEM_MAX_ADDR then [Block(start, idx * PAGE_SIZE)] else [])
    else if avail[idx] then
      Group(avail, idx + 1, if start == BMEM_MAX_ADDR then idx * PAGE_SIZE else start)
    else if start != BMEM_MAX_ADDR then
      [Block(start, idx * PAGE_SIZE)] + Group(avail, idx + 1, BMEM_MAX_ADDR)
    else
      Group(avail, idx + 1, BMEM_MAX_ADDR)
  }

  /** From any state the loop can be in, the blocks still to come complete the table. */
  lemma {:induction false} GroupCompletes(avail: seq<bool>, t: seq<Block>, start: int, idx: int)
    requires |avail| == NPAGES && Partial(avail, t, start, idx)
    ensures RunTable(avail, t + Group(avail, idx, start))
    decreases NPAGES - idx, 1
  {
    if idx == NPAGES {
      if start == BMEM_MAX_ADDR {
        FinishClosed(avail, t, start, idx);
        assert t + [] == t;
      } else {
        FinishOpen(avail, t, start, idx);
      }
    } else if avail[idx] {
      GroupAvail(avail, t, start, idx);
    } else if start != BMEM_MAX_ADDR {
      GroupClose(avail, t, start, idx);
    } else {
      StepSkip(avail, t, idx);
      GroupCompletes(avail, t, BMEM_MAX_ADDR, idx + 1);
    }
  }

  lemma {:induction false} GroupAvail(avail: seq<bool>, t: seq<Block>, start: int, idx: int)
    requires |avail| == NPAGES && Partial(avail, t, start, idx) && idx < NPAGES && avail[idx]
    ensures RunTable(avail, t + Group(avail, idx, start))
    decreases NPAGES - idx, 0
  {
    StepAvail(avail, t, start, idx);
    GroupCompletes(avail, t, if start == BMEM_MAX_ADDR then idx * PAGE_SIZE else start, idx + 1);
  }

  lemma {:induction false} GroupClose(avail: seq<bool>, t: seq<Block>, start: int, idx: int)
    requires |avail| == NPAGES && Partial(avail, t, start, idx) && idx < NPAGES && !avail[idx]
    requires start != BMEM_MAX_ADDR
    ensures RunTable(avail, t + Group(avail, idx, start))
    decreases NPAGES - idx, 0
  {
    StepClose(avail, t, start, idx);
    var b := Block(start, idx * PAGE_SIZE);
    GroupCompletes(avail, t + [b], BMEM_MAX_ADDR, idx + 1);
    assert (t + [b]) + Group(avail, idx + 1, BMEM_MAX_ADDR) == t + ([b] + Group(avail, idx + 1, BMEM_MAX_ADDR));
  }

  /**
   * The table bmem_init builds lists, in order, exactly the maximal runs of
   * grabbed pages above page 0, and it fits in blk.
   */
  lemma GroupIsRunTable(avail: seq<bool>)
    requires |avail| == NPAGES
    ensures RunTable(avail, Group(avail, 1, BMEM_MAX_ADDR))
    ensures |Group(avail, 1, BMEM_MAX_ADDR)| <= MAX_BMEM_BLKS
  {
    GroupCompletes(avail, [], BMEM_MAX_ADDR, 1);
    assert [] + Group(avail, 1, BMEM_MAX_ADDR) == Group(avail, 1, BMEM_MAX_ADDR);
    RunTableFits(avail, Group(avail, 1, BMEM_MAX_ADDR));
  }

  lemma GroupOrdered(avail: seq<bool>)
    requires |avail| == NPAGES
    ensures Ordered(Group(avail, 1, BMEM_MAX_ADDR)) && |Group(avail, 1, BMEM_MAX_ADDR)| <= MAX_BMEM_BLKS
  {
    GroupIsRunTable(avail);
  }

  /** The grouping loop of bmem_init, filling blk[0 .. n). */
  method GroupBlocks(avail: seq<bool>, blk: array<Block>) returns (n: int)
    requires |avail| == NPAGES && blk.Length == MAX_BMEM_BLKS
    modifies blk
    ensures 0 <= n <= MAX_BMEM_BLKS
    ensures blk[..n] == Group(avail, 1, BMEM_MAX_ADDR)
  {
    GroupIsRunTable(avail);
    ghost var all := Group(avail, 1, BMEM_MAX_ADDR);
    n := 0;
    var start := BMEM_MAX_ADDR;
    var idx := 1;
    while idx < NPAGES
      invariant 1 <= idx <= NPAGES && 0 <= n <= |all|
      invariant blk[..n] + Group(avail, idx, start) == all
    {
      if avail[idx] {
        if start == BMEM_MAX_ADDR {
          start := idx * PAGE_SIZE;
        }
      } else if start != BMEM_MAX_ADDR {
        ghost var rest := Group(avail, idx + 1, BMEM_MAX_ADDR);
        assert (blk[..n] + [Block(start, idx * PAGE_SIZE)]) + rest == all;
        blk[n] := Block(start, idx * PAGE_SIZE);
        assert blk[..n + 1] == blk[..n] + [Block(start, idx * PAGE_SIZE)];
        n := n + 1;
        start := BMEM_MAX_ADDR;
      }
      idx := idx + 1;
    }
    if start != BMEM_MAX_ADDR {
      blk[n] := Block(start, idx * PAGE_SIZE);
      n := n + 1;
    }
    assert blk[..n] == all;
  }

  lemma MapMarksSnoc(descs: seq<Efi.MemDesc>, j: int, p: int)
    requires 0 <= j < |descs|
    ensures MapMarks(descs[..j + 1], p) <==> MapMarks(descs[..j], p) || DescMarks(descs[j], p)
  {
    if MapMarks(descs[..j + 1], p) {
      var k :| 0 <= k < j + 1 && DescMarks(descs[..j + 1][k], p);
      if k < j { assert descs[..j][k] == descs[k]; }
    }
    if MapMarks(descs[..j], p) {
      var k :| 0 <= k < j && DescMarks(descs[..j][k], p);
      assert descs[..j + 1][k] == descs[k];
    }
    if DescMarks(descs[j], p) {
      assert descs[..j + 1][j] == descs[j];
    }
  }

  /**
   * The memory-map pass of bmem_init: every page a loader, boot services or
   * conventional descriptor below BMEM_MAX_ADDR covers is marked, with the
   * end index truncated to 32 bits as the source computes it.
   */
  method MarkMemMap(avail: array<bool>, descs: seq<Efi.MemDesc>)
    requires avail.Length == NPAGES
    modifies avail
    ensures avail[..] == MarkDescs(old(avail[..]), descs)
  {
    var j := 0;
    while j < |descs|
      invariant 0 <= j <= |descs|
      invariant forall p :: 0 <= p < NPAGES ==> avail[p] == (old(avail[p]) || MapMarks(descs[..j], p))
    {
      var d := descs[j];
      ghost var before := avail[..];
      if Efi.FreedAtExit(d.typ) && d.physStart < BMEM_MAX_ADDR {
        var idx := d.physStart / PAGE_SIZE;
        var endIdx := (idx + d.numPages) % U32_MOD;
        if endIdx > NPAGES {
          endIdx := NPAGES;
        }
        while idx < endIdx
          invariant d.physStart / PAGE_SIZE <= idx
          invariant idx <= endIdx || idx == d.physStart / PAGE_SIZE
          invariant forall p :: 0 <= p < NPAGES ==> avail[p] == (before[p] || d.physStart / PAGE_SIZE <= p < idx)
        {
          avail[idx] := true;
          idx := idx + 1;
        }
      }
      forall p | 0 <= p < NPAGES ensures avail[p] == (old(avail[p]) || MapMarks(descs[..j + 1], p)) {
        MapMarksSnoc(descs, j, p);
      }
      j := j + 1;
    }
    assert descs[..j] == descs;
    assert forall p :: 0 <= p < NPAGES ==> avail[..][p] == MarkDescs(old(avail[..]), descs)[p];
  }

  // ---------------------------------------------------------------------
  // The allocator's state

  function Min(a: int, b: int): int
  {
    if a <= b then a else b
  }

  function Max(a: int, b: int): int
  {
    if a >= b then a else b
  }

  /**
   * The allocator's whole state is sound: the bookkeeping is consistent,
   * run-time regions lie at or above the run-time top and boot-time ones
   * at or below the boot-time bottom.
   */
  ghost predicate ValidState(t: seq<Block>, init: seq<Block>, runtime: set<Block>, boottime: set<Block>, bot: int, top: int)
  {
    Consistent(t, init, runtime + boottime) &&
    (forall r :: r in runtime ==> top <= r.start) &&
    (forall r :: r in boottime ==> r.end <= bot) &&
    PAGE_SIZE <= bot <= BMEM_MAX_ADDR && 0 <= top <= BMEM_MAX_ADDR
  }

  /** Right after start-up nothing is handed out and every block is an initial one. */
  lemma InitialValid(t: seq<Block>, init: seq<Block>, runtime: set<Block>, boottime: set<Block>, bot: int, top: int)
    requires Ordered(t) && init == t && runtime == {} && boottime == {}
    requires bot == PAGE_SIZE && 0 <= top <= BMEM_MAX_ADDR
    ensures ValidState(t, init, runtime, boottime, bot, top)
  {
    forall i | 0 <= i < |t| ensures InsideSome(t[i], t) {
      assert Within(t[i], t[i]);
    }
  }

  /** A run-time allocation r carved from block i keeps the state sound. */
  lemma RuntimeTakeKeepsValid(t: seq<Block>, init: seq<Block>, runtime: set<Block>, boottime: set<Block>,
                              bot: int, top: int, i: int, nb: Block, r: Block,
                              t': seq<Block>, runtime': set<Block>, top': int)
    requires ValidState(t, init, runtime, boottime, bot, top) && 0 <= i < |t|
    requires r.start <= r.end && Within(r, t[i]) && Within(nb, t[i]) && Apart(r, nb)
    requires t' == Take(t, i, nb) && runtime' == runtime + {r} && top' == Min(top, r.start)
    ensures ValidState(t', init, runtime', boottime, bot, top')
  {
    TakeKeepsConsistent(t, init, runtime + boottime, i, nb, r);
    assert runtime + {r} + boottime == runtime + boottime + {r};
  }

  /** A boot-time allocation r carved from block i keeps the state sound. */
  lemma BoottimeTakeKeepsValid(t: seq<Block>, init: seq<Block>, runtime: set<Block>, boottime: set<Block>,
                               bot: int, top: int, i: int, nb: Block, r: Block,
                               t': seq<Block>, boottime': set<Block>, bot': int)
    requires ValidState(t, init, runtime, boottime, bot, top) && 0 <= i < |t|
    requires r.start <= r.end && Within(r, t[i]) && Within(nb, t[i]) && Apart(r, nb)
    requires t' == Take(t, i, nb) && boottime' == boottime + {r} && bot' == Max(bot, r.end)
    ensures ValidState(t', init, runtime, boottime', bot', top)
  {
    TakeKeepsConsistent(t, init, runtime + boottime, i, nb, r);
    assert t[i].end <= BMEM_MAX_ADDR;
    assert runtime + (boottime + {r}) == runtime + boottime + {r};
  }

  /**
   * The memory-map pass and the final count of bmem_init: the number of
   * pages from page 0 that are grabbed or will be freed at exit.
   */
  method RuntimePages(avail: array<bool>, descs: seq<Efi.MemDesc>) returns (n: int)
    requires avail.Length == NPAGES
    modifies avail
    ensures n == RunFromZero(MarkDescs(old(avail[..]), descs))
  {
    MarkMemMap(avail, descs);
    n := CountFromZero(avail);
  }

  /**
   * The allocator: the table of free blocks blk[0 .. numBlks), the boot-time
   * bottom and the run-time top.  The ghost fields record the table right
   * after start-up and the regions handed out so far.
   */
  class BaseMemory {
    var blk: array<Block>
    var numBlks: int
    var boottimeBot: int
    var runtimeTop: int
    ghost var initBlocks: seq<Block>
    ghost var runtimeRegions: set<Block>
    ghost var boottimeRegions: set<Block>

    ghost predicate Valid()
      reads this, blk
    {
      blk.Length == MAX_BMEM_BLKS && 0 <= numBlks <= MAX_BMEM_BLKS &&
      ValidState(blk[..numBlks], initBlocks, runtimeRegions, boottimeRegions, boottimeBot, runtimeTop)
    }

    /** The free blocks, in ascending order. */
    function Table(): seq<Block>
      reads this`blk, this`numBlks, blk
      requires 0 <= numBlks <= blk.Length
    {
      blk[..numBlks]
    }

    /** The statics of bmem.c as the program image defines them. */
    constructor ()
      ensures Valid() && fresh(blk)
      ensures numBlks == 0 && boottimeBot == PAGE_SIZE && runtimeTop == 0
      ensures initBlocks == [] && runtimeRegions == {} && boottimeRegions == {}
    {
      blk := new Block[MAX_BMEM_BLKS](_ => Block(0, 0));
      numBlks := 0;
      boottimeBot := PAGE_SIZE;
      runtimeTop := 0;
      initBlocks := [];
      runtimeRegions := {};
      boottimeRegions := {};
    }

    /**
     * bmem_init.  The firmware owns the pages in `free` and reports `descs`
     * as its memory map.  The free blocks become the maximal runs of
     * grabbed pages; the run-time top becomes the length of the run of
     * pages from 0 that are grabbed or freed when boot services exit.
     * ok is false where the source stops with a fatal error.
     */
    method Init(free: set<int>, descs: seq<Efi.MemDesc>) returns (ok: bool)
      requires Valid() && numBlks == 0 && boottimeBot == PAGE_SIZE
      requires runtimeRegions == {} && boottimeRegions == {}
      requires forall p :: p in free ==> 0 <= p < NPAGES
      modifies this, blk
      ensures blk == old(blk) && boottimeBot == old(boottimeBot) && 0 <= numBlks <= MAX_BMEM_BLKS
      ensures Table() == Group(FreeBitmap(free), 1, BMEM_MAX_ADDR)
      ensures ok <==> RunFromZero(MarkedBitmap(free, descs)) * PAGE_SIZE >= MIN_RUNTIME_TOP
      ensures ok ==> Valid() && initBlocks == Table() && runtimeRegions == {} && boottimeRegions == {}
      ensures ok ==> runtimeTop == RunFromZero(MarkedBitmap(free, descs)) * PAGE_SIZE
    {
      var avail := GrabPages(free);
      numBlks := GroupBlocks(avail[..], blk);
      GroupOrdered(avail[..]);
      initBlocks := blk[..numBlks];
      var idx := RuntimePages(avail, descs);
      assert blk[..numBlks] == initBlocks;
      if idx < MIN_RUNTIME_TOP / PAGE_SIZE {
        return false;
      }
      runtimeTop := idx * PAGE_SIZE;
      ok := EnoughBaseMem(boottimeBot, runtimeTop);
      assert ok;
      InitialValid(blk[..numBlks], initBlocks, runtimeRegions, boottimeRegions, boottimeBot, runtimeTop);
    }

    /** Drop block i, moving the blocks above it down by one. */
    method RemoveBlock(i: int)
      requires 0 <= i < numBlks <= blk.Length
      modifies this`numBlks, blk
      ensures numBlks == old(numBlks) - 1
      ensures Table() == old(Table()[..i] + Table()[i + 1..])
    {
      var j := i;
      while j < numBlks - 1
        modifies blk
        invariant i <= j <= numBlks - 1
        invariant forall m :: 0 <= m < i ==> blk[m] == old(blk[m])
        invariant forall m :: i <= m < j ==> blk[m] == old(blk[m + 1])
        invariant forall m :: j <= m < numBlks ==> blk[m] == old(blk[m])
      {
        blk[j] := blk[j + 1];
        j := j + 1;
      }
      numBlks := numBlks - 1;
    }

    /**
     * Shrink block i to nb, or drop it when nb is empty, as both
     * allocators do once they have placed a request in block i.
     */
    method Carve(i: int, nb: Block)
      requires 0 <= i < numBlks <= blk.Length
      modifies this`numBlks, blk
      ensures 0 <= numBlks <= old(numBlks)
      ensures Table() == Take(old(Table()), i, nb)
    {
      ghost var t := Table();
      if nb.start < nb.end {
        blk[i] := nb;
        assert Table() == t[i := nb];
      } else {
        RemoveBlock(i);
      }
    }

    /** The search loop of bmem_alloc, from the highest block down. */
    method FindHighest(size: int, align: int) returns (r: Option<(int, int)>)
      requires 0 <= numBlks <= blk.Length && Ordered(Table()) && 0 <= size && IsPow2(align)
      ensures r == HighestBelow(Table(), numBlks, size, align)
    {
      ghost var t := Table();
      var k := numBlks;
      while k != 0
        invariant 0 <= k <= numBlks
        invariant HighestBelow(t, numBlks, size, align) == HighestBelow(t, k, size, align)
      {
        k := k - 1;
        var b := blk[k];
        assert b == t[k];
        if b.end - b.start < size {
          continue;
        }
        var a := AlignDown(b.end - size, align);
        if a < b.start {
          continue;
        }
        return Some((k, a));
      }
      return None;
    }

    /** The search loop of bmem_alloc_boottime, from the lowest block up. */
    method FindLowest(size: int, align: int) returns (r: Option<(int, int)>)
      requires 0 <= numBlks <= blk.Length && Ordered(Table()) && 0 <= size && IsPow2(align)
      ensures r == LowestFrom(Table(), 0, size, align)
    {
      ghost var t := Table();
      var k := 0;
      while k < numBlks
        invariant 0 <= k <= numBlks
        invariant LowestFrom(t, 0, size, align) == LowestFrom(t, k, size, align)
      {
        var b := blk[k];
        assert b == t[k];
        if b.end - b.start < size {
          k := k + 1;
          continue;
        }
        var a := AlignUp(b.start, align);
        if a > b.end {
          k := k + 1;
          continue;
        }
        if b.end - a < size {
          k := k + 1;
          continue;
        }
        return Some((k, a));
      }
      return None;
    }

    /** The success path of bmem_alloc: `size` bytes at a, from the top of block k. */
    method CommitRuntime(k: int, a: int, size: int)
      requires Valid() && 0 <= k < numBlks && 0 <= size
      requires Table()[k].start <= a && a + size <= Table()[k].end
      modifies this, blk
      ensures Valid() && blk == old(blk) && initBlocks == old(initBlocks)
      ensures boottimeBot == old(boottimeBot) && boottimeRegions == old(boottimeRegions)
      ensures Table() == Take(old(Table()), k, Block(old(Table())[k].start, a))
      ensures runtimeTop == Min(old(runtimeTop), a)
      ensures runtimeRegions == old(runtimeRegions) + {Block(a, a + size)}
    {
      var b := blk[k];
      var nb := Block(b.start, a);
      ghost var r := Block(a, a + size);
      ghost var t, runtime, top := Table(), runtimeRegions, runtimeTop;
      if runtimeTop > a {
        runtimeTop := a;
      }
      Carve(k, nb);
      runtimeRegions := runtimeRegions + {r};
      RuntimeTakeKeepsValid(t, initBlocks, runtime, boottimeRegions, boottimeBot, top, k, nb, r,
                            blk[..numBlks], runtimeRegions, runtimeTop);
    }

    /** The success path of bmem_alloc_boottime: `size` bytes at a, from the bottom of block k. */
    method CommitBoottime(k: int, a: int, size: int)
      requires Valid() && 0 <= k < numBlks && 0 <= size
      requires Table()[k].start <= a && a + size <= Table()[k].end
      modifies this, blk
      ensures Valid() && blk == old(blk) && initBlocks == old(initBlocks)
      ensures runtimeTop == old(runtimeTop) && runtimeRegions == old(runtimeRegions)
      ensures Table() == Take(old(Table()), k, Block(a + size, old(Table())[k].end))
      ensures boottimeBot == Max(old(boottimeBot), a + size)
      ensures boottimeRegions == old(boottimeRegions) + {Block(a, a + size)}
    {
      var b := blk[k];
      var aEnd := a + size;
      var nb := Block(aEnd, b.end);
      ghost var r := Block(a, aEnd);
      ghost var t, boottime, bot := Table(), boottimeRegions, boottimeBot;
      if boottimeBot < aEnd {
        boottimeBot := aEnd;
      }
      Carve(k, nb);
      boottimeRegions := boottimeRegions + {r};
      BoottimeTakeKeepsValid(t, initBlocks, runtimeRegions, boottime, bot, runtimeTop, k, nb, r,
                             blk[..numBlks], boottimeRegions, boottimeBot);
    }

    /**
     * bmem_alloc: take `size` bytes aligned to `align` from the top of the
     * highest free block that has room, and lower the run-time top to
     * them.  ok is false where the source stops with a fatal error.
     */
    method Alloc(size: int, align: int) returns (ok: bool, addr: int)
      requires Valid() && 0 <= size < U64_MOD && IsPow2(align) && align < U32_MOD
      modifies this, blk
      ensures Valid() && blk == old(blk) && initBlocks == old(initBlocks)
      ensures boottimeBot == old(boottimeBot) && boottimeRegions == old(boottimeRegions)
      ensures var r := HighestBelow(old(Table()), old(numBlks), size, align);
        ok == r.Some? &&
        (ok ==>
          addr == r.value.1 &&
          Table() == Take(old(Table()), r.value.0, Block(old(Table())[r.value.0].start, addr)) &&
          runtimeTop == Min(old(runtimeTop), addr) &&
          runtimeRegions == old(runtimeRegions) + {Block(addr, addr + size)})
      ensures !ok ==> Table() == old(Table()) && runtimeTop == old(runtimeTop) && runtimeRegions == old(runtimeRegions)
    {
      var found := FindHighest(size, align);
      if found.None? {
        return false, 0;
      }
      CommitRuntime(found.value.0, found.value.1, size);
      return true, found.value.1;
    }

    /**
     * bmem_alloc_boottime: take `size` bytes aligned to `align` from the
     * bottom of the lowest free block that has room, and raise the
     * boot-time bottom past them.  ok is false where the source stops with
     * a fatal error: no block has room, or the first one that does places
     * the bytes at or above the run-time top.
     */
    method AllocBoottime(size: int, align: int) returns (ok: bool, addr: int)
      requires Valid() && 0 <= size < U64_MOD && IsPow2(align) && align < U32_MOD
      modifies this, blk
      ensures Valid() && blk == old(blk) && initBlocks == old(initBlocks)
      ensures runtimeTop == old(runtimeTop) && runtimeRegions == old(runtimeRegions)
      ensures var r := LowestFrom(old(Table()), 0, size, align);
        ok == (r.Some? && r.value.1 < old(runtimeTop)) && (ok ==> addr == r.value.1) &&
        (ok ==> TookBottom(old(Table()), old(boottimeBot), old(boottimeRegions), r.value.0, addr, size,
                           Table(), boottimeBot, boottimeRegions))
      ensures !ok ==> Table() == old(Table()) && boottimeBot == old(boottimeBot) && boottimeRegions == old(boottimeRegions)
    {
      ghost var t0, bot0, regions0 := Table(), boottimeBot, boottimeRegions;
      var found := FindLowest(size, align);
      if found.None? || found.value.1 >= runtimeTop {
        return false, 0;
      }
      var k, a := found.value.0, found.value.1;
      assert t0 == old(Table()) && found == LowestFrom(t0, 0, size, align);
      CommitBoottime(k, a, size);
      assert Table() == Take(t0, k, Block(a + size, t0[k].end));
      assert boottimeBot == Max(bot0, a + size);
      assert boottimeRegions == regions0 + {Block(a, a + size)};
      assert TookBottom(t0, bot0, regions0, k, a, size, Table(), boottimeBot, boottimeRegions);
      return true, a;
    }

    /**
     * bmem_fini: round the boot-time bottom up to a paragraph and the
     * run-time top down to a KiB, then check that enough memory remains.
     * On success the scratch area [bot, top) overlaps nothing handed out.
     */
    method Fini() returns (ok: bool, bot: int, top: int)
      requires Valid()
      modifies this
      ensures Valid() && Table() == old(Table())
      ensures boottimeBot == AlignUp(old(boottimeBot), PARA_SIZE)
      ensures runtimeTop == AlignDown(old(runtimeTop), KIBYTE)
      ensures unchanged(this`runtimeRegions, this`boottimeRegions, this`initBlocks, this`blk, this`numBlks)
      ensures ok == EnoughBaseMem(boottimeBot, runtimeTop)
      ensures ok ==> bot == boottimeBot && top == runtimeTop && bot + BOOT_SCRATCH <= top
      ensures ok ==> forall r :: r in runtimeRegions + boottimeRegions ==> Apart(r, Block(bot, top))
    {
      AlignUpLeast(boottimeBot, PARA_SIZE, BMEM_MAX_ADDR);
      boottimeBot := AlignUp(boottimeBot, PARA_SIZE);
      runtimeTop := AlignDown(runtimeTop, KIBYTE);
      ok := EnoughBaseMem(boottimeBot, runtimeTop);
      bot, top := boottimeBot, runtimeTop;
      if ok {
        forall r | r in runtimeRegions + boottimeRegions ensures Apart(r, Block(bot, top)) {
          if r in runtimeRegions { assert top <= r.start; } else { assert r.end <= bot; }
        }
      }
    }
  }
}
