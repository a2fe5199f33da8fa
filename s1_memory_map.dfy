/**
 * How the legacy stage 1 loader measures base memory (s1-main.c,
 * process_memory_map): every page below BASE_MEM_MAX that some descriptor
 * of a type freed at ExitBootServices touches is marked available, and the
 * base memory size is the run of available pages from address 0, in KiB.
 */
module S1MemoryMap {
  import opened Common
  import opened Efi

  const BASE_MEM_MAX: int := 0xff000
  /** Entries in the avail[] bitmap, one per page below BASE_MEM_MAX. */
  const NAVAIL: int := BASE_MEM_MAX / PAGE_SIZE
  /** Less base memory than this is fatal. */
  const MIN_BASE_KIB: int := 128

  /**
   * Descriptor d marks page p: the inner loop visits start, start + 4 KiB,
   * ... while below both the descriptor's 64-bit end and BASE_MEM_MAX, and
   * marks the page each visited address falls in.
   */
  predicate MarksPage(d: MemDesc, p: int)
  {
    FreedAtExit(d.typ) && d.physStart < BASE_MEM_MAX &&
    d.physStart / PAGE_SIZE <= p &&
    d.physStart + (p - d.physStart / PAGE_SIZE) * PAGE_SIZE < DescEnd(d) &&
    d.physStart + (p - d.physStart / PAGE_SIZE) * PAGE_SIZE < BASE_MEM_MAX
  }

  /** Some descriptor of the map marks page p. */
  predicate MarkedBy(descs: seq<MemDesc>, p: int)
  {
    |descs| > 0 && (MarkedBy(descs[..|descs| - 1], p) || MarksPage(descs[|descs| - 1], p))
  }

  /** The avail[] bitmap after the descriptor loop, as a reference definition. */
  function Avail(descs: seq<MemDesc>): (a: seq<bool>)
    ensures |a| == NAVAIL
  {
    seq(NAVAIL, p requires 0 <= p < NAVAIL => MarkedBy(descs, p))
  }

  /** The inner loop of process_memory_map for one descriptor. */
  method MarkDescriptor(avail: array<bool>, d: MemDesc)
    requires avail.Length == NAVAIL
    modifies avail
    ensures forall p :: 0 <= p < NAVAIL ==> avail[p] == (old(avail[p]) || MarksPage(d, p))
  {
    var start := d.physStart;
    if start < BASE_MEM_MAX && FreedAtExit(d.typ) {
      var end := DescEnd(d);
      ghost var first := d.physStart / PAGE_SIZE;
      ghost var k := 0;
      while start < end && start < BASE_MEM_MAX
        invariant start == d.physStart + k * PAGE_SIZE && k >= 0
        invariant forall p :: 0 <= p < NAVAIL ==> avail[p] == (old(avail[p]) || first <= p < first + k)
        invariant forall p :: first <= p < first + k ==> MarksPage(d, p)
        decreases BASE_MEM_MAX - start
      {
        assert start / PAGE_SIZE == first + k;
        avail[start / PAGE_SIZE] := true;
        start := start + PAGE_SIZE;
        k := k + 1;
      }
    }
  }

  /**
   * process_memory_map: an empty memory map and less than 128 KiB of base
   * memory are fatal (ok false); otherwise the result is the size in KiB of
   * the run of marked pages from address 0.
   */
  method ProcessMemoryMap(descs: seq<MemDesc>) returns (ok: bool, baseKib: int)
    ensures ok <==> |descs| > 0 && baseKib >= MIN_BASE_KIB
    ensures |descs| > 0 ==> baseKib == 4 * RunFromZero(Avail(descs))
    ensures |descs| > 0 ==> forall p :: 0 <= p < baseKib / 4 ==> MarkedBy(descs, p)
    ensures |descs| > 0 && baseKib / 4 < NAVAIL ==> !MarkedBy(descs, baseKib / 4)
  {
    if |descs| == 0 {
      return false, 0;
    }
    var avail := new bool[NAVAIL](_ => false);
    var i := 0;
    while i < |descs|
      invariant 0 <= i <= |descs|
      invariant forall p :: 0 <= p < NAVAIL ==> avail[p] == MarkedBy(descs[..i], p)
    {
      MarkDescriptor(avail, descs[i]);
      assert descs[..i + 1][..i] == descs[..i];
      i := i + 1;
    }
    assert descs[..i] == descs;
    assert avail[..] == Avail(descs);
    var n := CountFromZero(avail);
    baseKib := (n * PAGE_SIZE) / 1024;
    ok := baseKib >= MIN_BASE_KIB;
  }

  /** A page is marked exactly when some descriptor of the map marks it. */
  lemma {:induction false} MarkedByMembers(descs: seq<MemDesc>, p: int)
    ensures MarkedBy(descs, p) <==> exists d :: d in descs && MarksPage(d, p)
    decreases |descs|
  {
    if |descs| > 0 {
      var init := descs[..|descs| - 1];
      MarkedByMembers(init, p);
      assert descs == init + [descs[|descs| - 1]];
      if exists d :: d in descs && MarksPage(d, p) {
        var d :| d in descs && MarksPage(d, p);
        if d != descs[|descs| - 1] {
          assert d in init;
        }
      }
    }
  }

  /**
   * For a page-aligned descriptor (as UEFI requires of PhysicalStart), the
   * pages it marks are exactly the whole pages below BASE_MEM_MAX that lie
   * inside its 64-bit range, if its type is freed at ExitBootServices.
   */
  lemma MarksWholePages(d: MemDesc, p: int)
    requires d.physStart % PAGE_SIZE == 0 && 0 <= p < NAVAIL
    ensures MarksPage(d, p) <==>
      FreedAtExit(d.typ) && d.physStart <= p * PAGE_SIZE && (p + 1) * PAGE_SIZE <= DescEnd(d)
  {
    var first := d.physStart / PAGE_SIZE;
    assert d.physStart == first * PAGE_SIZE;
    var e := DescEnd(d);
    assert e % PAGE_SIZE == 0 by {
      var q := (d.physStart + d.numPages * PAGE_SIZE) / U64_MOD;
      assert d.physStart + d.numPages * PAGE_SIZE == q * U64_MOD + e;
      assert e == (first + d.numPages - q * (U64_MOD / PAGE_SIZE)) * PAGE_SIZE;
    }
    if d.physStart <= p * PAGE_SIZE {
      assert d.physStart + (p - first) * PAGE_SIZE == p * PAGE_SIZE;
      if p * PAGE_SIZE < e {
        assert e / PAGE_SIZE > p;
        assert e == (e / PAGE_SIZE) * PAGE_SIZE;
      }
    }
  }
}
