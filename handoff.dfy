/**
 * The last thing the UEFI stage 1 loader does before it leaves the
 * firmware (stage1/main.c, prepare_to_hand_over): describe extended
 * memory to stage 2 as E820 ranges (ACPI 6.x section 15.1), then close
 * the base-memory allocator and hand its bounds over.
 */
module Handoff {
  import opened Common
  import opened Efi
  import opened Bmem

  /** E820 address range types (ACPI 6.x section 15.1, table "Address Range Types"). */
  const E820_RAM: int := 1
  const E820_RESERVED: int := 2
  const E820_ACPI: int := 3
  const E820_NVS: int := 4
  const E820_PMEM: int := 7

  /** One range handed to stage 2: base, length, type, extended attributes, UEFI attributes. */
  datatype E820Range = E820Range(start: u64, len: u64, typ: int, extAttr: int, attr: u64)

  /** The E820 type a UEFI memory type is reported as. */
  function E820Type(typ: int): (t: int)
    ensures t == E820_RAM <==> FreedAtExit(typ)
    ensures t == E820_ACPI <==> typ == EfiACPIReclaimMemory
    ensures t == E820_NVS <==> typ == EfiACPIMemoryNVS
    ensures t == E820_PMEM <==> typ == EfiPersistentMemory
    ensures t == E820_RESERVED <==>
      !FreedAtExit(typ) && typ !in {EfiACPIReclaimMemory, EfiACPIMemoryNVS, EfiPersistentMemory}
  {
    if typ in {EfiLoaderCode, EfiLoaderData, EfiBootServicesCode, EfiBootServicesData,
               EfiConventionalMemory} then E820_RAM
    else if typ == EfiACPIReclaimMemory then E820_ACPI
    else if typ == EfiACPIMemoryNVS then E820_NVS
    else if typ == EfiPersistentMemory then E820_PMEM
    else E820_RESERVED
  }

  /**
   * A descriptor is left out when it ends at or below BMEM_MAX_ADDR; an end
   * that wrapped to 0 does not count as low, so such a descriptor is kept.
   */
  predicate Skipped(d: MemDesc)
  {
    DescEnd(d) <= BMEM_MAX_ADDR && DescEnd(d) != 0
  }

  /**
   * The range a kept descriptor becomes: its start clipped up to
   * BMEM_MAX_ADDR, its length end - start in 64-bit arithmetic.
   */
  function ToRange(d: MemDesc): (r: E820Range)
    ensures r.start == Max(d.physStart, BMEM_MAX_ADDR)
    ensures (r.start + r.len) % U64_MOD == DescEnd(d)
    ensures r.typ == E820Type(d.typ) && r.extAttr == 1 && r.attr == d.attr
  {
    var start := if d.physStart < BMEM_MAX_ADDR then BMEM_MAX_ADDR else d.physStart;
    E820Range(start, (DescEnd(d) - start) % U64_MOD, E820Type(d.typ), 1, d.attr)
  }

  /** The ranges reported for a memory map, as a reference definition. */
  function E820Map(descs: seq<MemDesc>): (rs: seq<E820Range>)
    ensures |rs| <= |descs|
  {
    if |descs| == 0 then []
    else (if Skipped(descs[0]) then [] else [ToRange(descs[0])]) + E820Map(descs[1..])
  }

  /** The descriptor loop of prepare_to_hand_over. */
  method ConvertMemoryMap(descs: seq<MemDesc>) returns (ranges: seq<E820Range>)
    ensures ranges == E820Map(descs)
  {
    ranges := [];
    var i := 0;
    while i < |descs|
      invariant 0 <= i <= |descs|
      invariant ranges + E820Map(descs[i..]) == E820Map(descs)
    {
      var d := descs[i];
      assert descs[i..][1..] == descs[i + 1..];
      assert E820Map(descs[i..]) ==
        (if Skipped(d) then [] else [ToRange(d)]) + E820Map(descs[i + 1..]);
      if DescEnd(d) <= BMEM_MAX_ADDR && DescEnd(d) != 0 {
        i := i + 1;
        continue;
      }
      var start := d.physStart;
      if start < BMEM_MAX_ADDR {
        start := BMEM_MAX_ADDR;
      }
      var r := E820Range(start, (DescEnd(d) - start) % U64_MOD, E820Type(d.typ), 1, d.attr);
      assert r == ToRange(d);
      ranges := ranges + [r];
      i := i + 1;
    }
    assert descs[i..] == [];
  }

  /**
   * A range is reported exactly when some descriptor is kept and becomes
   * it; so every reported range lies at or above BMEM_MAX_ADDR and carries
   * extended attribute 1.
   */
  lemma {:induction false} E820MapMembers(descs: seq<MemDesc>, r: E820Range)
    ensures r in E820Map(descs) <==> exists d :: d in descs && !Skipped(d) && r == ToRange(d)
    ensures r in E820Map(descs) ==> r.start >= BMEM_MAX_ADDR && r.extAttr == 1
    decreases |descs|
  {
    if |descs| > 0 {
      E820MapMembers(descs[1..], r);
      assert descs == [descs[0]] + descs[1..];
      if r in E820Map(descs[1..]) {
        var d :| d in descs[1..] && !Skipped(d) && r == ToRange(d);
        assert d in descs;
      }
      if exists d :: d in descs && !Skipped(d) && r == ToRange(d) {
        var d :| d in descs && !Skipped(d) && r == ToRange(d);
        if d != descs[0] {
          assert d in descs[1..];
        }
      }
    }
  }

  /**
   * A kept descriptor that does not wrap is reported as exactly the part
   * of it above BMEM_MAX_ADDR.
   */
  lemma KeptRangeIsUpperPart(d: MemDesc)
    requires d.physStart + d.numPages * PAGE_SIZE < U64_MOD && !Skipped(d)
    requires d.physStart + d.numPages * PAGE_SIZE > 0
    ensures ToRange(d).start == Max(d.physStart, BMEM_MAX_ADDR)
    ensures ToRange(d).start + ToRange(d).len == d.physStart + d.numPages * PAGE_SIZE
  {
    var r := ToRange(d);
    assert DescEnd(d) > BMEM_MAX_ADDR;
    assert r.start <= DescEnd(d);
    assert 0 <= DescEnd(d) - r.start < U64_MOD;
  }

  /** The bounds stage 2 gets in the BP_BMEM record, before conversion to real-mode segments. */
  datatype BmemBounds = BmemBounds(boottimeBot: int, runtimeTop: int)

  /**
   * prepare_to_hand_over, model of its memory part: the E820 ranges, then
   * the base-memory allocator is closed (bmem_fini) and its bounds are
   * recorded; the result is the run-time top in KiB. A failed margin
   * check is fatal (ok false).
   */
  method PrepareToHandOver(bm: BaseMemory, descs: seq<MemDesc>)
    returns (ok: bool, ranges: seq<E820Range>, bounds: BmemBounds, baseKib: int)
    requires bm.Valid()
    modifies bm
    ensures ranges == E820Map(descs)
    ensures bm.Valid() && bm.Table() == old(bm.Table())
    ensures bm.boottimeBot == AlignUp(old(bm.boottimeBot), PARA_SIZE)
    ensures bm.runtimeTop == AlignDown(old(bm.runtimeTop), KIBYTE)
    ensures ok == EnoughBaseMem(bm.boottimeBot, bm.runtimeTop)
    ensures ok ==> bounds == BmemBounds(bm.boottimeBot, bm.runtimeTop)
    ensures ok ==> baseKib * KIBYTE == bm.runtimeTop
  {
    ranges := ConvertMemoryMap(descs);
    var bot, top;
    ok, bot, top := bm.Fini();
    if !ok {
      return false, ranges, BmemBounds(0, 0), 0;
    }
    bounds := BmemBounds(bot, top);
    baseKib := top / KIBYTE;
  }
}
