/**
 * The program-header loop of the two stage 1 loaders (stage1/main.c and
 * s1-main.c, load_stage2). Both load every PT_LOAD segment at its
 * physical address with pages allocated at that address, read the file
 * part and zero the rest; on a bad header or a failed allocation they
 * call free_stage2_mem, which as written frees header 0's page count at
 * the p_paddr of every earlier header. They differ in two
 * ways: the UEFI stage 1 rounds each segment down to a page boundary
 * ("slack") and never reads zero bytes, the older loader does neither.
 */
module ElfSegments {
  import opened Common
  import opened Elf

  /** stage1/main.c, or the older s1-main.c. */
  datatype Loader = Stage1 | S1

  /**
   * read_stage2: must fill the whole buffer; in stage1/main.c a zero-size
   * request returns at once without touching the file.
   */
  function ReadStage2(l: Loader, file: seq<u8>, pos: int, size: nat): (r: Option<seq<u8>>)
    requires pos >= 0
    ensures l == Stage1 && size == 0 ==> r == Some([])
    ensures l == S1 || size > 0 ==> r == ReadExactly(file, pos, size)
  {
    if l == Stage1 && size == 0 then Some([]) else ReadExactly(file, pos, size)
  }

  /** What the loader allocates and reads for one header, Elf32_Word wrap-around kept. */
  datatype SegPlan = SegPlan(off: u32, paddr: int, filesz: u32, memsz: u32, pages: int)

  function Slack(p: Phdr): (s: int)
    ensures 0 <= s < PAGE_SIZE && (p.paddr - s) % PAGE_SIZE == 0
  {
    p.paddr % PAGE_SIZE
  }

  /**
   * In stage1/main.c the slack below paddr's page boundary comes off the
   * file offset and the address and is added to the memory size, and to
   * the file size only when that is nonzero. s1-main.c uses the header as
   * it is.
   */
  function Plan(l: Loader, p: Phdr): (s: SegPlan)
    ensures s.pages == PagesFor(s.memsz)
    ensures l == S1 ==> s.off == p.offset && s.paddr == p.paddr && s.filesz == p.filesz && s.memsz == p.memsz
  {
    if l == S1 then SegPlan(p.offset, p.paddr, p.filesz, p.memsz, PagesFor(p.memsz))
    else
      var slack := Slack(p);
      var memsz := (p.memsz + slack) % U32_MOD;
      SegPlan((p.offset - slack) % U32_MOD, p.paddr - slack,
              if p.filesz != 0 then (p.filesz + slack) % U32_MOD else 0,
              memsz, PagesFor(memsz))
  }

  /**
   * When the Elf32_Word arithmetic does not wrap, a stage1/main.c segment
   * starts on a page boundary, ends where the header's segment ends, is
   * covered by its pages, and keeps the file part inside the memory part.
   */
  lemma PlanCoversSegment(p: Phdr)
    requires p.filesz <= p.memsz && p.memsz + Slack(p) < U32_MOD
    requires p.filesz == 0 || p.offset >= Slack(p)
    ensures Plan(Stage1, p).paddr % PAGE_SIZE == 0 && 0 <= Plan(Stage1, p).paddr <= p.paddr
    ensures Plan(Stage1, p).paddr + Plan(Stage1, p).memsz == p.paddr + p.memsz
    ensures Plan(Stage1, p).pages * PAGE_SIZE >= Plan(Stage1, p).memsz
    ensures Plan(Stage1, p).filesz <= Plan(Stage1, p).memsz
    ensures p.filesz != 0 ==> Plan(Stage1, p).off + Plan(Stage1, p).filesz == p.offset + p.filesz
    ensures p.filesz != 0 ==> Plan(Stage1, p).paddr + Plan(Stage1, p).filesz == p.paddr + p.filesz
  {
  }

  /**
   * One segment once its pages are allocated: the file part read in, then
   * the rest up to memsz zeroed. stage1/main.c skips the seek and the read
   * when the file part is empty. None is a failed seek or read, which ends
   * the load fatally.
   */
  function SegEffects(l: Loader, file: seq<u8>, s: SegPlan): (r: Option<seq<Effect>>)
    ensures l == Stage1 && s.filesz == 0 ==> r.Some?
  {
    var z := Zero(s.paddr + s.filesz, (s.memsz - s.filesz) % U32_MOD);
    if l == Stage1 && s.filesz == 0 then Some([z])
    else match ReadStage2(l, file, s.off, s.filesz)
      case None => None
      case Some(d) => Some([Copy(s.paddr, d), z])
  }

  /** The older loader reads even an empty file part, so an offset past the end is fatal there. */
  lemma EmptyReadPastEnd(file: seq<u8>, s: SegPlan)
    requires s.filesz == 0 && s.off > |file|
    ensures SegEffects(S1, file, s).None? && SegEffects(Stage1, file, s).Some?
  {
  }

  lemma WrittenPair(c: Effect, z: Effect)
    requires c.Copy? && z.Zero? && z.len >= 0
    ensures Written([c, z]) == c.bytes + Zeros(z.len)
  {
    assert [c, z][1..] == [z];
    assert [z][1..] == [];
    assert Written([z]) == BytesOf(z) + Written([]);
    assert Written([c, z]) == BytesOf(c) + Written([z]);
  }

  /**
   * The bytes a loaded stage1/main.c segment lays down from its
   * page-aligned base are memsz' long; the part from the header's own
   * paddr on is the file's p_filesz bytes at p_offset followed by zeros up
   * to p_memsz.
   */
  lemma SegmentImage(file: seq<u8>, p: Phdr)
    requires p.filesz <= p.memsz && p.memsz + Slack(p) < U32_MOD
    requires p.filesz == 0 || p.offset >= Slack(p)
    requires SegEffects(Stage1, file, Plan(Stage1, p)).Some?
    ensures |Written(SegEffects(Stage1, file, Plan(Stage1, p)).value)| == Plan(Stage1, p).memsz
    ensures p.filesz == 0 ==> Written(SegEffects(Stage1, file, Plan(Stage1, p)).value) == Zeros(Plan(Stage1, p).memsz)
    ensures p.filesz != 0 ==>
      Written(SegEffects(Stage1, file, Plan(Stage1, p)).value)[Slack(p)..] ==
        file[p.offset..p.offset + p.filesz] + Zeros(p.memsz - p.filesz)
  {
    var s := Plan(Stage1, p);
    var e := SegEffects(Stage1, file, s).value;
    PlanCoversSegment(p);
    var z := Zero(s.paddr + s.filesz, s.memsz - s.filesz);
    if s.filesz != 0 {
      var d := ReadStage2(Stage1, file, s.off, s.filesz).value;
      assert e == [Copy(s.paddr, d), z];
      WrittenPair(Copy(s.paddr, d), z);
      CopiedTail(file, p, d, Zeros(s.memsz - s.filesz));
    } else {
      assert e == [z];
      assert [z][1..] == [];
    }
  }

  lemma CopiedTail(file: seq<u8>, p: Phdr, d: seq<u8>, z: seq<u8>)
    requires p.offset >= Slack(p) && 0 < p.filesz <= p.memsz
    requires p.offset + p.filesz <= |file|
    requires d == file[p.offset - Slack(p)..p.offset + p.filesz]
    requires z == Zeros(p.memsz - p.filesz)
    ensures (d + z)[Slack(p)..] == file[p.offset..p.offset + p.filesz] + Zeros(p.memsz - p.filesz)
  {
    assert (d + z)[Slack(p)..] == d[Slack(p)..] + z;
  }

  /**
   * A loaded s1-main.c segment holds, from p_paddr on, the file's
   * p_filesz bytes at p_offset followed by zeros up to p_memsz.
   */
  lemma SegmentImageS1(file: seq<u8>, p: Phdr)
    requires p.filesz <= p.memsz
    requires SegEffects(S1, file, Plan(S1, p)).Some?
    ensures Written(SegEffects(S1, file, Plan(S1, p)).value) ==
      file[p.offset..p.offset + p.filesz] + Zeros(p.memsz - p.filesz)
  {
    var s := Plan(S1, p);
    var d := ReadStage2(S1, file, s.off, s.filesz).value;
    WrittenPair(Copy(s.paddr, d), Zero(s.paddr + s.filesz, s.memsz - s.filesz));
  }

  /** The file and program headers load_stage2 reaches its loop with, trying `names` in order; None if it stops before. */
  function LoopInput(l: Loader, names: seq<string>, volume: map<string, seq<u8>>): (r: Option<(seq<u8>, seq<Phdr>)>)
  {
    match FirstOpenable(names, volume.Keys)
    case None => None
    case Some(k) =>
      var file := volume[names[k]];
      match ReadStage2(l, file, 0, EHDR_SIZE)
      case None => None
      case Some(hb) =>
        var h := DecodeEhdr(hb);
        if !HeaderOk(h) then None
        else match ReadStage2(l, file, h.phoff, h.phnum * PHDR_SIZE)
          case None => None
          case Some(pb) => Some((file, DecodePhdrs(pb, h.phnum)))
  }

  /** How the program-header loop ends. */
  datatype LoopEnd = AllLoaded | Rejected(at: nat) | Failed(at: nat)

  /**
   * The page ranges the loop allocates for headers lo..hi-1, in order:
   * one per PT_LOAD header, as its plan says.
   */
  function AllocPlan(l: Loader, phdrs: seq<Phdr>, lo: nat, hi: nat): (r: seq<(int, int)>)
    requires lo <= hi <= |phdrs|
    decreases hi - lo
  {
    if lo == hi then []
    else if phdrs[lo].ptype != PT_LOAD then AllocPlan(l, phdrs, lo + 1, hi)
    else [(Plan(l, phdrs[lo]).paddr, Plan(l, phdrs[lo]).pages)] + AllocPlan(l, phdrs, lo + 1, hi)
  }

  /**
   * free_stage2_mem(phdrs, n) as evidently intended: give back exactly the
   * pages allocated for the PT_LOAD segments before header n.
   */
  function FreeLoaded(l: Loader, phdrs: seq<Phdr>, n: nat): (fs: seq<Effect>)
    requires n <= |phdrs|
    ensures Frees(fs) == AllocPlan(l, phdrs, 0, n)
    ensures Allocs(fs) == []
  {
    FreeAll(AllocPlan(l, phdrs, 0, n))
  }

  function FreeAll(rs: seq<(int, int)>): (fs: seq<Effect>)
    ensures Frees(fs) == rs && Allocs(fs) == []
  {
    if |rs| == 0 then []
    else
      var f := Free(rs[0].0, rs[0].1);
      var tail := FreeAll(rs[1..]);
      var fs := [f] + tail;
      assert fs[0] == f && fs[1..] == tail;
      assert Frees(fs) == [rs[0]] + Frees(tail);
      assert Allocs(fs) == Allocs(tail);
      assert rs == [rs[0]] + rs[1..];
      fs
  }

  /**
   * The ranges free_stage2_mem(phdrs, n) gives back as written: for each
   * of the first n headers, header 0's page count at its p_paddr.
   */
  lemma {:induction false} FreeAsWrittenPages(phdrs: seq<Phdr>, n: nat)
    requires n <= |phdrs|
    ensures Frees(FreeAsWritten(phdrs, n)) == seq(n, j requires 0 <= j < n => (phdrs[j].paddr, PagesFor(phdrs[0].memsz)))
    ensures Allocs(FreeAsWritten(phdrs, n)) == []
  {
    var fs := FreeAsWritten(phdrs, n);
    OnlyFrees(fs);
  }

  /** A trace of frees alone frees its ranges in order and allocates nothing. */
  lemma {:induction false} OnlyFrees(effs: seq<Effect>)
    requires forall i :: 0 <= i < |effs| ==> effs[i].Free?
    ensures Frees(effs) == seq(|effs|, i requires 0 <= i < |effs| => (effs[i].addr, effs[i].pages))
    ensures Allocs(effs) == []
  {
    if |effs| > 0 {
      var rest := effs[1..];
      OnlyFrees(rest);
      var s := seq(|effs|, i requires 0 <= i < |effs| => (effs[i].addr, effs[i].pages));
      var s' := seq(|rest|, i requires 0 <= i < |rest| => (rest[i].addr, rest[i].pages));
      assert s == [(effs[0].addr, effs[0].pages)] + s';
    }
  }

  /** Every header lo..hi-1 is loadable and planned where and as large as free_stage2_mem frees it. */
  predicate FreedAsPlanned(l: Loader, phdrs: seq<Phdr>, lo: nat, hi: nat)
    requires lo <= hi <= |phdrs|
  {
    forall j :: lo <= j < hi ==>
      phdrs[j].ptype == PT_LOAD && Plan(l, phdrs[j]).paddr == phdrs[j].paddr && Plan(l, phdrs[j]).pages == PagesFor(phdrs[0].memsz)
  }

  /** The planned ranges of headers lo..hi-1: at most one per header, and one per header exactly when all are loadable. */
  lemma {:induction false} AllocPlanLength(l: Loader, phdrs: seq<Phdr>, lo: nat, hi: nat)
    requires lo <= hi <= |phdrs|
    ensures |AllocPlan(l, phdrs, lo, hi)| <= hi - lo
    ensures |AllocPlan(l, phdrs, lo, hi)| == hi - lo <==> forall j :: lo <= j < hi ==> phdrs[j].ptype == PT_LOAD
    ensures (forall j :: lo <= j < hi ==> phdrs[j].ptype == PT_LOAD) ==>
      forall j :: 0 <= j < hi - lo ==> AllocPlan(l, phdrs, lo, hi)[j] == (Plan(l, phdrs[lo + j]).paddr, Plan(l, phdrs[lo + j]).pages)
    decreases hi - lo
  {
    if lo < hi {
      AllocPlanLength(l, phdrs, lo + 1, hi);
    }
  }

  /**
   * free_stage2_mem as written gives back exactly the ranges the loop
   * allocated for headers 0..n-1 when, and only when, every one of them
   * is loadable and planned at its own p_paddr with header 0's page count.
   */
  lemma FreeAsWrittenAgrees(l: Loader, phdrs: seq<Phdr>, n: nat)
    requires n <= |phdrs|
    ensures Frees(FreeAsWritten(phdrs, n)) == AllocPlan(l, phdrs, 0, n) <==> FreedAsPlanned(l, phdrs, 0, n)
  {
    FreeAsWrittenPages(phdrs, n);
    AllocPlanLength(l, phdrs, 0, n);
    if n > 0 {
      var fr := Frees(FreeAsWritten(phdrs, n));
      var ap := AllocPlan(l, phdrs, 0, n);
      if fr == ap {
        MatchedFreesPlanned(l, phdrs, n, fr, ap);
      }
      if FreedAsPlanned(l, phdrs, 0, n) {
        assert |ap| == n;
        forall j | 0 <= j < n
          ensures fr[j] == ap[j]
        {
          assert phdrs[j].ptype == PT_LOAD;
        }
      }
    }
  }

  /** Frees that equal the planned ranges one for one make every header loadable and planned as freed. */
  lemma MatchedFreesPlanned(l: Loader, phdrs: seq<Phdr>, n: nat, fr: seq<(int, int)>, ap: seq<(int, int)>)
    requires 0 < n <= |phdrs| && fr == ap && |ap| == n
    requires forall j :: 0 <= j < n ==> fr[j] == (phdrs[j].paddr, PagesFor(phdrs[0].memsz))
    requires forall j :: 0 <= j < n ==> phdrs[j].ptype == PT_LOAD
    requires forall j :: 0 <= j < n ==> ap[j] == (Plan(l, phdrs[j]).paddr, Plan(l, phdrs[j]).pages)
    ensures FreedAsPlanned(l, phdrs, 0, n)
  {
    forall j | 0 <= j < n
      ensures Plan(l, phdrs[j]).paddr == phdrs[j].paddr && Plan(l, phdrs[j]).pages == PagesFor(phdrs[0].memsz)
    {
      assert fr[j] == ap[j];
    }
  }

  /**
   * The program-header loop from header i on, as a reference definition;
   * a bad header or a failed allocation calls free_stage2_mem as written.
   */
  function Segments(l: Loader, file: seq<u8>, phdrs: seq<Phdr>, i: nat, canAlloc: (int, int) -> bool)
    : (r: (LoopEnd, seq<Effect>))
    requires i <= |phdrs|
    decreases |phdrs| - i
  {
    if i == |phdrs| then (AllLoaded, [])
    else
      var p := phdrs[i];
      if p.ptype != PT_LOAD then Segments(l, file, phdrs, i + 1, canAlloc)
      else if p.filesz > p.memsz then (Rejected(i), FreeAsWritten(phdrs, i))
      else
        var s := Plan(l, p);
        if !canAlloc(s.paddr, s.pages) then (Failed(i), FreeAsWritten(phdrs, i))
        else match SegEffects(l, file, s)
          case None => (Failed(i), [Alloc(s.paddr, s.pages)])
          case Some(e) =>
            var rest := Segments(l, file, phdrs, i + 1, canAlloc);
            (rest.0, [Alloc(s.paddr, s.pages)] + e + rest.1)
  }

  /** The program-header loop of load_stage2. */
  method LoadSegments(l: Loader, file: seq<u8>, phdrs: seq<Phdr>, canAlloc: (int, int) -> bool)
    returns (end: LoopEnd, effects: seq<Effect>)
    ensures end == Segments(l, file, phdrs, 0, canAlloc).0
    ensures effects == Segments(l, file, phdrs, 0, canAlloc).1
  {
    effects := [];
    var idx := 0;
    while idx < |phdrs|
      invariant 0 <= idx <= |phdrs|
      invariant Segments(l, file, phdrs, 0, canAlloc).0 == Segments(l, file, phdrs, idx, canAlloc).0
      invariant Segments(l, file, phdrs, 0, canAlloc).1 == effects + Segments(l, file, phdrs, idx, canAlloc).1
      decreases |phdrs| - idx
    {
      var p := phdrs[idx];
      if p.ptype != PT_LOAD {
        idx := idx + 1;
        continue;
      }
      if p.filesz > p.memsz {
        effects := effects + FreeAsWritten(phdrs, idx);
        return Rejected(idx), effects;
      }
      var s := Plan(l, p);
      if !canAlloc(s.paddr, s.pages) {
        effects := effects + FreeAsWritten(phdrs, idx);
        return Failed(idx), effects;
      }
      effects := effects + [Alloc(s.paddr, s.pages)];
      var e := SegEffects(l, file, s);
      if e.None? {
        return Failed(idx), effects;
      }
      effects := effects + e.value;
      idx := idx + 1;
    }
    return AllLoaded, effects;
  }

  lemma NoPagesOne(e: Effect)
    requires !e.Alloc? && !e.Free?
    ensures Allocs([e]) == [] && Frees([e]) == []
  {
    assert [e][1..] == [];
  }

  lemma SegEffectsNoPages(l: Loader, file: seq<u8>, s: SegPlan)
    requires SegEffects(l, file, s).Some?
    ensures Allocs(SegEffects(l, file, s).value) == [] && Frees(SegEffects(l, file, s).value) == []
  {
    var z := Zero(s.paddr + s.filesz, (s.memsz - s.filesz) % U32_MOD);
    NoPagesOne(z);
    if l == Stage1 && s.filesz == 0 {
      assert SegEffects(l, file, s).value == [z];
    } else {
      var c := Copy(s.paddr, ReadStage2(l, file, s.off, s.filesz).value);
      assert SegEffects(l, file, s).value == [c] + [z];
      NoPagesOne(c);
      AllocsAppend([c], [z]);
    }
  }

  /**
   * The page bookkeeping of the loop from header i on: a loop that ends
   * normally allocated exactly the planned range of every PT_LOAD header
   * from i on, in order, and freed nothing; one that rejects header k
   * allocated the planned ranges of headers i..k-1 and then frees, for
   * each of headers 0..k-1, loadable or not, header 0's page count at
   * that header's p_paddr.
   */
  ghost predicate PagesAccounted(l: Loader, file: seq<u8>, phdrs: seq<Phdr>, i: nat, canAlloc: (int, int) -> bool)
    requires i <= |phdrs|
  {
    var r := Segments(l, file, phdrs, i, canAlloc);
    (r.0 == AllLoaded ==> Allocs(r.1) == AllocPlan(l, phdrs, i, |phdrs|) && Frees(r.1) == []) &&
    (r.0.Rejected? ==>
       i <= r.0.at < |phdrs| &&
       Allocs(r.1) == AllocPlan(l, phdrs, i, r.0.at) &&
       Frees(r.1) == seq(r.0.at, j requires 0 <= j < r.0.at => (phdrs[j].paddr, PagesFor(phdrs[0].memsz))))
  }

  lemma {:induction false} SegmentsPages(l: Loader, file: seq<u8>, phdrs: seq<Phdr>, i: nat, canAlloc: (int, int) -> bool)
    requires i <= |phdrs|
    ensures PagesAccounted(l, file, phdrs, i, canAlloc)
    decreases |phdrs| - i, 1
  {
    if i < |phdrs| {
      var p := phdrs[i];
      if p.ptype != PT_LOAD {
        SegmentsPagesSkip(l, file, phdrs, i, canAlloc);
      } else if p.filesz > p.memsz {
        FreeAsWrittenPages(phdrs, i);
      } else if canAlloc(Plan(l, p).paddr, Plan(l, p).pages) && SegEffects(l, file, Plan(l, p)).Some? {
        SegmentsPagesLoad(l, file, phdrs, i, canAlloc);
      }
    }
  }

  lemma {:induction false} SegmentsPagesSkip(l: Loader, file: seq<u8>, phdrs: seq<Phdr>, i: nat, canAlloc: (int, int) -> bool)
    requires i < |phdrs| && phdrs[i].ptype != PT_LOAD
    ensures PagesAccounted(l, file, phdrs, i, canAlloc)
    decreases |phdrs| - i, 0
  {
    SegmentsPages(l, file, phdrs, i + 1, canAlloc);
    var r := Segments(l, file, phdrs, i + 1, canAlloc);
    assert Segments(l, file, phdrs, i, canAlloc) == r;
    if r.0.Rejected? {
      AllocPlanSkip(l, phdrs, i, r.0.at);
    }
  }

  lemma {:induction false} SegmentsPagesLoad(l: Loader, file: seq<u8>, phdrs: seq<Phdr>, i: nat, canAlloc: (int, int) -> bool)
    requires i < |phdrs| && phdrs[i].ptype == PT_LOAD && phdrs[i].filesz <= phdrs[i].memsz
    requires canAlloc(Plan(l, phdrs[i]).paddr, Plan(l, phdrs[i]).pages)
    requires SegEffects(l, file, Plan(l, phdrs[i])).Some?
    ensures PagesAccounted(l, file, phdrs, i, canAlloc)
    decreases |phdrs| - i, 0
  {
    var s := Plan(l, phdrs[i]);
    var e := SegEffects(l, file, s).value;
    var a := Alloc(s.paddr, s.pages);
    SegmentsPages(l, file, phdrs, i + 1, canAlloc);
    SegEffectsNoPages(l, file, s);
    var rest := Segments(l, file, phdrs, i + 1, canAlloc);
    assert Segments(l, file, phdrs, i, canAlloc) == (rest.0, [a] + e + rest.1);
    PrefixPages(a, e, rest.1);
    if rest.0.Rejected? {
      AllocPlanSkip(l, phdrs, i, rest.0.at);
    }
  }

  lemma PrefixPages(a: Effect, e: seq<Effect>, rest: seq<Effect>)
    requires a.Alloc? && Allocs(e) == [] && Frees(e) == []
    ensures Allocs([a] + e + rest) == [(a.addr, a.pages)] + Allocs(rest)
    ensures Frees([a] + e + rest) == Frees(rest)
  {
    var x := [a] + e + rest;
    assert x[0] == a && x[1..] == e + rest;
    AllocsAppend(e, rest);
  }

  lemma AllocPlanSkip(l: Loader, phdrs: seq<Phdr>, i: nat, k: nat)
    requires i < k <= |phdrs|
    ensures AllocPlan(l, phdrs, i, k) ==
      (if phdrs[i].ptype != PT_LOAD then [] else [(Plan(l, phdrs[i]).paddr, Plan(l, phdrs[i]).pages)]) +
      AllocPlan(l, phdrs, i + 1, k)
  {
  }

  /** Two loaded segments, of one page and of three. */
  const TWO_SEGMENTS: seq<Phdr> := [Phdr(PT_LOAD, 0x1000, 0, 0x10_0000, 0x1000, 0x1000, 5, 0x1000),
                                    Phdr(PT_LOAD, 0x2000, 0, 0x20_0000, 0x3000, 0x3000, 6, 0x1000)]

  /** free_stage2_mem as written gets two loaded segments of different size wrong. */
  lemma FreeAsWrittenMismatch(l: Loader)
    ensures Frees(FreeAsWritten(TWO_SEGMENTS, 2)) != AllocPlan(l, TWO_SEGMENTS, 0, 2)
    ensures Frees(FreeLoaded(l, TWO_SEGMENTS, 2)) == AllocPlan(l, TWO_SEGMENTS, 0, 2)
  {
    TwoSegmentsAsWritten();
    TwoSegmentsPlan(l);
  }

  lemma TwoSegmentsAsWritten()
    ensures Frees(FreeAsWritten(TWO_SEGMENTS, 2)) == [(0x10_0000, 1), (0x20_0000, 1)]
  {
    var fw := FreeAsWritten(TWO_SEGMENTS, 2);
    assert fw == [Free(0x10_0000, 1), Free(0x20_0000, 1)];
    assert fw[1..] == [Free(0x20_0000, 1)];
    assert fw[1..][1..] == [];
    assert Frees(fw[1..]) == [(0x20_0000, 1)];
  }

  lemma TwoSegmentsPlan(l: Loader)
    ensures AllocPlan(l, TWO_SEGMENTS, 0, 2) == [(0x10_0000, 1), (0x20_0000, 3)]
  {
    var p0, p1 := TWO_SEGMENTS[0], TWO_SEGMENTS[1];
    PlanAligned(l, p0, 0x10_0000, 0x1000, 1);
    PlanAligned(l, p1, 0x20_0000, 0x3000, 3);
    assert AllocPlan(l, TWO_SEGMENTS, 2, 2) == [];
    AllocPlanSkip(l, TWO_SEGMENTS, 1, 2);
    AllocPlanSkip(l, TWO_SEGMENTS, 0, 2);
  }

  /** A header whose paddr is already page-aligned is planned as it is, by either loader. */
  lemma PlanAligned(l: Loader, p: Phdr, paddr: int, memsz: int, pages: int)
    requires p.paddr == paddr && p.memsz == memsz && paddr % PAGE_SIZE == 0
    requires pages * PAGE_SIZE == memsz
    ensures Plan(l, p).paddr == paddr && Plan(l, p).pages == pages
  {
  }
}
