/**
 * What both stage 1 loaders share about ELF32 executables (TIS ELF 1.2,
 * Book I, "ELF Header" and "Program Header"): the header layout on disk,
 * the six acceptance checks, and the way a stage 2 file is read through
 * the firmware's file protocol.
 */
module Elf {
  import opened Common
  import opened Bytes

  const EHDR_SIZE: int := 52
  const PHDR_SIZE: int := 32
  const MAX_PHDRS: int := 16
  const EI_VERSION: int := 6
  const EV_CURRENT: int := 1
  const EM_386: int := 3
  const PT_LOAD: int := 1

  datatype Ehdr = Ehdr(ident: seq<u8>, etype: u16, machine: u16, version: u32, entry: u32,
                       phoff: u32, shoff: u32, flags: u32, ehsize: u16, phentsize: u16,
                       phnum: u16, shentsize: u16, shnum: u16, shstrndx: u16)

  datatype Phdr = Phdr(ptype: u32, offset: u32, vaddr: u32, paddr: u32, filesz: u32,
                       memsz: u32, flags: u32, align: u32)

  /** Elf32_Ehdr as it lies in the first 52 bytes of the file. */
  function DecodeEhdr(b: seq<u8>): (h: Ehdr)
    requires |b| == EHDR_SIZE
    ensures h.ident == b[..16] && h.machine == Le16(b, 18) && h.version == Le32(b, 20)
    ensures h.entry == Le32(b, 24) && h.phoff == Le32(b, 28) && h.phnum == Le16(b, 44)
  {
    Ehdr(b[..16], Le16(b, 16), Le16(b, 18), Le32(b, 20), Le32(b, 24), Le32(b, 28),
         Le32(b, 32), Le32(b, 36), Le16(b, 40), Le16(b, 42), Le16(b, 44), Le16(b, 46),
         Le16(b, 48), Le16(b, 50))
  }

  /** One Elf32_Phdr from 32 bytes. */
  function DecodePhdr(b: seq<u8>): (p: Phdr)
    requires |b| == PHDR_SIZE
  {
    Phdr(Le32(b, 0), Le32(b, 4), Le32(b, 8), Le32(b, 12), Le32(b, 16), Le32(b, 20),
         Le32(b, 24), Le32(b, 28))
  }

  /** The program header table: n consecutive 32-byte entries. */
  function DecodePhdrs(b: seq<u8>, n: nat): (ps: seq<Phdr>)
    requires |b| == n * PHDR_SIZE
    ensures |ps| == n
    ensures forall i :: 0 <= i < n ==> ps[i] == DecodePhdr(b[i * PHDR_SIZE..(i + 1) * PHDR_SIZE])
    decreases n
  {
    if n == 0 then []
    else
      var ps := DecodePhdrs(b[..(n - 1) * PHDR_SIZE], n - 1);
      assert forall i :: 0 <= i < n - 1 ==>
        b[..(n - 1) * PHDR_SIZE][i * PHDR_SIZE..(i + 1) * PHDR_SIZE] == b[i * PHDR_SIZE..(i + 1) * PHDR_SIZE];
      ps + [DecodePhdr(b[(n - 1) * PHDR_SIZE..])]
  }

  /** The ELF magic 0x7f 'E' 'L' 'F' in e_ident[0..3]. */
  predicate HasMagic(h: Ehdr)
  {
    |h.ident| == 16 && h.ident[0] == 0x7f && h.ident[1] == 'E' as int &&
    h.ident[2] == 'L' as int && h.ident[3] == 'F' as int
  }

  /**
   * The checks both loaders make, in the loaders' order; the first one
   * that fails rejects the file as a bad stage 2.
   */
  predicate HeaderOk(h: Ehdr)
  {
    HasMagic(h) &&
    h.ident[EI_VERSION] == EV_CURRENT && h.version == EV_CURRENT &&
    h.ehsize >= EHDR_SIZE && h.phentsize == PHDR_SIZE &&
    h.phnum <= MAX_PHDRS &&
    h.machine == EM_386
  }

  /**
   * EFI_FILE_PROTOCOL.Read on a file: reading at a position past the end
   * is a device error; otherwise it returns what is there, at most `size`
   * bytes. The loaders treat a shorter result as an error too.
   */
  datatype ReadResult = Data(bytes: seq<u8>) | ReadError

  function FileRead(file: seq<u8>, pos: int, size: nat): (r: ReadResult)
    requires pos >= 0
    ensures r.Data? ==> |r.bytes| <= size && pos + |r.bytes| <= |file|
    ensures r.Data? ==> r.bytes == file[pos..pos + |r.bytes|]
    ensures r.ReadError? <==> pos > |file|
  {
    if pos > |file| then ReadError
    else if pos + size <= |file| then Data(file[pos..pos + size])
    else Data(file[pos..])
  }

  /** read_stage2 without the zero-size shortcut: the read must fill the buffer. */
  function ReadExactly(file: seq<u8>, pos: int, size: nat): (r: Option<seq<u8>>)
    requires pos >= 0
    ensures r.Some? <==> pos + size <= |file|
    ensures r.Some? ==> r.value == file[pos..pos + size]
  {
    match FileRead(file, pos, size)
    case ReadError => None
    case Data(d) => if |d| == size then Some(d) else None
  }

  /** The first name in `names` that the volume can open, trying them in order. */
  function FirstOpenable(names: seq<string>, present: set<string>): (r: Option<nat>)
    ensures r.Some? ==> r.value < |names| && names[r.value] in present
    ensures r.Some? ==> forall j :: 0 <= j < r.value ==> names[j] !in present
    ensures r.None? <==> forall j :: 0 <= j < |names| ==> names[j] !in present
  {
    if |names| == 0 then None
    else if names[0] in present then Some(0)
    else match FirstOpenable(names[1..], present)
      case None => None
      case Some(k) => Some(k + 1)
  }

  /** What loading a stage 2 does to memory and to the firmware's page pool. */
  datatype Effect =
    | Alloc(addr: int, pages: int)
    | Copy(addr: int, bytes: seq<u8>)
    | Zero(addr: int, len: int)
    | Free(addr: int, pages: int)

  /** How a load ends: with the entry point, rejected as a bad ELF file, or fatally. */
  datatype Outcome = Loaded(entry: u32) | BadElf | Fatal

  /** The number of 4 KiB pages that hold `len` bytes. */
  function PagesFor(len: int): (n: int)
    requires len >= 0
    ensures n >= 0 && n * PAGE_SIZE >= len
    ensures len > 0 ==> (n - 1) * PAGE_SIZE < len
    ensures len == 0 ==> n == 0
  {
    (len + PAGE_SIZE - 1) / PAGE_SIZE
  }

  /**
   * free_stage2_mem(phdrs, n) as written: every one of the first n headers,
   * loadable or not, is freed at its own p_paddr, but with a page count
   * taken from the FIRST header's p_memsz.
   */
  function FreeAsWritten(phdrs: seq<Phdr>, n: nat): (fs: seq<Effect>)
    requires n <= |phdrs|
    ensures |fs| == n
    ensures forall j :: 0 <= j < n ==> fs[j] == Free(phdrs[j].paddr, PagesFor(phdrs[0].memsz))
  {
    if n == 0 then [] else FreeAsWritten(phdrs, n - 1) + [Free(phdrs[n - 1].paddr, PagesFor(phdrs[0].memsz))]
  }

  /** The allocations a trace made, in order. */
  function Allocs(effs: seq<Effect>): (as_: seq<(int, int)>)
  {
    if |effs| == 0 then [] else AllocOf(effs[0]) + Allocs(effs[1..])
  }

  function AllocOf(e: Effect): seq<(int, int)>
  {
    if e.Alloc? then [(e.addr, e.pages)] else []
  }

  /** The page ranges a trace frees, in order. */
  function Frees(effs: seq<Effect>): (fs: seq<(int, int)>)
  {
    if |effs| == 0 then [] else FreeOf(effs[0]) + Frees(effs[1..])
  }

  function FreeOf(e: Effect): seq<(int, int)>
  {
    if e.Free? then [(e.addr, e.pages)] else []
  }

  lemma {:induction false} AllocsAppend(a: seq<Effect>, b: seq<Effect>)
    ensures Allocs(a + b) == Allocs(a) + Allocs(b)
    ensures Frees(a + b) == Frees(a) + Frees(b)
    ensures Written(a + b) == Written(a) + Written(b)
    decreases |a|
  {
    if |a| == 0 {
      assert a + b == b;
    } else {
      assert (a + b)[1..] == a[1..] + b;
      AllocsAppend(a[1..], b);
    }
  }

  /** `n` zero bytes. */
  function Zeros(n: nat): (z: seq<u8>)
    ensures |z| == n && forall i :: 0 <= i < n ==> z[i] == 0
  {
    seq(n, _ => 0)
  }

  /**
   * The bytes the Copy and Zero effects of one segment lay down, one after
   * the other; a segment's effects write them contiguously from its base.
   */
  function Written(effs: seq<Effect>): (w: seq<u8>)
  {
    if |effs| == 0 then [] else BytesOf(effs[0]) + Written(effs[1..])
  }

  function BytesOf(e: Effect): seq<u8>
  {
    match e
    case Copy(_, d) => d
    case Zero(_, n) => if n >= 0 then Zeros(n) else []
    case _ => []
  }
}
