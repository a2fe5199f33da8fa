/**
 * The UEFI stage 1 loader's reading of stage 2 (stage1/main.c,
 * load_stage2, read_stage2, free_stage2_mem). Stage 2 is an ELF32 file
 * on the boot volume; each loadable segment is placed at its physical
 * address, rounded down to a page, with pages taken from the firmware.
 *
 * The volume is a map from file name to contents and AllocatePages at a
 * fixed address is the oracle `canAlloc`. What the loader does to memory
 * and to the firmware's page pool is the returned list of effects.
 */
module Stage1Loader {
  import opened Common
  import opened Elf
  import opened ElfSegments

  /** The names tried, in order. */
  const STAGE2_NAMES: seq<string> := ["EFI\\biefirc\\stage2.sys", "biefist2.sys", "kernel.sys"]

  /** Whole-load outcome and effects, as a reference definition. */
  function LoadSpec(volume: map<string, seq<u8>>, canAlloc: (int, int) -> bool): (r: (Outcome, seq<Effect>))
  {
    match FirstOpenable(STAGE2_NAMES, volume.Keys)
    case None => (Fatal, [])
    case Some(k) =>
      var file := volume[STAGE2_NAMES[k]];
      match ReadStage2(Stage1, file, 0, EHDR_SIZE)
      case None => (Fatal, [])
      case Some(hb) =>
        var h := DecodeEhdr(hb);
        if !HeaderOk(h) then (BadElf, [])
        else match ReadStage2(Stage1, file, h.phoff, h.phnum * PHDR_SIZE)
          case None => (Fatal, [])
          case Some(pb) =>
            var phdrs := DecodePhdrs(pb, h.phnum);
            var loop := Segments(Stage1, file, phdrs, 0, canAlloc);
            match loop.0
            case AllLoaded => (Loaded(h.entry), loop.1)
            case Rejected(_) => (BadElf, loop.1)
            case Failed(_) => (Fatal, loop.1)
  }

  /**
   * load_stage2: open the first stage 2 name present, check the header,
   * read the program headers and load every PT_LOAD segment.
   */
  method LoadStage2(volume: map<string, seq<u8>>, canAlloc: (int, int) -> bool)
    returns (outcome: Outcome, effects: seq<Effect>)
    ensures (outcome, effects) == LoadSpec(volume, canAlloc)
  {
    var k := FirstOpenable(STAGE2_NAMES, volume.Keys);
    if k.None? {
      return Fatal, [];
    }
    var file := volume[STAGE2_NAMES[k.value]];
    var hb := ReadStage2(Stage1, file, 0, EHDR_SIZE);
    if hb.None? {
      return Fatal, [];
    }
    var h := DecodeEhdr(hb.value);
    if !HeaderOk(h) {
      return BadElf, [];
    }
    var pb := ReadStage2(Stage1, file, h.phoff, h.phnum * PHDR_SIZE);
    if pb.None? {
      return Fatal, [];
    }
    var phdrs := DecodePhdrs(pb.value, h.phnum);
    var end;
    end, effects := LoadSegments(Stage1, file, phdrs, canAlloc);
    match end
    case AllLoaded => outcome := Loaded(h.entry);
    case Rejected(_) => outcome := BadElf;
    case Failed(_) => outcome := Fatal;
  }

  /**
   * A file rejected as a bad stage 2 either fails the header checks and
   * touches no pages, or is rejected at program header k, having
   * allocated the planned ranges of the loadable headers before k; it
   * then frees, for each header before k, loadable or not, header 0's
   * page count at that header's p_paddr. No pages are left behind exactly
   * when those are the allocated ranges (ElfSegments.FreeAsWrittenAgrees).
   */
  lemma BadElfFrees(volume: map<string, seq<u8>>, canAlloc: (int, int) -> bool)
    requires LoadSpec(volume, canAlloc).0 == BadElf
    ensures LoopInput(Stage1, STAGE2_NAMES, volume).None? ==> LoadSpec(volume, canAlloc).1 == []
    ensures LoopInput(Stage1, STAGE2_NAMES, volume).Some? ==>
      var file := LoopInput(Stage1, STAGE2_NAMES, volume).value.0;
      var phdrs := LoopInput(Stage1, STAGE2_NAMES, volume).value.1;
      var end := Segments(Stage1, file, phdrs, 0, canAlloc).0;
      end.Rejected? && end.at < |phdrs| &&
      Allocs(LoadSpec(volume, canAlloc).1) == AllocPlan(Stage1, phdrs, 0, end.at) &&
      Frees(LoadSpec(volume, canAlloc).1) == seq(end.at, j requires 0 <= j < end.at => (phdrs[j].paddr, PagesFor(phdrs[0].memsz))) &&
      (Frees(LoadSpec(volume, canAlloc).1) == Allocs(LoadSpec(volume, canAlloc).1) <==> FreedAsPlanned(Stage1, phdrs, 0, end.at))
  {
    var k := FirstOpenable(STAGE2_NAMES, volume.Keys).value;
    var file := volume[STAGE2_NAMES[k]];
    var h := DecodeEhdr(ReadStage2(Stage1, file, 0, EHDR_SIZE).value);
    if HeaderOk(h) {
      var pb := ReadStage2(Stage1, file, h.phoff, h.phnum * PHDR_SIZE).value;
      var phdrs := DecodePhdrs(pb, h.phnum);
      assert LoopInput(Stage1, STAGE2_NAMES, volume) == Some((file, phdrs));
      var loop := Segments(Stage1, file, phdrs, 0, canAlloc);
      assert LoadSpec(volume, canAlloc).1 == loop.1;
      SegmentsPages(Stage1, file, phdrs, 0, canAlloc);
      FreeAsWrittenPages(phdrs, loop.0.at);
      FreeAsWrittenAgrees(Stage1, phdrs, loop.0.at);
    } else {
      assert LoopInput(Stage1, STAGE2_NAMES, volume) == None;
    }
  }

  /** A successful load returns e_entry of an accepted header, freeing nothing. */
  lemma LoadedAccepted(volume: map<string, seq<u8>>, canAlloc: (int, int) -> bool)
    requires LoadSpec(volume, canAlloc).0.Loaded?
    ensures FirstOpenable(STAGE2_NAMES, volume.Keys).Some?
    ensures var file := volume[STAGE2_NAMES[FirstOpenable(STAGE2_NAMES, volume.Keys).value]];
      |file| >= EHDR_SIZE && HeaderOk(DecodeEhdr(file[..EHDR_SIZE])) &&
      LoadSpec(volume, canAlloc).0.entry == DecodeEhdr(file[..EHDR_SIZE]).entry
    ensures Frees(LoadSpec(volume, canAlloc).1) == []
  {
    var k := FirstOpenable(STAGE2_NAMES, volume.Keys).value;
    var file := volume[STAGE2_NAMES[k]];
    var h := DecodeEhdr(ReadStage2(Stage1, file, 0, EHDR_SIZE).value);
    var pb := ReadStage2(Stage1, file, h.phoff, h.phnum * PHDR_SIZE).value;
    var phdrs := DecodePhdrs(pb, h.phnum);
    SegmentsPages(Stage1, file, phdrs, 0, canAlloc);
  }
}
