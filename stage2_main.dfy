/**
 * The top level of stage 2 (stage2/main.c): the order in which it brings
 * up the machine, and rimg_init, which starts the option ROMs of the PCI
 * devices listed in the boot parameter records.  The subsystems' own work
 * is modelled in their modules; here each is one step of the boot.
 */
module Stage2Main {
  import opened Bda
  import opened Pcid
  import Usb

  /** An rm16_call: the four registers it loads and the real-mode far pointer it calls. */
  datatype Rm16Call = Rm16Call(eax: bv32, edx: bv32, ecx: bv32, ebx: bv32, callee: bv32)

  /** The option-ROM entry point lies at offset 3 of the ROM image (PCI Firmware Specification 3.0, chapter 5). */
  const ROM_ENTRY: bv16 := 0x0003

  /** The display controller classes that rimg_init starts in its first pass. */
  predicate IsVideo(classIf: int)
  {
    classIf == CIF_VID_VGA || classIf == CIF_VID_8514 || classIf == CIF_VID_XGA
  }

  /** The pass a device belongs to, and whether it has a ROM image at all. */
  predicate Starts(d: PciDev, initVga: bool)
  {
    IsVideo(d.classIf) == initVga && d.rimgSeg != 0
  }

  /**
   * The call that starts a device's option ROM: EAX holds its PCI
   * location, EBX the run-time segment, and the callee is the image's
   * entry point.
   */
  function StartCall(d: PciDev): (c: Rm16Call)
    ensures c.eax == d.locn && c.edx == 0 && c.ecx == 0
    ensures FpSeg(c.callee) == d.rimgSeg && FpOff(c.callee) == ROM_ENTRY
  {
    Rm16Call(d.locn, 0, 0, d.rimgRtSeg as bv32, MkFp16(d.rimgSeg, ROM_ENTRY))
  }

  /** The devices one pass of rimg_init starts, in record order. */
  function Started(recs: seq<Record>, initVga: bool): (ds: seq<PciDev>)
    ensures |ds| <= |recs|
  {
    if |recs| == 0 then []
    else
      (if recs[0].Pcid? && Starts(recs[0].dev, initVga) then [recs[0].dev] else []) + Started(recs[1..], initVga)
  }

  /** rimg_init: one pass over the records, one rm16_call per device started. */
  method RimgInit(recs: seq<Record>, initVga: bool) returns (calls: seq<Rm16Call>)
    ensures calls == StartCalls(Started(recs, initVga))
  {
    calls := [];
    var i := 0;
    while i < |recs|
      invariant 0 <= i <= |recs|
      invariant calls == StartCalls(Started(recs[..i], initVga))
    {
      var r := recs[i];
      StartedAppend(recs[..i], [r], initVga);
      assert recs[..i + 1] == recs[..i] + [r];
      StartedOne(r, initVga);
      if !r.Pcid? {
        i := i + 1;
        continue;
      }
      var d := r.dev;
      var doInit := if IsVideo(d.classIf) then initVga else !initVga;
      if !doInit || d.rimgSeg == 0 {
        i := i + 1;
        continue;
      }
      StartCallsAppend(Started(recs[..i], initVga), [d]);
      calls := calls + [StartCall(d)];
      i := i + 1;
    }
    assert recs[..|recs|] == recs;
  }

  /** The calls that start a list of devices, one each, in order. */
  function StartCalls(ds: seq<PciDev>): (cs: seq<Rm16Call>)
    ensures |cs| == |ds|
    ensures forall i :: 0 <= i < |ds| ==> cs[i] == StartCall(ds[i])
  {
    seq(|ds|, i requires 0 <= i < |ds| => StartCall(ds[i]))
  }

  lemma StartCallsAppend(a: seq<PciDev>, b: seq<PciDev>)
    ensures StartCalls(a + b) == StartCalls(a) + StartCalls(b)
  {
    assert forall i :: 0 <= i < |a + b| ==> (a + b)[i] == if i < |a| then a[i] else b[i - |a|];
  }

  lemma {:induction false} StartedAppend(a: seq<Record>, b: seq<Record>, initVga: bool)
    ensures Started(a + b, initVga) == Started(a, initVga) + Started(b, initVga)
    decreases |a|
  {
    if |a| == 0 {
      assert a + b == b;
    } else {
      var h := if a[0].Pcid? && Starts(a[0].dev, initVga) then [a[0].dev] else [];
      assert (a + b)[0] == a[0];
      calc {
        Started(a + b, initVga);
        h + Started((a + b)[1..], initVga);
        { assert (a + b)[1..] == a[1..] + b; }
        h + Started(a[1..] + b, initVga);
        { StartedAppend(a[1..], b, initVga); }
        h + (Started(a[1..], initVga) + Started(b, initVga));
        (h + Started(a[1..], initVga)) + Started(b, initVga);
        Started(a, initVga) + Started(b, initVga);
      }
    }
  }

  /** A record alone is started exactly when it is a PCI device of this pass with a ROM image. */
  lemma StartedOne(r: Record, initVga: bool)
    ensures Started([r], initVga) == if r.Pcid? && Starts(r.dev, initVga) then [r.dev] else []
  {
    assert [r][1..] == [];
  }

  /** Every PCI device with a ROM image, in record order. */
  function WithRom(recs: seq<Record>): (ds: seq<PciDev>)
  {
    if |recs| == 0 then []
    else (if recs[0].Pcid? && recs[0].dev.rimgSeg != 0 then [recs[0].dev] else []) + WithRom(recs[1..])
  }

  /** The devices of a list whose class is (or is not) a display controller, order kept. */
  function OfClass(ds: seq<PciDev>, video: bool): (ds': seq<PciDev>)
  {
    if |ds| == 0 then []
    else (if IsVideo(ds[0].classIf) == video then [ds[0]] else []) + OfClass(ds[1..], video)
  }

  /** Each pass starts the devices with a ROM image of its class, in record order. */
  lemma {:induction false} PassKeepsOrder(recs: seq<Record>, initVga: bool)
    ensures Started(recs, initVga) == OfClass(WithRom(recs), initVga)
    decreases |recs|
  {
    if |recs| > 0 {
      PassKeepsOrder(recs[1..], initVga);
      var head := if recs[0].Pcid? && recs[0].dev.rimgSeg != 0 then [recs[0].dev] else [];
      OfClassAppend(head, WithRom(recs[1..]), initVga);
      if head != [] {
        assert head[1..] == [];
      }
    }
  }

  lemma {:induction false} OfClassAppend(a: seq<PciDev>, b: seq<PciDev>, video: bool)
    ensures OfClass(a + b, video) == OfClass(a, video) + OfClass(b, video)
    decreases |a|
  {
    if |a| == 0 {
      assert a + b == b;
    } else {
      var h := if IsVideo(a[0].classIf) == video then [a[0]] else [];
      assert (a + b)[0] == a[0];
      calc {
        OfClass(a + b, video);
        h + OfClass((a + b)[1..], video);
        { assert (a + b)[1..] == a[1..] + b; }
        h + OfClass(a[1..] + b, video);
        { OfClassAppend(a[1..], b, video); }
        h + (OfClass(a[1..], video) + OfClass(b, video));
        (h + OfClass(a[1..], video)) + OfClass(b, video);
        OfClass(a, video) + OfClass(b, video);
      }
    }
  }

  /** Splitting a list by class loses and duplicates nothing. */
  lemma {:induction false} OfClassSplits(ds: seq<PciDev>)
    ensures multiset(OfClass(ds, true)) + multiset(OfClass(ds, false)) == multiset(ds)
    decreases |ds|
  {
    if |ds| > 0 {
      OfClassSplits(ds[1..]);
      assert ds == [ds[0]] + ds[1..];
    }
  }

  /**
   * Over the two passes every PCI device with a ROM image is started
   * exactly once: the video pass and then the other pass are together a
   * permutation of those devices, video ones only in the first pass.
   */
  lemma TwoPasses(recs: seq<Record>)
    ensures multiset(Started(recs, true) + Started(recs, false)) == multiset(WithRom(recs))
    ensures forall i :: 0 <= i < |Started(recs, true)| ==> IsVideo(Started(recs, true)[i].classIf)
    ensures forall i :: 0 <= i < |Started(recs, false)| ==> !IsVideo(Started(recs, false)[i].classIf)
  {
    PassKeepsOrder(recs, true);
    PassKeepsOrder(recs, false);
    OfClassSplits(WithRom(recs));
    OfClassIs(WithRom(recs), true);
    OfClassIs(WithRom(recs), false);
  }

  lemma {:induction false} OfClassIs(ds: seq<PciDev>, video: bool)
    ensures forall i :: 0 <= i < |OfClass(ds, video)| ==> IsVideo(OfClass(ds, video)[i].classIf) == video
    decreases |ds|
  {
    if |ds| > 0 {
      OfClassIs(ds[1..], video);
    }
  }

  // stage2_main

  /** The bring-up steps stage2_main takes before and between the passes. */
  datatype Step = MemInit | Rm16Init | IrqInit | TimeInit

  /** What stage 2 does at the top level, in order. */
  datatype Act =
    | Init(step: Step)
    | RomStart(dev: PciDev, call: Rm16Call)
    | SetMode(call: Rm16Call)
    | Puts(s: string)
    | UsbStart(d: Usb.Dispatch)
    | Halt

  /** hello: switch the screen through stage 2's own 16-bit code with AX = 3, then greet from INT 10h. */
  function HelloActs(rm16Cs: bv16, setMode: bv32, version: string): (acts: seq<Act>)
  {
    [SetMode(Rm16Call(3, 0, 0, 0, CsCallTarget(rm16Cs, setMode))),
     Puts(".:. biefircate " + version + " .:. hello world from int 0x10\n")]
  }

  // RomStarts and UsbStarts are trace definitions: their ensures only spell out
  // the trace element by element; BootOrder, BeforeFacts and AfterFacts state
  // what the traces mean.
  function RomStarts(ds: seq<PciDev>): (acts: seq<Act>)
    ensures |acts| == |ds|
    ensures forall i :: 0 <= i < |ds| ==> acts[i] == RomStart(ds[i], StartCall(ds[i]))
  {
    seq(|ds|, i requires 0 <= i < |ds| => RomStart(ds[i], StartCall(ds[i])))
  }

  function UsbStarts(ds: seq<Usb.Dispatch>): (acts: seq<Act>)
    ensures |acts| == |ds|
    ensures forall i :: 0 <= i < |ds| ==> acts[i] == UsbStart(ds[i])
  {
    seq(|ds|, i requires 0 <= i < |ds| => UsbStart(ds[i]))
  }

  /** The acts of the steps before the first pass. */
  function Bringup(): (acts: seq<Act>)
  {
    [Init(MemInit), Init(Rm16Init), Init(IrqInit), Init(TimeInit)]
  }

  /** stage2_main up to and including the first pass of rimg_init. */
  function Before(recs: seq<Record>): (acts: seq<Act>)
  {
    Bringup() + RomStarts(Started(recs, true))
  }

  /** stage2_main from hello on. */
  function After(recs: seq<Record>, rm16Cs: bv16, setMode: bv32, version: string): (acts: seq<Act>)
  {
    HelloActs(rm16Cs, setMode, version) + UsbStarts(Usb.Dispatches(recs)) + RomStarts(Started(recs, false))
      + [Puts("system halted\n"), Halt]
  }

  /** stage2_main: its acts in order, with rm16_cs and the address of setvideomode16f as parameters. */
  function Boot(recs: seq<Record>, rm16Cs: bv16, setMode: bv32, version: string): (acts: seq<Act>)
  {
    Before(recs) + After(recs, rm16Cs, setMode, version)
  }

  method Stage2Main(recs: seq<Record>, rm16Cs: bv16, setMode: bv32, version: string) returns (acts: seq<Act>)
    ensures acts == Boot(recs, rm16Cs, setMode, version)
  {
    acts := [Init(MemInit), Init(Rm16Init), Init(IrqInit), Init(TimeInit)];
    var video := RimgInit(recs, true);
    acts := acts + RomActs(Started(recs, true), video);
    var before := acts;
    acts := HelloActs(rm16Cs, setMode, version);
    var usb := Usb.UsbInit(recs);
    acts := acts + UsbStarts(usb);
    var other := RimgInit(recs, false);
    acts := acts + RomActs(Started(recs, false), other);
    acts := before + (acts + [Puts("system halted\n"), Halt]);
  }

  /** Pairing the devices of a pass with the calls RimgInit made for them. */
  function RomActs(ds: seq<PciDev>, calls: seq<Rm16Call>): (acts: seq<Act>)
    requires calls == StartCalls(ds)
    ensures acts == RomStarts(ds)
  {
    seq(|ds|, i requires 0 <= i < |ds| => RomStart(ds[i], calls[i]))
  }

  /**
   * The order stage2_main promises: the four bring-up steps first, then
   * the video option ROMs, then the screen is set up, and only after that
   * the USB drivers and the remaining option ROMs run; the halt comes last.
   */
  lemma BootOrder(recs: seq<Record>, rm16Cs: bv16, setMode: bv32, version: string)
    ensures var t := Boot(recs, rm16Cs, setMode, version);
      var h := 4 + |Started(recs, true)|;
      h < |t| && t[..4] == Bringup() && t[h].SetMode? && t[|t| - 1] == Halt &&
      (forall i :: 0 <= i < h && t[i].RomStart? ==> IsVideo(t[i].dev.classIf)) &&
      (forall i :: h < i < |t| && t[i].RomStart? ==> !IsVideo(t[i].dev.classIf)) &&
      (forall i :: 0 <= i < h ==> !t[i].UsbStart?) &&
      (forall i :: 0 <= i < |t| && t[i].Init? ==> i < 4)
  {
    var t := Boot(recs, rm16Cs, setMode, version);
    var before := Before(recs);
    var after := After(recs, rm16Cs, setMode, version);
    var h := |before|;
    BeforeFacts(recs);
    AfterFacts(recs, rm16Cs, setMode, version);
    assert t[..4] == Bringup() by {
      assert t[..4] == before[..4];
    }
    forall i | 0 <= i < h
      ensures t[i] == before[i]
    {
    }
    forall i | h <= i < |t|
      ensures t[i] == after[i - h]
    {
    }
  }

  /** Before hello: only the bring-up steps and video option ROMs. */
  lemma BeforeFacts(recs: seq<Record>)
    ensures |Before(recs)| == 4 + |Started(recs, true)| && Before(recs)[..4] == Bringup()
    ensures forall i :: 0 <= i < |Before(recs)| && Before(recs)[i].RomStart? ==> IsVideo(Before(recs)[i].dev.classIf)
    ensures forall i :: 0 <= i < |Before(recs)| ==> !Before(recs)[i].UsbStart?
    ensures forall i :: 4 <= i < |Before(recs)| ==> !Before(recs)[i].Init?
  {
    TwoPasses(recs);
    var before := Before(recs);
    var vid := RomStarts(Started(recs, true));
    forall i | 0 <= i < |before|
      ensures before[i].RomStart? ==> IsVideo(before[i].dev.classIf)
      ensures !before[i].UsbStart?
      ensures i >= 4 ==> !before[i].Init?
    {
      if i >= 4 {
        assert before[i] == vid[i - 4];
      }
    }
  }

  /** From hello on: hello first, then no video option ROM and no bring-up step, the halt last. */
  lemma AfterFacts(recs: seq<Record>, rm16Cs: bv16, setMode: bv32, version: string)
    ensures var after := After(recs, rm16Cs, setMode, version);
      |after| >= 4 && after[0].SetMode? && after[|after| - 1] == Halt &&
      (forall j :: 1 <= j < |after| && after[j].RomStart? ==> !IsVideo(after[j].dev.classIf)) &&
      (forall j :: 0 <= j < |after| ==> !after[j].Init?)
  {
    TwoPasses(recs);
    var after := After(recs, rm16Cs, setMode, version);
    var hello := HelloActs(rm16Cs, setMode, version);
    var usb := UsbStarts(Usb.Dispatches(recs));
    var oth := RomStarts(Started(recs, false));
    var tail := [Puts("system halted\n"), Halt];
    forall j | 0 <= j < |after|
      ensures j >= 1 && after[j].RomStart? ==> !IsVideo(after[j].dev.classIf)
      ensures !after[j].Init?
    {
      if j < 2 {
        assert after[j] == hello[j];
      } else if j < 2 + |usb| {
        assert after[j] == usb[j - 2];
      } else if j < 2 + |usb| + |oth| {
        assert after[j] == oth[j - 2 - |usb|];
      } else {
        assert after[j] == tail[j - 2 - |usb| - |oth|];
      }
    }
    assert after[|after| - 1] == tail[1];
  }
}
