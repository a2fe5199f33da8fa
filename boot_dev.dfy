/**
 * How the muon loader finds the disk it was loaded from (muon/boot-dev.c):
 * walk the device path of the loaded image's device to its hard-drive
 * node (UEFI 2.x section 10.3.5.1), and, when that node names a
 * partition, look up the block device of the whole drive through a copy
 * of the path whose hard-drive node is rewritten to cover the whole disk.
 *
 * A device path is the bytes of its nodes: a type, a subtype and a
 * little-endian 16-bit length, then the node's data (UEFI 2.x section
 * 10.2).  The firmware's protocol services are answers given as
 * parameters (datatype Firmware); the logging is not modelled.
 */
module BootDev {
  import opened Common
  import opened Bytes
  import opened Efi

  const MEDIA_DEVICE_PATH: u8 := 0x04
  const MEDIA_HARDDRIVE_DP: u8 := 0x01
  const END_DEVICE_PATH: u8 := 0x7f

  /** struct efi_harddrive_device_path: the header, then these fields, 42 bytes in all. */
  const PARTITION_NUMBER: int := 4
  const PARTITION_START: int := 8
  const PARTITION_SIZE: int := 16
  const HD_NODE_LENGTH: int := 42

  /** dev_node_length: the length field of the node at offset p. */
  function NodeLength(path: seq<u8>, p: int): (n: u16)
    requires 0 <= p && p + 4 <= |path|
  {
    Le16(path, p + 2)
  }

  /** A node header as the firmware lays it out. */
  function NodeHeader(typ: u8, subtype: u8, length: u16): (h: seq<u8>)
    ensures |h| == 4
  {
    [typ, subtype] + Le16Bytes(length)
  }

  /** The length read back from a header is the length it was written with. */
  lemma NodeLengthOfHeader(pre: seq<u8>, typ: u8, subtype: u8, length: u16, data: seq<u8>)
    ensures NodeLength(pre + NodeHeader(typ, subtype, length) + data, |pre|) == length
  {
    var b := pre + NodeHeader(typ, subtype, length) + data;
    assert b == (pre + [typ, subtype]) + Le16Bytes(length) + data;
    Le16At(pre + [typ, subtype], length, data);
  }

  predicate IsHardDrive(path: seq<u8>, p: int)
    requires 0 <= p && p + 2 <= |path|
  {
    path[p] == MEDIA_DEVICE_PATH && path[p + 1] == MEDIA_HARDDRIVE_DP
  }

  predicate IsEnd(path: seq<u8>, p: int)
    requires 0 <= p < |path|
  {
    path[p] == END_DEVICE_PATH
  }

  /**
   * What the walk from offset p needs of the path: every node it reads
   * has a whole header, a hard-drive node is whole, and each node it
   * steps over is at least a header long.
   */
  predicate WalkableFrom(path: seq<u8>, p: int)
    decreases |path| - p
  {
    0 <= p && p + 4 <= |path|
    && (IsHardDrive(path, p) ==> p + HD_NODE_LENGTH <= |path|)
    && (IsHardDrive(path, p) || IsEnd(path, p) || (NodeLength(path, p) >= 4 && WalkableFrom(path, p + NodeLength(path, p))))
  }

  /** Where the walk from p stops: the first hard-drive node, or None at an end node. */
  function FindHardDrive(path: seq<u8>, p: int): (r: Option<nat>)
    requires WalkableFrom(path, p)
    ensures r.Some? ==> p <= r.value && r.value + HD_NODE_LENGTH <= |path| && IsHardDrive(path, r.value)
    decreases |path| - p
  {
    if IsHardDrive(path, p) then Some(p)
    else if IsEnd(path, p) then None
    else FindHardDrive(path, p + NodeLength(path, p))
  }

  /** The nodes the walk from p visits, in order, up to and including the one it stops at. */
  function Trail(path: seq<u8>, p: int): (t: seq<nat>)
    requires WalkableFrom(path, p)
    decreases |path| - p
  {
    if IsHardDrive(path, p) || IsEnd(path, p) then [p]
    else [p] + Trail(path, p + NodeLength(path, p))
  }

  /**
   * The walk and its trail agree: the trail starts at p, each node is the
   * previous one plus its length, none before the last is a hard drive or
   * an end node, and the walk finds the last node exactly when that node
   * is a hard drive.
   */
  lemma {:induction false} TrailOfWalk(path: seq<u8>, p: int)
    requires WalkableFrom(path, p)
    ensures |Trail(path, p)| >= 1 && Trail(path, p)[0] == p
    ensures forall i :: 0 <= i < |Trail(path, p)| ==> Trail(path, p)[i] + 4 <= |path|
    ensures forall i :: 0 <= i < |Trail(path, p)| - 1 ==>
      !IsHardDrive(path, Trail(path, p)[i]) && !IsEnd(path, Trail(path, p)[i])
      && Trail(path, p)[i + 1] == Trail(path, p)[i] + NodeLength(path, Trail(path, p)[i])
    ensures var last := Trail(path, p)[|Trail(path, p)| - 1];
      FindHardDrive(path, p) == (if IsHardDrive(path, last) then Some(last) else None)
      && (IsHardDrive(path, last) || IsEnd(path, last))
    decreases |path| - p
  {
    if !(IsHardDrive(path, p) || IsEnd(path, p)) {
      var n := p + NodeLength(path, p);
      TrailOfWalk(path, n);
      var t := Trail(path, n);
      assert Trail(path, p) == [p] + t;
      forall i | 0 <= i < |Trail(path, p)| - 1
        ensures !IsHardDrive(path, Trail(path, p)[i]) && !IsEnd(path, Trail(path, p)[i])
        ensures Trail(path, p)[i + 1] == Trail(path, p)[i] + NodeLength(path, Trail(path, p)[i])
      {
        if i > 0 {
          assert Trail(path, p)[i] == t[i - 1] && Trail(path, p)[i + 1] == t[i];
        }
      }
    }
  }

  /** The first walk of find_whole_drive: stop at a hard-drive node, give up at an end node. */
  method WalkToHardDrive(path: seq<u8>) returns (r: Option<nat>)
    requires WalkableFrom(path, 0)
    ensures r == FindHardDrive(path, 0)
  {
    var p := 0;
    while !IsHardDrive(path, p)
      invariant WalkableFrom(path, p) && FindHardDrive(path, p) == FindHardDrive(path, 0)
      decreases |path| - p
    {
      if path[p] == END_DEVICE_PATH {
        return None;
      }
      p := p + NodeLength(path, p);
    }
    r := Some(p);
  }

  /** The second walk, over the copy: no end check, since the copy holds the hard-drive node the first walk found. */
  method SeekHardDrive(dup: array<u8>) returns (q: nat)
    requires WalkableFrom(dup[..], 0) && FindHardDrive(dup[..], 0).Some?
    ensures q == FindHardDrive(dup[..], 0).value
  {
    var p := 0;
    while !(dup[p] == MEDIA_DEVICE_PATH && dup[p + 1] == MEDIA_HARDDRIVE_DP)
      invariant WalkableFrom(dup[..], p) && FindHardDrive(dup[..], p) == FindHardDrive(dup[..], 0)
      decreases dup.Length - p
    {
      p := p + NodeLength(dup[..], p);
    }
    q := p;
  }

  /** The partition number of the hard-drive node at q is zero: the node is the whole drive already. */
  predicate WholeDiskNode(path: seq<u8>, q: int)
    requires 0 <= q && q + HD_NODE_LENGTH <= |path|
  {
    path[q + PARTITION_NUMBER] == 0 && path[q + PARTITION_NUMBER + 1] == 0
    && path[q + PARTITION_NUMBER + 2] == 0 && path[q + PARTITION_NUMBER + 3] == 0
  }

  /** The four bytes test is a test of the little-endian partition number. */
  lemma WholeDiskNodeNumber(path: seq<u8>, q: int)
    requires 0 <= q && q + HD_NODE_LENGTH <= |path|
    ensures WholeDiskNode(path, q) <==> Le32(path, q + PARTITION_NUMBER) == 0
  {
  }

  /** The copy with the node at q rewritten: partition number and start zero, size all ones. */
  function WholeDrivePath(path: seq<u8>, q: int): (r: seq<u8>)
    requires 0 <= q && q + HD_NODE_LENGTH <= |path|
  {
    seq(|path|, i requires 0 <= i < |path| =>
      if q + PARTITION_NUMBER <= i < q + PARTITION_SIZE then 0
      else if q + PARTITION_SIZE <= i < q + PARTITION_SIZE + 8 then 0xff
      else path[i])
  }

  /** The node now reads as partition 0, starting at 0, of size 2^64 - 1; every other byte is kept. */
  lemma WholeDrivePathFields(path: seq<u8>, q: int)
    requires 0 <= q && q + HD_NODE_LENGTH <= |path|
    ensures |WholeDrivePath(path, q)| == |path|
    ensures Le32(WholeDrivePath(path, q), q + PARTITION_NUMBER) == 0
    ensures Le32(WholeDrivePath(path, q), q + PARTITION_START) == 0 && Le32(WholeDrivePath(path, q), q + PARTITION_START + 4) == 0
    ensures Le32(WholeDrivePath(path, q), q + PARTITION_SIZE) == 0xffff_ffff
    ensures Le32(WholeDrivePath(path, q), q + PARTITION_SIZE + 4) == 0xffff_ffff
    ensures forall i :: 0 <= i < |path| && !(q + PARTITION_NUMBER <= i < q + PARTITION_SIZE + 8) ==> WholeDrivePath(path, q)[i] == path[i]
  {
  }

  /** Rewriting the node the walk stops at leaves every header intact, so the walk over the copy stops at the same node. */
  lemma {:induction false} RewriteKeepsWalk(path: seq<u8>, p: int, q: int)
    requires WalkableFrom(path, p) && FindHardDrive(path, p) == Some(q)
    ensures WalkableFrom(WholeDrivePath(path, q), p) && FindHardDrive(WholeDrivePath(path, q), p) == Some(q)
    decreases |path| - p
  {
    var r := WholeDrivePath(path, q);
    assert r[p] == path[p] && r[p + 1] == path[p + 1];
    if !IsHardDrive(path, p) {
      var n := p + NodeLength(path, p);
      RewriteKeepsWalk(path, n, q);
      assert p + 4 <= n <= q;
      assert r[p + 2] == path[p + 2] && r[p + 3] == path[p + 3];
      assert NodeLength(r, p) == NodeLength(path, p);
    }
  }

  /** The rewrite of find_whole_drive, on the copy in place. */
  method RewriteNode(dup: array<u8>, q: nat)
    requires q + HD_NODE_LENGTH <= dup.Length
    modifies dup
    ensures dup[..] == WholeDrivePath(old(dup[..]), q)
  {
    forall i | q + PARTITION_NUMBER <= i < q + PARTITION_SIZE {
      dup[i] := 0;
    }
    forall i | q + PARTITION_SIZE <= i < q + PARTITION_SIZE + 8 {
      dup[i] := 0xff;
    }
  }

  datatype Handle = Handle(id: int)

  /**
   * The answers of the firmware services find_whole_drive calls: the
   * device-path protocol of the boot device (its status and bytes), the
   * path-to-text and path-utilities protocols, whether the duplicate
   * can be allocated, and LocateDevicePath's status, handle and the
   * number of bytes of the path it consumed.
   */
  datatype Firmware = Firmware(
    pathStatus: Status, devPath: seq<u8>,
    textStatus: Status, utilsStatus: Status, canDuplicate: bool,
    locateStatus: Status, located: Handle, matched: nat)

  /**
   * What find_whole_drive returns and does: its status, the whole-drive
   * handle on success, the path it asked LocateDevicePath about, and the
   * offset into the copy it passed to FreePool.
   */
  datatype Outcome = Outcome(status: Status, whole: Option<Handle>, query: Option<seq<u8>>, freed: Option<int>)

  predicate FirmwareOk(fw: Firmware)
  {
    fw.pathStatus == SUCCESS && fw.textStatus == SUCCESS ==> WalkableFrom(fw.devPath, 0)
  }

  function Failed(s: Status): Outcome
  {
    Outcome(s, None, None, None)
  }

  /**
   * find_whole_drive, with the copy freed at the offset freedAt: the
   * code as written frees it where LocateDevicePath left the pointer.
   */
  function WholeDriveFreeing(fw: Firmware, bootDev: Handle, freedAt: int): (o: Outcome)
    requires FirmwareOk(fw)
  {
    if fw.pathStatus != SUCCESS then Failed(fw.pathStatus)
    else if fw.textStatus != SUCCESS then Failed(fw.textStatus)
    else match FindHardDrive(fw.devPath, 0)
      case None => Failed(NOT_FOUND)
      case Some(q) =>
        if WholeDiskNode(fw.devPath, q) then Outcome(SUCCESS, Some(bootDev), None, None)
        else if fw.utilsStatus != SUCCESS then Failed(fw.utilsStatus)
        else if !fw.canDuplicate then Failed(OUT_OF_RESOURCES)
        else Outcome(fw.locateStatus, if fw.locateStatus == SUCCESS then Some(fw.located) else None,
                     Some(WholeDrivePath(fw.devPath, q)), Some(freedAt))
  }

  /** find_whole_drive as written: free_pool receives the path pointer after LocateDevicePath advanced it. */
  function WholeDriveAsWritten(fw: Firmware, bootDev: Handle): (o: Outcome)
    requires FirmwareOk(fw)
  {
    WholeDriveFreeing(fw, bootDev, fw.matched)
  }

  /** find_whole_drive with the copy freed at its start. */
  function WholeDrive(fw: Firmware, bootDev: Handle): (o: Outcome)
    requires FirmwareOk(fw)
  {
    WholeDriveFreeing(fw, bootDev, 0)
  }

  /** A PCI disk partition path: the whole disk's block device matches the 10-byte prefix before the hard-drive node. */
  const PARTITION_PATH: seq<u8> :=
    [0x03, 0x12, 0x0a, 0x00, 0, 0, 0, 0, 0, 0]
    + [0x04, 0x01, 42, 0x00, 1, 0, 0, 0] + seq(34, i => 0)
    + [0x7f, 0xff, 0x04, 0x00]

  /**
   * As written, once LocateDevicePath has matched the disk, FreePool is
   * handed a pointer 10 bytes into the copy rather than the copy itself.
   */
  lemma FreeMissesCopy()
    ensures WalkableFrom(PARTITION_PATH, 0)
    ensures var fw := Firmware(SUCCESS, PARTITION_PATH, SUCCESS, SUCCESS, true, SUCCESS, Handle(2), 10);
      WholeDriveAsWritten(fw, Handle(1)).status == SUCCESS && WholeDriveAsWritten(fw, Handle(1)).freed == Some(10)
  {
    var path := PARTITION_PATH;
    assert NodeLength(path, 0) == 10;
    assert IsHardDrive(path, 10) && WalkableFrom(path, 10);
    assert !IsHardDrive(path, 0) && !IsEnd(path, 0);
    assert FindHardDrive(path, 0) == Some(10);
    assert !WholeDiskNode(path, 10);
  }

  /**
   * The corrected walk-and-rewrite: every failure passes its status on
   * with nothing looked up or freed; a whole-disk node answers the boot
   * device itself; otherwise the copy asked about is the boot path with
   * the hard-drive node covering the whole disk, the same node the walk
   * found, and that copy is freed at its start.
   */
  lemma WholeDriveCases(fw: Firmware, bootDev: Handle)
    requires FirmwareOk(fw)
    ensures fw.pathStatus != SUCCESS ==> WholeDrive(fw, bootDev) == Failed(fw.pathStatus)
    ensures fw.pathStatus == SUCCESS && fw.textStatus != SUCCESS ==> WholeDrive(fw, bootDev) == Failed(fw.textStatus)
    ensures fw.pathStatus == SUCCESS && fw.textStatus == SUCCESS && FindHardDrive(fw.devPath, 0).None? ==>
      WholeDrive(fw, bootDev) == Failed(NOT_FOUND)
    ensures WholeDrive(fw, bootDev).status == SUCCESS ==> WholeDrive(fw, bootDev).whole.Some?
    ensures WholeDrive(fw, bootDev).query.Some? <==> WholeDrive(fw, bootDev).freed == Some(0)
    ensures WholeDrive(fw, bootDev).query.Some? ==>
      fw.pathStatus == SUCCESS && fw.textStatus == SUCCESS && fw.utilsStatus == SUCCESS && fw.canDuplicate
      && FindHardDrive(fw.devPath, 0).Some?
      && var q := FindHardDrive(fw.devPath, 0).value;
         !WholeDiskNode(fw.devPath, q)
         && WholeDrive(fw, bootDev).query == Some(WholeDrivePath(fw.devPath, q))
         && WalkableFrom(WholeDrivePath(fw.devPath, q), 0)
         && FindHardDrive(WholeDrivePath(fw.devPath, q), 0) == Some(q)
         && WholeDiskNode(WholeDrivePath(fw.devPath, q), q)
    ensures WholeDrive(fw, bootDev).query.None? && WholeDrive(fw, bootDev).status == SUCCESS ==>
      WholeDrive(fw, bootDev).whole == Some(bootDev)
  {
    if fw.pathStatus == SUCCESS && fw.textStatus == SUCCESS && FindHardDrive(fw.devPath, 0).Some? {
      var q := FindHardDrive(fw.devPath, 0).value;
      RewriteKeepsWalk(fw.devPath, 0, q);
    }
  }

  /**
   * The code as written differs from the corrected walk-and-rewrite only
   * in the pointer it frees: where the corrected one frees the copy's
   * start, it frees the point LocateDevicePath stopped at.
   */
  lemma WholeDriveAgree(fw: Firmware, bootDev: Handle)
    requires FirmwareOk(fw)
    ensures WholeDriveAsWritten(fw, bootDev) ==
      WholeDrive(fw, bootDev).(freed := if WholeDrive(fw, bootDev).freed.Some? then Some(fw.matched) else None)
  {
  }

  /**
   * find_whole_drive as written: the failed lookups, the walk, the
   * whole-disk case, the duplicate, its rewrite in place and the lookup by
   * the rewritten path, then FreePool of the path pointer as
   * LocateDevicePath left it.
   */
  method FindWholeDrive(fw: Firmware, bootDev: Handle) returns (o: Outcome)
    requires FirmwareOk(fw)
    ensures o == WholeDriveAsWritten(fw, bootDev)
  {
    if fw.pathStatus != SUCCESS {
      return Failed(fw.pathStatus);
    }
    if fw.textStatus != SUCCESS {
      return Failed(fw.textStatus);
    }
    var found := WalkToHardDrive(fw.devPath);
    if found.None? {
      return Failed(NOT_FOUND);
    }
    var q := found.value;
    var path := fw.devPath;
    if path[q + 4] == 0 && path[q + 5] == 0 && path[q + 6] == 0 && path[q + 7] == 0 {
      return Outcome(SUCCESS, Some(bootDev), None, None);
    }
    if fw.utilsStatus != SUCCESS {
      return Failed(fw.utilsStatus);
    }
    if !fw.canDuplicate {
      return Failed(OUT_OF_RESOURCES);
    }
    var dup := new u8[|path|](i requires 0 <= i < |path| => path[i]);
    assert dup[..] == path;
    var q2 := SeekHardDrive(dup);
    RewriteNode(dup, q2);
    var status := fw.locateStatus;
    o := Outcome(status, if status == SUCCESS then Some(fw.located) else None, Some(dup[..]), Some(fw.matched));
  }

  /** What find_boot_dev does: its status, and the device whose block-I/O protocol it asked for. */
  datatype BootDevice = BootDevice(status: Status, asked: Option<Handle>)

  /**
   * find_boot_dev: the loaded-image protocol gives the image's device;
   * the whole drive holding it is preferred, and the image's device is
   * the fallback when that search fails; the block-I/O lookup's status
   * is returned.
   */
  method FindBootDev(imageStatus: Status, imageDevice: Handle, fw: Firmware, blockIo: Handle -> Status) returns (b: BootDevice)
    requires FirmwareOk(fw)
    ensures imageStatus != SUCCESS ==> b == BootDevice(imageStatus, None)
    ensures imageStatus == SUCCESS ==> (b.asked.Some?
      && b.asked.value == (if WholeDriveAsWritten(fw, imageDevice).status == SUCCESS then WholeDriveAsWritten(fw, imageDevice).whole.value else imageDevice)
      && b.status == blockIo(b.asked.value))
  {
    if imageStatus != SUCCESS {
      return BootDevice(imageStatus, None);
    }
    var o := FindWholeDrive(fw, imageDevice);
    WholeDriveCases(fw, imageDevice);
    WholeDriveAgree(fw, imageDevice);
    var dev := if o.status == SUCCESS then o.whole.value else imageDevice;
    b := BootDevice(blockIo(dev), Some(dev));
  }
}
