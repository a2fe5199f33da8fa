/**
 * The ACPICA operating-system layer of the UEFI tool (acpica-osl.c): the
 * width dispatch and the parameter checks of the memory and port access
 * hooks, the table-override hooks, and the identity memory map.
 *
 * Physical memory is an array of bytes, read and written little-endian
 * as on x86; the I/O bus is a record of the in and out instructions
 * issued, and an in instruction yields whatever the device drives.  A
 * null pointer argument is a flag.  Status codes are ACPICA's (AE_OK is
 * 0, AE_BAD_PARAMETER is its programmer-error code 0x1001).
 */
module AcpicaOsl {
  import opened Common

  type AcpiStatus = u32

  const AE_OK: AcpiStatus := 0
  const AE_BAD_PARAMETER: AcpiStatus := 0x1001

  /** The little-endian value of the n bytes at address a. */
  function Load(m: seq<u8>, a: int, n: nat): (v: nat)
    requires 0 <= a && a + n <= |m|
    decreases n
  {
    if n == 0 then 0 else m[a] + 0x100 * Load(m, a + 1, n - 1)
  }

  function Pow256(n: nat): (p: nat)
    ensures p >= 1
  {
    if n == 0 then 1 else 0x100 * Pow256(n - 1)
  }

  /** The n bytes at address a replaced by the low n bytes of v, low byte first. */
  function Store(m: seq<u8>, a: int, v: nat, n: nat): (r: seq<u8>)
    requires 0 <= a && a + n <= |m|
    ensures |r| == |m|
    decreases n
  {
    if n == 0 then m else Store(m[a := v % 0x100], a + 1, v / 0x100, n - 1)
  }

  /** A load is below 256^n. */
  lemma {:induction false} LoadBound(m: seq<u8>, a: int, n: nat)
    requires 0 <= a && a + n <= |m|
    ensures Load(m, a, n) < Pow256(n)
    decreases n
  {
    if n > 0 {
      LoadBound(m, a + 1, n - 1);
    }
  }

  /** A store touches only its own n bytes. */
  lemma {:induction false} StoreElsewhere(m: seq<u8>, a: int, v: nat, n: nat, i: int)
    requires 0 <= a && a + n <= |m| && 0 <= i < |m| && !(a <= i < a + n)
    ensures Store(m, a, v, n)[i] == m[i]
    decreases n
  {
    if n > 0 {
      StoreElsewhere(m[a := v % 0x100], a + 1, v / 0x100, n - 1, i);
    }
  }

  /** Loading what was stored gives the stored value truncated to n bytes. */
  lemma {:induction false} LoadStore(m: seq<u8>, a: int, v: nat, n: nat)
    requires 0 <= a && a + n <= |m|
    ensures Load(Store(m, a, v, n), a, n) == v % Pow256(n)
    decreases n
  {
    if n > 0 {
      var m1 := m[a := v % 0x100];
      LoadStore(m1, a + 1, v / 0x100, n - 1);
      StoreElsewhere(m1, a + 1, v / 0x100, n - 1, a);
      ModSplit(v, Pow256(n - 1));
    }
  }

  /** v mod 256p is its low byte plus 256 times (v / 256) mod p. */
  lemma ModSplit(v: nat, p: nat)
    requires p >= 1
    ensures v % (0x100 * p) == v % 0x100 + 0x100 * ((v / 0x100) % p)
  {
    var q := v / 0x100;
    var r := v % 0x100;
    assert v == 0x100 * q + r;
    var q2 := q / p;
    var r2 := q % p;
    assert q == p * q2 + r2;
    assert v == (0x100 * p) * q2 + (0x100 * r2 + r);
    assert 0 <= 0x100 * r2 + r < 0x100 * p;
    DivModUnique(v, 0x100 * p, q2, 0x100 * r2 + r);
  }

  /** The widths the memory hooks accept, in bits. */
  predicate MemWidth(width: u32)
  {
    width == 8 || width == 16 || width == 32 || width == 64
  }

  /** The widths the port hooks accept, in bits. */
  predicate PortWidth(width: u32)
  {
    width == 8 || width == 16 || width == 32
  }

  datatype PortOp = In(port: u16, bits: int) | Out(port: u16, value: int, bits: int)

  /** The machine the hooks work on: physical memory and the I/O bus. */
  class Machine {
    const mem: array<u8>
    /** The in and out instructions issued so far, oldest first. */
    var io: seq<PortOp>

    constructor (mem: array<u8>)
      ensures this.mem == mem && io == []
    {
      this.mem := mem;
      io := [];
    }

    /**
     * AcpiOsReadMemory: a null value pointer or an unknown width is a bad
     * parameter; otherwise the value is the zero-extended load of that
     * many bits at the address.
     */
    method ReadMemory(address: int, valueNull: bool, width: u32) returns (status: AcpiStatus, value: Option<u64>)
      requires MemWidth(width) ==> 0 <= address && address + width as int / 8 <= mem.Length
      ensures status == AE_OK <==> !valueNull && MemWidth(width)
      ensures status != AE_OK ==> status == AE_BAD_PARAMETER && value == None
      ensures status == AE_OK ==> value == Some(Load(mem[..], address, width as int / 8))
    {
      if valueNull {
        return AE_BAD_PARAMETER, None;
      }
      if !MemWidth(width) {
        return AE_BAD_PARAMETER, None;
      }
      var n := width as int / 8;
      LoadBound(mem[..], address, n);
      assert Pow256(n) <= U64_MOD by { assert n <= 8; PowMono(n, 8); }
      status, value := AE_OK, Some(Load(mem[..], address, n));
    }

    /**
     * AcpiOsWriteMemory: the value truncated to the width is stored at the
     * address, low byte first; an unknown width is a bad parameter and
     * stores nothing.
     */
    method WriteMemory(address: int, value: u64, width: u32) returns (status: AcpiStatus)
      requires MemWidth(width) ==> 0 <= address && address + width as int / 8 <= mem.Length
      modifies mem
      ensures status == AE_OK <==> MemWidth(width)
      ensures status != AE_OK ==> status == AE_BAD_PARAMETER && mem[..] == old(mem[..])
      ensures status == AE_OK ==> mem[..] == Store(old(mem[..]), address, value, width as int / 8)
    {
      if !MemWidth(width) {
        return AE_BAD_PARAMETER;
      }
      var n := width as int / 8;
      var i := 0;
      var v: nat := value;
      while i < n
        invariant 0 <= i <= n
        invariant Store(old(mem[..]), address, value, n) == Store(mem[..], address + i, v, n - i)
      {
        mem[address + i] := v % 0x100;
        v := v / 0x100;
        i := i + 1;
      }
      status := AE_OK;
    }

    /**
     * AcpiOsReadPort: a null value pointer, a port above 0xffff or an
     * unknown width is a bad parameter and issues nothing; otherwise one
     * in instruction of that width, whose result (what the device drives,
     * cut to the width) is zero-extended.
     */
    method ReadPort(port: u64, valueNull: bool, width: u32, driven: u32) returns (status: AcpiStatus, value: Option<u32>)
      modifies this`io
      ensures status == AE_OK <==> !valueNull && port <= 0xffff && PortWidth(width)
      ensures status != AE_OK ==> status == AE_BAD_PARAMETER && value == None && io == old(io)
      ensures status == AE_OK ==> io == old(io) + [In(port, width as int)] && value == Some(driven % PortMod(width))
    {
      if valueNull || port > 0xffff {
        return AE_BAD_PARAMETER, None;
      }
      if !PortWidth(width) {
        return AE_BAD_PARAMETER, None;
      }
      io := io + [In(port, width as int)];
      status, value := AE_OK, Some(driven % PortMod(width));
    }

    /**
     * AcpiOsWritePort as written: the null-pointer test of the read hook
     * is applied to the value, so writing 0 is refused; and the 16-bit
     * case hands the whole 32-bit value to the out instruction, which
     * makes it a 32-bit write.
     */
    method WritePortAsWritten(port: u64, value: u32, width: u32) returns (status: AcpiStatus)
      modifies this`io
      ensures status == AE_OK <==> value != 0 && port <= 0xffff && PortWidth(width)
      ensures status != AE_OK ==> status == AE_BAD_PARAMETER && io == old(io)
      ensures status == AE_OK ==> io == old(io) + [WriteAsWritten(port, value, width)]
    {
      if value == 0 || port > 0xffff {
        return AE_BAD_PARAMETER;
      }
      if !PortWidth(width) {
        return AE_BAD_PARAMETER;
      }
      io := io + [WriteAsWritten(port, value, width)];
      status := AE_OK;
    }

    /**
     * AcpiOsWritePort as intended: only a port above 0xffff or an
     * unknown width is a bad parameter; the value, cut to the width, is
     * written with one out instruction of that width.
     */
    method WritePort(port: u64, value: u32, width: u32) returns (status: AcpiStatus)
      modifies this`io
      ensures status == AE_OK <==> port <= 0xffff && PortWidth(width)
      ensures status != AE_OK ==> status == AE_BAD_PARAMETER && io == old(io)
      ensures status == AE_OK ==> io == old(io) + [Out(port, value % PortMod(width), width as int)]
    {
      if port > 0xffff || !PortWidth(width) {
        return AE_BAD_PARAMETER;
      }
      io := io + [Out(port, value % PortMod(width), width as int)];
      status := AE_OK;
    }
  }

  /** 2 to the power of a port width. */
  function PortMod(width: u32): (m: nat)
    requires PortWidth(width)
  {
    if width == 8 then 0x100 else if width == 16 then 0x1_0000 else 0x1_0000_0000
  }

  lemma {:induction false} PowMono(n: nat, k: nat)
    requires n <= k
    ensures Pow256(n) <= Pow256(k)
    decreases k
  {
    if n < k {
      PowMono(n, k - 1);
    }
  }

  /** The out instruction the code as written issues: 8-bit for width 8, 32-bit with the whole value otherwise. */
  function WriteAsWritten(port: u16, value: u32, width: u32): (op: PortOp)
    requires PortWidth(width)
  {
    if width == 8 then Out(port, value % 0x100, 8) else Out(port, value, 32)
  }

  /** As written, a 16-bit write of 0x12345 puts all 32 bits of the value on the bus. */
  lemma WritePortAsWrittenExample()
    ensures WriteAsWritten(0x80, 0x1_2345, 16) == Out(0x80, 0x1_2345, 32)
    ensures WriteAsWritten(0x80, 0x1_2345, 16).bits != 16
  {
  }

  /**
   * The two writes agree on 8-bit and 32-bit ports and on 16-bit values
   * that fit; on a 16-bit port the code as written puts a 32-bit write on
   * the bus, which differs from the intended one exactly when the value
   * does not fit in 16 bits.
   */
  lemma WritePortAgreement(port: u16, value: u32, width: u32)
    requires PortWidth(width)
    ensures width != 16 ==> WriteAsWritten(port, value, width) == Out(port, value % PortMod(width), width as int)
    ensures width == 16 ==> WriteAsWritten(port, value, width).bits == 32
    ensures width == 16 ==> (WriteAsWritten(port, value, width).value == value % PortMod(width) <==> value < 0x1_0000)
  {
  }

  /** AcpiOsPredefinedOverride: no replacement for any predefined name; the result is stored only when both pointers are given. */
  function PredefinedOverride(objNull: bool, newValNull: bool): (r: (AcpiStatus, Option<int>))
    ensures r.0 == AE_OK <==> !objNull && !newValNull
    ensures r.0 != AE_OK ==> r.0 == AE_BAD_PARAMETER && r.1 == None
    ensures r.0 == AE_OK ==> r.1 == Some(0)
  {
    if objNull || newValNull then (AE_BAD_PARAMETER, None) else (AE_OK, Some(0))
  }

  /** AcpiOsTableOverride: no replacement table. */
  function TableOverride(oldNull: bool, newNull: bool): (r: (AcpiStatus, Option<int>))
    ensures r.0 == AE_OK <==> !oldNull && !newNull
    ensures r.0 != AE_OK ==> r.0 == AE_BAD_PARAMETER && r.1 == None
    ensures r.0 == AE_OK ==> r.1 == Some(0)
  {
    if oldNull || newNull then (AE_BAD_PARAMETER, None) else (AE_OK, Some(0))
  }

  /** AcpiOsPhysicalTableOverride: no replacement, address and size both zero. */
  function PhysicalTableOverride(oldNull: bool, addrNull: bool, sizeNull: bool): (r: (AcpiStatus, Option<(int, int)>))
    ensures r.0 == AE_OK <==> !oldNull && !addrNull && !sizeNull
    ensures r.0 != AE_OK ==> r.0 == AE_BAD_PARAMETER && r.1 == None
    ensures r.0 == AE_OK ==> r.1 == Some((0, 0))
  {
    if oldNull || addrNull || sizeNull then (AE_BAD_PARAMETER, None) else (AE_OK, Some((0, 0)))
  }

  /** AcpiOsMapMemory: physical addresses are used as they are. */
  function MapMemory(address: u64, size: u64): (p: u64)
  {
    address
  }

  /** Memory read through a mapping is the memory at the physical address, whatever the size mapped. */
  lemma MapMemoryIdentity(m: seq<u8>, address: u64, size: u64, n: nat)
    requires address as int + n <= |m|
    ensures MapMemory(address, size) == address
    ensures Load(m, MapMemory(address, size), n) == Load(m, address, n)
  {
  }
}
