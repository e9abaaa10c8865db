/** The two x86 instruction sequences the loader writes over the placeholder
    method to redirect it to the tool's Execute method, and how an x86
    processor reads them back (Intel 64 and IA-32 Architectures Software
    Developer's Manual, Volume 2: the JMP and MOV instruction entries). */
module JumpStub {
  import opened Wrappers
  import opened Bytes

  /** The process's pointer width: sizeof(void*) == 4 or 8. */
  datatype Arch = X86 | X64

  function PointerSize(arch: Arch): nat
  {
    if arch == X86 then 4 else 8
  }

  /** One past the largest address a pointer of this width can hold. */
  function AddressLimit(arch: Arch): (n: nat)
    ensures n == if arch == X86 then TwoTo32 else TwoTo64
  {
    Pow256Widths();
    Pow256(PointerSize(arch))
  }

  /** The number of bytes the stub for arch occupies. */
  function StubLength(arch: Arch): nat
  {
    if arch == X86 then 5 else 12
  }

  /** The 32-bit two's-complement value with bit pattern u. */
  function SignExtend32(u: nat): (r: int)
    requires u < TwoTo32
    ensures -0x8000_0000 <= r < 0x8000_0000 && r % TwoTo32 == u
  {
    if u < 0x8000_0000 then u else u - TwoTo32
  }

  /** An unchecked conversion to a C# int: x wrapped into the 32-bit signed range. */
  function ToInt32(x: int): (r: int)
    ensures -0x8000_0000 <= r < 0x8000_0000 && r % TwoTo32 == x % TwoTo32
  {
    SignExtend32(x % TwoTo32)
  }

  /** (int)target - (int)address - 5, evaluated left to right in unchecked
      32-bit arithmetic. */
  function Displacement32(address: nat, target: nat): int
  {
    ToInt32(ToInt32(ToInt32(target) - ToInt32(address)) - 5)
  }

  /** The wrapping arithmetic of Displacement32 agrees with the mathematical
      distance target - (address + 5) modulo 2^32, and fits in 32 signed bits. */
  lemma Displacement32Congruent(address: nat, target: nat)
    ensures -0x8000_0000 <= Displacement32(address, target) < 0x8000_0000
    ensures Displacement32(address, target) % TwoTo32 == (target - address - 5) % TwoTo32
  {
    var t, a := ToInt32(target), ToInt32(address);
    var d := ToInt32(t - a);
    assert (t - a) % TwoTo32 == (target - address) % TwoTo32 by {
      ModSubCongruent(t, target, a, address);
    }
    assert (d - 5) % TwoTo32 == (target - address - 5) % TwoTo32 by {
      ModSubCongruent(d, target - address, 5, 5);
    }
  }

  lemma ModSubCongruent(x: int, x': int, y: int, y': int)
    requires x % TwoTo32 == x' % TwoTo32 && y % TwoTo32 == y' % TwoTo32
    ensures (x - y) % TwoTo32 == (x' - y') % TwoTo32
  {
  }

  /** JMP rel32 (opcode E9 followed by a 32-bit little-endian displacement
      measured from the end of the 5-byte instruction). */
  function JmpRel32(address: nat, target: nat): seq<byte>
  {
    [0xE9] + LittleEndian(Displacement32(address, target) % TwoTo32, 4)
  }

  /** MOV RAX, imm64 (REX.W prefix 48, opcode B8, the 8-byte little-endian
      immediate) followed by JMP RAX (opcode FF, ModRM E0). */
  function MovRaxJmpRax(target: nat): seq<byte>
  {
    [0x48, 0xB8] + LittleEndian(target, 8) + [0xFF, 0xE0]
  }

  /** The stub WriteJmp writes at address to reach target. */
  function Stub(arch: Arch, address: nat, target: nat): (s: seq<byte>)
    ensures |s| == StubLength(arch)
  {
    if arch == X86 then JmpRel32(address, target) else MovRaxJmpRax(target)
  }

  /** The 32-bit stub: five bytes, E9 first, then the little-endian pattern
      of (target - address - 5) mod 2^32. */
  lemma JmpRel32Layout(address: nat, target: nat)
    ensures var s := JmpRel32(address, target);
      |s| == 5 && s[0] == 0xE9 &&
      FromLittleEndian(s[1..5]) == (target - address - 5) % TwoTo32
  {
    var s := JmpRel32(address, target);
    var d := Displacement32(address, target);
    var u := d % TwoTo32;
    assert s[1..5] == LittleEndian(u, 4);
    assert FromLittleEndian(LittleEndian(u, 4)) == u by {
      LittleEndianRoundTrip(u, 4);
      Pow256Widths();
    }
    Displacement32Congruent(address, target);
  }

  /** The 64-bit stub: twelve bytes 48 B8 imm64 FF E0 whose immediate reads
      back as target. */
  lemma MovRaxJmpRaxLayout(target: nat)
    requires target < TwoTo64
    ensures var s := MovRaxJmpRax(target);
      |s| == 12 && s[0] == 0x48 && s[1] == 0xB8 && s[10] == 0xFF && s[11] == 0xE0 &&
      FromLittleEndian(s[2..10]) == target
  {
    var s := MovRaxJmpRax(target);
    assert s[2..10] == LittleEndian(target, 8);
    LittleEndianRoundTrip(target, 8);
    Pow256Widths();
  }

  /** Where control goes when an x86 processor executes the bytes of code from
      position at on, for the two jump forms above: a JMP rel32 continues at
      the end of the instruction plus the sign-extended displacement (wrapping
      at 2^32); MOV RAX, imm64; JMP RAX continues at the immediate. Any other
      bytes are not a jump this model knows. */
  function JumpTarget(arch: Arch, code: seq<byte>, at: nat): Option<nat>
  {
    if arch == X86 then
      if at + 5 <= |code| && code[at] == 0xE9 then
        Pow256Widths();
        Some((at + 5 + SignExtend32(FromLittleEndian(code[at + 1..at + 5]))) % TwoTo32)
      else None
    else
      if at + 12 <= |code| && code[at] == 0x48 && code[at + 1] == 0xB8
         && code[at + 10] == 0xFF && code[at + 11] == 0xE0 then
        Some(FromLittleEndian(code[at + 2..at + 10]))
      else None
  }

  /** A JMP rel32 written at address transfers control to target. */
  lemma JmpRel32JumpsToTarget(code: seq<byte>, address: nat, target: nat)
    requires address + 5 <= |code| && target < TwoTo32
    ensures var s := JmpRel32(address, target);
      JumpTarget(X86, code[..address] + s + code[address + 5..], address) == Some(target)
  {
    var s := JmpRel32(address, target);
    var patched := code[..address] + s + code[address + 5..];
    JmpRel32Layout(address, target);
    assert patched[address + 1..address + 5] == s[1..5];
    assert SignExtend32(FromLittleEndian(s[1..5])) == Displacement32(address, target) by {
      Displacement32Congruent(address, target);
    }
    JumpLandsOnTarget(address, target);
  }

  /** The end of the instruction plus the displacement is target, mod 2^32. */
  lemma JumpLandsOnTarget(address: nat, target: nat)
    requires target < TwoTo32
    ensures (address + 5 + Displacement32(address, target)) % TwoTo32 == target
  {
    var d := Displacement32(address, target);
    Displacement32Congruent(address, target);
    ModSubCongruent(d, target - address - 5, -(address + 5), -(address + 5));
  }

  /** MOV RAX, imm64; JMP RAX written at address transfers control to target. */
  lemma MovRaxJmpRaxJumpsToTarget(code: seq<byte>, address: nat, target: nat)
    requires address + 12 <= |code| && target < TwoTo64
    ensures var s := MovRaxJmpRax(target);
      JumpTarget(X64, code[..address] + s + code[address + 12..], address) == Some(target)
  {
    var s := MovRaxJmpRax(target);
    var patched := code[..address] + s + code[address + 12..];
    MovRaxJmpRaxLayout(target);
    assert patched[address..address + 12] == s;
    assert patched[address + 2..address + 10] == s[2..10];
  }

  /** Writing the stub at address makes the code there jump to target. */
  lemma StubJumpsToTarget(arch: Arch, code: seq<byte>, address: nat, target: nat)
    requires address + StubLength(arch) <= |code| && target < AddressLimit(arch)
    ensures var s := Stub(arch, address, target);
      JumpTarget(arch, code[..address] + s + code[address + |s|..], address) == Some(target)
  {
    if arch == X86 {
      JmpRel32JumpsToTarget(code, address, target);
    } else {
      MovRaxJmpRaxJumpsToTarget(code, address, target);
    }
  }
}
