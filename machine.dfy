/** Process memory as the loader sees it: a window of bytes indexed by
    address, each byte carrying the page protection the operating system
    applies to it. */
module Machine {
  import opened Bytes

  /** A page-protection value as VirtualProtect takes and returns it. */
  datatype Protection = Protection(flags: nat)

  /** PAGE_EXECUTE_READWRITE (0x40): the protection that makes code writable. */
  const PageExecuteReadWrite := Protection(0x40)

  /** s with the elements from position at on replaced by v. */
  function Overwritten<T>(s: seq<T>, at: nat, v: seq<T>): (r: seq<T>)
    requires at + |v| <= |s|
    ensures |r| == |s|
    ensures forall i :: 0 <= i < |s| ==> r[i] == if at <= i < at + |v| then v[i - at] else s[i]
  {
    s[..at] + v + s[at + |v|..]
  }

  /** n copies of x. */
  function Uniform<T>(n: nat, x: T): (r: seq<T>)
    ensures |r| == n && forall i :: 0 <= i < n ==> r[i] == x
  {
    seq(n, _ => x)
  }

  /** Writing the same bytes to the same place twice is the same as once. */
  lemma OverwrittenIdempotent<T>(s: seq<T>, at: nat, v: seq<T>)
    requires at + |v| <= |s|
    ensures Overwritten(Overwritten(s, at, v), at, v) == Overwritten(s, at, v)
  {
  }

  class Memory {
    var bytes: array<byte>
    var protection: seq<Protection>

    ghost predicate Valid()
      reads this
    {
      |protection| == bytes.Length
    }

    constructor (contents: seq<byte>, protections: seq<Protection>)
      requires |contents| == |protections|
      ensures Valid() && fresh(bytes)
      ensures bytes[..] == contents && protection == protections
    {
      bytes := new byte[|contents|](i requires 0 <= i < |contents| => contents[i]);
      protection := protections;
    }

    /** VirtualProtect(address, size, newProtection, out oldProtection): gives
        the range [address, address + size) the new protection and reports
        the protection the first byte of the range had. */
    method VirtualProtect(address: nat, size: nat, newProtection: Protection)
      returns (oldProtection: Protection)
      requires Valid() && address < bytes.Length && address + size <= bytes.Length
      modifies this`protection
      ensures Valid()
      ensures oldProtection == old(protection[address])
      ensures protection == Overwritten(old(protection), address, Uniform(size, newProtection))
    {
      oldProtection := protection[address];
      protection := Overwritten(protection, address, Uniform(size, newProtection));
    }

    /** Marshal.Copy(source, 0, address, source.Length): copies the whole of
        source into memory from address on. The destination range must be
        writable, or the copy faults. */
    method Copy(source: array<byte>, address: nat)
      requires Valid() && source != bytes && address + source.Length <= bytes.Length
      requires forall i :: address <= i < address + source.Length ==> protection[i] == PageExecuteReadWrite
      modifies bytes
      ensures bytes[..] == Overwritten(old(bytes[..]), address, source[..])
    {
      forall i | 0 <= i < source.Length {
        bytes[address + i] := source[i];
      }
    }
  }

  /** The pointer store *(T*)(p + at) = x of an n-byte unsigned integer into
      a byte array, in the little-endian order of x86. */
  method StoreLittleEndian(a: array<byte>, at: nat, n: nat, x: nat)
    requires at + n <= a.Length
    modifies a
    ensures a[..] == Overwritten(old(a[..]), at, LittleEndian(x, n))
  {
    var v := LittleEndian(x, n);
    forall i | 0 <= i < n {
      a[at + i] := v[i];
    }
  }
}
