/** WebAssembly linear memory as a byte sequence, with the unaligned
    little-endian loads and stores the runtime performs through raw
    pointers (`read_unaligned`, `write_unaligned`, `read_u32_at`). */
module LinearMemory {
  import opened Words

  type Mem = seq<u8>

  /** How a WebAssembly computation ends: it returns a value, or it traps
      (`unreachable`, an out-of-bounds access, a failed allocation) and the
      handler invocation is over. */
  datatype Exec<+T> = Returned(value: T) | Trapped

  /** Size of a WebAssembly page. */
  const PAGE_SIZE: nat := 65536
  /** wasm32 addresses at most 65536 pages (4 GiB). */
  const MAX_PAGES: nat := 65536

  /** The n bytes at addr, read as an unsigned little-endian value. */
  function ReadLe(mem: Mem, addr: nat, n: nat): (v: nat)
    requires addr + n <= |mem|
    ensures v < Pow256(n)
  {
    LeValueBound(mem[addr..addr + n]);
    LeValue(mem[addr..addr + n])
  }

  /** A 32-bit little-endian load; wasm32 needs no alignment. */
  function ReadU32(mem: Mem, addr: nat): u32
    requires addr + 4 <= |mem|
  {
    ReadLe(mem, addr, 4)
  }

  /** A 16-bit little-endian load. */
  function ReadU16(mem: Mem, addr: nat): u16
    requires addr + 2 <= |mem|
  {
    ReadLe(mem, addr, 2)
  }

  /** Replace the bytes at addr with bs; nothing else changes. */
  function WriteBytes(mem: Mem, addr: nat, bs: seq<u8>): (m: Mem)
    requires addr + |bs| <= |mem|
    ensures |m| == |mem|
  {
    seq(|mem|, i requires 0 <= i < |mem| => if addr <= i < addr + |bs| then bs[i - addr] else mem[i])
  }

  /** A store puts its bytes in its range and changes no byte outside it. */
  lemma WriteBytesFrame(mem: Mem, addr: nat, bs: seq<u8>)
    requires addr + |bs| <= |mem|
    ensures WriteBytes(mem, addr, bs)[addr..addr + |bs|] == bs
    ensures forall i :: 0 <= i < |mem| && !(addr <= i < addr + |bs|) ==> WriteBytes(mem, addr, bs)[i] == mem[i]
    ensures forall i :: addr <= i < addr + |bs| ==> WriteBytes(mem, addr, bs)[i] == bs[i - addr]
  {
  }

  function WriteU32(mem: Mem, addr: nat, w: u32): (m: Mem)
    requires addr + 4 <= |mem|
    ensures |m| == |mem|
  {
    WriteBytes(mem, addr, LeBytes(w, 4))
  }

  function WriteU16(mem: Mem, addr: nat, u: u16): (m: Mem)
    requires addr + 2 <= |mem|
    ensures |m| == |mem|
  {
    WriteBytes(mem, addr, LeBytes(u, 2))
  }

  /** A load returns what a store of the same width at the same address wrote. */
  lemma ReadU32AfterWrite(mem: Mem, addr: nat, w: u32)
    requires addr + 4 <= |mem|
    ensures ReadU32(WriteU32(mem, addr, w), addr) == w
  {
    WriteBytesFrame(mem, addr, LeBytes(w, 4));
    LeValueOfLeBytes(w, 4);
  }

  lemma ReadU16AfterWrite(mem: Mem, addr: nat, u: u16)
    requires addr + 2 <= |mem|
    ensures ReadU16(WriteU16(mem, addr, u), addr) == u
  {
    WriteBytesFrame(mem, addr, LeBytes(u, 2));
    LeValueOfLeBytes(u, 2);
  }

  /** Two stores to adjacent ranges are one store of the joined bytes. */
  lemma WriteBytesAdjacent(mem: Mem, addr: nat, a: seq<u8>, b: seq<u8>)
    requires addr + |a| + |b| <= |mem|
    ensures WriteBytes(WriteBytes(mem, addr, a), addr + |a|, b) == WriteBytes(mem, addr, a + b)
  {
    var lhs := WriteBytes(WriteBytes(mem, addr, a), addr + |a|, b);
    var rhs := WriteBytes(mem, addr, a + b);
    forall i | 0 <= i < |mem|
      ensures lhs[i] == rhs[i]
    {
    }
  }

  /** A load inside a stored range reads the stored bytes. */
  lemma ReadLeInsideWrite(mem: Mem, addr: nat, bs: seq<u8>, off: nat, n: nat)
    requires addr + |bs| <= |mem| && off + n <= |bs|
    ensures ReadLe(WriteBytes(mem, addr, bs), addr + off, n) == LeValue(bs[off..off + n])
  {
    WriteBytesFrame(mem, addr, bs);
    assert WriteBytes(mem, addr, bs)[addr + off..addr + off + n] == bs[off..off + n];
  }

  /** Loads depend only on the bytes they cover. */
  lemma ReadLeFrame(m1: Mem, m2: Mem, addr: nat, n: nat)
    requires addr + n <= |m1| && addr + n <= |m2|
    requires forall i :: addr <= i < addr + n ==> m1[i] == m2[i]
    ensures ReadLe(m1, addr, n) == ReadLe(m2, addr, n)
  {
    assert m1[addr..addr + n] == m2[addr..addr + n];
  }

  /** A store leaves every byte outside its range, and so every load of a
      disjoint range, unchanged. */
  lemma ReadLeAfterDisjointWrite(mem: Mem, addr: nat, bs: seq<u8>, a: nat, n: nat)
    requires addr + |bs| <= |mem| && a + n <= |mem|
    requires a + n <= addr || addr + |bs| <= a
    ensures ReadLe(WriteBytes(mem, addr, bs), a, n) == ReadLe(mem, a, n)
  {
    WriteBytesFrame(mem, addr, bs);
    ReadLeFrame(WriteBytes(mem, addr, bs), mem, a, n);
  }

  /** Zero-filled bytes, as `memory.grow` adds them. */
  function Zeros(n: nat): (z: seq<u8>)
    ensures |z| == n
    ensures forall i :: 0 <= i < n ==> z[i] == 0
  {
    seq(n, _ => 0)
  }
}
