/** AssemblyScript values in linear memory: typed pointers, the layout of
    arrays, typed maps and the store-value enum, word reads at a pointer
    plus an offset, and the string and byte-buffer conversions between Rust
    values and AssemblyScript objects. */
module Asc {
  import opened Wrappers
  import opened Words
  import opened LinearMemory
  import opened Allocator
  import opened Utf16

  // ---------------------------------------------------------------------
  // Pointers
  // ---------------------------------------------------------------------

  /** `AscPtr<T>`: a 32-bit offset into linear memory. The phantom type `T`
      has no runtime representation and is not modelled. */
  datatype AscPtr = AscPtr(offset: u32)

  /** `AscPtr::null()`. */
  function NullPtr(): (p: AscPtr)
    ensures IsNull(p)
  {
    AscPtr(0)
  }

  /** `is_null`: the offset is 0. */
  predicate IsNull(p: AscPtr)
  {
    p.offset == 0
  }

  /** `PartialEq for AscPtr<T>`: two pointers are equal when their offsets
      are. */
  predicate PtrEq(a: AscPtr, b: AscPtr)
  {
    a.offset == b.offset
  }

  /** `as_raw`. */
  function AsRaw(p: AscPtr): (r: u32)
    ensures AscPtr(r) == p
  {
    p.offset
  }

  /** `as_i32`: the offset reinterpreted as a signed word, so offsets of
      2 GiB and above come out negative. */
  function AsI32(p: AscPtr): (r: i32)
    ensures I32AsU32(r) == p.offset
    ensures r < 0 <==> p.offset >= 0x8000_0000
  {
    U32AsI32(p.offset)
  }

  /** The null pointer is the only null pointer, and pointer equality is
      equality of offsets and nothing more. */
  lemma PtrFacts(a: AscPtr, b: AscPtr)
    ensures IsNull(a) <==> a == NullPtr()
    ensures PtrEq(a, b) <==> a == b
    ensures PtrEq(a, b) <==> AsRaw(a) == AsRaw(b)
  {
  }

  // ---------------------------------------------------------------------
  // Layouts (`#[repr(C)]`, after the 20-byte header)
  // ---------------------------------------------------------------------

  /** `AscArrayHeader`: four consecutive words. */
  datatype ArrayHeader = ArrayHeader(buffer: u32, bufferDataStart: u32, bufferDataLength: u32, length: i32)

  /** `AscTypedMapHeader`: one word. */
  datatype TypedMapHeader = TypedMapHeader(entries: u32)

  /** `AscTypedMapEntryHeader`: two words. */
  datatype TypedMapEntryHeader = TypedMapEntryHeader(key: u32, value: u32)

  /** `AscEnumHeader`: the kind, a padding word, and an 8-byte payload. */
  datatype EnumHeader = EnumHeader(kind: i32, padding: u32, payload: u64)

  function ArrayHeaderBytes(h: ArrayHeader): (bs: seq<u8>)
    ensures |bs| == 16
  {
    LeBytes(h.buffer, 4) + LeBytes(h.bufferDataStart, 4) + LeBytes(h.bufferDataLength, 4) + LeBytes(I32AsU32(h.length), 4)
  }

  /** Reads an `AscArrayHeader` at `ptr`: field k is the word at `ptr + 4k`. */
  function ReadArrayHeader(mem: Mem, ptr: nat): ArrayHeader
    requires ptr + 16 <= |mem|
  {
    ArrayHeader(ReadU32(mem, ptr), ReadU32(mem, ptr + 4), ReadU32(mem, ptr + 8), U32AsI32(ReadU32(mem, ptr + 12)))
  }

  function ReadTypedMapHeader(mem: Mem, ptr: nat): TypedMapHeader
    requires ptr + 4 <= |mem|
  {
    TypedMapHeader(ReadU32(mem, ptr))
  }

  function ReadTypedMapEntryHeader(mem: Mem, ptr: nat): TypedMapEntryHeader
    requires ptr + 8 <= |mem|
  {
    TypedMapEntryHeader(ReadU32(mem, ptr), ReadU32(mem, ptr + 4))
  }

  function TypedMapHeaderBytes(h: TypedMapHeader): (bs: seq<u8>)
    ensures |bs| == 4
  {
    LeBytes(h.entries, 4)
  }

  function TypedMapEntryHeaderBytes(h: TypedMapEntryHeader): (bs: seq<u8>)
    ensures |bs| == 8
  {
    LeBytes(h.key, 4) + LeBytes(h.value, 4)
  }

  function EnumHeaderBytes(h: EnumHeader): (bs: seq<u8>)
    ensures |bs| == 16
  {
    LeBytes(I32AsU32(h.kind), 4) + LeBytes(h.padding, 4) + LeBytes(h.payload, 8)
  }

  /** Reads an `AscEnumHeader` at `ptr`: kind at +0, padding at +4 and the
      u64 payload at +8. */
  function ReadEnumHeader(mem: Mem, ptr: nat): EnumHeader
    requires ptr + 16 <= |mem|
  {
    EnumHeader(U32AsI32(ReadU32(mem, ptr)), ReadU32(mem, ptr + 4), ReadLe(mem, ptr + 8, 8))
  }

  /** The array layout has no gaps: writing the four fields as consecutive
      little-endian words and reading the header back gives the same header. */
  lemma ArrayHeaderRoundTrip(mem: Mem, ptr: nat, h: ArrayHeader)
    requires ptr + 16 <= |mem|
    ensures ReadArrayHeader(WriteBytes(mem, ptr, ArrayHeaderBytes(h)), ptr) == h
  {
    var bs := ArrayHeaderBytes(h);
    ReadLeInsideWrite(mem, ptr, bs, 0, 4);
    ReadLeInsideWrite(mem, ptr, bs, 4, 4);
    ReadLeInsideWrite(mem, ptr, bs, 8, 4);
    ReadLeInsideWrite(mem, ptr, bs, 12, 4);
    assert bs[0..4] == LeBytes(h.buffer, 4);
    assert bs[4..8] == LeBytes(h.bufferDataStart, 4);
    assert bs[8..12] == LeBytes(h.bufferDataLength, 4);
    assert bs[12..16] == LeBytes(I32AsU32(h.length), 4);
    LeValueOfLeBytes(h.buffer, 4);
    LeValueOfLeBytes(h.bufferDataStart, 4);
    LeValueOfLeBytes(h.bufferDataLength, 4);
    LeValueOfLeBytes(I32AsU32(h.length), 4);
  }

  /** The typed-map layout: the entries pointer reads back from +0. */
  lemma TypedMapHeaderRoundTrip(mem: Mem, ptr: nat, h: TypedMapHeader)
    requires ptr + 4 <= |mem|
    ensures ReadTypedMapHeader(WriteBytes(mem, ptr, TypedMapHeaderBytes(h)), ptr) == h
  {
    var bs := TypedMapHeaderBytes(h);
    ReadLeInsideWrite(mem, ptr, bs, 0, 4);
    assert bs[0..4] == bs;
    LeValueOfLeBytes(h.entries, 4);
  }

  /** The typed-map entry layout: key at +0 and value at +4. */
  lemma TypedMapEntryHeaderRoundTrip(mem: Mem, ptr: nat, h: TypedMapEntryHeader)
    requires ptr + 8 <= |mem|
    ensures ReadTypedMapEntryHeader(WriteBytes(mem, ptr, TypedMapEntryHeaderBytes(h)), ptr) == h
  {
    var bs := TypedMapEntryHeaderBytes(h);
    ReadLeInsideWrite(mem, ptr, bs, 0, 4);
    ReadLeInsideWrite(mem, ptr, bs, 4, 4);
    assert bs[0..4] == LeBytes(h.key, 4);
    assert bs[4..8] == LeBytes(h.value, 4);
    LeValueOfLeBytes(h.key, 4);
    LeValueOfLeBytes(h.value, 4);
  }

  /** The enum layout: kind, padding and payload read back from their
      offsets. */
  lemma EnumHeaderRoundTrip(mem: Mem, ptr: nat, h: EnumHeader)
    requires ptr + 16 <= |mem|
    ensures ReadEnumHeader(WriteBytes(mem, ptr, EnumHeaderBytes(h)), ptr) == h
  {
    var bs := EnumHeaderBytes(h);
    assert Pow256(4) == 0x1_0000_0000;
    assert Pow256(8) == 0x1_0000_0000_0000_0000;
    ReadLeInsideWrite(mem, ptr, bs, 0, 4);
    ReadLeInsideWrite(mem, ptr, bs, 4, 4);
    ReadLeInsideWrite(mem, ptr, bs, 8, 8);
    assert bs[0..4] == LeBytes(I32AsU32(h.kind), 4);
    assert bs[4..8] == LeBytes(h.padding, 4);
    assert bs[8..16] == LeBytes(h.payload, 8);
    LeValueOfLeBytes(I32AsU32(h.kind), 4);
    LeValueOfLeBytes(h.padding, 4);
    LeValueOfLeBytes(h.payload, 8);
  }

  /** `StoreValueKind`, graph-ts's `ValueKind`. */
  datatype StoreValueKind = String | Int | BigDecimal | Bool | Array | Null | Bytes | BigInt | Int8 | Timestamp

  /** The `#[repr(i32)]` discriminants. */
  function Discriminant(k: StoreValueKind): (d: i32)
    ensures 0 <= d < 10
  {
    match k
    case String => 0
    case Int => 1
    case BigDecimal => 2
    case Bool => 3
    case Array => 4
    case Null => 5
    case Bytes => 6
    case BigInt => 7
    case Int8 => 8
    case Timestamp => 9
  }

  /** Every discriminant in 0..10 names exactly one kind. */
  lemma DiscriminantsDistinct(k1: StoreValueKind, k2: StoreValueKind)
    ensures Discriminant(k1) == Discriminant(k2) <==> k1 == k2
  {
  }

  // ---------------------------------------------------------------------
  // Scalars and word reads
  // ---------------------------------------------------------------------

  /** `bool::from_asc_ptr`: the argument itself is the value; any non-zero
      word is true. */
  function BoolFromAscPtr(ptr: u32): (b: bool)
    ensures b <==> !IsNull(AscPtr(ptr))
  {
    ptr != 0
  }

  /** `i32::from_asc_ptr`: the word reinterpreted as two's complement. */
  function I32FromAscPtr(ptr: u32): (v: i32)
    ensures I32AsU32(v) == ptr
  {
    U32AsI32(ptr)
  }

  /** `u32::from_asc_ptr`: the word unchanged. */
  function U32FromAscPtr(ptr: u32): (v: u32)
    ensures AscPtr(v) == AscPtr(ptr)
  {
    ptr
  }

  /** `read_u32_at(base, offset)`: the little-endian word at
      `base + offset`, with no alignment requirement. The caller guarantees
      the four bytes lie in memory. */
  function ReadU32At(mem: Mem, base: u32, offset: nat): u32
    requires base + offset + 4 <= |mem|
  {
    ReadU32(mem, base + offset)
  }

  /** `read_i32_at`. */
  function ReadI32At(mem: Mem, base: u32, offset: nat): (v: i32)
    requires base + offset + 4 <= |mem|
    ensures I32AsU32(v) == ReadU32At(mem, base, offset)
  {
    U32AsI32(ReadU32(mem, base + offset))
  }

  /** `read_u64_at`. */
  function ReadU64At(mem: Mem, base: u32, offset: nat): u64
    requires base + offset + 8 <= |mem|
  {
    ReadLe(mem, base + offset, 8)
  }

  /** A word read at `base + offset` returns the word stored there, and the
      value depends on those four bytes only. */
  lemma ReadU32AtAfterWrite(mem: Mem, base: u32, offset: nat, w: u32)
    requires base + offset + 4 <= |mem|
    ensures ReadU32At(WriteU32(mem, base + offset, w), base, offset) == w
  {
    ReadU32AfterWrite(mem, base + offset, w);
  }

  lemma ReadU64AtAfterWrite(mem: Mem, base: u32, offset: nat, v: u64)
    requires base + offset + 8 <= |mem|
    ensures ReadU64At(WriteBytes(mem, base + offset, U64LeBytes(v)), base, offset) == v
  {
    ReadLeInsideWrite(mem, base + offset, U64LeBytes(v), 0, 8);
    assert U64LeBytes(v)[0..8] == U64LeBytes(v);
    U64LeRoundTrip(v);
  }

  // ---------------------------------------------------------------------
  // Strings
  // ---------------------------------------------------------------------

  /** UTF-16 units stored one after another, each as two little-endian
      bytes: byte j is byte `j % 2` of unit `j / 2`. */
  function UnitsLe(units: seq<u16>): (bs: seq<u8>)
    ensures |bs| == 2 * |units|
  {
    seq(2 * |units|, j requires 0 <= j < 2 * |units| => LeBytes(units[j / 2], 2)[j % 2])
  }

  /** Unit i occupies bytes `2i .. 2i + 2`. */
  lemma UnitsLeSlice(units: seq<u16>, i: nat)
    requires i < |units|
    ensures UnitsLe(units)[2 * i..2 * i + 2] == LeBytes(units[i], 2)
  {
    var bs := UnitsLe(units);
    assert bs[2 * i] == LeBytes(units[i], 2)[0];
    assert bs[2 * i + 1] == LeBytes(units[i], 2)[1];
  }

  lemma UnitsLeAppend(units: seq<u16>, u: u16)
    ensures UnitsLe(units + [u]) == UnitsLe(units) + LeBytes(u, 2)
  {
    var lhs := UnitsLe(units + [u]);
    var rhs := UnitsLe(units) + LeBytes(u, 2);
    forall j | 0 <= j < |lhs|
      ensures lhs[j] == rhs[j]
    {
      if j < 2 * |units| {
        assert (units + [u])[j / 2] == units[j / 2];
      } else {
        assert j / 2 == |units|;
      }
    }
  }

  /** A 16-bit load of unit i from stored units reads back that unit. */
  lemma ReadStoredUnit(mem: Mem, p: nat, units: seq<u16>, i: nat)
    requires p + 2 * |units| <= |mem| && i < |units|
    ensures ReadU16(WriteBytes(mem, p, UnitsLe(units)), p + 2 * i) == units[i]
  {
    var m := WriteBytes(mem, p, UnitsLe(units));
    calc {
      ReadU16(m, p + 2 * i);
      { ReadLeInsideWrite(mem, p, UnitsLe(units), 2 * i, 2); }
      LeValue(UnitsLe(units)[2 * i..2 * i + 2]);
      { UnitsLeSlice(units, i); }
      LeValue(LeBytes(units[i], 2));
      { assert Pow256(2) == 0x1_0000; LeValueOfLeBytes(units[i], 2); }
      units[i];
    }
  }

  /** The `n` UTF-16 units at `ptr`, unit i at `ptr + 2i`. */
  function UnitsAt(mem: Mem, ptr: nat, n: nat): seq<u16>
    requires ptr + 2 * n <= |mem|
  {
    seq(n, i requires 0 <= i < n => ReadU16(mem, ptr + 2 * i))
  }

  /** What `asc_to_string` needs of its argument: null, or a string object
      whose header and `rt_size / 2` units lie in memory. */
  ghost predicate StringPtrValid(mem: Mem, ptr: u32)
  {
    ptr == 0 || (4 <= ptr <= |mem| && ptr + RtSize(mem, ptr) / 2 * 2 <= |mem|)
  }

  /** The string an AssemblyScript string object holds: its `rt_size / 2`
      units (an odd trailing byte is ignored), decoded lossily. A null
      pointer holds the empty string. */
  function StringAt(mem: Mem, ptr: u32): string
    requires StringPtrValid(mem, ptr)
  {
    if ptr == 0 then "" else DecodeUtf16Lossy(UnitsAt(mem, ptr, RtSize(mem, ptr) / 2))
  }

  /** `asc_to_string`: a null pointer gives "" without reading memory;
      otherwise the units are read one by one and decoded lossily. */
  method AscToString(mem: Mem, ptr: AscPtr) returns (s: string)
    requires StringPtrValid(mem, ptr.offset)
    ensures s == StringAt(mem, ptr.offset)
  {
    if IsNull(ptr) {
      return "";
    }
    var raw := AsRaw(ptr);
    var len := RtSize(mem, raw) / 2;
    var units: seq<u16> := [];
    var i := 0;
    while i < len
      invariant 0 <= i <= len
      invariant units == UnitsAt(mem, raw, i)
    {
      units := units + [ReadU16(mem, raw + 2 * i)];
      i := i + 1;
    }
    s := DecodeUtf16Lossy(units);
  }

  /** How many of `n` consecutive unit stores from `p` stay inside memory of
      length `len`: the loop traps at the first one that does not. */
  function UnitsThatFit(len: nat, p: nat, n: nat): (k: nat)
    ensures k <= n
    ensures k < n ==> p + 2 * k + 2 > len
    ensures p + 2 * k <= len || k == 0
  {
    if p + 2 * n <= len then n
    else if p + 2 > len then 0
    else (len - p) / 2
  }

  /** The byte length `str_to_asc` allocates: `utf16.len() * 2` as a u32. */
  function StringByteLen(s: string): u32
  {
    Wrap32(2 * |EncodeUtf16(s)|)
  }

  /** `str_to_asc` as a state transition: allocate a string object (rtId 2)
      of `2 * units` bytes, then store unit i at `ptr + 2i`; a store past the
      end of memory traps after the units before it were written. */
  function StrToAscSpec(cfg: Config, st: HeapState, s: string): (res: (HeapState, Exec<AscPtr>))
    requires ValidState(cfg, st)
    ensures ValidState(cfg, res.0)
  {
    var units := EncodeUtf16(s);
    var a := Allocate(cfg, st, StringByteLen(s), STRING);
    if a.1.Trapped? then (a.0, Trapped)
    else
      var p := a.1.value;
      var k := UnitsThatFit(|a.0.mem|, p, |units|);
      (a.0.(mem := WriteBytes(a.0.mem, p, UnitsLe(units[..k]))),
       if k == |units| then Returned(AscPtr(p)) else Trapped)
  }

  /** The loop stops at unit i exactly when unit i is the first that does
      not fit. */
  lemma UnitsThatFitStops(len: nat, p: nat, n: nat, i: nat)
    requires i < n && p + 2 * i <= len < p + 2 * i + 2
    ensures UnitsThatFit(len, p, n) == i
  {
  }

  /** `StrToAscSpec` after an allocation that returned `p`. */
  lemma StrToAscSpecAfterAlloc(cfg: Config, st: HeapState, s: string, st1: HeapState, p: u32)
    requires ValidState(cfg, st)
    requires Allocate(cfg, st, StringByteLen(s), STRING) == (st1, Returned(p))
    ensures var units := EncodeUtf16(s);
      var k := UnitsThatFit(|st1.mem|, p, |units|);
      && p + 2 * k <= |st1.mem|
      && StrToAscSpec(cfg, st, s) ==
         (st1.(mem := WriteBytes(st1.mem, p, UnitsLe(units[..k]))), if k == |units| then Returned(AscPtr(p)) else Trapped)
  {
    AllocateReturnedIsHeaderWrite(cfg, st, StringByteLen(s), STRING, st1, p);
  }

  /** The store loop of `str_to_asc`: unit i goes to `p + 2i`, and the
      first store past the end of memory traps (reported as `false`). */
  method StoreUnits(heap: Heap, p: u32, units: seq<u16>) returns (ok: bool)
    requires heap.Valid() && p <= |heap.mem|
    modifies heap
    ensures heap.Valid()
    ensures var k := UnitsThatFit(|old(heap.mem)|, p, |units|);
      && ok == (k == |units|)
      && heap.State() == old(heap.State()).(mem := WriteBytes(old(heap.mem), p, UnitsLe(units[..k])))
  {
    ghost var st1 := heap.State();
    var i := 0;
    while i < |units|
      invariant 0 <= i <= |units| && p + 2 * i <= |st1.mem|
      invariant heap.State() == st1.(mem := WriteBytes(st1.mem, p, UnitsLe(units[..i])))
    {
      if p + 2 * i + 2 > |heap.mem| {
        UnitsThatFitStops(|st1.mem|, p, |units|, i);
        return false;
      }
      heap.mem := WriteU16(heap.mem, p + 2 * i, units[i]);
      WriteBytesAdjacent(st1.mem, p, UnitsLe(units[..i]), LeBytes(units[i], 2));
      assert units[..i + 1] == units[..i] + [units[i]];
      UnitsLeAppend(units[..i], units[i]);
      i := i + 1;
    }
    assert units[..i] == units;
    ok := true;
  }

  /** `str_to_asc`. */
  method StrToAsc(heap: Heap, s: string) returns (r: Exec<AscPtr>)
    requires heap.Valid()
    modifies heap
    ensures heap.Valid()
    ensures (heap.State(), r) == StrToAscSpec(heap.cfg, old(heap.State()), s)
  {
    ghost var st := heap.State();
    var units := EncodeUtf16(s);
    var a := heap.Alloc(Wrap32(|units| * 2), STRING);
    if a.Trapped? {
      return Trapped;
    }
    var p := a.value;
    StrToAscSpecAfterAlloc(heap.cfg, st, s, heap.State(), p);
    var ok := StoreUnits(heap, p, units);
    r := if ok then Returned(AscPtr(p)) else Trapped;
  }

  /** A payload store after the header keeps the header words and puts
      every unit where a reader looks for it. */
  lemma StoredUnitsRead(mem: Mem, p: nat, units: seq<u16>)
    requires 8 <= p && p + 2 * |units| <= |mem|
    ensures var m := WriteBytes(mem, p, UnitsLe(units));
      && RtId(m, p) == RtId(mem, p) && RtSize(m, p) == RtSize(mem, p)
      && UnitsAt(m, p, |units|) == units
  {
    var m := WriteBytes(mem, p, UnitsLe(units));
    ReadLeAfterDisjointWrite(mem, p, UnitsLe(units), p - 8, 4);
    ReadLeAfterDisjointWrite(mem, p, UnitsLe(units), p - 4, 4);
    forall i | 0 <= i < |units|
      ensures UnitsAt(m, p, |units|)[i] == units[i]
    {
      ReadStoredUnit(mem, p, units, i);
    }
  }

  /** Without wrap-around, a returned allocation holds all the units. */
  lemma StrToAscStoresAll(cfg: Config, st: HeapState, s: string, st1: HeapState, p: u32)
    requires ValidState(cfg, st)
    requires 2 * |EncodeUtf16(s)| < U32_MODULUS && Fits(cfg, st, 2 * |EncodeUtf16(s)|)
    requires Allocate(cfg, st, StringByteLen(s), STRING) == (st1, Returned(p))
    ensures var units := EncodeUtf16(s);
      && 8 <= p && p + 2 * |units| <= |st1.mem|
      && RtId(st1.mem, p) == STRING && RtSize(st1.mem, p) == 2 * |units|
      && StrToAscSpec(cfg, st, s) == (st1.(mem := WriteBytes(st1.mem, p, UnitsLe(units))), Returned(AscPtr(p)))
  {
    var units := EncodeUtf16(s);
    StrToAscSpecAfterAlloc(cfg, st, s, st1, p);
    AllocateWritesHeader(cfg, st, 2 * |units|, STRING, st1, p);
    assert units[..|units|] == units;
  }

  /** Round trip: on a successful `str_to_asc` without wrap-around, the
      object has rtId 2 and rtSize twice the unit count, holds the UTF-16
      units of the string, and `asc_to_string` returns the original string. */
  lemma StrToAscRoundTrip(cfg: Config, st: HeapState, s: string, st': HeapState, p: u32)
    requires ValidState(cfg, st)
    requires 2 * |EncodeUtf16(s)| < U32_MODULUS && Fits(cfg, st, 2 * |EncodeUtf16(s)|)
    requires StrToAscSpec(cfg, st, s) == (st', Returned(AscPtr(p)))
    ensures RtId(st'.mem, p) == STRING && RtSize(st'.mem, p) == 2 * |EncodeUtf16(s)|
    ensures UnitsAt(st'.mem, p, |EncodeUtf16(s)|) == EncodeUtf16(s)
    ensures StringPtrValid(st'.mem, p) && StringAt(st'.mem, p) == s
  {
    var units := EncodeUtf16(s);
    var a := Allocate(cfg, st, StringByteLen(s), STRING);
    assert a.1 == Returned(p);
    StrToAscStoresAll(cfg, st, s, a.0, p);
    var m := WriteBytes(a.0.mem, p, UnitsLe(units));
    assert st'.mem == m;
    StoredUnitsRead(a.0.mem, p, units);
    assert RtSize(m, p) / 2 == |units|;
    DecodeEncode(s);
    assert StringAt(m, p) == DecodeUtf16Lossy(units);
  }

  /** Without wrap-around the unit stores never trap: `str_to_asc` traps
      exactly when the allocation does. */
  lemma StrToAscTrapsOnlyInAlloc(cfg: Config, st: HeapState, s: string)
    requires ValidState(cfg, st)
    requires 2 * |EncodeUtf16(s)| < U32_MODULUS && Fits(cfg, st, 2 * |EncodeUtf16(s)|)
    ensures StrToAscSpec(cfg, st, s).1.Trapped? <==> Allocate(cfg, st, StringByteLen(s), STRING).1.Trapped?
  {
    var a := Allocate(cfg, st, StringByteLen(s), STRING);
    if a.1.Returned? {
      StrToAscSpecAfterAlloc(cfg, st, s, a.0, a.1.value);
      AllocateWritesHeader(cfg, st, 2 * |EncodeUtf16(s)|, STRING, a.0, a.1.value);
    }
  }

  // ---------------------------------------------------------------------
  // Byte buffers
  // ---------------------------------------------------------------------

  /** What `asc_to_bytes` needs of its argument: null, or a buffer whose
      header and `rt_size` bytes lie in memory. */
  ghost predicate BytesPtrValid(mem: Mem, ptr: u32)
  {
    ptr == 0 || (4 <= ptr <= |mem| && ptr + RtSize(mem, ptr) <= |mem|)
  }

  /** The bytes an ArrayBuffer object holds: exactly its `rt_size` payload
      bytes; a null pointer holds none. */
  function BytesAt(mem: Mem, ptr: u32): seq<u8>
    requires BytesPtrValid(mem, ptr)
  {
    if ptr == 0 then [] else mem[ptr..ptr + RtSize(mem, ptr)]
  }

  /** `asc_to_bytes`: a null pointer gives an empty vector without reading
      memory; otherwise the payload is copied byte by byte. */
  method AscToBytes(mem: Mem, ptr: AscPtr) returns (bytes: seq<u8>)
    requires BytesPtrValid(mem, ptr.offset)
    ensures bytes == BytesAt(mem, ptr.offset)
  {
    if IsNull(ptr) {
      return [];
    }
    var raw := AsRaw(ptr);
    var len := RtSize(mem, raw);
    bytes := [];
    var i := 0;
    while i < len
      invariant 0 <= i <= len
      invariant bytes == mem[raw..raw + i]
    {
      bytes := bytes + [mem[raw + i]];
      i := i + 1;
    }
  }

  /** `bytes_to_asc` as a state transition: allocate an ArrayBuffer (rtId 1)
      of `data.len()` bytes and copy the data in; a copy that would run past
      the end of memory traps before writing. */
  function BytesToAscSpec(cfg: Config, st: HeapState, data: seq<u8>): (res: (HeapState, Exec<AscPtr>))
    requires ValidState(cfg, st)
    ensures ValidState(cfg, res.0)
  {
    var a := Allocate(cfg, st, Wrap32(|data|), ARRAY_BUFFER);
    if a.1.Trapped? then (a.0, Trapped)
    else
      var p := a.1.value;
      if p + |data| <= |a.0.mem| then (a.0.(mem := WriteBytes(a.0.mem, p, data)), Returned(AscPtr(p)))
      else (a.0, Trapped)
  }

  /** `bytes_to_asc`. */
  method BytesToAsc(heap: Heap, data: seq<u8>) returns (r: Exec<AscPtr>)
    requires heap.Valid()
    modifies heap
    ensures heap.Valid()
    ensures (heap.State(), r) == BytesToAscSpec(heap.cfg, old(heap.State()), data)
  {
    var a := heap.Alloc(Wrap32(|data|), ARRAY_BUFFER);
    if a.Trapped? {
      return Trapped;
    }
    var p := a.value;
    if p + |data| > |heap.mem| {
      return Trapped;
    }
    // one bulk copy of the payload, bounds-checked before any byte is written
    heap.mem := WriteBytes(heap.mem, p, data);
    r := Returned(AscPtr(p));
  }

  /** Round trip: on a successful `bytes_to_asc` without wrap-around, the
      object has rtId 1 and rtSize `|data|`, and `asc_to_bytes` returns the
      data. */
  lemma BytesToAscRoundTrip(cfg: Config, st: HeapState, data: seq<u8>, st': HeapState, p: u32)
    requires ValidState(cfg, st)
    requires |data| < U32_MODULUS && Fits(cfg, st, |data|)
    requires BytesToAscSpec(cfg, st, data) == (st', Returned(AscPtr(p)))
    ensures p >= HEADER_SIZE
    ensures RtId(st'.mem, p) == ARRAY_BUFFER && RtSize(st'.mem, p) == |data|
    ensures BytesPtrValid(st'.mem, p) && BytesAt(st'.mem, p) == data
  {
    var a := Allocate(cfg, st, Wrap32(|data|), ARRAY_BUFFER);
    var st1 := a.0;
    assert a.1 == Returned(p);
    AllocateWritesHeader(cfg, st, |data|, ARRAY_BUFFER, st1, p);
    assert st'.mem == WriteBytes(st1.mem, p, data);
    ReadLeAfterDisjointWrite(st1.mem, p, data, p - 8, 4);
    ReadLeAfterDisjointWrite(st1.mem, p, data, p - 4, 4);
    WriteBytesFrame(st1.mem, p, data);
  }

  /** Without wrap-around the copy never traps: `bytes_to_asc` traps exactly
      when the allocation does. */
  lemma BytesToAscTrapsOnlyInAlloc(cfg: Config, st: HeapState, data: seq<u8>)
    requires ValidState(cfg, st)
    requires |data| < U32_MODULUS && Fits(cfg, st, |data|)
    ensures BytesToAscSpec(cfg, st, data).1.Trapped? <==> Allocate(cfg, st, Wrap32(|data|), ARRAY_BUFFER).1.Trapped?
  {
    var a := Allocate(cfg, st, Wrap32(|data|), ARRAY_BUFFER);
    if a.1.Returned? {
      AllocateWritesHeader(cfg, st, |data|, ARRAY_BUFFER, a.0, a.1.value);
    }
  }
}
