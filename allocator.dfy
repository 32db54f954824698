/** The bump allocator that emulates AssemblyScript's managed heap: every
    object is preceded by a 20-byte header of five little-endian u32 words
    `[mmInfo, gcInfo, gcInfo2, rtId, rtSize]`, and the object pointer is the
    address just past the header. Memory is never reclaimed. */
module Allocator {
  import opened Wrappers
  import opened Words
  import opened LinearMemory

  const HEADER_SIZE: u32 := 20

  // Runtime type ids (`class_id`). The first three are fixed by the
  // AssemblyScript runtime; the rest sit well above generated ids.
  const OBJECT: u32 := 0
  const ARRAY_BUFFER: u32 := 1
  const STRING: u32 := 2
  const ARRAY_PTR: u32 := 1000
  const TYPED_MAP: u32 := 1001
  const TYPED_MAP_ENTRY: u32 := 1002
  const STORE_VALUE: u32 := 1003
  const ARRAY_STORE_VALUE: u32 := 1004

  function ClassIds(): (ids: seq<u32>)
    ensures |ids| == 8
  {
    [OBJECT, ARRAY_BUFFER, STRING, ARRAY_PTR, TYPED_MAP, TYPED_MAP_ENTRY, STORE_VALUE, ARRAY_STORE_VALUE]
  }

  /** No two class ids coincide. */
  lemma ClassIdsDistinct()
    ensures forall i, j :: 0 <= i < j < |ClassIds()| ==> ClassIds()[i] != ClassIds()[j]
  {
  }

  /** What the instance fixes once: the linker's `__heap_base` and the
      largest page count `memory.grow` may reach. */
  datatype Config = Config(heapBaseSymbol: u32, maxPages: nat)

  /** The allocator's state: linear memory, its page count, and the
      `HEAP_BASE` and `HEAP_PTR` statics. */
  datatype HeapState = HeapState(mem: Mem, pages: nat, heapBase: u32, heapPtr: u32)

  /** wasm-ld places `__heap_base` above the data and the stack, never at 0;
      memory is at most 4 GiB. */
  ghost predicate ValidConfig(cfg: Config)
  {
    cfg.heapBaseSymbol != 0 && cfg.maxPages <= MAX_PAGES
  }

  ghost predicate ValidState(cfg: Config, s: HeapState)
  {
    && ValidConfig(cfg)
    && |s.mem| == s.pages * PAGE_SIZE
    && s.pages <= cfg.maxPages
    && (s.heapBase == 0 ==> s.heapPtr == 0)
  }

  /** `(HEADER_SIZE + size + 7) & !7` in u32 arithmetic. */
  function AlignedSize(size: u32): u32
  {
    var total := AddWrap32(HEADER_SIZE, size);
    var bumped := AddWrap32(total, 7);
    bumped - bumped % 8
  }

  /** `(end + 65535) / 65536` in u32 arithmetic. */
  function PagesNeeded(end: u32): u32
  {
    AddWrap32(end, 65535) / 65536
  }

  /** `ensure_heap_initialised`: on the first call both statics take the
      linker's heap base. */
  function Initialised(cfg: Config, s: HeapState): HeapState
  {
    if s.heapBase == 0 then s.(heapBase := cfg.heapBaseSymbol, heapPtr := cfg.heapBaseSymbol) else s
  }

  /** The 20 header bytes: three zero words, then `rtId` and `rtSize`. */
  function HeaderBytes(classId: u32, size: u32): (h: seq<u8>)
    ensures |h| == 20
  {
    LeBytes(0, 4) + LeBytes(0, 4) + LeBytes(0, 4) + LeBytes(classId, 4) + LeBytes(size, 4)
  }

  /** The net effect of the allocator's five header stores. */
  function WriteHeader(mem: Mem, base: nat, classId: u32, size: u32): (m: Mem)
    requires base + 20 <= |mem|
    ensures |m| == |mem|
  {
    WriteBytes(mem, base, HeaderBytes(classId, size))
  }

  /** Steps 1 and 2 of `asc_alloc`: initialise the heap if needed, then
      `HEAP_PTR.fetch_add(aligned_size)`. Returns the new state and the old
      cursor `base`. */
  function Bump(cfg: Config, s: HeapState, size: u32): (res: (HeapState, u32))
    requires ValidState(cfg, s)
    ensures ValidState(cfg, res.0)
  {
    var s0 := Initialised(cfg, s);
    (s0.(heapPtr := AddWrap32(s0.heapPtr, AlignedSize(size))), s0.heapPtr)
  }

  /** Step 3: grow memory to the pages covering `end`; `None` when
      `memory.grow` fails, which the allocator turns into a trap. */
  function GrowFor(cfg: Config, s: HeapState, end: u32): (r: Option<HeapState>)
    requires ValidState(cfg, s)
    ensures r.Some? ==> ValidState(cfg, r.value)
  {
    var needed := PagesNeeded(end);
    if needed <= s.pages then Some(s)
    else if needed > cfg.maxPages then None
    else Some(s.(mem := s.mem + Zeros((needed - s.pages) * PAGE_SIZE), pages := needed))
  }

  /** `asc_alloc(size, class_id)` as a state transition: bump the cursor
      (before anything can fail), grow memory to cover the new end or trap,
      write the header (a store past the end of memory traps), and return
      the address just past the header. The payload is not written. */
  function Allocate(cfg: Config, s: HeapState, size: u32, classId: u32): (res: (HeapState, Exec<u32>))
    requires ValidState(cfg, s)
    ensures ValidState(cfg, res.0)
  {
    var bumped := Bump(cfg, s, size); var s1 := bumped.0; var base := bumped.1;
    match GrowFor(cfg, s1, AddWrap32(base, AlignedSize(size)))
    case None => (s1, Trapped)
    case Some(grown) =>
      if base + HEADER_SIZE > |grown.mem| then (grown, Trapped)
      else (grown.(mem := WriteHeader(grown.mem, base, classId, size)), Returned(AddWrap32(base, HEADER_SIZE)))
  }

  /** `read_rt_id`: the word 8 bytes before an object pointer. */
  function RtId(mem: Mem, ptr: nat): u32
    requires 8 <= ptr && ptr - 8 + 4 <= |mem|
  {
    ReadU32(mem, ptr - 8)
  }

  /** `read_rt_size`: the word 4 bytes before an object pointer. */
  function RtSize(mem: Mem, ptr: nat): u32
    requires 4 <= ptr <= |mem|
  {
    ReadU32(mem, ptr - 4)
  }

  /** None of the allocator's u32 additions wraps: `HEADER_SIZE + size + 7`,
      the cursor bump and the page rounding of the new end all stay below
      2^32. */
  ghost predicate Fits(cfg: Config, s: HeapState, size: u32)
  {
    var base := Initialised(cfg, s).heapPtr;
    HEADER_SIZE as int + size + 7 < U32_MODULUS
    && base + AlignedSize(size) + 65535 < U32_MODULUS
  }

  /** Without wrap-around the allocation size is 20 + size rounded up to a
      multiple of 8. */
  lemma AlignedSizeRoundsUp(size: u32)
    requires HEADER_SIZE as int + size + 7 < U32_MODULUS
    ensures AlignedSize(size) % 8 == 0
    ensures HEADER_SIZE as int + size <= AlignedSize(size) < HEADER_SIZE as int + size + 8
    ensures AlignedSize(size) == (HEADER_SIZE as int + size + 7) / 8 * 8
  {
  }

  /** One header word reads back the value stored in it. */
  lemma HeaderWordReads(mem: Mem, base: nat, classId: u32, size: u32, k: nat, w: u32)
    requires base + 20 <= |mem| && k < 5
    requires w == [0, 0, 0, classId, size][k]
    ensures ReadU32(WriteHeader(mem, base, classId, size), base + 4 * k) == w
  {
    var h := HeaderBytes(classId, size);
    ReadLeInsideWrite(mem, base, h, 4 * k, 4);
    assert h[4 * k..4 * k + 4] == LeBytes(w, 4);
    LeValueOfLeBytes(w, 4);
  }

  /** The written header reads back word by word. */
  lemma WriteHeaderReads(mem: Mem, base: nat, classId: u32, size: u32)
    requires base + 20 <= |mem|
    ensures var m := WriteHeader(mem, base, classId, size);
      && ReadU32(m, base) == 0 && ReadU32(m, base + 4) == 0 && ReadU32(m, base + 8) == 0
      && ReadU32(m, base + 12) == classId && ReadU32(m, base + 16) == size
  {
    HeaderWordReads(mem, base, classId, size, 0, 0);
    HeaderWordReads(mem, base, classId, size, 1, 0);
    HeaderWordReads(mem, base, classId, size, 2, 0);
    HeaderWordReads(mem, base, classId, size, 3, classId);
    HeaderWordReads(mem, base, classId, size, 4, size);
  }

  /** The cursor: the first call sets the heap base once, later calls keep
      it; without wrap-around the cursor moves forward by exactly
      `(20 + size + 7) & !7`, even when the allocation then traps. */
  lemma AllocateBumpsCursor(cfg: Config, s: HeapState, size: u32, classId: u32)
    requires ValidState(cfg, s) && Fits(cfg, s, size)
    ensures var step := Allocate(cfg, s, size, classId); var s' := step.0;
      var base := Initialised(cfg, s).heapPtr;
      && s'.heapBase != 0
      && (s.heapBase != 0 ==> s'.heapBase == s.heapBase && base == s.heapPtr)
      && (s.heapBase == 0 ==> s'.heapBase == cfg.heapBaseSymbol && base == cfg.heapBaseSymbol)
      && s'.heapPtr == base + (HEADER_SIZE as int + size + 7) / 8 * 8
      && s.heapPtr <= base < s'.heapPtr
  {
    AlignedSizeRoundsUp(size);
  }

  /** Growth: without wrap-around an allocation traps exactly when the pages
      covering the new end exceed the limit; otherwise memory grows by exactly
      the shortfall and then covers the whole new object. */
  lemma AllocateGrowsOrTraps(cfg: Config, s: HeapState, size: u32, classId: u32)
    requires ValidState(cfg, s) && Fits(cfg, s, size)
    ensures var step := Allocate(cfg, s, size, classId); var s' := step.0; var r := step.1;
      var base := Initialised(cfg, s).heapPtr;
      var end := base + AlignedSize(size);
      var needed := (end + PAGE_SIZE - 1) / PAGE_SIZE;
      && (r.Trapped? <==> needed > cfg.maxPages)
      && (r.Returned? ==>
            && s'.pages == (if needed > s.pages then needed else s.pages)
            && s'.pages * PAGE_SIZE >= end
            && |s'.mem| == |s.mem| + (s'.pages - s.pages) * PAGE_SIZE)
  {
    AlignedSizeRoundsUp(size);
  }

  /** A successful allocation is the header write on the grown state. */
  lemma AllocateReturnedIsHeaderWrite(cfg: Config, s: HeapState, size: u32, classId: u32, s': HeapState, p: u32)
    requires ValidState(cfg, s)
    requires Allocate(cfg, s, size, classId) == (s', Returned(p))
    ensures var base := Initialised(cfg, s).heapPtr;
      var g := GrowFor(cfg, Bump(cfg, s, size).0, AddWrap32(base, AlignedSize(size)));
      && g.Some?
      && base + HEADER_SIZE <= |g.value.mem|
      && s'.mem == WriteHeader(g.value.mem, base, classId, size)
      && p == AddWrap32(base, HEADER_SIZE)
  {
  }

  /** A successful allocation returns the old cursor plus 20, the payload
      fits in memory, and the header reads back `[0, 0, 0, classId, size]`. */
  lemma AllocateWritesHeader(cfg: Config, s: HeapState, size: u32, classId: u32, s': HeapState, p: u32)
    requires ValidState(cfg, s) && Fits(cfg, s, size)
    requires Allocate(cfg, s, size, classId) == (s', Returned(p))
    ensures var base := Initialised(cfg, s).heapPtr;
      && p == base + HEADER_SIZE
      && p + size <= |s'.mem|
      && ReadU32(s'.mem, base) == 0 && ReadU32(s'.mem, base + 4) == 0 && ReadU32(s'.mem, base + 8) == 0
      && RtId(s'.mem, p) == classId && RtSize(s'.mem, p) == size
  {
    AllocateGrowsOrTraps(cfg, s, size, classId);
    AllocateReturnedIsHeaderWrite(cfg, s, size, classId, s', p);
    var base := Initialised(cfg, s).heapPtr;
    var g := GrowFor(cfg, Bump(cfg, s, size).0, AddWrap32(base, AlignedSize(size))).value;
    WriteHeaderReads(g.mem, base, classId, size);
  }

  /** A successful allocation changes no byte outside the header: bytes of
      the old memory keep their value and grown pages stay zero (the payload
      is not cleared). */
  lemma AllocateTouchesOnlyHeader(cfg: Config, s: HeapState, size: u32, classId: u32, s': HeapState, p: u32)
    requires ValidState(cfg, s)
    requires Allocate(cfg, s, size, classId) == (s', Returned(p))
    ensures var base := Initialised(cfg, s).heapPtr;
      && (forall i :: 0 <= i < |s.mem| && !(base <= i < base + 20) ==> s'.mem[i] == s.mem[i])
      && (forall i :: |s.mem| <= i < |s'.mem| && !(base <= i < base + 20) ==> s'.mem[i] == 0)
  {
    AllocateReturnedIsHeaderWrite(cfg, s, size, classId, s', p);
    var base := Initialised(cfg, s).heapPtr;
    var s1 := Bump(cfg, s, size).0;
    var g := GrowFor(cfg, s1, AddWrap32(base, AlignedSize(size))).value;
    GrowForExtends(cfg, s1, AddWrap32(base, AlignedSize(size)));
    WriteBytesFrame(g.mem, base, HeaderBytes(classId, size));
  }

  /** Growing keeps the old bytes and appends zeros. */
  lemma GrowForExtends(cfg: Config, s: HeapState, end: u32)
    requires ValidState(cfg, s) && GrowFor(cfg, s, end).Some?
    ensures var g := GrowFor(cfg, s, end).value;
      && |s.mem| <= |g.mem|
      && (forall i :: 0 <= i < |s.mem| ==> g.mem[i] == s.mem[i])
      && (forall i :: |s.mem| <= i < |g.mem| ==> g.mem[i] == 0)
  {
  }

  /** Successive allocations occupy disjoint ranges, and the second leaves the
      first object's header intact. */
  lemma SuccessiveAllocationsDisjoint(cfg: Config, s: HeapState, size1: u32, class1: u32, size2: u32, class2: u32,
                                      s1: HeapState, p1: u32, s2: HeapState, p2: u32)
    requires ValidState(cfg, s) && Fits(cfg, s, size1)
    requires Allocate(cfg, s, size1, class1) == (s1, Returned(p1))
    requires ValidState(cfg, s1) && Fits(cfg, s1, size2)
    requires Allocate(cfg, s1, size2, class2) == (s2, Returned(p2))
    ensures p1 + size1 <= p2 - HEADER_SIZE
    ensures RtId(s2.mem, p1) == class1 && RtSize(s2.mem, p1) == size1
  {
    AllocateBumpsCursor(cfg, s, size1, class1);
    AllocateWritesHeader(cfg, s, size1, class1, s1, p1);
    AllocateBumpsCursor(cfg, s1, size2, class2);
    AllocateWritesHeader(cfg, s1, size2, class2, s2, p2);
    AllocateTouchesOnlyHeader(cfg, s1, size2, class2, s2, p2);
    AlignedSizeRoundsUp(size1);
    ReadLeFrame(s2.mem, s1.mem, p1 - 8, 4);
    ReadLeFrame(s2.mem, s1.mem, p1 - 4, 4);
  }

  /** The allocator's statics and linear memory of one module instance. */
  class Heap {
    const cfg: Config
    var mem: Mem
    var pages: nat
    var heapBase: u32
    var heapPtr: u32

    function State(): HeapState
      reads this
    {
      HeapState(mem, pages, heapBase, heapPtr)
    }

    ghost predicate Valid()
      reads this
    {
      ValidState(cfg, State())
    }

    /** A fresh instance: memory holds the module's initial image and both
        statics are 0. */
    constructor (image: Mem, initialPages: nat, config: Config)
      requires ValidConfig(config)
      requires |image| == initialPages * PAGE_SIZE && initialPages <= config.maxPages
      ensures Valid() && cfg == config
      ensures State() == HeapState(image, initialPages, 0, 0)
    {
      cfg := config;
      mem := image;
      pages := initialPages;
      heapBase := 0;
      heapPtr := 0;
    }

    method EnsureHeapInitialised()
      requires Valid()
      modifies this
      ensures Valid()
      ensures State() == Initialised(cfg, old(State()))
    {
      if heapBase == 0 {
        var base := cfg.heapBaseSymbol;
        heapBase := base;
        heapPtr := base;
      }
    }

    /** `memory.grow`: add `delta` zero pages and return the old page count,
        or return `usize::MAX` and change nothing when the limit forbids it. */
    method MemoryGrow(delta: nat) returns (prev: u32)
      requires Valid()
      modifies this
      ensures Valid()
      ensures heapBase == old(heapBase) && heapPtr == old(heapPtr)
      ensures old(pages) + delta <= cfg.maxPages ==>
        prev == old(pages) && pages == old(pages) + delta && mem == old(mem) + Zeros(delta * PAGE_SIZE)
      ensures old(pages) + delta > cfg.maxPages ==>
        prev == 0xFFFF_FFFF && pages == old(pages) && mem == old(mem)
    {
      if pages + delta <= cfg.maxPages {
        prev := pages;
        mem := mem + Zeros(delta * PAGE_SIZE);
        pages := pages + delta;
      } else {
        prev := 0xFFFF_FFFF;
      }
    }

    /** Steps 1 and 2 of `asc_alloc`: lazy initialisation and
        `HEAP_PTR.fetch_add(aligned_size)`, returning the old cursor. */
    method BumpCursor(size: u32) returns (base: u32)
      requires Valid()
      modifies this
      ensures Valid()
      ensures (State(), base) == Bump(cfg, old(State()), size)
    {
      EnsureHeapInitialised();
      base := heapPtr;
      heapPtr := AddWrap32(heapPtr, AlignedSize(size));
    }

    /** Step 3 of `asc_alloc`: grow memory to the pages covering `end`;
        `false` when `memory.grow` reports failure. */
    method GrowToCover(end: u32) returns (ok: bool)
      requires Valid()
      modifies this
      ensures Valid()
      ensures ok ==> GrowFor(cfg, old(State()), end) == Some(State())
      ensures !ok ==> GrowFor(cfg, old(State()), end) == None && State() == old(State())
    {
      var needed := PagesNeeded(end);
      var current := pages;
      ok := true;
      if needed > current {
        var prev := MemoryGrow(needed - current);
        if prev == 0xFFFF_FFFF {
          ok := false;
        }
      }
    }

    /** Step 4 of `asc_alloc`: the five header stores at `base`. */
    method StoreHeader(base: u32, classId: u32, size: u32)
      requires Valid() && base + HEADER_SIZE <= |mem|
      modifies this
      ensures Valid()
      ensures State() == old(State()).(mem := WriteHeader(old(mem), base, classId, size))
    {
      ghost var m := mem;
      mem := WriteU32(mem, base, 0);
      mem := WriteU32(mem, base + 4, 0);
      mem := WriteU32(mem, base + 8, 0);
      mem := WriteU32(mem, base + 12, classId);
      mem := WriteU32(mem, base + 16, size);
      var z := LeBytes(0, 4);
      WriteBytesAdjacent(m, base, z, z);
      WriteBytesAdjacent(m, base, z + z, z);
      WriteBytesAdjacent(m, base, z + z + z, LeBytes(classId, 4));
      WriteBytesAdjacent(m, base, z + z + z + LeBytes(classId, 4), LeBytes(size, 4));
    }

    /** `asc_alloc`. */
    method Alloc(size: u32, classId: u32) returns (r: Exec<u32>)
      requires Valid()
      modifies this
      ensures Valid()
      ensures (State(), r) == Allocate(cfg, old(State()), size, classId)
    {
      var base := BumpCursor(size);
      var ok := GrowToCover(AddWrap32(base, AlignedSize(size)));
      if !ok {
        return Trapped;
      }
      if base + HEADER_SIZE > |mem| {
        return Trapped;
      }
      StoreHeader(base, classId, size);
      r := Returned(AddWrap32(base, HEADER_SIZE));
    }

    /** The exported `__new(size: i32, classId: i32) -> i32`: the arguments
        and the result are reinterpreted between i32 and u32. */
    method New(size: i32, classId: i32) returns (r: Exec<i32>)
      requires Valid()
      modifies this
      ensures Valid()
      ensures var step := Allocate(cfg, old(State()), I32AsU32(size), I32AsU32(classId)); var s := step.0; var a := step.1;
        State() == s && r == (if a.Returned? then Returned(U32AsI32(a.value)) else Trapped)
    {
      var a := Alloc(I32AsU32(size), I32AsU32(classId));
      if a.Returned? {
        r := Returned(U32AsI32(a.value));
      } else {
        r := Trapped;
      }
    }
  }
}
