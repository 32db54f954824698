/** The runtime hooks graph-node expects from an AssemblyScript module.
    With a bump allocator there is no garbage collector: pinning,
    unpinning and collecting do nothing, and `abort` and the panic handler
    execute `unreachable`, which traps. */
module Lifecycle {
  import opened Words
  import opened LinearMemory
  import opened Allocator

  /** `__pin`: hands the pointer back and touches no state. */
  function Pin(st: HeapState, ptr: u32): (res: (HeapState, u32))
    ensures res.0 == st && res.1 == ptr
  {
    (st, ptr)
  }

  /** `__unpin`: memory, page count, heap base and cursor all unchanged. */
  function Unpin(st: HeapState, ptr: u32): (st': HeapState)
    ensures st'.mem == st.mem && st'.pages == st.pages
    ensures st'.heapBase == st.heapBase && st'.heapPtr == st.heapPtr
  {
    st
  }

  /** `__collect`: reclaims nothing. */
  function Collect(st: HeapState): (st': HeapState)
    ensures st'.mem == st.mem && st'.pages == st.pages
    ensures st'.heapBase == st.heapBase && st'.heapPtr == st.heapPtr
  {
    st
  }

  /** No hook frees anything: after pinning, unpinning and collecting, every
      object keeps its header, and the next allocation lands exactly where it
      would have landed without them. */
  lemma HooksReclaimNothing(cfg: Config, st: HeapState, ptr: u32, obj: nat, size: u32, classId: u32)
    requires ValidState(cfg, st) && 8 <= obj <= |st.mem|
    ensures var st' := Collect(Unpin(Pin(st, ptr).0, ptr));
      && ValidState(cfg, st')
      && RtId(st'.mem, obj) == RtId(st.mem, obj) && RtSize(st'.mem, obj) == RtSize(st.mem, obj)
      && Allocate(cfg, st', size, classId) == Allocate(cfg, st, size, classId)
  {
  }

  /** `abort(msg, file, line, col)`: never returns. */
  function Abort<T>(msg: u32, file: u32, line: u32, col: u32): (r: Exec<T>)
    ensures r.Trapped?
  {
    Trapped
  }

  /** The panic handler: never returns, whatever the message. */
  function Panic<T>(message: string): (r: Exec<T>)
    ensures r.Trapped?
  {
    Trapped
  }
}
