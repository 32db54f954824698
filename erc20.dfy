/** The parameters of the ERC-20 `Transfer(address indexed from, address
    indexed to, uint256 value)` event, as the generated decoder reads them:
    the params pointer is an AssemblyScript array whose buffer holds one
    pointer per EventParam, and each EventParam holds its name at offset 0
    and its value at offset 4. */
module Erc20 {
  import opened Wrappers
  import opened Words
  import opened LinearMemory
  import opened Allocator
  import opened Asc
  import opened Types
  import opened Ethereum

  /** Where parameter i's pointer sits in the array buffer. */
  const PARAM_FROM: nat := 0
  const PARAM_TO: nat := 4
  const PARAM_VALUE: nat := 8

  /** EventParam layout. */
  const EVENT_PARAM_NAME: nat := 0
  const EVENT_PARAM_VALUE: nat := 4

  datatype TransferParams = TransferParams(from: Address, to: Address, value: BigInt)

  /** `TransferEvent = Event<TransferParams>`. */
  type TransferEvent = Event<TransferParams>

  /** The EventParam pointer at `buffer + off` and the value word inside it
      both lie in memory. */
  ghost predicate ParamReadable(mem: Mem, buffer: u32, off: nat)
  {
    buffer + off + 4 <= |mem| && ReadU32At(mem, buffer, off) + EVENT_PARAM_VALUE + 4 <= |mem|
  }

  /** The value pointer of the EventParam whose pointer sits at
      `buffer + off`. */
  function ParamValue(mem: Mem, buffer: u32, off: nat): u32
    requires ParamReadable(mem, buffer, off)
  {
    ReadU32At(mem, ReadU32At(mem, buffer, off), EVENT_PARAM_VALUE)
  }

  /** What the decoder dereferences: the 16-byte array header, the three
      EventParams, and the byte buffers of the two addresses. */
  ghost predicate TransferParamsPtrValid(mem: Mem, ptr: u32)
  {
    ptr == 0 ||
    (&& ptr + 16 <= |mem|
     && var buffer := ReadArrayHeader(mem, ptr).buffer;
     && ParamReadable(mem, buffer, PARAM_FROM)
     && ParamReadable(mem, buffer, PARAM_TO)
     && ParamReadable(mem, buffer, PARAM_VALUE)
     && BytesPtrValid(mem, ParamValue(mem, buffer, PARAM_FROM))
     && BytesPtrValid(mem, ParamValue(mem, buffer, PARAM_TO)))
  }

  /** The decoding once the array header has been read: only its `buffer`
      field is used. An address whose value pointer is null goes through
      `asc_to_bytes`, which gives no bytes, and so comes out as the zero
      address. */
  function ParamsFromHeader(mem: Mem, header: ArrayHeader): (r: TransferParams)
    requires ParamReadable(mem, header.buffer, PARAM_FROM) && ParamReadable(mem, header.buffer, PARAM_TO)
    requires ParamReadable(mem, header.buffer, PARAM_VALUE)
    requires BytesPtrValid(mem, ParamValue(mem, header.buffer, PARAM_FROM))
    requires BytesPtrValid(mem, ParamValue(mem, header.buffer, PARAM_TO))
    ensures r.from == DecodeAddress(mem, ParamValue(mem, header.buffer, PARAM_FROM))
    ensures r.to == DecodeAddress(mem, ParamValue(mem, header.buffer, PARAM_TO))
    ensures r.value.ptr.offset == ParamValue(mem, header.buffer, PARAM_VALUE)
  {
    var fromBytes := BytesAt(mem, ParamValue(mem, header.buffer, PARAM_FROM));
    var toBytes := BytesAt(mem, ParamValue(mem, header.buffer, PARAM_TO));
    assert AddressOfSlice([]) == ZeroAddress();
    TransferParams(
      AddressOfSlice(fromBytes),
      AddressOfSlice(toBytes),
      BigIntAt(AscPtr(ParamValue(mem, header.buffer, PARAM_VALUE))))
  }

  /** `TransferParams::from_asc_ptr`: null gives zero addresses and the zero
      BigInt; otherwise parameter i is read through the EventParam pointer
      at `buffer + 4i`. */
  function DecodeTransferParams(mem: Mem, ptr: u32, zero: BigInt): (r: TransferParams)
    requires TransferParamsPtrValid(mem, ptr)
    ensures ptr == 0 ==> r == TransferParams(ZeroAddress(), ZeroAddress(), zero)
    ensures ptr != 0 ==> r == ParamsFromHeader(mem, ReadArrayHeader(mem, ptr))
  {
    if ptr == 0 then TransferParams(ZeroAddress(), ZeroAddress(), zero)
    else ParamsFromHeader(mem, ReadArrayHeader(mem, ptr))
  }

  /** The array's length (and its other header fields) do not affect the
      result: two headers with the same buffer decode alike. */
  lemma {:induction false} LengthIgnored(mem: Mem, h1: ArrayHeader, h2: ArrayHeader)
    requires h1.buffer == h2.buffer
    requires ParamReadable(mem, h1.buffer, PARAM_FROM) && ParamReadable(mem, h1.buffer, PARAM_TO)
    requires ParamReadable(mem, h1.buffer, PARAM_VALUE)
    requires BytesPtrValid(mem, ParamValue(mem, h1.buffer, PARAM_FROM))
    requires BytesPtrValid(mem, ParamValue(mem, h1.buffer, PARAM_TO))
    ensures ParamsFromHeader(mem, h1) == ParamsFromHeader(mem, h2)
  {
  }

  /** The buffer pointer is the first word of the header at ptr. */
  lemma BufferIsFirstHeaderWord(mem: Mem, ptr: u32)
    requires ptr + 16 <= |mem|
    ensures ReadArrayHeader(mem, ptr).buffer == ReadU32At(mem, ptr, 0)
  {
  }

  /** The params decoder as `Event<P>` takes it. */
  function TransferParamsDecoder(zero: BigInt): (Mem, u32) --> TransferParams
  {
    (mem: Mem, ptr: u32) requires TransferParamsPtrValid(mem, ptr) => DecodeTransferParams(mem, ptr, zero)
  }

  /** `TransferEvent::from_asc_ptr`. */
  function DecodeTransferEvent(mem: Mem, ptr: u32, zero: BigInt): (r: Result<TransferEvent>)
    requires EventPtrValid(mem, ptr)
    requires ptr != 0 ==> TransferParamsPtrValid(mem, ReadU32At(mem, ptr, EVENT_PARAMS))
    ensures r.Err? <==> ptr == 0
    ensures r.Ok? ==> r.value.params == DecodeTransferParams(mem, ReadU32At(mem, ptr, EVENT_PARAMS), zero)
  {
    DecodeEvent(mem, ptr, zero, TransferParamsDecoder(zero))
  }
}
