/** Decoding the Ethereum objects graph-node hands to a handler: each is a
    block of 4-byte pointer fields at fixed offsets, and each field is
    decoded from the word at its offset. A zero word is a null pointer:
    it decodes to an empty value, or to None for the optional fields.

    Every decoder is a function of a memory snapshot. Its precondition is
    the safety contract of `FromAscPtr`: the pointer is null or points at
    a well-formed object of the right class, and so, recursively, are the
    pointers inside it. */
module Ethereum {
  import opened Wrappers
  import opened Words
  import opened LinearMemory
  import opened Allocator
  import opened Asc
  import opened Types

  // ---------------------------------------------------------------------
  // Field offsets
  // ---------------------------------------------------------------------

  const BLOCK_HASH: nat := 0
  const BLOCK_PARENT_HASH: nat := 4
  const BLOCK_UNCLES_HASH: nat := 8
  const BLOCK_AUTHOR: nat := 12
  const BLOCK_STATE_ROOT: nat := 16
  const BLOCK_TRANSACTIONS_ROOT: nat := 20
  const BLOCK_RECEIPTS_ROOT: nat := 24
  const BLOCK_NUMBER: nat := 28
  const BLOCK_GAS_USED: nat := 32
  const BLOCK_GAS_LIMIT: nat := 36
  const BLOCK_TIMESTAMP: nat := 40
  const BLOCK_DIFFICULTY: nat := 44
  const BLOCK_TOTAL_DIFFICULTY: nat := 48
  const BLOCK_SIZE: nat := 52
  const BLOCK_BASE_FEE_PER_GAS: nat := 56

  const TX_HASH: nat := 0
  const TX_INDEX: nat := 4
  const TX_FROM: nat := 8
  const TX_TO: nat := 12
  const TX_VALUE: nat := 16
  const TX_GAS_LIMIT: nat := 20
  const TX_GAS_PRICE: nat := 24
  const TX_INPUT: nat := 28
  const TX_NONCE: nat := 32

  const EVENT_ADDRESS: nat := 0
  const EVENT_LOG_INDEX: nat := 4
  const EVENT_TRANSACTION_LOG_INDEX: nat := 8
  const EVENT_LOG_TYPE: nat := 12
  const EVENT_BLOCK: nat := 16
  const EVENT_TRANSACTION: nat := 20
  const EVENT_PARAMS: nat := 24
  const EVENT_RECEIPT: nat := 28

  const RECEIPT_TRANSACTION_HASH: nat := 0
  const RECEIPT_TRANSACTION_INDEX: nat := 4
  const RECEIPT_BLOCK_HASH: nat := 8
  const RECEIPT_BLOCK_NUMBER: nat := 12
  const RECEIPT_CUMULATIVE_GAS_USED: nat := 16
  const RECEIPT_GAS_USED: nat := 20
  const RECEIPT_CONTRACT_ADDRESS: nat := 24
  const RECEIPT_STATUS: nat := 28
  const RECEIPT_ROOT: nat := 32
  const RECEIPT_LOGS_BLOOM: nat := 36

  /** The offsets of each object, in field declaration order. */
  const BLOCK_OFFSETS: seq<nat> := [BLOCK_HASH, BLOCK_PARENT_HASH, BLOCK_UNCLES_HASH, BLOCK_AUTHOR,
    BLOCK_STATE_ROOT, BLOCK_TRANSACTIONS_ROOT, BLOCK_RECEIPTS_ROOT, BLOCK_NUMBER, BLOCK_GAS_USED,
    BLOCK_GAS_LIMIT, BLOCK_TIMESTAMP, BLOCK_DIFFICULTY, BLOCK_TOTAL_DIFFICULTY, BLOCK_SIZE,
    BLOCK_BASE_FEE_PER_GAS]
  const TX_OFFSETS: seq<nat> := [TX_HASH, TX_INDEX, TX_FROM, TX_TO, TX_VALUE, TX_GAS_LIMIT,
    TX_GAS_PRICE, TX_INPUT, TX_NONCE]
  const EVENT_OFFSETS: seq<nat> := [EVENT_ADDRESS, EVENT_LOG_INDEX, EVENT_TRANSACTION_LOG_INDEX,
    EVENT_LOG_TYPE, EVENT_BLOCK, EVENT_TRANSACTION, EVENT_PARAMS, EVENT_RECEIPT]
  const RECEIPT_OFFSETS: seq<nat> := [RECEIPT_TRANSACTION_HASH, RECEIPT_TRANSACTION_INDEX,
    RECEIPT_BLOCK_HASH, RECEIPT_BLOCK_NUMBER, RECEIPT_CUMULATIVE_GAS_USED, RECEIPT_GAS_USED,
    RECEIPT_CONTRACT_ADDRESS, RECEIPT_STATUS, RECEIPT_ROOT, RECEIPT_LOGS_BLOOM]

  /** Field i sits at byte 4i: the fields are packed 4-byte pointers with no
      gap and no overlap, so a block spans 60 bytes, a transaction 36, an
      event 32 and a receipt 40. */
  predicate Packed(offsets: seq<nat>)
  {
    forall i :: 0 <= i < |offsets| ==> offsets[i] == 4 * i
  }

  lemma OffsetTablesPacked()
    ensures Packed(BLOCK_OFFSETS) && |BLOCK_OFFSETS| == 15
    ensures Packed(TX_OFFSETS) && |TX_OFFSETS| == 9
    ensures Packed(EVENT_OFFSETS) && |EVENT_OFFSETS| == 8
    ensures Packed(RECEIPT_OFFSETS) && |RECEIPT_OFFSETS| == 10
  {
  }

  // ---------------------------------------------------------------------
  // Leaf decoders
  // ---------------------------------------------------------------------

  /** `Bytes::from_asc_ptr`: null is empty; otherwise exactly the rtSize
      payload bytes of the buffer. */
  function DecodeBytes(mem: Mem, ptr: u32): (b: Bytes)
    requires BytesPtrValid(mem, ptr)
    ensures ptr == 0 ==> b.data == []
    ensures ptr != 0 ==> |b.data| == RtSize(mem, ptr) && b.data == mem[ptr..ptr + RtSize(mem, ptr)]
  {
    if ptr == 0 then EmptyBytes() else Bytes.Bytes(BytesAt(mem, ptr))
  }

  /** `Address::from_asc_ptr`: null is the zero address; otherwise
      `Address::from` of the buffer's bytes. */
  function DecodeAddress(mem: Mem, ptr: u32): (a: Address)
    requires BytesPtrValid(mem, ptr)
    ensures ptr == 0 ==> a == ZeroAddress()
    ensures ptr != 0 ==> a == AddressOfSlice(BytesAt(mem, ptr))
  {
    if ptr == 0 then ZeroAddress() else AddressOfSlice(BytesAt(mem, ptr))
  }

  /** `BigInt::from_asc_ptr`: the pointer, unchanged. */
  function DecodeBigInt(ptr: u32): (b: BigInt)
    ensures b.ptr.offset == ptr
  {
    BigIntAt(AscPtr(ptr))
  }

  /** Bytes written by `bytes_to_asc` decode back to the same bytes. */
  lemma DecodeBytesAfterStore(cfg: Config, st: HeapState, data: seq<u8>, st': HeapState, p: u32)
    requires ValidState(cfg, st)
    requires |data| < U32_MODULUS && Fits(cfg, st, |data|)
    requires BytesToAscSpec(cfg, st, data) == (st', Returned(AscPtr(p)))
    ensures BytesPtrValid(st'.mem, p) && DecodeBytes(st'.mem, p) == Bytes.Bytes(data)
  {
    BytesToAscRoundTrip(cfg, st, data, st', p);
  }

  /** An address written by `bytes_to_asc` decodes back to the same
      address. */
  lemma DecodeAddressAfterStore(cfg: Config, st: HeapState, a: Address, st': HeapState, p: u32)
    requires ValidState(cfg, st) && Fits(cfg, st, ADDRESS_LEN)
    requires BytesToAscSpec(cfg, st, a.bytes) == (st', Returned(AscPtr(p)))
    ensures BytesPtrValid(st'.mem, p) && DecodeAddress(st'.mem, p) == a
  {
    BytesToAscRoundTrip(cfg, st, a.bytes, st', p);
    AddressOfSliceOfAddress(a);
  }

  // ---------------------------------------------------------------------
  // Objects
  // ---------------------------------------------------------------------

  datatype Block = Block(
    hash: Bytes,
    parentHash: Bytes,
    unclesHash: Bytes,
    author: Address,
    stateRoot: Bytes,
    transactionsRoot: Bytes,
    receiptsRoot: Bytes,
    number: BigInt,
    gasUsed: BigInt,
    gasLimit: BigInt,
    timestamp: BigInt,
    difficulty: BigInt,
    totalDifficulty: BigInt,
    size: Option<BigInt>,
    baseFeePerGas: Option<BigInt>)

  datatype Transaction = Transaction(
    hash: Bytes,
    index: BigInt,
    from: Address,
    to: Option<Address>,
    value: BigInt,
    gasLimit: BigInt,
    gasPrice: BigInt,
    input: Bytes,
    nonce: BigInt)

  datatype TransactionReceipt = TransactionReceipt(
    transactionHash: Bytes,
    transactionIndex: BigInt,
    blockHash: Bytes,
    blockNumber: BigInt,
    cumulativeGasUsed: BigInt,
    gasUsed: BigInt,
    contractAddress: Option<Address>,
    status: BigInt,
    root: Bytes,
    logsBloom: Bytes)

  datatype Event<P> = Event(
    address: Address,
    logIndex: BigInt,
    transactionLogIndex: BigInt,
    logType: Option<string>,
    block: Block,
    transaction: Transaction,
    params: P,
    receipt: Option<TransactionReceipt>)

  /** `Block::default()`. Each `BigInt::zero()` in the source allocates a
      fresh buffer holding 0; `zero` stands for that pointer. */
  function DefaultBlock(zero: BigInt): (b: Block)
    ensures b.hash.data == [] && b.author == ZeroAddress() && b.number == zero
    ensures b.size.None? && b.baseFeePerGas.None?
  {
    Block(EmptyBytes(), EmptyBytes(), EmptyBytes(), ZeroAddress(), EmptyBytes(), EmptyBytes(), EmptyBytes(),
      zero, zero, zero, zero, zero, zero, None, None)
  }

  /** `Transaction::default()`. */
  function DefaultTransaction(zero: BigInt): (t: Transaction)
    ensures t.hash.data == [] && t.from == ZeroAddress() && t.to.None? && t.value == zero
  {
    Transaction(EmptyBytes(), zero, ZeroAddress(), None, zero, zero, zero, EmptyBytes(), zero)
  }

  /** `TransactionReceipt::default()`. */
  function DefaultReceipt(zero: BigInt): (r: TransactionReceipt)
    ensures r.transactionHash.data == [] && r.contractAddress.None? && r.status == zero
  {
    TransactionReceipt(EmptyBytes(), zero, EmptyBytes(), zero, zero, zero, None, zero, EmptyBytes(), EmptyBytes())
  }

  /** The word at `ptr + off` points at a well-formed byte buffer (or is
      null). */
  ghost predicate BufferField(mem: Mem, ptr: u32, off: nat)
    requires ptr + off + 4 <= |mem|
  {
    BytesPtrValid(mem, ReadU32At(mem, ptr, off))
  }

  ghost predicate BlockPtrValid(mem: Mem, ptr: u32)
  {
    ptr == 0 ||
    (&& ptr + 60 <= |mem|
     && BufferField(mem, ptr, BLOCK_HASH) && BufferField(mem, ptr, BLOCK_PARENT_HASH)
     && BufferField(mem, ptr, BLOCK_UNCLES_HASH) && BufferField(mem, ptr, BLOCK_AUTHOR)
     && BufferField(mem, ptr, BLOCK_STATE_ROOT) && BufferField(mem, ptr, BLOCK_TRANSACTIONS_ROOT)
     && BufferField(mem, ptr, BLOCK_RECEIPTS_ROOT))
  }

  ghost predicate TransactionPtrValid(mem: Mem, ptr: u32)
  {
    ptr == 0 ||
    (&& ptr + 36 <= |mem|
     && BufferField(mem, ptr, TX_HASH) && BufferField(mem, ptr, TX_FROM)
     && BufferField(mem, ptr, TX_TO) && BufferField(mem, ptr, TX_INPUT))
  }

  ghost predicate ReceiptPtrValid(mem: Mem, ptr: u32)
  {
    ptr == 0 ||
    (&& ptr + 40 <= |mem|
     && BufferField(mem, ptr, RECEIPT_TRANSACTION_HASH) && BufferField(mem, ptr, RECEIPT_BLOCK_HASH)
     && BufferField(mem, ptr, RECEIPT_CONTRACT_ADDRESS) && BufferField(mem, ptr, RECEIPT_ROOT)
     && BufferField(mem, ptr, RECEIPT_LOGS_BLOOM))
  }

  /** The word at `ptr + off`, or None when it is null. */
  function OptionalWord(mem: Mem, ptr: u32, off: nat): (r: Option<u32>)
    requires ptr + off + 4 <= |mem|
    ensures r.None? <==> ReadU32At(mem, ptr, off) == 0
    ensures r.Some? ==> r.value == ReadU32At(mem, ptr, off)
  {
    var p := ReadU32At(mem, ptr, off);
    if p == 0 then None else Some(p)
  }

  /** `Block::from_asc_ptr`: null gives the default block; otherwise each
      field is decoded from the word at its offset, and `size` and
      `base_fee_per_gas` are None exactly when their word is 0. */
  function DecodeBlock(mem: Mem, ptr: u32, zero: BigInt): (b: Block)
    requires BlockPtrValid(mem, ptr)
    ensures ptr == 0 ==> b == DefaultBlock(zero)
    ensures ptr != 0 ==>
      && (b.size.None? <==> ReadU32At(mem, ptr, BLOCK_SIZE) == 0)
      && (b.baseFeePerGas.None? <==> ReadU32At(mem, ptr, BLOCK_BASE_FEE_PER_GAS) == 0)
      && b.hash == DecodeBytes(mem, ReadU32At(mem, ptr, BLOCK_HASH))
      && b.author == DecodeAddress(mem, ReadU32At(mem, ptr, BLOCK_AUTHOR))
      && b.number.ptr.offset == ReadU32At(mem, ptr, BLOCK_NUMBER)
  {
    if ptr == 0 then DefaultBlock(zero)
    else
      var size := OptionalWord(mem, ptr, BLOCK_SIZE);
      var baseFee := OptionalWord(mem, ptr, BLOCK_BASE_FEE_PER_GAS);
      Block(
        DecodeBytes(mem, ReadU32At(mem, ptr, BLOCK_HASH)),
        DecodeBytes(mem, ReadU32At(mem, ptr, BLOCK_PARENT_HASH)),
        DecodeBytes(mem, ReadU32At(mem, ptr, BLOCK_UNCLES_HASH)),
        DecodeAddress(mem, ReadU32At(mem, ptr, BLOCK_AUTHOR)),
        DecodeBytes(mem, ReadU32At(mem, ptr, BLOCK_STATE_ROOT)),
        DecodeBytes(mem, ReadU32At(mem, ptr, BLOCK_TRANSACTIONS_ROOT)),
        DecodeBytes(mem, ReadU32At(mem, ptr, BLOCK_RECEIPTS_ROOT)),
        DecodeBigInt(ReadU32At(mem, ptr, BLOCK_NUMBER)),
        DecodeBigInt(ReadU32At(mem, ptr, BLOCK_GAS_USED)),
        DecodeBigInt(ReadU32At(mem, ptr, BLOCK_GAS_LIMIT)),
        DecodeBigInt(ReadU32At(mem, ptr, BLOCK_TIMESTAMP)),
        DecodeBigInt(ReadU32At(mem, ptr, BLOCK_DIFFICULTY)),
        DecodeBigInt(ReadU32At(mem, ptr, BLOCK_TOTAL_DIFFICULTY)),
        if size.Some? then Some(DecodeBigInt(size.value)) else None,
        if baseFee.Some? then Some(DecodeBigInt(baseFee.value)) else None)
  }

  /** `Transaction::from_asc_ptr`: null gives the default transaction;
      `to` is None exactly when its word is 0. */
  function DecodeTransaction(mem: Mem, ptr: u32, zero: BigInt): (t: Transaction)
    requires TransactionPtrValid(mem, ptr)
    ensures ptr == 0 ==> t == DefaultTransaction(zero)
    ensures ptr != 0 ==>
      && (t.to.None? <==> ReadU32At(mem, ptr, TX_TO) == 0)
      && (t.to.Some? ==> t.to.value == DecodeAddress(mem, ReadU32At(mem, ptr, TX_TO)))
      && t.from == DecodeAddress(mem, ReadU32At(mem, ptr, TX_FROM))
      && t.input == DecodeBytes(mem, ReadU32At(mem, ptr, TX_INPUT))
      && t.value.ptr.offset == ReadU32At(mem, ptr, TX_VALUE)
  {
    if ptr == 0 then DefaultTransaction(zero)
    else
      var to := OptionalWord(mem, ptr, TX_TO);
      Transaction(
        DecodeBytes(mem, ReadU32At(mem, ptr, TX_HASH)),
        DecodeBigInt(ReadU32At(mem, ptr, TX_INDEX)),
        DecodeAddress(mem, ReadU32At(mem, ptr, TX_FROM)),
        if to.Some? then Some(DecodeAddress(mem, to.value)) else None,
        DecodeBigInt(ReadU32At(mem, ptr, TX_VALUE)),
        DecodeBigInt(ReadU32At(mem, ptr, TX_GAS_LIMIT)),
        DecodeBigInt(ReadU32At(mem, ptr, TX_GAS_PRICE)),
        DecodeBytes(mem, ReadU32At(mem, ptr, TX_INPUT)),
        DecodeBigInt(ReadU32At(mem, ptr, TX_NONCE)))
  }

  /** `TransactionReceipt::from_asc_ptr`: null gives the default receipt;
      `contract_address` is None exactly when its word is 0. */
  function DecodeReceipt(mem: Mem, ptr: u32, zero: BigInt): (r: TransactionReceipt)
    requires ReceiptPtrValid(mem, ptr)
    ensures ptr == 0 ==> r == DefaultReceipt(zero)
    ensures ptr != 0 ==>
      && (r.contractAddress.None? <==> ReadU32At(mem, ptr, RECEIPT_CONTRACT_ADDRESS) == 0)
      && (r.contractAddress.Some? ==>
            r.contractAddress.value == DecodeAddress(mem, ReadU32At(mem, ptr, RECEIPT_CONTRACT_ADDRESS)))
      && r.transactionHash == DecodeBytes(mem, ReadU32At(mem, ptr, RECEIPT_TRANSACTION_HASH))
      && r.status.ptr.offset == ReadU32At(mem, ptr, RECEIPT_STATUS)
  {
    if ptr == 0 then DefaultReceipt(zero)
    else
      var contract := OptionalWord(mem, ptr, RECEIPT_CONTRACT_ADDRESS);
      TransactionReceipt(
        DecodeBytes(mem, ReadU32At(mem, ptr, RECEIPT_TRANSACTION_HASH)),
        DecodeBigInt(ReadU32At(mem, ptr, RECEIPT_TRANSACTION_INDEX)),
        DecodeBytes(mem, ReadU32At(mem, ptr, RECEIPT_BLOCK_HASH)),
        DecodeBigInt(ReadU32At(mem, ptr, RECEIPT_BLOCK_NUMBER)),
        DecodeBigInt(ReadU32At(mem, ptr, RECEIPT_CUMULATIVE_GAS_USED)),
        DecodeBigInt(ReadU32At(mem, ptr, RECEIPT_GAS_USED)),
        if contract.Some? then Some(DecodeAddress(mem, contract.value)) else None,
        DecodeBigInt(ReadU32At(mem, ptr, RECEIPT_STATUS)),
        DecodeBytes(mem, ReadU32At(mem, ptr, RECEIPT_ROOT)),
        DecodeBytes(mem, ReadU32At(mem, ptr, RECEIPT_LOGS_BLOOM)))
  }

  /** An event object: its own fields, and the objects they point at. The
      params object is the concern of the params decoder. */
  ghost predicate EventPtrValid(mem: Mem, ptr: u32)
  {
    ptr == 0 ||
    (&& ptr + 32 <= |mem|
     && BufferField(mem, ptr, EVENT_ADDRESS)
     && StringPtrValid(mem, ReadU32At(mem, ptr, EVENT_LOG_TYPE))
     && BlockPtrValid(mem, ReadU32At(mem, ptr, EVENT_BLOCK))
     && TransactionPtrValid(mem, ReadU32At(mem, ptr, EVENT_TRANSACTION))
     && ReceiptPtrValid(mem, ReadU32At(mem, ptr, EVENT_RECEIPT)))
  }

  const NULL_EVENT_MESSAGE: string := "Cannot deserialize Event from null pointer"

  /** `Event<P>::from_asc_ptr`, for any params type whose decoder is
      `decodeParams`: a null event is a panic; otherwise `log_type` and
      `receipt` are None exactly when their word is 0, and `params` is
      whatever `decodeParams` makes of the word at offset 24. */
  function DecodeEvent<P>(mem: Mem, ptr: u32, zero: BigInt, decodeParams: (Mem, u32) --> P): (r: Result<Event<P>>)
    requires EventPtrValid(mem, ptr)
    requires ptr != 0 ==> decodeParams.requires(mem, ReadU32At(mem, ptr, EVENT_PARAMS))
    ensures r.Err? <==> ptr == 0
    ensures r.Err? ==> r.message == NULL_EVENT_MESSAGE
    ensures r.Ok? ==>
      && (r.value.logType.None? <==> ReadU32At(mem, ptr, EVENT_LOG_TYPE) == 0)
      && (r.value.logType.Some? ==> r.value.logType.value == StringAt(mem, ReadU32At(mem, ptr, EVENT_LOG_TYPE)))
      && (r.value.receipt.None? <==> ReadU32At(mem, ptr, EVENT_RECEIPT) == 0)
      && r.value.block == DecodeBlock(mem, ReadU32At(mem, ptr, EVENT_BLOCK), zero)
      && r.value.params == decodeParams(mem, ReadU32At(mem, ptr, EVENT_PARAMS))
  {
    if ptr == 0 then Err(NULL_EVENT_MESSAGE)
    else
      var logType := OptionalWord(mem, ptr, EVENT_LOG_TYPE);
      var receipt := OptionalWord(mem, ptr, EVENT_RECEIPT);
      Ok(Event(
        DecodeAddress(mem, ReadU32At(mem, ptr, EVENT_ADDRESS)),
        DecodeBigInt(ReadU32At(mem, ptr, EVENT_LOG_INDEX)),
        DecodeBigInt(ReadU32At(mem, ptr, EVENT_TRANSACTION_LOG_INDEX)),
        if logType.Some? then Some(StringAt(mem, logType.value)) else None,
        DecodeBlock(mem, ReadU32At(mem, ptr, EVENT_BLOCK), zero),
        DecodeTransaction(mem, ReadU32At(mem, ptr, EVENT_TRANSACTION), zero),
        decodeParams(mem, ReadU32At(mem, ptr, EVENT_PARAMS)),
        if receipt.Some? then Some(DecodeReceipt(mem, receipt.value, zero)) else None))
  }
}
