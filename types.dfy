/** The plain value types a mapping handler works with: 20-byte addresses,
    byte strings and their lowercase hex rendering, `BigInt` and
    `BigDecimal` as pointers to host-managed byte buffers, the `Value`
    enum an entity field holds, and `EntityData`, the field map behind
    every generated entity. */
module Types {
  import opened Wrappers
  import opened Words
  import opened LinearMemory
  import opened Allocator
  import opened Asc

  // ---------------------------------------------------------------------
  // Address and Bytes
  // ---------------------------------------------------------------------

  const ADDRESS_LEN: nat := 20

  type AddressBytes = bs: seq<u8> | |bs| == ADDRESS_LEN witness Zeros(20)

  /** `Address`: exactly 20 bytes. The datatype constructor is both
      `Address::new` and `From<[u8; 20]>`, which keep the bytes as given. */
  datatype Address = Address(bytes: AddressBytes)
  {
    /** `Address::to_hex`: "0x" and 40 lowercase hex digits. */
    method ToHex() returns (s: string)
      ensures s == Hex(bytes) && |s| == 2 + 2 * ADDRESS_LEN
    {
      s := HexEncode(bytes);
    }
  }

  /** `Address::zero()`. */
  function ZeroAddress(): (a: Address)
    ensures forall i :: 0 <= i < ADDRESS_LEN ==> a.bytes[i] == 0
  {
    Address(Zeros(ADDRESS_LEN))
  }

  /** `From<&[u8]> for Address`, as a value: the first `k = min(|bs|, 20)`
      bytes, right-aligned behind `20 - k` zero bytes. */
  function AddressOfSlice(bs: seq<u8>): Address
  {
    var k := if |bs| < ADDRESS_LEN then |bs| else ADDRESS_LEN;
    Address(Zeros(ADDRESS_LEN - k) + bs[..k])
  }

  /** `From<&[u8]> for Address`: copies the slice into the tail of a zeroed
      20-byte array. */
  method AddressFromSlice(bs: seq<u8>) returns (a: Address)
    ensures a == AddressOfSlice(bs)
  {
    var arr := new u8[ADDRESS_LEN](_ => 0);
    var len := if |bs| < ADDRESS_LEN then |bs| else ADDRESS_LEN;
    var start := ADDRESS_LEN - len;
    var i := 0;
    while i < len
      invariant 0 <= i <= len
      invariant forall j :: 0 <= j < ADDRESS_LEN ==>
        arr[j] == (if start <= j < start + i then bs[j - start] else 0)
    {
      arr[start + i] := bs[i];
      i := i + 1;
    }
    assert arr[..] == Zeros(start) + bs[..len];
    a := Address(arr[..]);
  }

  /** A short slice is right-aligned behind zeros; a long one keeps its
      first 20 bytes. */
  lemma AddressOfSliceAlignment(bs: seq<u8>)
    ensures |bs| <= ADDRESS_LEN ==>
      && AddressOfSlice(bs).bytes[ADDRESS_LEN - |bs|..] == bs
      && forall i :: 0 <= i < ADDRESS_LEN - |bs| ==> AddressOfSlice(bs).bytes[i] == 0
    ensures |bs| >= ADDRESS_LEN ==> AddressOfSlice(bs).bytes == bs[..ADDRESS_LEN]
  {
    var k := if |bs| < ADDRESS_LEN then |bs| else ADDRESS_LEN;
    assert AddressOfSlice(bs).bytes[ADDRESS_LEN - k..] == bs[..k];
  }

  /** Converting an address's own 20 bytes gives the address back. */
  lemma AddressOfSliceOfAddress(a: Address)
    ensures AddressOfSlice(a.bytes) == a
  {
    assert a.bytes[..ADDRESS_LEN] == a.bytes;
    assert Zeros(0) + a.bytes == a.bytes;
  }

  /** `Bytes`: a byte vector of any length. */
  datatype Bytes = Bytes(data: seq<u8>)
  {
    /** `Bytes::len`. */
    function Len(): nat
    {
      |data|
    }

    /** `Bytes::to_hex`: "0x" and two lowercase hex digits per byte. */
    method ToHex() returns (s: string)
      ensures s == Hex(data) && |s| == 2 + 2 * Len()
    {
      s := HexEncode(data);
    }
  }

  /** `Bytes::new()`. */
  function EmptyBytes(): (b: Bytes)
    ensures b.Len() == 0
  {
    Bytes.Bytes([])
  }

  // ---------------------------------------------------------------------
  // Hex rendering
  // ---------------------------------------------------------------------

  const HEX_CHARS: string := "0123456789abcdef"

  /** Two digits per byte, high nibble (`byte >> 4`) first, then the low
      nibble (`byte & 0xf`). */
  function HexDigits(bs: seq<u8>): (s: string)
    ensures |s| == 2 * |bs|
  {
    seq(2 * |bs|, j requires 0 <= j < 2 * |bs| =>
      if j % 2 == 0 then HEX_CHARS[bs[j / 2] / 16] else HEX_CHARS[bs[j / 2] % 16])
  }

  function Hex(bs: seq<u8>): string
  {
    "0x" + HexDigits(bs)
  }

  /** The loop both `to_hex` methods run: push "0x", then two digits per
      byte. */
  method HexEncode(bs: seq<u8>) returns (s: string)
    ensures s == Hex(bs)
  {
    s := "0x";
    var i := 0;
    while i < |bs|
      invariant 0 <= i <= |bs|
      invariant s == "0x" + HexDigits(bs[..i])
    {
      var b := bs[i];
      assert HexDigits(bs[..i + 1]) == HexDigits(bs[..i]) + [HEX_CHARS[b / 16], HEX_CHARS[b % 16]];
      s := s + [HEX_CHARS[b / 16]];
      s := s + [HEX_CHARS[b % 16]];
      i := i + 1;
    }
    assert bs[..i] == bs;
  }

  /** The value of one lowercase hex digit; anything else counts as 0. */
  function NibbleValue(c: char): (v: nat)
    ensures v < 16
  {
    if '0' <= c <= '9' then c as int - '0' as int
    else if 'a' <= c <= 'f' then c as int - 'a' as int + 10
    else 0
  }

  predicate IsHexDigit(c: char)
  {
    '0' <= c <= '9' || 'a' <= c <= 'f'
  }

  /** Reading hex digits back, two per byte. */
  function UnhexDigits(s: string): (bs: seq<u8>)
    requires |s| % 2 == 0
    ensures |bs| == |s| / 2
  {
    seq(|s| / 2, i requires 0 <= i < |s| / 2 => NibbleValue(s[2 * i]) * 16 + NibbleValue(s[2 * i + 1]))
  }

  lemma NibbleOfHexChar(n: nat)
    requires n < 16
    ensures IsHexDigit(HEX_CHARS[n]) && NibbleValue(HEX_CHARS[n]) == n
  {
    if n < 10 {
      assert HEX_CHARS[n] as int == '0' as int + n;
    } else {
      assert HEX_CHARS[n] as int == 'a' as int + n - 10;
    }
  }

  /** The rendering is "0x", then only lowercase hex digits, from which
      every byte can be read back: it loses nothing. */
  lemma HexRoundTrip(bs: seq<u8>)
    ensures |Hex(bs)| == 2 + 2 * |bs| && Hex(bs)[..2] == "0x"
    ensures forall j :: 2 <= j < |Hex(bs)| ==> IsHexDigit(Hex(bs)[j])
    ensures UnhexDigits(Hex(bs)[2..]) == bs
  {
    var d := HexDigits(bs);
    assert Hex(bs)[2..] == d;
    forall j | 0 <= j < |d|
      ensures IsHexDigit(d[j])
    {
      if j % 2 == 0 {
        NibbleOfHexChar(bs[j / 2] / 16);
      } else {
        NibbleOfHexChar(bs[j / 2] % 16);
      }
    }
    forall i | 0 <= i < |bs|
      ensures UnhexDigits(d)[i] == bs[i]
    {
      NibbleOfHexChar(bs[i] / 16);
      NibbleOfHexChar(bs[i] % 16);
      assert (2 * i + 1) / 2 == i && (2 * i) / 2 == i;
    }
  }

  // ---------------------------------------------------------------------
  // BigInt and BigDecimal
  // ---------------------------------------------------------------------

  /** `BigInt`: a pointer to a byte buffer holding the little-endian
      two's-complement value; all arithmetic is a host call. `from_ptr`
      is the constructor. */
  datatype BigInt = BigIntAt(ptr: AscPtr)

  /** `BigDecimal`: likewise an opaque pointer. */
  datatype BigDecimal = BigDecimalAt(ptr: AscPtr)

  /** The buffer pointer of a `bytes_to_asc` result, wrapped as a BigInt. */
  function AsBigInt(res: (HeapState, Exec<AscPtr>)): (r: (HeapState, Exec<BigInt>))
    ensures r.0 == res.0 && (r.1.Returned? <==> res.1.Returned?)
    ensures r.1.Returned? ==> r.1.value.ptr == res.1.value
  {
    (res.0, if res.1.Returned? then Returned(BigIntAt(res.1.value)) else Trapped)
  }

  /** `BigInt::from_i32`: a fresh byte buffer holding the four
      little-endian bytes of `value`. */
  function BigIntFromI32Spec(cfg: Config, st: HeapState, value: i32): (res: (HeapState, Exec<BigInt>))
    requires ValidState(cfg, st)
    ensures ValidState(cfg, res.0)
  {
    AsBigInt(BytesToAscSpec(cfg, st, I32LeBytes(value)))
  }

  method BigIntFromI32(heap: Heap, value: i32) returns (r: Exec<BigInt>)
    requires heap.Valid()
    modifies heap
    ensures heap.Valid()
    ensures (heap.State(), r) == BigIntFromI32Spec(heap.cfg, old(heap.State()), value)
  {
    var p := BytesToAsc(heap, I32LeBytes(value));
    r := if p.Returned? then Returned(BigIntAt(AscPtr(AsRaw(p.value)))) else Trapped;
  }

  /** `BigInt::from_u64`: a fresh byte buffer holding the eight
      little-endian bytes of `value`. */
  function BigIntFromU64Spec(cfg: Config, st: HeapState, value: u64): (res: (HeapState, Exec<BigInt>))
    requires ValidState(cfg, st)
    ensures ValidState(cfg, res.0)
  {
    AsBigInt(BytesToAscSpec(cfg, st, U64LeBytes(value)))
  }

  method BigIntFromU64(heap: Heap, value: u64) returns (r: Exec<BigInt>)
    requires heap.Valid()
    modifies heap
    ensures heap.Valid()
    ensures (heap.State(), r) == BigIntFromU64Spec(heap.cfg, old(heap.State()), value)
  {
    var p := BytesToAsc(heap, U64LeBytes(value));
    r := if p.Returned? then Returned(BigIntAt(AscPtr(AsRaw(p.value)))) else Trapped;
  }

  /** A successful `from_i32` leaves a byte buffer (rtId 1) of four bytes
      that read back as `value`. */
  lemma BigIntFromI32Stores(cfg: Config, st: HeapState, value: i32, st': HeapState, b: BigInt)
    requires ValidState(cfg, st) && Fits(cfg, st, 4)
    requires BigIntFromI32Spec(cfg, st, value) == (st', Returned(b))
    ensures RtId(st'.mem, b.ptr.offset) == ARRAY_BUFFER && RtSize(st'.mem, b.ptr.offset) == 4
    ensures BytesPtrValid(st'.mem, b.ptr.offset) && BytesAt(st'.mem, b.ptr.offset) == I32LeBytes(value)
    ensures I32FromLe(BytesAt(st'.mem, b.ptr.offset)) == value
    ensures SignedLeValue(BytesAt(st'.mem, b.ptr.offset)) == value
  {
    BytesToAscRoundTrip(cfg, st, I32LeBytes(value), st', b.ptr.offset);
    I32LeRoundTrip(value);
    SignedI32LeBytes(value);
  }

  /** A successful `from_u64` leaves a byte buffer (rtId 1) of eight bytes
      whose unsigned reading is `value`. Read as the signed BigInt they
      are, values from 2^63 up come out 2^64 lower. */
  lemma BigIntFromU64Stores(cfg: Config, st: HeapState, value: u64, st': HeapState, b: BigInt)
    requires ValidState(cfg, st) && Fits(cfg, st, 8)
    requires BigIntFromU64Spec(cfg, st, value) == (st', Returned(b))
    ensures RtId(st'.mem, b.ptr.offset) == ARRAY_BUFFER && RtSize(st'.mem, b.ptr.offset) == 8
    ensures BytesPtrValid(st'.mem, b.ptr.offset) && BytesAt(st'.mem, b.ptr.offset) == U64LeBytes(value)
    ensures LeValue(BytesAt(st'.mem, b.ptr.offset)) == value
    ensures SignedLeValue(BytesAt(st'.mem, b.ptr.offset)) ==
      (if value < 0x8000_0000_0000_0000 then value else value - 0x1_0000_0000_0000_0000)
  {
    BytesToAscRoundTrip(cfg, st, U64LeBytes(value), st', b.ptr.offset);
    U64LeRoundTrip(value);
    SignedU64LeBytes(value);
  }

  // ---------------------------------------------------------------------
  // Entity field values
  // ---------------------------------------------------------------------

  /** `Value`: what an entity field holds. */
  datatype Value =
    | String(str: string)
    | Int(int32: i32)
    | Int8(int64: i64)
    | BigIntValue(bigInt: BigInt)
    | BigDecimalValue(bigDecimal: BigDecimal)
    | Bool(boolean: bool)
    | BytesValue(bytes: Bytes)
    | Array(items: seq<Value>)
    | Null
  {
    /** `as_string`: Some exactly for a String. */
    function AsString(): (r: Option<string>)
      ensures r.Some? <==> this.String?
      ensures r.Some? ==> this == Value.String(r.value)
    {
      match this
      case String(s) => Some(s)
      case _ => None
    }

    /** `as_bytes`: Some exactly for Bytes. */
    function AsBytes(): (r: Option<Bytes>)
      ensures r.Some? <==> this.BytesValue?
      ensures r.Some? ==> this == BytesValue(r.value)
    {
      match this
      case BytesValue(b) => Some(b)
      case _ => None
    }

    /** `as_big_int`: Some exactly for a BigInt. */
    function AsBigInt(): (r: Option<BigInt>)
      ensures r.Some? <==> this.BigIntValue?
      ensures r.Some? ==> this == BigIntValue(r.value)
    {
      match this
      case BigIntValue(bi) => Some(bi)
      case _ => None
    }

    /** `as_big_decimal`: Some exactly for a BigDecimal. */
    function AsBigDecimal(): (r: Option<BigDecimal>)
      ensures r.Some? <==> this.BigDecimalValue?
      ensures r.Some? ==> this == BigDecimalValue(r.value)
    {
      match this
      case BigDecimalValue(bd) => Some(bd)
      case _ => None
    }

    /** `is_null`. */
    predicate IsNull()
    {
      this.Null?
    }
  }

  /** At most one accessor answers for any value, and none answers for
      Null. */
  lemma AccessorsExclusive(v: Value)
    ensures v.IsNull() ==> v.AsString().None? && v.AsBytes().None? && v.AsBigInt().None? && v.AsBigDecimal().None?
    ensures v.AsString().Some? ==> v.AsBytes().None? && v.AsBigInt().None? && v.AsBigDecimal().None?
    ensures v.AsBytes().Some? ==> v.AsBigInt().None? && v.AsBigDecimal().None?
    ensures v.AsBigInt().Some? ==> v.AsBigDecimal().None?
  {
  }

  // ---------------------------------------------------------------------
  // EntityData
  // ---------------------------------------------------------------------

  /** `EntityData`: an ordered map from field name to value. The order of
      a `BTreeMap` matters only for iteration, which is not modelled. */
  class EntityData {
    var fields: map<string, Value>

    /** `EntityData::new`: no fields. */
    constructor ()
      ensures fields == map[]
    {
      fields := map[];
    }

    /** `set`: insert or overwrite one key. */
    method Set(key: string, value: Value)
      modifies this
      ensures fields == old(fields)[key := value]
      ensures Get(key) == Some(value)
      ensures forall k :: k != key ==> Get(k) == old(Get(k))
    {
      fields := fields[key := value];
    }

    /** `get`. */
    function Get(key: string): (r: Option<Value>)
      reads this
      ensures r.Some? <==> key in fields
      ensures r.Some? ==> fields[key] == r.value
    {
      if key in fields then Some(fields[key]) else None
    }

    /** `get_string`: fails with "expected string field" when the key is
        absent or holds another variant. */
    function GetString(key: string): (r: Result<string>)
      reads this
      ensures r.Ok? <==> Get(key).Some? && Get(key).value.String?
      ensures r.Ok? ==> Get(key) == Some(Value.String(r.value))
      ensures r.Err? ==> r.message == "expected string field"
    {
      match Get(key)
      case Some(String(s)) => Ok(s)
      case _ => Err("expected string field")
    }

    /** `get_bytes`: fails with "expected bytes field" otherwise. */
    function GetBytes(key: string): (r: Result<Bytes>)
      reads this
      ensures r.Ok? <==> Get(key).Some? && Get(key).value.BytesValue?
      ensures r.Ok? ==> Get(key) == Some(BytesValue(r.value))
      ensures r.Err? ==> r.message == "expected bytes field"
    {
      match Get(key)
      case Some(BytesValue(b)) => Ok(b)
      case _ => Err("expected bytes field")
    }

    /** `get_bigint`: fails with "expected bigint field" otherwise. */
    function GetBigInt(key: string): (r: Result<BigInt>)
      reads this
      ensures r.Ok? <==> Get(key).Some? && Get(key).value.BigIntValue?
      ensures r.Ok? ==> Get(key) == Some(BigIntValue(r.value))
      ensures r.Err? ==> r.message == "expected bigint field"
    {
      match Get(key)
      case Some(BigIntValue(bi)) => Ok(bi)
      case _ => Err("expected bigint field")
    }

    /** `get_big_decimal`: fails with "expected bigdecimal field"
        otherwise. */
    function GetBigDecimal(key: string): (r: Result<BigDecimal>)
      reads this
      ensures r.Ok? <==> Get(key).Some? && Get(key).value.BigDecimalValue?
      ensures r.Ok? ==> Get(key) == Some(BigDecimalValue(r.value))
      ensures r.Err? ==> r.message == "expected bigdecimal field"
    {
      match Get(key)
      case Some(BigDecimalValue(bd)) => Ok(bd)
      case _ => Err("expected bigdecimal field")
    }

    /** `get_string_opt`: None exactly where `get_string` would fail. */
    function GetStringOpt(key: string): (r: Option<string>)
      reads this
      ensures r.Some? <==> GetString(key).Ok?
      ensures r.Some? ==> r.value == GetString(key).value
    {
      if key in fields then fields[key].AsString() else None
    }
  }
}
