/** The S7 header, its code tables, and the parameter block of the PDU-size negotiation. */
module S7Header {
  import opened Bytes

  const S7_MAGIC: u8 := 0x32

  datatype PduType = Job | Ack | AckData | UserData

  function PduCode(t: PduType): u8 {
    match t
    case Job => 0x01
    case Ack => 0x02
    case AckData => 0x03
    case UserData => 0x07
  }

  function PduTypeOf(v: u8): (r: Result<PduType, ProtoError>)
    ensures forall t :: r == Ok(t) <==> v == PduCode(t)
  {
    match v
    case 0x01 => Ok(Job)
    case 0x02 => Ok(Ack)
    case 0x03 => Ok(AckData)
    case 0x07 => Ok(UserData)
    case _ => Err(UnsupportedPduType(v))
  }

  datatype Area =
    | PeripheralInput | ProcessInput | ProcessOutput | Marker | DataBlock | InstanceDB | LocalData
    | CounterArea | TimerArea

  function AreaCode(a: Area): u8 {
    match a
    case PeripheralInput => 0x80
    case ProcessInput => 0x81
    case ProcessOutput => 0x82
    case Marker => 0x83
    case DataBlock => 0x84
    case InstanceDB => 0x85
    case LocalData => 0x86
    case CounterArea => 0x1C
    case TimerArea => 0x1D
  }

  function AreaOf(v: u8): (r: Result<Area, ProtoError>)
    ensures forall a :: r == Ok(a) <==> v == AreaCode(a)
  {
    match v
    case 0x80 => Ok(PeripheralInput)
    case 0x81 => Ok(ProcessInput)
    case 0x82 => Ok(ProcessOutput)
    case 0x83 => Ok(Marker)
    case 0x84 => Ok(DataBlock)
    case 0x85 => Ok(InstanceDB)
    case 0x86 => Ok(LocalData)
    case 0x1C => Ok(CounterArea)
    case 0x1D => Ok(TimerArea)
    case _ => Err(UnsupportedArea(v))
  }

  datatype TransportSize =
    | Bit | Byte | Char | Word | Int | DWord | DInt | Real | Date | Tod | Time | S5Time | DtL
    | Counter | Timer

  function TransportCode(t: TransportSize): u8 {
    match t
    case Bit => 0x01
    case Byte => 0x02
    case Char => 0x03
    case Word => 0x04
    case Int => 0x05
    case DWord => 0x06
    case DInt => 0x07
    case Real => 0x08
    case Date => 0x09
    case Tod => 0x0A
    case Time => 0x0B
    case S5Time => 0x0C
    case DtL => 0x0F
    case Counter => 0x1C
    case Timer => 0x1D
  }

  function TransportOf(v: u8): (r: Result<TransportSize, ProtoError>)
    ensures forall t :: r == Ok(t) <==> v == TransportCode(t)
  {
    match v
    case 0x01 => Ok(Bit)
    case 0x02 => Ok(Byte)
    case 0x03 => Ok(Char)
    case 0x04 => Ok(Word)
    case 0x05 => Ok(Int)
    case 0x06 => Ok(DWord)
    case 0x07 => Ok(DInt)
    case 0x08 => Ok(Real)
    case 0x09 => Ok(Date)
    case 0x0A => Ok(Tod)
    case 0x0B => Ok(Time)
    case 0x0C => Ok(S5Time)
    case 0x0F => Ok(DtL)
    case 0x1C => Ok(Counter)
    case 0x1D => Ok(Timer)
    case _ => Err(UnsupportedTransportSize(v))
  }

  // -- The header ----------------------------------------------------------

  datatype Header = Header(
    pduType: PduType,
    reserved: u16,
    pduRef: u16,
    paramLen: u16,
    dataLen: u16,
    errorClass: Option<u8>,
    errorCode: Option<u8>)

  /** The ten bytes every header has. */
  function FixedBytes(h: Header): (s: seq<u8>)
    ensures |s| == 10 && s[0] == S7_MAGIC && s[1] == PduCode(h.pduType)
    ensures U16(s[2], s[3]) == h.reserved && U16(s[4], s[5]) == h.pduRef
    ensures U16(s[6], s[7]) == h.paramLen && U16(s[8], s[9]) == h.dataLen
  {
    [S7_MAGIC, PduCode(h.pduType)] + Be16(h.reserved) + Be16(h.pduRef) + Be16(h.paramLen) + Be16(h.dataLen)
  }

  function HeaderBytes(h: Header): seq<u8> {
    if h.errorClass.Some? && h.errorCode.Some? then FixedBytes(h) + [h.errorClass.value, h.errorCode.value]
    else FixedBytes(h)
  }

  method EncodeHeader(h: Header, buf: Buffer)
    modifies buf
    ensures buf.data == old(buf.data) + HeaderBytes(h)
  {
    buf.PutSlice([S7_MAGIC, PduCode(h.pduType)]);
    buf.PutU16(h.reserved);
    buf.PutU16(h.pduRef);
    buf.PutU16(h.paramLen);
    buf.PutU16(h.dataLen);
    assert buf.data == old(buf.data) + FixedBytes(h);
    if h.errorClass.Some? && h.errorCode.Some? {
      buf.PutSlice([h.errorClass.value, h.errorCode.value]);
    }
  }

  /** Acknowledgements carry an error class and code after the fixed part, if two more bytes are there. */
  predicate Acknowledges(t: PduType) { t == Ack || t == AckData }

  /** A header and the bytes behind it. */
  function ParseHeader(s: seq<u8>): (r: Result<(Header, seq<u8>), ProtoError>) {
    if |s| < 10 then Err(BufferTooShort(10, |s|))
    else if s[0] != S7_MAGIC then Err(InvalidMagic(S7_MAGIC, s[0]))
    else
      var t :- PduTypeOf(s[1]);
      var h := Header(t, U16(s[2], s[3]), U16(s[4], s[5]), U16(s[6], s[7]), U16(s[8], s[9]), None, None);
      if Acknowledges(t) && |s| >= 12
      then Ok((h.(errorClass := Some(s[10]), errorCode := Some(s[11])), s[12..]))
      else Ok((h, s[10..]))
  }

  method DecodeHeader(buf: Buffer) returns (r: Result<Header, ProtoError>)
    modifies buf
    ensures match ParseHeader(old(buf.data))
            case Ok((h, rest)) => r == Ok(h) && buf.data == rest
            case Err(e) => r == Err(e)
  {
    if |buf.data| < 10 {
      return Err(BufferTooShort(10, |buf.data|));
    }
    var magic := buf.GetU8();
    if magic != S7_MAGIC {
      return Err(InvalidMagic(S7_MAGIC, magic));
    }
    var code := buf.GetU8();
    var t := PduTypeOf(code);
    if t.Err? {
      return Err(t.error);
    }
    var reserved := buf.GetU16();
    var pduRef := buf.GetU16();
    var paramLen := buf.GetU16();
    var dataLen := buf.GetU16();
    var errorClass, errorCode := None, None;
    assert buf.data == old(buf.data)[10..];
    if Acknowledges(t.value) && |buf.data| >= 2 {
      var c := buf.GetU8();
      var e := buf.GetU8();
      errorClass, errorCode := Some(c), Some(e);
    }
    r := Ok(Header(t.value, reserved, pduRef, paramLen, dataLen, errorClass, errorCode));
  }

  /** The headers that survive when `body` follows: the error pair is there exactly when it will be read back. */
  predicate Transparent(h: Header, body: seq<u8>) {
    if Acknowledges(h.pduType)
    then (h.errorClass.Some? && h.errorCode.Some?) || (h.errorClass.None? && h.errorCode.None? && |body| < 2)
    else h.errorClass.None? && h.errorCode.None?
  }

  /** Decoding returns the encoded header and the body behind it for the transparent headers and no others. */
  lemma HeaderRoundTrip(h: Header, body: seq<u8>)
    ensures ParseHeader(HeaderBytes(h) + body) == Ok((h, body)) <==> Transparent(h, body)
    ensures ParseHeader(HeaderBytes(h) + body).Ok?
  {
    var s := HeaderBytes(h) + body;
    assert s[..10] == FixedBytes(h);
    assert forall i :: 0 <= i < 10 ==> s[i] == FixedBytes(h)[i];
    assert PduTypeOf(s[1]) == Ok(h.pduType);
    if h.errorClass.Some? && h.errorCode.Some? {
      assert s[12..] == body;
      assert |s[10..]| == |body| + 2;
    } else {
      assert s[10..] == body;
      assert |body| >= 2 ==> |s[12..]| == |body| - 2;
    }
  }

  // -- Negotiation ---------------------------------------------------------

  const FUNC_NEGOTIATE: u8 := 0xF0

  datatype Negotiate = Negotiate(maxAmqCalling: u16, maxAmqCalled: u16, pduLength: u16)

  /** Request and response share one layout. */
  function NegotiateBytes(n: Negotiate): (s: seq<u8>)
    ensures |s| == 8 && s[0] == FUNC_NEGOTIATE
    ensures U16(s[2], s[3]) == n.maxAmqCalling && U16(s[4], s[5]) == n.maxAmqCalled && U16(s[6], s[7]) == n.pduLength
  {
    [FUNC_NEGOTIATE, 0x00] + Be16(n.maxAmqCalling) + Be16(n.maxAmqCalled) + Be16(n.pduLength)
  }

  function ParseNegotiate(s: seq<u8>): (r: Result<Negotiate, ProtoError>) {
    if |s| < 8 then Err(BufferTooShort(8, |s|))
    else if s[0] != FUNC_NEGOTIATE then Err(UnsupportedFunction(s[0]))
    else Ok(Negotiate(U16(s[2], s[3]), U16(s[4], s[5]), U16(s[6], s[7])))
  }
}
