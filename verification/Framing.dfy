/** ISO-on-TCP framing: TPKT (section 6 of RFC 1006) around COTP class 0 PDUs (section 13 of RFC 905). */
module Framing {
  import opened Bytes

  const TPKT_VERSION: u8 := 0x03
  const TPKT_HEADER := 4
  const MAX_FRAME := 0xFFFF

  // -- TPKT ----------------------------------------------------------------

  /** The bytes of a TPKT frame around `payload`. */
  function TpktBytes(payload: seq<u8>): seq<u8>
    requires TPKT_HEADER + |payload| <= MAX_FRAME
  {
    [TPKT_VERSION, 0x00] + Be16(TPKT_HEADER + |payload|) + payload
  }

  method EncodeTpkt(payload: seq<u8>, buf: Buffer) returns (r: Result<(), ProtoError>)
    modifies buf
    ensures r.Ok? <==> TPKT_HEADER + |payload| <= MAX_FRAME
    ensures r.Ok? ==> buf.data == old(buf.data) + TpktBytes(payload)
    ensures r.Err? ==> r.error == EncodingFailed && buf.data == old(buf.data)
  {
    var total := TPKT_HEADER + |payload|;
    if total > MAX_FRAME {
      return Err(EncodingFailed);
    }
    buf.PutU8(TPKT_VERSION);
    buf.PutU8(0x00);
    buf.PutU16(total);
    buf.PutSlice(payload);
    r := Ok(());
  }

  /** The first frame at the front of a buffer and what follows it. */
  function ParseTpkt(s: seq<u8>): (r: Result<(seq<u8>, seq<u8>), ProtoError>) {
    if |s| < TPKT_HEADER then Err(BufferTooShort(TPKT_HEADER, |s|))
    else if s[0] != TPKT_VERSION then Err(InvalidMagic(TPKT_VERSION, s[0]))
    else
      var total := U16(s[2], s[3]);
      if total < TPKT_HEADER then Err(BufferTooShort(TPKT_HEADER, total))
      else if |s| < total then Err(BufferTooShort(total, |s|))
      else Ok((s[TPKT_HEADER..total], s[total..]))
  }

  method DecodeTpkt(buf: Buffer) returns (r: Result<seq<u8>, ProtoError>)
    modifies buf
    ensures match ParseTpkt(old(buf.data))
            case Ok((payload, rest)) => r == Ok(payload) && buf.data == rest
            case Err(e) => r == Err(e) && buf.data == old(buf.data)
  {
    if |buf.data| < TPKT_HEADER {
      return Err(BufferTooShort(TPKT_HEADER, |buf.data|));
    }
    if buf.data[0] != TPKT_VERSION {
      return Err(InvalidMagic(TPKT_VERSION, buf.data[0]));
    }
    var total := U16(buf.data[2], buf.data[3]);
    if total < TPKT_HEADER {
      return Err(BufferTooShort(TPKT_HEADER, total));
    }
    if |buf.data| < total {
      return Err(BufferTooShort(total, |buf.data|));
    }
    var _ := buf.SplitTo(TPKT_HEADER);
    var payload := buf.SplitTo(total - TPKT_HEADER);
    assert payload == old(buf.data)[TPKT_HEADER..total];
    r := Ok(payload);
  }

  /** A frame put at the front of any stream is taken off again whole, leaving the stream. */
  lemma TpktRoundTrip(payload: seq<u8>, rest: seq<u8>)
    requires TPKT_HEADER + |payload| <= MAX_FRAME
    ensures ParseTpkt(TpktBytes(payload) + rest) == Ok((payload, rest))
  {
    var s := TpktBytes(payload) + rest;
    assert s[2..4] == Be16(TPKT_HEADER + |payload|);
    assert U16(s[2], s[3]) == TPKT_HEADER + |payload|;
    assert s[TPKT_HEADER..TPKT_HEADER + |payload|] == payload;
    assert s[TPKT_HEADER + |payload|..] == rest;
  }

  // -- COTP ----------------------------------------------------------------

  datatype Cotp =
    | ConnectRequest(dstRef: u16, srcRef: u16, rack: u8, slot: u8)
    | ConnectConfirm(dstRef: u16, srcRef: u16)
    | Data(tpduNr: u8, last: bool, payload: seq<u8>)
    | Reject(dstRef: u16, srcRef: u16, cause: u8)

  const CODE_CR: u8 := 0xE0
  const CODE_CC: u8 := 0xD0
  const CODE_DT: u8 := 0xF0
  const CODE_ER: u8 := 0x70

  /** The last byte of the called TSAP: three rack bits above five slot bits. */
  function Tsap(rack: u8, slot: u8): u8 { rack % 8 * 32 + slot % 32 }

  /** The seven bytes that open every PDU with a pair of references. */
  function RefHead(len: u8, code: u8, dst: u16, src: u16, tail: u8): (s: seq<u8>)
    ensures |s| == 7 && s[1] == code && s[6] == tail
    ensures U16(s[2], s[3]) == dst && U16(s[4], s[5]) == src
  {
    [len, code] + Be16(dst) + Be16(src) + [tail]
  }

  /** Calling TSAP 0x0100, called TSAP from rack and slot, TPDU size 1024. */
  function ConnectParams(rack: u8, slot: u8): seq<u8> {
    [0xC1, 2, 0x01, 0x00, 0xC2, 2, 0x01, Tsap(rack, slot), 0xC0, 1, 0x0A]
  }

  function CotpBytes(pdu: Cotp): seq<u8> {
    match pdu
    case ConnectRequest(dst, src, rack, slot) => RefHead(17, CODE_CR, dst, src, 0x00) + ConnectParams(rack, slot)
    case ConnectConfirm(dst, src) => RefHead(6, CODE_CC, dst, src, 0x00)
    case Data(nr, last, payload) => [2, CODE_DT, nr % 0x80 + (if last then 0x80 else 0)] + payload
    case Reject(dst, src, cause) => RefHead(6, CODE_ER, dst, src, cause)
  }

  method PutRefHead(len: u8, code: u8, dst: u16, src: u16, tail: u8, buf: Buffer)
    modifies buf
    ensures buf.data == old(buf.data) + RefHead(len, code, dst, src, tail)
  {
    buf.PutU8(len);
    buf.PutU8(code);
    buf.PutU16(dst);
    buf.PutU16(src);
    buf.PutU8(tail);
  }

  method EncodeCotp(pdu: Cotp, buf: Buffer)
    modifies buf
    ensures buf.data == old(buf.data) + CotpBytes(pdu)
  {
    match pdu
    case ConnectRequest(dst, src, rack, slot) =>
      PutRefHead(17, CODE_CR, dst, src, 0x00, buf);
      buf.PutSlice(ConnectParams(rack, slot));
    case ConnectConfirm(dst, src) =>
      PutRefHead(6, CODE_CC, dst, src, 0x00, buf);
    case Data(nr, last, payload) =>
      buf.PutSlice([2, CODE_DT, nr % 0x80 + (if last then 0x80 else 0)]);
      buf.PutSlice(payload);
    case Reject(dst, src, cause) =>
      PutRefHead(6, CODE_ER, dst, src, cause, buf);
  }

  /** Rack and slot after scanning the variable part of a connect request: the last 0xC2 wins. */
  function ScanParams(s: seq<u8>, rack: u8, slot: u8): (u8, u8)
    decreases |s|
  {
    if |s| < 3 || |s| - 2 < s[1] then (rack, slot)
    else
      var rest := s[2..][s[1]..];
      if s[0] == 0xC2 && s[1] >= 2 then ScanParams(rest, s[3] / 32, s[3] % 32)
      else ScanParams(rest, rack, slot)
  }

  function ParseCotp(s: seq<u8>): (r: Result<Cotp, ProtoError>) {
    if |s| < 2 then Err(BufferTooShort(2, |s|))
    else if s[1] == CODE_CR then
      if |s| < 7 then Err(BufferTooShort(7, |s|))
      else
        var (rack, slot) := ScanParams(s[7..], 0, 0);
        Ok(ConnectRequest(U16(s[2], s[3]), U16(s[4], s[5]), rack, slot))
    else if s[1] == CODE_CC then
      if |s| < 7 then Err(BufferTooShort(7, |s|))
      else Ok(ConnectConfirm(U16(s[2], s[3]), U16(s[4], s[5])))
    else if s[1] == CODE_DT then
      if |s| < 3 then Err(BufferTooShort(3, |s|))
      else Ok(Data(s[2] % 0x80, s[2] >= 0x80, s[3..]))
    else if s[1] == CODE_ER then
      if |s| < 6 then Err(BufferTooShort(6, |s|))
      else Ok(Reject(U16(s[2], s[3]), U16(s[4], s[5]), if |s| > 6 then s[6] else 0))
    else Err(UnsupportedPduType(s[1]))
  }

  method DecodeCotp(buf: Buffer) returns (r: Result<Cotp, ProtoError>)
    modifies buf
    ensures r == ParseCotp(old(buf.data))
  {
    var have := |buf.data|;
    if have < 2 {
      return Err(BufferTooShort(2, have));
    }
    var code := buf.data[1];
    if code == CODE_CR {
      if have < 7 {
        return Err(BufferTooShort(7, have));
      }
      var _ := buf.SplitTo(2);
      var dst := buf.GetU16();
      var src := buf.GetU16();
      var _ := buf.GetU8();
      assert buf.data == old(buf.data)[7..];
      var rack, slot := DecodeConnectParams(buf);
      r := Ok(ConnectRequest(dst, src, rack, slot));
    } else if code == CODE_CC {
      if have < 7 {
        return Err(BufferTooShort(7, have));
      }
      var _ := buf.SplitTo(2);
      var dst := buf.GetU16();
      var src := buf.GetU16();
      var _ := buf.SplitTo(|buf.data|);
      r := Ok(ConnectConfirm(dst, src));
    } else if code == CODE_DT {
      if have < 3 {
        return Err(BufferTooShort(3, have));
      }
      var _ := buf.SplitTo(2);
      var tpdu := buf.GetU8();
      var payload := buf.SplitTo(|buf.data|);
      assert payload == old(buf.data)[3..];
      r := Ok(Data(tpdu % 0x80, tpdu >= 0x80, payload));
    } else if code == CODE_ER {
      if have < 6 {
        return Err(BufferTooShort(6, have));
      }
      var _ := buf.SplitTo(2);
      var dst := buf.GetU16();
      var src := buf.GetU16();
      var cause: u8 := 0;
      if |buf.data| > 0 {
        cause := buf.GetU8();
      }
      r := Ok(Reject(dst, src, cause));
    } else {
      r := Err(UnsupportedPduType(code));
    }
  }

  /** The parameter loop of a connect request. */
  method DecodeConnectParams(buf: Buffer) returns (rack: u8, slot: u8)
    modifies buf
    ensures (rack, slot) == ScanParams(old(buf.data), 0, 0)
  {
    rack, slot := 0, 0;
    while |buf.data| >= 3
      invariant ScanParams(buf.data, rack, slot) == ScanParams(old(buf.data), 0, 0)
      decreases |buf.data|
    {
      var code := buf.GetU8();
      var len := buf.GetU8();
      if |buf.data| < len {
        break;
      }
      var param := buf.SplitTo(len);
      if code == 0xC2 && len >= 2 {
        rack := param[1] / 32;
        slot := param[1] % 32;
      }
    }
  }

  /** What survives the trip over the wire: 3 rack bits, 5 slot bits, 7 bits of the PDU number. */
  function WireCotp(pdu: Cotp): Cotp {
    match pdu
    case ConnectRequest(dst, src, rack, slot) => ConnectRequest(dst, src, rack % 8, slot % 32)
    case Data(nr, last, payload) => Data(nr % 0x80, last, payload)
    case _ => pdu
  }

  lemma CotpRoundTrip(pdu: Cotp)
    ensures ParseCotp(CotpBytes(pdu)) == Ok(WireCotp(pdu))
  {
    var s := CotpBytes(pdu);
    match pdu
    case ConnectRequest(dst, src, rack, slot) =>
      var p := ConnectParams(rack, slot);
      assert s[7..] == p;
      assert p[2..][2..] == p[4..] && p[4..][2..][2..] == p[8..];
      assert ScanParams(p[8..], rack % 8, slot % 32) == (rack % 8, slot % 32);
      assert ScanParams(p[4..], 0, 0) == (rack % 8, slot % 32);
    case Data(nr, last, payload) =>
      assert s[3..] == payload;
    case _ =>
  }
}
