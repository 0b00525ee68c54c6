/** The integrity tail of protocol versions 1 and 2: an identifier, a marker and a keyed digest. */
module Integrity {
  import opened Bytes
  import opened Vlq

  const DIGEST_MARKER: u8 := 0x20
  const DIGEST_LEN := 32

  type Digest = s: seq<u8> | |s| == DIGEST_LEN witness seq<u8>(DIGEST_LEN, _ => 0)

  /** The digest under a fixed key; nothing is known about it but its length. */
  type Mac = seq<u8> -> Digest

  function Tail(id: u32, digest: Digest): seq<u8> { VlqBytes(id) + [DIGEST_MARKER] + digest }

  function Protected(mac: Mac, data: seq<u8>, id: u32): seq<u8> { data + Tail(id, mac(data)) }

  method AppendIntegrity(buf: Buffer, mac: Mac, id: u32)
    modifies buf
    ensures buf.data == Protected(mac, old(buf.data), id)
  {
    var digest := mac(buf.data);
    EncodeVlq(id, buf);
    buf.PutU8(DIGEST_MARKER);
    buf.PutSlice(digest);
  }

  function ParseTail(s: seq<u8>): (r: Result<(u32, Digest, seq<u8>), ProtoError>) {
    var (id, rest) :- ParseVlq(s);
    if rest == [] then Err(InvalidMagic(DIGEST_MARKER, 0x00))
    else if rest[0] != DIGEST_MARKER then Err(InvalidMagic(DIGEST_MARKER, rest[0]))
    else if |rest| - 1 < DIGEST_LEN then Err(BufferTooShort(DIGEST_LEN, |rest| - 1))
    else Ok((id, rest[1..1 + DIGEST_LEN], rest[1 + DIGEST_LEN..]))
  }

  method DecodeTail(buf: Buffer) returns (r: Result<(u32, Digest), ProtoError>)
    modifies buf
    ensures match ParseTail(old(buf.data))
            case Ok((id, digest, rest)) => r == Ok((id, digest)) && buf.data == rest
            case Err(e) => r == Err(e)
  {
    var id := DecodeVlq(buf);
    if id.Err? {
      return Err(id.error);
    }
    if buf.data == [] || buf.data[0] != DIGEST_MARKER {
      return Err(InvalidMagic(DIGEST_MARKER, if buf.data == [] then 0x00 else buf.data[0]));
    }
    ghost var rest := buf.data;
    var _ := buf.GetU8();
    if |buf.data| < DIGEST_LEN {
      return Err(BufferTooShort(DIGEST_LEN, |buf.data|));
    }
    var digest := buf.SplitTo(DIGEST_LEN);
    assert digest == rest[1..1 + DIGEST_LEN];
    r := Ok((id.value, digest));
  }

  lemma TailRoundTrip(id: u32, digest: Digest, rest: seq<u8>)
    ensures ParseTail(Tail(id, digest) + rest) == Ok((id, digest, rest))
  {
    var after := [DIGEST_MARKER] + digest + rest;
    VlqRoundTrip(id, after);
    assert Tail(id, digest) + rest == VlqBytes(id) + after;
    assert after[1..1 + DIGEST_LEN] == digest && after[1 + DIGEST_LEN..] == rest;
  }

  // -- Finding the tail from the end -------------------------------------------------------

  /** A frame whose last bytes read as a tail with an identifier of `w` bytes, the digest matching. */
  predicate TailAt(frame: seq<u8>, mac: Mac, w: nat) {
    var tail := w + 1 + DIGEST_LEN;
    && |frame| >= tail
    && frame[|frame| - tail + w] == DIGEST_MARKER
    && frame[|frame| - DIGEST_LEN..] == mac(frame[..|frame| - tail])
  }

  function IdBytes(frame: seq<u8>, w: nat): seq<u8>
    requires |frame| >= w + 1 + DIGEST_LEN
  {
    frame[|frame| - (w + 1 + DIGEST_LEN)..|frame| - (1 + DIGEST_LEN)]
  }

  /** Tries the widths from `w` on; the first that fits decides. */
  function VerifyFrom(frame: seq<u8>, mac: Mac, w: nat): (r: Result<u32, ProtoError>)
    decreases 6 - w
  {
    if w > 5 then Err(IntegrityFailure)
    else if TailAt(frame, mac, w) then
      match ParseVlq(IdBytes(frame, w))
      case Ok((id, _)) => Ok(id)
      case Err(e) => Err(e)
    else VerifyFrom(frame, mac, w + 1)
  }

  method Verify(frame: seq<u8>, mac: Mac) returns (r: Result<u32, ProtoError>)
    ensures r == VerifyFrom(frame, mac, 1)
  {
    for w := 1 to 6
      invariant VerifyFrom(frame, mac, w) == VerifyFrom(frame, mac, 1)
    {
      var tailLen := w + 1 + DIGEST_LEN;
      if |frame| < tailLen {
        continue;
      }
      var dataEnd := |frame| - tailLen;
      var tail := frame[dataEnd..];
      if tail[w] != DIGEST_MARKER {
        continue;
      }
      assert tail[w + 1..] == frame[|frame| - DIGEST_LEN..];
      if tail[w + 1..] == mac(frame[..dataEnd]) {
        assert tail[..w] == IdBytes(frame, w);
        var buf := new Buffer(tail[..w]);
        r := DecodeVlq(buf);
        return;
      }
    }
    r := Err(IntegrityFailure);
  }

  /** An accepted frame splits into data, identifier, marker and the matching digest. */
  lemma {:induction false} AcceptedSplits(frame: seq<u8>, mac: Mac, w: nat) returns (data: seq<u8>, idBytes: seq<u8>)
    requires VerifyFrom(frame, mac, w).Ok?
    ensures frame == data + idBytes + [DIGEST_MARKER] + mac(data)
    ensures w <= |idBytes| <= 5 && ParseVlq(idBytes).Ok? && ParseVlq(idBytes).value.0 == VerifyFrom(frame, mac, w).value
    decreases 6 - w
  {
    if TailAt(frame, mac, w) {
      data, idBytes := frame[..|frame| - (w + 1 + DIGEST_LEN)], IdBytes(frame, w);
    } else {
      data, idBytes := AcceptedSplits(frame, mac, w + 1);
    }
  }

  /** No proper prefix of the identifier, taken as data, has the digest of the data itself. */
  predicate NoCollision(mac: Mac, data: seq<u8>, id: u32) {
    forall j :: 0 < j < |VlqBytes(id)| ==> mac(data + VlqBytes(id)[..j]) != mac(data)
  }

  lemma ProtectedTail(mac: Mac, data: seq<u8>, id: u32, w: nat)
    requires 1 <= w <= |VlqBytes(id)|
    ensures var frame, j := Protected(mac, data, id), |VlqBytes(id)| - w;
            && |frame| >= w + 1 + DIGEST_LEN
            && IdBytes(frame, w) == VlqBytes(id)[j..]
            && (TailAt(frame, mac, w) <==> mac(data + VlqBytes(id)[..j]) == mac(data))
  {
    hide VlqBytes;
    var vlq, frame := VlqBytes(id), Protected(mac, data, id);
    var j := |vlq| - w;
    assert frame == data + vlq[..j] + vlq[j..] + [DIGEST_MARKER] + mac(data);
    assert frame[..|frame| - (w + 1 + DIGEST_LEN)] == data + vlq[..j];
    assert frame[|frame| - DIGEST_LEN..] == mac(data);
  }

  lemma {:induction false} VerifyProtected(mac: Mac, data: seq<u8>, id: u32, w: nat)
    requires 1 <= w <= |VlqBytes(id)|
    ensures VerifyFrom(Protected(mac, data, id), mac, w) == Ok(id)
       <==> forall j :: 0 < j <= |VlqBytes(id)| - w ==> mac(data + VlqBytes(id)[..j]) != mac(data)
    decreases |VlqBytes(id)| - w
  {
    hide VlqBytes, Protected, TailAt, IdBytes;
    var vlq, frame := VlqBytes(id), Protected(mac, data, id);
    ProtectedTail(mac, data, id, w);
    VlqLength(id);
    var j := |vlq| - w;
    if j == 0 {
      assert data + vlq[..0] == data;
      VlqRoundTrip(id, []);
      assert vlq[0..] == vlq + [];
    } else if mac(data + vlq[..j]) == mac(data) {
      if ParseVlq(vlq[j..]).Ok? {
        Canonical(vlq[j..]);
      }
    } else {
      VerifyProtected(mac, data, id, w + 1);
    }
  }

  /** Verifying a protected frame returns its identifier exactly if the digest has no such collision. */
  lemma IntegrityRoundTrip(mac: Mac, data: seq<u8>, id: u32)
    ensures VerifyFrom(Protected(mac, data, id), mac, 1) == Ok(id) <==> NoCollision(mac, data, id)
  {
    VerifyProtected(mac, data, id, 1);
  }
}
