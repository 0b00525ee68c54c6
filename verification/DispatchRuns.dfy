/** What the dispatch loop guarantees over whole runs, for every byte stream a peer may send. */
module DispatchRuns {
  import opened Bytes
  import opened Framing
  import opened S7Header
  import opened VarCodec
  import opened Store
  import opened Plc
  import Szl

  // -- One request -------------------------------------------------------------

  /** What a request may do to the plant. */
  datatype Effect = NoEffect | WritesVars(items: seq<WriteItem>) | SetsClock(bytes: ClockBytes)

  function EffectOf(payload: seq<u8>): Effect {
    match ParseHeader(payload)
    case Err(_) => NoEffect
    case Ok((h, body)) =>
      if h.pduType == Job && ParseWriteRequest(body).Ok? then WritesVars(ParseWriteRequest(body).value)
      else if h.pduType == UserData && |body| >= 20 && body[4] == 0x11 && body[5] % 0x10 == 0x07 && body[6] == 0x02
      then SetsClock(body[12..20])
      else NoEffect
  }

  function Applied(e: Effect, plant: Plant): Plant {
    match e
    case NoEffect => plant
    case WritesVars(items) => WriteAll(plant, ItemWrites(items))
    case SetsClock(bytes) => plant.(clock := bytes)
  }

  /** Memory changes only through a completely decoded write, the clock only through a complete set-clock request. */
  lemma OnlyEffects(payload: seq<u8>, plant: Plant)
    ensures Respond(payload, plant).plant == Applied(EffectOf(payload), plant)
  {
    hide ParseHeader, ReadResponseBytes, ReadItems, SzlPdu, ClockPdu, WriteAll, ParseAddresses, ParseChunks;
  }

  function RequestRef(payload: seq<u8>): u16 {
    match ParseHeader(payload)
    case Ok((h, _)) => h.pduRef
    case Err(_) => 0
  }

  predicate Carries(pdu: seq<u8>, pduRef: u16) {
    ParseHeader(pdu).Ok? && ParseHeader(pdu).value.0.pduRef == pduRef
  }

  lemma HeaderCarries(h: Header, body: seq<u8>)
    ensures Carries(HeaderBytes(h) + body, h.pduRef)
    ensures Carries(HeaderBytes(h), h.pduRef)
  {
    assert HeaderBytes(h) + [] == HeaderBytes(h);
    HeaderRoundTrip(h, body);
    HeaderRoundTrip(h, []);
    var s := HeaderBytes(h) + body;
    assert s[..10] == FixedBytes(h) && HeaderBytes(h)[..10] == FixedBytes(h);
    assert s[4] == FixedBytes(h)[4] && s[5] == FixedBytes(h)[5];
    assert HeaderBytes(h)[4] == FixedBytes(h)[4] && HeaderBytes(h)[5] == FixedBytes(h)[5];
  }

  /** Every answer carries the reference of its request, or zero if the request has no readable header. */
  lemma EchoesReference(payload: seq<u8>, plant: Plant)
    ensures Carries(Respond(payload, plant).pdu, RequestRef(payload))
  {
    hide Carries, HeaderBytes, ParseHeader, RespondJob, RespondUserData;
    var pduRef := RequestRef(payload);
    HeaderCarries(AckHeader(pduRef, 0, 0, 0x81, 0x04), []);
    match ParseHeader(payload)
    case Err(_) =>
    case Ok((h, body)) =>
      if body != [] {
        JobCarries(pduRef, body, plant);
        UserDataCarries(pduRef, body, plant);
      }
  }

  lemma JobCarries(pduRef: u16, body: seq<u8>, plant: Plant)
    requires body != []
    ensures Carries(RespondJob(pduRef, body, plant).pdu, pduRef)
  {
    hide Carries, HeaderBytes, AckDataPdu, ReadResponseBytes, ReadItems, WriteAll, ParseReadRequest, ParseWriteRequest;
    forall func: u8, count: u8, data: seq<u8> ensures Carries(AckDataPdu(pduRef, func, count, data), pduRef) {
      AckDataCarries(pduRef, func, count, data);
    }
    HeaderCarries(AckHeader(pduRef, 0, 0, 0, 0), []);
    HeaderCarries(AckHeader(pduRef, 0, 0, 0x81, 0x04), []);
    HeaderCarries(AckHeader(pduRef, 2, 1, 0, 0), [body[0], 0x00, 0x08]);
    HeaderCarries(AckHeader(pduRef, 2, 0, 0, 0), [body[0], 0x00]);
  }

  lemma AckDataCarries(pduRef: u16, func: u8, count: u8, data: seq<u8>)
    ensures Carries(AckDataPdu(pduRef, func, count, data), pduRef)
  {
    hide Carries, HeaderBytes;
    HeaderCarries(AckHeader(pduRef, 2, Low16(|data|), 0, 0), [func, count] + data);
  }

  lemma UserDataCarries(pduRef: u16, body: seq<u8>, plant: Plant)
    ensures Carries(RespondUserData(pduRef, body, plant).pdu, pduRef)
  {
    hide Carries, HeaderBytes, SzlPdu;
    SzlCarries(pduRef, body);
    HeaderCarries(AckHeader(pduRef, 0, 0, 0, 0), []);
    HeaderCarries(Header(UserData, 0, pduRef, 12, 4, None, None),
                  [0x00, 0x01, 0x12, 0x08, 0x12, 0x87, 0x01, 0x00] + plant.clock);
  }

  lemma SzlCarries(pduRef: u16, body: seq<u8>)
    ensures Carries(SzlPdu(pduRef, body), pduRef)
  {
    hide Carries, HeaderBytes, Szl.Table;
    var table := Szl.Table(if |body| >= 14 then U16(body[12], body[13]) else 0);
    var h := AckHeader(pduRef, 12, Low16(|table|), 0, 0);
    var first := if |body| >= 12 then body[..12] else Szl.Filled(12, 0);
    var rest := first + [0xFF, 0x04] + Be16(Low16(|table|)) + table;
    assert SzlPdu(pduRef, body) == HeaderBytes(h) + rest;
    HeaderCarries(h, rest);
  }

  // -- When an answer cannot be sent --------------------------------------------

  function ResponseSize(items: seq<AddressItem>): nat {
    if items == [] then 0
    else 4 + PaddedSize(Available(items[0].start, items[0].length)) + ResponseSize(items[1..])
  }

  lemma {:induction false} ReadResponseSize(m: Memory, items: seq<AddressItem>)
    ensures |ReadResponseBytes(ReadItems(m, items))| == ResponseSize(items)
  {
    hide ChunkBytes, PaddedSize, Available;
    var cs := ItemChunks(ReadItems(m, items));
    if items != [] {
      ReadResponseSize(m, items[1..]);
      assert cs[1..] == ItemChunks(ReadItems(m, items[1..]));
      assert |ChunkBytes(cs[0])| == 4 + PaddedSize(Available(items[0].start, items[0].length));
    }
  }

  /** A well-formed read whose answer would need a frame longer than 65535 bytes. */
  predicate OversizedRead(payload: seq<u8>) {
    match ParseHeader(payload)
    case Err(_) => false
    case Ok((h, body)) =>
      && h.pduType == Job
      && ParseReadRequest(body).Ok?
      && 14 + ResponseSize(ParseReadRequest(body).value) + 7 > MAX_FRAME
  }

  lemma AckSize(pduRef: u16, paramLen: u16, dataLen: u16, ec: u8, code: u8)
    ensures |HeaderBytes(AckHeader(pduRef, paramLen, dataLen, ec, code))| == 12
  {
  }

  lemma SmallAnswers(pduRef: u16, func: u8, body: seq<u8>, clock: ClockBytes)
    ensures |ErrorPdu(pduRef)| == 12 && |SimpleAck(pduRef)| == 12
    ensures |ControlPdu(pduRef, func)| <= 15
    ensures |SzlPdu(pduRef, body)| <= 274
    ensures |ClockPdu(pduRef, clock)| == 26
  {
    hide Szl.Table, FixedBytes;
  }

  /** Exactly the oversized reads cannot be answered. */
  lemma AnswerFits(payload: seq<u8>, plant: Plant)
    ensures Sendable(Respond(payload, plant).pdu) <==> !OversizedRead(payload)
  {
    hide ParseHeader, ErrorPdu, SimpleAck, ControlPdu, SzlPdu, ClockPdu, WriteAll, ReadResponseBytes, ReadItems,
         ResponseSize, ParseAddresses, ParseChunks, HeaderBytes;
    match ParseHeader(payload)
    case Err(_) => SmallAnswers(0, 0, [], plant.clock);
    case Ok((h, body)) =>
      SmallAnswers(h.pduRef, if body == [] then 0 else body[0], body, plant.clock);
      if h.pduType == Job && ParseReadRequest(body).Ok? {
        var items := ParseReadRequest(body).value;
        ReadResponseSize(plant.memory, items);
        AckSize(h.pduRef, 2, Low16(|ReadResponseBytes(ReadItems(plant.memory, items))|), 0, 0);
      } else if h.pduType == Job && ParseWriteRequest(body).Ok? {
        AckSize(h.pduRef, 2, Low16(Low8(|ParseWriteRequest(body).value|)), 0, 0);
      }
  }

  lemma OversizedHasNoEffect(payload: seq<u8>)
    requires OversizedRead(payload)
    ensures EffectOf(payload) == NoEffect
  {
  }

  // -- What is refused -----------------------------------------------------------

  /** The requests the simulator cannot serve. */
  predicate Refuses(payload: seq<u8>) {
    match ParseHeader(payload)
    case Err(_) => true
    case Ok((h, body)) =>
      || body == [] || h.pduType == Ack || h.pduType == AckData
      || (&& h.pduType == Job
          && (|| body[0] !in {0x04, 0x05, 0x11, 0x12, 0x28, 0x29, 0x2A, 0x31}
              || (body[0] == 0x04 && ParseReadRequest(body).Err?) || (body[0] == 0x05 && ParseWriteRequest(body).Err?)))
  }

  /** The error pair a PDU carries, if it can be read and has one. */
  function ErrorPair(pdu: seq<u8>): Option<(u8, u8)> {
    match ParseHeader(pdu)
    case Ok((h, _)) =>
      if h.errorClass.Some? && h.errorCode.Some? then Some((h.errorClass.value, h.errorCode.value)) else None
    case Err(_) => None
  }

  lemma AckPair(pduRef: u16, paramLen: u16, dataLen: u16, ec: u8, code: u8, body: seq<u8>)
    ensures var h := AckHeader(pduRef, paramLen, dataLen, ec, code);
            ErrorPair(HeaderBytes(h) + body) == Some((ec, code)) && ErrorPair(HeaderBytes(h)) == Some((ec, code))
  {
    hide HeaderBytes, ParseHeader;
    var h := AckHeader(pduRef, paramLen, dataLen, ec, code);
    HeaderRoundTrip(h, body);
    HeaderRoundTrip(h, []);
    assert HeaderBytes(h) + [] == HeaderBytes(h);
  }

  /** An answer carries error class 0x81 and code 0x04 if and only if the request is refused; any other answer carries
      no error. */
  lemma RefusalsAreMarked(payload: seq<u8>, plant: Plant)
    ensures var e := ErrorPair(Respond(payload, plant).pdu);
            && (e == Some((0x81, 0x04)) <==> Refuses(payload))
            && (!Refuses(payload) ==> e == None || e == Some((0x00, 0x00)))
  {
    hide ErrorPair, HeaderBytes, ParseHeader, RespondJob, RespondUserData;
    var pduRef := RequestRef(payload);
    AckPair(pduRef, 0, 0, 0x81, 0x04, []);
    match ParseHeader(payload)
    case Err(_) =>
    case Ok((h, body)) =>
      if body != [] {
        JobPair(pduRef, body, plant);
        UserDataPair(pduRef, body, plant);
      }
  }

  lemma JobPair(pduRef: u16, body: seq<u8>, plant: Plant)
    requires body != []
    ensures ErrorPair(RespondJob(pduRef, body, plant).pdu)
         == if || body[0] !in {0x04, 0x05, 0x11, 0x12, 0x28, 0x29, 0x2A, 0x31}
               || (body[0] == 0x04 && ParseReadRequest(body).Err?) || (body[0] == 0x05 && ParseWriteRequest(body).Err?)
            then Some((0x81, 0x04)) else Some((0x00, 0x00))
  {
    hide ErrorPair, HeaderBytes, ReadResponseBytes, ReadItems, WriteAll, ParseReadRequest, ParseWriteRequest, Low16,
         Low8;
    forall p: u16, d: u16, data: seq<u8>
      ensures ErrorPair(HeaderBytes(AckHeader(pduRef, p, d, 0, 0)) + data) == Some((0x00, 0x00))
    {
      AckPair(pduRef, p, d, 0, 0, data);
    }
    AckPair(pduRef, 0, 0, 0x81, 0x04, []);
    AckPair(pduRef, 0, 0, 0, 0, []);
  }

  lemma UserDataPair(pduRef: u16, body: seq<u8>, plant: Plant)
    ensures var e := ErrorPair(RespondUserData(pduRef, body, plant).pdu);
            e == None || e == Some((0x00, 0x00))
  {
    hide ErrorPair, HeaderBytes, SzlPdu;
    SzlPair(pduRef, body);
    AckPair(pduRef, 0, 0, 0, 0, []);
    ClockPair(pduRef, plant.clock);
  }

  lemma ClockPair(pduRef: u16, clock: ClockBytes)
    ensures ErrorPair(ClockPdu(pduRef, clock)) == None
  {
    hide HeaderBytes, ParseHeader;
    HeaderRoundTrip(Header(UserData, 0, pduRef, 12, 4, None, None),
                    [0x00, 0x01, 0x12, 0x08, 0x12, 0x87, 0x01, 0x00] + clock);
  }

  lemma SzlPair(pduRef: u16, body: seq<u8>)
    ensures ErrorPair(SzlPdu(pduRef, body)) == Some((0x00, 0x00))
  {
    hide ErrorPair, HeaderBytes, Be16, Low16, Szl.Table;
    var table := Szl.Table(if |body| >= 14 then U16(body[12], body[13]) else 0);
    var head := if |body| >= 12 then body[..12] else Szl.Filled(12, 0);
    var h := AckHeader(pduRef, 12, Low16(|table|), 0, 0);
    var rest := head + [0xFF, 0x04] + Be16(Low16(|table|)) + table;
    AckPair(pduRef, 12, Low16(|table|), 0, 0, rest);
    assert SzlPdu(pduRef, body) == HeaderBytes(h) + rest;
  }

  // -- Whole runs ----------------------------------------------------------------

  /** One request answered, with the plant before and after. */
  datatype Exchange = Exchange(request: seq<u8>, response: seq<u8>, before: Plant, after: Plant)

  /** The complete frames at the front of a stream. */
  function FramesOf(input: seq<u8>): seq<seq<u8>>
    decreases |input|
  {
    match NextFrame(input)
    case Frame(cotp, rest) => [cotp] + FramesOf(rest)
    case _ => []
  }

  /** The exchanges of a served stream. */
  function Log(plant: Plant, input: seq<u8>): seq<Exchange>
    decreases |input|
  {
    match NextFrame(input)
    case Frame(cotp, rest) =>
      (match ParseCotp(cotp)
       case Ok(Data(_, _, payload)) =>
         var r := Respond(payload, plant);
         if Sendable(r.pdu) then [Exchange(payload, r.pdu, plant, r.plant)] + Log(r.plant, rest) else []
       case _ => [])
    case _ => []
  }

  predicate IsData(cotp: seq<u8>) { ParseCotp(cotp).Ok? && ParseCotp(cotp).value.Data? }

  function Framed(e: Exchange): seq<u8> { if Sendable(e.response) then FrameBytes(e.response) else [] }

  /** The answers are the framed responses, in order and with nothing in between. */
  predicate Answered(log: seq<Exchange>, output: seq<u8>) {
    && (forall i :: 0 <= i < |log| ==> Sendable(log[i].response))
    && output == ConcatMap(Framed, log)
  }

  /** Each exchange answers the frame at its own position, echoes its reference and does what it asks, no more. */
  predicate Faithful(frames: seq<seq<u8>>, log: seq<Exchange>) {
    && |log| <= |frames|
    && forall i :: 0 <= i < |log| ==>
         && IsData(frames[i]) && log[i].request == ParseCotp(frames[i]).value.payload
         && Carries(log[i].response, RequestRef(log[i].request))
         && log[i].after == Applied(EffectOf(log[i].request), log[i].before)
  }

  /** The plants of consecutive exchanges join up. */
  predicate Joined(first: Plant, log: seq<Exchange>, last: Plant)
    decreases |log|
  {
    if log == [] then first == last else log[0].before == first && Joined(log[0].after, log[1..], last)
  }

  lemma NoExchanges(plant: Plant)
    ensures Answered([], []) && Joined(plant, [], plant)
    ensures forall frames {:trigger Faithful(frames, [])} :: Faithful(frames, [])
  {
  }

  lemma LogGrows(e: Exchange, log: seq<Exchange>, cotp: seq<u8>, frames: seq<seq<u8>>, output: seq<u8>, last: Plant)
    requires Answered(log, output) && Faithful(frames, log) && Joined(e.after, log, last)
    requires Sendable(e.response) && IsData(cotp) && e.request == ParseCotp(cotp).value.payload
    requires Carries(e.response, RequestRef(e.request)) && e.after == Applied(EffectOf(e.request), e.before)
    ensures Answered([e] + log, FrameBytes(e.response) + output) && Faithful([cotp] + frames, [e] + log)
    ensures Joined(e.before, [e] + log, last)
    ensures |log| < |frames| ==> ([cotp] + frames)[|[e] + log|] == frames[|log|]
  {
    hide EffectOf, ParseCotp, RequestRef, Carries, FrameBytes, Applied;
    assert ([e] + log)[1..] == log && ([cotp] + frames)[1..] == frames;
  }

  /** A served stream is answered frame by frame until, if ever, a frame ends the connection. */
  lemma {:induction false} ServedRun(size: u16, plant: Plant, input: seq<u8>)
    ensures var p, log, frames := Run(Serving(size), plant, input), Log(plant, input), FramesOf(input);
            && Answered(log, p.output)
            && Faithful(frames, log)
            && Joined(plant, log, p.plant)
            && (p.phase == Serving(size) ==> |log| == |frames|)
            && (p.phase != Serving(size) ==> p.phase == Closed)
            && (|log| < |frames| ==> !IsData(frames[|log|]) || OversizedRead(ParseCotp(frames[|log|]).value.payload))
    decreases |input|
  {
    hide Respond, EffectOf, ParseCotp, OversizedRead, RequestRef, Carries, FrameBytes, Answered, Faithful, Joined;
    NoExchanges(plant);
    match NextFrame(input)
    case Blocked =>
    case Broken =>
    case Frame(cotp, rest) =>
      match ParseCotp(cotp)
      case Ok(Data(_, _, payload)) =>
        AnswerFits(payload, plant);
        OnlyEffects(payload, plant);
        EchoesReference(payload, plant);
        var r := Respond(payload, plant);
        if Sendable(r.pdu) {
          ServedRun(size, r.plant, rest);
          LogGrows(Exchange(payload, r.pdu, plant, r.plant), Log(r.plant, rest), cotp, FramesOf(rest),
                   Run(Serving(size), r.plant, rest).output, Run(Serving(size), r.plant, rest).plant);
        } else {
          assert Run(Closed, r.plant, rest).output == [];
          OversizedHasNoEffect(payload);
          assert r.plant == Applied(NoEffect, plant) == plant;
          assert Run(Serving(size), plant, input).output == [] && Log(plant, input) == [];
        }
      case _ =>
        assert OnFrame(Serving(size), plant, cotp) == Outcome(Closed, plant, []);
        assert Run(Closed, plant, rest).output == [];
        assert Run(Serving(size), plant, input).output == [] && Log(plant, input) == [];
        assert FramesOf(input)[0] == cotp && !IsData(cotp);
  }

  lemma MoreInput(a: seq<u8>, b: seq<u8>)
    ensures NextFrame(a).Broken? ==> NextFrame(a + b).Broken?
    ensures NextFrame(a).Frame? ==> NextFrame(a + b) == NextFrame(a).(rest := NextFrame(a).rest + b)
  {
    if NextFrame(a).Frame? {
      var total := U16(a[2], a[3]);
      assert (a + b)[TPKT_HEADER..total] == a[TPKT_HEADER..total];
      assert (a + b)[total..] == a[total..] + b;
    }
  }

  /** However the network cuts the stream into pieces, the connection does the same, in every phase. */
  lemma {:induction false} AnySegmentation(phase: Phase, plant: Plant, a: seq<u8>, b: seq<u8>)
    ensures var p := Run(phase, plant, a);
            Run(phase, plant, a + b) == RunAfter(p.output, p.phase, p.plant, p.unread + b)
    decreases |a|
  {
    hide OnFrame, NextFrame;
    MoreInput(a, b);
    if !phase.Closed? && NextFrame(a).Frame? {
      var o := OnFrame(phase, plant, NextFrame(a).cotp);
      AnySegmentation(o.phase, o.plant, NextFrame(a).rest, b);
      var p := Run(o.phase, o.plant, NextFrame(a).rest);
      var q := Run(p.phase, p.plant, p.unread + b);
      assert o.output + (p.output + q.output) == (o.output + p.output) + q.output;
    }
  }
}
