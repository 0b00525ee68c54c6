/** Moving whole blocks: upload in chunks from a PLC that may answer anything, and download in chunks to it. */
module Transfer {
  import opened Bytes
  import opened S7Header
  import opened Client
  import opened Blocks

  type Answer = Result<(Header, seq<u8>), Error>

  /** A job: its parameters and its data. */
  datatype Request = Request(param: seq<u8>, data: seq<u8>)

  /** The far end: answers in the order they will come, and the requests sent so far. When no answer is left the
      connection has gone silent. */
  class PlcLink {
    var answers: seq<Answer>
    var sent: seq<Request>

    constructor (answers: seq<Answer>)
      ensures this.answers == answers && sent == []
    {
      this.answers, sent := answers, [];
    }

    method Exchange(param: seq<u8>, data: seq<u8>) returns (r: Result<seq<u8>, Error>)
      modifies this
      ensures sent == old(sent) + [Request(param, data)]
      ensures r == FirstBody(old(answers)) && answers == Later(old(answers))
    {
      sent := sent + [Request(param, data)];
      if answers == [] {
        return Err(Io);
      }
      var answer := answers[0];
      answers := answers[1..];
      if answer.Err? {
        return Err(answer.error);
      }
      var (h, body) := answer.value;
      var error := CheckError(h);
      r := if error.Some? then Err(error.value) else Ok(body);
    }
  }

  /** The body of the next answer, once errors are ruled out. */
  function FirstBody(answers: seq<Answer>): Result<seq<u8>, Error> {
    if answers == [] then Err(Io)
    else
      var (h, body) :- answers[0];
      if CheckError(h).Some? then Err(CheckError(h).value) else Ok(body)
  }

  function Later(answers: seq<Answer>): seq<Answer> { if answers == [] then [] else answers[1..] }

  /** The two echoed parameter bytes are skipped if they are there. */
  function Skip2(body: seq<u8>): seq<u8> { if |body| >= 2 then body[2..] else body }

  // -- Upload --------------------------------------------------------------------------------

  const MAX_BLOCK := 4 * 1024 * 1024

  /** Below 50 the threshold underflows to a huge number. */
  predicate LastChunk(size: nat, pduSize: u16) { pduSize < 50 || size < pduSize - 50 }

  /** The first chunk loses four bytes if it seems to begin with a return code. */
  function Strip(body: seq<u8>): seq<u8> {
    if |body| >= 4 && (body[0] == 0xFF || body[0] == 0x00) then body[4..] else body
  }

  /** What counts as an envelope. */
  predicate IsEnvelope(s: seq<u8>) { |s| == 4 && (s[0] == 0xFF || s[0] == 0x00) }

  datatype Uploaded = Uploaded(result: Result<seq<u8>, Error>, requests: nat)

  /** The data loop with `block` collected so far: its result and the requests it makes. */
  function UploadLoop(answers: seq<Answer>, block: seq<u8>, pduSize: u16): (u: Uploaded)
    ensures 1 <= u.requests <= |answers| + 1
    decreases |answers|
  {
    match FirstBody(answers)
    case Err(e) => Uploaded(Err(e), 1)
    case Ok(whole) =>
      var body := Skip2(whole);
      if body == [] then Uploaded(Ok(block), 1)
      else
        var chunk := if block == [] then Strip(body) else body;
        if LastChunk(|chunk|, pduSize) then Uploaded(Ok(block + chunk), 1)
        else if |block + chunk| > MAX_BLOCK then Uploaded(Err(UnexpectedResponse), 1)
        else
          var u := UploadLoop(answers[1..], block + chunk, pduSize);
          u.(requests := u.requests + 1)
  }

  function Repeated(q: Request, n: nat): seq<Request> { seq(n, _ => q) }

  method UploadData(link: PlcLink, func: u8, id: u32, pduSize: u16)
    returns (r: Result<seq<u8>, Error>, ghost requests: nat)
    modifies link
    ensures Uploaded(r, requests) == UploadLoop(old(link.answers), [], pduSize)
    ensures link.sent == old(link.sent) + Repeated(Request([func, 0x01] + Be32(id), []), requests)
    ensures r.Ok? ==> requests <= |old(link.answers)| && link.answers == old(link.answers)[requests..]
  {
    hide FirstBody, Strip, LastChunk, Be32;
    var block := [];
    requests := 0;
    while true
      invariant requests <= |old(link.answers)| && link.answers == old(link.answers)[requests..]
      invariant link.sent == old(link.sent) + Repeated(Request([func, 0x01] + Be32(id), []), requests)
      invariant var u := UploadLoop(link.answers, block, pduSize);
                u.(requests := u.requests + requests) == UploadLoop(old(link.answers), [], pduSize)
      decreases |link.answers|
    {
      SilenceIsError(link.answers);
      var whole := link.Exchange([func, 0x01] + Be32(id), []);
      requests := requests + 1;
      if whole.Err? {
        return Err(whole.error), requests;
      }
      var body := Skip2(whole.value);
      if body == [] {
        break;
      }
      var chunk := if block == [] then Strip(body) else body;
      block := block + chunk;
      if LastChunk(|chunk|, pduSize) {
        break;
      }
      if |block| > MAX_BLOCK {
        return Err(UnexpectedResponse), requests;
      }
    }
    r := Ok(block);
  }

  lemma SilenceIsError(answers: seq<Answer>)
    ensures FirstBody(answers).Ok? ==> answers != []
  {
  }

  /** The identifier in the answer to a start request. Eight or nine bytes pass the length test and then run out. */
  function StartId(body: seq<u8>): Result<u32, Error> {
    if |body| < 8 then Err(UnexpectedResponse)
    else if |body| < 10 then Err(Panic)
    else Ok(U32(body[2], body[3], body[4], body[5]))
  }

  /** What an upload returns: start, data loop, end. */
  function UploadOutcome(answers: seq<Answer>, pduSize: u16): Result<seq<u8>, Error> {
    var start :- FirstBody(answers);
    var _ :- StartId(start);
    var u := UploadLoop(answers[1..], [], pduSize);
    var block :- u.result;
    var _ :- FirstBody(if u.requests <= |answers| - 1 then answers[1 + u.requests..] else []);
    Ok(block)
  }

  /** The requests an upload makes, however it ends. */
  function UploadRequests(answers: seq<Answer>, func: u8, kind: u8, number: u16, pduSize: u16): seq<Request> {
    var start := [Request([func, 0x00, kind, 0x00] + Be16(number), [])];
    match FirstBody(answers)
    case Err(_) => start
    case Ok(body) =>
      match StartId(body)
      case Err(_) => start
      case Ok(id) =>
        var u := UploadLoop(answers[1..], [], pduSize);
        var data := Repeated(Request([func, 0x01] + Be32(id), []), u.requests);
        if u.result.Err? then start + data else start + data + [Request([func, 0x02] + Be32(id), [])]
  }

  /** Upload (function 0x1D) and full upload (0x1F) differ in the function code only. */
  method Upload(link: PlcLink, func: u8, kind: u8, number: u16, pduSize: u16) returns (r: Result<seq<u8>, Error>)
    modifies link
    ensures r == UploadOutcome(old(link.answers), pduSize)
    ensures link.sent == old(link.sent) + UploadRequests(old(link.answers), func, kind, number, pduSize)
  {
    hide FirstBody, Be16, Be32, StartId, UploadLoop, Repeated, UploadOutcome, UploadRequests;
    SilenceIsError(link.answers);
    UploadParts(link.answers, func, kind, number, pduSize);
    var start := link.Exchange([func, 0x00, kind, 0x00] + Be16(number), []);
    if start.Err? {
      return Err(start.error);
    }
    var id := StartId(start.value);
    if id.Err? {
      return Err(id.error);
    }
    ghost var answers := link.answers;
    var data, requests := UploadData(link, func, id.value, pduSize);
    if data.Err? {
      return Err(data.error);
    }
    assert link.answers == answers[requests..] == old(link.answers)[1 + requests..];
    var end := link.Exchange([func, 0x02] + Be32(id.value), []);
    r := if end.Err? then Err(end.error) else data;
  }

  /** An upload, part by part. */
  lemma UploadParts(answers: seq<Answer>, func: u8, kind: u8, number: u16, pduSize: u16)
    ensures var r, q := UploadOutcome(answers, pduSize), UploadRequests(answers, func, kind, number, pduSize);
            var start := [Request([func, 0x00, kind, 0x00] + Be16(number), [])];
            match FirstBody(answers)
            case Err(e) => r == Err(e) && q == start
            case Ok(body) =>
              match StartId(body)
              case Err(e) => r == Err(e) && q == start
              case Ok(id) =>
                var u := UploadLoop(Later(answers), [], pduSize);
                var sent := start + Repeated(Request([func, 0x01] + Be32(id), []), u.requests);
                match u.result
                case Err(e) => r == Err(e) && q == sent
                case Ok(block) =>
                  && q == sent + [Request([func, 0x02] + Be32(id), [])]
                  && (1 + u.requests <= |answers| ==>
                        r == match FirstBody(answers[1 + u.requests..]) case Err(e) => Err(e) case Ok(_) => Ok(block))
  {
    hide FirstBody, Be16, Be32, StartId, UploadLoop, Repeated;
    SilenceIsError(answers);
  }

  /** An answer that the link delivered or refused, as opposed to one that aborted the call. */
  predicate Plain(answers: seq<Answer>) { forall i :: 0 <= i < |answers| ==> answers[i] != Err(Panic) }

  lemma PlainAnswer(answers: seq<Answer>)
    requires Plain(answers)
    ensures FirstBody(answers) != Err(Panic)
  {
  }

  lemma {:induction false} LoopIsPlain(answers: seq<Answer>, block: seq<u8>, pduSize: u16)
    requires Plain(answers)
    ensures UploadLoop(answers, block, pduSize).result != Err(Panic)
    decreases |answers|
  {
    hide FirstBody, Strip, LastChunk, Skip2;
    PlainAnswer(answers);
    SilenceIsError(answers);
    if FirstBody(answers).Ok? {
      var body := Skip2(FirstBody(answers).value);
      LoopIsPlain(answers[1..], block + (if block == [] then Strip(body) else body), pduSize);
    }
  }

  /** An upload aborts exactly if the answer to its start request is good and has eight or nine bytes. */
  lemma UploadPanics(answers: seq<Answer>, pduSize: u16)
    requires Plain(answers)
    ensures UploadOutcome(answers, pduSize) == Err(Panic)
       <==> FirstBody(answers).Ok? && 8 <= |FirstBody(answers).value| <= 9
  {
    hide FirstBody, UploadLoop;
    PlainAnswer(answers);
    SilenceIsError(answers);
    if FirstBody(answers).Ok? {
      LoopIsPlain(answers[1..], [], pduSize);
      var u := UploadLoop(answers[1..], [], pduSize);
      PlainAnswer(if u.requests <= |answers| - 1 then answers[1 + u.requests..] else []);
    }
  }

  /** Every later request of an upload repeats the four bytes behind the first two of the start answer. */
  lemma UploadCarriesId(answers: seq<Answer>, func: u8, kind: u8, number: u16, pduSize: u16, i: nat,
                        id: seq<u8>, tail: seq<u8>)
    requires |id| == 6 && FirstBody(answers) == Ok(id + tail) && |tail| >= 4
    ensures var q := UploadRequests(answers, func, kind, number, pduSize);
            && |q| >= 2 && q[0] == Request([func, 0x00, kind, 0x00] + Be16(number), [])
            && (0 < i < |q| ==>
                  (q[i] == Request([func, 0x01] + id[2..], [])
                   || (i == |q| - 1 && q[i] == Request([func, 0x02] + id[2..], []))))
  {
    hide Be16, Be32, FirstBody, UploadLoop, U32;
    var body := id + tail;
    Be32Inverts(id[2], id[3], id[4], id[5]);
    assert body[2] == id[2] && body[3] == id[3] && body[4] == id[4] && body[5] == id[5];
    assert id[2..] == [id[2], id[3], id[4], id[5]];
  }

  lemma {:induction false} UploadCounts(answers: seq<Answer>, block: seq<u8>, pduSize: u16)
    requires pduSize > 50 && |block| <= MAX_BLOCK
    ensures var u := UploadLoop(answers, block, pduSize);
            && (u.requests - 1) * (pduSize - 50) <= MAX_BLOCK - |block|
            && (u.result.Ok? ==> |u.result.value| < MAX_BLOCK + (pduSize - 50) && block <= u.result.value)
    decreases |answers|
  {
    hide FirstBody, Strip;
    var u := UploadLoop(answers, block, pduSize);
    if FirstBody(answers).Ok? {
      SilenceIsError(answers);
      var body := Skip2(FirstBody(answers).value);
      var chunk := if block == [] then Strip(body) else body;
      if body != [] && !LastChunk(|chunk|, pduSize) && |block + chunk| <= MAX_BLOCK {
        UploadCounts(answers[1..], block + chunk, pduSize);
        OneMore(u.requests - 2, pduSize - 50, MAX_BLOCK - |block + chunk|, |chunk|);
      } else {
        assert u.requests == 1 && (u.requests - 1) * (pduSize - 50) == 0;
      }
    }
  }

  lemma ChunkCount(n: nat, t: nat)
    ensures (n + 1) * t == n * t + t && (n - 1) * t == n * t - t
  {
  }

  lemma OneMore(k: nat, t: nat, m: int, c: nat)
    requires k * t <= m && t <= c
    ensures (k + 1) * t <= m + c
  {
  }

  /** What the data answers carry, one after another. */
  function Bodies(answers: seq<Answer>): seq<u8> {
    if answers == [] || FirstBody(answers).Err? then []
    else Skip2(FirstBody(answers).value) + Bodies(answers[1..])
  }

  lemma {:induction false} RestIsConcatenated(answers: seq<Answer>, block: seq<u8>, pduSize: u16)
    requires block != [] && UploadLoop(answers, block, pduSize).result.Ok?
    ensures var u := UploadLoop(answers, block, pduSize);
            u.requests <= |answers| && u.result.value == block + Bodies(answers[..u.requests])
    decreases |answers|
  {
    hide FirstBody, LastChunk, Bodies, Skip2;
    SilenceIsError(answers);
    var u := UploadLoop(answers, block, pduSize);
    var body := Skip2(FirstBody(answers).value);
    if body != [] && !LastChunk(|body|, pduSize) {
      RestIsConcatenated(answers[1..], block + body, pduSize);
    }
    BodiesStep(answers, u.requests);
    Regroup(block, body, Bodies(answers[1..][..u.requests - 1]));
  }

  lemma Regroup(a: seq<u8>, b: seq<u8>, c: seq<u8>)
    ensures (a + b) + c == a + (b + c)
    ensures a + ([] + []) == a && a + (b + []) == a + b
  {
    assert b + [] == b;
  }

  lemma BodiesStep(answers: seq<Answer>, n: nat)
    requires 1 <= n <= |answers| && FirstBody(answers).Ok?
    ensures Bodies(answers[..n]) == Skip2(FirstBody(answers).value) + Bodies(answers[1..][..n - 1])
    ensures Bodies(answers[1..][..0]) == []
  {
    assert answers[..n][0] == answers[0] && answers[..n][1..] == answers[1..][..n - 1];
    assert FirstBody(answers[..n]) == FirstBody(answers);
  }

  /** The concatenation an upload should return: the bodies it took, the first of them without its envelope. */
  function Whole(answers: seq<Answer>, requests: nat): seq<u8>
    requires 1 <= requests <= |answers| && FirstBody(answers).Ok?
  {
    Strip(Skip2(FirstBody(answers).value)) + Bodies(answers[1..requests])
  }

  /** It is that concatenation if the first body is the end or leaves something without its envelope. */
  lemma FirstIsStripped(answers: seq<Answer>, pduSize: u16)
    requires UploadLoop(answers, [], pduSize).result.Ok?
    ensures var u := UploadLoop(answers, [], pduSize);
            && 1 <= u.requests <= |answers| && FirstBody(answers).Ok?
            && (var body := Skip2(FirstBody(answers).value);
                body == [] || Strip(body) != [] || pduSize != 50 ==> u.result.value == Whole(answers, u.requests))
            && |u.result.value| <= |Bodies(answers[..u.requests])|
    decreases |answers|
  {
    hide FirstBody, Skip2, Bodies;
    SilenceIsError(answers);
    var u := UploadLoop(answers, [], pduSize);
    var body := Skip2(FirstBody(answers).value);
    var chunk := Strip(body);
    NoBodies(answers);
    assert [] + chunk == chunk && chunk + [] == chunk;
    if body != [] && !LastChunk(|chunk|, pduSize) {
      if chunk != [] {
        RestIsConcatenated(answers[1..], chunk, pduSize);
      } else {
        FirstIsStripped(answers[1..], pduSize);
      }
      assert answers[1..][..u.requests - 1] == answers[1..u.requests];
    }
    BodiesStep(answers, u.requests);
  }

  lemma NoBodies(answers: seq<Answer>)
    ensures Bodies([]) == [] && (answers != [] ==> answers[1..1] == [])
  {
  }

  /** The next body has no envelope to lose. */
  predicate KeepsBody(answers: seq<Answer>) {
    FirstBody(answers).Ok? && Strip(Skip2(FirstBody(answers).value)) == Skip2(FirstBody(answers).value)
  }

  /** An upload is that concatenation, unless the PDU size is 50 and the first body is an envelope around nothing: then
      exactly if the second body has no envelope to lose as well. */
  lemma UploadIsConcatenation(answers: seq<Answer>, pduSize: u16)
    requires UploadLoop(answers, [], pduSize).result.Ok?
    ensures var u := UploadLoop(answers, [], pduSize);
            && 1 <= u.requests <= |answers| && FirstBody(answers).Ok?
            && (u.result.value == Whole(answers, u.requests) <==>
                  var body := Skip2(FirstBody(answers).value);
                  || pduSize != 50 || body == [] || Strip(body) != []
                  || KeepsBody(answers[1..]))
  {
    hide FirstBody, Skip2, Bodies;
    FirstIsStripped(answers, pduSize);
    var u := UploadLoop(answers, [], pduSize);
    var body := Skip2(FirstBody(answers).value);
    if pduSize == 50 && body != [] && Strip(body) == [] {
      SecondIsStripped(answers);
    }
  }

  lemma SecondIsStripped(answers: seq<Answer>)
    requires UploadLoop(answers, [], 50).result.Ok? && FirstBody(answers).Ok? && answers != []
    requires var body := Skip2(FirstBody(answers).value); body != [] && Strip(body) == []
    ensures var u := UploadLoop(answers, [], 50);
            && 2 <= u.requests <= |answers| && FirstBody(answers[1..]).Ok?
            && (u.result.value == Whole(answers, u.requests)
                <==> KeepsBody(answers[1..]))
  {
    hide FirstBody, Skip2, Bodies, UploadLoop, Strip;
    EmptyEnvelope(answers);
    var later := answers[1..];
    var v := UploadLoop(later, [], 50);
    FirstIsStripped(later, 50);
    var next, b := Skip2(FirstBody(later).value), Bodies(later[1..v.requests]);
    WholeOfLater(answers, v.requests);
    if next != [] && Strip(next) == [] {
      NextIsShorter(later);
    } else {
      SameTail(Strip(next), next, b);
    }
  }

  lemma WholeOfLater(answers: seq<Answer>, n: nat)
    requires 1 <= n < |answers| && FirstBody(answers).Ok? && FirstBody(answers[1..]).Ok?
    requires Strip(Skip2(FirstBody(answers).value)) == []
    ensures Whole(answers, n + 1) == Skip2(FirstBody(answers[1..]).value) + Bodies(answers[1..][1..n])
    ensures Whole(answers, n + 1) == Bodies(answers[1..][..n])
  {
    hide FirstBody, Skip2, Bodies, Strip;
    var later := answers[1..];
    BodiesStep(later, n);
    assert answers[1..n + 1] == later[..n] && later[1..][..n - 1] == later[1..n];
    assert [] + Bodies(later[..n]) == Bodies(later[..n]);
  }

  lemma SameTail(a: seq<u8>, b: seq<u8>, c: seq<u8>)
    ensures a + c == b + c <==> a == b
  {
    if a + c == b + c {
      assert a == (a + c)[..|a|] && b == (b + c)[..|b|];
    }
  }

  lemma NextIsShorter(answers: seq<Answer>)
    requires UploadLoop(answers, [], 50).result.Ok? && answers != [] && FirstBody(answers).Ok?
    requires var body := Skip2(FirstBody(answers).value); body != [] && Strip(body) == []
    ensures var u := UploadLoop(answers, [], 50);
            u.requests <= |answers| && |u.result.value| < |Bodies(answers[..u.requests])|
  {
    hide FirstBody, Skip2, Bodies, UploadLoop;
    EmptyEnvelope(answers);
    FirstIsStripped(answers, 50);
    FirstIsStripped(answers[1..], 50);
    BodiesStep(answers, UploadLoop(answers, [], 50).requests);
  }

  lemma EmptyEnvelope(answers: seq<Answer>)
    requires answers != [] && FirstBody(answers).Ok?
    requires var body := Skip2(FirstBody(answers).value); body != [] && Strip(body) == []
    ensures var v := UploadLoop(answers[1..], [], 50);
            UploadLoop(answers, [], 50) == v.(requests := v.requests + 1)
  {
    hide FirstBody, Skip2;
    assert [] + Strip(Skip2(FirstBody(answers).value)) == [];
  }

  /** Whatever a PLC answers, the PDU size bounds the requests and the block, unless it is exactly 50. */
  lemma UploadIsBounded(answers: seq<Answer>, pduSize: u16)
    requires pduSize != 50
    ensures var u := UploadLoop(answers, [], pduSize);
            && (pduSize > 50 ==> (u.requests - 1) * (pduSize - 50) <= 0x40_0000)
            && (pduSize > 50 && u.result.Ok? ==> |u.result.value| < 0x40_0000 + (pduSize - 50))
            && (pduSize < 50 ==> u.requests == 1)
  {
    if pduSize > 50 {
      UploadCounts(answers, [], pduSize);
    }
  }

  /** At 50 no chunk is short, and an envelope around nothing adds nothing: the loop goes on while such answers come. */
  lemma {:induction false} UploadNeverEnds(envelope: seq<u8>, n: nat)
    requires IsEnvelope(envelope)
    ensures UploadLoop(seq(n, _ => Fine(envelope)), [], 50) == Uploaded(Err(Io), n + 1)
  {
    var answers := seq(n, _ => Fine(envelope));
    if n > 0 {
      assert FirstBody(answers) == Ok([0x00, 0x00] + envelope) && Skip2([0x00, 0x00] + envelope) == envelope;
      assert [] + Strip(envelope) == [];
      UploadNeverEnds(envelope, n - 1);
      assert answers[1..] == seq(n - 1, _ => Fine(envelope));
    }
  }

  // -- Upload from a PLC that sends the block -------------------------------------------------

  function Fine(body: seq<u8>): Answer { Ok((Header(AckData, 0, 0, 0, 0, Some(0), Some(0)), [0x00, 0x00] + body)) }

  /** A block in chunks of `t` bytes; a shorter chunk, possibly empty, ends it. */
  function Served(block: seq<u8>, t: nat): seq<Answer>
    requires t > 0
    decreases |block|
  {
    if |block| < t then [Fine(block)] else [Fine(block[..t])] + Served(block[t..], t)
  }

  /** The loop on a good answer. */
  lemma UploadStep(body: seq<u8>, rest: seq<Answer>, block: seq<u8>, pduSize: u16)
    ensures var u := UploadLoop([Fine(body)] + rest, block, pduSize);
            var chunk := if block == [] then Strip(body) else body;
            if body == [] then u.result == Ok(block)
            else if LastChunk(|chunk|, pduSize) then u.result == Ok(block + chunk)
            else if |block + chunk| > MAX_BLOCK then u.result.Err?
            else u.result == UploadLoop(rest, block + chunk, pduSize).result
  {
    hide Strip, LastChunk;
    var answers := [Fine(body)] + rest;
    assert FirstBody(answers) == Ok([0x00, 0x00] + body);
    assert Skip2([0x00, 0x00] + body) == body && answers[1..] == rest;
  }

  /** The length of the full chunks of `t` bytes in `n` bytes. */
  function FullPart(n: nat, t: nat): nat
    requires t > 0
  {
    if n < t then 0 else t + FullPart(n - t, t)
  }

  /** It is the largest multiple of `t` up to `n`. */
  lemma {:induction false} FullPartIsMultiple(n: nat, t: nat) returns (k: nat)
    requires t > 0
    ensures FullPart(n, t) == k * t <= n < k * t + t
  {
    k := 0;
    if n >= t {
      var j := FullPartIsMultiple(n - t, t);
      ChunkCount(j, t);
      k := j + 1;
    }
  }

  lemma {:induction false} RestArrives(block: seq<u8>, have: seq<u8>, pduSize: u16)
    requires pduSize > 50 && have != [] && |have| <= MAX_BLOCK
    ensures UploadLoop(Served(block, pduSize - 50), have, pduSize).result == Ok(have + block)
       <==> |have| + FullPart(|block|, pduSize - 50) <= MAX_BLOCK
    decreases |block|
  {
    hide UploadLoop, Fine;
    var t: nat := pduSize - 50;
    if |block| < t {
      assert Served(block, t) == [Fine(block)] + [];
      UploadStep(block, [], have, pduSize);
      assert block == [] ==> have + block == have;
    } else {
      UploadStep(block[..t], Served(block[t..], t), have, pduSize);
      if |have| + t <= MAX_BLOCK {
        RestArrives(block[t..], have + block[..t], pduSize);
        assert have + block[..t] + block[t..] == have + block;
      }
    }
  }

  /** A block whose first chunk is wrapped in a four-byte envelope. */
  function Enveloped(block: seq<u8>, envelope: seq<u8>, t: nat): seq<Answer>
    requires t > 0
  {
    if |block| < t then [Fine(envelope + block)] else [Fine(envelope + block[..t])] + Served(block[t..], t)
  }

  lemma StripEnvelope(envelope: seq<u8>, body: seq<u8>)
    requires IsEnvelope(envelope)
    ensures Strip(envelope + body) == body && [] + body == body
  {
  }

  /** With the envelope the block arrives whole exactly if its full chunks stay within 4 MiB. */
  lemma EnvelopedUpload(block: seq<u8>, envelope: seq<u8>, pduSize: u16)
    requires pduSize > 50 && IsEnvelope(envelope)
    ensures UploadLoop(Enveloped(block, envelope, pduSize - 50), [], pduSize).result == Ok(block)
       <==> FullPart(|block|, pduSize - 50) <= 0x40_0000
  {
    hide UploadLoop, Fine, Served, Strip;
    var t: nat := pduSize - 50;
    var first := if |block| < t then block else block[..t];
    StripEnvelope(envelope, first);
    if |block| < t {
      assert Enveloped(block, envelope, t) == [Fine(envelope + first)] + [];
      UploadStep(envelope + first, [], [], pduSize);
    } else {
      UploadStep(envelope + first, Served(block[t..], t), [], pduSize);
      RestArrives(block[t..], first, pduSize);
      assert first + block[t..] == block;
    }
  }

  /** Without an envelope exactly if, besides, its first byte is not taken for a return code. */
  lemma BareUpload(block: seq<u8>, pduSize: u16)
    requires pduSize > 50
    ensures UploadLoop(Served(block, pduSize - 50), [], pduSize).result == Ok(block)
       <==> && FullPart(|block|, pduSize - 50) <= 0x40_0000
            && (|block| < 4 || pduSize < 54 || (block[0] != 0xFF && block[0] != 0x00))
  {
    hide UploadLoop, Fine;
    var t: nat := pduSize - 50;
    var first := if |block| < t then block else block[..t];
    var rest := if |block| < t then [] else Served(block[t..], t);
    assert Served(block, t) == [Fine(first)] + rest;
    UploadStep(first, rest, [], pduSize);
    var chunk := Strip(first);
    assert [] + chunk == chunk;
    if |block| >= t && chunk == first {
      RestArrives(block[t..], first, pduSize);
      assert first + block[t..] == block;
    }
  }

  /** So a block in its own upload format, whose type takes one byte, is cut. */
  lemma BareBlockIsCut(b: BlockData, pduSize: u16)
    requires pduSize >= 54 && b.blockType < 0x100
    ensures UploadLoop(Served(ToBytes(b), pduSize - 50), [], pduSize).result != Ok(ToBytes(b))
  {
    hide UploadLoop, Served;
    assert ToBytes(b)[0] == Be16(b.blockType)[0];
    BareUpload(ToBytes(b), pduSize);
  }

  // -- Download --------------------------------------------------------------------------------

  function Available(pduSize: u16): nat { if pduSize > 50 then pduSize - 50 else 0 }

  /** The input cut into chunks of `t` bytes. */
  function Chunks(data: seq<u8>, t: nat): (cs: seq<seq<u8>>)
    requires t > 0
    ensures cs != [] && cs[0] == data[..if t < |data| then t else |data|]
    decreases |data|
  {
    if |data| <= t then [data] else [data[..t]] + Chunks(data[t..], t)
  }

  function Joined(cs: seq<seq<u8>>): seq<u8> { if cs == [] then [] else cs[0] + Joined(cs[1..]) }

  /** The chunks are the input again, none is longer than `t`, and their number is the least possible. */
  lemma {:induction false} ChunksJoin(data: seq<u8>, t: nat)
    requires t > 0
    ensures Joined(Chunks(data, t)) == data
    ensures forall i :: 0 <= i < |Chunks(data, t)| ==> |Chunks(data, t)[i]| <= t
    ensures data != [] ==> (|Chunks(data, t)| - 1) * t < |data| <= |Chunks(data, t)| * t
    decreases |data|
  {
    if |data| <= t {
      assert Joined([data]) == data + Joined([]) == data;
    } else {
      ChunksJoin(data[t..], t);
      var cs := Chunks(data, t);
      assert cs[1..] == Chunks(data[t..], t);
      ChunkCount(|cs| - 1, t);
    }
  }

  function StartParam(kind: u8, number: u16, total: nat): seq<u8> {
    [0x1E, 0x00, kind, 0x00] + Be16(number) + Be32(Low32(total))
  }

  function DataParam(id: u32): seq<u8> { [0x1E, 0x01] + Be32(id) }

  function EndParam(id: u32): seq<u8> { [0x1E, 0x02] + Be32(id) }

  function DataRequests(param: seq<u8>, cs: seq<seq<u8>>): seq<Request> { Map(c => Request(param, c), cs) }

  /** Everything a download sends: the first chunk with the start request, the others with the identifier, the end. */
  function Plan(kind: u8, number: u16, data: seq<u8>, t: nat, id: u32): seq<Request>
    requires t > 0
  {
    var cs := Chunks(data, t);
    [Request(StartParam(kind, number, |data|), cs[0])] + DataRequests(DataParam(id), cs[1..])
    + [Request(EndParam(id), [])]
  }

  /** The identifier in the answer to the start request. */
  function DownloadId(body: seq<u8>): Result<u32, Error> {
    var b := Skip2(body);
    if |b| < 4 then Err(UnexpectedResponse) else Ok(U32(b[0], b[1], b[2], b[3]))
  }

  /** How a download, or its chunk loop, ends, and the requests it makes. */
  datatype Downloaded = Downloaded(result: Result<(), Error>, requests: seq<Request>)

  /** The chunk loop over what is left of the input. Without room it sends empty chunks and makes no progress. */
  function ChunkLoop(answers: seq<Answer>, data: seq<u8>, t: nat, param: seq<u8>): Downloaded
    decreases |answers|
  {
    if data == [] then Downloaded(Ok(()), [])
    else
      var end := if t < |data| then t else |data|;
      var q := Request(param, data[..end]);
      match FirstBody(answers)
      case Err(e) => Downloaded(Err(e), [q])
      case Ok(_) =>
        var rest := ChunkLoop(answers[1..], data[end..], t, param);
        rest.(requests := [q] + rest.requests)
  }

  method SendChunks(link: PlcLink, data: seq<u8>, t: nat, param: seq<u8>) returns (r: Result<(), Error>)
    modifies link
    ensures var d := ChunkLoop(old(link.answers), data, t, param);
            && r == d.result && link.sent == old(link.sent) + d.requests
            && (r.Ok? ==> |d.requests| <= |old(link.answers)| && link.answers == old(link.answers)[|d.requests|..])
  {
    hide FirstBody, ChunkLoop;
    var offset := 0;
    ghost var made: seq<Request> := [];
    assert data[0..] == data;
    while offset < |data|
      invariant 0 <= offset <= |data| && link.sent == old(link.sent) + made
      invariant |made| <= |old(link.answers)| && link.answers == old(link.answers)[|made|..]
      invariant Preceded(made, ChunkLoop(link.answers, data[offset..], t, param))
             == ChunkLoop(old(link.answers), data, t, param)
      decreases |data| - offset, |link.answers|
    {
      var end := if offset + t < |data| then offset + t else |data|;
      SilenceIsError(link.answers);
      ChunkStep(link.answers, data, offset, end, t, param, made);
      var answer := link.Exchange(param, data[offset..end]);
      made := made + [Request(param, data[offset..end])];
      if answer.Err? {
        return Err(answer.error);
      }
      offset := end;
    }
    NoChunks(link.answers, t, param);
    assert data[offset..] == [] && made + [] == made;
    r := Ok(());
  }

  function Preceded(made: seq<Request>, d: Downloaded): Downloaded { d.(requests := made + d.requests) }

  /** One turn of the loop. */
  lemma ChunkStep(answers: seq<Answer>, data: seq<u8>, offset: nat, end: nat, t: nat, param: seq<u8>,
                  made: seq<Request>)
    requires offset < |data| && end == if offset + t < |data| then offset + t else |data|
    ensures var q := Request(param, data[offset..end]);
            Preceded(made, ChunkLoop(answers, data[offset..], t, param))
            == match FirstBody(answers)
               case Err(e) => Downloaded(Err(e), made + [q])
               case Ok(_) => Preceded(made + [q], ChunkLoop(Later(answers), data[end..], t, param))
  {
    hide FirstBody;
    SilenceIsError(answers);
    var rest := data[offset..];
    assert rest[..end - offset] == data[offset..end] && rest[end - offset..] == data[end..];
    var q, d := Request(param, data[offset..end]), ChunkLoop(Later(answers), data[end..], t, param);
    assert made + ([q] + d.requests) == (made + [q]) + d.requests;
  }

  function DownloadOutcome(answers: seq<Answer>, kind: u8, number: u16, data: seq<u8>, pduSize: u16): Downloaded {
    var t := Available(pduSize);
    var first := if t < |data| then t else |data|;
    var start := [Request(StartParam(kind, number, |data|), data[..first])];
    match FirstBody(answers)
    case Err(e) => Downloaded(Err(e), start)
    case Ok(body) =>
      match DownloadId(body)
      case Err(e) => Downloaded(Err(e), start)
      case Ok(id) =>
        var d := ChunkLoop(answers[1..], data[first..], t, DataParam(id));
        if d.result.Err? then Downloaded(d.result, start + d.requests)
        else
          var sent := start + d.requests + [Request(EndParam(id), [])];
          match FirstBody(if |d.requests| <= |answers| - 1 then answers[1 + |d.requests|..] else [])
          case Err(e) => Downloaded(Err(e), sent)
          case Ok(_) => Downloaded(Ok(()), sent)
  }

  method Download(link: PlcLink, kind: u8, number: u16, data: seq<u8>, pduSize: u16) returns (r: Result<(), Error>)
    modifies link
    ensures var d := DownloadOutcome(old(link.answers), kind, number, data, pduSize);
            r == d.result && link.sent == old(link.sent) + d.requests
  {
    hide FirstBody, StartParam, EndParam, DataParam, ChunkLoop, DownloadId;
    var avail := Available(pduSize);
    var first := if avail < |data| then avail else |data|;
    SilenceIsError(link.answers);
    var start := link.Exchange(StartParam(kind, number, |data|), data[..first]);
    if start.Err? {
      return Err(start.error);
    }
    var id := DownloadId(start.value);
    if id.Err? {
      return Err(id.error);
    }
    ghost var answers := link.answers;
    ghost var d := ChunkLoop(answers, data[first..], avail, DataParam(id.value));
    var done := SendChunks(link, data[first..], avail, DataParam(id.value));
    if done.Err? {
      return Err(done.error);
    }
    assert link.answers == answers[|d.requests|..] == old(link.answers)[1 + |d.requests|..];
    var end := link.Exchange(EndParam(id.value), []);
    r := if end.Err? then Err(end.error) else Ok(());
  }

  /** With room for its chunks the loop sends them in order: all if it succeeds, else a part from the start. */
  lemma {:induction false} LoopSendsChunks(answers: seq<Answer>, data: seq<u8>, t: nat, param: seq<u8>)
    requires t > 0 && data != []
    ensures var d := ChunkLoop(answers, data, t, param);
            && d.requests <= DataRequests(param, Chunks(data, t))
            && (d.result.Ok? ==> d.requests == DataRequests(param, Chunks(data, t)))
    decreases |data|
  {
    hide FirstBody;
    SilenceIsError(answers);
    if |data| > t {
      var cs := Chunks(data, t);
      assert cs == [data[..t]] + Chunks(data[t..], t);
      assert DataRequests(param, cs) == [Request(param, data[..t])] + DataRequests(param, Chunks(data[t..], t));
      if FirstBody(answers).Ok? {
        LoopSendsChunks(answers[1..], data[t..], t, param);
      }
    } else {
      assert data[..|data|] == data && data[|data|..] == [];
    }
  }

  predicate Follows(d: Downloaded, plan: seq<Request>) {
    d.requests <= plan && (d.result.Ok? ==> d.requests == plan)
  }

  /** A download sends its plan: all of it if it succeeds, else a part from the start. Without room it succeeds
      only for an empty input. */
  lemma DownloadFollowsPlan(answers: seq<Answer>, kind: u8, number: u16, data: seq<u8>, pduSize: u16)
    ensures var d, t := DownloadOutcome(answers, kind, number, data, pduSize), Available(pduSize);
            && (t > 0 ==> exists id :: Follows(d, Plan(kind, number, data, t, id)))
            && (pduSize > 50 && d.result.Ok? ==>
                  && FirstBody(answers).Ok? && DownloadId(FirstBody(answers).value).Ok?
                  && d.requests == Plan(kind, number, data, pduSize - 50, DownloadId(FirstBody(answers).value).value))
            && (pduSize <= 50 && data != [] ==> d.result.Err?)
  {
    hide FirstBody, StartParam, EndParam, DataParam, ChunkLoop, DownloadId, Chunks, DataRequests;
    SilenceIsError(answers);
    var t := Available(pduSize);
    var first := if t < |data| then t else |data|;
    var id := if FirstBody(answers).Ok? && DownloadId(FirstBody(answers).value).Ok?
              then DownloadId(FirstBody(answers).value).value else 0;
    var later := if answers == [] then [] else answers[1..];
    if pduSize > 50 {
      PlanParts(data, t, DataParam(id));
      NoChunks(later, t, DataParam(id));
      if data[first..] != [] {
        LoopSendsChunks(later, data[first..], t, DataParam(id));
      }
      var d := DownloadOutcome(answers, kind, number, data, pduSize);
      assert Follows(d, Plan(kind, number, data, t, id));
    } else if data != [] {
      assert data[first..] == data;
      LoopNeverEnds(later, data, DataParam(id));
    }
  }

  lemma NoChunks(answers: seq<Answer>, t: nat, param: seq<u8>)
    ensures ChunkLoop(answers, [], t, param) == Downloaded(Ok(()), [])
  {
  }

  lemma {:induction false} LoopNeverEnds(answers: seq<Answer>, data: seq<u8>, param: seq<u8>)
    requires data != []
    ensures ChunkLoop(answers, data, 0, param).result.Err?
    decreases |answers|
  {
    hide FirstBody;
    SilenceIsError(answers);
    if FirstBody(answers).Ok? {
      assert data[0..] == data;
      LoopNeverEnds(answers[1..], data, param);
    }
  }

  /** Without room the loop sends empty chunks for as long as the PLC answers, and one more. */
  lemma {:induction false} DownloadNeverEnds(data: seq<u8>, param: seq<u8>, n: nat)
    requires data != []
    ensures ChunkLoop(seq(n, _ => Fine([])), data, 0, param)
         == Downloaded(Err(Io), Repeated(Request(param, []), n + 1))
  {
    var answers := seq(n, _ => Fine([]));
    assert data[..0] == [] && data[0..] == data;
    if n > 0 {
      assert FirstBody(answers).Ok?;
      DownloadNeverEnds(data, param, n - 1);
      assert answers[1..] == seq(n - 1, _ => Fine([]));
    }
  }

  lemma PlanParts(data: seq<u8>, t: nat, param: seq<u8>)
    requires t > 0
    ensures var first := if t < |data| then t else |data|;
            && Chunks(data, t)[0] == data[..first]
            && Chunks(data, t)[1..] == (if data[first..] == [] then [] else Chunks(data[first..], t))
            && DataRequests(param, []) == []
  {
  }

  /** Every later message of a download repeats the four bytes behind the first two of the start answer. */
  lemma DownloadCarriesId(answers: seq<Answer>, kind: u8, number: u16, data: seq<u8>, pduSize: u16, i: nat,
                          id: seq<u8>, tail: seq<u8>)
    requires |id| == 6 && FirstBody(answers) == Ok(id + tail)
    ensures var q := DownloadOutcome(answers, kind, number, data, pduSize).requests;
            && |q| >= 1 && q[0].param == [0x1E, 0x00, kind, 0x00] + Be16(number) + Be32(|data| % 0x1_0000_0000)
            && (0 < i < |q| ==>
                  (q[i].param == [0x1E, 0x01] + id[2..]
                   || (i == |q| - 1 && q[i] == Request([0x1E, 0x02] + id[2..], []))))
  {
    hide Be16, Be32, FirstBody, ChunkLoop, U32;
    var body := id + tail;
    Be32Inverts(id[2], id[3], id[4], id[5]);
    assert body[2..][..4] == id[2..] == [id[2], id[3], id[4], id[5]];
    SilenceIsError(answers);
    var t := Available(pduSize);
    LoopCarries(answers[1..], data[if t < |data| then t else |data|..], t, [0x1E, 0x01] + id[2..]);
  }

  lemma {:induction false} LoopCarries(answers: seq<Answer>, data: seq<u8>, t: nat, param: seq<u8>)
    ensures forall i :: 0 <= i < |ChunkLoop(answers, data, t, param).requests| ==>
              ChunkLoop(answers, data, t, param).requests[i].param == param
    decreases |answers|
  {
    hide FirstBody;
    SilenceIsError(answers);
    if data != [] && FirstBody(answers).Ok? {
      LoopCarries(answers[1..], data[if t < |data| then t else |data|..], t, param);
    }
  }

  /** A start answer of fewer than six bytes fails a download at once, one of fewer than eight an upload. */
  lemma ShortStartFails(answers: seq<Answer>, kind: u8, number: u16, data: seq<u8>, pduSize: u16)
    requires FirstBody(answers).Ok?
    ensures |FirstBody(answers).value| < 6 ==>
              DownloadOutcome(answers, kind, number, data, pduSize).result == Err(UnexpectedResponse)
    ensures |FirstBody(answers).value| < 8 ==> UploadOutcome(answers, pduSize) == Err(UnexpectedResponse)
  {
    hide FirstBody;
  }

  /** Every message of a download fits the PDU with 30 bytes to spare. */
  lemma PlanFits(kind: u8, number: u16, data: seq<u8>, pduSize: u16, id: u32, i: nat)
    requires pduSize > 50 && i < |Plan(kind, number, data, pduSize - 50, id)|
    ensures var q := Plan(kind, number, data, pduSize - 50, id)[i];
            10 + |q.param| + |q.data| <= pduSize - 30
  {
    ChunksJoin(data, pduSize - 50);
  }
}
