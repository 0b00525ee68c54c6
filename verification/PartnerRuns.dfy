/** Whole runs of two partners: what arrives is what was sent, and the byte counters balance. */
module PartnerRuns {
  import opened Bytes
  import opened PartnerWire
  import opened Partner

  datatype World = World(l: Peer, r: Peer)

  /** The start of a send or receive call, or the arrival of the frame it waits for. */
  datatype Call = Send(m: Message) | Ack | Receive | Fragment

  /** Non-crossing: a partner starts to send only once it has received all that the other started to send. */
  predicate Ready(me: Peer, you: Peer, call: Call) {
    match call
    case Send(m) =>
      me.mode.Idle? && me.taken == you.given && (|m.data| > MAX_MESSAGE || Deliverable(m, me.pduSize))
    case Ack => me.mode.Sending? && me.mode.offset < |me.mode.m.data| && !Recv(me.inbox).Incomplete?
    case Receive => me.mode.Idle?
    case Fragment => me.mode.Receiving? && !Recv(me.inbox).Incomplete?
  }

  function Act(me: Peer, you: Peer, call: Call): Out
    requires Ready(me, you, call)
  {
    match call
    case Send(m) => BeginSend(me, m)
    case Ack => OnAck(me)
    case Receive => BeginReceive(me)
    case Fragment => OnFragment(me)
  }

  function Hear(you: Peer, wire: seq<u8>): Peer { you.(inbox := you.inbox + wire) }

  datatype Move = Move(left: bool, call: Call)

  predicate Enabled(w: World, v: Move) { if v.left then Ready(w.l, w.r, v.call) else Ready(w.r, w.l, v.call) }

  function Next(w: World, v: Move): World
    requires Enabled(w, v)
  {
    if v.left then
      var out := Act(w.l, w.r, v.call);
      World(out.peer, Hear(w.r, out.wire))
    else
      var out := Act(w.r, w.l, v.call);
      World(Hear(w.l, out.wire), out.peer)
  }

  predicate Runs(w: World, vs: seq<Move>)
    decreases |vs|
  {
    vs == [] || (Enabled(w, vs[0]) && Runs(Next(w, vs[0]), vs[1..]))
  }

  function After(w: World, vs: seq<Move>): World
    requires Runs(w, vs)
    decreases |vs|
  {
    if vs == [] then w else After(Next(w, vs[0]), vs[1..])
  }

  // -- The step invariant ---------------------------------------------------------------------

  /** One direction: no send under way, a fragment on the wire, or its acknowledgement on the wire. */
  datatype Phase = Quiet | Flying | Acked(seqNo: u8, pduRef: u16)

  predicate InSend(s: Peer) { s.mode.Sending? && s.mode.offset < |s.mode.m.data| }

  function EndOf(s: Peer): (end: nat)
    requires InSend(s)
    ensures s.mode.offset < end <= |s.mode.m.data|
  {
    End(s.mode.m, s.mode.offset, Slice(s))
  }

  /** Not in the middle of a message. */
  predicate Between(r: Peer) { r.mode.Receiving? ==> r.mode.buf == [] && r.mode.first }

  /** The receiver has the first `n` bytes of the sender's message, and all messages before it. */
  predicate Holds(s: Peer, r: Peer, n: nat)
    requires InSend(s) && n <= |s.mode.m.data|
  {
    if n == |s.mode.m.data| then Between(r) && r.taken == s.given
    else
      && r.taken + [s.mode.m] == s.given
      && (if n == 0 then Between(r) else r.mode.Receiving? && r.mode.buf == s.mode.m.data[..n] && !r.mode.first)
  }

  predicate Half(s: Peer, r: Peer, p: Phase) {
    match p
    case Quiet => !s.mode.Sending? && Between(r) && r.taken == s.given
    case Flying => InSend(s) && Agrees(s) && Holds(s, r, s.mode.offset)
    case Acked(_, _) => InSend(s) && Agrees(s) && Holds(s, r, EndOf(s))
  }

  predicate Agrees(s: Peer)
    requires InSend(s)
  {
    s.mode.first == (s.mode.offset == 0) && Deliverable(s.mode.m, s.pduSize)
  }

  function AckIn(p: Phase): seq<u8> { if p.Acked? then Iso(AckFrame(p.seqNo, p.pduRef)) else [] }

  function FragmentIn(s: Peer, p: Phase): seq<u8> { if p.Flying? && InSend(s) then Iso(Current(s)) else [] }

  /** The receiver's buffer is a prefix of the message cut at a fragment boundary, both sides agree on `first`, and the
      channels hold the frames that the two phases say and nothing else. */
  predicate Both(l: Peer, r: Peer, p: Phase, q: Phase) {
    && Half(l, r, p) && Half(r, l, q) && !(p.Flying? && q.Flying?)
    && l.inbox == AckIn(p) + FragmentIn(r, q)
    && r.inbox == AckIn(q) + FragmentIn(l, p)
  }

  // -- The books ------------------------------------------------------------------------------

  /** Fragments that `n` bytes take. */
  function Frames(n: nat, slice: nat): nat
    requires slice > 0
  {
    if n == 0 then 0 else if n <= slice then 1 else 1 + Frames(n - slice, slice)
  }

  lemma {:induction false} FramesIsCeiling(n: nat, slice: nat)
    requires slice > 0
    ensures n > 0 ==> (Frames(n, slice) - 1) * slice < n <= Frames(n, slice) * slice
  {
    if n > slice {
      FramesIsCeiling(n - slice, slice);
      var k := Frames(n - slice, slice);
      assert (k + 1) * slice == k * slice + slice && (k - 1) * slice == k * slice - slice;
    }
  }

  /** Bytes on the wire for `n` bytes of a message, without the total length. */
  function Rest(n: nat, slice: nat): nat
    requires slice > 0
  {
    n + 34 * Frames(n, slice)
  }

  function Cost(ms: seq<Message>, slice: nat): nat
    requires slice > 0
  {
    if ms == [] then 0 else Cost(ms[..|ms| - 1], slice) + 2 + Rest(|ms[|ms| - 1].data|, slice)
  }

  function TotalFrames(ms: seq<Message>, slice: nat): nat
    requires slice > 0
  {
    if ms == [] then 0 else TotalFrames(ms[..|ms| - 1], slice) + Frames(|ms[|ms| - 1].data|, slice)
  }

  /** Bytes of the sender's message that are not yet on the wire. */
  function Unsent(s: Peer, p: Phase): nat {
    if !p.Quiet? && InSend(s) then Rest(|s.mode.m.data| - EndOf(s), Slice(s)) else 0
  }

  /** Bytes that the receiver has not yet taken. */
  function Unheard(s: Peer, p: Phase): nat {
    if p.Flying? && InSend(s) then Extra(s.mode.first) + Rest(|s.mode.m.data| - s.mode.offset, Slice(s))
    else Unsent(s, p)
  }

  function UnheardFrames(s: Peer, p: Phase): nat {
    if p.Quiet? || !InSend(s) then 0
    else Frames(|s.mode.m.data| - (if p.Flying? then s.mode.offset else EndOf(s)), Slice(s))
  }

  /** The counters of one direction: what is sent and received is what the messages cost, less what is under way. */
  predicate Books(s: Peer, r: Peer, p: Phase, q: Phase) {
    && r.bytesRecv + Unheard(s, p) == Cost(s.given, Slice(s))
    && s.bytesSent + Unsent(s, p) + 26 * UnheardFrames(r, q)
       == Cost(s.given, Slice(s)) + 26 * TotalFrames(r.given, Slice(r))
  }

  predicate Good(l: Peer, r: Peer, p: Phase, q: Phase) { Both(l, r, p, q) && Books(l, r, p, q) && Books(r, l, q, p) }

  lemma Swap(l: Peer, r: Peer, p: Phase, q: Phase)
    requires Good(l, r, p, q)
    ensures Good(r, l, q, p)
  {
  }

  // -- The work left --------------------------------------------------------------------------

  /** Frames still to be taken for the message under way, acknowledgements included. */
  function Work(s: Peer, p: Phase): nat { 2 * UnheardFrames(s, p) + (if p.Acked? then 1 else 0) }

  function Resting(s: Peer): nat { if s.mode.Idle? then 1 else 0 }

  /** No more than this many steps are possible before a partner starts to send again. */
  function Steps(l: Peer, r: Peer, p: Phase, q: Phase): nat {
    2 * (Work(l, p) + Work(r, q)) + Resting(l) + Resting(r)
  }

  // -- Each step keeps it ---------------------------------------------------------------------

  lemma CostSnoc(ms: seq<Message>, m: Message, slice: nat)
    requires slice > 0
    ensures Cost(ms + [m], slice) == Cost(ms, slice) + 2 + Rest(|m.data|, slice)
    ensures TotalFrames(ms + [m], slice) == TotalFrames(ms, slice) + Frames(|m.data|, slice)
  {
    assert (ms + [m])[..|ms|] == ms;
  }

  /** The fragment at `offset` costs its header and its bytes. */
  lemma RestStep(s: Peer)
    requires InSend(s)
    ensures var n, end := |s.mode.m.data|, EndOf(s);
            && Rest(n - s.mode.offset, Slice(s)) == 34 + (end - s.mode.offset) + Rest(n - end, Slice(s))
            && Frames(n - s.mode.offset, Slice(s)) == 1 + Frames(n - end, Slice(s))
  {
  }

  lemma SizeOf(s: Peer, rest: seq<u8>)
    requires InSend(s) && Agrees(s)
    ensures |Current(s)| == 34 + Extra(s.mode.first) + (EndOf(s) - s.mode.offset)
    ensures Recv(Iso(Current(s)) + rest) == Frame(Current(s), rest)
    ensures TakePiece(Current(s), s.mode.first)
         == Some(Piece(s.mode.m.id, s.mode.m.data[s.mode.offset..EndOf(s)],
                       if EndOf(s) == |s.mode.m.data| then 0 else 1))
  {
    hide FragmentFrame, Recv, Iso, TakePiece;
    var m, end := s.mode, EndOf(s);
    FragmentSize(m.m, m.offset, end, m.first, m.seqNo, m.idSeq, m.pduRef);
    FragmentArrives(m.m, m.offset, end, m.first, m.seqNo, m.idSeq, m.pduRef);
    FrameArrives(Current(s), rest);
  }

  /** What starting to send changes. */
  lemma SendEffect(l: Peer, m: Message)
    requires l.mode.Idle? && 0 < |m.data| <= MAX_MESSAGE && Deliverable(m, l.pduSize)
    ensures var out := BeginSend(l, m);
            var s := out.peer;
            && InSend(s) && Agrees(s) && s.mode.m == m && s.mode.offset == 0 && out.wire == Iso(Current(s))
            && s == l.(mode := s.mode, counter := s.counter, nextRef := s.nextRef, given := l.given + [m],
                       bytesSent := l.bytesSent + 36 + EndOf(s))
  {
    hide FragmentFrame, Iso, MaxSlice, Low8, Low16, Deliverable, Recv, TakePiece;
    SizeOf(BeginSend(l, m).peer, []);
  }

  lemma SendKeeps(l: Peer, r: Peer, p: Phase, q: Phase, m: Message)
    requires Good(l, r, p, q) && Ready(l, r, Send(m)) && 0 < |m.data| <= MAX_MESSAGE
    ensures var out := BeginSend(l, m);
            Good(out.peer, Hear(r, out.wire), Flying, q) && out.peer.errors == l.errors
  {
    hide FragmentFrame, Iso, Rest, Frames, Cost, TotalFrames, MaxSlice, AckFrame, BeginSend, Deliverable, Current;
    SendEffect(l, m);
    var out := BeginSend(l, m);
    var s, y := out.peer, Hear(r, out.wire);
    assert Both(s, y, Flying, q) by {
      assert r.inbox + out.wire == AckIn(q) + FragmentIn(s, Flying);
    }
    assert Books(s, y, Flying, q) && Books(y, s, q, Flying) by {
      RestStep(s);
      CostSnoc(l.given, m, Slice(l));
    }
  }

  lemma ReceiveKeeps(l: Peer, r: Peer, p: Phase, q: Phase)
    requires Good(l, r, p, q) && Ready(l, r, Receive)
    ensures var out := BeginReceive(l);
            && Good(out.peer, Hear(r, out.wire), p, q) && out.peer.errors == l.errors
            && Steps(out.peer, Hear(r, out.wire), p, q) < Steps(l, r, p, q)
  {
    hide FragmentFrame, Iso, Rest, Frames, Cost, TotalFrames, MaxSlice, Low8, AckFrame;
    assert r.inbox + [] == r.inbox;
  }

  /** A refused or empty message leaves no trace on the wire. */
  lemma NoSendKeeps(l: Peer, r: Peer, p: Phase, q: Phase, m: Message)
    requires Good(l, r, p, q) && Ready(l, r, Send(m)) && (m.data == [] || |m.data| > MAX_MESSAGE)
    ensures var out := BeginSend(l, m);
            && Good(out.peer, Hear(r, out.wire), p, q)
            && out.peer.errors == l.errors + (if m.data == [] then 0 else 1)
  {
    hide FragmentFrame, Iso, Rest, Frames, Cost, TotalFrames, MaxSlice, Low8, Low16, AckFrame;
    assert r.inbox + [] == r.inbox;
  }

  /** A sender with a complete frame in its inbox has its acknowledgement there. */
  lemma AckIsThere(l: Peer, r: Peer, p: Phase, q: Phase)
    requires Both(l, r, p, q) && Ready(l, r, Ack)
    ensures p.Acked? && Recv(l.inbox) == Frame(AckFrame(p.seqNo, p.pduRef), FragmentIn(r, q))
    ensures TakeAck(AckFrame(p.seqNo, p.pduRef)) == Some(p.seqNo)
  {
    hide FragmentFrame, Iso, Deliverable, AckFrame, MaxSlice, TakeAck, Holds;
    if p.Acked? {
      FrameArrives(AckFrame(p.seqNo, p.pduRef), FragmentIn(r, q));
      AckArrives(p.seqNo, p.pduRef);
    }
  }

  lemma AckKeeps(l: Peer, r: Peer, p: Phase, q: Phase) returns (next: Phase)
    requires Good(l, r, p, q) && Ready(l, r, Ack)
    ensures var out := OnAck(l);
            && Good(out.peer, Hear(r, out.wire), next, q) && out.peer.errors == l.errors
            && Steps(out.peer, Hear(r, out.wire), next, q) < Steps(l, r, p, q)
  {
    hide FragmentFrame, Iso, Rest, Frames, Cost, TotalFrames, MaxSlice, Recv, TakeAck, AckFrame, Deliverable;
    AckIsThere(l, r, p, q);
    var out := OnAck(l);
    var s := out.peer;
    if EndOf(l) == |l.mode.m.data| {
      next := Quiet;
      NothingLeft(Slice(l));
      assert r.inbox + [] == r.inbox;
    } else {
      next := Flying;
      assert s.mode == l.mode.(offset := EndOf(l), first := false, seqNo := p.seqNo);
      SizeOf(s, []);
      RestStep(s);
      assert r.inbox + out.wire == AckIn(q) + FragmentIn(s, Flying);
    }
  }

  lemma NothingLeft(slice: nat)
    requires slice > 0
    ensures Rest(0, slice) == 0 && Frames(0, slice) == 0
  {
  }

  /** A receiver with a complete frame in its inbox has the sender's current fragment there. */
  lemma FragmentIsThere(l: Peer, r: Peer, p: Phase, q: Phase)
    requires Both(l, r, p, q) && Ready(l, r, Fragment)
    ensures p.Quiet? && q.Flying? && InSend(r) && Agrees(r) && l.mode.first == r.mode.first
    ensures Recv(l.inbox) == Frame(Current(r), [])
    ensures l.mode.buf == r.mode.m.data[..r.mode.offset]
  {
    hide FragmentFrame, Iso, Deliverable, AckFrame, MaxSlice;
    if q.Flying? {
      SizeOf(r, []);
      assert l.inbox == Iso(Current(r)) + [];
    }
  }

  lemma FragmentKeeps(l: Peer, r: Peer, p: Phase, q: Phase) returns (next: Phase)
    requires Good(l, r, p, q) && Ready(l, r, Fragment)
    ensures var out := OnFragment(l);
            && Good(out.peer, Hear(r, out.wire), p, next) && out.peer.errors == l.errors
            && Steps(out.peer, Hear(r, out.wire), p, next) < Steps(l, r, p, q)
  {
    hide FragmentFrame, Iso, Rest, Frames, Cost, TotalFrames, MaxSlice, Recv, TakePiece, AckFrame, Deliverable, Low8,
         Low16;
    FragmentIsThere(l, r, p, q);
    FragmentTaken(l, r);
    next := Acked(l.mode.seqNo, l.nextRef);
    var me, you := OnFragment(l).peer, Hear(r, Iso(AckFrame(l.mode.seqNo, l.nextRef)));
    assert me.inbox == AckIn(p) + FragmentIn(you, next) == [];
    assert you.inbox == AckIn(next) + FragmentIn(me, p);
    assert Both(me, you, p, next);
    RestStep(r);
    NothingLeft(Slice(r));
  }

  /** The receiver's side of one fragment. */
  lemma FragmentTaken(l: Peer, r: Peer)
    requires l.mode.Receiving? && InSend(r) && Agrees(r) && l.mode.first == r.mode.first
    requires Recv(l.inbox) == Frame(Current(r), []) && l.mode.buf == r.mode.m.data[..r.mode.offset]
    ensures var me := OnFragment(l).peer;
            && OnFragment(l).wire == Iso(AckFrame(l.mode.seqNo, l.nextRef))
            && me.bytesRecv == l.bytesRecv + 34 + Extra(r.mode.first) + (EndOf(r) - r.mode.offset)
            && me == l.(inbox := [], bytesRecv := me.bytesRecv, bytesSent := l.bytesSent + 26, nextRef := me.nextRef,
                        mode := me.mode, taken := me.taken)
            && (if EndOf(r) == |r.mode.m.data| then me.mode == Idle && me.taken == l.taken + [r.mode.m]
                else
                  && me.mode.Receiving? && me.mode.buf == r.mode.m.data[..EndOf(r)] && !me.mode.first
                  && me.taken == l.taken)
  {
    hide FragmentFrame, Iso, MaxSlice, Recv, TakePiece, AckFrame, Deliverable, Low8, Low16;
    SizeOf(r, []);
    var m := r.mode.m;
    assert m.data[..r.mode.offset] + m.data[r.mode.offset..EndOf(r)] == m.data[..EndOf(r)];
    if EndOf(r) == |m.data| {
      assert m.data[..EndOf(r)] == m.data;
      assert Message(m.id, m.data) == m;
    }
  }

  // -- Every run ------------------------------------------------------------------------------

  /** The sends a partner refuses. */
  function Refused(vs: seq<Move>, left: bool): nat {
    if vs == [] then 0
    else
      var v := vs[0];
      (if v.left == left && v.call.Send? && |v.call.m.data| > MAX_MESSAGE then 1 else 0) + Refused(vs[1..], left)
  }

  predicate NoSends(vs: seq<Move>) { forall i :: 0 <= i < |vs| ==> !vs[i].call.Send? }

  lemma ActKeeps(l: Peer, r: Peer, p: Phase, q: Phase, call: Call) returns (p2: Phase, q2: Phase)
    requires Good(l, r, p, q) && Ready(l, r, call)
    ensures var out := Act(l, r, call);
            && Good(out.peer, Hear(r, out.wire), p2, q2)
            && out.peer.errors == l.errors + Refused([Move(true, call)], true)
            && (!call.Send? ==> Steps(out.peer, Hear(r, out.wire), p2, q2) < Steps(l, r, p, q))
  {
    hide Steps, Good, Ready, BeginSend, OnAck, OnFragment, BeginReceive;
    assert [Move(true, call)][1..] == [];
    p2, q2 := p, q;
    match call {
      case Send(m) =>
        if 0 < |m.data| <= MAX_MESSAGE {
          SendKeeps(l, r, p, q, m);
          p2 := Flying;
        } else {
          NoSendKeeps(l, r, p, q, m);
        }
      case Ack => p2 := AckKeeps(l, r, p, q);
      case Receive => ReceiveKeeps(l, r, p, q);
      case Fragment => q2 := FragmentKeeps(l, r, p, q);
    }
  }

  lemma {:induction false} RunKeeps(w: World, vs: seq<Move>, p: Phase, q: Phase) returns (p2: Phase, q2: Phase)
    requires Runs(w, vs) && Good(w.l, w.r, p, q)
    ensures var z := After(w, vs);
            && Good(z.l, z.r, p2, q2)
            && z.l.errors == w.l.errors + Refused(vs, true) && z.r.errors == w.r.errors + Refused(vs, false)
            && (NoSends(vs) ==> |vs| + Steps(z.l, z.r, p2, q2) <= Steps(w.l, w.r, p, q))
    decreases |vs|
  {
    hide Work, Good, Ready, Act;
    p2, q2 := p, q;
    if vs != [] {
      var v := vs[0];
      assert [Move(true, v.call)][1..] == [];
      if v.left {
        p2, q2 := ActKeeps(w.l, w.r, p, q, v.call);
      } else {
        Swap(w.l, w.r, p, q);
        q2, p2 := ActKeeps(w.r, w.l, q, p, v.call);
        var z := Next(w, v);
        Swap(z.r, z.l, q2, p2);
      }
      p2, q2 := RunKeeps(Next(w, v), vs[1..], p2, q2);
    }
  }

  function Start(left: u16, right: u16): World { World(Fresh(left), Fresh(right)) }

  lemma StartIsGood(left: u16, right: u16)
    ensures Good(Start(left, right).l, Start(left, right).r, Quiet, Quiet)
  {
  }

  /** What each partner has received is a prefix of what the other was given, and all of it once the other is out of its
      send calls. */
  predicate Delivered(w: World) {
    && w.r.taken <= w.l.given && w.l.taken <= w.r.given
    && (!w.l.mode.Sending? ==> w.r.taken == w.l.given)
    && (!w.r.mode.Sending? ==> w.l.taken == w.r.given)
  }

  /** In every non-crossing run what a partner has received is a prefix of the non-empty messages given to the other,
      it is all of them once the other's send calls have returned, and the only errors are refused messages. */
  lemma Delivery(left: u16, right: u16, vs: seq<Move>)
    requires Runs(Start(left, right), vs)
    ensures var w := After(Start(left, right), vs);
            Delivered(w) && w.l.errors == Refused(vs, true) && w.r.errors == Refused(vs, false)
  {
    hide Good, After, Runs, Refused, Delivered;
    StartIsGood(left, right);
    var p, q := RunKeeps(Start(left, right), vs, Quiet, Quiet);
    GoodIsDelivered(After(Start(left, right), vs), p, q);
  }

  lemma GoodIsDelivered(w: World, p: Phase, q: Phase)
    requires Good(w.l, w.r, p, q)
    ensures Delivered(w)
  {
    hide Half, Books;
    HalfDelivers(w.l, w.r, p);
    HalfDelivers(w.r, w.l, q);
  }

  lemma HalfDelivers(s: Peer, r: Peer, p: Phase)
    requires Half(s, r, p)
    ensures r.taken <= s.given && (!s.mode.Sending? ==> r.taken == s.given)
  {
  }

  /** Once both partners are out of their send calls the counters balance: a message of n bytes in k fragments costs
      n + 2 + 34 k bytes, received as sent, and k acknowledgements of 26 bytes. */
  lemma Conservation(left: u16, right: u16, vs: seq<Move>)
    requires Runs(Start(left, right), vs)
    ensures var w := After(Start(left, right), vs);
            var sl, sr := Slice(w.l), Slice(w.r);
            !w.l.mode.Sending? && !w.r.mode.Sending? ==>
              && w.r.bytesRecv == Cost(w.l.given, sl) && w.l.bytesRecv == Cost(w.r.given, sr)
              && w.l.bytesSent == Cost(w.l.given, sl) + 26 * TotalFrames(w.r.given, sr)
              && w.r.bytesSent == Cost(w.r.given, sr) + 26 * TotalFrames(w.l.given, sl)
  {
    hide After, Runs, Refused, Cost, TotalFrames;
    StartIsGood(left, right);
    var p, q := RunKeeps(Start(left, right), vs, Quiet, Quiet);
  }

  /** What one message costs: if it is all that was sent, of n bytes with a PDU size of at least 37, it took k fragments
      of up to 36 bytes less than that, and the counters say so. */
  lemma OneMessageCosts(left: u16, right: u16, vs: seq<Move>, m: Message) returns (k: nat)
    requires Runs(Start(left, right), vs) && left >= 37
    requires var w := After(Start(left, right), vs);
             w.l.given == [m] && w.r.given == [] && !w.l.mode.Sending? && !w.r.mode.Sending?
    ensures var w, n := After(Start(left, right), vs), |m.data|;
            && (n > 0 ==> (k - 1) * (left - 36) < n <= k * (left - 36))
            && w.l.bytesSent == n + 2 + 34 * k && w.r.bytesRecv == n + 2 + 34 * k
            && w.r.bytesSent == 26 * k && w.l.bytesRecv == 0
  {
    hide After, Runs, Refused, Frames;
    Conservation(left, right, vs);
    SameSize(Start(left, right), vs);
    k := Frames(|m.data|, left - 36);
    FramesIsCeiling(|m.data|, left - 36);
    var w := After(Start(left, right), vs);
    CostSnoc([], m, Slice(w.l));
    assert [] + [m] == [m];
  }

  /** The PDU size of a partner never changes. */
  lemma {:induction false} SameSize(w: World, vs: seq<Move>)
    requires Runs(w, vs)
    ensures After(w, vs).l.pduSize == w.l.pduSize && After(w, vs).r.pduSize == w.r.pduSize
    decreases |vs|
  {
    hide Recv, TakePiece, TakeAck, FragmentFrame, AckFrame, Iso, MaxSlice, Low8, Low16;
    if vs != [] {
      SameSize(Next(w, vs[0]), vs[1..]);
    }
  }

  /** A run does not get stuck while a message is under way. */
  lemma NoDeadlock(left: u16, right: u16, vs: seq<Move>) returns (v: Move)
    requires Runs(Start(left, right), vs)
    requires After(Start(left, right), vs).l.mode.Sending? || After(Start(left, right), vs).r.mode.Sending?
    ensures Enabled(After(Start(left, right), vs), v) && !v.call.Send?
  {
    hide After, Runs, Refused, Good, Enabled;
    StartIsGood(left, right);
    var p, q := RunKeeps(Start(left, right), vs, Quiet, Quiet);
    v := SomeStep(After(Start(left, right), vs), p, q);
  }

  /** Fragments of the message under way that are not yet acknowledged. */
  function FramesLeft(s: Peer): nat {
    if InSend(s) then Frames(|s.mode.m.data| - s.mode.offset, Slice(s)) else 0
  }

  lemma WorkIsBounded(s: Peer, r: Peer, p: Phase)
    requires Half(s, r, p)
    ensures Work(s, p) <= 2 * FramesLeft(s)
  {
    hide Frames, Rest, MaxSlice, Holds, Agrees;
    if InSend(s) {
      RestStep(s);
    }
  }

  /** Send calls return: unless a partner starts to send again, there are at most four steps for every fragment left and
      two more; and when no such step is left, no partner is in a send call and everything has been delivered. */
  lemma SendsReturn(left: u16, right: u16, vs: seq<Move>, us: seq<Move>)
    requires Runs(Start(left, right), vs) && Runs(After(Start(left, right), vs), us) && NoSends(us)
    ensures var w := After(Start(left, right), vs);
            && |us| <= 4 * (FramesLeft(w.l) + FramesLeft(w.r)) + 2
            && (var z := After(w, us);
                (forall v: Move :: !v.call.Send? ==> !Enabled(z, v)) ==>
                  !z.l.mode.Sending? && !z.r.mode.Sending? && Delivered(z))
  {
    hide After, Runs, Refused, Books, FramesLeft, Work, Enabled, Half;
    StartIsGood(left, right);
    var p, q := RunKeeps(Start(left, right), vs, Quiet, Quiet);
    var w := After(Start(left, right), vs);
    WorkIsBounded(w.l, w.r, p);
    WorkIsBounded(w.r, w.l, q);
    var p2, q2 := RunKeeps(w, us, p, q);
    var z := After(w, us);
    GoodIsDelivered(z, p2, q2);
    if z.l.mode.Sending? || z.r.mode.Sending? {
      var v := SomeStep(z, p2, q2);
    }
  }

  lemma SomeStep(w: World, p: Phase, q: Phase) returns (v: Move)
    requires Good(w.l, w.r, p, q) && (w.l.mode.Sending? || w.r.mode.Sending?)
    ensures Enabled(w, v) && !v.call.Send?
  {
    hide Books, Half;
    if w.l.mode.Sending? {
      var call, mine := Progress(w.l, w.r, p, q);
      v := Move(mine, call);
    } else {
      var call, mine := Progress(w.r, w.l, q, p);
      v := Move(!mine, call);
    }
  }

  lemma Progress(l: Peer, r: Peer, p: Phase, q: Phase) returns (call: Call, mine: bool)
    requires Both(l, r, p, q) && l.mode.Sending?
    ensures !call.Send? && if mine then Ready(l, r, call) else Ready(r, l, call)
  {
    hide FragmentFrame, Iso, AckFrame, MaxSlice, Deliverable, Holds;
    if p.Acked? {
      FrameArrives(AckFrame(p.seqNo, p.pduRef), FragmentIn(r, q));
      call, mine := Ack, true;
    } else if r.mode.Sending? {
      FrameArrives(AckFrame(q.seqNo, q.pduRef), FragmentIn(l, p));
      call, mine := Ack, false;
    } else if r.mode.Receiving? {
      SizeOf(l, []);
      assert r.inbox == Iso(Current(l)) + [];
      call, mine := Fragment, false;
    } else {
      call, mine := Receive, false;
    }
  }
}
