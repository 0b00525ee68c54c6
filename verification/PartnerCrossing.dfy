/** What happens when a partner starts to send before it has received what the other started to send. */
module PartnerCrossing {
  import opened Bytes
  import opened PartnerWire
  import opened Partner
  import opened PartnerRuns

  /** The left partner starts to send, whether or not it has received everything. */
  function Begun(w: World, m: Message): World {
    var out := BeginSend(w.l, m);
    World(out.peer, Hear(w.r, out.wire))
  }

  /** The left partner is free to send a message that fits the framing. */
  predicate MaySend(w: World, m: Message) {
    w.l.mode.Idle? && 0 < |m.data| <= MAX_MESSAGE && Deliverable(m, w.l.pduSize)
  }

  /** Both wait for an acknowledgement, and each has only the other's fragment to read. */
  predicate Crossed(l: Peer, r: Peer) {
    && InSend(l) && Agrees(l) && InSend(r) && Agrees(r)
    && l.inbox == Iso(Current(r)) && r.inbox == Iso(Current(l))
    && r.taken + [l.mode.m] == l.given && l.taken + [r.mode.m] == r.given
  }

  /** Only the wires, the modes and the counters of sent bytes may have changed. */
  predicate NothingTaken(w: World, z: World) {
    && z.l.taken == w.l.taken && z.r.taken == w.r.taken && z.l.given == w.l.given && z.r.given == w.r.given
    && z.l.errors == w.l.errors && z.r.errors == w.r.errors
  }

  /** In every state that a non-crossing run reaches, a send that breaks the rule meets the first fragment of the other
      partner's message: both are then crossed. */
  lemma BreakingCrosses(w: World, p: Phase, q: Phase, m: Message)
    requires Good(w.l, w.r, p, q) && MaySend(w, m) && w.l.taken != w.r.given
    ensures Crossed(Begun(w, m).l, Begun(w, m).r)
    ensures InSend(w.r) && Begun(w, m).r.mode == w.r.mode && w.r.mode.offset == 0
    ensures NothingTaken(w.(l := w.l.(given := w.l.given + [m])), Begun(w, m)) && Begun(w, m).l.mode.offset == 0
  {
    hide FragmentFrame, Iso, AckFrame, MaxSlice, Deliverable, Books, Low8, Low16;
    assert q.Flying?;
    var z := Begun(w, m);
    assert w.r.inbox == [];
    assert z.r.inbox == [] + Iso(Current(z.l)) == Iso(Current(z.l));
    assert z.l.inbox == w.l.inbox == [] + Iso(Current(w.r)) == Iso(Current(w.r));
  }

  // -- One step each ----------------------------------------------------------------------------

  /** A sender takes the other's fragment for its acknowledgement, whatever the fragment is. */
  lemma AckTakesFragment(l: Peer, r: Peer, rest: seq<u8>)
    requires InSend(l) && InSend(r) && Agrees(r) && l.inbox == Iso(Current(r)) + rest
    ensures Ready(l, r, Ack)
    ensures var on := l.(inbox := rest, mode := l.mode.(offset := EndOf(l), first := false, seqNo := r.mode.seqNo));
            OnAck(l) == if EndOf(l) == |l.mode.m.data| then Out(l.(inbox := rest, mode := Idle), [])
                        else SendCurrent(on)
  {
    hide FragmentFrame, Recv, Iso, TakeAck, MaxSlice, Deliverable;
    SizeOf(r, rest);
    var s := r.mode;
    FragmentPassesForAck(s.m, s.offset, EndOf(r), s.first, s.seqNo, s.idSeq, s.pduRef);
  }

  lemma OneMove(w: World, v: Move, us: seq<Move>)
    requires Enabled(w, v) && Runs(Next(w, v), us) && !v.call.Send? && NoSends(us)
    ensures Runs(w, [v] + us) && After(w, [v] + us) == After(Next(w, v), us) && NoSends([v] + us)
  {
    hide Next, Enabled;
    assert ([v] + us)[1..] == us;
  }

  /** The left partner's half of a round: it returns, or puts its next fragment behind the one the other has to read. */
  lemma LeftAcks(w: World)
    requires Crossed(w.l, w.r)
    ensures Enabled(w, Move(true, Ack)) && NothingTaken(w, Next(w, Move(true, Ack)))
    ensures var z := Next(w, Move(true, Ack));
            && z.l.inbox == [] && z.r == w.r.(inbox := z.r.inbox) && z.l.pduSize == w.l.pduSize
            && (if EndOf(w.l) == |w.l.mode.m.data| then z.l.mode == Idle && z.r.inbox == w.r.inbox
                else
                  && InSend(z.l) && Agrees(z.l) && z.l.mode.m == w.l.mode.m && z.l.mode.offset == EndOf(w.l)
                  && z.r.inbox == Iso(Current(w.l)) + Iso(Current(z.l)))
  {
    hide FragmentFrame, Iso, MaxSlice, Deliverable, Recv;
    assert w.l.inbox == Iso(Current(w.r)) + [];
    AckTakesFragment(w.l, w.r, []);
    assert w.r.inbox + [] == w.r.inbox;
  }

  /** The right partner's half, when the left one has gone on. */
  lemma RightAcks(w: World, before: Peer)
    requires InSend(w.l) && InSend(w.r) && Agrees(w.l) && Agrees(w.r) && InSend(before) && Agrees(before)
    requires w.l.inbox == [] && w.r.inbox == Iso(Current(before)) + Iso(Current(w.l))
    ensures Enabled(w, Move(false, Ack)) && NothingTaken(w, Next(w, Move(false, Ack)))
    ensures var z := Next(w, Move(false, Ack));
            && z.l == w.l.(inbox := z.l.inbox) && z.r.inbox == Iso(Current(z.l)) && z.r.pduSize == w.r.pduSize
            && (if EndOf(w.r) == |w.r.mode.m.data| then z.r.mode == Idle && z.l.inbox == []
                else InSend(z.r) && Agrees(z.r) && z.r.mode.m == w.r.mode.m && z.l.inbox == Iso(Current(z.r)))
  {
    hide FragmentFrame, Iso, MaxSlice, Deliverable, Recv;
    AckTakesFragment(w.r, before, Iso(Current(w.l)));
    var z := Next(w, Move(false, Ack));
    assert [] + Iso(Current(w.l)) == Iso(Current(w.l));
    if EndOf(w.r) < |w.r.mode.m.data| {
      assert z.l.inbox == [] + Iso(Current(z.r)) == Iso(Current(z.r));
    }
  }

  // -- Crossed partners do not deliver ------------------------------------------------------------

  /** From a crossed state, whatever the lengths, the two can acknowledge each other's fragments until one send call
      returns without an error and its message has not been received. */
  lemma {:induction false} CrossedFails(w: World) returns (us: seq<Move>)
    requires Crossed(w.l, w.r)
    ensures Runs(w, us) && NoSends(us) && NothingTaken(w, After(w, us)) && !Delivered(After(w, us))
    decreases |w.l.mode.m.data| - w.l.mode.offset
  {
    hide FragmentFrame, Iso, MaxSlice, Deliverable, Recv, Next, Enabled, Current;
    LeftAcks(w);
    var w1 := Next(w, Move(true, Ack));
    if EndOf(w.l) == |w.l.mode.m.data| {
      us := [];
    } else {
      RightAcks(w1, w.l);
      var w2 := Next(w1, Move(false, Ack));
      us := [];
      if EndOf(w.r) < |w.r.mode.m.data| {
        us := CrossedFails(w2);
      }
      OneMove(w1, Move(false, Ack), us);
      us := [Move(false, Ack)] + us;
    }
    OneMove(w, Move(true, Ack), us);
    us := [Move(true, Ack)] + us;
  }

  /** A world seen from either side. */
  function Facing(w: World, left: bool): World { if left then w else World(w.r, w.l) }

  /** The rule is exact. In every state that a non-crossing run reaches, a partner that starts to send has its message
      and the other's delivered however the partners go on if and only if it has received all that the other started to
      send. */
  lemma NonCrossingIsExact(left: u16, right: u16, vs: seq<Move>, side: bool, m: Message)
    requires Runs(Start(left, right), vs) && MaySend(Facing(After(Start(left, right), vs), side), m)
    ensures var w := Facing(After(Start(left, right), vs), side);
            w.l.taken == w.r.given
            <==> forall us :: Runs(Begun(w, m), us) && NoSends(us) ==> Delivered(After(Begun(w, m), us))
  {
    hide Runs, After, Good, BeginSend, Delivered, Refused, Steps;
    StartIsGood(left, right);
    var p, q := RunKeeps(Start(left, right), vs, Quiet, Quiet);
    var w := Facing(After(Start(left, right), vs), side);
    if !side {
      Swap(w.r, w.l, p, q);
      p, q := q, p;
    }
    if w.l.taken == w.r.given {
      SendKeeps(w.l, w.r, p, q, m);
      forall us | Runs(Begun(w, m), us) && NoSends(us) ensures Delivered(After(Begun(w, m), us)) {
        var p2, q2 := RunKeeps(Begun(w, m), us, Flying, q);
        GoodIsDelivered(After(Begun(w, m), us), p2, q2);
      }
    } else {
      BreakingCrosses(w, p, q, m);
      var us := CrossedFails(Begun(w, m));
      assert Runs(Begun(w, m), us) && NoSends(us) && !Delivered(After(Begun(w, m), us));
    }
  }

  // -- Lost and corrupted messages ------------------------------------------------------------------

  /** Crossed messages of one fragment each are lost: both send calls return without an error, and nothing is left on
      the wire to receive. */
  lemma CrossedSendsAreLost(w: World)
    requires Crossed(w.l, w.r) && EndOf(w.l) == |w.l.mode.m.data| && EndOf(w.r) == |w.r.mode.m.data|
    ensures var us := [Move(true, Ack), Move(false, Ack)];
            && Runs(w, us) && NothingTaken(w, After(w, us))
            && After(w, us) == World(w.l.(mode := Idle, inbox := []), w.r.(mode := Idle, inbox := []))
  {
    hide FragmentFrame, Iso, MaxSlice, Deliverable, Recv;
    assert w.l.inbox == Iso(Current(w.r)) + [] && w.r.inbox == Iso(Current(w.l)) + [];
    AckTakesFragment(w.l, w.r, []);
    var w1 := Next(w, Move(true, Ack));
    assert w1 == World(w.l.(mode := Idle, inbox := []), w.r) by {
      assert w.r.inbox + [] == w.r.inbox;
    }
    AckTakesFragment(w.r, w.l, []);
    var w2 := Next(w1, Move(false, Ack));
    assert w2.l.inbox == [] + [] == [];
    OneMove(w1, Move(false, Ack), []);
    OneMove(w, Move(true, Ack), [Move(false, Ack)]);
    assert [Move(true, Ack)] + [Move(false, Ack)] == [Move(true, Ack), Move(false, Ack)];
  }

  /** A fragment is on its way to a receiver that is in the middle of a message. */
  predicate Streaming(w: World) {
    && InSend(w.l) && Agrees(w.l) && !w.l.mode.first && w.l.inbox == []
    && w.r.mode.Receiving? && !w.r.mode.first && w.r.inbox == Iso(Current(w.l))
  }

  /** One fragment and its acknowledgement: the receiver's buffer grows by the fragment, whatever it held before. */
  lemma StreamStep(w: World, piece: Piece)
    requires InSend(w.l) && Agrees(w.l) && w.l.inbox == [] && w.r.mode.Receiving? && w.r.inbox == Iso(Current(w.l))
    requires TakePiece(Current(w.l), w.r.mode.first) == Some(piece)
    ensures Enabled(w, Move(false, Fragment)) && Enabled(Next(w, Move(false, Fragment)), Move(true, Ack))
    ensures var z := Next(Next(w, Move(false, Fragment)), Move(true, Ack));
            && z.l.taken == w.l.taken && z.l.errors == w.l.errors && z.r.errors == w.r.errors
            && z.l.pduSize == w.l.pduSize
            && (if piece.eos == 0x00 then
                  && z.r.mode == Idle && z.r.taken == w.r.taken + [Message(piece.id, w.r.mode.buf + piece.slice)]
                else
                  && z.r.mode.Receiving? && z.r.mode.buf == w.r.mode.buf + piece.slice && !z.r.mode.first
                  && z.r.taken == w.r.taken)
            && (if EndOf(w.l) == |w.l.mode.m.data| then z.l.mode == Idle
                else
                  && InSend(z.l) && Agrees(z.l) && !z.l.mode.first && z.l.inbox == []
                  && z.l.mode.m == w.l.mode.m && z.l.mode.offset == EndOf(w.l) && z.r.inbox == Iso(Current(z.l)))
  {
    hide FragmentFrame, Iso, MaxSlice, Deliverable, Recv, TakePiece, TakeAck, AckFrame, Low8, Low16;
    SizeOf(w.l, []);
    assert w.r.inbox == Iso(Current(w.l)) + [];
    var ack := AckFrame(w.r.mode.seqNo, w.r.nextRef);
    var w1 := Next(w, Move(false, Fragment));
    assert w1.l.inbox == [] + Iso(ack) == Iso(ack) + [];
    FrameArrives(ack, []);
    AckArrives(w.r.mode.seqNo, w.r.nextRef);
    var z := Next(w1, Move(true, Ack));
    assert w1.r.inbox == [];
    if EndOf(w.l) < |w.l.mode.m.data| {
      assert z.r.inbox == [] + Iso(Current(z.l)) == Iso(Current(z.l));
    }
  }

  /** A stream runs on to the end of the message. */
  lemma {:induction false} StreamEnds(w: World) returns (us: seq<Move>)
    requires Streaming(w)
    ensures Runs(w, us) && NoSends(us)
    ensures var z := After(w, us);
            && z.l.mode == Idle && z.r.mode == Idle && z.l.errors == w.l.errors && z.r.errors == w.r.errors
            && z.l.taken == w.l.taken
            && z.r.taken == w.r.taken + [Message(w.l.mode.m.id, w.r.mode.buf + w.l.mode.m.data[w.l.mode.offset..])]
    decreases |w.l.mode.m.data| - w.l.mode.offset
  {
    hide FragmentFrame, Iso, MaxSlice, Deliverable, Recv, TakePiece, Next, Enabled, Current;
    var d, o, end := w.l.mode.m.data, w.l.mode.offset, EndOf(w.l);
    SizeOf(w.l, []);
    StreamStep(w, Piece(w.l.mode.m.id, d[o..end], if end == |d| then 0x00 else 0x01));
    var w1 := Next(w, Move(false, Fragment));
    var w2 := Next(w1, Move(true, Ack));
    us := [];
    if end < |d| {
      us := StreamEnds(w2);
      assert w.r.mode.buf + d[o..end] + d[end..] == w.r.mode.buf + d[o..];
    } else {
      assert d[o..end] == d[o..];
    }
    OneMove(w1, Move(true, Ack), us);
    us := [Move(true, Ack)] + us;
    OneMove(w, Move(false, Fragment), us);
    us := [Move(false, Fragment)] + us;
  }

  /** If a crossed message has a second fragment of two bytes or more and the other message has only one fragment, the
      rest of the longer message arrives as a message of its own, without its first fragment and two bytes more, and
      nobody sees an error. */
  lemma CrossedSendCorrupts(w: World) returns (us: seq<Move>)
    requires Crossed(w.l, w.r) && w.l.mode.offset == 0 && EndOf(w.r) == |w.r.mode.m.data|
    requires Slice(w.l) >= 2 && |w.l.mode.m.data| >= Slice(w.l) + 2
    ensures Runs(w, us) && NoSends(us)
    ensures var z := After(w, us);
            && z.l.mode == Idle && z.r.mode == Idle && z.l.errors == w.l.errors && z.r.errors == w.r.errors
            && z.l.taken == w.l.taken
            && z.r.taken == w.r.taken + [Message(w.l.mode.m.id, w.l.mode.m.data[Slice(w.l) + 2..])]
            && !(z.r.taken <= w.l.given)
  {
    hide FragmentFrame, Iso, MaxSlice, Deliverable, Recv, TakePiece, Next, Enabled, Current;
    LeftAcks(w);
    var w1 := Next(w, Move(true, Ack));
    RightAcks(w1, w.l);
    var w2 := Next(w1, Move(false, Ack));
    us := RestArrives(w2);
    OneMove(w1, Move(false, Ack), us);
    us := [Move(false, Ack)] + us;
    OneMove(w, Move(true, Ack), us);
    us := [Move(true, Ack)] + us;
    var k, z := |w.r.taken|, After(w, us);
    assert |z.r.taken[k].data| < |w.l.given[k].data| && w.l.given[k] == w.l.mode.m;
  }

  /** A receiver that enters in the middle of a message takes the rest for a whole one. */
  lemma RestArrives(w: World) returns (us: seq<Move>)
    requires InSend(w.l) && Agrees(w.l) && !w.l.mode.first && EndOf(w.l) >= w.l.mode.offset + 2
    requires w.l.inbox == [] && w.r.mode == Idle && w.r.inbox == Iso(Current(w.l))
    ensures Runs(w, us) && NoSends(us)
    ensures var z := After(w, us);
            && z.l.mode == Idle && z.r.mode == Idle && z.l.errors == w.l.errors && z.r.errors == w.r.errors
            && z.l.taken == w.l.taken
            && z.r.taken == w.r.taken + [Message(w.l.mode.m.id, w.l.mode.m.data[w.l.mode.offset + 2..])]
  {
    hide FragmentFrame, Iso, MaxSlice, Deliverable, Recv, TakePiece, Next, Enabled, Current;
    var d, o, end := w.l.mode.m.data, w.l.mode.offset, EndOf(w.l);
    ReceiverEnters(w);
    var w1 := Next(w, Move(false, Receive));
    Misread(w.l);
    StreamStep(w1, Piece(w.l.mode.m.id, d[o + 2..end], if end == |d| then 0x00 else 0x01));
    var w2 := Next(w1, Move(false, Fragment));
    var w3 := Next(w2, Move(true, Ack));
    us := [];
    assert [] + d[o + 2..end] == d[o + 2..end];
    if end < |d| {
      us := StreamEnds(w3);
      assert d[o + 2..end] + d[end..] == d[o + 2..];
    } else {
      assert d[o + 2..end] == d[o + 2..];
    }
    OneMove(w2, Move(true, Ack), us);
    us := [Move(true, Ack)] + us;
    OneMove(w1, Move(false, Fragment), us);
    us := [Move(false, Fragment)] + us;
    OneMove(w, Move(false, Receive), us);
    us := [Move(false, Receive)] + us;
  }

  lemma ReceiverEnters(w: World)
    requires w.r.mode == Idle
    ensures Enabled(w, Move(false, Receive))
    ensures var z := Next(w, Move(false, Receive));
            && z.l == w.l && z.r == w.r.(mode := z.r.mode, counter := z.r.counter)
            && z.r.mode.Receiving? && z.r.mode.buf == [] && z.r.mode.first
  {
    assert w.l.inbox + [] == w.l.inbox;
  }

  lemma Misread(l: Peer)
    requires InSend(l) && Agrees(l) && !l.mode.first && EndOf(l) >= l.mode.offset + 2
    ensures TakePiece(Current(l), true) == Some(Piece(l.mode.m.id, l.mode.m.data[l.mode.offset + 2..EndOf(l)],
                                                      if EndOf(l) == |l.mode.m.data| then 0x00 else 0x01))
  {
    hide FragmentFrame, TakePiece;
    var s := l.mode;
    FragmentMisread(s.m, s.offset, EndOf(l), s.seqNo, s.idSeq, s.pduRef);
  }

  /** If the second fragment has one byte, the receive call ends in an error and acknowledges nothing. */
  lemma CrossedSendHangs(w: World)
    requires Crossed(w.l, w.r) && EndOf(w.l) < |w.l.mode.m.data| && EndOf(w.r) == |w.r.mode.m.data|
    requires End(w.l.mode.m, EndOf(w.l), Slice(w.l)) == EndOf(w.l) + 1
    ensures var us := [Move(true, Ack), Move(false, Ack), Move(false, Receive), Move(false, Fragment)];
            && Runs(w, us) && Hung(After(w, us)) && After(w, us).r.errors == w.r.errors + 1
            && After(w, us).l.taken == w.l.taken && After(w, us).r.taken == w.r.taken
  {
    hide FragmentFrame, Iso, MaxSlice, Deliverable, Recv, TakePiece, Next, Enabled, Current;
    LeftAcks(w);
    var w1 := Next(w, Move(true, Ack));
    RightAcks(w1, w.l);
    var w2 := Next(w1, Move(false, Ack));
    ReceiverEnters(w2);
    var w3 := Next(w2, Move(false, Receive));
    Unreadable(w3);
    FourMoves(w, Move(true, Ack), Move(false, Ack), Move(false, Receive), Move(false, Fragment));
  }

  /** A send call waits, and nothing is on its way. */
  predicate Hung(w: World) { w.l.mode.Sending? && !w.r.mode.Sending? && w.l.inbox == [] && w.r.inbox == [] }

  lemma Unreadable(w: World)
    requires InSend(w.l) && Agrees(w.l) && !w.l.mode.first && EndOf(w.l) == w.l.mode.offset + 1 && w.l.inbox == []
    requires w.r.mode.Receiving? && w.r.mode.first && w.r.inbox == Iso(Current(w.l))
    ensures Enabled(w, Move(false, Fragment))
    ensures var z := Next(w, Move(false, Fragment));
            Hung(z) && z.r.errors == w.r.errors + 1 && z.l.taken == w.l.taken && z.r.taken == w.r.taken
  {
    hide FragmentFrame, Iso, MaxSlice, Deliverable, Recv, TakePiece;
    SizeOf(w.l, []);
    assert w.r.inbox == Iso(Current(w.l)) + [];
    var s := w.l.mode;
    FragmentMisread(s.m, s.offset, EndOf(w.l), s.seqNo, s.idSeq, s.pduRef);
    assert w.l.inbox + [] == [];
  }

  lemma FourMoves(w: World, a: Move, b: Move, c: Move, d: Move)
    requires Enabled(w, a) && Enabled(Next(w, a), b) && Enabled(Next(Next(w, a), b), c)
    requires Enabled(Next(Next(Next(w, a), b), c), d)
    requires !a.call.Send? && !b.call.Send? && !c.call.Send? && !d.call.Send?
    ensures Runs(w, [a, b, c, d]) && After(w, [a, b, c, d]) == Next(Next(Next(Next(w, a), b), c), d)
  {
    hide Next, Enabled;
    OneMove(Next(Next(Next(w, a), b), c), d, []);
    OneMove(Next(Next(w, a), b), c, [d]);
    OneMove(Next(w, a), b, [c, d]);
    OneMove(w, a, [b, c, d]);
  }

  /** And the send call then never returns, unless the other partner sends something itself. */
  lemma {:induction false} HungStays(w: World, us: seq<Move>)
    requires Hung(w) && Runs(w, us) && NoSends(us)
    ensures Hung(After(w, us))
    decreases |us|
  {
    if us != [] {
      assert Recv([]).Incomplete?;
      assert us[0] == Move(false, Receive);
      assert w.l.inbox + [] == [];
      HungStays(Next(w, us[0]), us[1..]);
    }
  }

  // -- Crossing does happen ---------------------------------------------------------------------------

  /** Any two messages that can be sent can cross: one partner starts to send, and the other does not wait for it. */
  lemma CrossingIsReachable(left: u16, right: u16, m: Message, n: Message)
    requires 0 < |m.data| <= MAX_MESSAGE && Deliverable(m, left) && 0 < |n.data| <= MAX_MESSAGE && Deliverable(n, right)
    ensures var vs := [Move(false, Send(n))];
            && Runs(Start(left, right), vs)
            && (var z := Begun(After(Start(left, right), vs), m);
                Crossed(z.l, z.r) && z.l.mode.m == m && z.r.mode.m == n && z.l.mode.offset == 0 && z.r.mode.offset == 0)
  {
    hide FragmentFrame, Iso, MaxSlice, Deliverable, BeginSend, Current, Good;
    var start := Start(left, right);
    var v := Move(false, Send(n));
    SendEffect(start.r, n);
    var w := Next(start, v);
    assert [v][1..] == [] && Runs(w, []) && After(w, []) == w;
    StartIsGood(left, right);
    var p, q := RunKeeps(start, [v], Quiet, Quiet);
    SendEffect(w.l, m);
    BreakingCrosses(w, p, q, m);
  }
}
