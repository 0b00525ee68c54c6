/** No continuation of a crossed send delivers either message. */
module PartnerLosses {
  import opened Bytes
  import opened PartnerWire
  import opened Partner
  import opened PartnerRuns
  import opened PartnerCrossing

  /** The bytes of some frames on the wire. */
  function Wires(fs: seq<seq<u8>>): seq<u8> {
    if fs == [] then [] else Iso(fs[0]) + Wires(fs[1..])
  }

  predicate AllFit(fs: seq<seq<u8>>) { forall i :: 0 <= i < |fs| ==> |fs[i]| <= 65528 }

  /** No more bytes of a message than this can be taken from a frame. */
  function Weight(f: seq<u8>): nat { if |f| > 34 then |f| - 34 else 0 }

  function Weights(fs: seq<seq<u8>>): nat {
    if fs == [] then 0 else Weight(fs[0]) + Weights(fs[1..])
  }

  /** What is left to a receiver: a partner that waits for an acknowledgement will waste the next frame on it. */
  function Usable(r: Peer, fs: seq<seq<u8>>): seq<seq<u8>> { if r.mode.Sending? && fs != [] then fs[1..] else fs }

  function Held(r: Peer): nat { if r.mode.Receiving? then |r.mode.buf| else 0 }

  function NotSent(s: Peer): nat { if InSend(s) then |s.mode.m.data| - EndOf(s) else 0 }

  /** A sender of `m`, if it is still sending. */
  predicate Sends(s: Peer, m: Message) { s.mode.Sending? ==> InSend(s) && Agrees(s) && s.mode.m == m }

  /** Too little of `m` is left for the receiver, whose message at position `k` it would be; or something shorter has
      taken that position already. */
  predicate Doomed(s: Peer, r: Peer, fs: seq<seq<u8>>, k: nat, m: Message) {
    && r.inbox == Wires(fs) && AllFit(fs) && Sends(s, m)
    && |s.given| == k + 1 && s.given[k] == m && |r.taken| >= k
    && (|r.taken| == k ==> Held(r) + Weights(Usable(r, fs)) + NotSent(s) < |m.data|)
    && (|r.taken| > k ==> |r.taken[k].data| < |m.data|)
  }

  lemma DoomedIsUndelivered(s: Peer, r: Peer, fs: seq<seq<u8>>, k: nat, m: Message)
    requires Doomed(s, r, fs, k, m)
    ensures r.taken != s.given
  {
  }

  lemma CrossedIsDoomed(l: Peer, r: Peer)
    requires Crossed(l, r)
    ensures Doomed(l, r, [Current(l)], |r.taken|, l.mode.m) && Doomed(r, l, [Current(r)], |l.taken|, r.mode.m)
  {
    hide FragmentFrame, Iso, MaxSlice, Deliverable, Recv, TakePiece;
    SizeOf(l, []);
    SizeOf(r, []);
    FrameLimit(l);
    FrameLimit(r);
    OneWire(Current(l));
    OneWire(Current(r));
  }

  lemma OneWire(f: seq<u8>)
    ensures Wires([f]) == Iso(f) && Weights([f]) == Weight(f) && Weights([]) == 0
  {
    hide Iso;
    assert Iso(f) + [] == Iso(f) && [f][1..] == [];
  }

  lemma FrameLimit(s: Peer)
    requires InSend(s) && Agrees(s)
    ensures |Current(s)| <= 65528
  {
    hide FragmentFrame, Recv, TakePiece, Iso;
    SizeOf(s, []);
  }

  // -- Wires ------------------------------------------------------------------------------------

  /** The next frame on the wire, and what is behind it. */
  lemma NextOnWire(fs: seq<seq<u8>>)
    requires AllFit(fs) && !Recv(Wires(fs)).Incomplete?
    ensures fs != [] && Recv(Wires(fs)) == Frame(fs[0], Wires(fs[1..])) && AllFit(fs[1..])
  {
    hide Iso;
    if fs != [] {
      FrameArrives(fs[0], Wires(fs[1..]));
    }
  }

  lemma {:induction false} WireAppends(fs: seq<seq<u8>>, f: seq<u8>)
    ensures Wires(fs + [f]) == Wires(fs) + Iso(f) && Weights(fs + [f]) == Weights(fs) + Weight(f)
  {
    hide Iso, Weight;
    if fs == [] {
      OneWire(f);
      assert fs + [f] == [f] && [] + Iso(f) == Iso(f);
    } else {
      WireAppends(fs[1..], f);
      assert (fs + [f])[1..] == fs[1..] + [f];
      assert Iso(fs[0]) + (Wires(fs[1..]) + Iso(f)) == (Iso(fs[0]) + Wires(fs[1..])) + Iso(f);
    }
  }

  lemma PieceIsLight(f: seq<u8>, first: bool)
    ensures TakePiece(f, first).Some? ==> |TakePiece(f, first).value.slice| <= Weight(f)
  {
    hide U16, U32;
  }

  // -- What a step does to the frames ---------------------------------------------------------------

  /** Frames a step puts on the wire: none or one. */
  function Emitted(fs: seq<seq<u8>>, f: seq<u8>): seq<seq<u8>> { if f == [] then fs else fs + [f] }

  /** A frame goes to a doomed receiver: the sender has that much less to send. */
  lemma Hearing(s: Peer, t: Peer, r: Peer, fs: seq<seq<u8>>, f: seq<u8>, wire: seq<u8>, k: nat, m: Message)
    requires Doomed(s, r, fs, k, m) && Sends(t, m) && t.given == s.given
    requires wire == (if f == [] then [] else Iso(f)) && |f| <= 65528
    requires (if f == [] then 0 else Weight(f)) + NotSent(t) <= NotSent(s)
    ensures Doomed(t, Hear(r, wire), Emitted(fs, f), k, m)
  {
    hide Iso, Wires, Weight, MaxSlice, Agrees;
    var y := Hear(r, wire);
    if f == [] {
      assert y.inbox == r.inbox;
    } else {
      WireAppends(fs, f);
      UsableGrows(r, fs, f);
      assert Held(y) == Held(r) && Usable(y, fs + [f]) == Usable(r, fs + [f]);
    }
  }

  lemma UsableGrows(r: Peer, fs: seq<seq<u8>>, f: seq<u8>)
    ensures Weights(Usable(r, fs + [f])) <= Weights(Usable(r, fs)) + Weight(f)
  {
    hide Weight;
    WireAppends(fs, f);
    if r.mode.Sending? && fs != [] {
      assert (fs + [f])[1..] == fs[1..] + [f];
      WireAppends(fs[1..], f);
    } else if r.mode.Sending? {
      assert (fs + [f])[1..] == [];
    }
  }

  /** A doomed receiver takes a frame, or starts to wait for one. */
  lemma Taking(s: Peer, r: Peer, z: Peer, fs: seq<seq<u8>>, gs: seq<seq<u8>>, k: nat, m: Message)
    requires Doomed(s, r, fs, k, m) && z.inbox == Wires(gs) && AllFit(gs)
    requires z.taken == r.taken || (|z.taken| == |r.taken| + 1 && z.taken[..|r.taken|] == r.taken)
    requires z.taken == r.taken ==> Held(z) + Weights(Usable(z, gs)) <= Held(r) + Weights(Usable(r, fs))
    requires z.taken != r.taken ==> |z.taken[|r.taken|].data| <= Held(r) + Weights(Usable(r, fs))
    ensures Doomed(s, z, gs, k, m)
  {
    hide Wires, Weights, Usable, AllFit;
    if z.taken != r.taken && |r.taken| > k {
      assert z.taken[k] == z.taken[..|r.taken|][k] == r.taken[k];
    }
  }

  // -- Each step ------------------------------------------------------------------------------------

  /** Both directions between two partners. */
  predicate BothDoomed(
    me: Peer, you: Peer, fm: seq<seq<u8>>, fy: seq<seq<u8>>, k: nat, m: Message, j: nat, n: Message)
  {
    Doomed(me, you, fy, k, m) && Doomed(you, me, fm, j, n)
  }

  lemma ReceiveDooms(
    me: Peer, you: Peer, fm: seq<seq<u8>>, fy: seq<seq<u8>>, k: nat, m: Message, j: nat, n: Message)
    requires BothDoomed(me, you, fm, fy, k, m, j, n) && Ready(me, you, Receive)
    ensures var out := BeginReceive(me);
            BothDoomed(out.peer, Hear(you, out.wire), fm, fy, k, m, j, n)
  {
    hide Wires, Weights, MaxSlice, Agrees, Low8, AllFit;
    var z := BeginReceive(me).peer;
    Taking(you, me, z, fm, fm, j, n);
    Hearing(me, z, you, fy, [], [], k, m);
  }

  lemma AckDooms(
    me: Peer, you: Peer, fm: seq<seq<u8>>, fy: seq<seq<u8>>, k: nat, m: Message, j: nat, n: Message)
    returns (f: seq<u8>)
    requires BothDoomed(me, you, fm, fy, k, m, j, n) && Ready(me, you, Ack)
    ensures fm != []
    ensures var out := OnAck(me);
            BothDoomed(out.peer, Hear(you, out.wire), fm[1..], Emitted(fy, f), k, m, j, n)
  {
    hide Wires, MaxSlice, Recv, TakeAck, FragmentFrame, Iso, Deliverable, Weight;
    NextOnWire(fm);
    var z := OnAck(me).peer;
    WeightsFall(fm);
    Taking(you, me, z, fm, fm[1..], j, n);
    f := if z.mode.Sending? then Current(z) else [];
    if z.mode.Sending? {
      FrameLimit(z);
      NextWeight(z);
    }
    Hearing(me, z, you, fy, f, OnAck(me).wire, k, m);
  }

  lemma WeightsFall(fs: seq<seq<u8>>)
    requires fs != []
    ensures Weights(fs) == Weight(fs[0]) + Weights(fs[1..])
    ensures fs[1..] != [] ==> Weights(fs[1..][1..]) <= Weights(fs[1..])
  {
    hide Weight;
  }

  lemma NextWeight(s: Peer)
    requires InSend(s) && Agrees(s) && !s.mode.first
    ensures Weight(Current(s)) == EndOf(s) - s.mode.offset && Current(s) != []
  {
    hide FragmentFrame, Recv, TakePiece, Iso, Deliverable;
    SizeOf(s, []);
  }

  lemma FragmentDooms(
    me: Peer, you: Peer, fm: seq<seq<u8>>, fy: seq<seq<u8>>, k: nat, m: Message, j: nat, n: Message)
    returns (f: seq<u8>)
    requires BothDoomed(me, you, fm, fy, k, m, j, n) && Ready(me, you, Fragment)
    ensures fm != []
    ensures var out := OnFragment(me);
            BothDoomed(out.peer, Hear(you, out.wire), fm[1..], Emitted(fy, f), k, m, j, n)
  {
    hide Wires, MaxSlice, Recv, TakePiece, AckFrame, Iso, Deliverable, Weight, Low8, Low16;
    NextOnWire(fm);
    var z := OnFragment(me).peer;
    WeightsFall(fm);
    PieceIsLight(fm[0], me.mode.first);
    Taking(you, me, z, fm, fm[1..], j, n);
    f := if OnFragment(me).wire == [] then [] else AckFrame(me.mode.seqNo, me.nextRef);
    AckIsLight(me.mode.seqNo, me.nextRef);
    Hearing(me, z, you, fy, f, OnFragment(me).wire, k, m);
  }

  lemma AckIsLight(seqNo: u8, pduRef: u16)
    ensures |AckFrame(seqNo, pduRef)| == 26 && Weight(AckFrame(seqNo, pduRef)) == 0
    ensures Iso(AckFrame(seqNo, pduRef)) != []
  {
  }

  lemma StepDooms(
    me: Peer, you: Peer, fm: seq<seq<u8>>, fy: seq<seq<u8>>, k: nat, m: Message, j: nat, n: Message, call: Call)
    returns (gm: seq<seq<u8>>, gy: seq<seq<u8>>)
    requires BothDoomed(me, you, fm, fy, k, m, j, n) && Ready(me, you, call) && !call.Send?
    ensures var out := Act(me, you, call);
            BothDoomed(out.peer, Hear(you, out.wire), gm, gy, k, m, j, n)
  {
    hide BothDoomed, Ready, OnAck, OnFragment, BeginReceive;
    gm, gy := fm, fy;
    match call {
      case Ack =>
        var f := AckDooms(me, you, fm, fy, k, m, j, n);
        gm, gy := fm[1..], Emitted(fy, f);
      case Receive => ReceiveDooms(me, you, fm, fy, k, m, j, n);
      case Fragment =>
        var f := FragmentDooms(me, you, fm, fy, k, m, j, n);
        gm, gy := fm[1..], Emitted(fy, f);
    }
  }

  // -- Every continuation -----------------------------------------------------------------------------

  lemma {:induction false} RunDooms(
    w: World, us: seq<Move>, fl: seq<seq<u8>>, fr: seq<seq<u8>>, k: nat, m: Message, j: nat, n: Message)
    requires BothDoomed(w.l, w.r, fl, fr, k, m, j, n) && Runs(w, us) && NoSends(us)
    ensures After(w, us).r.taken != After(w, us).l.given && After(w, us).l.taken != After(w, us).r.given
    decreases |us|
  {
    hide Doomed, Ready, Act;
    if us == [] {
      DoomedIsUndelivered(w.l, w.r, fr, k, m);
      DoomedIsUndelivered(w.r, w.l, fl, j, n);
    } else {
      var v := us[0];
      assert NoSends(us[1..]);
      if v.left {
        var gl, gr := StepDooms(w.l, w.r, fl, fr, k, m, j, n, v.call);
        RunDooms(Next(w, v), us[1..], gl, gr, k, m, j, n);
      } else {
        var gr, gl := StepDooms(w.r, w.l, fr, fl, j, n, k, m, v.call);
        RunDooms(Next(w, v), us[1..], gl, gr, k, m, j, n);
      }
    }
  }

  /** However two crossed partners go on, neither ever has what the other was given. */
  lemma CrossedNeverDeliver(w: World, us: seq<Move>)
    requires Crossed(w.l, w.r) && Runs(w, us) && NoSends(us)
    ensures After(w, us).r.taken != After(w, us).l.given && After(w, us).l.taken != After(w, us).r.given
  {
    hide Doomed, Runs, After, Iso, Agrees;
    CrossedIsDoomed(w.l, w.r);
    RunDooms(w, us, [Current(w.r)], [Current(w.l)], |w.r.taken|, w.l.mode.m, |w.l.taken|, w.r.mode.m);
  }
}
