/**
 The transmit ring of the DM9102 driver. Sixteen descriptors, each with its own buffer,
 form a ring. At most one of them is the card's at any time; the frames behind it wait,
 and the interrupt handler releases the next one when the one before is out.
 */
module DmfeTx {
  type byte = x: int | 0 <= x < 256
  type word = x: int | 0 <= x < 0x1_0000

  const TX_DESC_CNT := 16
  const TX_FREE_DESC_CNT := TX_DESC_CNT - 2
  const TX_WAKE_DESC_CNT := TX_DESC_CNT - 3
  const TX_MAX_SEND_CNT := 1
  const MAX_PACKET_SIZE := 1526
  const DMFE_MAX_MULTICAST := 14

  datatype Frame = Packet(data: seq<byte>) | Setup(words: seq<word>)

  /** A descriptor: who owns it, and the frame in its buffer. */
  datatype Desc = Desc(nic: bool, frame: Frame)

  /** What became of a frame the driver accepted. */
  datatype Fate = Sent(frame: Frame) | Lost(frame: Frame)

  function Frames(fates: seq<Fate>): (r: seq<Frame>) {
    seq(|fates|, i requires 0 <= i < |fates| => fates[i].frame)
  }

  function Wire(fates: seq<Fate>): seq<Frame> {
    if fates == [] then []
    else
      var n := |fates| - 1;
      Wire(fates[..n]) + if fates[n].Sent? then [fates[n].frame] else []
  }

  lemma WireNext(fates: seq<Fate>, t: Fate)
    ensures Wire(fates + [t]) == Wire(fates) + if t.Sent? then [t.frame] else []
    ensures Frames(fates + [t]) == Frames(fates) + [t.frame]
  {
    assert (fates + [t])[..|fates|] == fates;
  }

  function Losses(frames: seq<Frame>): (r: seq<Fate>)
    ensures |r| == |frames|
  {
    seq(|frames|, i requires 0 <= i < |frames| => Lost(frames[i]))
  }

  lemma {:induction false} LossesAreNotSent(fates: seq<Fate>, frames: seq<Frame>)
    ensures Wire(fates + Losses(frames)) == Wire(fates)
    ensures Frames(fates + Losses(frames)) == Frames(fates) + frames
    decreases |frames|
  {
    if frames == [] {
      assert fates + Losses(frames) == fates;
    } else {
      var n := |frames| - 1;
      LossesAreNotSent(fates, frames[..n]);
      assert fates + Losses(frames) == fates + Losses(frames[..n]) + [Lost(frames[n])];
      WireNext(fates + Losses(frames[..n]), Lost(frames[n]));
    }
  }

  // ---- setup frames ----

  type Address = a: seq<word> | |a| == 3 witness [0, 0, 0]

  const BROADCAST: Address := [0xffff, 0xffff, 0xffff]

  function Flat(addresses: seq<Address>): (r: seq<word>)
    ensures |r| == 3 * |addresses|
  {
    if addresses == [] then [] else Flat(addresses[..|addresses| - 1]) + addresses[|addresses| - 1]
  }

  /** The addresses a setup frame lists: the card's own, broadcast, the multicast list, filled up to fourteen. */
  function Listed(node: Address, mc: seq<Address>): seq<Address> {
    [node, BROADCAST] + mc + seq(if |mc| < DMFE_MAX_MULTICAST then DMFE_MAX_MULTICAST - |mc| else 0, _ => BROADCAST)
  }

  lemma FlatNext(addresses: seq<Address>, i: nat)
    requires i < |addresses|
    ensures Flat(addresses[..i + 1]) == Flat(addresses[..i]) + addresses[i]
  {
    assert addresses[..i + 1][..i] == addresses[..i];
  }

  /** The words that send_filter_frame writes; they fill the 0xc0 bytes of a setup frame unless the list is too long. */
  method SetupWords(node: Address, mc: seq<Address>) returns (words: seq<word>)
    ensures words == Flat(Listed(node, mc))
    ensures 4 * |words| == 0xc0 <==> |mc| <= DMFE_MAX_MULTICAST
  {
    hide Flat;
    ghost var all := Listed(node, mc);
    FlatTwo(node, all);
    words := node + BROADCAST;
    var i := 0;
    while i < |mc|
      invariant i <= |mc| && words == Flat(all[..2 + i])
    {
      FlatNext(all, 2 + i);
      words := words + mc[i];
      i := i + 1;
    }
    while i < DMFE_MAX_MULTICAST
      invariant |mc| <= i <= |all| - 2 && words == Flat(all[..2 + i])
    {
      FlatNext(all, 2 + i);
      words := words + BROADCAST;
      i := i + 1;
    }
    assert all[..2 + i] == all;
  }

  lemma FlatTwo(node: Address, all: seq<Address>)
    requires |all| >= 2 && all[0] == node && all[1] == BROADCAST
    ensures Flat(all[..2]) == node + BROADCAST
  {
    FlatNext(all, 0);
    FlatNext(all, 1);
    assert all[..0] == [];
  }

  // ---- the state ----

  /** The slot k places behind slot p. */
  function Slot(p: nat, k: nat): (r: nat)
    ensures r < TX_DESC_CNT
  {
    (p + k) % TX_DESC_CNT
  }

  lemma SlotMoves(p: nat, j: nat, k: nat)
    ensures Slot(Slot(p, j), k) == Slot(p, j + k)
  {
  }

  lemma SlotSame(p: nat, j: nat, k: nat)
    ensures Slot(p, j) == Slot(p, k) <==> j % TX_DESC_CNT == k % TX_DESC_CNT
  {
  }

  datatype State = State(
    ring: seq<Desc>, insertPtr: nat, removePtr: nat, packetCnt: nat, queueCnt: nat,
    stopped: bool,       // the network layer has been told not to send
    cardPtr: nat,        // the card's own place in the chain
    wire: seq<Frame>,    // what the card has sent
    fates: seq<Fate>)    // what became of the frames accepted before those not yet sent

  function Initial(): State {
    State(seq(TX_DESC_CNT, _ => Desc(false, Packet([]))), 0, 0, 0, 0, false, 0, [], [])
  }

  /** The frame at the remove pointer is out, and the interrupt handler has not seen it yet. */
  predicate HeadDone(s: State)
    requires s.removePtr < |s.ring|
  {
    s.packetCnt == 1 && !s.ring[s.removePtr].nic
  }

  /** How many frames the counters say are not yet sent. */
  function UnsentCount(s: State): (n: nat)
    requires s.removePtr < |s.ring|
  {
    if HeadDone(s) then s.queueCnt else s.packetCnt + s.queueCnt
  }

  predicate Shape(s: State) {
    && |s.ring| == TX_DESC_CNT && s.removePtr < TX_DESC_CNT
    && s.packetCnt <= TX_MAX_SEND_CNT && (s.queueCnt > 0 ==> s.packetCnt == 1)
    && s.cardPtr == Slot(s.removePtr, if HeadDone(s) then 1 else 0)
    && s.insertPtr == Slot(s.cardPtr, UnsentCount(s))
  }

  /** Only the descriptor at the remove pointer can be the card's. */
  predicate OneOwned(s: State)
    requires Shape(s)
  {
    forall i :: 0 <= i < TX_DESC_CNT && s.ring[i].nic ==> i == s.removePtr && s.packetCnt == 1
  }

  predicate Good(s: State) {
    Shape(s) && OneOwned(s) && s.wire == Wire(s.fates)
  }

  /** What the card will find in its descriptors from now on, in order. */
  function Unsent(s: State): (r: seq<Frame>)
    requires Shape(s)
    ensures |r| == UnsentCount(s)
  {
    seq(UnsentCount(s), k requires 0 <= k < UnsentCount(s) => s.ring[Slot(s.cardPtr, k)].frame)
  }

  /** All frames accepted so far, in order: what became of the first ones, and those not yet sent. */
  function Accepted(s: State): seq<Frame>
    requires Shape(s)
  {
    Frames(s.fates) + Unsent(s)
  }

  /** If the network layer waits, a frame is on its way out whose interrupt will wake it. */
  predicate WillWake(s: State) {
    s.stopped ==> s.packetCnt == 1
  }

  /** The laws in plain terms. */
  lemma RingLaws(s: State)
    requires Good(s)
    ensures s.insertPtr == (s.removePtr + s.packetCnt + s.queueCnt) % TX_DESC_CNT
    ensures forall i, j :: 0 <= i < j < TX_DESC_CNT ==> !(s.ring[i].nic && s.ring[j].nic)
    ensures s.queueCnt > 0 ==> s.packetCnt == 1
    ensures |Unsent(s)| >= TX_DESC_CNT <==>
            && s.packetCnt + s.queueCnt >= TX_DESC_CNT
            && (s.packetCnt + s.queueCnt == TX_DESC_CNT ==> s.ring[s.removePtr].nic)
  {
    hide Wire;
    SlotMoves(s.removePtr, if HeadDone(s) then 1 else 0, UnsentCount(s));
  }

  // ---- a frame goes into the ring ----

  /** A frame goes into the slot at the insert pointer: to the card at once if nothing is in flight, or to wait. */
  function Put(s: State, f: Frame): State
    requires s.insertPtr < TX_DESC_CNT == |s.ring|
  {
    var now := s.packetCnt == 0;
    s.(ring := s.ring[s.insertPtr := Desc(now || s.ring[s.insertPtr].nic, f)], insertPtr := Slot(s.insertPtr, 1),
       packetCnt := if now then 1 else s.packetCnt, queueCnt := if now then s.queueCnt else s.queueCnt + 1)
  }

  /** The frames that wait, after another one took the next slot: every sixteenth from there back is overwritten. */
  function Overwritten(u: seq<Frame>, f: Frame): (r: seq<Frame>)
    ensures |r| == |u|
  {
    seq(|u|, k requires 0 <= k < |u| => if k % TX_DESC_CNT == |u| % TX_DESC_CNT then f else u[k])
  }

  lemma PutShape(s: State, f: Frame)
    requires Good(s)
    ensures s.insertPtr < TX_DESC_CNT && Good(Put(s, f)) && Put(s, f).packetCnt == 1
    ensures UnsentCount(Put(s, f)) == UnsentCount(s) + 1 && Put(s, f).cardPtr == s.cardPtr
    ensures WillWake(Put(s, f))
  {
    hide Wire, Frames;
    var t := Put(s, f);
    SlotMoves(s.cardPtr, UnsentCount(s), 1);
    if s.packetCnt == 0 {
      assert Slot(s.removePtr, 0) == s.removePtr;
    } else {
      assert forall i :: 0 <= i < TX_DESC_CNT ==> t.ring[i].nic == s.ring[i].nic;
    }
  }

  /** The new frame is last; an older one is overwritten only where sixteen already wait. */
  lemma PutUnsent(s: State, f: Frame)
    requires Good(s)
    ensures s.insertPtr < TX_DESC_CNT && Shape(Put(s, f)) && Unsent(Put(s, f)) == Overwritten(Unsent(s), f) + [f]
  {
    hide Slot, Wire;
    PutShape(s, f);
    var t, u := Put(s, f), UnsentCount(s);
    forall k | 0 <= k < u + 1
      ensures Unsent(t)[k] == (Overwritten(Unsent(s), f) + [f])[k]
    {
      SlotSame(s.cardPtr, k, u);
    }
  }

  /** No frame is overwritten while fewer than sixteen wait. */
  lemma RoomKeeps(u: seq<Frame>, f: Frame)
    requires |u| < TX_DESC_CNT
    ensures Overwritten(u, f) == u
  {
  }

  /** Frames sixteen apart in the line are in one slot. */
  lemma SameSlot(s: State, k: nat)
    requires Good(s) && k < |Unsent(s)| && k % TX_DESC_CNT == |Unsent(s)| % TX_DESC_CNT
    ensures s.insertPtr < TX_DESC_CNT && Unsent(s)[k] == s.ring[s.insertPtr].frame
  {
    hide Wire, Frames;
    SlotSame(s.cardPtr, k, |Unsent(s)|);
  }

  /**
   An accepted frame is overwritten by the next one put into the ring if and only if sixteen are not yet sent: the ring
   is full and the card has not yet sent the frame at the remove pointer. All others stay, in order, before the new
   one. What is then unsent looks as if nothing were lost only if the slot held a frame equal to the new one.
   */
  lemma PutLosesIff(s: State, f: Frame)
    requires Good(s)
    ensures s.insertPtr < TX_DESC_CNT && Shape(Put(s, f)) && Unsent(Put(s, f)) == Overwritten(Unsent(s), f) + [f]
    ensures Unsent(Put(s, f)) == Unsent(s) + [f] <==> |Unsent(s)| < TX_DESC_CNT || s.ring[s.insertPtr].frame == f
    ensures |Unsent(s)| < TX_DESC_CNT <==>
            s.packetCnt + s.queueCnt < TX_DESC_CNT || (s.packetCnt + s.queueCnt == TX_DESC_CNT && HeadDone(s))
  {
    hide Slot, Wire;
    PutUnsent(s, f);
    var u := Unsent(s);
    if |u| < TX_DESC_CNT {
      RoomKeeps(u, f);
    } else {
      var k := |u| % TX_DESC_CNT;
      SameSlot(s, k);
      assert (Overwritten(u, f) + [f])[k] == f && (u + [f])[k] == u[k];
      if s.ring[s.insertPtr].frame == f {
        forall i | 0 <= i < |u|
          ensures Overwritten(u, f)[i] == u[i]
        {
          if i % TX_DESC_CNT == |u| % TX_DESC_CNT {
            SameSlot(s, i);
          }
        }
      }
    }
  }

  // ---- the card, the interrupt handler, the reset ----

  /** The card sends the frame at its place, if it owns it. */
  function SendState(s: State): State
    requires s.cardPtr < TX_DESC_CNT == |s.ring|
  {
    var d := s.ring[s.cardPtr];
    if !d.nic then s
    else s.(ring := s.ring[s.cardPtr := Desc(false, d.frame)], cardPtr := Slot(s.cardPtr, 1),
            wire := s.wire + [d.frame], fates := s.fates + [Sent(d.frame)])
  }

  /** The card has a frame to send exactly when one is in flight, and it is the first of those not yet sent. */
  lemma NextOut(s: State)
    requires Good(s)
    ensures s.cardPtr < TX_DESC_CNT && (s.ring[s.cardPtr].nic <==> s.packetCnt == 1 && !HeadDone(s))
    ensures s.ring[s.cardPtr].nic ==> Unsent(s) != [] && s.ring[s.cardPtr].frame == Unsent(s)[0]
  {
    hide Wire, Frames;
    assert Slot(s.removePtr, 0) == s.removePtr && Slot(s.cardPtr, 0) == s.cardPtr;
  }

  lemma SendKeeps(s: State)
    requires Good(s)
    ensures s.cardPtr < TX_DESC_CNT && Good(SendState(s)) && Accepted(SendState(s)) == Accepted(s)
    ensures s.packetCnt == 1 && !HeadDone(s) ==>
              Unsent(s) != [] && Unsent(SendState(s)) == Unsent(s)[1..] && SendState(s).wire == s.wire + [Unsent(s)[0]]
              && HeadDone(SendState(s))
    ensures !(s.packetCnt == 1 && !HeadDone(s)) ==> SendState(s) == s
  {
    hide Wire, Frames;
    NextOut(s);
    if s.ring[s.cardPtr].nic {
      var t, f := SendState(s), s.ring[s.cardPtr].frame;
      assert Slot(s.removePtr, 0) == s.removePtr;
      SlotMoves(s.cardPtr, 1, UnsentCount(t));
      WireNext(s.fates, Sent(f));
      forall k | 0 <= k < UnsentCount(t)
        ensures Unsent(t)[k] == Unsent(s)[1..][k]
      {
        SlotMoves(s.cardPtr, 1, k);
      }
      assert Frames(s.fates) + Unsent(s) == (Frames(s.fates) + [f]) + Unsent(s)[1..];
    }
  }

  /** The handler counts a frame that is out and moves on. */
  function ReapState(s: State): State
    requires s.removePtr < |s.ring|
  {
    if HeadDone(s) then s.(packetCnt := 0, removePtr := Slot(s.removePtr, 1)) else s
  }

  /** The next frame that waits goes to the card, and the network layer is woken when there is room. */
  function ReleaseState(s: State): State
    requires s.removePtr < TX_DESC_CNT == |s.ring|
  {
    var t := if s.packetCnt < TX_MAX_SEND_CNT && s.queueCnt > 0
             then s.(ring := s.ring[s.removePtr := Desc(true, s.ring[s.removePtr].frame)],
                     packetCnt := s.packetCnt + 1, queueCnt := s.queueCnt - 1)
             else s;
    if t.queueCnt < TX_WAKE_DESC_CNT then t.(stopped := false) else t
  }

  function IrqState(s: State): State
    requires Shape(s)
  {
    ReleaseState(ReapState(s))
  }

  lemma IrqKeeps(s: State)
    requires Good(s)
    ensures Good(IrqState(s)) && Unsent(IrqState(s)) == Unsent(s) && Accepted(IrqState(s)) == Accepted(s)
    ensures WillWake(IrqState(s)) && !HeadDone(IrqState(s))
  {
    hide Wire, Frames;
    var r, t := ReapState(s), IrqState(s);
    assert Slot(s.removePtr, 0) == s.removePtr && Slot(r.removePtr, 0) == r.removePtr;
    assert t.cardPtr == s.cardPtr == r.removePtr && UnsentCount(t) == UnsentCount(s);
    assert forall i :: 0 <= i < TX_DESC_CNT ==> t.ring[i].frame == s.ring[i].frame;
  }

  /** dmfe_descriptor_init: all descriptors are the driver's, all pointers at the first. */
  function ClearedState(s: State): State {
    s.(ring := seq(|s.ring|, i requires 0 <= i < |s.ring| => Desc(false, s.ring[i].frame)),
       insertPtr := 0, removePtr := 0, cardPtr := 0, packetCnt := 0, queueCnt := 0)
  }

  /** dmfe_dynamic_reset: what is not out is lost; then the setup frame of dmfe_init_dm910x. */
  function ResetState(s: State, f: Frame): State
    requires Shape(s)
  {
    Put(ClearedState(s.(fates := s.fates + Losses(Unsent(s)))), f).(stopped := false)
  }

  lemma ClearedKeeps(s: State)
    requires Good(s)
    ensures var t := ClearedState(s.(fates := s.fates + Losses(Unsent(s))));
            Good(t) && Unsent(t) == [] && Accepted(t) == Accepted(s)
  {
    hide Wire, Frames, Losses;
    LossesAreNotSent(s.fates, Unsent(s));
    var t := ClearedState(s.(fates := s.fates + Losses(Unsent(s))));
    assert Slot(0, 0) == 0;
    assert Shape(t) && Unsent(t) == [];
    assert Accepted(s) + [] == Accepted(s);
  }

  lemma ResetKeeps(s: State, f: Frame)
    requires Good(s)
    ensures Good(ResetState(s, f)) && Unsent(ResetState(s, f)) == [f] && Accepted(ResetState(s, f)) == Accepted(s) + [f]
    ensures WillWake(ResetState(s, f)) && ResetState(s, f).fates == s.fates + Losses(Unsent(s))
  {
    hide Wire, Frames, Losses, Slot;
    ClearedKeeps(s);
    var t := ClearedState(s.(fates := s.fates + Losses(Unsent(s))));
    PutShape(t, f);
    PutUnsent(t, f);
    var r := ResetState(s, f);
    assert Overwritten([], f) + [f] == [f];
    assert Unsent(r) == Unsent(Put(t, f));
    assert (Frames(t.fates) + []) + [f] == Frames(t.fates) + [f];
  }

  // ---- all runs ----

  datatype Event =
    | Submit(data: seq<byte>)
    | Filter(node: Address, mc: seq<Address>)
    | Card
    | TxIrq
    | Reset(node: Address, mc: seq<Address>)

  function SetupFrame(node: Address, mc: seq<Address>): Frame { Setup(Flat(Listed(node, mc))) }

  /** dmfe_start_xmit takes a packet that is not oversized while there is room for it. */
  predicate Takes(s: State, e: Event) {
    e.Submit? ==> |e.data| <= MAX_PACKET_SIZE && s.queueCnt < TX_FREE_DESC_CNT
  }

  /** The frame an event hands to the driver, when the driver takes it. */
  function Offered(e: Event): seq<Frame> {
    match e
    case Submit(data) => [Packet(data)]
    case Filter(node, mc) => [SetupFrame(node, mc)]
    case Reset(node, mc) => [SetupFrame(node, mc)]
    case _ => []
  }

  function XmitState(s: State, data: seq<byte>): State
    requires s.insertPtr < TX_DESC_CNT == |s.ring|
  {
    if !Takes(s, Submit(data)) then s.(stopped := true)
    else
      var t := Put(s, Packet(data));
      t.(stopped := t.queueCnt >= TX_FREE_DESC_CNT)
  }

  function Next(s: State, e: Event): State
    requires Shape(s)
  {
    match e
    case Submit(data) => XmitState(s, data)
    case Filter(node, mc) => Put(s, SetupFrame(node, mc))
    case Card => SendState(s)
    case TxIrq => IrqState(s)
    case Reset(node, mc) => ResetState(s, SetupFrame(node, mc))
  }

  /** A setup frame comes although sixteen frames are not yet sent. */
  predicate Collides(s: State, e: Event)
    requires Shape(s)
  {
    e.Filter? && |Unsent(s)| >= TX_DESC_CNT
  }

  /** An oversized packet meets an idle ring. */
  predicate Strands(s: State, e: Event) {
    e.Submit? && |e.data| > MAX_PACKET_SIZE && s.packetCnt == 0
  }

  lemma StopFlag(s: State, stopped: bool)
    requires Shape(s)
    ensures var t := s.(stopped := stopped);
            Shape(t) && Unsent(t) == Unsent(s) && Accepted(t) == Accepted(s) && (Good(s) ==> Good(t))
  {
  }

  /** Every event keeps the ring good, and the network layer will be woken unless it is stranded. */
  lemma NextGood(s: State, e: Event)
    requires Good(s)
    ensures Good(Next(s, e))
    ensures WillWake(Next(s, e)) <==> if e.Card? then WillWake(s) else !Strands(s, e)
  {
    hide Good, Shape, HeadDone, UnsentCount;
    ShapeOf(s);
    match e
    case Submit(data) =>
      PutShape(s, Packet(data));
      ShapeOf(Put(s, Packet(data)));
      StopFlag(Put(s, Packet(data)), Put(s, Packet(data)).queueCnt >= TX_FREE_DESC_CNT);
      StopFlag(s, true);
    case Filter(node, mc) => PutShape(s, SetupFrame(node, mc));
    case Card => SendKeeps(s);
    case TxIrq => IrqKeeps(s);
    case Reset(node, mc) => ResetKeeps(s, SetupFrame(node, mc));
  }

  lemma ShapeOf(s: State)
    requires Good(s)
    ensures Shape(s) && s.insertPtr < TX_DESC_CNT == |s.ring| && s.cardPtr < TX_DESC_CNT && s.packetCnt <= 1
    ensures s.queueCnt < TX_FREE_DESC_CNT ==> |Unsent(s)| < TX_DESC_CNT
    ensures s.packetCnt == 0 ==> Unsent(s) == []
  {
  }

  /** Every event but a collision adds the frame it hands over, if that is taken, and keeps all others in order. */
  lemma NextAccepted(s: State, e: Event)
    requires Good(s) && !Collides(s, e)
    ensures Shape(Next(s, e)) && Accepted(Next(s, e)) == Accepted(s) + if Takes(s, e) then Offered(e) else []
  {
    hide Good, Shape, HeadDone, UnsentCount, Frames, Wire, Flat, Listed;
    ShapeOf(s);
    NextGood(s, e);
    ShapeOf(Next(s, e));
    match e
    case Submit(data) =>
      StopFlag(s, true);
      if Takes(s, e) {
        PutAccepted(s, Packet(data));
        StopFlag(Put(s, Packet(data)), Put(s, Packet(data)).queueCnt >= TX_FREE_DESC_CNT);
      }
    case Filter(node, mc) => PutAccepted(s, SetupFrame(node, mc));
    case Card => SendKeeps(s);
    case TxIrq => IrqKeeps(s);
    case Reset(node, mc) => ResetKeeps(s, SetupFrame(node, mc));
  }

  lemma PutAccepted(s: State, f: Frame)
    requires Good(s) && |Unsent(s)| < TX_DESC_CNT
    ensures s.insertPtr < TX_DESC_CNT && Shape(Put(s, f)) && Accepted(Put(s, f)) == Accepted(s) + [f]
  {
    hide Good, Shape, HeadDone, UnsentCount, Frames, Slot;
    ShapeOf(s);
    PutUnsent(s, f);
    RoomKeeps(Unsent(s), f);
    assert Frames(s.fates) + (Unsent(s) + [f]) == (Frames(s.fates) + Unsent(s)) + [f];
  }

  /** A frame is gone for one of two reasons only: the card has sent it, or a reset has thrown it away. */
  lemma NextFates(s: State, e: Event)
    requires Good(s)
    ensures Next(s, e).fates == s.fates + if e.Reset? then Losses(Unsent(s))
                                          else if e.Card? && Next(s, e).wire != s.wire then [Sent(Unsent(s)[0])] else []
    ensures e.Card? && Next(s, e).wire != s.wire ==> Unsent(s) != []
    ensures !e.Card? ==> Next(s, e).wire == s.wire
  {
    NextOut(s);
    hide Wire, Frames, Losses, Slot;
    assert s.fates + [] == s.fates;
  }

  function After(events: seq<Event>): (s: State)
    ensures Good(s)
  {
    if events == [] then StartsGood(); Initial()
    else
      var n := |events| - 1;
      NextGood(After(events[..n]), events[n]);
      Next(After(events[..n]), events[n])
  }

  lemma StartsGood()
    ensures Good(Initial()) && Accepted(Initial()) == []
  {
    assert Slot(0, 0) == 0;
  }

  /** The frames that the driver took in a run, in order. */
  function Taken(events: seq<Event>): seq<Frame> {
    if events == [] then []
    else
      var n := |events| - 1;
      Taken(events[..n]) + if Takes(After(events[..n]), events[n]) then Offered(events[n]) else []
  }

  predicate NoCollision(events: seq<Event>) {
    forall i :: 0 <= i < |events| ==> !Collides(After(events[..i]), events[i])
  }

  predicate NoReset(events: seq<Event>) {
    forall i :: 0 <= i < |events| ==> !events[i].Reset?
  }

  lemma PrefixOf(events: seq<Event>, n: nat)
    requires n <= |events|
    ensures NoCollision(events) ==> NoCollision(events[..n])
    ensures NoReset(events) ==> NoReset(events[..n])
  {
    hide After, Collides;
    forall i | 0 <= i < n
      ensures events[..n][i] == events[i] && events[..n][..i] == events[..i]
    {
    }
  }

  /** Every frame taken is accounted for, in order: it was sent, it was lost to a reset, or it still waits. */
  lemma {:induction false} AllAccounted(events: seq<Event>)
    requires NoCollision(events)
    ensures Accepted(After(events)) == Taken(events) && After(events).wire == Wire(After(events).fates)
    decreases |events|
  {
    hide Next, Accepted, Good;
    if events == [] {
      StartsGood();
    } else {
      var n := |events| - 1;
      PrefixOf(events, n);
      AllAccounted(events[..n]);
      NextAccepted(After(events[..n]), events[n]);
    }
    WireOf(After(events));
  }

  lemma WireOf(s: State)
    requires Good(s)
    ensures s.wire == Wire(s.fates)
  {
  }

  /** Without a reset no frame is lost to one. */
  lemma {:induction false} AllSent(events: seq<Event>)
    requires NoReset(events)
    ensures forall i :: 0 <= i < |After(events).fates| ==> After(events).fates[i].Sent?
    ensures After(events).wire == Frames(After(events).fates)
    decreases |events|
  {
    hide Next, Good, Wire;
    if events != [] {
      var n := |events| - 1;
      PrefixOf(events, n);
      AllSent(events[..n]);
      NextFates(After(events[..n]), events[n]);
    }
    WireOf(After(events));
    SentOnly(After(events).fates);
  }

  lemma {:induction false} SentOnly(fates: seq<Fate>)
    requires forall i :: 0 <= i < |fates| ==> fates[i].Sent?
    ensures Wire(fates) == Frames(fates)
    decreases |fates|
  {
    if fates != [] {
      SentOnly(fates[..|fates| - 1]);
    }
  }

  /** Any interleaving without resets and collisions: every frame taken goes out once, in order, or still waits. */
  lemma Delivery(events: seq<Event>)
    requires NoCollision(events) && NoReset(events)
    ensures After(events).wire + Unsent(After(events)) == Taken(events)
  {
    hide After, Taken, NoCollision, NoReset, Unsent, Frames, Wire;
    AllAccounted(events);
    AllSent(events);
  }

  // ---- waking the network layer ----

  /** The last thing that happened, apart from the card sending, was that the network layer was stranded. */
  predicate Stranded(events: seq<Event>) {
    if events == [] then false
    else
      var n := |events| - 1;
      if events[n].Card? then Stranded(events[..n]) else Strands(After(events[..n]), events[n])
  }

  /**
   The network layer waits in vain exactly when an oversized packet has met an idle ring and nothing has come since.
   */
  lemma {:induction false} WakesIff(events: seq<Event>)
    ensures WillWake(After(events)) <==> !Stranded(events)
    decreases |events|
  {
    hide Next, Good;
    if events != [] {
      var n := |events| - 1;
      WakesIff(events[..n]);
      NextGood(After(events[..n]), events[n]);
    }
  }

  predicate NoFilter(events: seq<Event>) {
    forall i :: 0 <= i < |events| ==> !events[i].Filter?
  }

  predicate NoOversized(events: seq<Event>) {
    forall i :: 0 <= i < |events| ==> events[i].Submit? ==> |events[i].data| <= 1526
  }

  /**
   The network layer is held back only while thirteen frames or more wait, unless it offered an oversized packet; and
   while it is not held back, fewer than fourteen wait, so that its packet is taken, unless setup frames came between.
   */
  lemma {:induction false} HeldBack(events: seq<Event>)
    ensures NoOversized(events) && After(events).stopped ==> After(events).queueCnt >= 13
    ensures NoFilter(events) && !After(events).stopped ==>
              After(events).queueCnt < 14
              && forall data: seq<byte> :: |data| <= 1526 ==> Takes(After(events), Submit(data))
    decreases |events|
  {
    if events != [] {
      var n := |events| - 1;
      assert NoOversized(events) ==> NoOversized(events[..n]);
      assert NoFilter(events) ==> NoFilter(events[..n]);
      HeldBack(events[..n]);
      HeldNext(After(events[..n]), events[n]);
    }
  }

  lemma HeldNext(s: State, e: Event)
    requires Good(s)
    ensures (s.stopped ==> s.queueCnt >= 13) && (e.Submit? ==> |e.data| <= 1526) ==>
              (Next(s, e).stopped ==> Next(s, e).queueCnt >= 13)
    ensures (!s.stopped ==> s.queueCnt < 14) && !e.Filter? ==> (!Next(s, e).stopped ==> Next(s, e).queueCnt < 14)
  {
    hide Good, Shape, Wire, Frames, Losses, Slot;
    ShapeOf(s);
  }

  /** An oversized packet on an idle ring: the network layer is left waiting with nothing in flight to wake it. */
  lemma OversizedOnIdleRing(data: seq<byte>)
    requires |data| > MAX_PACKET_SIZE
    ensures var s := After([Submit(data)]); s.stopped && s.packetCnt == 0 && s.queueCnt == 0 && !WillWake(s)
  {
    assert [Submit(data)][..0] == [];
  }

  // ---- progress ----

  /** The card sends, and its interrupt is handled. */
  function Round(s: State): State
    requires Good(s)
  {
    NextGood(s, Card);
    Next(Next(s, Card), TxIrq)
  }

  function Rounds(s: State, n: nat): (t: State)
    requires Good(s)
    ensures Good(t)
    decreases n
  {
    if n == 0 then s
    else
      NextGood(s, Card);
      NextGood(Next(s, Card), TxIrq);
      Rounds(Round(s), n - 1)
  }

  lemma RoundSends(s: State)
    requires Good(s)
    ensures Good(Round(s)) && !HeadDone(Round(s))
    ensures !HeadDone(s) && Unsent(s) != [] ==>
              Unsent(Round(s)) == Unsent(s)[1..] && Round(s).wire == s.wire + [Unsent(s)[0]]
    ensures HeadDone(s) ==> Unsent(Round(s)) == Unsent(s) && Round(s).wire == s.wire
  {
    hide Wire, Slot;
    NextGood(s, Card);
    NextGood(Next(s, Card), TxIrq);
    SendKeeps(s);
    IrqKeeps(Next(s, Card));
  }

  /** Left alone, the card and its interrupts send every frame that waits, in order. */
  lemma {:induction false} Drains(s: State)
    requires Good(s) && !HeadDone(s)
    ensures var t := Rounds(s, |Unsent(s)|); t.wire == s.wire + Unsent(s) && Unsent(t) == []
    decreases |Unsent(s)|
  {
    hide Good, HeadDone, Unsent, Round;
    ShapeOf(s);
    RoundSends(s);
    if Unsent(s) != [] {
      var r := Round(s);
      Drains(r);
      assert (s.wire + [Unsent(s)[0]]) + Unsent(s)[1..] == s.wire + Unsent(s);
    } else {
      assert s.wire + [] == s.wire;
    }
  }

  /** The same from a state in which a frame is out and not yet counted: one interrupt first. */
  lemma DrainsAll(s: State)
    requires Good(s)
    ensures Good(Next(s, TxIrq))
    ensures var t := Rounds(Next(s, TxIrq), |Unsent(s)|); t.wire == s.wire + Unsent(s) && Unsent(t) == []
  {
    hide Good, HeadDone, Unsent, Round;
    ShapeOf(s);
    NextGood(s, TxIrq);
    IrqKeeps(s);
    IrqWire(s);
    Drains(Next(s, TxIrq));
  }

  /**
   Any run without resets and collisions, left alone at last: what was taken is what went out, once each and in
   order.
   */
  lemma AllDelivered(events: seq<Event>)
    requires NoCollision(events) && NoReset(events)
    ensures var s := After(events); Good(Next(s, TxIrq)) && Rounds(Next(s, TxIrq), |Unsent(s)|).wire == Taken(events)
  {
    hide After, Taken, NoCollision, NoReset, Unsent, Good, Next, Rounds;
    Delivery(events);
    DrainsAll(After(events));
  }

  lemma IrqWire(s: State)
    requires Good(s)
    ensures IrqState(s).wire == s.wire
  {
  }

  // ---- a run that loses a frame ----

  function Submits(datas: seq<seq<byte>>): (events: seq<Event>)
    ensures |events| == |datas|
  {
    seq(|datas|, i requires 0 <= i < |datas| => Submit(datas[i]))
  }

  function Packets(datas: seq<seq<byte>>): seq<Frame> {
    seq(|datas|, i requires 0 <= i < |datas| => Packet(datas[i]))
  }

  /** Up to fifteen packets are taken with the card not getting to send. */
  lemma {:induction false} FifteenFit(datas: seq<seq<byte>>)
    requires |datas| <= 15 && forall i :: 0 <= i < |datas| ==> |datas[i]| <= MAX_PACKET_SIZE
    ensures var s := After(Submits(datas));
            && Unsent(s) == Packets(datas) && s.fates == [] && s.wire == []
            && s.packetCnt + s.queueCnt == |datas| && !HeadDone(s)
    decreases |datas|
  {
    hide After, Slot, Wire, Frames, Good, HeadDone, Unsent, Next;
    if datas == [] {
      assert Submits(datas) == [] && Packets(datas) == [];
      AtStart();
      NothingYet();
    } else {
      var n := |datas| - 1;
      FifteenFit(datas[..n]);
      var s := After(Submits(datas[..n]));
      assert Submits(datas)[..n] == Submits(datas[..n]);
      ShapeOf(s);
      OneMore(s, datas[n]);
      assert Packets(datas) == Packets(datas[..n]) + [Packet(datas[n])];
      AfterLast(Submits(datas));
    }
  }

  lemma NothingYet()
    ensures var s := Initial();
            && Good(s) && Unsent(s) == [] && s.fates == [] && s.wire == []
            && s.packetCnt == s.queueCnt == 0 && !HeadDone(s)
  {
    StartsGood();
  }

  lemma AfterLast(events: seq<Event>)
    requires events != []
    ensures After(events) == Next(After(events[..|events| - 1]), events[|events| - 1])
  {
  }

  lemma OneMore(s: State, data: seq<byte>)
    requires Good(s) && !HeadDone(s) && s.packetCnt + s.queueCnt < 15 && |data| <= MAX_PACKET_SIZE
    ensures var t := Next(s, Submit(data));
            && Good(t) && Unsent(t) == Unsent(s) + [Packet(data)] && t.fates == s.fates && t.wire == s.wire
            && t.packetCnt + t.queueCnt == s.packetCnt + s.queueCnt + 1 && !HeadDone(t)
  {
    hide Wire, Slot;
    NextGood(s, Submit(data));
    PutUnsent(s, Packet(data));
    RoomKeeps(Unsent(s), Packet(data));
    StopFlag(Put(s, Packet(data)), Put(s, Packet(data)).queueCnt >= TX_FREE_DESC_CNT);
  }

  /** Fifteen packets and two changes of the address filter before the card sends anything: the first packet is gone. */
  lemma SecondSetupLoses(datas: seq<seq<byte>>, node: Address, mc: seq<Address>)
    requires |datas| == 15 && forall i :: 0 <= i < |datas| ==> |datas[i]| <= MAX_PACKET_SIZE
    ensures var f, s := SetupFrame(node, mc), After(Submits(datas) + [Filter(node, mc), Filter(node, mc)]);
            && s.fates == [] && s.wire == []
            && Unsent(s) == [f] + Packets(datas)[1..] + [f, f]
  {
    hide After, Slot, Wire, Frames, Flat, Listed, SetupFrame, Good, HeadDone, Unsent, Overwritten, Shape;
    var f := SetupFrame(node, mc);
    var one := Submits(datas) + [Filter(node, mc)];
    var two := one + [Filter(node, mc)];
    assert two == Submits(datas) + [Filter(node, mc), Filter(node, mc)];
    assert one[..15] == Submits(datas) && two[..16] == one;
    FifteenFit(datas);
    AfterLast(one);
    AfterLast(two);
    var s0, s1 := After(Submits(datas)), After(one);
    ShapeOf(s0);
    ShapeOf(s1);
    PutUnsent(s0, f);
    RoomKeeps(Unsent(s0), f);
    PutUnsent(s1, f);
    SixteenBack(Packets(datas), f);
  }

  lemma SixteenBack(packets: seq<Frame>, f: Frame)
    requires |packets| == 15
    ensures Overwritten(packets + [f], f) + [f] == [f] + packets[1..] + [f, f]
  {
  }

  // ---- the driver ----

  class TxRing {
    const ring: array<Desc>
    var insertPtr: nat
    var removePtr: nat
    var packetCnt: nat
    var queueCnt: nat
    var stopped: bool
    var cardPtr: nat
    var wire: seq<Frame>
    ghost var fates: seq<Fate>

    ghost function View(): State
      reads this, ring
    {
      State(ring[..], insertPtr, removePtr, packetCnt, queueCnt, stopped, cardPtr, wire, fates)
    }

    ghost predicate Valid()
      reads this, ring
    {
      Good(View())
    }

    constructor ()
      ensures Valid() && fresh(ring) && View() == Initial()
    {
      ring := new Desc[TX_DESC_CNT](_ => Desc(false, Packet([])));
      insertPtr, removePtr, packetCnt, queueCnt, cardPtr := 0, 0, 0, 0, 0;
      stopped, wire, fates := false, [], [];
      new;
      assert ring[..] == Initial().ring;
      StartsGood();
    }

    /** The part that dmfe_start_xmit and send_filter_frame share. */
    method PutFrame(f: Frame, now: bool)
      requires Valid() && (now <==> packetCnt == 0)
      modifies ring, this`insertPtr, this`packetCnt, this`queueCnt
      ensures Valid() && View() == Put(old(View()), f) && packetCnt == 1
      ensures Unsent(View()) == Overwritten(old(Unsent(View())), f) + [f]
    {
      ghost var s := View();
      hide Good, Shape, Unsent, Overwritten;
      ShapeOf(s);
      PutShape(s, f);
      PutUnsent(s, f);
      var i := insertPtr;
      ring[i] := ring[i].(frame := f);
      insertPtr := Slot(insertPtr, 1);
      if now {
        ring[i] := ring[i].(nic := true);
        packetCnt := packetCnt + 1;
      } else {
        queueCnt := queueCnt + 1;
      }
      assert View() == Put(s, f);
    }

    /** dmfe_start_xmit: the value it returns. An oversized packet is dropped with the queue still stopped. */
    method StartXmit(data: seq<byte>) returns (busy: int)
      requires Valid()
      modifies this, ring
      ensures Valid() && View() == Next(old(View()), Submit(data))
      ensures busy == 1 <==> |data| <= MAX_PACKET_SIZE && old(queueCnt) >= TX_FREE_DESC_CNT
      ensures Accepted(View())
              == old(Accepted(View())) + if Takes(old(View()), Submit(data)) then [Packet(data)] else []
      ensures WillWake(View()) <==> !Strands(old(View()), Submit(data))
    {
      ghost var s := View();
      hide Good, Shape, HeadDone, UnsentCount, Unsent, Accepted, Overwritten, Put;
      ShapeOf(s);
      NextGood(s, Submit(data));
      NextAccepted(s, Submit(data));
      stopped := true;
      StopFlag(s, true);
      if |data| > MAX_PACKET_SIZE {
        return 0;
      }
      if queueCnt >= TX_FREE_DESC_CNT {
        return 1;
      }
      IdleQueue(s);
      PutFrame(Packet(data), queueCnt == 0 && packetCnt < TX_MAX_SEND_CNT);
      PutStopped(s, Packet(data));
      if queueCnt < TX_FREE_DESC_CNT {
        stopped := false;
      }
      return 0;
    }

    /** send_filter_frame: it does not look whether there is room. */
    method SendFilterFrame(node: Address, mc: seq<Address>)
      requires Valid()
      modifies ring, this`insertPtr, this`packetCnt, this`queueCnt
      ensures Valid() && View() == Next(old(View()), Filter(node, mc))
      ensures Unsent(View()) == Overwritten(old(Unsent(View())), SetupFrame(node, mc)) + [SetupFrame(node, mc)]
      ensures |old(Unsent(View()))| < TX_DESC_CNT ==> Accepted(View()) == old(Accepted(View())) + [SetupFrame(node, mc)]
    {
      hide Good, Shape, HeadDone, UnsentCount, Unsent, Accepted, Overwritten, Put, Flat, Listed;
      ghost var s := View();
      ShapeOf(s);
      if |Unsent(s)| < TX_DESC_CNT {
        NextAccepted(s, Filter(node, mc));
      }
      var words := SetupWords(node, mc);
      PutFrame(Setup(words), packetCnt == 0);
    }

    /** The card, when it gets to its next descriptor. */
    method CardSend() returns (sent: bool)
      requires Valid()
      modifies ring, this`cardPtr, this`wire, this`fates
      ensures Valid() && View() == Next(old(View()), Card) && Accepted(View()) == old(Accepted(View()))
      ensures sent <==> old(packetCnt) == 1 && !old(HeadDone(View()))
      ensures wire == old(wire) + if sent then [old(Unsent(View()))[0]] else []
    {
      hide Good, Accepted, Unsent;
      ghost var s := View();
      ShapeOf(s);
      NextOut(s);
      SendKeeps(s);
      sent := ring[cardPtr].nic;
      if sent {
        var d := ring[cardPtr];
        ring[cardPtr] := d.(nic := false);
        wire := wire + [d.frame];
        cardPtr := Slot(cardPtr, 1);
        fates := fates + [Sent(d.frame)];
        assert View() == SendState(s);
      }
    }

    /** dmfe_free_tx_pkt. */
    method FreeTxPkt()
      requires Valid()
      modifies this, ring
      ensures Valid() && View() == Next(old(View()), TxIrq) && Unsent(View()) == old(Unsent(View()))
      ensures Accepted(View()) == old(Accepted(View())) && WillWake(View())
      ensures stopped ==> queueCnt >= TX_WAKE_DESC_CNT
      ensures !old(HeadDone(View())) ==> packetCnt + queueCnt == old(packetCnt + queueCnt)
      ensures old(HeadDone(View())) ==> packetCnt + queueCnt == old(packetCnt + queueCnt) - 1
    {
      hide Good, Accepted, Unsent, Slot;
      ghost var s := View();
      ShapeOf(s);
      IrqKeeps(s);
      var tx: nat := removePtr;
      while packetCnt > 0
        invariant tx < TX_DESC_CNT == ring.Length && ring[..] == s.ring && packetCnt <= s.packetCnt
        invariant View().(removePtr := tx) == if packetCnt < s.packetCnt then ReapState(s) else s
        invariant packetCnt < s.packetCnt ==> HeadDone(s)
      {
        if ring[tx].nic {
          break;
        }
        packetCnt := packetCnt - 1;
        tx := Slot(tx, 1);
      }
      removePtr := tx;
      assert View() == ReapState(s);
      if packetCnt < TX_MAX_SEND_CNT && queueCnt > 0 {
        ring[tx] := ring[tx].(nic := true);
        packetCnt := packetCnt + 1;
        queueCnt := queueCnt - 1;
      }
      if queueCnt < TX_WAKE_DESC_CNT {
        stopped := false;
      }
      assert View() == ReleaseState(ReapState(s));
    }

    /** The transmit half of dmfe_descriptor_init. */
    method DescriptorInit()
      requires ring.Length == TX_DESC_CNT && packetCnt == 0 && queueCnt == 0
      modifies ring, this`insertPtr, this`removePtr, this`cardPtr
      ensures View() == ClearedState(old(View()))
    {
      insertPtr, removePtr, cardPtr := 0, 0, 0;
      for i := 0 to TX_DESC_CNT
        modifies ring
        invariant forall k :: 0 <= k < TX_DESC_CNT ==> ring[k] == if k < i then Desc(false, old(ring[k]).frame)
                                                             else old(ring[k])
      {
        ring[i] := ring[i].(nic := false);
      }
    }

    /** dmfe_dynamic_reset, transmit half, with the setup frame of dmfe_init_dm910x. */
    method DynamicReset(node: Address, mc: seq<Address>)
      requires Valid()
      modifies this, ring
      ensures Valid() && View() == Next(old(View()), Reset(node, mc)) && wire == old(wire) && !stopped
      ensures fates == old(fates) + Losses(old(Unsent(View())))
      ensures Unsent(View()) == [SetupFrame(node, mc)]
    {
      hide Good, Accepted, Unsent, Losses, Put, Flat, Listed, Overwritten, HeadDone, UnsentCount;
      ghost var s := View();
      ShapeOf(s);
      ClearedKeeps(s);
      ResetKeeps(s, SetupFrame(node, mc));
      stopped := true;
      fates := fates + Losses(Unsent(s));
      packetCnt, queueCnt := 0, 0;
      DescriptorInit();
      ghost var t := ClearedState(s.(fates := s.fates + Losses(Unsent(s))));
      assert View() == t.(stopped := true);
      ShapeOf(t);
      StopFlag(t, true);
      SendFilterFrame(node, mc);
      PutStopped(t, SetupFrame(node, mc));
      stopped := false;
    }
  }

  lemma IdleQueue(s: State)
    requires Good(s)
    ensures s.queueCnt == 0 && s.packetCnt < TX_MAX_SEND_CNT <==> s.packetCnt == 0
  {
  }

  lemma PutStopped(s: State, f: Frame)
    requires s.insertPtr < TX_DESC_CNT == |s.ring|
    ensures Put(s.(stopped := true), f) == Put(s, f).(stopped := true)
    ensures forall b :: Put(s, f).(stopped := true).(stopped := b) == Put(s, f).(stopped := b)
  {
  }

  /** The driver follows the runs above, event by event. */
  method Run(events: seq<Event>) returns (wire: seq<Frame>, took: seq<bool>)
    ensures wire == After(events).wire
    ensures |took| == |events| && forall i :: 0 <= i < |events| ==> took[i] == Takes(After(events[..i]), events[i])
  {
    hide After, Next, Good, Accepted, Unsent, HeadDone;
    var dev := new TxRing();
    took := [];
    AtStart();
    for i := 0 to |events|
      invariant dev.Valid() && fresh(dev) && fresh(dev.ring) && |took| == i && dev.View() == After(events[..i])
      invariant forall k :: 0 <= k < i ==> took[k] == Takes(After(events[..k]), events[k])
    {
      assert events[..i + 1][..i] == events[..i];
      AfterLast(events[..i + 1]);
      var taken := true;
      match events[i] {
        case Submit(data) =>
          taken := |data| <= MAX_PACKET_SIZE && dev.queueCnt < TX_FREE_DESC_CNT;
          var busy := dev.StartXmit(data);
        case Filter(node, mc) => dev.SendFilterFrame(node, mc);
        case Card => var sent := dev.CardSend();
        case TxIrq => dev.FreeTxPkt();
        case Reset(node, mc) => dev.DynamicReset(node, mc);
      }
      took := took + [taken];
    }
    assert events[..|events|] == events;
    wire := dev.wire;
  }

  lemma AtStart()
    ensures After([]) == Initial()
  {
  }
}
