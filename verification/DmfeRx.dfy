/**
 The receive ring of the DM9102 driver. Thirty-two descriptors form a ring that driver and
 network card share: the driver arms a descriptor with a buffer and gives it to the card,
 the card stores a frame in the buffer and gives the descriptor back.
 */
module DmfeRx {
  type byte = x: int | 0 <= x < 256

  const RX_DESC_CNT := 0x20
  const RX_ALLOC_SIZE := 0x620
  const RX_COPY_SIZE := RX_ALLOC_SIZE

  /** A frame as the card stores it: the flags and length that go into rdes0, and the bytes. */
  datatype Frame = Frame(firstAndLast: bool, error: bool, length: nat, bytes: seq<byte>) {
    /** The length counts the four bytes of the frame check sequence. */
    function RxLen(): int { length - 4 }
  }

  /** The card stores at least the four bytes of the check sequence and all the bytes it counts. */
  type Stored = f: Frame | 4 <= f.length <= |f.bytes| + 4 witness Frame(true, false, 4, [])

  /** A descriptor: who owns it, what the card reported, and the buffer's address. */
  datatype Desc = Desc(nic: bool, firstAndLast: bool, error: bool, length: nat, skb: nat)

  /** cal_CRC against the trailing word, and cal_ICMP; both look at the received bytes only. */
  datatype Checks = Checks(crcFails: (seq<byte>, int) -> bool, icmpFails: seq<byte> -> bool)

  // ---- what becomes of a frame ----

  predicate Whole(promiscuous: bool, f: Frame) {
    f.firstAndLast && (!f.error || (promiscuous && f.RxLen() > 6))
  }

  predicate Suspect(ck: Checks, mode: nat, f: Frame) {
    (mode % 2 == 1 && ck.crcFails(f.bytes, f.RxLen())) || ck.icmpFails(f.bytes)
  }

  /** What became of a frame the card stored: handled, with the flags of that moment, or dropped by a reset. */
  datatype Fate = Handled(frame: Stored, promiscuous: bool, mode: nat) | Dropped(frame: Stored)

  predicate GoesUp(ck: Checks, t: Fate) {
    t.Handled? && Whole(t.promiscuous, t.frame) && !Suspect(ck, t.mode, t.frame)
  }

  /** A whole frame that fails its checks sets the check mode to 3. */
  function ModeAfter(ck: Checks, promiscuous: bool, mode: nat, f: Frame): nat {
    if Whole(promiscuous, f) && Suspect(ck, mode, f) then 3 else mode
  }

  /** The data that go up to the network layer, and the frames, in order. */
  function PassedUp(ck: Checks, fates: seq<Fate>): seq<seq<byte>> {
    if fates == [] then []
    else
      var n := |fates| - 1;
      PassedUp(ck, fates[..n]) + if GoesUp(ck, fates[n]) then [fates[n].frame.bytes[..fates[n].frame.RxLen()]] else []
  }

  function Frames(fates: seq<Fate>): (r: seq<Stored>) {
    seq(|fates|, i requires 0 <= i < |fates| => fates[i].frame)
  }

  lemma PassedUpNext(ck: Checks, fates: seq<Fate>, t: Fate)
    ensures PassedUp(ck, fates + [t])
         == PassedUp(ck, fates) + if GoesUp(ck, t) then [t.frame.bytes[..t.frame.RxLen()]] else []
    ensures Frames(fates + [t]) == Frames(fates) + [t.frame]
  {
    assert (fates + [t])[..|fates|] == fates;
  }

  // ---- the ring as a queue ----

  /** The slot k places after front. */
  function At(front: nat, k: nat): nat
    requires front < RX_DESC_CNT && k <= RX_DESC_CNT
  {
    if front + k < RX_DESC_CNT then front + k else front + k - RX_DESC_CNT
  }

  /** The ring holds the window from front on, and everything else is the driver's. */
  ghost predicate Holds(ring: seq<Desc>, front: nat, win: seq<Desc>) {
    && |ring| == RX_DESC_CNT && front < RX_DESC_CNT && |win| <= RX_DESC_CNT
    && (forall k :: 0 <= k < |win| ==> ring[At(front, k)] == win[k])
    && (forall k :: |win| <= k < RX_DESC_CNT ==> !ring[At(front, k)].nic)
  }

  lemma AtNext(front: nat, n: nat)
    requires front < RX_DESC_CNT && 1 <= n <= RX_DESC_CNT
    ensures At(At(front, 1), n - 1) == At(front, n) == At(At(front, n - 1), 1)
  {
  }

  lemma Shape(ring: seq<Desc>, front: nat, win: seq<Desc>)
    requires Holds(ring, front, win)
    ensures |ring| == RX_DESC_CNT && front < RX_DESC_CNT && |win| <= RX_DESC_CNT
  {
  }

  lemma Popped(ring: seq<Desc>, front: nat, win: seq<Desc>)
    requires Holds(ring, front, win) && win != [] && !win[0].nic
    ensures Holds(ring, At(front, 1), win[1..])
    ensures At(At(front, 1), |win| - 1) == At(front, |win|)
  {
    var next := At(front, 1);
    forall k | 0 <= k < |win| - 1
      ensures ring[At(next, k)] == win[1..][k]
    {
      assert At(next, k) == At(front, k + 1);
    }
    forall k | |win| - 1 <= k < RX_DESC_CNT
      ensures !ring[At(next, k)].nic
    {
      assert At(next, k) == At(front, if k + 1 < RX_DESC_CNT then k + 1 else 0);
    }
  }

  lemma Pushed(ring: seq<Desc>, front: nat, win: seq<Desc>, d: Desc)
    requires Holds(ring, front, win) && |win| < RX_DESC_CNT
    ensures Holds(ring[At(front, |win|) := d], front, win + [d])
    ensures At(At(front, |win|), 1) == At(front, |win| + 1)
  {
  }

  lemma Changed(ring: seq<Desc>, front: nat, win: seq<Desc>, k: nat, d: Desc)
    requires Holds(ring, front, win) && k < |win|
    ensures Holds(ring[At(front, k) := d], front, win[k := d])
  {
  }

  // ---- what is in the window ----

  /** The first descriptors are the card's answers, in order; the card owns the rest. */
  ghost predicate Answers(win: seq<Desc>, mem: map<nat, seq<byte>>, pending: seq<Frame>) {
    && |pending| <= |win|
    && (forall k :: 0 <= k < |win| ==> win[k].skb in mem)
    && (forall k :: 0 <= k < |pending| ==> Answer(win[k], mem, pending[k]))
    && (forall k :: |pending| <= k < |win| ==> win[k].nic)
  }

  ghost predicate Answer(d: Desc, mem: map<nat, seq<byte>>, f: Frame)
    requires d.skb in mem
  {
    !d.nic && d.firstAndLast == f.firstAndLast && d.error == f.error && d.length == f.length && mem[d.skb] == f.bytes
  }

  ghost predicate Distinct(win: seq<Desc>) {
    forall j, k :: 0 <= j < k < |win| ==> win[j].skb != win[k].skb
  }

  /** The buffers in the window are pairwise distinct, and they are the held ones. */
  ghost predicate Buffers(win: seq<Desc>, held: set<nat>) {
    && Distinct(win)
    && |held| == |win|
    && (forall k :: 0 <= k < |win| ==> win[k].skb in held)
  }

  /** Every buffer ever allocated is in exactly one place. */
  ghost predicate Accounted(mem: map<nat, seq<byte>>, held: set<nat>, loose: set<nat>, upper: set<nat>,
                            freed: set<nat>) {
    && mem.Keys == held + loose + upper + freed
    && held !! loose && held !! upper && held !! freed
    && loose !! upper && loose !! freed && upper !! freed
  }

  ghost predicate Below(mem: map<nat, seq<byte>>, next: nat) {
    forall b :: b in mem ==> b < next
  }

  /** What went up stays as it was: buf holds data from its start on. */
  datatype Packet = Packet(buf: nat, data: seq<byte>)

  ghost predicate Intact(delivered: seq<Packet>, mem: map<nat, seq<byte>>, upper: set<nat>) {
    forall i :: 0 <= i < |delivered| ==>
      delivered[i].buf in upper && delivered[i].buf in mem && delivered[i].data <= mem[delivered[i].buf]
  }

  function Data(delivered: seq<Packet>): (r: seq<seq<byte>>) {
    seq(|delivered|, i requires 0 <= i < |delivered| => delivered[i].data)
  }

  /** A buffer in hand belongs nowhere else; it can be armed or given up. */
  lemma LooseBuffer(mem: map<nat, seq<byte>>, held: set<nat>, loose: set<nat>, skb: nat, upper: set<nat>,
                    freed: set<nat>)
    requires Accounted(mem, held, loose, upper, freed) && skb in loose
    ensures skb in mem && skb !in held && skb !in upper
    ensures Accounted(mem, held + {skb}, loose - {skb}, upper, freed)
    ensures Accounted(mem, held, loose - {skb}, upper + {skb}, freed)
  {
  }

  lemma TakenBuffer(mem: map<nat, seq<byte>>, held: set<nat>, skb: nat, upper: set<nat>, freed: set<nat>)
    requires Accounted(mem, held, {}, upper, freed) && skb in held
    ensures skb in mem && Accounted(mem, held - {skb}, {skb}, upper, freed)
  {
  }

  lemma NewBuffer(mem: map<nat, seq<byte>>, held: set<nat>, loose: set<nat>, skb: nat, upper: set<nat>, freed: set<nat>,
                  bytes: seq<byte>)
    requires Accounted(mem, held, loose, upper, freed) && skb !in mem
    ensures Accounted(mem[skb := bytes], held, loose + {skb}, upper, freed)
  {
    assert mem[skb := bytes].Keys == mem.Keys + {skb};
    assert skb !in held && skb !in loose && skb !in upper && skb !in freed;
  }

  lemma WrittenBuffer(mem: map<nat, seq<byte>>, held: set<nat>, loose: set<nat>, skb: nat, upper: set<nat>,
                      freed: set<nat>, bytes: seq<byte>)
    requires Accounted(mem, held, loose, upper, freed) && skb in held
    ensures Accounted(mem[skb := bytes], held, loose, upper, freed) && skb in mem && skb !in upper
    ensures forall next :: Below(mem, next) ==> Below(mem[skb := bytes], next)
  {
    assert mem[skb := bytes].Keys == mem.Keys;
  }

  /** Writing outside what the network layer has leaves what it has. */
  lemma IntactStays(delivered: seq<Packet>, mem: map<nat, seq<byte>>, upper: set<nat>, skb: nat, bytes: seq<byte>)
    requires Intact(delivered, mem, upper) && (skb !in upper || skb !in mem)
    ensures Intact(delivered, mem[skb := bytes], upper)
  {
  }

  // ---- one step on the window ----

  lemma AllocWindow(win: seq<Desc>, mem: map<nat, seq<byte>>, pending: seq<Frame>, skb: nat, bytes: seq<byte>)
    requires Answers(win, mem, pending) && skb !in mem
    ensures Answers(win, mem[skb := bytes], pending)
  {
    forall k | 0 <= k < |pending|
      ensures Answer(win[k], mem[skb := bytes], pending[k])
    {
      assert Answer(win[k], mem, pending[k]);
    }
  }

  lemma PoppedWindow(win: seq<Desc>, mem: map<nat, seq<byte>>, pending: seq<Frame>, held: set<nat>)
    requires win != [] && !win[0].nic && Answers(win, mem, pending) && Buffers(win, held)
    ensures pending != [] && Answer(win[0], mem, pending[0])
    ensures Answers(win[1..], mem, pending[1..]) && Buffers(win[1..], held - {win[0].skb})
  {
    assert pending != [];
    assert Answer(win[0], mem, pending[0]);
    forall k | 0 <= k < |win| - 1
      ensures win[1..][k] == win[k + 1]
      ensures win[k + 1].skb in held - {win[0].skb}
    {
      assert win[0].skb != win[k + 1].skb;
    }
  }

  lemma PushedWindow(win: seq<Desc>, mem: map<nat, seq<byte>>, pending: seq<Frame>, held: set<nat>, d: Desc)
    requires Answers(win, mem, pending) && Buffers(win, held) && d.nic && d.skb in mem && d.skb !in held
    ensures Answers(win + [d], mem, pending) && Buffers(win + [d], held + {d.skb})
  {
    var all := win + [d];
    forall k | 0 <= k < |all|
      ensures all[k].skb in held + {d.skb}
      ensures k < |win| ==> all[k].skb != d.skb
      ensures all[k].skb in mem
      ensures k < |pending| ==> Answer(all[k], mem, pending[k])
    {
      if k < |win| {
        assert all[k] == win[k];
      }
    }
  }

  /** The card stores a frame in the first descriptor it owns. */
  lemma StoredWindow(win: seq<Desc>, mem: map<nat, seq<byte>>, pending: seq<Frame>, held: set<nat>, f: Frame)
    requires Answers(win, mem, pending) && Buffers(win, held) && |pending| < |win|
    ensures var k := |pending|;
            var d := Desc(false, f.firstAndLast, f.error, f.length, win[k].skb);
            var mem' := mem[win[k].skb := f.bytes];
            && Answers(win[k := d], mem', pending + [f])
            && Buffers(win[k := d], held)
  {
    var k := |pending|;
    var d := Desc(false, f.firstAndLast, f.error, f.length, win[k].skb);
    var mem' := mem[win[k].skb := f.bytes];
    forall j | 0 <= j < k
      ensures Answer(win[k := d][j], mem', (pending + [f])[j])
    {
      assert Answer(win[j], mem, pending[j]);
      assert win[j].skb != win[k].skb;
    }
  }

  // ---- the whole state ----

  /** The driver's and the card's state, with the buffers, what went up, and what became of each frame. */
  datatype State = State(
    ring: seq<Desc>, availCnt: nat, insertPtr: nat, cardPtr: nat, next: nat, mem: map<nat, seq<byte>>,
    delivered: seq<Packet>,
    win: seq<Desc>,         // the window of descriptors that hold a buffer
    pending: seq<Stored>,   // frames stored and not yet handled
    fates: seq<Fate>,       // what became of the frames before those
    held: set<nat>,         // buffers in the window
    upper: set<nat>,        // buffers given to the network layer
    freed: set<nat>)        // buffers given back to the allocator

  /** Between two steps of a loop that stands at front and has some buffers in hand. */
  ghost predicate Good(ck: Checks, s: State, front: nat, loose: set<nat>) {
    && Holds(s.ring, front, s.win)
    && s.availCnt == |s.win| && s.insertPtr == At(front, |s.win|)
    && Answers(s.win, s.mem, s.pending)
    && s.cardPtr == At(front, |s.pending|)
    && Buffers(s.win, s.held)
    && Accounted(s.mem, s.held, loose, s.upper, s.freed)
    && Below(s.mem, s.next)
    && Intact(s.delivered, s.mem, s.upper)
    && Data(s.delivered) == PassedUp(ck, s.fates)
  }

  function Armed(skb: nat): Desc { Desc(true, false, false, 0, skb) }

  /** The next free slot is armed with a buffer in hand. */
  ghost function ArmState(s: State, skb: nat): State
    requires s.insertPtr < RX_DESC_CNT == |s.ring|
  {
    s.(ring := s.ring[s.insertPtr := Armed(skb)], insertPtr := At(s.insertPtr, 1),
       availCnt := s.availCnt + 1, win := s.win + [Armed(skb)], held := s.held + {skb})
  }

  lemma ArmKeeps(ck: Checks, s: State, front: nat, loose: set<nat>, skb: nat)
    requires Good(ck, s, front, loose) && skb in loose && s.availCnt < RX_DESC_CNT
    ensures s.insertPtr < RX_DESC_CNT == |s.ring| && !s.ring[s.insertPtr].nic
    ensures Good(ck, ArmState(s, skb), front, loose - {skb})
  {
    assert Holds(s.ring, front, s.win);
    Pushed(s.ring, front, s.win, Armed(skb));
    LooseBuffer(s.mem, s.held, loose, skb, s.upper, s.freed);
    PushedWindow(s.win, s.mem, s.pending, s.held, Armed(skb));
    hide Holds, Answers, Buffers, PassedUp, Data, Accounted, Intact;
  }

  /** A new buffer with some contents is in hand. */
  ghost function AllocState(s: State, bytes: seq<byte>): State {
    s.(mem := s.mem[s.next := bytes], next := s.next + 1)
  }

  lemma AllocKeeps(ck: Checks, s: State, front: nat, loose: set<nat>, bytes: seq<byte>)
    requires Good(ck, s, front, loose)
    ensures s.next !in s.mem && Good(ck, AllocState(s, bytes), front, loose + {s.next})
  {
    hide Holds, Answers, Buffers, PassedUp, Data, Accounted, Intact;
    assert s.next !in s.mem;
    NewBuffer(s.mem, s.held, loose, s.next, s.upper, s.freed, bytes);
    AllocWindow(s.win, s.mem, s.pending, s.next, bytes);
    IntactStays(s.delivered, s.mem, s.upper, s.next, bytes);
  }

  lemma AddKeeps(ck: Checks, s: State, front: nat)
    requires Good(ck, s, front, {}) && s.availCnt < RX_DESC_CNT
    ensures s.insertPtr < RX_DESC_CNT == |s.ring|
    ensures Good(ck, ArmState(AllocState(s, []), s.next), front, {})
  {
    hide Good;
    AllocKeeps(ck, s, front, {}, []);
    ArmKeeps(ck, AllocState(s, []), front, {} + {s.next}, s.next);
    assert {} + {s.next} - {s.next} == {};
  }

  /** The loop takes the descriptor it stands at out of the window. */
  ghost function PopState(s: State): State
    requires s.win != [] && s.pending != [] && s.availCnt > 0
  {
    s.(availCnt := s.availCnt - 1, win := s.win[1..], pending := s.pending[1..], held := s.held - {s.win[0].skb})
  }

  lemma AnswersShape(win: seq<Desc>, mem: map<nat, seq<byte>>, pending: seq<Frame>)
    requires Answers(win, mem, pending)
    ensures |pending| <= |win|
  {
  }

  lemma FirstHeld(win: seq<Desc>, held: set<nat>)
    requires Buffers(win, held) && win != []
    ensures win[0].skb in held
  {
  }

  lemma PopKeeps(ck: Checks, s: State, front: nat)
    requires Good(ck, s, front, {}) && front < |s.ring| && s.availCnt > 0 && !s.ring[front].nic
    ensures s.pending != [] && |s.ring| == RX_DESC_CNT && s.ring[front].skb in s.mem && s.availCnt <= RX_DESC_CNT
    ensures s.win != [] && s.win[0] == s.ring[front] && Answer(s.ring[front], s.mem, s.pending[0])
    ensures Good(ck, PopState(s), At(front, 1), {s.ring[front].skb})
  {
    hide Answers, Buffers, PassedUp, Data, Intact, Accounted;
    assert Holds(s.ring, front, s.win) && At(front, 0) == front
           && |s.pending| <= |s.win| by { AnswersShape(s.win, s.mem, s.pending); }
    assert s.ring[At(front, 0)] == s.win[0];
    hide Holds;
    FirstHeld(s.win, s.held);
    Popped(s.ring, front, s.win);
    PoppedWindow(s.win, s.mem, s.pending, s.held);
    TakenBuffer(s.mem, s.held, s.win[0].skb, s.upper, s.freed);
    AtNext(front, |s.pending|);
  }

  /** A buffer in hand goes up with some data. */
  ghost function UpState(s: State, skb: nat, data: seq<byte>, t: Fate): State {
    s.(delivered := s.delivered + [Packet(skb, data)], upper := s.upper + {skb}, fates := s.fates + [t])
  }

  lemma UpKeeps(ck: Checks, s: State, front: nat, loose: set<nat>, skb: nat, data: seq<byte>, t: Fate)
    requires Good(ck, s, front, loose) && skb in loose && skb in s.mem && data <= s.mem[skb]
    requires GoesUp(ck, t) && data == t.frame.bytes[..t.frame.RxLen()]
    ensures Good(ck, UpState(s, skb, data, t), front, loose - {skb})
  {
    hide Holds, Answers, Buffers, PassedUp, GoesUp;
    LooseBuffer(s.mem, s.held, loose, skb, s.upper, s.freed);
    PassedUpNext(ck, s.fates, t);
    hide Accounted;
    assert Data(s.delivered + [Packet(skb, data)]) == Data(s.delivered) + [data];
  }

  /** A frame is done with and nothing goes up. */
  lemma QuietKeeps(ck: Checks, s: State, front: nat, loose: set<nat>, t: Fate)
    requires Good(ck, s, front, loose) && !GoesUp(ck, t)
    ensures Good(ck, s.(fates := s.fates + [t]), front, loose)
  {
    hide Holds, Answers, Buffers, PassedUp, GoesUp, Data, Accounted, Intact;
    PassedUpNext(ck, s.fates, t);
  }

  /** The card stores a frame in the first descriptor it owns. */
  ghost function StoreState(s: State, front: nat, f: Stored): State
    requires front < RX_DESC_CNT == |s.ring| && |s.pending| < |s.win| <= RX_DESC_CNT && s.cardPtr < RX_DESC_CNT
  {
    var k := |s.pending|;
    var d := Desc(false, f.firstAndLast, f.error, f.length, s.win[k].skb);
    s.(ring := s.ring[At(front, k) := d], win := s.win[k := d], mem := s.mem[d.skb := f.bytes],
       pending := s.pending + [f], cardPtr := At(s.cardPtr, 1))
  }

  lemma CardWindow(ring: seq<Desc>, front: nat, win: seq<Desc>, mem: map<nat, seq<byte>>, pending: seq<Frame>)
    requires Holds(ring, front, win) && Answers(win, mem, pending)
    ensures ring[At(front, |pending|)].nic <==> |pending| < |win|
    ensures ring[front].nic ==> pending == []
  {
    assert At(front, 0) == front;
    if pending != [] {
      assert Answer(win[0], mem, pending[0]);
      assert ring[At(front, 0)] == win[0];
    }
    if |pending| < |win| {
      assert win[|pending|].nic;
    }
  }

  /** The card owns the descriptor it stands at exactly when there is one left to fill. */
  lemma CardSlot(ck: Checks, s: State, front: nat, loose: set<nat>)
    requires Good(ck, s, front, loose)
    ensures s.cardPtr < RX_DESC_CNT == |s.ring| && front < RX_DESC_CNT
            && |s.pending| <= |s.win| == s.availCnt <= RX_DESC_CNT
    ensures s.cardPtr == At(front, |s.pending|)
    ensures s.ring[s.cardPtr].nic <==> |s.pending| < |s.win|
    ensures s.ring[front].nic ==> s.pending == []
  {
    hide Buffers, Accounted, Intact, Data, PassedUp;
    assert Holds(s.ring, front, s.win);
    CardWindow(s.ring, front, s.win, s.mem, s.pending);
  }

  lemma NextToFill(ring: seq<Desc>, front: nat, win: seq<Desc>, mem: map<nat, seq<byte>>, pending: seq<Frame>,
                   held: set<nat>)
    requires Holds(ring, front, win) && Answers(win, mem, pending) && Buffers(win, held) && |pending| < |win|
    ensures var d := win[|pending|]; ring[At(front, |pending|)] == d && d.nic && d.skb in held
  {
  }

  lemma StoreKeeps(ck: Checks, s: State, front: nat, loose: set<nat>, f: Stored)
    requires Good(ck, s, front, loose) && |s.pending| < |s.win|
    ensures front < RX_DESC_CNT == |s.ring| && |s.win| <= RX_DESC_CNT && s.cardPtr == At(front, |s.pending|)
    ensures var d := s.ring[At(front, |s.pending|)]; d.nic && d == s.win[|s.pending|]
    ensures Good(ck, StoreState(s, front, f), front, loose)
  {
    var k := |s.pending|;
    var d := Desc(false, f.firstAndLast, f.error, f.length, s.win[k].skb);
    hide PassedUp, Data, Accounted, Intact, Holds, Answers, Buffers, Below;
    Shape(s.ring, front, s.win);
    NextToFill(s.ring, front, s.win, s.mem, s.pending, s.held);
    AtNext(front, k + 1);
    Changed(s.ring, front, s.win, k, d);
    StoredWindow(s.win, s.mem, s.pending, s.held, f);
    WrittenBuffer(s.mem, s.held, loose, d.skb, s.upper, s.freed, f.bytes);
    IntactStays(s.delivered, s.mem, s.upper, d.skb, f.bytes);
  }

  // ---- emptying the ring ----

  ghost predicate Laid(ring: seq<Desc>, front: nat, win: seq<Desc>) {
    && |ring| == RX_DESC_CNT && front < RX_DESC_CNT && |win| <= RX_DESC_CNT
    && forall k :: 0 <= k < |win| ==> ring[At(front, k)] == win[k]
  }

  /** The window without regard to who owns what; the card has been stopped. */
  ghost predicate Stopped(ck: Checks, s: State, front: nat) {
    && Laid(s.ring, front, s.win) && s.availCnt == |s.win|
    && Buffers(s.win, s.held)
    && Accounted(s.mem, s.held, {}, s.upper, s.freed)
    && Below(s.mem, s.next)
    && Intact(s.delivered, s.mem, s.upper)
    && Data(s.delivered) == PassedUp(ck, s.fates)
  }

  lemma StopsGood(ck: Checks, s: State, front: nat)
    requires Good(ck, s, front, {})
    ensures Stopped(ck, s, front)
  {
    hide Answers, Buffers, PassedUp, Data, Accounted, Intact, Below;
    assert Holds(s.ring, front, s.win);
  }

  ghost function FreeState(s: State): State
    requires s.win != [] && s.availCnt > 0
  {
    s.(availCnt := s.availCnt - 1, win := s.win[1..], held := s.held - {s.win[0].skb},
        freed := s.freed + {s.win[0].skb})
  }

  lemma FreeKeeps(ck: Checks, s: State, front: nat)
    requires Stopped(ck, s, front) && s.availCnt > 0
    ensures s.ring[front] == s.win[0] && s.win[0].skb in s.held && s.win[0].skb !in s.freed
    ensures Stopped(ck, FreeState(s), At(front, 1))
  {
    hide PassedUp, Data, Intact, Below, Buffers, Accounted, Laid;
    LaidRest(s.ring, front, s.win);
    FreedWindow(s.win, s.held);
    FirstHeld(s.win, s.held);
    FreedBuffer(s.mem, s.held, s.win[0].skb, s.upper, s.freed);
  }

  lemma LaidRest(ring: seq<Desc>, front: nat, win: seq<Desc>)
    requires Laid(ring, front, win) && win != []
    ensures ring[front] == win[0] && Laid(ring, At(front, 1), win[1..])
  {
    assert At(front, 0) == front;
    forall k | 0 <= k < |win| - 1
      ensures ring[At(At(front, 1), k)] == win[1..][k]
    {
      AtNext(front, k + 1);
    }
  }

  lemma FreedWindow(win: seq<Desc>, held: set<nat>)
    requires win != [] && Buffers(win, held)
    ensures Buffers(win[1..], held - {win[0].skb})
  {
    forall k | 0 <= k < |win| - 1
      ensures win[1..][k].skb in held - {win[0].skb}
    {
      assert win[0].skb != win[k + 1].skb;
    }
  }

  lemma FreedBuffer(mem: map<nat, seq<byte>>, held: set<nat>, skb: nat, upper: set<nat>, freed: set<nat>)
    requires Accounted(mem, held, {}, upper, freed) && skb in held
    ensures skb !in freed && Accounted(mem, held - {skb}, {}, upper, freed + {skb})
  {
  }

  /** Frames that no one will handle any more. */
  function Drops(frames: seq<Stored>): (r: seq<Fate>)
    ensures |r| == |frames|
  {
    seq(|frames|, i requires 0 <= i < |frames| => Dropped(frames[i]))
  }

  lemma {:induction false} DropsPassNothing(ck: Checks, fates: seq<Fate>, frames: seq<Stored>)
    ensures PassedUp(ck, fates + Drops(frames)) == PassedUp(ck, fates)
    ensures Frames(fates + Drops(frames)) == Frames(fates) + frames
    decreases |frames|
  {
    if frames == [] {
      assert fates + Drops(frames) == fates;
    } else {
      var n := |frames| - 1;
      DropsPassNothing(ck, fates, frames[..n]);
      assert fates + Drops(frames) == fates + Drops(frames[..n]) + [Dropped(frames[n])];
      PassedUpNext(ck, fates + Drops(frames[..n]), Dropped(frames[n]));
    }
  }

  /** An empty ring with all descriptors the driver's is good again. */
  lemma StartsGood(ck: Checks, s: State)
    requires Stopped(ck, s, 0) && s.availCnt == 0 && s.pending == [] && s.insertPtr == s.cardPtr == 0
    requires forall k :: 0 <= k < RX_DESC_CNT ==> !s.ring[k].nic
    ensures Good(ck, s, 0, {})
  {
    hide Buffers, PassedUp, Data, Accounted, Intact, Below;
  }

  // ---- what a run comes to ----

  /**
   How many descriptors have a buffer, the frames stored and not yet handled, what became of those before, the check
   mode.
   */
  datatype Abs = Abs(avail: nat, pending: seq<Stored>, fates: seq<Fate>, mode: nat)

  predicate AbsOk(a: Abs) {
    |a.pending| <= a.avail <= RX_DESC_CNT
  }

  function Min(a: int, b: int): int { if a < b then a else b }

  /** The card stores frames until it comes to a descriptor that is not its own; the others are missed. */
  function Hear(a: Abs, frames: seq<Stored>): (b: Abs)
    requires AbsOk(a)
    ensures AbsOk(b)
  {
    a.(pending := a.pending + frames[..Min(|frames|, a.avail - |a.pending|)])
  }

  /** The oldest frame is handled; a frame that is too long to be copied goes up with its buffer. */
  function HandleOne(ck: Checks, promiscuous: bool, a: Abs): (b: Abs)
    requires AbsOk(a) && a.pending != []
    ensures AbsOk(b) && b.pending == a.pending[1..]
  {
    var t := Handled(a.pending[0], promiscuous, a.mode);
    Abs(if GoesUp(ck, t) && t.frame.RxLen() >= RX_COPY_SIZE then a.avail - 1 else a.avail,
        a.pending[1..], a.fates + [t], ModeAfter(ck, promiscuous, a.mode, t.frame))
  }

  /** dmfe_rx_packet, while bursts of frames keep coming in. */
  function Drain(ck: Checks, promiscuous: bool, a: Abs, air: seq<seq<Stored>>): (b: Abs)
    requires AbsOk(a)
    ensures AbsOk(b) && b.pending == []
    decreases |air|, |a.pending|
  {
    if a.avail == 0 then a
    else
      var b := if air != [] then Hear(a, air[0]) else a;
      if b.pending == [] then b
      else Drain(ck, promiscuous, HandleOne(ck, promiscuous, b), if air != [] then air[1..] else [])
  }

  function Refill(avail: nat, grants: nat): nat { Min(RX_DESC_CNT, avail + grants) }

  /** The check of the mode at the end of the interrupt handler. */
  function AfterCheck(mode: nat): nat { if mode / 2 % 2 == 1 then 4 else mode }

  datatype Event =
    | Card(frame: Stored)
    | Irq(received: bool, promiscuous: bool, air: seq<seq<Stored>>, grants: nat)
    | Reset(grants: nat)

  function Next(ck: Checks, a: Abs, e: Event): (b: Abs)
    requires AbsOk(a)
    ensures AbsOk(b)
  {
    match e
    case Card(f) => Hear(a, [f])
    case Irq(received, promiscuous, air, grants) =>
      var b := if received then Drain(ck, promiscuous, a, air) else a;
      b.(avail := Refill(b.avail, grants), mode := AfterCheck(b.mode))
    case Reset(grants) => Abs(Refill(0, grants), [], a.fates + Drops(a.pending), a.mode)
  }

  function After(ck: Checks, mode: nat, grants: nat, events: seq<Event>): (a: Abs)
    ensures AbsOk(a)
  {
    if events == [] then Abs(Refill(0, grants), [], [], mode)
    else Next(ck, After(ck, mode, grants, events[..|events| - 1]), events[|events| - 1])
  }

  // ---- the driver ----

  class RxRing {
    const ck: Checks
    const ring: array<Desc>
    var readyPtr: nat
    var insertPtr: nat
    var cardPtr: nat                  // the card's own place in the chain
    var availCnt: nat
    var chkMode: nat
    var mem: map<nat, seq<byte>>      // the buffers allocated so far
    var next: nat
    var delivered: seq<Packet>        // what netif_rx was given
    ghost var win: seq<Desc>
    ghost var pending: seq<Stored>
    ghost var fates: seq<Fate>
    ghost var held: set<nat>
    ghost var upper: set<nat>
    ghost var freed: set<nat>

    ghost function View(): State
      reads this, ring
    {
      State(ring[..], availCnt, insertPtr, cardPtr, next, mem, delivered, win, pending, fates, held, upper, freed)
    }

    ghost predicate Valid()
      reads this, ring
    {
      Good(ck, View(), readyPtr, {})
    }

    ghost function Abstract(): Abs
      reads this
    {
      Abs(availCnt, pending, fates, chkMode)
    }

    /** dmfe_reused_skb: the error branch is never taken. */
    method ReusedSkb(skb: nat, ghost front: nat, ghost loose: set<nat>) returns (methodError: bool)
      requires Good(ck, View(), front, loose) && skb in loose && availCnt < RX_DESC_CNT
      modifies ring, this`insertPtr, this`availCnt, this`win, this`held
      ensures Good(ck, View(), front, loose - {skb}) && !methodError
      ensures availCnt == old(availCnt) + 1
    {
      hide Good;
      methodError := false;
      ArmKeeps(ck, View(), front, loose, skb);
      ghost var s := View();
      if !ring[insertPtr].nic {
        ring[insertPtr] := Armed(skb);
        availCnt := availCnt + 1;
        insertPtr := At(insertPtr, 1);
        win, held := win + [Armed(skb)], held + {skb};
        assert View() == ArmState(s, skb);
      } else {
        methodError := true;
      }
    }

    /** dev_alloc_skb, and the contents copied in. */
    method AllocSkb(bytes: seq<byte>, ghost front: nat, ghost loose: set<nat>) returns (skb: nat)
      requires Good(ck, View(), front, loose)
      modifies this`mem, this`next
      ensures Good(ck, View(), front, loose + {skb}) && skb !in old(mem) && mem == old(mem)[skb := bytes]
    {
      hide Good;
      AllocKeeps(ck, View(), front, loose, bytes);
      ghost var s := View();
      skb := next;
      mem, next := mem[skb := bytes], next + 1;
      assert View() == AllocState(s, bytes);
    }

    /** netif_rx. */
    method NetifRx(skb: nat, rxlen: nat, ghost front: nat, ghost loose: set<nat>, ghost t: Fate)
      requires Good(ck, View(), front, loose) && skb in loose && skb in mem && rxlen <= |mem[skb]|
      requires GoesUp(ck, t) && mem[skb][..rxlen] == t.frame.bytes[..t.frame.RxLen()]
      modifies this`delivered, this`upper, this`fates
      ensures Good(ck, View(), front, loose - {skb}) && fates == old(fates) + [t]
    {
      hide Good, GoesUp;
      UpKeeps(ck, View(), front, loose, skb, mem[skb][..rxlen], t);
      ghost var s := View();
      delivered := delivered + [Packet(skb, mem[skb][..rxlen])];
      upper, fates := upper + {skb}, fates + [t];
      assert View() == UpState(s, skb, mem[skb][..rxlen], t);
    }

    /** What dmfe_rx_packet does with a descriptor that the card gave back. */
    method HandleFrame(rx: nat, promiscuous: bool)
      requires Good(ck, View(), rx, {}) && rx < ring.Length && availCnt > 0 && !ring[rx].nic
      modifies ring, this`insertPtr, this`availCnt, this`chkMode, this`mem, this`next, this`delivered,
               this`win, this`pending, this`fates, this`held, this`upper
      ensures rx < RX_DESC_CNT && Good(ck, View(), At(rx, 1), {})
      ensures AbsOk(old(Abstract())) && old(pending) != [] && Abstract() == HandleOne(ck, promiscuous, old(Abstract()))
    {
      hide Good, HandleOne;
      CardSlot(ck, View(), rx, {});
      OneHandled(ck, promiscuous, Abstract());
      PopKeeps(ck, View(), rx);
      ghost var s := View();
      ghost var f: Stored, front := pending[0], At(rx, 1);
      var d := ring[rx];
      availCnt := availCnt - 1;
      win, pending, held := win[1..], pending[1..], held - {d.skb};
      assert View() == PopState(s);
      Decide(d, promiscuous, front, f);
    }

    /** A frame goes up if it is whole and passes its checks. */
    method Decide(d: Desc, promiscuous: bool, ghost front: nat, ghost f: Stored)
      requires Good(ck, View(), front, {d.skb}) && availCnt < RX_DESC_CNT && d.skb in mem && Answer(d, mem, f)
      modifies ring, this`insertPtr, this`availCnt, this`chkMode, this`mem, this`next, this`delivered,
               this`win, this`fates, this`held, this`upper
      ensures Good(ck, View(), front, {})
      ensures var t := Handled(f, promiscuous, old(chkMode));
              && fates == old(fates) + [t] && chkMode == ModeAfter(ck, promiscuous, old(chkMode), f)
              && availCnt == old(availCnt) + if GoesUp(ck, t) && f.RxLen() >= RX_COPY_SIZE then 0 else 1
    {
      hide Good;
      ghost var t := Handled(f, promiscuous, chkMode);
      var up := d.firstAndLast;
      if up {
        var rxlen := d.length - 4;
        up := !d.error || (promiscuous && rxlen > 6);
        if up {
          var bytes := mem[d.skb];
          if (chkMode % 2 == 1 && ck.crcFails(bytes, rxlen)) || ck.icmpFails(bytes) {
            up := false;
            chkMode := 3;
          } else {
            PassOn(d.skb, rxlen, front, t);
          }
        }
      }
      if !up {
        Quiet(d.skb, front, t);
      }
    }

    /** A frame that does not go up: its buffer is used again. */
    method Quiet(skb: nat, ghost front: nat, ghost t: Fate)
      requires Good(ck, View(), front, {skb}) && availCnt < RX_DESC_CNT && !GoesUp(ck, t)
      modifies ring, this`insertPtr, this`availCnt, this`win, this`held, this`fates
      ensures Good(ck, View(), front, {}) && fates == old(fates) + [t] && availCnt == old(availCnt) + 1
    {
      hide Good, GoesUp;
      QuietKeeps(ck, View(), front, {skb}, t);
      fates := fates + [t];
      var error := ReusedSkb(skb, front, {skb});
      assert {skb} - {skb} == {};
    }

    /** A good frame: a short one goes up in a copy and its buffer is used again; a long one goes up itself. */
    method PassOn(skb: nat, rxlen: nat, ghost front: nat, ghost t: Fate)
      requires Good(ck, View(), front, {skb}) && availCnt < RX_DESC_CNT && skb in mem
      requires GoesUp(ck, t) && mem[skb] == t.frame.bytes && rxlen == t.frame.RxLen()
      modifies ring, this`insertPtr, this`availCnt, this`mem, this`next, this`delivered,
               this`win, this`fates, this`held, this`upper
      ensures Good(ck, View(), front, {}) && fates == old(fates) + [t]
      ensures availCnt == old(availCnt) + if rxlen < RX_COPY_SIZE then 1 else 0
    {
      hide Good, GoesUp;
      assert {skb} - {skb} == {};
      if rxlen < RX_COPY_SIZE {
        var copy := AllocSkb(mem[skb][..rxlen], front, {skb});
        assert {skb} + {copy} - {skb} == {copy} && {copy} - {copy} == {};
        var error := ReusedSkb(skb, front, {skb} + {copy});
        NetifRx(copy, rxlen, front, {copy}, t);
      } else {
        NetifRx(skb, rxlen, front, {skb}, t);
      }
    }

    /** The card stores a frame, if it owns the descriptor it stands at; otherwise the frame is missed. */
    method CardStore(f: Stored, ghost front: nat) returns (stored: bool)
      requires Good(ck, View(), front, {})
      modifies ring, this`mem, this`cardPtr, this`win, this`pending
      ensures Good(ck, View(), front, {})
      ensures stored == (|old(pending)| < availCnt)
      ensures pending == old(pending) + if stored then [f] else []
    {
      hide Good;
      CardSlot(ck, View(), front, {});
      ghost var s := View();
      stored := ring[cardPtr].nic;
      if stored {
        StoreKeeps(ck, s, front, {}, f);
        var d := Desc(false, f.firstAndLast, f.error, f.length, ring[cardPtr].skb);
        ring[cardPtr] := d;
        mem := mem[d.skb := f.bytes];
        win, pending := win[|pending| := d], pending + [f];
        cardPtr := At(cardPtr, 1);
        assert View() == StoreState(s, front, f);
      }
    }

    /** One frame comes in. */
    method StoreOne(f: Stored)
      requires Valid()
      modifies ring, this`mem, this`cardPtr, this`win, this`pending
      ensures Valid() && AbsOk(old(Abstract())) && Abstract() == Next(ck, old(Abstract()), Card(f))
    {
      hide Good;
      CardBurst([f], readyPtr);
    }

    method CardBurst(frames: seq<Stored>, ghost front: nat)
      requires Good(ck, View(), front, {})
      modifies ring, this`mem, this`cardPtr, this`win, this`pending
      ensures Good(ck, View(), front, {}) && AbsOk(old(Abstract())) && Abstract() == Hear(old(Abstract()), frames)
    {
      hide Good;
      CardSlot(ck, View(), front, {});
      for i := 0 to |frames|
        invariant Good(ck, View(), front, {}) && AbsOk(old(Abstract()))
                  && Abstract() == Hear(old(Abstract()), frames[..i])
      {
        HearNext(old(Abstract()), frames, i);
        var stored := CardStore(frames[i], front);
      }
      assert frames[..|frames|] == frames;
    }

    /** dmfe_rx_packet, with bursts of frames coming in meanwhile. */
    method RxPacket(promiscuous: bool, air: seq<seq<Stored>>)
      requires Valid()
      modifies this, ring
      ensures Valid() && freed == old(freed) && AbsOk(old(Abstract()))
      ensures Abstract() == Drain(ck, promiscuous, old(Abstract()), air)
    {
      hide Good, Drain, Hear, HandleOne;
      CardSlot(ck, View(), readyPtr, {});
      var rx, i := readyPtr, 0;
      assert air[0..] == air;
      while availCnt > 0
        invariant Good(ck, View(), rx, {}) && i <= |air| && freed == old(freed) && AbsOk(Abstract())
        invariant Drain(ck, promiscuous, Abstract(), air[i..]) == Drain(ck, promiscuous, old(Abstract()), air)
        decreases |air| - i, |pending|
      {
        DrainStep(ck, promiscuous, Abstract(), air, i);
        if i < |air| {
          CardBurst(air[i], rx);
          i := i + 1;
        }
        CardSlot(ck, View(), rx, {});
        if ring[rx].nic {
          readyPtr := rx;
          return;
        }
        HandleFrame(rx, promiscuous);
        rx := At(rx, 1);
      }
      DrainEnds(ck, promiscuous, Abstract(), air[i..]);
      readyPtr := rx;
    }

    /** allocated_rx_buffer, when the allocator grants so many buffers. */
    method AllocatedRxBuffer(grants: nat)
      requires Valid()
      modifies ring, this`insertPtr, this`availCnt, this`mem, this`next, this`win, this`held
      ensures Valid() && availCnt == Refill(old(availCnt), grants)
    {
      hide Good;
      CardSlot(ck, View(), readyPtr, {});
      var rx, i := insertPtr, 0;
      while availCnt < RX_DESC_CNT && i < grants
        invariant Good(ck, View().(insertPtr := rx), readyPtr, {})
        invariant i <= grants && availCnt == old(availCnt) + i <= RX_DESC_CNT
      {
        rx := AddBuffer(rx);
        i := i + 1;
      }
      insertPtr := rx;
    }

    method AddBuffer(rx: nat) returns (rx': nat)
      requires Good(ck, View().(insertPtr := rx), readyPtr, {}) && availCnt < RX_DESC_CNT
      modifies ring, this`availCnt, this`mem, this`next, this`win, this`held
      ensures Good(ck, View().(insertPtr := rx'), readyPtr, {}) && availCnt == old(availCnt) + 1
    {
      hide Good;
      ghost var s := View().(insertPtr := rx);
      AddKeeps(ck, s, readyPtr);
      var skb := next;
      mem, next := mem[skb := []], next + 1;
      ring[rx] := Armed(skb);
      rx', availCnt := At(rx, 1), availCnt + 1;
      win, held := win + [Armed(skb)], held + {skb};
      assert View().(insertPtr := rx') == ArmState(AllocState(s, []), skb);
    }

    /** dmfe_descriptor_init, receive half, without the buffers. */
    method DescriptorInit()
      requires Stopped(ck, View(), readyPtr) && availCnt == 0 && pending == []
      modifies ring, this`readyPtr, this`insertPtr, this`cardPtr
      ensures Valid()
    {
      hide Buffers, PassedUp, Data, Accounted, Intact, Below;
      insertPtr, readyPtr, cardPtr := 0, 0, 0;
      for i := 0 to RX_DESC_CNT
        modifies ring
        invariant ring.Length == RX_DESC_CNT && forall k :: 0 <= k < i ==> !ring[k].nic
      {
        ring[i] := ring[i].(nic := false, firstAndLast := false, error := false, length := 0);
      }
      StartsGood(ck, View());
    }

    /** dmfe_free_rxbuffer: every buffer in the window is freed, once. */
    method FreeRxBuffer()
      requires Stopped(ck, View(), readyPtr)
      modifies this`readyPtr, this`availCnt, this`win, this`held, this`freed
      ensures Stopped(ck, View(), readyPtr) && availCnt == 0
      ensures freed == old(freed) + old(held)
    {
      hide Stopped;
      StoppedShape(ck, View(), readyPtr);
      while availCnt > 0
        invariant Stopped(ck, View(), readyPtr)
        invariant freed + held == old(freed) + old(held)
      {
        StoppedShape(ck, View(), readyPtr);
        ghost var s := View();
        FreeKeeps(ck, s, readyPtr);
        ghost var skb := ring[readyPtr].skb;
        readyPtr := At(readyPtr, 1);
        availCnt, win, held, freed := availCnt - 1, win[1..], held - {skb}, freed + {skb};
        assert View() == FreeState(s);
      }
      StoppedShape(ck, View(), readyPtr);
    }

    /** dmfe_open: nothing allocated yet. */
    constructor (ck: Checks, mode: nat)
      ensures Valid() && fresh(ring) && this.ck == ck && delivered == [] && Abstract() == Abs(0, [], [], mode)
    {
      this.ck, chkMode := ck, mode;
      ring := new Desc[RX_DESC_CNT](_ => Desc(false, false, false, 0, 0));
      readyPtr, insertPtr, cardPtr, availCnt, next := 0, 0, 0, 0, 0;
      mem, delivered, win, pending, fates := map[], [], [], [], [];
      held, upper, freed := {}, {}, {};
      new;
      assert forall k :: 0 <= k < RX_DESC_CNT ==> !ring[..][k].nic;
      assert Data([]) == PassedUp(ck, []);
    }

    /** The receive half of dmfe_interrupt, with its check of the mode at the end. */
    method Interrupt(received: bool, promiscuous: bool, air: seq<seq<Stored>>, grants: nat)
      requires Valid()
      modifies this, ring
      ensures Valid() && freed == old(freed) && AbsOk(old(Abstract()))
      ensures Abstract() == Next(ck, old(Abstract()), Irq(received, promiscuous, air, grants))
      ensures received ==> pending == []
    {
      hide Good, Drain;
      CardSlot(ck, View(), readyPtr, {});
      if received && availCnt > 0 {
        RxPacket(promiscuous, air);
        CardSlot(ck, View(), readyPtr, {});
      } else if received {
        DrainEnds(ck, promiscuous, Abstract(), air);
      }
      if availCnt < RX_DESC_CNT {
        AllocatedRxBuffer(grants);
      }
      if chkMode / 2 % 2 == 1 {
        chkMode := 4;
      }
    }

    /** The buffers are freed, and with them the frames not yet handled. */
    method DropAll()
      requires Stopped(ck, View(), readyPtr)
      modifies this`readyPtr, this`availCnt, this`win, this`held, this`freed, this`fates, this`pending
      ensures Stopped(ck, View(), readyPtr) && availCnt == 0 && pending == []
      ensures fates == old(fates) + Drops(old(pending)) && freed == old(freed) + old(held)
    {
      hide Good, Stopped, PassedUp, Drops;
      FreeRxBuffer();
      DropsPassNothing(ck, fates, pending);
      DropKeeps(ck, View(), readyPtr);
      fates, pending := fates + Drops(pending), [];
    }

    /** dmfe_dynamic_reset: the ring is emptied and set up again; frames not yet handled are dropped. */
    method DynamicReset(grants: nat)
      requires Valid()
      modifies this, ring
      ensures Valid() && delivered == old(delivered)
      ensures AbsOk(old(Abstract())) && Abstract() == Next(ck, old(Abstract()), Reset(grants))
      ensures freed == old(freed) + old(held)
    {
      hide Good, Stopped, PassedUp, Drops, Next;
      CardSlot(ck, View(), readyPtr, {});
      StopsGood(ck, View(), readyPtr);
      DropAll();
      DescriptorInit();
      AllocatedRxBuffer(grants);
      AfterReset(ck, old(Abstract()), grants);
    }
  }

  lemma DropKeeps(ck: Checks, s: State, front: nat)
    requires Stopped(ck, s, front)
    ensures Stopped(ck, s.(fates := s.fates + Drops(s.pending), pending := []), front)
  {
    hide Buffers, Data, PassedUp, Accounted, Intact, Below, Drops;
    DropsPassNothing(ck, s.fates, s.pending);
  }

  lemma StoppedShape(ck: Checks, s: State, front: nat)
    requires Stopped(ck, s, front)
    ensures |s.ring| == RX_DESC_CNT && front < RX_DESC_CNT && |s.win| == s.availCnt <= RX_DESC_CNT
    ensures s.availCnt == 0 ==> s.held == {}
  {
  }

  // ---- steps of a burst and of the loop ----

  lemma OneHandled(ck: Checks, promiscuous: bool, a: Abs)
    requires AbsOk(a) && a.pending != []
    ensures var t := Handled(a.pending[0], promiscuous, a.mode);
            HandleOne(ck, promiscuous, a)
            == Abs(if GoesUp(ck, t) && t.frame.RxLen() >= RX_COPY_SIZE then a.avail - 1 else a.avail,
                   a.pending[1..], a.fates + [t], ModeAfter(ck, promiscuous, a.mode, t.frame))
  {
  }

  lemma AfterReset(ck: Checks, a: Abs, grants: nat)
    requires AbsOk(a)
    ensures Next(ck, a, Reset(grants)) == Abs(Refill(0, grants), [], a.fates + Drops(a.pending), a.mode)
  {
  }

  lemma HearNext(a: Abs, frames: seq<Stored>, i: nat)
    requires AbsOk(a) && i < |frames|
    ensures var b := Hear(a, frames[..i]);
            Hear(a, frames[..i + 1]) == b.(pending := b.pending + if |b.pending| < b.avail then [frames[i]] else [])
  {
    var room := a.avail - |a.pending|;
    if i < room {
      assert frames[..i + 1][..i + 1] == frames[..i][..i] + [frames[i]];
    } else {
      assert frames[..i + 1][..room] == frames[..i][..room];
    }
  }

  lemma DrainStep(ck: Checks, promiscuous: bool, a: Abs, air: seq<seq<Stored>>, i: nat)
    requires AbsOk(a) && i <= |air| && a.avail > 0
    ensures var b := if i < |air| then Hear(a, air[i]) else a;
            Drain(ck, promiscuous, a, air[i..])
            == if b.pending == [] then b
               else Drain(ck, promiscuous, HandleOne(ck, promiscuous, b), air[if i < |air| then i + 1 else i..])
  {
    hide Hear, HandleOne;
    if i < |air| {
      assert air[i..][1..] == air[i + 1..];
    }
  }

  lemma DrainEnds(ck: Checks, promiscuous: bool, a: Abs, air: seq<seq<Stored>>)
    requires AbsOk(a) && a.avail == 0
    ensures Drain(ck, promiscuous, a, air) == a
  {
  }

  // ---- all runs ----

  ghost predicate DistinctLive(ring: seq<Desc>, ready: nat, n: nat, held: set<nat>)
    requires |ring| == RX_DESC_CNT && ready < RX_DESC_CNT && n <= RX_DESC_CNT
  {
    && (forall k :: 0 <= k < n ==> ring[At(ready, k)].skb in held)
    && (forall j, k :: 0 <= j < k < n ==> ring[At(ready, j)].skb != ring[At(ready, k)].skb)
  }

  lemma WindowLaws(ring: seq<Desc>, ready: nat, win: seq<Desc>, held: set<nat>)
    requires Holds(ring, ready, win) && Buffers(win, held)
    ensures DistinctLive(ring, ready, |win|, held) && |held| == |win|
  {
  }

  lemma CountBuffers(mem: map<nat, seq<byte>>, held: set<nat>, upper: set<nat>, freed: set<nat>)
    requires Accounted(mem, held, {}, upper, freed)
    ensures |mem.Keys| == |held| + |upper| + |freed|
  {
    assert |held + upper| == |held| + |upper|;
    assert mem.Keys == held + upper + freed;
  }

  /** What holds of the ring after any run, in plain terms. */
  lemma RingLaws(ck: Checks, s: State, ready: nat)
    requires Good(ck, s, ready, {})
    ensures ready < RX_DESC_CNT && s.availCnt <= RX_DESC_CNT == |s.ring|
    ensures s.insertPtr == (ready + s.availCnt) % RX_DESC_CNT
    ensures DistinctLive(s.ring, ready, s.availCnt, s.held)
    ensures forall k :: s.availCnt <= k < RX_DESC_CNT ==> !s.ring[At(ready, k)].nic
    ensures |s.mem.Keys| == s.availCnt + |s.upper| + |s.freed|
  {
    hide Answers, PassedUp, Data, Intact, Below, Accounted, Buffers, DistinctLive;
    assert Holds(s.ring, ready, s.win);
    WindowLaws(s.ring, ready, s.win, s.held);
    CountBuffers(s.mem, s.held, s.upper, s.freed);
  }

  lemma GoodPassedUp(ck: Checks, s: State, ready: nat)
    requires Good(ck, s, ready, {})
    ensures Data(s.delivered) == PassedUp(ck, s.fates)
  {
  }

  /** The driver follows the runs above, event by event; what goes up is what the handled frames call for. */
  method Run(ck: Checks, mode: nat, grants: nat, events: seq<Event>) returns (up: seq<seq<byte>>)
    ensures up == PassedUp(ck, After(ck, mode, grants, events).fates)
    ensures Told(ck, mode, grants, events, up)
  {
    hide Good, PassedUp, Data, After, Next, Told;
    var dev := new RxRing(ck, mode);
    dev.AllocatedRxBuffer(grants);
    AtStart(ck, mode, grants);
    for i := 0 to |events|
      invariant dev.Valid() && dev.ck == ck && fresh(dev) && fresh(dev.ring)
      invariant dev.Abstract() == After(ck, mode, grants, events[..i])
    {
      assert events[..i + 1][..i] == events[..i];
      AfterLast(ck, mode, grants, events[..i + 1]);
      match events[i] {
        case Card(f) => dev.StoreOne(f);
        case Irq(received, promiscuous, air, more) => dev.Interrupt(received, promiscuous, air, more);
        case Reset(more) => dev.DynamicReset(more);
      }
    }
    assert events[..|events|] == events;
    up := Data(dev.delivered);
    GoodPassedUp(ck, dev.View(), dev.readyPtr);
    ToldOfRuns(ck, mode, grants, events);
  }

  lemma AtStart(ck: Checks, mode: nat, grants: nat)
    ensures After(ck, mode, grants, []) == Abs(Refill(0, grants), [], [], mode)
  {
  }

  lemma AfterLast(ck: Checks, mode: nat, grants: nat, events: seq<Event>)
    requires events != []
    ensures After(ck, mode, grants, events)
         == Next(ck, After(ck, mode, grants, events[..|events| - 1]), events[|events| - 1])
  {
  }

  // ---- what becomes of the frames ----

  predicate NoReset(events: seq<Event>) {
    forall i :: 0 <= i < |events| ==> !events[i].Reset?
  }

  predicate AllHandled(fates: seq<Fate>) {
    forall i :: 0 <= i < |fates| ==> fates[i].Handled?
  }

  lemma {:induction false} DrainHandles(ck: Checks, promiscuous: bool, a: Abs, air: seq<seq<Stored>>)
    requires AbsOk(a)
    ensures var b := Drain(ck, promiscuous, a, air); a.fates <= b.fates && (AllHandled(a.fates) ==> AllHandled(b.fates))
    decreases |air|, |a.pending|
  {
    hide GoesUp;
    if a.avail != 0 {
      var b := if air != [] then Hear(a, air[0]) else a;
      if b.pending != [] {
        DrainHandles(ck, promiscuous, HandleOne(ck, promiscuous, b), if air != [] then air[1..] else []);
      }
    }
  }

  /** How many of the frames that come in find a descriptor of the card's. */
  function Room(a: Abs, frames: seq<Stored>): (n: nat)
    requires AbsOk(a)
    ensures n <= |frames|
  {
    Min(|frames|, a.avail - |a.pending|)
  }

  /** The frames that come in while the loop runs, and those of them that the card stores. */
  function DrainComes(ck: Checks, promiscuous: bool, a: Abs, air: seq<seq<Stored>>): seq<Stored>
    requires AbsOk(a)
    decreases |air|, |a.pending|
  {
    if a.avail == 0 then []
    else
      var b, here := if air != [] then Hear(a, air[0]) else a, if air != [] then air[0] else [];
      if b.pending == [] then here
      else here + DrainComes(ck, promiscuous, HandleOne(ck, promiscuous, b), if air != [] then air[1..] else [])
  }

  function DrainTakes(ck: Checks, promiscuous: bool, a: Abs, air: seq<seq<Stored>>): seq<Stored>
    requires AbsOk(a)
    decreases |air|, |a.pending|
  {
    if a.avail == 0 then []
    else
      var b, here := if air != [] then Hear(a, air[0]) else a, if air != [] then air[0][..Room(a, air[0])] else [];
      if b.pending == [] then here
      else here + DrainTakes(ck, promiscuous, HandleOne(ck, promiscuous, b), if air != [] then air[1..] else [])
  }

  /** None of them finds every descriptor taken. */
  predicate DrainFits(ck: Checks, promiscuous: bool, a: Abs, air: seq<seq<Stored>>)
    requires AbsOk(a)
    decreases |air|, |a.pending|
  {
    a.avail == 0 ||
    (&& (air != [] ==> |a.pending| + |air[0]| <= a.avail)
     && var b := if air != [] then Hear(a, air[0]) else a;
        b.pending == [] ||
        DrainFits(ck, promiscuous, HandleOne(ck, promiscuous, b), if air != [] then air[1..] else []))
  }

  function Comes(ck: Checks, a: Abs, e: Event): seq<Stored>
    requires AbsOk(a)
  {
    match e
    case Card(f) => [f]
    case Irq(received, promiscuous, air, _) => if received then DrainComes(ck, promiscuous, a, air) else []
    case Reset(_) => []
  }

  function Takes(ck: Checks, a: Abs, e: Event): seq<Stored>
    requires AbsOk(a)
  {
    match e
    case Card(f) => if |a.pending| < a.avail then [f] else []
    case Irq(received, promiscuous, air, _) => if received then DrainTakes(ck, promiscuous, a, air) else []
    case Reset(_) => []
  }

  predicate Fits(ck: Checks, a: Abs, e: Event)
    requires AbsOk(a)
  {
    match e
    case Card(_) => |a.pending| < a.avail
    case Irq(received, promiscuous, air, _) => received ==> DrainFits(ck, promiscuous, a, air)
    case Reset(_) => true
  }

  /** All frames that come in during a run, and all that the card stores. */
  function Came(ck: Checks, mode: nat, grants: nat, events: seq<Event>): seq<Stored> {
    if events == [] then []
    else
      var n := |events| - 1;
      Came(ck, mode, grants, events[..n]) + Comes(ck, After(ck, mode, grants, events[..n]), events[n])
  }

  function Taken(ck: Checks, mode: nat, grants: nat, events: seq<Event>): seq<Stored> {
    if events == [] then []
    else
      var n := |events| - 1;
      Taken(ck, mode, grants, events[..n]) + Takes(ck, After(ck, mode, grants, events[..n]), events[n])
  }

  /** Every frame finds a descriptor of the card's. */
  predicate AllFit(ck: Checks, mode: nat, grants: nat, events: seq<Event>) {
    forall i :: 0 <= i < |events| ==> Fits(ck, After(ck, mode, grants, events[..i]), events[i])
  }

  lemma Regroup(done: seq<Stored>, p: seq<Stored>, h: seq<Stored>, t: seq<Stored>)
    requires p + h != []
    ensures (done + [(p + h)[0]]) + (p + h)[1..] + t == done + p + (h + t)
  {
    var w := p + h;
    assert w == [w[0]] + w[1..];
    assert done + w + t == done + p + (h + t);
  }

  /** The loop handles what waited and what was stored meanwhile, in order, and forgets nothing. */
  lemma {:induction false} DrainConserves(ck: Checks, promiscuous: bool, a: Abs, air: seq<seq<Stored>>)
    requires AbsOk(a)
    ensures Frames(Drain(ck, promiscuous, a, air).fates)
         == Frames(a.fates) + a.pending + DrainTakes(ck, promiscuous, a, air)
    decreases |air|, |a.pending|
  {
    hide Frames, GoesUp, ModeAfter, PassedUp;
    if a.avail != 0 {
      var b := if air != [] then Hear(a, air[0]) else a;
      var here := if air != [] then air[0][..Room(a, air[0])] else [];
      assert b.pending == a.pending + here && b.fates == a.fates;
      if b.pending != [] {
        var rest := if air != [] then air[1..] else [];
        var d := HandleOne(ck, promiscuous, b);
        DrainConserves(ck, promiscuous, d, rest);
        PassedUpNext(ck, b.fates, Handled(b.pending[0], promiscuous, b.mode));
        Regroup(Frames(a.fates), a.pending, here, DrainTakes(ck, promiscuous, d, rest));
      }
    }
  }

  /**
   Conservation, in every run, resets included: the frames that the card stored are, in order and once each, those
   handled or dropped and those that still wait.
   */
  lemma {:induction false} AllAccounted(ck: Checks, mode: nat, grants: nat, events: seq<Event>)
    ensures var a := After(ck, mode, grants, events);
            Frames(a.fates) + a.pending == Taken(ck, mode, grants, events)
    decreases |events|
  {
    hide Drain, Frames, DrainTakes, Drops;
    if events == [] {
      NoFrames();
    } else {
      var n := |events| - 1;
      AllAccounted(ck, mode, grants, events[..n]);
      var a := After(ck, mode, grants, events[..n]);
      match events[n] {
        case Card(f) => assert Frames(a.fates) + (a.pending + [f]) == (Frames(a.fates) + a.pending) + [f];
        case Irq(received, promiscuous, air, _) =>
          if received {
            DrainConserves(ck, promiscuous, a, air);
          }
        case Reset(_) => DroppedFrames(a.fates, a.pending);
      }
    }
  }

  lemma DroppedFrames(fates: seq<Fate>, pending: seq<Stored>)
    ensures Frames(fates + Drops(pending)) == Frames(fates) + pending
  {
  }

  lemma NoFrames()
    ensures Frames([]) == []
  {
  }

  /** Without a reset every frame stored has been handled or still waits. */
  lemma {:induction false} DroppedOnlyByReset(ck: Checks, mode: nat, grants: nat, events: seq<Event>)
    requires NoReset(events)
    ensures var a := After(ck, mode, grants, events);
            AllHandled(a.fates) && Frames(a.fates) + a.pending == Taken(ck, mode, grants, events)
    decreases |events|
  {
    hide Drain, Frames, Taken;
    AllAccounted(ck, mode, grants, events);
    if events != [] {
      var n := |events| - 1;
      DroppedOnlyByReset(ck, mode, grants, events[..n]);
      if events[n].Irq? {
        DrainHandles(ck, events[n].promiscuous, After(ck, mode, grants, events[..n]), events[n].air);
      }
    }
  }

  // ---- which frames are missed ----

  /** While the loop runs, all frames that come in are stored exactly if none finds every descriptor taken. */
  lemma {:induction false} DrainMissesIff(ck: Checks, promiscuous: bool, a: Abs, air: seq<seq<Stored>>)
    requires AbsOk(a)
    ensures var came, taken := DrainComes(ck, promiscuous, a, air), DrainTakes(ck, promiscuous, a, air);
            && |taken| <= |came| && (|taken| == |came| <==> DrainFits(ck, promiscuous, a, air))
            && (DrainFits(ck, promiscuous, a, air) ==> taken == came)
    decreases |air|, |a.pending|
  {
    hide GoesUp, ModeAfter;
    if a.avail != 0 {
      var b := if air != [] then Hear(a, air[0]) else a;
      if b.pending != [] {
        hide HandleOne;
        DrainMissesIff(ck, promiscuous, HandleOne(ck, promiscuous, b), if air != [] then air[1..] else []);
      }
    }
  }

  lemma NextMissesIff(ck: Checks, a: Abs, e: Event)
    requires AbsOk(a)
    ensures |Takes(ck, a, e)| <= |Comes(ck, a, e)|
    ensures |Takes(ck, a, e)| == |Comes(ck, a, e)| <==> Fits(ck, a, e)
    ensures Fits(ck, a, e) ==> Takes(ck, a, e) == Comes(ck, a, e)
  {
    hide DrainComes, DrainTakes, DrainFits;
    if e.Irq? && e.received {
      DrainMissesIff(ck, e.promiscuous, a, e.air);
    }
  }

  lemma FitPrefix(ck: Checks, mode: nat, grants: nat, events: seq<Event>)
    requires events != []
    ensures var n := |events| - 1;
            AllFit(ck, mode, grants, events) <==>
              AllFit(ck, mode, grants, events[..n]) && Fits(ck, After(ck, mode, grants, events[..n]), events[n])
  {
    hide After, Fits;
    var n := |events| - 1;
    forall i | 0 <= i < n
      ensures events[..n][i] == events[i] && events[..n][..i] == events[..i]
    {
    }
  }

  /** In every run: no frame is missed if and only if each finds a descriptor of the card's when it comes. */
  lemma {:induction false} MissedIff(ck: Checks, mode: nat, grants: nat, events: seq<Event>)
    ensures |Taken(ck, mode, grants, events)| <= |Came(ck, mode, grants, events)|
    ensures Taken(ck, mode, grants, events) == Came(ck, mode, grants, events) <==> AllFit(ck, mode, grants, events)
    ensures |Taken(ck, mode, grants, events)| == |Came(ck, mode, grants, events)| <==> AllFit(ck, mode, grants, events)
    decreases |events|
  {
    hide After, Takes, Comes, Fits;
    if events != [] {
      hide AllFit;
      var n := |events| - 1;
      MissedIff(ck, mode, grants, events[..n]);
      NextMissesIff(ck, After(ck, mode, grants, events[..n]), events[n]);
      FitPrefix(ck, mode, grants, events);
    }
  }

  // ---- interrupts that come often enough ----

  function Total(air: seq<seq<Stored>>): nat {
    if air == [] then 0 else |air[0]| + Total(air[1..])
  }

  /** How many frames have come in at most since the ring was last filled up. */
  function SinceFilled(events: seq<Event>): nat {
    if events == [] then 0
    else
      match events[|events| - 1]
      case Card(_) => SinceFilled(events[..|events| - 1]) + 1
      case Irq(received, _, _, _) => if received then 0 else SinceFilled(events[..|events| - 1])
      case Reset(_) => 0
  }

  /** Between two fillings at most thirty-two frames come in, those during the interrupt included; there is memory. */
  predicate KeepsUp(events: seq<Event>) {
    if events == [] then true
    else
      var before := events[..|events| - 1];
      && KeepsUp(before)
      && match events[|events| - 1]
         case Card(_) => SinceFilled(before) < RX_DESC_CNT
         case Irq(received, _, air, grants) =>
           received ==> SinceFilled(before) + Total(air) <= RX_DESC_CNT && grants >= RX_DESC_CNT
         case Reset(grants) => grants >= RX_DESC_CNT
  }

  /** With room for all that may come, all fits: a frame handled gives up at most the one descriptor it held. */
  lemma {:induction false} DrainRoom(ck: Checks, promiscuous: bool, a: Abs, air: seq<seq<Stored>>)
    requires AbsOk(a) && |a.pending| + Total(air) <= a.avail
    ensures DrainFits(ck, promiscuous, a, air)
    decreases |air|, |a.pending|
  {
    hide GoesUp, ModeAfter;
    if a.avail != 0 {
      var b := if air != [] then Hear(a, air[0]) else a;
      if b.pending != [] {
        DrainRoom(ck, promiscuous, HandleOne(ck, promiscuous, b), if air != [] then air[1..] else []);
      }
    }
  }

  lemma {:induction false} KeptUp(ck: Checks, mode: nat, grants: nat, events: seq<Event>)
    requires grants >= RX_DESC_CNT && KeepsUp(events)
    ensures AllFit(ck, mode, grants, events)
    ensures var a := After(ck, mode, grants, events); a.avail == RX_DESC_CNT && |a.pending| <= SinceFilled(events)
    decreases |events|
  {
    hide Drain, DrainFits, Drops;
    if events != [] {
      var n := |events| - 1;
      KeptUp(ck, mode, grants, events[..n]);
      var a := After(ck, mode, grants, events[..n]);
      if events[n].Irq? && events[n].received {
        DrainRoom(ck, events[n].promiscuous, a, events[n].air);
      }
      FitPrefix(ck, mode, grants, events);
      hide AllFit;
    }
  }

  /**
   With interrupts that often no frame is missed: all that came are, in order, handled, dropped by a reset or
   waiting.
   */
  lemma NothingMissed(ck: Checks, mode: nat, grants: nat, events: seq<Event>)
    requires grants >= RX_DESC_CNT && KeepsUp(events)
    ensures var a := After(ck, mode, grants, events);
            Frames(a.fates) + a.pending == Came(ck, mode, grants, events) && (NoReset(events) ==> AllHandled(a.fates))
  {
    hide After, Frames, AllFit, KeepsUp;
    KeptUp(ck, mode, grants, events);
    MissedIff(ck, mode, grants, events);
    AllAccounted(ck, mode, grants, events);
    if NoReset(events) {
      DroppedOnlyByReset(ck, mode, grants, events);
    }
  }

  // ---- what goes up, told from the frames alone ----

  /** The data of frames: all but the four bytes of the check sequence. */
  function Payloads(frames: seq<Stored>): (r: seq<seq<byte>>) {
    seq(|frames|, i requires 0 <= i < |frames| => frames[i].bytes[..frames[i].length - 4])
  }

  /** The frames of more than ten bytes, in order. */
  function OverTen(frames: seq<Stored>): (r: seq<Stored>) {
    if frames == [] then []
    else
      var n := |frames| - 1;
      OverTen(frames[..n]) + if frames[n].length > 10 then [frames[n]] else []
  }

  /** A frame that passes its checks, the check of its sequence only if that is asked for. */
  predicate Passes(ck: Checks, crc: bool, f: Stored) {
    !ck.icmpFails(f.bytes) && (crc ==> !ck.crcFails(f.bytes, f.length - 4))
  }

  /** Frames that came in one piece, with the error bit as given, and that pass their checks. */
  ghost predicate Sound(ck: Checks, crc: bool, error: bool, frames: seq<Stored>) {
    forall i :: 0 <= i < |frames| ==> frames[i].firstAndLast && frames[i].error == error && Passes(ck, crc, frames[i])
  }

  /** Frames that are broken: in pieces, or with the error bit set. */
  ghost predicate Broken(frames: seq<Stored>) {
    forall i :: 0 <= i < |frames| ==> !frames[i].firstAndLast || frames[i].error
  }

  /** The flag stands so in all interrupts, and so in all fates. */
  predicate Promiscuous(events: seq<Event>, flag: bool) {
    forall i :: 0 <= i < |events| && events[i].Irq? ==> events[i].promiscuous == flag
  }

  predicate Flagged(fates: seq<Fate>, flag: bool) {
    forall i :: 0 <= i < |fates| && fates[i].Handled? ==> fates[i].promiscuous == flag
  }

  /** The check of the sequence is asked for, in all fates, only if it was to begin with. */
  predicate Calm(fates: seq<Fate>, crc: bool) {
    forall i :: 0 <= i < |fates| && fates[i].Handled? ==> fates[i].mode % 2 == 1 ==> crc
  }

  lemma {:induction false} SoundGoUp(ck: Checks, crc: bool, fates: seq<Fate>)
    requires AllHandled(fates) && Calm(fates, crc) && Sound(ck, crc, false, Frames(fates))
    ensures PassedUp(ck, fates) == Payloads(Frames(fates))
  {
    if fates != [] {
      var n := |fates| - 1;
      assert fates[..n] + [fates[n]] == fates;
      PassedUpNext(ck, fates[..n], fates[n]);
      assert Frames(fates)[n] == fates[n].frame && Frames(fates)[..n] == Frames(fates[..n]);
      SoundGoUp(ck, crc, fates[..n]);
    }
  }

  lemma {:induction false} BrokenStay(ck: Checks, fates: seq<Fate>)
    requires Flagged(fates, false) && Broken(Frames(fates))
    ensures PassedUp(ck, fates) == []
  {
    if fates != [] {
      var n := |fates| - 1;
      assert fates[..n] + [fates[n]] == fates;
      PassedUpNext(ck, fates[..n], fates[n]);
      assert Frames(fates)[n] == fates[n].frame && Frames(fates)[..n] == Frames(fates[..n]);
      BrokenStay(ck, fates[..n]);
    }
  }

  lemma {:induction false} OverTenGoUp(ck: Checks, crc: bool, fates: seq<Fate>)
    requires AllHandled(fates) && Flagged(fates, true) && Calm(fates, crc) && Sound(ck, crc, true, Frames(fates))
    ensures PassedUp(ck, fates) == Payloads(OverTen(Frames(fates)))
  {
    if fates != [] {
      var n := |fates| - 1;
      assert fates[..n] + [fates[n]] == fates;
      PassedUpNext(ck, fates[..n], fates[n]);
      assert Frames(fates)[n] == fates[n].frame && Frames(fates)[..n] == Frames(fates[..n]);
      OverTenGoUp(ck, crc, fates[..n]);
    }
  }

  lemma {:induction false} DrainFlags(ck: Checks, promiscuous: bool, a: Abs, air: seq<seq<Stored>>)
    requires AbsOk(a) && Flagged(a.fates, promiscuous)
    ensures Flagged(Drain(ck, promiscuous, a, air).fates, promiscuous)
    decreases |air|, |a.pending|
  {
    hide GoesUp, ModeAfter;
    if a.avail != 0 {
      var b := if air != [] then Hear(a, air[0]) else a;
      if b.pending != [] {
        DrainFlags(ck, promiscuous, HandleOne(ck, promiscuous, b), if air != [] then air[1..] else []);
      }
    }
  }

  lemma {:induction false} RunFlags(ck: Checks, mode: nat, grants: nat, events: seq<Event>, flag: bool)
    requires Promiscuous(events, flag)
    ensures Flagged(After(ck, mode, grants, events).fates, flag)
    decreases |events|
  {
    hide Drain, Refill;
    if events != [] {
      var n := |events| - 1;
      RunFlags(ck, mode, grants, events[..n], flag);
      if events[n].Irq? && events[n].received {
        DrainFlags(ck, flag, After(ck, mode, grants, events[..n]), events[n].air);
      }
    }
  }

  ghost predicate AllPass(ck: Checks, crc: bool, fates: seq<Fate>) {
    forall i :: 0 <= i < |fates| ==> Passes(ck, crc, fates[i].frame)
  }

  lemma HandleCalm(ck: Checks, promiscuous: bool, a: Abs, crc: bool)
    requires AbsOk(a) && a.pending != [] && Calm(a.fates, crc) && (a.mode % 2 == 1 ==> crc)
    requires Passes(ck, crc, a.pending[0])
    ensures var b := HandleOne(ck, promiscuous, a); Calm(b.fates, crc) && b.mode == a.mode
  {
    hide GoesUp;
  }

  /** As long as no frame fails, the mode stays. */
  lemma {:induction false} DrainCalm(ck: Checks, promiscuous: bool, a: Abs, air: seq<seq<Stored>>, crc: bool)
    requires AbsOk(a) && Calm(a.fates, crc) && (a.mode % 2 == 1 ==> crc)
    requires AllPass(ck, crc, Drain(ck, promiscuous, a, air).fates)
    ensures var b := Drain(ck, promiscuous, a, air); Calm(b.fates, crc) && b.mode == a.mode
    decreases |air|, |a.pending|
  {
    hide GoesUp, ModeAfter, Passes, Calm;
    if a.avail != 0 {
      var b := if air != [] then Hear(a, air[0]) else a;
      if b.pending != [] {
        var c, rest := HandleOne(ck, promiscuous, b), if air != [] then air[1..] else [];
        DrainHandles(ck, promiscuous, c, rest);
        var last := Drain(ck, promiscuous, c, rest).fates;
        assert c.fates[|a.fates|].frame == b.pending[0] && last[|a.fates|] == c.fates[|a.fates|];
        HandleCalm(ck, promiscuous, b, crc);
        DrainCalm(ck, promiscuous, c, rest, crc);
      }
    }
  }

  lemma FatesGrow(ck: Checks, a: Abs, e: Event)
    requires AbsOk(a)
    ensures a.fates <= Next(ck, a, e).fates
  {
    hide Drain, Drops, Refill;
    if e.Irq? && e.received {
      DrainHandles(ck, e.promiscuous, a, e.air);
    }
  }

  lemma {:induction false} RunCalm(ck: Checks, mode: nat, grants: nat, events: seq<Event>, crc: bool)
    requires mode % 2 == 1 ==> crc
    requires AllPass(ck, crc, After(ck, mode, grants, events).fates)
    ensures var a := After(ck, mode, grants, events);
            Calm(a.fates, crc) && (a.mode == mode || a.mode == 4) && (mode / 2 % 2 == 0 ==> a.mode == mode)
    decreases |events|
  {
    hide Drain, Passes, Refill;
    if events != [] {
      var n := |events| - 1;
      var a := After(ck, mode, grants, events[..n]);
      FatesGrow(ck, a, events[n]);
      RunCalm(ck, mode, grants, events[..n], crc);
      match events[n] {
        case Card(_) =>
        case Irq(received, promiscuous, air, _) =>
          if received {
            DrainCalm(ck, promiscuous, a, air, crc);
          }
        case Reset(_) =>
      }
    }
  }

  /**
   What has gone up after a run. Frames that are whole, free of errors and pass their checks have gone up, all that
   were handled, in order and without their last four bytes; broken ones have not, unless the card is promiscuous; and
   then those go up that have more than ten bytes.
   */
  ghost predicate Told(ck: Checks, mode: nat, grants: nat, events: seq<Event>, up: seq<seq<byte>>) {
    var a, taken := After(ck, mode, grants, events), Taken(ck, mode, grants, events);
    var done, crc := Frames(a.fates), mode % 2 == 1;
    && done + a.pending == taken
    && (NoReset(events) && Sound(ck, crc, false, taken) ==> up == Payloads(done))
    && (Promiscuous(events, false) && Broken(taken) ==> up == [])
    && (NoReset(events) && Promiscuous(events, true) && Sound(ck, crc, true, taken) ==> up == Payloads(OverTen(done)))
  }

  lemma SoundPass(ck: Checks, crc: bool, error: bool, fates: seq<Fate>, pending: seq<Stored>)
    requires Sound(ck, crc, error, Frames(fates) + pending)
    ensures AllPass(ck, crc, fates) && Sound(ck, crc, error, Frames(fates))
  {
    hide Passes;
    var taken := Frames(fates) + pending;
    forall i | 0 <= i < |fates|
      ensures taken[i] == Frames(fates)[i] == fates[i].frame
    {
    }
  }

  lemma SoundRun(ck: Checks, mode: nat, grants: nat, events: seq<Event>, error: bool)
    requires NoReset(events) && Sound(ck, mode % 2 == 1, error, Taken(ck, mode, grants, events))
    ensures var a := After(ck, mode, grants, events);
            AllHandled(a.fates) && Calm(a.fates, mode % 2 == 1) && Sound(ck, mode % 2 == 1, error, Frames(a.fates))
  {
    hide After, Taken, Frames, Sound, Passes, AllPass;
    var a := After(ck, mode, grants, events);
    DroppedOnlyByReset(ck, mode, grants, events);
    SoundPass(ck, mode % 2 == 1, error, a.fates, a.pending);
    RunCalm(ck, mode, grants, events, mode % 2 == 1);
  }

  lemma BrokenDone(done: seq<Stored>, pending: seq<Stored>)
    requires Broken(done + pending)
    ensures Broken(done)
  {
    forall i | 0 <= i < |done|
      ensures (done + pending)[i] == done[i]
    {
    }
  }

  /** In every run that is what has gone up. */
  lemma ToldOfRuns(ck: Checks, mode: nat, grants: nat, events: seq<Event>)
    ensures Told(ck, mode, grants, events, PassedUp(ck, After(ck, mode, grants, events).fates))
  {
    hide After, Taken, Frames, Sound, Broken, PassedUp, Payloads, OverTen, Calm, Flagged, AllHandled, Promiscuous;
    var a, taken := After(ck, mode, grants, events), Taken(ck, mode, grants, events);
    AllAccounted(ck, mode, grants, events);
    if NoReset(events) && Sound(ck, mode % 2 == 1, false, taken) {
      SoundRun(ck, mode, grants, events, false);
      SoundGoUp(ck, mode % 2 == 1, a.fates);
    }
    if Promiscuous(events, false) && Broken(taken) {
      RunFlags(ck, mode, grants, events, false);
      BrokenDone(Frames(a.fates), a.pending);
      BrokenStay(ck, a.fates);
    }
    if NoReset(events) && Promiscuous(events, true) && Sound(ck, mode % 2 == 1, true, taken) {
      SoundRun(ck, mode, grants, events, true);
      RunFlags(ck, mode, grants, events, true);
      OverTenGoUp(ck, mode % 2 == 1, a.fates);
    }
  }

  /** With interrupts often enough, the last event one of them, all sound frames that came have gone up, in order. */
  lemma AllGoUp(ck: Checks, mode: nat, grants: nat, events: seq<Event>)
    requires grants >= RX_DESC_CNT && KeepsUp(events) && NoReset(events)
    requires events != [] && events[|events| - 1].Irq? && events[|events| - 1].received
    requires Sound(ck, mode % 2 == 1, false, Came(ck, mode, grants, events))
    ensures PassedUp(ck, After(ck, mode, grants, events).fates) == Payloads(Came(ck, mode, grants, events))
  {
    hide Taken, Came, Frames, Sound, PassedUp, Payloads, OverTen, KeepsUp, Drain, Broken;
    NothingMissed(ck, mode, grants, events);
    AllAccounted(ck, mode, grants, events);
    ToldOfRuns(ck, mode, grants, events);
    var a := After(ck, mode, grants, events);
    assert a.pending == [] && Frames(a.fates) + [] == Frames(a.fates);
  }

  // ---- the mode ----

  /** A whole frame, free of errors, that fails the check of its data. */
  predicate Foul(ck: Checks, t: Fate) {
    t.Handled? && t.frame.firstAndLast && !t.frame.error && ck.icmpFails(t.frame.bytes)
  }

  /** From there on, in the same interrupt, a frame goes up only if the check of its sequence is passed. */
  ghost predicate Watched(ck: Checks, from: nat, fates: seq<Fate>) {
    forall i, j :: from <= i < j < |fates| && Foul(ck, fates[i]) ==>
      fates[j].Handled? && fates[j].mode == 3
      && (ck.crcFails(fates[j].frame.bytes, fates[j].frame.length - 4) ==> PassedUp(ck, [fates[j]]) == [])
  }

  ghost predicate SomeFoul(ck: Checks, from: nat, fates: seq<Fate>) {
    exists i :: from <= i < |fates| && Foul(ck, fates[i])
  }

  lemma HandleWatches(ck: Checks, promiscuous: bool, a: Abs, from: nat)
    requires AbsOk(a) && a.pending != [] && from <= |a.fates| && Watched(ck, from, a.fates)
    requires SomeFoul(ck, from, a.fates) ==> a.mode == 3
    ensures var b := HandleOne(ck, promiscuous, a);
            && Watched(ck, from, b.fates) && (SomeFoul(ck, from, b.fates) ==> b.mode == 3)
            && (b.mode == a.mode || b.mode == 3)
  {
    var b, n := HandleOne(ck, promiscuous, a), |a.fates|;
    PassedUpNext(ck, [], b.fates[n]);
    assert [] + [b.fates[n]] == [b.fates[n]];
    forall i, j | from <= i < j < |b.fates| && Foul(ck, b.fates[i])
      ensures b.fates[j].Handled? && b.fates[j].mode == 3
      ensures ck.crcFails(b.fates[j].frame.bytes, b.fates[j].frame.length - 4) ==> PassedUp(ck, [b.fates[j]]) == []
    {
      assert b.fates[i] == a.fates[i];
      if j < n {
        assert b.fates[j] == a.fates[j];
      }
    }
  }

  /** Within one interrupt the frames after a foul one are watched. */
  lemma {:induction false} DrainWatches(ck: Checks, promiscuous: bool, a: Abs, air: seq<seq<Stored>>, from: nat)
    requires AbsOk(a) && from <= |a.fates| && Watched(ck, from, a.fates)
    requires SomeFoul(ck, from, a.fates) ==> a.mode == 3
    ensures var b := Drain(ck, promiscuous, a, air);
            && Watched(ck, from, b.fates) && (SomeFoul(ck, from, b.fates) ==> b.mode == 3)
            && (b.mode == a.mode || b.mode == 3)
    decreases |air|, |a.pending|
  {
    hide GoesUp, ModeAfter, Watched, SomeFoul, PassedUp;
    if a.avail != 0 {
      var b := if air != [] then Hear(a, air[0]) else a;
      if b.pending != [] {
        HandleWatches(ck, promiscuous, b, from);
        DrainWatches(ck, promiscuous, HandleOne(ck, promiscuous, b), if air != [] then air[1..] else [], from);
      }
    }
  }

  /** After an interrupt with a foul frame, and from then on, the mode is 4; before that it stays as it was. */
  lemma {:induction false} ModeOfRuns(ck: Checks, mode: nat, grants: nat, events: seq<Event>)
    requires mode / 2 % 2 == 0
    ensures var a := After(ck, mode, grants, events);
            && (a.mode == mode || a.mode == 4) && (SomeFoul(ck, 0, a.fates) ==> a.mode == 4)
            && (AllPass(ck, mode % 2 == 1, a.fates) ==> a.mode == mode)
    decreases |events|
  {
    hide Drain, AllPass, Refill;
    if AllPass(ck, mode % 2 == 1, After(ck, mode, grants, events).fates) {
      RunCalm(ck, mode, grants, events, mode % 2 == 1);
    }
    if events != [] {
      var n := |events| - 1;
      var a := After(ck, mode, grants, events[..n]);
      ModeOfRuns(ck, mode, grants, events[..n]);
      FatesGrow(ck, a, events[n]);
      match events[n] {
        case Card(_) =>
        case Irq(received, promiscuous, air, _) =>
          if received {
            DrainWatches(ck, promiscuous, a, air, |a.fates|);
            FoulSplit(ck, a.fates, Drain(ck, promiscuous, a, air).fates);
          }
        case Reset(_) => FoulSplit(ck, a.fates, a.fates + Drops(a.pending));
      }
    }
  }

  lemma FoulSplit(ck: Checks, fates: seq<Fate>, more: seq<Fate>)
    requires fates <= more
    ensures SomeFoul(ck, 0, more) ==> SomeFoul(ck, 0, fates) || SomeFoul(ck, |fates|, more)
  {
    if SomeFoul(ck, 0, more) {
      var i :| 0 <= i < |more| && Foul(ck, more[i]);
      assert i < |fates| ==> Foul(ck, fates[i]);
    }
  }

  // ---- descriptors are not used up ----

  predicate AllShort(frames: seq<Stored>) {
    forall i :: 0 <= i < |frames| ==> frames[i].length < 0x624
  }

  predicate ShortFrames(events: seq<Event>) {
    forall i :: 0 <= i < |events| ==>
      match events[i]
      case Card(f) => f.length < 0x624
      case Irq(_, _, air, _) => forall k :: 0 <= k < |air| ==> AllShort(air[k])
      case Reset(_) => true
  }

  lemma {:induction false} DrainKeepsAvail(ck: Checks, promiscuous: bool, a: Abs, air: seq<seq<Stored>>)
    requires AbsOk(a) && AllShort(a.pending) && forall k :: 0 <= k < |air| ==> AllShort(air[k])
    ensures Drain(ck, promiscuous, a, air).avail == a.avail
    decreases |air|, |a.pending|
  {
    hide GoesUp, ModeAfter;
    if a.avail != 0 {
      var b := if air != [] then Hear(a, air[0]) else a;
      assert AllShort(b.pending);
      if b.pending != [] {
        DrainKeepsAvail(ck, promiscuous, HandleOne(ck, promiscuous, b), if air != [] then air[1..] else []);
      }
    }
  }

  /** With frames of fewer than 1572 bytes a ring that was filled stays full, whether or not memory can be had later. */
  lemma {:induction false} StaysFull(ck: Checks, mode: nat, grants: nat, events: seq<Event>)
    requires grants >= RX_DESC_CNT && NoReset(events) && ShortFrames(events)
    ensures var a := After(ck, mode, grants, events); a.avail == 32 && AllShort(a.pending)
    decreases |events|
  {
    hide Drain;
    if events != [] {
      var n := |events| - 1;
      StaysFull(ck, mode, grants, events[..n]);
      if events[n].Irq? && events[n].received {
        DrainKeepsAvail(ck, events[n].promiscuous, After(ck, mode, grants, events[..n]), events[n].air);
      }
    }
  }
}
