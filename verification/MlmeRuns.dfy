/**
 Whole runs of the connection machines: how many confirmations a walk through the table of
 networks can take, and when there is no bound.
 */
module MlmeRuns {
  import opened Mlme

  // ---- runs in phases ----

  const QUIET := Env(false, [], false, false, false, false, false)

  /** A table with one network. */
  function One(a: Addr): Env {
    QUIET.(found := [a])
  }

  lemma {:induction false} AfterConcat(c: Config, w: Where, a: seq<Event>, b: seq<Event>)
    ensures After(c, w, a + b) == After(c, After(c, w, a), b)
    decreases |b|
  {
    hide Step;
    if b == [] {
      assert a + b == a;
    } else {
      var n := |b| - 1;
      AfterConcat(c, w, a, b[..n]);
      assert a + b == (a + b[..n]) + [b[n]];
      AfterNext(c, w, a + b[..n], b[n]);
    }
  }

  lemma AfterOne(c: Config, w: Where, e: Event)
    ensures After(c, w, [e]) == Step(c, w, e)
  {
    AfterNext(c, w, [], e);
    assert [] + [e] == [e];
  }

  lemma AfterTwo(c: Config, w: Where, a: Event, b: Event)
    ensures After(c, w, [a, b]) == Step(c, Step(c, w, a), b)
  {
    hide After, Step;
    AfterOne(c, w, a);
    AfterNext(c, w, [a], b);
    assert [a] + [b] == [a, b];
  }

  lemma AfterThree(c: Config, w: Where, a: Event, b: Event, d: Event)
    ensures After(c, w, [a, b, d]) == Step(c, Step(c, Step(c, w, a), b), d)
  {
    hide After, Step;
    AfterTwo(c, w, a, b);
    AfterNext(c, w, [a, b], d);
    assert [a, b] + [d] == [a, b, d];
  }

  // The state after one event, with one message in the queue.

  lemma ServesBegin(c: Config, w: Where, m: Msg, env: Env)
    requires w.s.queue == [m] && ForSyncOrAssoc(m)
    ensures Step(c, w, Serve(env)).s == Begin(w.s.(queue := []), m)
  {
    hide Recorded, Begin, AuthPerformAction, MlmeCntlMachinePerformAction;
    assert [m][1..] == [];
  }

  lemma ServesAuth(c: Config, w: Where, m: Msg, env: Env)
    requires w.s.queue == [m] && ForAuth(m)
    ensures Step(c, w, Serve(env)).s == AuthPerformAction(w.s.(queue := []), m, env).s
  {
    hide Recorded, Begin, AuthPerformAction, MlmeCntlMachinePerformAction;
    assert [m][1..] == [];
  }

  lemma ServesCntl(c: Config, w: Where, m: Msg, env: Env)
    requires w.s.queue == [m] && !ForSyncOrAssoc(m) && !ForAuth(m)
    ensures Step(c, w, Serve(env)).s == MlmeCntlMachinePerformAction(c, w.s.(queue := []), m, env).s
  {
    hide Recorded, Begin, AuthPerformAction, MlmeCntlMachinePerformAction;
    assert [m][1..] == [];
  }

  lemma Arrives(c: Config, w: Where, m: Msg)
    requires w.s.queue == [] && ActivityOf(m) == None && m != AuthTimeout
    ensures Step(c, w, Arrive(m)).s == w.s.(queue := [m])
  {
    hide Recorded;
    assert [] + [m] == [m];
  }

  lemma Responds(c: Config, w: Where, k: Kind, ok: bool)
    requires w.s.queue == [] && w.s.busy == multiset{k} && k != Authenticate
    ensures Step(c, w, Answer(k, ok)).s == w.s.(busy := multiset{}, queue := [Confirmation(k, ok)])
  {
    hide Recorded, Confirmation;
    assert multiset{k} - multiset{k} == multiset{};
    assert [] + [Confirmation(k, ok)] == [Confirmation(k, ok)];
  }

  lemma SetsBlock(c: Config, w: Where, on: bool)
    ensures Step(c, w, SetBlock(on)).s == w.s.(blocked := on)
  {
    hide Recorded;
  }

  /** The user names a network, and there is one access point. */
  function AskEvents(a: Addr): seq<Event> {
    [Arrive(OidSsid), Serve(One(a))]
  }

  /** It is joined. */
  const JOIN := [Serve(QUIET), Answer(Join, true), Serve(QUIET)]

  function Asked(s: State, a: Addr): State {
    s.(cntl := WaitJoin, bssid := 0, tab := [a], idx := 0, queue := [JoinReq(0)])
  }

  function Joined(c: Config, s: State, a: Addr): State {
    s.(cntl := WaitAuth, bssid := a, queue := [AuthReq(a, FirstAlg(c.mode))])
  }

  lemma Asks(c: Config, w: Where, a: Addr)
    requires w.s.cntl == Idle && !w.s.linked && w.s.queue == []
    ensures After(c, w, AskEvents(a)).s == Asked(w.s, a)
  {
    hide After, Step, KeepsOthers;
    AfterTwo(c, w, Arrive(OidSsid), Serve(One(a)));
    Arrives(c, w, OidSsid);
    ServesCntl(c, Step(c, w, Arrive(OidSsid)), OidSsid, One(a));
  }

  lemma Joins(c: Config, w: Where, a: Addr)
    requires !c.adhoc && w.s.cntl == WaitJoin && w.s.queue == [JoinReq(0)] && w.s.tab == [a] && w.s.busy == multiset{}
    ensures After(c, w, JOIN).s == Joined(c, w.s, a)
  {
    hide After, Step, KeepsOthers;
    AfterThree(c, w, JOIN[0], JOIN[1], JOIN[2]);
    assert JOIN == [JOIN[0], JOIN[1], JOIN[2]];
    var w1 := Step(c, w, JOIN[0]);
    ServesBegin(c, w, JoinReq(0), QUIET);
    assert w1.s == w.s.(bssid := a, queue := [], busy := multiset{Join});
    Responds(c, w1, Join, true);
    ServesCntl(c, Step(c, w1, JOIN[1]), JoinConf(true), QUIET);
  }

  // ---- how long a connection attempt can take ----

  /** Five confirmations for each network in the table, at most. */
  predicate WithinBound(w: Where) {
    w.h.confs <= 5 * |w.s.tab|
  }

  /** In automatic mode, each open authentication refused because association is blocked may cost one more. */
  lemma ConfirmationsBounded(c: Config, alg: Alg, events: seq<Event>)
    requires IdleOnly(c, Boot(alg), events)
    ensures var w := After(c, Boot(alg), events);
            w.h.confs <= Limit(c, w.s, w.h) && (Connecting(w.s.cntl) ==> w.h.confs < Limit(c, w.s, w.h))
  {
    hide Placed, After, IdleOnly;
    CleanRuns(c, alg, events);
  }

  /** The event does not block associations. */
  predicate Lenient(e: Event) {
    e != SetBlock(true) && (e.Overwrite? ==> e.cntl == WaitListScan)
  }

  lemma NextUnblocked(c: Config, s: State, h: History, e: Event)
    requires Enabled(s, e) && Lenient(e) && !s.blocked && h.refused == 0
    ensures var o := Next(c, s, e); !o.s.blocked && Recorded(h, s, e, o).refused == 0
  {
    if e.Serve? {
      hide MlmeCntlMachinePerformAction, AuthPerformAction;
      AuthFrame(s.(queue := s.queue[1..]), s.queue[0], e.env);
    }
  }

  lemma {:induction false} NeverBlocked(c: Config, alg: Alg, events: seq<Event>)
    requires forall i :: 0 <= i < |events| ==> Lenient(events[i])
    ensures var w := After(c, Boot(alg), events); !w.s.blocked && w.h.refused == 0
    decreases |events|
  {
    hide Next, Recorded, Lenient;
    if events != [] {
      var n := |events| - 1;
      NeverBlocked(c, alg, events[..n]);
      var w := After(c, Boot(alg), events[..n]);
      if Enabled(w.s, events[n]) {
        NextUnblocked(c, w.s, w.h, events[n]);
      }
    }
  }

  /** While nothing blocks associations, the bound holds in every mode. */
  lemma LenientRunsBounded(c: Config, alg: Alg, events: seq<Event>)
    requires IdleOnly(c, Boot(alg), events) && forall i :: 0 <= i < |events| ==> Lenient(events[i])
    ensures WithinBound(After(c, Boot(alg), events))
  {
    hide After, IdleOnly, Lenient;
    ConfirmationsBounded(c, alg, events);
    NeverBlocked(c, alg, events);
  }

  // ---- the endless case ----

  /** CNTL has asked for open authentication, and AUTH is about to refuse. */
  const STUCK := State(WaitAuth2, ReqIdle, false, Shared, 2, 0, [2], [AuthReq(2, Open)], multiset{}, true, false)

  /** Shared keys are tried first, then open authentication, with an access point. */
  predicate Automatic(c: Config) {
    c.mode == AutoSwitch && !c.adhoc
  }

  /** Two messages later, everything is as before and one more confirmation has been used. */
  lemma StuckTurn(c: Config, h: History)
    requires Automatic(c)
    ensures var w := Step(c, Step(c, Where(STUCK, h), Serve(QUIET)), Serve(QUIET));
            w.s == STUCK && w.h.confs == h.confs + 1
  {
    var w := Step(c, Where(STUCK, h), Serve(QUIET));
    assert w.s == STUCK.(queue := [AuthConf(false)]);
  }

  function Turns(n: nat): (events: seq<Event>)
    ensures |events| == 2 * n && forall i :: 0 <= i < |events| ==> events[i] == Serve(QUIET)
  {
    seq(2 * n, _ => Serve(QUIET))
  }

  lemma {:induction false} StuckForever(c: Config, w: Where, n: nat)
    requires Automatic(c) && w.s == STUCK
    ensures var w' := After(c, w, Turns(n)); w'.s == STUCK && w'.h.confs == w.h.confs + n
  {
    hide Step;
    if n == 0 {
      assert Turns(0) == [];
    } else {
      StuckForever(c, w, n - 1);
      var once := Turns(n - 1) + [Serve(QUIET)];
      assert Turns(n) == once + [Serve(QUIET)];
      AfterNext(c, w, Turns(n - 1), Serve(QUIET));
      AfterNext(c, w, once, Serve(QUIET));
      StuckTurn(c, After(c, w, Turns(n - 1)).h);
    }
  }

  /** AUTH starts with shared keys. */
  const BEGIN := [Serve(QUIET)]

  /** Associations are blocked, and the network refuses. */
  const BLOCK := [SetBlock(true), Arrive(PeerAuth(true, 2, 2, false)), Serve(QUIET)]

  /** AUTH refuses the second attempt with shared keys, and CNTL asks for open authentication. */
  const AGAIN := [Serve(QUIET), Serve(QUIET), Serve(QUIET)]

  lemma Begins(c: Config, w: Where)
    requires w.s == STUCK.(cntl := WaitAuth, alg := w.s.alg, queue := [AuthReq(2, Shared)], blocked := false)
    ensures After(c, w, BEGIN).s == STUCK.(cntl := WaitAuth, auth := WaitSeq2, timer := true, queue := [],
            blocked := false)
  {
    hide After, Step;
    AfterOne(c, w, BEGIN[0]);
    assert BEGIN == [BEGIN[0]];
    ServesAuth(c, w, AuthReq(2, Shared), QUIET);
  }

  lemma Blocks(c: Config, w: Where)
    requires w.s == STUCK.(cntl := WaitAuth, auth := WaitSeq2, timer := true, queue := [], blocked := false)
    ensures After(c, w, BLOCK).s == STUCK.(cntl := WaitAuth, queue := [AuthConf(false)])
  {
    hide After, Step;
    AfterThree(c, w, BLOCK[0], BLOCK[1], BLOCK[2]);
    assert BLOCK == [BLOCK[0], BLOCK[1], BLOCK[2]];
    var w1 := Step(c, w, BLOCK[0]);
    SetsBlock(c, w, true);
    Arrives(c, w1, PeerAuth(true, 2, 2, false));
    ServesAuth(c, Step(c, w1, BLOCK[1]), PeerAuth(true, 2, 2, false), QUIET);
  }

  lemma AsksAgain(c: Config, w: Where)
    requires Automatic(c) && w.s == STUCK.(cntl := WaitAuth, queue := [AuthConf(false)])
    ensures After(c, w, AGAIN).s == STUCK
  {
    hide After, Step, KeepsOthers;
    AfterThree(c, w, AGAIN[0], AGAIN[1], AGAIN[2]);
    assert AGAIN == [AGAIN[0], AGAIN[1], AGAIN[2]];
    var w1 := Step(c, w, AGAIN[0]);
    ServesCntl(c, w, AuthConf(false), QUIET);
    assert w1.s == STUCK.(queue := [AuthReq(2, Shared)]);
    var w2 := Step(c, w1, AGAIN[1]);
    ServesAuth(c, w1, AuthReq(2, Shared), QUIET);
    assert w2.s == STUCK.(queue := [AuthConf(false)]);
    ServesCntl(c, w2, AuthConf(false), QUIET);
  }

  function ToStuck(): seq<Event> {
    AskEvents(2) + JOIN + BEGIN + BLOCK + AGAIN
  }

  lemma ReachStuck(c: Config, alg: Alg)
    requires Automatic(c)
    ensures After(c, Boot(alg), ToStuck()).s == STUCK
  {
    hide After, Asked, Joined, AskEvents, JOIN, BEGIN, BLOCK, AGAIN;
    var w := Boot(alg);
    AfterConcat(c, w, AskEvents(2) + JOIN + BEGIN + BLOCK, AGAIN);
    AfterConcat(c, w, AskEvents(2) + JOIN + BEGIN, BLOCK);
    AfterConcat(c, w, AskEvents(2) + JOIN, BEGIN);
    AfterConcat(c, w, AskEvents(2), JOIN);
    Asks(c, w, 2);
    AskedJoined(c, alg);
    Joins(c, After(c, w, AskEvents(2)), 2);
    Begins(c, After(c, w, AskEvents(2) + JOIN));
    Blocks(c, After(c, w, AskEvents(2) + JOIN + BEGIN));
    AsksAgain(c, After(c, w, AskEvents(2) + JOIN + BEGIN + BLOCK));
  }

  lemma AskedJoined(c: Config, alg: Alg)
    requires Automatic(c)
    ensures var s := Asked(Boot(alg).s, 2);
            && s.cntl == WaitJoin && s.queue == [JoinReq(0)] && s.tab == [2] && s.busy == multiset{}
            && Joined(c, s, 2) == STUCK.(cntl := WaitAuth, alg := alg, queue := [AuthReq(2, Shared)], blocked := false)
  {
  }

  lemma StuckIdleOnly(c: Config, alg: Alg, n: nat)
    ensures IdleOnly(c, Boot(alg), ToStuck() + Turns(n))
  {
    hide After;
  }

  /** One network, and n confirmations or more. */
  predicate Exceeds(w: Where, n: nat) {
    |w.s.tab| == 1 && w.h.confs >= n
  }

  ghost predicate CanTake(c: Config, alg: Alg, n: nat) {
    exists events :: IdleOnly(c, Boot(alg), events) && Exceeds(After(c, Boot(alg), events), n)
  }

  lemma Unbounded(c: Config, alg: Alg, n: nat)
    requires Automatic(c)
    ensures CanTake(c, alg, n)
  {
    hide After, IdleOnly, ToStuck;
    var events := ToStuck() + Turns(n);
    StuckIdleOnly(c, alg, n);
    ReachStuck(c, alg);
    AfterConcat(c, Boot(alg), ToStuck(), Turns(n));
    StuckForever(c, After(c, Boot(alg), ToStuck()), n);
    assert Exceeds(After(c, Boot(alg), events), n);
  }

  /**
   The bound holds of every run with interventions at rest only exactly when the mode is not automatic or there is
   no access point; otherwise one network alone can take any number of confirmations.
   */
  lemma BoundedIffNotAutomatic(c: Config, alg: Alg)
    ensures !Automatic(c) <==>
              forall events :: IdleOnly(c, Boot(alg), events) ==> WithinBound(After(c, Boot(alg), events))
    ensures Automatic(c) ==> forall n: nat :: CanTake(c, alg, n)
  {
    hide After, IdleOnly;
    if Automatic(c) {
      forall n: nat
        ensures CanTake(c, alg, n)
      {
        Unbounded(c, alg, n);
      }
      Unbounded(c, alg, 6);
      var events :| IdleOnly(c, Boot(alg), events) && Exceeds(After(c, Boot(alg), events), 6);
      assert !WithinBound(After(c, Boot(alg), events));
    } else {
      forall events | IdleOnly(c, Boot(alg), events)
        ensures WithinBound(After(c, Boot(alg), events))
      {
        ConfirmationsBounded(c, alg, events);
      }
    }
  }
}
