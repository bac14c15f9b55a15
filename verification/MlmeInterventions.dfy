/**
 Interventions: code outside CNTL that puts it into another state while an attempt to connect is under way. Exactly
 those that find CNTL authenticating can make the link come up on the answer to an earlier attempt.
 */
module MlmeInterventions {
  import opened Mlme
  import opened MlmeRuns

  // ---- what it means to be authenticated ----

  /** Between the join at i and n, entry p is the answer of address a on which AUTH confirmed success. */
  ghost predicate ConfirmedAt(log: seq<Entry>, i: nat, p: nat, n: nat, a: Addr) {
    && i < p < n <= |log| && log[p].confirmed
    && log[p].msg.PeerAuth? && log[p].msg.ok && log[p].msg.addr == a
  }

  /** The link went up at k with a network whose own answer authenticated this very attempt. */
  ghost predicate UpConfirmed(log: seq<Entry>, k: nat)
    requires k < |log|
  {
    exists i: nat, p: nat, j: nat ::
      AuthedAt(log, i, j, k, log[k].idx) && ConfirmedAt(log, i, p, j, log[k].bssid)
  }

  ghost predicate UpsConfirmed(log: seq<Entry>) {
    forall k: nat :: k < |log| && log[k].up ==> UpConfirmed(log, k)
  }

  lemma UpsConfirmedStay(log: seq<Entry>, e: Entry)
    requires UpsConfirmed(log) && (e.up ==> UpConfirmed(log + [e], |log|))
    ensures UpsConfirmed(log + [e])
  {
    hide AuthedAt;
    var more := log + [e];
    forall k: nat | k < |more| && more[k].up
      ensures UpConfirmed(more, k)
    {
      if k < |log| {
        assert log[k].up;
        var i: nat, p: nat, j: nat :| AuthedAt(log, i, j, k, log[k].idx) && ConfirmedAt(log, i, p, j, log[k].bssid);
        AuthedStays(log, e, i, j, k, log[k].idx);
        assert ConfirmedAt(more, i, p, j, more[k].bssid);
      }
    }
  }

  // ---- no intervention during authentication ----

  /** What concerns AUTH, and the requests to join, which change the address it checks. */
  predicate Concerns(m: Msg) {
    ActivityOf(m) == Of(Authenticate) || m.JoinReq?
  }

  function Line(queue: seq<Msg>): seq<Msg> {
    if queue == [] then [] else (if Concerns(queue[0]) then [queue[0]] else []) + Line(queue[1..])
  }

  lemma {:induction false} LineLast(queue: seq<Msg>, m: Msg)
    ensures Line(queue + [m]) == Line(queue) + if Concerns(m) then [m] else []
    decreases |queue|
  {
    hide Concerns;
    if queue == [] {
      assert queue + [m] == [m];
    } else {
      LineLast(queue[1..], m);
      var all := queue + [m];
      assert all[1..] == queue[1..] + [m] && all[0] == queue[0];
      assert Line(all) == (if Concerns(all[0]) then [all[0]] else []) + Line(all[1..]);
    }
  }

  predicate AllJoins(line: seq<Msg>) {
    forall i :: 0 <= i < |line| ==> line[i].JoinReq?
  }

  /**
   While CNTL authenticates, AUTH has its request before it, is at it, or has reported; and nobody will join in
   between. Otherwise AUTH is idle and nothing concerns it. Requests to join may be left over from an earlier attempt.
   */
  ghost predicate Attended(auth: Auth, line: seq<Msg>, confirmed: bool) {
    || (auth == ReqIdle && line != [] && AllJoins(line[..|line| - 1]) && line[|line| - 1].AuthReq?)
    || (auth != ReqIdle && line == [])
    || (auth == ReqIdle && |line| == 1 && line[0].AuthConf? && (line[0].ok ==> confirmed))
  }

  ghost predicate Loose(s: State, h: History) {
    if InAuth(s.cntl) then
      Attended(s.auth, Line(s.queue), ConfirmedAt(h.log, h.joinAt, h.peerAt, |h.log|, s.bssid))
    else
      && s.auth == ReqIdle && AllJoins(Line(s.queue))
      && (s.cntl == WaitAssoc ==> Line(s.queue) == [] && ConfirmedAt(h.log, h.joinAt, h.peerAt, h.authAt, s.bssid))
  }

  lemma ConfirmedStays(log: seq<Entry>, more: seq<Entry>, i: nat, p: nat, n: nat, m: nat, a: Addr)
    requires ConfirmedAt(log, i, p, n, a) && log <= more && n <= m <= |more|
    ensures ConfirmedAt(more, i, p, m, a)
  {
  }

  /** A message that leaves alone AUTH, the address, and what concerns AUTH in the queue. */
  lemma SameLoose(s: State, h: History, s': State, h': History)
    requires Loose(s, h) && h.log <= h'.log && h'.joinAt == h.joinAt && h'.authAt == h.authAt && h'.peerAt == h.peerAt
    requires s'.cntl == s.cntl && s'.auth == s.auth && Line(s'.queue) == Line(s.queue)
    requires InAuth(s.cntl) || s.cntl == WaitAssoc ==> s'.bssid == s.bssid
    ensures Loose(s', h')
  {
  }

  /** The state with the first message taken out. */
  function Rest(s: State): State
    requires s.queue != []
  {
    s.(queue := s.queue[1..])
  }

  lemma TakenLine(s: State)
    requires s.queue != []
    ensures Line(s.queue) == (if Concerns(s.queue[0]) then [s.queue[0]] else []) + Line(Rest(s).queue)
  {
  }

  /** The first of the messages that concern AUTH is taken. */
  lemma TakenFirst(auth: Auth, line: seq<Msg>, confirmed: bool, m: Msg, rest: seq<Msg>)
    requires Attended(auth, line, confirmed) && line == [m] + rest
    ensures auth == ReqIdle
    ensures if m.JoinReq? then Attended(auth, rest, false) else rest == [] && (m.AuthReq? || m.AuthConf?)
    ensures m == AuthConf(true) ==> confirmed
  {
    var n := |line| - 1;
    if AllJoins(line[..n]) && line[n].AuthReq? {
      if rest != [] {
        assert line[..n][0] == m;
        assert rest[|rest| - 1] == line[n];
        forall i | 0 <= i < |rest| - 1
          ensures rest[i].JoinReq?
        {
          assert line[..n][i + 1] == rest[i];
        }
      }
    }
  }

  lemma TakenJoin(line: seq<Msg>, m: Msg, rest: seq<Msg>)
    requires AllJoins(line) && line == [m] + rest
    ensures m.JoinReq? && AllJoins(rest)
  {
    assert line[0] == m;
    forall i | 0 <= i < |rest|
      ensures rest[i].JoinReq?
    {
      assert line[i + 1] == rest[i];
    }
  }

  /** A message that concerns AUTH comes to the front: a request to join, or what AUTH or CNTL waits for. */
  lemma TakenConcern(s: State, h: History)
    requires s.queue != [] && Concerns(s.queue[0]) && Loose(s, h)
    ensures s.auth == ReqIdle
    ensures var m, rest := s.queue[0], Line(Rest(s).queue);
            if m.JoinReq? then
              if InAuth(s.cntl) then Attended(s.auth, rest, false) else s.cntl != WaitAssoc && AllJoins(rest)
            else
              && InAuth(s.cntl) && rest == [] && (m.AuthReq? || m.AuthConf?)
              && (m == AuthConf(true) ==> ConfirmedAt(h.log, h.joinAt, h.peerAt, |h.log|, s.bssid))
  {
    hide Line, Attended, AllJoins, ConfirmedAt;
    TakenLine(s);
    var m, rest := s.queue[0], Line(Rest(s).queue);
    if InAuth(s.cntl) {
      TakenFirst(s.auth, Line(s.queue), ConfirmedAt(h.log, h.joinAt, h.peerAt, |h.log|, s.bssid), m, rest);
    } else {
      TakenJoin(Line(s.queue), m, rest);
    }
  }

  /** The places in the record move only on the messages that CNTL and AUTH act on. */
  predicate Logged(h: History, h': History, s: State, o: Out)
    requires s.queue != []
  {
    var m := s.queue[0];
    && h'.log == h.log + [Entry(m, s.cntl, s.idx, s.bssid, o.confirmed, o.up)]
    && h'.joinAt == (if m == JoinConf(true) && s.cntl == WaitJoin then |h.log| else h.joinAt)
    && h'.authAt == (if m == AuthConf(true) && InAuth(s.cntl) then |h.log| else h.authAt)
    && h'.peerAt == (if o.confirmed then |h.log| else h.peerAt)
  }

  lemma StillAttended(s: State, h: History)
    requires InAuth(s.cntl) && Attended(s.auth, Line(s.queue), false)
    ensures Loose(s, h)
  {
  }

  /** SYNC or ASSOC starts on a request. */
  lemma BeginLoose(s: State, h: History, h': History)
    requires s.queue != [] && ForSyncOrAssoc(s.queue[0]) && Loose(s, h)
    requires Logged(h, h', s, Out(Begin(Rest(s), s.queue[0]), false, false))
    ensures Loose(Begin(Rest(s), s.queue[0]), h')
  {
    hide Line;
    TakenLine(s);
    var m, t := s.queue[0], Begin(Rest(s), s.queue[0]);
    if m.JoinReq? {
      TakenConcern(s, h);
      hide AllJoins;
    } else if m == AssocReq {
      LineLast(Rest(s).queue, AssocConf(false));
      SameLoose(s, h, t, h');
    } else {
      SameLoose(s, h, t, h');
    }
  }

  /** AUTH takes its request; no request to join is behind it. */
  lemma AuthReqLoose(s: State, h: History, h': History, env: Env)
    requires s.queue != [] && s.queue[0].AuthReq? && Loose(s, h)
    requires Logged(h, h', s, AuthPerformAction(Rest(s), s.queue[0], env))
    ensures Loose(AuthPerformAction(Rest(s), s.queue[0], env).s, h')
  {
    hide Line, ConfirmedAt, AuthPerformAction;
    TakenConcern(s, h);
    LineLast(Rest(s).queue, AuthConf(false));
    hide Loose;
    var t := AuthPerformAction(Rest(s), s.queue[0], env).s;
    AuthReqShape(Rest(s), s.queue[0], env);
    assert Attended(t.auth, Line(t.queue), false);
    StillAttended(t, h');
  }

  lemma AuthReqShape(s: State, m: Msg, env: Env)
    requires m.AuthReq? && s.auth == ReqIdle
    ensures var t := AuthPerformAction(s, m, env).s;
            t.cntl == s.cntl && t.queue == if t.auth == ReqIdle then s.queue + [AuthConf(false)] else s.queue
  {
  }

  /** An answer or a timeout comes to AUTH. */
  lemma PeerLoose(s: State, h: History, h': History, env: Env)
    requires s.queue != [] && (s.queue[0].PeerAuth? || s.queue[0] == AuthTimeout) && Loose(s, h) && Traced(s, h)
    requires Logged(h, h', s, AuthPerformAction(Rest(s), s.queue[0], env))
    ensures Loose(AuthPerformAction(Rest(s), s.queue[0], env).s, h')
  {
    hide Line, UpsOk, AuthedAt;
    TakenLine(s);
    var m, o := s.queue[0], AuthPerformAction(Rest(s), s.queue[0], env);
    if s.auth == ReqIdle {
      SameLoose(s, h, o.s, h');
    } else {
      assert InAuth(s.cntl) && h.joinAt < |h.log|;
      AuthStepShape(Rest(s), m, env);
      LineLast(Rest(s).queue, AuthConf(o.confirmed));
      if o.confirmed {
        PeerConfirms(Rest(s), h, m, env);
      }
      hide AuthPerformAction;
    }
  }

  /** Success is confirmed on an answer from the address in hand. */
  lemma PeerConfirms(s: State, h: History, m: Msg, env: Env)
    requires h.joinAt < |h.log| && AuthPerformAction(s, m, env).confirmed
    ensures ConfirmedAt(h.log + [Entry(m, s.cntl, s.idx, s.bssid, true, false)], h.joinAt, |h.log|, |h.log| + 1,
            s.bssid)
  {
  }

  /** What CNTL adds to the queue, and which state it goes to with it. */
  predicate Moves(s: State, m: Msg, t: State) {
    && t.auth == s.auth
    && (|| t == s
        || (t.queue == s.queue && !InAuth(t.cntl) && t.cntl != WaitAssoc)
        || (|t.queue| == |s.queue| + 1 && s.queue <= t.queue && Suits(s, m, t, t.queue[|s.queue|])))
    && (InAuth(s.cntl) && !m.AuthConf? ==> t == s)
  }

  predicate Suits(s: State, m: Msg, t: State, x: Msg) {
    match t.cntl
    case WaitAssoc => x == AssocReq && m == AuthConf(true) && t.bssid == s.bssid && InAuth(s.cntl)
    case WaitAuth => x.AuthReq?
    case WaitAuth2 => x.AuthReq?
    case _ => Concerns(x) ==> x.JoinReq?
  }

  lemma AskMoves(s: State, m: Msg, r: State, x: Msg, c: Cntl)
    requires ActivityOf(x) != None && r.queue == s.queue && r.auth == s.auth && Suits(s, m, r.(cntl := c), x)
    requires InAuth(s.cntl) ==> m.AuthConf?
    ensures Moves(s, m, Ask(r, x, c))
  {
    assert Suits(s, m, Ask(r, x, c), x);
    hide Suits;
  }

  lemma StayMoves(s: State, m: Msg, t: State)
    requires t == s || (t.queue == s.queue && t.auth == s.auth && !InAuth(t.cntl) && t.cntl != WaitAssoc)
    requires InAuth(s.cntl) && !m.AuthConf? ==> t == s
    ensures Moves(s, m, t)
  {
  }

  lemma IterateMoves(c: Config, s: State, m: Msg, r: State)
    requires r.queue == s.queue && r.auth == s.auth && (InAuth(s.cntl) ==> m.AuthConf?)
    ensures Moves(s, m, IterateOnBssTab(c, r))
  {
    hide Moves, Ask;
    if r.idx < |r.tab| {
      AskMoves(s, m, r, JoinReq(r.idx), WaitJoin);
    } else if c.adhoc {
      AskMoves(s, m, r, StartReq, WaitStart);
    } else {
      StayMoves(s, m, r.(cntl := Idle));
    }
  }

  lemma IdleMoves(c: Config, s: State, m: Msg, env: Env)
    requires s.cntl == Idle
    ensures Moves(s, m, CntlIdleProc(c, s, m, env))
  {
  }

  lemma DisassocMoves(c: Config, s: State, m: Msg)
    requires s.cntl == WaitDisassoc
    ensures Moves(s, m, CntlWaitDisassocProc(c, s, m))
  {
    hide Moves, Ask, IterateOnBssTab, KeepsOthers;
    if m != DisassocConf {
      StayMoves(s, m, s);
    } else if s.tab == [] && c.adhoc {
      AskMoves(s, m, s.(linked := false), StartReq, WaitStart);
    } else {
      IterateMoves(c, s, m, s.(idx := 0, linked := false));
    }
  }

  lemma JoinMoves(c: Config, s: State, m: Msg)
    requires s.cntl == WaitJoin
    ensures Moves(s, m, CntlWaitJoinProc(c, s, m))
  {
    hide Moves, Ask, IterateOnBssTab, KeepsOthers;
    if !m.JoinConf? {
      StayMoves(s, m, s);
    } else if !m.ok {
      IterateMoves(c, s, m, s.(idx := s.idx + 1));
    } else if c.adhoc {
      StayMoves(s, m, CntlWaitJoinProc(c, s, m));
    } else {
      AskMoves(s, m, s, AuthReq(s.bssid, FirstAlg(c.mode)), WaitAuth);
    }
  }

  lemma AuthMoves(c: Config, s: State, m: Msg)
    requires InAuth(s.cntl)
    ensures Moves(s, m, if s.cntl == WaitAuth then CntlWaitAuthProc(c, s, m) else CntlWaitAuthProc2(c, s, m))
  {
    hide Moves, Ask, IterateOnBssTab, KeepsOthers;
    if !m.AuthConf? {
      StayMoves(s, m, s);
    } else if m.ok {
      AskMoves(s, m, s, AssocReq, WaitAssoc);
    } else if s.cntl == WaitAuth {
      AskMoves(s, m, s, AuthReq(s.bssid, FirstAlg(c.mode)), WaitAuth2);
    } else if c.mode == AutoSwitch && s.alg == Shared {
      AskMoves(s, m, s, AuthReq(s.bssid, Open), WaitAuth2);
    } else {
      IterateMoves(c, s, m, s.(idx := s.idx + 1));
    }
  }

  lemma AssocMoves(c: Config, s: State, m: Msg)
    requires s.cntl == WaitAssoc
    ensures Moves(s, m, CntlWaitAssocProc(c, s, m))
  {
    hide Moves, Ask, IterateOnBssTab, KeepsOthers;
    if m.AssocConf? && !m.ok {
      IterateMoves(c, s, m, s.(idx := s.idx + 1));
    } else {
      StayMoves(s, m, CntlWaitAssocProc(c, s, m));
    }
  }

  lemma CntlMoves(c: Config, s: State, m: Msg, env: Env)
    ensures Moves(s, m, MlmeCntlMachinePerformAction(c, s, m, env).s)
  {
    hide Moves, KeepsOthers, CntlIdleProc, CntlWaitDisassocProc, CntlWaitJoinProc, CntlWaitAuthProc, CntlWaitAuthProc2;
    hide CntlWaitAssocProc;
    match s.cntl
    case Idle => IdleMoves(c, s, m, env);
    case WaitDisassoc => DisassocMoves(c, s, m);
    case WaitJoin => JoinMoves(c, s, m);
    case WaitAuth => AuthMoves(c, s, m);
    case WaitAuth2 => AuthMoves(c, s, m);
    case WaitAssoc => AssocMoves(c, s, m);
    case _ => StayMoves(s, m, MlmeCntlMachinePerformAction(c, s, m, env).s);
  }

  /** The line after CNTL's move. */
  lemma MovedLine(s: State, m: Msg, t: State)
    requires Moves(s, m, t)
    ensures Line(t.queue) == if t.queue == s.queue || !Concerns(t.queue[|s.queue|]) then Line(s.queue)
                             else Line(s.queue) + [t.queue[|s.queue|]]
  {
    hide Suits, Line;
    if t.queue != s.queue {
      var x := t.queue[|s.queue|];
      LineLast(s.queue, x);
      assert t.queue == s.queue + [x];
    }
  }

  lemma AllJoinsLast(line: seq<Msg>, x: Msg)
    requires AllJoins(line)
    ensures x.JoinReq? ==> AllJoins(line + [x])
    ensures x.AuthReq? ==> Attended(ReqIdle, line + [x], false)
  {
    assert (line + [x])[..|line|] == line;
  }

  lemma AtRest(s: State, h: History)
    requires Elsewhere(s.cntl) && s.auth == ReqIdle && AllJoins(Line(s.queue))
    ensures Loose(s, h)
  {
  }

  lemma AtAssoc(s: State, h: History)
    requires s.cntl == WaitAssoc && s.auth == ReqIdle && Line(s.queue) == []
    requires ConfirmedAt(h.log, h.joinAt, h.peerAt, h.authAt, s.bssid)
    ensures Loose(s, h)
  {
  }

  lemma NoneJoins()
    ensures AllJoins([])
  {
  }

  lemma LoggedAuthConf(h: History, h': History, s: State, o: Out)
    requires s.queue != [] && s.queue[0].AuthConf? && InAuth(s.cntl) && !o.confirmed && Logged(h, h', s, o)
    ensures h.log <= h'.log && h'.joinAt == h.joinAt && h'.peerAt == h.peerAt
    ensures s.queue[0].ok ==> h'.authAt == |h.log|
  {
  }

  /** CNTL hears from AUTH. */
  lemma AuthConfLoose(s: State, h: History, h': History, t: State)
    requires s.queue != [] && s.queue[0].AuthConf? && Loose(s, h)
    requires Logged(h, h', s, Out(t, false, false)) && Moves(Rest(s), s.queue[0], t) && t != Rest(s)
    ensures Loose(t, h')
  {
    hide Loose, Line, AllJoins, Attended, ConfirmedAt, Logged, Moves;
    TakenConcern(s, h);
    LoggedAuthConf(h, h', s, Out(t, false, false));
    if s.queue[0].ok {
      ConfirmedStays(h.log, h'.log, h.joinAt, h.peerAt, |h.log|, |h.log|, s.bssid);
    }
    MovesFrom(Rest(s), s.queue[0], t, h');
  }

  /** CNTL moves when AUTH has reported and nothing else concerns it. */
  lemma MovesFrom(s: State, m: Msg, t: State, h: History)
    requires Moves(s, m, t) && t != s && InAuth(s.cntl) && s.auth == ReqIdle && Line(s.queue) == []
    requires m == AuthConf(true) ==> ConfirmedAt(h.log, h.joinAt, h.peerAt, h.authAt, s.bssid)
    ensures Loose(t, h)
  {
    hide Loose, Line, AllJoins, Attended, ConfirmedAt;
    MovedLine(s, m, t);
    NoneJoins();
    if t.queue == s.queue {
      AtRest(t, h);
    } else {
      AllJoinsLast([], t.queue[|s.queue|]);
      if InAuth(t.cntl) {
        StillAttended(t, h);
      } else if t.cntl == WaitAssoc {
        AtAssoc(t, h);
      } else {
        AtRest(t, h);
      }
    }
  }

  /** CNTL moves from a state in which nothing concerns AUTH. */
  lemma MovesLoose(s: State, m: Msg, t: State, h: History)
    requires Moves(s, m, t) && !InAuth(s.cntl) && s.auth == ReqIdle && AllJoins(Line(s.queue))
    requires t == s ==> s.cntl != WaitAssoc
    ensures Loose(t, h)
  {
    hide AllJoins, Attended, Line, Loose;
    MovedLine(s, m, t);
    if t.queue == s.queue {
      AtRest(t, h);
    } else {
      AllJoinsLast(Line(s.queue), t.queue[|s.queue|]);
      if InAuth(t.cntl) {
        StillAttended(t, h);
      } else {
        AtRest(t, h);
      }
    }
  }

  /** CNTL handles anything else. */
  lemma CntlLoose(s: State, h: History, h': History, t: State, up: bool)
    requires s.queue != [] && !Concerns(s.queue[0]) && Loose(s, h)
    requires Logged(h, h', s, Out(t, up, false)) && Moves(Rest(s), s.queue[0], t)
    ensures Loose(t, h')
  {
    var r, m := Rest(s), s.queue[0];
    TakenLine(s);
    assert Line(r.queue) == Line(s.queue);
    hide Line, ConfirmedAt, AllJoins, Attended, Suits;
    if InAuth(s.cntl) || (s.cntl == WaitAssoc && t == r) {
      assert t == r;
      SameLoose(s, h, t, h');
    } else {
      MovesLoose(r, m, t, h');
    }
  }

  /** CNTL does not ignore what AUTH reports. */
  lemma AuthConfMoves(c: Config, s: State, h: History, env: Env)
    requires s.queue != [] && s.queue[0].AuthConf? && Loose(s, h)
    ensures MlmeCntlMachinePerformAction(c, Rest(s), s.queue[0], env).s != Rest(s)
  {
    TakenConcern(s, h);
    hide CntlIdleProc;
  }

  lemma ServeLoose(c: Config, s: State, h: History, env: Env)
    requires s.queue != [] && Loose(s, h) && Traced(s, h)
    ensures var o := Next(c, s, Serve(env)); Loose(o.s, Recorded(h, s, Serve(env), o))
  {
    hide Loose, TraceOk, Begin, AuthPerformAction, MlmeCntlMachinePerformAction;
    var m, h' := s.queue[0], Recorded(h, s, Serve(env), Next(c, s, Serve(env)));
    if ForSyncOrAssoc(m) {
      BeginLoose(s, h, h');
    } else if m.AuthReq? {
      AuthReqLoose(s, h, h', env);
    } else if ForAuth(m) {
      PeerLoose(s, h, h', env);
    } else if m.AuthConf? {
      CntlMoves(c, Rest(s), m, env);
      AuthConfMoves(c, s, h, env);
      AuthConfLoose(s, h, h', Next(c, s, Serve(env)).s);
    } else {
      CntlMoves(c, Rest(s), m, env);
      CntlLoose(s, h, h', Next(c, s, Serve(env)).s, Next(c, s, Serve(env)).up);
    }
  }

  /** Something is added to the queue that does not concern AUTH. */
  lemma AddedLoose(s: State, h: History, m: Msg, s': State)
    requires Loose(s, h) && !Concerns(m) && s'.queue == s.queue + [m]
    requires s'.cntl == s.cntl && s'.auth == s.auth && s'.bssid == s.bssid
    ensures Loose(s', h)
  {
    LineLast(s.queue, m);
    assert Line(s'.queue) == Line(s.queue);
    hide Line, Attended, AllJoins, ConfirmedAt;
  }

  lemma OverwriteLoose(s: State, h: History, m: Msg, s': State, h': History)
    requires Loose(s, h) && !InAuth(s.cntl) && !Concerns(m) && s'.queue == s.queue + [m]
    requires Elsewhere(s'.cntl) && s'.auth == s.auth
    ensures Loose(s', h')
  {
    LineLast(s.queue, m);
    assert Line(s'.queue) == Line(s.queue);
    hide Line, AllJoins, ConfirmedAt;
  }

  lemma NextLoose(c: Config, s: State, h: History, e: Event)
    requires Enabled(s, e) && (e.Overwrite? ==> !InAuth(s.cntl)) && Traced(s, h) && Loose(s, h)
    ensures var o := Next(c, s, e); Loose(o.s, Recorded(h, s, e, o))
  {
    hide Loose, Dispatch, TraceOk;
    var t := Next(c, s, e).s;
    match e
    case Serve(env) => ServeLoose(c, s, h, env);
    case Answer(k, ok) => AddedLoose(s, h, Confirmation(k, ok), t);
    case Arrive(m) => AddedLoose(s, h, m, t);
    case Fire => AddedLoose(s, h, AuthTimeout, t);
    case Overwrite(c') =>
      OverwriteLoose(s, h, if c' == WaitListScan then ScanReq else DisassocReq, t, Recorded(h, s, e, Next(c, s, e)));
    case SetBlock(_) => FlagLoose(s, h, t);
    case LoseLink => FlagLoose(s, h, t);
    case Restart => RestartLoose(s, Recorded(h, s, e, Next(c, s, e)));
  }

  lemma RestartLoose(s: State, h: History)
    ensures Loose(Restarted(s), h)
  {
  }

  lemma FlagLoose(s: State, h: History, s': State)
    requires Loose(s, h) && s'.cntl == s.cntl && s'.auth == s.auth && s'.queue == s.queue && s'.bssid == s.bssid
    ensures Loose(s', h)
  {
  }

  /** When the link goes up, it is on this attempt's own authentication. */
  lemma NextConfirmed(c: Config, s: State, h: History, e: Event)
    requires Enabled(s, e) && Traced(s, h) && Loose(s, h) && UpsConfirmed(h.log)
    ensures UpsConfirmed(Recorded(h, s, e, Next(c, s, e)).log)
  {
    hide UpsConfirmed, UpsOk, AuthedAt, JoinedAt, Line, Begin, AuthPerformAction, CntlIdleProc;
    if e.Overwrite? || e.Restart? {
      UpsConfirmedStay(h.log, Entry(Other, s.cntl, s.idx, s.bssid, false, false));
    } else if e.Serve? {
      var m, o := s.queue[0], Next(c, s, e);
      AuthFrame(Rest(s), m, e.env);
      var entry := Entry(m, s.cntl, s.idx, s.bssid, o.confirmed, o.up);
      var log, k := h.log + [entry], |h.log|;
      if o.up {
        AuthedStays(h.log, entry, h.joinAt, h.authAt, k, s.idx);
        assert AuthedAt(log, h.joinAt, h.authAt, k, log[k].idx)
               && ConfirmedAt(log, h.joinAt, h.peerAt, h.authAt, log[k].bssid);
        assert UpConfirmed(log, k);
      }
      UpsConfirmedStay(h.log, entry);
    }
  }

  // ---- runs ----

  /** No intervention finds CNTL authenticating. */
  ghost predicate Undisturbed(c: Config, w: Where, events: seq<Event>) {
    forall i :: 0 <= i < |events| && events[i].Overwrite? && Enabled(After(c, w, events[..i]).s, events[i]) ==>
      !InAuth(After(c, w, events[..i]).s.cntl)
  }

  lemma UndisturbedPrefix(c: Config, w: Where, events: seq<Event>, n: nat)
    requires n <= |events| && Undisturbed(c, w, events)
    ensures Undisturbed(c, w, events[..n])
  {
    hide After;
    forall i | 0 <= i < n
      ensures events[..n][i] == events[i] && events[..n][..i] == events[..i]
    {
    }
  }

  lemma {:induction false} LooseRuns(c: Config, alg: Alg, events: seq<Event>)
    requires Undisturbed(c, Boot(alg), events)
    ensures var w := After(c, Boot(alg), events); Loose(w.s, w.h) && UpsConfirmed(w.h.log)
    decreases |events|
  {
    hide Next, Recorded, UpsConfirmed;
    if events == [] {
      StartsLoose(alg);
    } else {
      var n := |events| - 1;
      UndisturbedPrefix(c, Boot(alg), events, n);
      LooseRuns(c, alg, events[..n]);
      LinkUpSafety(c, alg, events[..n]);
      var w := After(c, Boot(alg), events[..n]);
      if Enabled(w.s, events[n]) {
        hide Loose, TraceOk;
        NextLoose(c, w.s, w.h, events[n]);
        NextConfirmed(c, w.s, w.h, events[n]);
      }
    }
  }

  lemma StartsLoose(alg: Alg)
    ensures Loose(Boot(alg).s, Boot(alg).h) && UpsConfirmed(Boot(alg).h.log)
  {
  }

  /** In a network without access points, CNTL never authenticates. */
  lemma {:induction false} AdhocNeverAuthenticates(c: Config, alg: Alg, events: seq<Event>)
    requires c.adhoc
    ensures Elsewhere(After(c, Boot(alg), events).s.cntl)
    decreases |events|
  {
    hide Recorded;
    if events != [] {
      var n := |events| - 1;
      AdhocNeverAuthenticates(c, alg, events[..n]);
      var s := After(c, Boot(alg), events[..n]).s;
      if Enabled(s, events[n]) {
        hide Next;
        AdhocStep(c, s, events[n]);
      }
    }
  }

  lemma AdhocStep(c: Config, s: State, e: Event)
    requires c.adhoc && Enabled(s, e) && Elsewhere(s.cntl)
    ensures Elsewhere(Next(c, s, e).s.cntl)
  {
    if e.Serve? {
      hide AuthPerformAction, MlmeCntlMachinePerformAction, KeepsOthers, FramesAuth;
      var m := s.queue[0];
      if ForAuth(m) {
        AuthKeepsCntl(Rest(s), m, e.env);
      } else if !ForSyncOrAssoc(m) {
        AdhocCntl(c, Rest(s), m, e.env);
      }
    }
  }

  lemma AuthKeepsCntl(s: State, m: Msg, env: Env)
    ensures AuthPerformAction(s, m, env).s.cntl == s.cntl
  {
    hide AuthPerformAction;
    AuthFrame(s, m, env);
  }

  lemma AdhocCntl(c: Config, s: State, m: Msg, env: Env)
    requires c.adhoc && Elsewhere(s.cntl)
    ensures Elsewhere(MlmeCntlMachinePerformAction(c, s, m, env).s.cntl)
  {
    hide MlmeCntlMachinePerformAction, KeepsOthers;
    CntlGoes(c, s, m, env);
  }

  /** Which states interventions may find CNTL in, and which they may put it into. */
  type Policy = (Cntl, Cntl) -> bool

  ghost predicate Follows(c: Config, w: Where, events: seq<Event>, may: Policy) {
    forall i :: 0 <= i < |events| && events[i].Overwrite? && Enabled(After(c, w, events[..i]).s, events[i]) ==>
      may(After(c, w, events[..i]).s.cntl, events[i].cntl)
  }

  /** No intervention finds CNTL authenticating. */
  ghost predicate Spares(may: Policy) {
    forall found, put :: InAuth(found) && Intervention(put) != None ==> !may(found, put)
  }

  lemma LinkUpAuthenticated(c: Config, alg: Alg, events: seq<Event>, may: Policy)
    requires Follows(c, Boot(alg), events, may) && (c.adhoc || Spares(may))
    ensures UpsConfirmed(After(c, Boot(alg), events).h.log)
  {
    hide After, UpsConfirmed;
    forall i | 0 <= i < |events| && events[i].Overwrite? && Enabled(After(c, Boot(alg), events[..i]).s, events[i])
      ensures !InAuth(After(c, Boot(alg), events[..i]).s.cntl)
    {
      if c.adhoc {
        AdhocNeverAuthenticates(c, alg, events[..i]);
      }
    }
    LooseRuns(c, alg, events);
  }

  // ---- an intervention during authentication ----

  /** Where AUTH stands when only the last answer is missing. */
  function Last(g: Alg): Auth {
    if g == Open then WaitSeq2 else WaitSeq4
  }

  function LastAnswer(g: Alg, a: Addr): Msg {
    PeerAuth(true, a, if g == Open then 2 else 4, true)
  }

  /** AUTH works until only the last answer is missing. */
  function AuthenticateEvents(g: Alg, a: Addr): seq<Event> {
    [Serve(QUIET)] + if g == Open then [] else [Arrive(PeerAuth(true, a, 2, true)), Serve(QUIET)]
  }

  function Waiting(s: State, g: Alg, a: Addr): State {
    s.(auth := Last(g), timer := true, alg := g, bssid := a, queue := [])
  }

  lemma Authenticates(c: Config, w: Where, g: Alg, a: Addr)
    requires InAuth(w.s.cntl) && w.s.queue == [AuthReq(a, g)] && w.s.auth == ReqIdle && !w.s.blocked
    ensures After(c, w, AuthenticateEvents(g, a)).s == Waiting(w.s, g, a)
  {
    hide After, Step;
    var w1 := Step(c, w, Serve(QUIET));
    ServesAuth(c, w, AuthReq(a, g), QUIET);
    assert w1.s == w.s.(auth := WaitSeq2, timer := true, alg := g, bssid := a, queue := []);
    if g == Open {
      AfterOne(c, w, Serve(QUIET));
      assert AuthenticateEvents(g, a) == [Serve(QUIET)];
    } else {
      var m := PeerAuth(true, a, 2, true);
      AfterThree(c, w, Serve(QUIET), Arrive(m), Serve(QUIET));
      assert AuthenticateEvents(g, a) == [Serve(QUIET), Arrive(m), Serve(QUIET)];
      Arrives(c, w1, m);
      ServesAuth(c, Step(c, w1, Arrive(m)), m, QUIET);
    }
  }

  /** The last answer comes, and CNTL asks to associate. */
  function AnswerEvents(g: Alg, a: Addr): seq<Event> {
    [Arrive(LastAnswer(g, a)), Serve(QUIET), Serve(QUIET)]
  }

  lemma Answers(c: Config, w: Where, g: Alg, a: Addr)
    requires InAuth(w.s.cntl) && w.s == Waiting(w.s, g, a)
    ensures After(c, w, AnswerEvents(g, a)).s == w.s.(cntl := WaitAssoc, auth := ReqIdle, timer := false,
            queue := [AssocReq])
  {
    hide After, Step, KeepsOthers;
    var m := LastAnswer(g, a);
    AfterThree(c, w, Arrive(m), Serve(QUIET), Serve(QUIET));
    var w1 := Step(c, w, Arrive(m));
    Arrives(c, w, m);
    var w2 := Step(c, w1, Serve(QUIET));
    ServesAuth(c, w1, m, QUIET);
    assert w2.s == w.s.(auth := ReqIdle, timer := false, queue := [AuthConf(true)]) by {
      hide MlmeCntlMachinePerformAction;
    }
    hide AuthPerformAction;
    ServesCntl(c, w2, AuthConf(true), QUIET);
  }

  /** The network accepts, and the link goes up. */
  const ASSOCIATE := [Serve(QUIET), Answer(Associate, true), Serve(QUIET)]

  lemma Associates(c: Config, w: Where)
    requires w.s.cntl == WaitAssoc && w.s.queue == [AssocReq] && !w.s.blocked && w.s.busy == multiset{}
    ensures After(c, w, ASSOCIATE).s == w.s.(cntl := Idle, linked := true, queue := [])
  {
    hide After, Step, KeepsOthers;
    AfterThree(c, w, ASSOCIATE[0], ASSOCIATE[1], ASSOCIATE[2]);
    assert ASSOCIATE == [ASSOCIATE[0], ASSOCIATE[1], ASSOCIATE[2]];
    var w1 := Step(c, w, ASSOCIATE[0]);
    ServesBegin(c, w, AssocReq, QUIET);
    assert w1.s == w.s.(queue := [], busy := multiset{Associate});
    Responds(c, w1, Associate, true);
    ServesCntl(c, Step(c, w1, ASSOCIATE[1]), AssocConf(true), QUIET);
  }

  /** CNTL is told to roam to a better access point. */
  const ROAM := [Arrive(Roaming), Serve(One(2))]

  lemma Roams(c: Config, w: Where)
    requires w.s.cntl == Idle && w.s.queue == []
    ensures After(c, w, ROAM).s == w.s.(cntl := WaitJoin, tab := [2], idx := 0, queue := [JoinReq(0)])
  {
    hide After, Step, KeepsOthers;
    AfterTwo(c, w, ROAM[0], ROAM[1]);
    assert ROAM == [ROAM[0], ROAM[1]];
    Arrives(c, w, Roaming);
    ServesCntl(c, Step(c, w, ROAM[0]), Roaming, One(2));
  }

  /** The first attempt to authenticate finds no memory. */
  const FAIL := [Serve(QUIET.(noMemory := true)), Serve(QUIET)]

  lemma Fails(c: Config, w: Where, g: Alg)
    requires w.s.cntl == WaitAuth && w.s.queue == [AuthReq(2, g)] && w.s.auth == ReqIdle && !w.s.blocked
             && g == FirstAlg(c.mode)
    ensures After(c, w, FAIL).s == w.s.(cntl := WaitAuth2, timer := false, alg := g, bssid := 2)
  {
    hide After, Step, KeepsOthers;
    AfterTwo(c, w, FAIL[0], FAIL[1]);
    assert FAIL == [FAIL[0], FAIL[1]];
    var w1 := Step(c, w, FAIL[0]);
    ServesAuth(c, w, AuthReq(2, g), QUIET.(noMemory := true));
    assert w1.s == w.s.(timer := false, alg := g, bssid := 2, queue := [AuthConf(false)]);
    hide AuthPerformAction;
    ServesCntl(c, w1, AuthConf(false), QUIET);
  }

  /** AUTH was left waiting; its answer comes while the next attempt joins. */
  function StaleEvents(g: Alg): seq<Event> {
    [Serve(QUIET), Arrive(LastAnswer(g, 2)), Answer(Join, true)] + [Serve(QUIET), Serve(QUIET), Serve(QUIET)]
    + [Serve(QUIET), Serve(QUIET)] + [Answer(Associate, true), Serve(QUIET)]
  }

  /** The next attempt is about to join while AUTH still waits for the earlier one. */
  function Leftover(g: Alg, a: Addr): State {
    State(WaitJoin, Last(g), true, g, a, 0, [2], [JoinReq(0)], multiset{}, false, false)
  }

  lemma StaleAnswer(c: Config, w: Where, g: Alg, a: Addr)
    requires w.s == Leftover(g, a)
    ensures After(c, w, [Serve(QUIET), Arrive(LastAnswer(g, 2)), Answer(Join, true)]).s ==
            Leftover(g, 2).(queue := [LastAnswer(g, 2), JoinConf(true)])
  {
    hide After, Recorded, LastAnswer;
    AfterThree(c, w, Serve(QUIET), Arrive(LastAnswer(g, 2)), Answer(Join, true));
    assert [JoinReq(0)][1..] == [];
    var w1 := Step(c, w, Serve(QUIET));
    assert w1.s == Leftover(g, 2).(queue := [], busy := multiset{Join});
    assert ActivityOf(LastAnswer(g, 2)) == None && LastAnswer(g, 2) != AuthTimeout by { AnswerIsPeer(g); }
    var w2 := Step(c, w1, Arrive(LastAnswer(g, 2)));
    assert w2.s == w1.s.(queue := [LastAnswer(g, 2)]);
  }

  lemma AnswerIsPeer(g: Alg)
    ensures LastAnswer(g, 2).PeerAuth?
  {
  }

  /** CNTL takes the stale success for its own. */
  lemma StaleSuccess(c: Config, w: Where, g: Alg)
    requires !c.adhoc && g == FirstAlg(c.mode)
    requires w.s == Leftover(g, 2).(queue := [LastAnswer(g, 2), JoinConf(true)])
    ensures var w' := After(c, w, [Serve(QUIET), Serve(QUIET), Serve(QUIET)]);
            var n := |w'.h.log|;
            && w'.s == State(WaitAssoc, ReqIdle, false, g, 2, 0, [2], [AuthReq(2, g), AssocReq], multiset{}, false,
                false)
            && n >= 2 && w'.h.log[n - 2].cntl == WaitJoin && w'.h.log[n - 1].cntl == WaitAuth
  {
    hide After, CntlIdleProc, Begin, AuthPerformAction, LastAnswer, Last;
    AfterThree(c, w, Serve(QUIET), Serve(QUIET), Serve(QUIET));
    var w1 := Step(c, w, Serve(QUIET));
    StaleReport(c, w, g);
    var w2 := Step(c, w1, Serve(QUIET));
    assert w2.s == w1.s.(cntl := WaitAuth, queue := [AuthConf(true), AuthReq(2, g)]);
  }

  lemma StaleReport(c: Config, w: Where, g: Alg)
    requires w.s == Leftover(g, 2).(queue := [LastAnswer(g, 2), JoinConf(true)])
    ensures Step(c, w, Serve(QUIET)).s == w.s.(auth := ReqIdle, timer := false,
            queue := [JoinConf(true), AuthConf(true)])
  {
    hide Recorded, MlmeCntlMachinePerformAction;
  }

  lemma StaleRequests(c: Config, w: Where, g: Alg)
    requires w.s == State(WaitAssoc, ReqIdle, false, g, 2, 0, [2], [AuthReq(2, g), AssocReq], multiset{}, false, false)
    ensures var w' := After(c, w, [Serve(QUIET), Serve(QUIET)]);
            && w'.s.cntl == WaitAssoc && w'.s.queue == [] && w'.s.busy == multiset{Associate}
            && |w'.h.log| == |w.h.log| + 2 && w.h.log <= w'.h.log
            && w'.h.log[|w.h.log|].cntl == WaitAssoc && w'.h.log[|w.h.log| + 1].cntl == WaitAssoc
  {
    hide After, MlmeCntlMachinePerformAction;
    AfterTwo(c, w, Serve(QUIET), Serve(QUIET));
    var w1 := Step(c, w, Serve(QUIET));
    assert w1.s == w.s.(auth := WaitSeq2, timer := true, queue := [AssocReq]);
  }

  lemma StaleUp(c: Config, w: Where)
    requires w.s.cntl == WaitAssoc && w.s.queue == [] && w.s.busy == multiset{Associate}
    ensures var log := After(c, w, [Answer(Associate, true), Serve(QUIET)]).h.log;
            |log| == |w.h.log| + 1 && w.h.log <= log && log[|w.h.log|].up
  {
    hide After;
    AfterTwo(c, w, Answer(Associate, true), Serve(QUIET));
    var w1 := Step(c, w, Answer(Associate, true));
    assert w1.s.queue == [AssocConf(true)] && w1.s.cntl == WaitAssoc;
  }

  /** The link went up last; between the join and what CNTL took for its authentication, nobody answered. */
  lemma NoAnswerBetween(log: seq<Entry>)
    requires |log| >= 5
    requires log[|log| - 5].cntl == WaitJoin && log[|log| - 4].cntl == WaitAuth
    requires log[|log| - 3].cntl == log[|log| - 2].cntl == WaitAssoc
    requires log[|log| - 1].up
    ensures !UpsConfirmed(log)
  {
    var k := |log| - 1;
    forall i: nat, j: nat | AuthedAt(log, i, j, k, log[k].idx)
      ensures j == i + 1
    {
      OnlyPlaces(log, i, j, k);
    }
    assert !UpConfirmed(log, k);
  }

  lemma OnlyPlaces(log: seq<Entry>, i: nat, j: nat, k: nat)
    requires 4 <= k < |log| && AuthedAt(log, i, j, k, log[k].idx)
    requires log[k - 4].cntl == WaitJoin && log[k - 3].cntl == WaitAuth
             && log[k - 2].cntl == log[k - 1].cntl == WaitAssoc
    ensures i == k - 4 && j == k - 3
  {
  }

  lemma StaleRun(c: Config, w: Where, a: Addr)
    requires !c.adhoc && w.s == Leftover(FirstAlg(c.mode), a)
    ensures !UpsConfirmed(After(c, w, StaleEvents(FirstAlg(c.mode))).h.log)
  {
    hide After, UpsConfirmed, Leftover;
    var g := FirstAlg(c.mode);
    var t1 := [Serve(QUIET), Arrive(LastAnswer(g, 2)), Answer(Join, true)];
    var t2, t3 := [Serve(QUIET), Serve(QUIET), Serve(QUIET)], [Serve(QUIET), Serve(QUIET)];
    var t4 := [Answer(Associate, true), Serve(QUIET)];
    AfterConcat(c, w, t1 + t2 + t3, t4);
    AfterConcat(c, w, t1 + t2, t3);
    AfterConcat(c, w, t1, t2);
    StaleAnswer(c, w, g, a);
    StaleSuccess(c, After(c, w, t1), g);
    StaleRequests(c, After(c, w, t1 + t2), g);
    StaleUp(c, After(c, w, t1 + t2 + t3));
    NoAnswerBetween(After(c, w, t1 + t2 + t3 + t4).h.log);
  }

  // ---- the whole run ----

  /** Connected to an access point. */
  function Connected(g: Alg): State {
    State(Idle, ReqIdle, false, g, 4, 0, [4], [], multiset{}, false, true)
  }

  function ConnectEvents(g: Alg): seq<Event> {
    AskEvents(4) + JOIN + AuthenticateEvents(g, 4) + AnswerEvents(g, 4) + ASSOCIATE
  }

  lemma Connects(c: Config, alg: Alg)
    requires !c.adhoc
    ensures var g := FirstAlg(c.mode); After(c, Boot(alg), ConnectEvents(g)).s == Connected(g)
  {
    hide After, AskEvents, JOIN, AuthenticateEvents, AnswerEvents, ASSOCIATE, Last;
    var w, g := Boot(alg), FirstAlg(c.mode);
    var ask, auth, answer := AskEvents(4), AuthenticateEvents(g, 4), AnswerEvents(g, 4);
    AfterConcat(c, w, ask + JOIN + auth + answer, ASSOCIATE);
    AfterConcat(c, w, ask + JOIN + auth, answer);
    AfterConcat(c, w, ask + JOIN, auth);
    AfterConcat(c, w, ask, JOIN);
    Asks(c, w, 4);
    Joins(c, After(c, w, ask), 4);
    Authenticates(c, After(c, w, ask + JOIN), g, 4);
    Answers(c, After(c, w, ask + JOIN + auth), g, 4);
    Associates(c, After(c, w, ask + JOIN + auth + answer));
  }

  /** CNTL roams, and is in state found, waiting for AUTH's last answer. */
  function RoamEvents(g: Alg, found: Cntl): seq<Event> {
    ROAM + JOIN + (if found == WaitAuth2 then FAIL else []) + AuthenticateEvents(g, 2)
  }

  function Roamed(g: Alg, found: Cntl): State {
    Waiting(Connected(g), g, 2).(cntl := found, tab := [2])
  }

  lemma RoamsTo(c: Config, w: Where, found: Cntl)
    requires !c.adhoc && w.s == Connected(FirstAlg(c.mode)) && InAuth(found)
    ensures var g := FirstAlg(c.mode); After(c, w, RoamEvents(g, found)).s == Roamed(g, found)
  {
    hide After, ROAM, JOIN, FAIL, AuthenticateEvents, Last;
    var g := FirstAlg(c.mode);
    var f := if found == WaitAuth2 then FAIL else [];
    AfterConcat(c, w, ROAM + JOIN + f, AuthenticateEvents(g, 2));
    AfterConcat(c, w, ROAM + JOIN, f);
    AfterConcat(c, w, ROAM, JOIN);
    Roams(c, w);
    Joins(c, After(c, w, ROAM), 2);
    if found == WaitAuth2 {
      Fails(c, After(c, w, ROAM + JOIN), g);
    } else {
      AfterNone(c, After(c, w, ROAM + JOIN));
    }
    Authenticates(c, After(c, w, ROAM + JOIN + f), g, 2);
  }

  lemma AfterNone(c: Config, w: Where)
    ensures After(c, w, []) == w
  {
  }

  /** What the intervention asked for is done. */
  function DoneEvents(k: Kind): seq<Event> {
    [Serve(QUIET), Answer(k, true), Serve(QUIET)]
  }

  lemma ScanDone(c: Config, w: Where)
    requires w.s.cntl == WaitListScan && w.s.queue == [ScanReq] && w.s.busy == multiset{}
    ensures After(c, w, DoneEvents(Scan)).s == w.s.(cntl := Idle, queue := [])
  {
    hide After, Step, KeepsOthers;
    AfterThree(c, w, Serve(QUIET), Answer(Scan, true), Serve(QUIET));
    var w1 := Step(c, w, Serve(QUIET));
    ServesBegin(c, w, ScanReq, QUIET);
    assert w1.s == w.s.(queue := [], busy := multiset{Scan});
    Responds(c, w1, Scan, true);
    ServesCntl(c, Step(c, w1, Answer(Scan, true)), ScanConf, QUIET);
  }

  lemma DisassocDone(c: Config, w: Where)
    requires w.s.cntl == WaitDisassoc || w.s.cntl == WaitOidDisassoc
    requires w.s.queue == [DisassocReq] && w.s.busy == multiset{} && w.s.tab == [2]
    ensures After(c, w, DoneEvents(Disassociate)).s ==
            if w.s.cntl == WaitDisassoc then w.s.(cntl := WaitJoin, idx := 0, linked := false, queue := [JoinReq(0)])
            else w.s.(cntl := Idle, linked := false, queue := [])
  {
    hide After, Step, KeepsOthers;
    AfterThree(c, w, Serve(QUIET), Answer(Disassociate, true), Serve(QUIET));
    var w1 := Step(c, w, Serve(QUIET));
    ServesBegin(c, w, DisassocReq, QUIET);
    assert w1.s == w.s.(queue := [], busy := multiset{Disassociate});
    Responds(c, w1, Disassociate, true);
    ServesCntl(c, Step(c, w1, Answer(Disassociate, true)), DisassocConf, QUIET);
  }

  /** From the intervention to the next attempt; blocked associations are allowed again before it. */
  function NextAttempt(put: Cntl): seq<Event> {
    if put == WaitListScan then DoneEvents(Scan) + AskEvents(2) + DoneEvents(Disassociate)
    else DoneEvents(Disassociate) + [SetBlock(false)] + if put == WaitOidDisassoc then AskEvents(2) else []
  }

  function Intervened(g: Alg, put: Cntl): State {
    Roamed(g, put).(queue := [if put == WaitListScan then ScanReq else DisassocReq], blocked := put != WaitListScan)
  }

  /** The user names the network while there is a link: it is given up first. */
  lemma AsksLinked(c: Config, w: Where)
    requires w.s.cntl == Idle && w.s.linked && w.s.queue == []
    ensures After(c, w, AskEvents(2)).s == w.s.(cntl := WaitDisassoc, bssid := 0, tab := [2], queue := [DisassocReq])
  {
    hide After, Step, KeepsOthers;
    AfterTwo(c, w, Arrive(OidSsid), Serve(One(2)));
    Arrives(c, w, OidSsid);
    ServesCntl(c, Step(c, w, Arrive(OidSsid)), OidSsid, One(2));
  }

  lemma TriesAgain(c: Config, w: Where, g: Alg, put: Cntl)
    requires Intervention(put) != None && w.s == Intervened(g, put)
    ensures After(c, w, NextAttempt(put)).s == Leftover(g, if put == WaitDisassoc then 2 else 0)
  {
    hide After, AskEvents, DoneEvents, Last;
    var ask, scan, leave := AskEvents(2), DoneEvents(Scan), DoneEvents(Disassociate);
    if put == WaitListScan {
      ScanDone(c, w);
      AfterConcat(c, w, scan, ask);
      AsksLinked(c, After(c, w, scan));
      AfterConcat(c, w, scan + ask, leave);
      DisassocDone(c, After(c, w, scan + ask));
    } else {
      DisassocDone(c, w);
      AfterConcat(c, w, leave, [SetBlock(false)]);
      Unblocks(c, After(c, w, leave));
      var left := leave + [SetBlock(false)];
      AfterConcat(c, w, left, if put == WaitOidDisassoc then ask else []);
      if put == WaitOidDisassoc {
        Asks(c, After(c, w, left), 2);
      } else {
        AfterNone(c, After(c, w, left));
      }
    }
  }

  lemma Unblocks(c: Config, w: Where)
    ensures After(c, w, [SetBlock(false)]).s == w.s.(blocked := false)
  {
    hide After, Step;
    AfterOne(c, w, SetBlock(false));
    SetsBlock(c, w, false);
  }

  function Before(g: Alg, found: Cntl): seq<Event> {
    ConnectEvents(g) + RoamEvents(g, found)
  }

  function Afterwards(g: Alg, put: Cntl): seq<Event> {
    NextAttempt(put) + StaleEvents(g)
  }

  predicate NoOverwrite(events: seq<Event>) {
    forall i :: 0 <= i < |events| ==> !events[i].Overwrite?
  }

  lemma OnlyOneIntervention(g: Alg, found: Cntl, put: Cntl)
    ensures NoOverwrite(Before(g, found)) && NoOverwrite(Afterwards(g, put))
  {
    NoOverwriteBefore(g, found);
    NoOverwriteNext(put);
    assert NoOverwrite(StaleEvents(g));
    hide ConnectEvents, RoamEvents, NextAttempt, StaleEvents;
  }

  lemma NoOverwriteBefore(g: Alg, found: Cntl)
    ensures NoOverwrite(ConnectEvents(g)) && NoOverwrite(RoamEvents(g, found))
  {
    assert NoOverwrite(AskEvents(4)) && NoOverwrite(JOIN) && NoOverwrite(AuthenticateEvents(g, 4));
    assert NoOverwrite(AnswerEvents(g, 4)) && NoOverwrite(ASSOCIATE);
    assert NoOverwrite(ROAM) && NoOverwrite(FAIL) && NoOverwrite(AuthenticateEvents(g, 2));
    hide AskEvents, JOIN, AuthenticateEvents, AnswerEvents, ASSOCIATE, ROAM, FAIL;
  }

  lemma NoOverwriteNext(put: Cntl)
    ensures NoOverwrite(NextAttempt(put))
  {
    assert NoOverwrite(DoneEvents(Scan)) && NoOverwrite(DoneEvents(Disassociate)) && NoOverwrite(AskEvents(2));
    hide AskEvents, DoneEvents;
  }

  /** CNTL is intervened in while it authenticates, in any mode; the link comes up on the stale answer. */
  lemma InterventionMisleads(c: Config, alg: Alg, found: Cntl, put: Cntl)
    requires !c.adhoc && InAuth(found) && Intervention(put) != None
    ensures var g := FirstAlg(c.mode);
            var w := After(c, Boot(alg), Before(g, found));
            && w.s.cntl == found
            && !UpsConfirmed(After(c, Boot(alg), Before(g, found) + [Overwrite(put)] + Afterwards(g, put)).h.log)
  {
    hide After, ConnectEvents, RoamEvents, UpsConfirmed, NextAttempt, StaleEvents, Last;
    var g, w := FirstAlg(c.mode), Boot(alg);
    var before := Before(g, found);
    AfterConcat(c, w, ConnectEvents(g), RoamEvents(g, found));
    Connects(c, alg);
    RoamsTo(c, After(c, w, ConnectEvents(g)), found);
    AfterNext(c, w, before, Overwrite(put));
    Intervenes(c, After(c, w, before), g, found, put);
    var now := before + [Overwrite(put)];
    AfterConcat(c, w, now, NextAttempt(put));
    TriesAgain(c, After(c, w, now), g, put);
    AfterConcat(c, w, now + NextAttempt(put), StaleEvents(g));
    assert now + NextAttempt(put) + StaleEvents(g) == now + Afterwards(g, put);
    StaleRun(c, After(c, w, now + NextAttempt(put)), if put == WaitDisassoc then 2 else 0);
  }

  lemma Intervenes(c: Config, w: Where, g: Alg, found: Cntl, put: Cntl)
    requires w.s == Roamed(g, found) && Intervention(put) != None
    ensures Step(c, w, Overwrite(put)).s == Intervened(g, put)
  {
    hide Recorded, Last;
  }

  lemma FollowsOne(c: Config, w: Where, a: seq<Event>, put: Cntl, b: seq<Event>, may: Policy)
    requires NoOverwrite(a) && NoOverwrite(b) && may(After(c, w, a).s.cntl, put)
    ensures Follows(c, w, a + [Overwrite(put)] + b, may)
  {
    hide After;
    var events := a + [Overwrite(put)] + b;
    forall i | 0 <= i < |events| && events[i].Overwrite?
      ensures i == |a| && events[..i] == a
    {
    }
  }

  /**
   Every link that comes up is with a network whose own answer authenticated this very attempt, in all runs that
   follow a policy, if and only if the policy lets no intervention find CNTL authenticating.
   */
  lemma AuthenticatedIff(c: Config, alg: Alg, may: Policy)
    ensures (forall events :: Follows(c, Boot(alg), events, may) ==> UpsConfirmed(After(c, Boot(alg), events).h.log))
            <==> c.adhoc || Spares(may)
  {
    hide After, UpsConfirmed, Follows, Before, Afterwards;
    if c.adhoc || Spares(may) {
      forall events | Follows(c, Boot(alg), events, may)
        ensures UpsConfirmed(After(c, Boot(alg), events).h.log)
      {
        LinkUpAuthenticated(c, alg, events, may);
      }
    } else {
      var found, put :| InAuth(found) && Intervention(put) != None && may(found, put);
      var g := FirstAlg(c.mode);
      InterventionMisleads(c, alg, found, put);
      OnlyOneIntervention(g, found, put);
      FollowsOne(c, Boot(alg), Before(g, found), put, Afterwards(g, put), may);
    }
  }
}
