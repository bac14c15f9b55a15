/**
 The handler loop of the management entity, in place: it takes one message after the other
 from the queue and lets the machine it is for change the shared state.
 */
module MlmeHandler {
  import opened Mlme
  import MlmeRuns

  // ---- why the loop ends ----

  /** Messages that belong to no activity. */
  function Noise(queue: seq<Msg>): int {
    |queue| - |Acts(queue)|
  }

  /** How far CNTL is from being at rest. */
  function Distance(c: Config, s: State, t: Token): int {
    match s.cntl
    case Idle => 0
    case WaitStart => 1
    case WaitListScan => 1
    case WaitOidDisassoc => 1
    case WaitDisassoc => 5 * |s.tab| + 2
    case _ => Fuel(c, s, t) + 1
  }

  /** A request in the queue is further from the end than a confirmation. */
  function Rank(t: Token): nat {
    if !t.Queued? then 0 else if ForSyncOrAssoc(t.msg) || ForAuth(t.msg) then 2 else 1
  }

  ghost predicate Closer(c: Config, s: State, t: Token, s': State, t': Token) {
    Distance(c, s', t') < Distance(c, s, t) || (Distance(c, s', t') == Distance(c, s, t) && Rank(t') < Rank(t))
  }

  lemma {:induction false} NoiseIsNatural(queue: seq<Msg>)
    ensures Noise(queue) >= 0
    decreases |queue|
  {
    if queue != [] {
      NoiseIsNatural(queue[1..]);
    }
  }

  lemma DistanceIsNatural(c: Config, s: State, h: History)
    requires Clean(c, s, h)
    ensures Distance(c, s, TokenOf(s)) >= 0
  {
    hide Placed, TokenOf;
  }

  lemma AskToken(s: State, m: Msg, c: Cntl)
    requires Free(s) && Awaits(c) == ActivityOf(m) != None
    ensures TokenOf(Ask(s, m, c)) == Queued(m)
  {
    AskPlaced(s, m, c);
    PlacedIsToken(Ask(s, m, c), Queued(m));
  }

  lemma IterateToken(c: Config, s: State)
    requires Free(s)
    ensures var t := IterateOnBssTab(c, s);
            Distance(c, t, TokenOf(t))
            == if s.idx < |s.tab| then 5 * (|s.tab| - s.idx) + 1 else if c.adhoc then 1 else 0
  {
    hide TokenOf, Acts;
    if s.idx < |s.tab| {
      AskToken(s, JoinReq(s.idx), WaitJoin);
    } else if c.adhoc {
      AskToken(s, StartReq, WaitStart);
    }
  }

  lemma AskDistance(c: Config, s: State, m: Msg, next: Cntl)
    requires Free(s) && Awaits(next) == ActivityOf(m) != None
    ensures var t := Ask(s, m, next); Distance(c, t, TokenOf(t)) == Distance(c, s.(cntl := next), Queued(m))
  {
    hide TokenOf;
    AskToken(s, m, next);
  }

  lemma JoinConfCloser(c: Config, s: State, m: Msg)
    requires Free(s) && s.cntl == WaitJoin && m.JoinConf? && s.idx < |s.tab|
    ensures var s' := CntlWaitJoinProc(c, s, m); Distance(c, s', TokenOf(s')) < Distance(c, s, Queued(m))
  {
    hide TokenOf, Ask, IterateOnBssTab, Acts;
    if !m.ok {
      var next := s.(idx := s.idx + 1);
      assert Free(next);
      IterateToken(c, next);
    } else if !c.adhoc {
      AskDistance(c, s, AuthReq(s.bssid, FirstAlg(c.mode)), WaitAuth);
    }
  }

  lemma AuthConfCloser(c: Config, s: State, m: Msg)
    requires Free(s) && InAuth(s.cntl) && m.AuthConf? && s.idx < |s.tab|
    ensures var s' := if s.cntl == WaitAuth then CntlWaitAuthProc(c, s, m) else CntlWaitAuthProc2(c, s, m);
            Distance(c, s', TokenOf(s')) < Distance(c, s, Queued(m))
  {
    hide TokenOf, Ask, IterateOnBssTab, Acts;
    if m.ok {
      AskDistance(c, s, AssocReq, WaitAssoc);
    } else if s.cntl == WaitAuth {
      AskDistance(c, s, AuthReq(s.bssid, FirstAlg(c.mode)), WaitAuth2);
    } else if c.mode == AutoSwitch && s.alg == Shared {
      AskDistance(c, s, AuthReq(s.bssid, Open), WaitAuth2);
    } else {
      var next := s.(idx := s.idx + 1);
      assert Free(next);
      IterateToken(c, next);
    }
  }

  lemma AssocConfCloser(c: Config, s: State, m: Msg)
    requires Free(s) && s.cntl == WaitAssoc && m.AssocConf? && s.idx < |s.tab|
    ensures var s' := CntlWaitAssocProc(c, s, m); Distance(c, s', TokenOf(s')) < Distance(c, s, Queued(m))
  {
    hide TokenOf, Ask, IterateOnBssTab, Acts;
    if !m.ok {
      var next := s.(idx := s.idx + 1);
      assert Free(next);
      IterateToken(c, next);
    }
  }

  lemma DisassocConfCloser(c: Config, s: State)
    requires Free(s) && s.cntl == WaitDisassoc
    ensures var s' := CntlWaitDisassocProc(c, s, DisassocConf);
            Distance(c, s', TokenOf(s')) < Distance(c, s, Queued(DisassocConf))
  {
    hide TokenOf, Ask, IterateOnBssTab, Acts;
    if s.tab == [] && c.adhoc {
      AskDistance(c, s.(linked := false), StartReq, WaitStart);
    } else {
      var next := s.(idx := 0, linked := false);
      assert Free(next);
      IterateToken(c, next);
    }
  }

  /** A confirmation brings CNTL closer to rest. */
  lemma ConfirmationCloser(c: Config, s: State, m: Msg, env: Env)
    requires Free(s) && Awaits(s.cntl) == ActivityOf(m) != None && !ForSyncOrAssoc(m) && !ForAuth(m)
             && Facts(s, Queued(m))
    ensures var s' := MlmeCntlMachinePerformAction(c, s, m, env).s;
            Distance(c, s', TokenOf(s')) < Distance(c, s, Queued(m))
  {
    hide TokenOf, KeepsOthers, Free, CntlIdleProc, CntlWaitDisassocProc, CntlWaitJoinProc, CntlWaitAuthProc;
    hide CntlWaitAuthProc2, CntlWaitAssocProc;
    match s.cntl
    case WaitJoin => JoinConfCloser(c, s, m);
    case WaitAuth => AuthConfCloser(c, s, m);
    case WaitAuth2 => AuthConfCloser(c, s, m);
    case WaitAssoc => AssocConfCloser(c, s, m);
    case WaitDisassoc => DisassocConfCloser(c, s);
    case _ =>
  }

  lemma AddedAct(q: seq<Msg>, r: seq<Msg>)
    requires AddsAct(q, r)
    ensures Noise(r) == Noise(q)
  {
    if r != q {
      ActsLast(q, r[|q|]);
      assert r == q + [r[|q|]];
    }
  }

  lemma TakenNoise(queue: seq<Msg>)
    requires queue != []
    ensures Noise(queue[1..]) == Noise(queue) - if ActivityOf(queue[0]) == None then 1 else 0
  {
  }

  /** AUTH takes its request: nothing is closer or further, but the request is gone. */
  lemma AuthReqCloser(c: Config, s: State, m: Msg, env: Env)
    requires Free(s) && m.AuthReq? && InAuth(s.cntl) && !c.adhoc && !Looping(c, s)
    ensures var s' := AuthPerformAction(s, m, env).s; Closer(c, s, Queued(m), s', TokenOf(s'))
  {
    var s' := AuthPerformAction(s, m, env).s;
    ActsLast(s.queue, AuthConf(false));
    hide Acts;
  }

  /** A request is started on, or refused at once. */
  lemma BegunToken(s: State, m: Msg)
    requires Free(s) && ForSyncOrAssoc(m) && Awaits(s.cntl) == ActivityOf(m)
    ensures TokenOf(Begin(s, m))
            == if m == AssocReq && s.blocked then Queued(AssocConf(false)) else At(ActivityOf(m).kind)
  {
    ActsLast(s.queue, AssocConf(false));
    hide Acts;
  }

  lemma BegunSame(s: State, m: Msg)
    ensures var t := Begin(s, m); t.cntl == s.cntl && t.tab == s.tab && t.idx == s.idx && t.alg == s.alg
  {
  }

  lemma BeginCloser(c: Config, s: State, m: Msg)
    requires Free(s) && ForSyncOrAssoc(m) && Awaits(s.cntl) == ActivityOf(m)
    ensures Closer(c, s, Queued(m), Begin(s, m), TokenOf(Begin(s, m)))
  {
    hide TokenOf, Acts, Begin;
    BegunToken(s, m);
    BegunSame(s, m);
  }

  lemma DispatchAdds(c: Config, s: State, m: Msg, env: Env)
    ensures AddsAct(s.queue, Dispatch(c, s, m, env).s.queue)
  {
    hide AuthPerformAction, MlmeCntlMachinePerformAction;
    AuthFrame(s, m, env);
  }

  /** A request or confirmation taken from the queue brings CNTL closer to rest. */
  lemma ActCloser(c: Config, s: State, h: History, m: Msg, env: Env)
    requires Free(s) && Awaits(s.cntl) == ActivityOf(m) != None && !(Looping(c, s) && m.AuthReq?)
    requires Facts(s, Queued(m)) && Bounded(c, s, h, Queued(m))
    ensures var s' := Dispatch(c, s, m, env).s; Closer(c, s, Queued(m), s', TokenOf(s'))
  {
    assert InAuth(s.cntl) ==> !c.adhoc;
    hide Facts, Bounded, Acts, AuthPerformAction, MlmeCntlMachinePerformAction, TokenOf, Begin, Distance, Rank;
    if ForSyncOrAssoc(m) {
      BeginCloser(c, s, m);
    } else if m.AuthReq? {
      AuthReqCloser(c, s, m, env);
    } else {
      ConfirmationCloser(c, s, m, env);
    }
  }

  lemma CloserFromRest(c: Config, s: State, q: seq<Msg>, t: Token, s': State, t': Token)
    requires Closer(c, s.(queue := q), t, s', t')
    ensures Closer(c, s, t, s', t')
  {
  }

  /** AUTH is about to refuse, and CNTL will ask again. */
  predicate Refusing(c: Config, s: State) {
    Looping(c, s) && TokenOf(s).Queued? && TokenOf(s).msg.AuthReq?
  }

  /** Every other turn of the loop: fewer other messages, or CNTL is closer to rest. */
  lemma ServeCloser(c: Config, s: State, h: History, env: Env)
    requires s.queue != [] && Clean(c, s, h) && !Refusing(c, s)
    ensures Nearer(c, s, Next(c, s, Serve(env)).s)
  {
    var m, rest, t := s.queue[0], s.(queue := s.queue[1..]), TokenOf(s);
    hide Placed, Facts, Bounded, Acts, Noise, Dispatch, TokenOf, Closer, AddsAct;
    var s' := Dispatch(c, rest, m, env).s;
    DispatchAdds(c, rest, m, env);
    AddedAct(rest.queue, s'.queue);
    TakenNoise(s.queue);
    if ActivityOf(m) != None {
      TakeAct(s, t);
      RestSame(c, s, h, t);
      ActCloser(c, rest, h, m, env);
      CloserFromRest(c, s, rest.queue, t, s', TokenOf(s'));
    }
  }

  /** The measure of the loop: other messages, the distance of CNTL from rest, and how far its request has got. */
  ghost predicate Nearer(c: Config, s: State, s': State) {
    || Noise(s'.queue) < Noise(s.queue)
    || (Noise(s'.queue) == Noise(s.queue) && Closer(c, s, TokenOf(s), s', TokenOf(s')))
  }

  /** What one turn of the loop keeps, and how it gets nearer to the end. */
  lemma TurnKeeps(c: Config, s: State, h: History, env: Env)
    requires s.queue != []
    ensures var w := Step(c, Where(s, h), Serve(env));
            && (Traced(s, h) ==> Traced(w.s, w.h))
            && (TimerOk(s) ==> TimerOk(w.s))
            && (Clean(c, s, h) ==> Clean(c, w.s, w.h))
            && (Clean(c, s, h) && !Refusing(c, s) ==> Nearer(c, s, w.s))
  {
    hide Clean, TraceOk, TimerOk, Noise, Closer, TokenOf, Next, Recorded, Refusing;
    if Traced(s, h) {
      NextTraced(c, s, h, Serve(env));
    }
    if TimerOk(s) {
      NextTimer(c, s, Serve(env));
    }
    if Clean(c, s, h) {
      NextClean(c, s, h, Serve(env));
      if !Refusing(c, s) {
        ServeCloser(c, s, h, env);
      }
    }
  }

  // ---- when it does not ----

  /** AUTH finds the end of its waiting in the queue, and it is a failure. */
  predicate Fails(s: State, envs: nat -> Env, i: nat)
    decreases |s.queue|
  {
    s.queue != [] &&
    var m, rest := s.queue[0], s.(queue := s.queue[1..]);
    if !ForAuth(m) then Fails(rest, envs, i + 1)
    else
      var o := AuthPerformAction(rest, m, envs(i));
      if o.s.auth == ReqIdle then !o.confirmed else Fails(o.s.(queue := rest.queue), envs, i + 1)
  }

  /** On the way to an authentication that will be refused, or refused already. */
  predicate Trapped(t: Token) {
    t.Queued? && (t.msg == JoinConf(true) || t.msg.AuthReq? || t.msg == AuthConf(false))
  }

  /**
   From turn i on the loop does not end: association is blocked in automatic mode with shared keys on record, and an
   authentication is asked for, or has failed, or will fail on a message that is already there.
   */
  predicate Endless(c: Config, s: State, envs: nat -> Env, i: nat) {
    Looping(c, s) && (Trapped(TokenOf(s)) || (TokenOf(s) == At(Authenticate) && Fails(s, envs, i)))
  }

  /** While association is blocked, AUTH records no algorithm; so looping neither begins nor ends. */
  lemma LoopingStays(c: Config, s: State, env: Env)
    requires s.queue != []
    ensures Looping(c, Next(c, s, Serve(env)).s) == Looping(c, s)
  {
    hide MlmeCntlMachinePerformAction;
  }

  lemma IterateFree(c: Config, s: State)
    requires Free(s)
    ensures var t := TokenOf(IterateOnBssTab(c, s)); !Trapped(t) && t != At(Authenticate)
  {
    hide TokenOf, Acts;
    if s.idx < |s.tab| {
      AskToken(s, JoinReq(s.idx), WaitJoin);
    } else if c.adhoc {
      AskToken(s, StartReq, WaitStart);
    } else {
      PlacedIsToken(s.(cntl := Idle), Nowhere);
    }
  }

  /** No authentication is on its way. */
  predicate Off(t: Token) { !Trapped(t) && t != At(Authenticate) }

  lemma AskOff(s: State, m: Msg, c: Cntl)
    requires Free(s) && Awaits(c) == ActivityOf(m) != None
    ensures TokenOf(Ask(s, m, c)) == Queued(m) && (Off(TokenOf(Ask(s, m, c))) <==> !Trapped(Queued(m)))
  {
    hide TokenOf;
    AskToken(s, m, c);
  }

  lemma RestOff(s: State)
    requires Free(s) && s.cntl == Idle
    ensures Off(TokenOf(s))
  {
  }

  lemma IterateOff(c: Config, s: State)
    requires Free(s)
    ensures Off(TokenOf(IterateOnBssTab(c, s)))
  {
    hide TokenOf, Acts, Off;
    if s.idx < |s.tab| {
      AskOff(s, JoinReq(s.idx), WaitJoin);
    } else if c.adhoc {
      AskOff(s, StartReq, WaitStart);
    } else {
      RestOff(s.(cntl := Idle));
    }
  }

  lemma SsidOff(c: Config, s: State, env: Env)
    requires Free(s) && s.cntl == Idle
    ensures Off(TokenOf(CntlOidSsidProc(c, s, env)))
  {
    hide TokenOf, Acts, Off, IterateOnBssTab, KeepsOthers, Ask;
    var now := s.(bssid := 0, tab := env.found);
    RestOff(now);
    AskOff(now, DisassocReq, WaitDisassoc);
    AskOff(now, ScanReq, WaitListScan);
    IterateOff(c, now.(idx := 0));
  }

  lemma BssidOff(s: State, a: Addr, env: Env)
    requires Free(s) && s.cntl == Idle
    ensures Off(TokenOf(CntlOidRTBssidProc(s, a, env)))
  {
    hide TokenOf, Acts, Off, KeepsOthers, Ask;
    var now := s.(bssid := a, idx := 0, tab := [a]);
    RestOff(s.(bssid := a));
    RestOff(now);
    AskOff(now, DisassocReq, WaitDisassoc);
    AskOff(now, JoinReq(0), WaitJoin);
  }

  /** Nothing from outside starts an authentication at once. */
  lemma IdleOff(c: Config, s: State, m: Msg, env: Env)
    requires Free(s) && s.cntl == Idle
    ensures Off(TokenOf(CntlIdleProc(c, s, m, env)))
  {
    hide TokenOf, Acts, Off, IterateOnBssTab, KeepsOthers, Ask, CntlOidSsidProc, CntlOidRTBssidProc;
    RestOff(s);
    match m
    case OidSsid => SsidOff(c, s, env);
    case OidBssid(a) => BssidOff(s, a, env);
    case OidScan => AskOff(s, ScanReq, WaitListScan);
    case OidDisassoc => AskOff(s, DisassocReq, WaitOidDisassoc);
    case Roaming => IterateOff(c, s.(tab := env.found, idx := 0));
    case _ =>
  }

  /** A request or confirmation handled: the next is on the way to a refusal exactly if this one was. */
  lemma ActTrapped(c: Config, s: State, m: Msg, env: Env)
    requires Free(s) && Awaits(s.cntl) == ActivityOf(m) != None && Looping(c, s)
    ensures var t := TokenOf(Dispatch(c, s, m, env).s); t != At(Authenticate) && (Trapped(t) <==> Trapped(Queued(m)))
  {
    hide TokenOf, Acts, Free, Looping, Begin, AuthPerformAction, IterateOnBssTab, KeepsOthers, Ask;
    if ForSyncOrAssoc(m) {
      BegunToken(s, m);
    } else if m.AuthReq? {
      RefusedToken(c, s, m, env);
    } else {
      ConfirmationTrapped(c, s, m, env);
    }
  }

  lemma RefusedToken(c: Config, s: State, m: Msg, env: Env)
    requires Free(s) && m.AuthReq? && Awaits(s.cntl) == ActivityOf(m) && Looping(c, s)
    ensures TokenOf(AuthPerformAction(s, m, env).s) == Queued(AuthConf(false))
  {
    hide TokenOf, Acts;
    ReportPlaced(s, false);
    PlacedIsToken(Report(s, false).s, Queued(AuthConf(false)));
  }

  lemma JoinConfTrapped(c: Config, s: State, m: Msg)
    requires Free(s) && m.JoinConf? && !c.adhoc
    ensures var t := TokenOf(CntlWaitJoinProc(c, s, m)); t != At(Authenticate) && (Trapped(t) <==> Trapped(Queued(m)))
  {
    hide TokenOf, Acts, IterateOnBssTab, KeepsOthers, Ask;
    var next := s.(idx := s.idx + 1);
    assert Free(next);
    IterateOff(c, next);
    AskOff(s, AuthReq(s.bssid, FirstAlg(c.mode)), WaitAuth);
  }

  lemma AuthConfTrapped(c: Config, s: State, m: Msg)
    requires Free(s) && m.AuthConf? && InAuth(s.cntl) && Looping(c, s)
    ensures var t := TokenOf(if s.cntl == WaitAuth then CntlWaitAuthProc(c, s, m) else CntlWaitAuthProc2(c, s, m));
            t != At(Authenticate) && (Trapped(t) <==> Trapped(Queued(m)))
  {
    hide TokenOf, Acts, IterateOnBssTab, KeepsOthers, Ask;
    AskOff(s, AssocReq, WaitAssoc);
    AskOff(s, AuthReq(s.bssid, FirstAlg(c.mode)), WaitAuth2);
    AskOff(s, AuthReq(s.bssid, Open), WaitAuth2);
  }

  /** What ends any other waiting. */
  lemma RestTrapped(c: Config, s: State, m: Msg, env: Env)
    requires Free(s) && Awaits(s.cntl) == ActivityOf(m) != None && !InAuth(s.cntl) && s.cntl != WaitJoin
             && !ForSyncOrAssoc(m)
    ensures Off(TokenOf(MlmeCntlMachinePerformAction(c, s, m, env).s))
  {
    hide TokenOf, Acts, Off, IterateOnBssTab, KeepsOthers, Ask, CntlIdleProc;
    var next, first, idle := s.(idx := s.idx + 1), s.(idx := 0, linked := false), s.(cntl := Idle);
    assert Free(next) && Free(first) && Free(idle) && Free(s.(linked := false));
    if s.cntl == WaitAssoc {
      IterateOff(c, next);
    } else if s.cntl == WaitDisassoc {
      IterateOff(c, first);
      AskOff(s.(linked := false), StartReq, WaitStart);
    }
    IdleOffAny(s);
  }

  lemma IdleOffAny(s: State)
    requires Free(s)
    ensures Off(TokenOf(s.(cntl := Idle))) && Off(TokenOf(s.(cntl := Idle, linked := true)))
    ensures Off(TokenOf(s.(cntl := Idle, linked := false)))
  {
    hide TokenOf, Acts, Off;
    RestOff(s.(cntl := Idle));
    RestOff(s.(cntl := Idle, linked := true));
    RestOff(s.(cntl := Idle, linked := false));
  }

  lemma ConfirmationTrapped(c: Config, s: State, m: Msg, env: Env)
    requires Free(s) && Awaits(s.cntl) == ActivityOf(m) != None && Looping(c, s) && !ForSyncOrAssoc(m) && !ForAuth(m)
    ensures var t := TokenOf(MlmeCntlMachinePerformAction(c, s, m, env).s);
            t != At(Authenticate) && (Trapped(t) <==> Trapped(Queued(m)))
  {
    hide TokenOf, Free, KeepsOthers, CntlIdleProc, CntlWaitDisassocProc, CntlWaitJoinProc, CntlWaitAuthProc;
    hide CntlWaitAuthProc2, CntlWaitAssocProc, CntlWaitStartProc;
    match s.cntl
    case WaitJoin => JoinConfTrapped(c, s, m);
    case WaitAuth => AuthConfTrapped(c, s, m);
    case WaitAuth2 => AuthConfTrapped(c, s, m);
    case _ => RestTrapped(c, s, m, env);
  }

  /** AUTH waits, and a message is handled that may end its waiting. */
  lemma WaitingTurn(c: Config, s: State, envs: nat -> Env, i: nat)
    requires s.queue != [] && ActivityOf(s.queue[0]) == None && Placed(s.(queue := s.queue[1..]), At(Authenticate))
    ensures var s' := Dispatch(c, s.(queue := s.queue[1..]), s.queue[0], envs(i)).s;
            Trapped(TokenOf(s')) || (TokenOf(s') == At(Authenticate) && Fails(s', envs, i + 1)) <==> Fails(s, envs, i)
  {
    var m, rest := s.queue[0], s.(queue := s.queue[1..]);
    hide Acts, TokenOf, AuthPerformAction, MlmeCntlMachinePerformAction;
    if ForAuth(m) {
      AuthStepShape(rest, m, envs(i));
      var o := AuthPerformAction(rest, m, envs(i));
      if o.s.auth == ReqIdle {
        ReportPlaced(rest.(timer := o.s.timer), o.confirmed);
        PlacedIsToken(o.s, Queued(AuthConf(o.confirmed)));
      } else {
        PlacedIsToken(o.s, At(Authenticate));
      }
    } else {
      CntlIgnores(c, rest, m, envs(i));
      PlacedIsToken(rest, At(Authenticate));
    }
  }

  /** AUTH does not wait, and any other message is handled. */
  lemma OtherTurn(c: Config, s: State, t: Token, m: Msg, env: Env)
    requires ActivityOf(m) == None && Placed(s, t) && t != At(Authenticate)
    ensures var t' := TokenOf(Dispatch(c, s, m, env).s); t' != At(Authenticate) && (Trapped(t') <==> Trapped(t))
  {
    hide Acts, TokenOf, CntlIdleProc, MlmeAuthReqAction, PeerAuthRspAtSeq2Action, PeerAuthRspAtSeq4Action;
    PlacedIsToken(s, t);
    if ForAuth(m) {
      assert AuthPerformAction(s, m, env).s == s;
    } else if s.cntl == Idle {
      IdleOff(c, s, m, env);
    } else {
      hide MlmeCntlMachinePerformAction;
      CntlIgnores(c, s, m, env);
    }
  }

  /** A turn neither leads into the endless loop nor out of it. */
  lemma TurnEndless(c: Config, s: State, h: History, envs: nat -> Env, i: nat)
    requires s.queue != [] && Clean(c, s, h)
    ensures Endless(c, Step(c, Where(s, h), Serve(envs(i))).s, envs, i + 1) <==> Endless(c, s, envs, i)
  {
    hide Placed, Facts, Bounded, Acts, TokenOf, Dispatch, Looping, Fails, Trapped, Recorded;
    LoopingStays(c, s, envs(i));
    if Looping(c, s) {
      var m, rest, t := s.queue[0], s.(queue := s.queue[1..]), TokenOf(s);
      if ActivityOf(m) != None {
        TakeAct(s, t);
        RestLoops(c, s);
        ActTrapped(c, rest, m, envs(i));
      } else {
        TakeOther(s, t);
        if t == At(Authenticate) {
          WaitingTurn(c, s, envs, i);
          NotTrapped();
        } else {
          OtherTurn(c, rest, t, m, envs(i));
        }
      }
    }
  }

  lemma RestLoops(c: Config, s: State)
    requires s.queue != [] && Looping(c, s)
    ensures Looping(c, s.(queue := s.queue[1..]))
  {
  }

  lemma NotTrapped()
    ensures !Trapped(At(Authenticate))
  {
  }

  lemma EndlessWaits(c: Config, s: State, envs: nat -> Env, i: nat)
    requires Endless(c, s, envs, i)
    ensures s.queue != []
  {
  }

  /** Some turns of the loop. */
  function Turns(envs: nat -> Env, i: nat, n: nat): (events: seq<Event>)
    ensures |events| == n
  {
    seq(n, k requires 0 <= k < n => Serve(envs(i + k)))
  }

  ghost predicate Empties(c: Config, w: Where, envs: nat -> Env, i: nat, n: nat) {
    After(c, w, Turns(envs, i, n)).s.queue == []
  }

  /** The turn before some others. */
  lemma FirstTurn(c: Config, w: Where, envs: nat -> Env, i: nat, n: nat)
    ensures After(c, w, Turns(envs, i, n + 1)) == After(c, Step(c, w, Serve(envs(i))), Turns(envs, i + 1, n))
  {
    hide After, Step;
    assert Turns(envs, i, n + 1) == [Serve(envs(i))] + Turns(envs, i + 1, n);
    MlmeRuns.AfterConcat(c, w, [Serve(envs(i))], Turns(envs, i + 1, n));
    MlmeRuns.AfterOne(c, w, Serve(envs(i)));
  }

  lemma {:induction false} NeverEmpties(c: Config, w: Where, envs: nat -> Env, i: nat, n: nat)
    requires Clean(c, w.s, w.h) && Endless(c, w.s, envs, i)
    ensures !Empties(c, w, envs, i, n)
    decreases n
  {
    hide Clean, Endless, Step, After;
    EndlessWaits(c, w.s, envs, i);
    if n == 0 {
      AfterNone(c, w);
      assert Turns(envs, i, 0) == [];
    } else {
      TurnEndless(c, w.s, w.h, envs, i);
      TurnKeeps(c, w.s, w.h, envs(i));
      FirstTurn(c, w, envs, i, n - 1);
      NeverEmpties(c, Step(c, w, Serve(envs(i))), envs, i + 1, n - 1);
    }
  }

  lemma {:induction false} SometimeEmpties(c: Config, w: Where, envs: nat -> Env, i: nat) returns (n: nat)
    requires Clean(c, w.s, w.h) && !Endless(c, w.s, envs, i)
    ensures Empties(c, w, envs, i, n)
    decreases Noise(w.s.queue), Distance(c, w.s, TokenOf(w.s)), Rank(TokenOf(w.s))
  {
    hide Clean, Endless, Step, After, Noise, Distance, Rank, TokenOf;
    if w.s.queue == [] {
      n := 0;
      AfterNone(c, w);
      assert Turns(envs, i, 0) == [];
    } else {
      NoiseIsNatural(w.s.queue);
      DistanceIsNatural(c, w.s, w.h);
      TurnEndless(c, w.s, w.h, envs, i);
      NotRefusing(c, w.s, envs, i);
      TurnKeeps(c, w.s, w.h, envs(i));
      n := SometimeEmpties(c, Step(c, w, Serve(envs(i))), envs, i + 1);
      FirstTurn(c, w, envs, i, n);
      n := n + 1;
    }
  }

  /** Handling one message after the other empties the queue if and only if the state is not an endless one. */
  lemma EmptiesIff(c: Config, w: Where, envs: nat -> Env)
    requires Clean(c, w.s, w.h)
    ensures (exists n: nat :: Empties(c, w, envs, 0, n)) <==> !Endless(c, w.s, envs, 0)
  {
    hide Clean, Endless, Empties;
    if Endless(c, w.s, envs, 0) {
      forall n: nat
        ensures !Empties(c, w, envs, 0, n)
      {
        NeverEmpties(c, w, envs, 0, n);
      }
    } else {
      var n := SometimeEmpties(c, w, envs, 0);
    }
  }

  lemma NotRefusing(c: Config, s: State, envs: nat -> Env, i: nat)
    requires !Endless(c, s, envs, i)
    ensures !Refusing(c, s)
  {
  }

  /** CNTL's other waiting states. */
  function Rests(c: Config, s: State, m: Msg): State {
    match s.cntl
    case WaitDisassoc => CntlWaitDisassocProc(c, s, m)
    case WaitStart => CntlWaitStartProc(s, m)
    case WaitListScan => if m == ScanConf then s.(cntl := Idle) else s
    case _ => if m == DisassocConf then s.(cntl := Idle, linked := false) else s
  }

  /** The dispatch on CNTL's state. */
  lemma CntlIs(c: Config, s: State, m: Msg, env: Env)
    ensures var t := if s.cntl == Idle then CntlIdleProc(c, s, m, env)
                     else if s.cntl == WaitJoin then CntlWaitJoinProc(c, s, m)
                     else if s.cntl == WaitAuth then CntlWaitAuthProc(c, s, m)
                     else if s.cntl == WaitAuth2 then CntlWaitAuthProc2(c, s, m)
                     else if s.cntl == WaitAssoc then CntlWaitAssocProc(c, s, m)
                     else Rests(c, s, m);
            MlmeCntlMachinePerformAction(c, s, m, env) == Out(t, s.cntl == WaitAssoc && m == AssocConf(true), false)
  {
    hide CntlIdleProc, CntlWaitDisassocProc, CntlWaitStartProc, CntlWaitJoinProc, CntlWaitAuthProc, CntlWaitAuthProc2;
    hide CntlWaitAssocProc, KeepsOthers;
  }

  // ---- the machines in place ----

  class Machine {
    const c: Config
    var cntl: Cntl
    var auth: Auth
    var timer: bool
    var alg: Alg
    var bssid: Addr
    var idx: nat
    var tab: seq<Addr>
    var queue: seq<Msg>
    var busy: multiset<Kind>
    var blocked: bool
    var linked: bool
    ghost var h: History

    ghost function View(): State
      reads this
    {
      State(cntl, auth, timer, alg, bssid, idx, tab, queue, busy, blocked, linked)
    }

    ghost function Here(): Where
      reads this
    {
      Where(View(), h)
    }

    constructor (c: Config, alg: Alg)
      ensures this.c == c && Here() == Boot(alg)
    {
      this.c, this.alg := c, alg;
      cntl, auth, timer, bssid, idx, tab, queue, busy := Idle, ReqIdle, false, 0, 0, [], [], multiset{};
      blocked, linked := false, false;
      h := Boot(alg).h;
    }

    method Request(m: Msg, next: Cntl)
      requires ActivityOf(m) != None
      modifies this`queue, this`cntl
      ensures View() == Ask(old(View()), m, next)
    {
      queue, cntl := queue + [m], next;
    }

    /** Go on with the given place in the table. */
    method Iterate(i: nat)
      modifies this`queue, this`cntl, this`idx
      ensures View() == IterateOnBssTab(c, old(View()).(idx := i))
    {
      idx := i;
      if idx < |tab| {
        Request(JoinReq(idx), WaitJoin);
      } else if c.adhoc {
        Request(StartReq, WaitStart);
      } else {
        cntl := Idle;
      }
    }

    method OnSsid(env: Env)
      modifies this`queue, this`cntl, this`bssid, this`tab, this`idx
      ensures View() == CntlOidSsidProc(c, old(View()), env)
    {
      hide IterateOnBssTab, KeepsOthers, Ask;
      bssid, tab := 0, env.found;
      if env.sameAp {
        if env.redo {
          Request(DisassocReq, WaitDisassoc);
        }
      } else if linked {
        Request(DisassocReq, WaitDisassoc);
      } else if tab == [] && env.rescan {
        Request(ScanReq, WaitListScan);
      } else {
        Iterate(0);
      }
    }

    method OnBssid(a: Addr, env: Env)
      modifies this`queue, this`cntl, this`bssid, this`tab, this`idx
      ensures View() == CntlOidRTBssidProc(old(View()), a, env)
    {
      hide KeepsOthers, Ask;
      bssid := a;
      if env.known {
        idx, tab := 0, [a];
        if !env.sameAp {
          if linked {
            Request(DisassocReq, WaitDisassoc);
          } else {
            Request(JoinReq(idx), WaitJoin);
          }
        }
      }
    }

    method OnIdle(m: Msg, env: Env)
      modifies this`queue, this`cntl, this`bssid, this`tab, this`idx
      ensures View() == CntlIdleProc(c, old(View()), m, env)
    {
      hide IterateOnBssTab, KeepsOthers, Ask, CntlOidSsidProc, CntlOidRTBssidProc;
      if env.radioOff {
        return;
      }
      match m
      case OidSsid => OnSsid(env);
      case OidBssid(a) => OnBssid(a, env);
      case OidScan => Request(ScanReq, WaitListScan);
      case OidDisassoc => Request(DisassocReq, WaitOidDisassoc);
      case Roaming =>
        tab := env.found;
        Iterate(0);
      case _ =>
    }

    method OnWaitJoin(m: Msg)
      modifies this`queue, this`cntl, this`idx, this`linked
      ensures View() == CntlWaitJoinProc(c, old(View()), m)
    {
      hide IterateOnBssTab, KeepsOthers, Ask;
      if m == JoinConf(true) {
        if c.adhoc {
          cntl, linked := Idle, false;
        } else {
          Request(AuthReq(bssid, FirstAlg(c.mode)), WaitAuth);
        }
      } else if m.JoinConf? {
        Iterate(idx + 1);
      }
    }

    method OnWaitAuth(m: Msg)
      requires InAuth(cntl)
      modifies this`queue, this`cntl, this`idx
      ensures View() == if old(cntl) == WaitAuth then CntlWaitAuthProc(c, old(View()), m)
                        else CntlWaitAuthProc2(c, old(View()), m)
    {
      hide IterateOnBssTab, KeepsOthers, Ask;
      if m == AuthConf(true) {
        Request(AssocReq, WaitAssoc);
      } else if m.AuthConf? {
        if cntl == WaitAuth {
          Request(AuthReq(bssid, FirstAlg(c.mode)), WaitAuth2);
        } else if c.mode == AutoSwitch && alg == Shared {
          Request(AuthReq(bssid, Open), WaitAuth2);
        } else {
          Iterate(idx + 1);
        }
      }
    }

    method OnWaitAssoc(m: Msg)
      modifies this`queue, this`cntl, this`idx, this`linked
      ensures View() == CntlWaitAssocProc(c, old(View()), m)
    {
      hide IterateOnBssTab, KeepsOthers, Ask;
      if m == AssocConf(true) {
        cntl, linked := Idle, true;
      } else if m.AssocConf? {
        Iterate(idx + 1);
      }
    }

    /** CNTL waits for something that concerns no network in hand. */
    method OnRest(m: Msg)
      requires !Connecting(cntl) && cntl != Idle
      modifies this`queue, this`cntl, this`idx, this`linked
      ensures View() == Rests(c, old(View()), m)
    {
      hide IterateOnBssTab, KeepsOthers, Ask;
      if cntl == WaitDisassoc && m == DisassocConf {
        linked := false;
        if tab == [] && c.adhoc {
          Request(StartReq, WaitStart);
        } else {
          Iterate(0);
        }
      } else if cntl == WaitStart && m.StartConf? {
        cntl, linked := Idle, linked && !m.ok;
      } else if cntl == WaitListScan && m == ScanConf {
        cntl := Idle;
      } else if cntl == WaitOidDisassoc && m == DisassocConf {
        cntl, linked := Idle, false;
      }
    }

    /** The result says whether the link went up. */
    method PerformCntl(m: Msg, env: Env) returns (up: bool)
      modifies this`queue, this`cntl, this`idx, this`bssid, this`tab, this`linked
      ensures Out(View(), up, false) == MlmeCntlMachinePerformAction(c, old(View()), m, env)
    {
      hide CntlIdleProc, CntlWaitJoinProc, CntlWaitAuthProc, CntlWaitAuthProc2, CntlWaitAssocProc, Rests, KeepsOthers;
      hide MlmeCntlMachinePerformAction;
      CntlIs(c, View(), m, env);
      up := cntl == WaitAssoc && m == AssocConf(true);
      if cntl == Idle {
        OnIdle(m, env);
      } else if cntl == WaitJoin {
        OnWaitJoin(m);
      } else if InAuth(cntl) {
        OnWaitAuth(m);
      } else if cntl == WaitAssoc {
        OnWaitAssoc(m);
      } else {
        OnRest(m);
      }
    }

    /** AUTH reports. */
    method Confirm(ok: bool)
      modifies this`auth, this`queue
      ensures Out(View(), false, ok) == Report(old(View()), ok)
    {
      auth, queue := ReqIdle, queue + [AuthConf(ok)];
    }

    method OnAuthReq(a: Addr, g: Alg, env: Env)
      modifies this`auth, this`timer, this`alg, this`bssid, this`queue
      ensures Out(View(), false, false) == MlmeAuthReqAction(old(View()), a, g, env)
    {
      if blocked || !Unicast(a) {
        Confirm(false);
      } else {
        timer, bssid, alg := false, a, g;
        if env.noMemory {
          Confirm(false);
        } else {
          timer, auth := true, WaitSeq2;
        }
      }
    }

    /** An answer of the peer that AUTH waits for. */
    method OnPeer(m: Msg, env: Env) returns (confirmed: bool)
      requires m.PeerAuth? && auth != ReqIdle
      modifies this`auth, this`timer, this`queue
      ensures Out(View(), false, confirmed)
           == if old(auth) == WaitSeq2 then PeerAuthRspAtSeq2Action(old(View()), m, env)
              else PeerAuthRspAtSeq4Action(old(View()), m)
    {
      confirmed := false;
      if m.sane && m.addr == bssid && m.seqNo == (if auth == WaitSeq2 then 2 else 4) {
        timer := false;
        if !m.ok || alg == Open || auth == WaitSeq4 {
          confirmed := m.ok;
          Confirm(m.ok);
        } else if env.noMemory {
          Confirm(false);
        } else {
          timer, auth := true, WaitSeq4;
        }
      }
    }

    /** The result says whether AUTH confirmed success. */
    method PerformAuth(m: Msg, env: Env) returns (confirmed: bool)
      modifies this`auth, this`timer, this`alg, this`bssid, this`queue
      ensures Out(View(), false, confirmed) == AuthPerformAction(old(View()), m, env)
    {
      hide MlmeAuthReqAction, PeerAuthRspAtSeq2Action, PeerAuthRspAtSeq4Action;
      confirmed := false;
      if m.AuthReq? {
        if auth == ReqIdle {
          OnAuthReq(m.addr, m.alg, env);
        } else {
          Confirm(false);
        }
      } else if m.PeerAuth? && auth != ReqIdle {
        confirmed := OnPeer(m, env);
      } else if m == AuthTimeout && auth != ReqIdle {
        Confirm(false);
      }
    }

    method BeginRequest(m: Msg)
      requires ForSyncOrAssoc(m)
      modifies this`busy, this`bssid, this`queue
      ensures View() == Begin(old(View()), m)
    {
      if m == AssocReq && blocked {
        queue := queue + [AssocConf(false)];
      } else {
        busy := busy + multiset{ActivityOf(m).kind};
        if m.JoinReq? && m.idx < |tab| {
          bssid := tab[m.idx];
        }
      }
    }

    /**
     One message: a step of the run. It keeps what the record says, that a waiting AUTH is woken and that one thing
     is under way at a time; and the loop comes nearer to its end.
     */
    method ServeOne(env: Env)
      requires queue != []
      modifies this
      ensures Here() == Step(c, old(Here()), Serve(env))
      ensures old(Traced(View(), h)) ==> Traced(View(), h)
      ensures old(TimerOk(View())) ==> TimerOk(View())
      ensures old(Clean(c, View(), h)) ==> Clean(c, View(), h)
      ensures old(Clean(c, View(), h) && !Refusing(c, View())) ==> Nearer(c, old(View()), View())
    {
      hide MlmeCntlMachinePerformAction, AuthPerformAction, Begin, Clean, TraceOk, TimerOk, Nearer, Refusing, Recorded;
      ghost var s := View();
      TurnKeeps(c, s, h, env);
      var m := queue[0];
      queue := queue[1..];
      var up, confirmed := false, false;
      if ForSyncOrAssoc(m) {
        BeginRequest(m);
      } else if ForAuth(m) {
        confirmed := PerformAuth(m, env);
      } else {
        up := PerformCntl(m, env);
      }
      h := Recorded(h, s, Serve(env), Out(View(), up, confirmed));
    }

    /** MlmeHandler's loop, where it ends. */
    method Handler(envs: nat -> Env) returns (ghost n: nat)
      requires Traced(View(), h) && Clean(c, View(), h) && !Endless(c, View(), envs, 0)
      modifies this
      ensures queue == [] && Here() == After(c, old(Here()), Turns(envs, 0, n))
      ensures Traced(View(), h) && Clean(c, View(), h)
    {
      hide Clean, TraceOk, After, Step, TokenOf, Distance, Noise, Rank, Endless;
      n := 0;
      var i := 0;
      AfterNone(c, Here());
      while queue != []
        invariant Here() == After(c, old(Here()), Turns(envs, 0, n)) && n == i
        invariant Traced(View(), h) && Clean(c, View(), h) && !Endless(c, View(), envs, i)
        decreases Noise(queue), Distance(c, View(), TokenOf(View())), Rank(TokenOf(View()))
      {
        NoiseIsNatural(queue);
        DistanceIsNatural(c, View(), h);
        AfterNext(c, old(Here()), Turns(envs, 0, n), Serve(envs(i)));
        assert Turns(envs, 0, n + 1) == Turns(envs, 0, n) + [Serve(envs(i))];
        TurnEndless(c, View(), h, envs, i);
        NotRefusing(c, View(), envs, i);
        ServeOne(envs(i));
        n, i := n + 1, i + 1;
      }
    }

    /** MlmeRestartStateMachine. */
    method Reset()
      modifies this
      ensures Here() == Step(c, old(Here()), Restart)
    {
      hide Recorded, Next, Step;
      RestartStep(c, View(), h);
      h := Recorded(h, View(), Restart, Out(Restarted(View()), false, false));
      while queue != []
        modifies this`queue
      {
        queue := queue[1..];
      }
      timer, cntl, auth, busy := false, Idle, ReqIdle, multiset{};
    }
  }

  lemma RestartStep(c: Config, s: State, h: History)
    ensures Step(c, Where(s, h), Restart)
         == Where(Restarted(s), Recorded(h, s, Restart, Out(Restarted(s), false, false)))
  {
    hide Recorded;
  }

  lemma AfterNone(c: Config, w: Where)
    ensures After(c, w, []) == w
  {
  }
}
