/**
 What CNTL does on its walk through the table of networks, as the record of the messages
 handled shows it: which networks it asks for, with which algorithms, and when it gives up.
 */
module MlmeWalk {
  import opened Mlme
  import MlmeHandler

  // ---- the record of a walk ----

  datatype Last = Nothing | Act(msg: Msg)

  /** The last request or confirmation of a walk, the networks asked for, and the authentications with the last. */
  datatype Progress = Progress(last: Last, asked: nat, tried: nat)

  const NONE := Progress(Nothing, 0, 0)

  /** A walk is a stretch in which CNTL joins, authenticates or associates. */
  function Onto(p: Progress, e: Entry): Progress {
    if !Connecting(e.cntl) then NONE
    else if ActivityOf(e.msg) == None then p
    else if e.msg.JoinReq? then Progress(Act(e.msg), p.asked + 1, 0)
    else Progress(Act(e.msg), p.asked, if e.msg.AuthReq? then p.tried + 1 else p.tried)
  }

  function Walked(log: seq<Entry>): Progress {
    if log == [] then NONE else Onto(Walked(log[..|log| - 1]), log[|log| - 1])
  }

  /** Shared keys where they are asked for, in automatic mode for the first two attempts, otherwise open. */
  function AlgFor(mode: AuthMode, tried: nat): Alg {
    match mode
    case SharedMode => Shared
    case AutoSwitch => if tried < 2 then Shared else Open
    case _ => Open
  }

  /** The network in hand is given up: it could not be joined, or associated with, or authentication failed twice. */
  predicate GivenUp(p: Progress) {
    || p.last == Act(JoinConf(false)) || p.last == Act(AssocConf(false))
    || (p.last == Act(AuthConf(false)) && p.tried >= 2)
  }

  /**
   What may come next: the next network, from the first on, once the one before is given up; authentication once it is
   joined, and again after the first failure, in automatic mode after any; association once it is authenticated; and
   to each request its own confirmation.
   */
  predicate Fits(c: Config, p: Progress, m: Msg) {
    match m
    case JoinReq(i) => i == p.asked && (if i == 0 then p.last == Nothing else GivenUp(p))
    case JoinConf(_) => p.last.Act? && p.last.msg.JoinReq?
    case AuthReq(_, g) =>
      && !c.adhoc && g == AlgFor(c.mode, p.tried)
      && if p.tried == 0 then p.last == Act(JoinConf(true))
         else p.last == Act(AuthConf(false)) && (p.tried == 1 || c.mode == AutoSwitch)
    case AuthConf(_) => p.last.Act? && p.last.msg.AuthReq?
    case AssocReq => p.last == Act(AuthConf(true))
    case AssocConf(_) => p.last == Act(AssocReq)
    case _ => false
  }

  /** Every request and confirmation of every walk came in its turn. */
  ghost predicate Proper(c: Config, log: seq<Entry>) {
    forall k :: 0 <= k < |log| && InWalk(log[k]) ==> Fits(c, Walked(log[..k]), log[k].msg)
  }

  predicate InWalk(e: Entry) { Connecting(e.cntl) && ActivityOf(e.msg) != None }

  lemma OneMore(c: Config, log: seq<Entry>, e: Entry)
    requires Proper(c, log) && (InWalk(e) ==> Fits(c, Walked(log), e.msg))
    ensures Proper(c, log + [e]) && Walked(log + [e]) == Onto(Walked(log), e)
  {
    hide Fits, InWalk, Onto;
    var more := log + [e];
    assert more[..|log|] == log;
    forall k | 0 <= k < |more| && InWalk(more[k])
      ensures Fits(c, Walked(more[..k]), more[k].msg)
    {
      if k < |log| {
        assert more[..k] == log[..k] && more[k] == log[k];
      }
    }
  }

  // ---- what comes next ----

  predicate IsRequest(m: Msg) { m.JoinReq? || m.AuthReq? || m == AssocReq }

  /** Where the walk stands, and what CNTL waits for. */
  ghost predicate Ahead(c: Config, s: State, t: Token, p: Progress) {
    && (t.Queued? ==> Fits(c, p, t.msg))
    && (t.At? ==> p.last.Act? && IsRequest(p.last.msg) && ActivityOf(p.last.msg) == Of(t.kind))
    && p.asked == s.idx + (if t.Queued? && t.msg.JoinReq? then 0 else 1)
    && (s.cntl == WaitJoin ==> p.tried == 0 || (t.Queued? && t.msg.JoinReq?))
    && (s.cntl == WaitAuth ==> p.tried == if t.Queued? && t.msg.AuthReq? then 0 else 1)
    && (s.cntl == WaitAuth2 ==> p.tried >= if t.Queued? && t.msg.AuthReq? then 1 else 2)
  }

  ghost predicate OnWay(c: Config, s: State, p: Progress) {
    Connecting(s.cntl) ==> Ahead(c, s, TokenOf(s), p)
  }

  /**
   The table stays, and the walk ends with a link, or, among stations, with a join; or every network has been asked for
   and given up.
   */
  predicate Over(c: Config, s: State, m: Msg, t: State, p: Progress) {
    && t.tab == s.tab
    && (!Connecting(t.cntl) ==>
          || (m == AssocConf(true) && s.cntl == WaitAssoc)
          || (c.adhoc && m == JoinConf(true))
          || (s.idx < |s.tab| ==> p.asked == |s.tab| && GivenUp(p)))
  }

  lemma FirstIsFor(mode: AuthMode, tried: nat)
    requires tried < 2
    ensures FirstAlg(mode) == AlgFor(mode, tried)
  {
  }

  lemma IterateOnWay(c: Config, s: State, p: Progress)
    requires Free(s) && Fits(c, p, JoinReq(s.idx))
    ensures OnWay(c, IterateOnBssTab(c, s), p)
  {
    hide Acts, TokenOf;
    if s.idx < |s.tab| {
      MlmeHandler.AskToken(s, JoinReq(s.idx), WaitJoin);
    }
  }

  lemma JoinConfOnWay(c: Config, s: State, m: Msg, p: Progress, p': Progress)
    requires Free(s) && s.cntl == WaitJoin && m.JoinConf? && Ahead(c, s, Queued(m), p)
    requires p' == Progress(Act(m), p.asked, p.tried)
    ensures OnWay(c, CntlWaitJoinProc(c, s, m), p') && Over(c, s, m, CntlWaitJoinProc(c, s, m), p')
  {
    hide Acts, TokenOf;
    if !m.ok {
      var next := s.(idx := s.idx + 1);
      assert Free(next);
      IterateOnWay(c, next, p');
    } else if !c.adhoc {
      FirstIsFor(c.mode, 0);
      MlmeHandler.AskToken(s, AuthReq(s.bssid, FirstAlg(c.mode)), WaitAuth);
    }
  }

  lemma AuthConfOnWay(c: Config, s: State, m: Msg, p: Progress, p': Progress)
    requires Free(s) && InAuth(s.cntl) && !c.adhoc && m.AuthConf? && Ahead(c, s, Queued(m), p)
    requires p' == Progress(Act(m), p.asked, p.tried)
    ensures var t := if s.cntl == WaitAuth then CntlWaitAuthProc(c, s, m) else CntlWaitAuthProc2(c, s, m);
            OnWay(c, t, p') && Over(c, s, m, t, p')
  {
    hide Acts, TokenOf;
    if m.ok {
      MlmeHandler.AskToken(s, AssocReq, WaitAssoc);
    } else if s.cntl == WaitAuth {
      FirstIsFor(c.mode, 1);
      MlmeHandler.AskToken(s, AuthReq(s.bssid, FirstAlg(c.mode)), WaitAuth2);
    } else if c.mode == AutoSwitch && s.alg == Shared {
      MlmeHandler.AskToken(s, AuthReq(s.bssid, Open), WaitAuth2);
    } else {
      var next := s.(idx := s.idx + 1);
      assert Free(next);
      IterateOnWay(c, next, p');
    }
  }

  lemma AssocConfOnWay(c: Config, s: State, m: Msg, p: Progress, p': Progress)
    requires Free(s) && s.cntl == WaitAssoc && m.AssocConf? && Ahead(c, s, Queued(m), p)
    requires p' == Progress(Act(m), p.asked, p.tried)
    ensures OnWay(c, CntlWaitAssocProc(c, s, m), p') && Over(c, s, m, CntlWaitAssocProc(c, s, m), p')
  {
    hide Acts, TokenOf;
    if !m.ok {
      var next := s.(idx := s.idx + 1);
      assert Free(next);
      IterateOnWay(c, next, p');
    }
  }

  lemma BeginOnWay(c: Config, s: State, m: Msg, p: Progress, p': Progress)
    requires Free(s) && Connecting(s.cntl) && ForSyncOrAssoc(m) && Awaits(s.cntl) == ActivityOf(m)
    requires Facts(s, Queued(m)) && Ahead(c, s, Queued(m), p)
    requires p' == Progress(Act(m), if m.JoinReq? then p.asked + 1 else p.asked, if m.JoinReq? then 0 else p.tried)
    ensures OnWay(c, Begin(s, m), p')
  {
    hide Acts, TokenOf, Begin;
    MlmeHandler.BegunToken(s, m);
    MlmeHandler.BegunSame(s, m);
  }

  lemma AuthReqOnWay(c: Config, s: State, m: Msg, env: Env, p: Progress, p': Progress)
    requires Free(s) && InAuth(s.cntl) && m.AuthReq? && Ahead(c, s, Queued(m), p)
    requires p' == Progress(Act(m), p.asked, p.tried + 1)
    ensures OnWay(c, AuthPerformAction(s, m, env).s, p')
  {
    hide Acts, TokenOf;
    var t := AuthPerformAction(s, m, env).s;
    if t.auth == ReqIdle {
      if s.blocked {
        ReportPlaced(s, false);
      } else {
        ReportPlaced(s.(timer := false, bssid := m.addr, alg := m.alg), false);
      }
      PlacedIsToken(t, Queued(AuthConf(false)));
    } else {
      PlacedIsToken(t, At(Authenticate));
    }
  }

  /** A request or confirmation of the walk is handled. */
  lemma ActOnWay(c: Config, s: State, h: History, m: Msg, env: Env, p: Progress, e: Entry)
    requires Free(s) && Connecting(s.cntl) && Awaits(s.cntl) == ActivityOf(m)
    requires Facts(s, Queued(m)) && Bounded(c, s, h, Queued(m)) && Ahead(c, s, Queued(m), p)
    requires e.msg == m && e.cntl == s.cntl
    ensures var t := Dispatch(c, s, m, env).s; OnWay(c, t, Onto(p, e)) && Over(c, s, m, t, Onto(p, e))
  {
    assert InAuth(s.cntl) ==> !c.adhoc;
    hide OnWay, Ahead, Free, Bounded, Facts, Begin, AuthPerformAction, GivenUp, KeepsOthers;
    hide CntlWaitJoinProc, CntlWaitAuthProc, CntlWaitAuthProc2, CntlWaitAssocProc, CntlIdleProc, CntlWaitDisassocProc;
    var p' := Onto(p, e);
    MlmeHandler.BegunSame(s, m);
    AuthFrame(s, m, env);
    if ForSyncOrAssoc(m) {
      BeginOnWay(c, s, m, p, p');
    } else if m.AuthReq? {
      AuthReqOnWay(c, s, m, env, p, p');
    } else if s.cntl == WaitJoin {
      JoinConfOnWay(c, s, m, p, p');
    } else if InAuth(s.cntl) {
      AuthConfOnWay(c, s, m, p, p');
    } else {
      AssocConfOnWay(c, s, m, p, p');
    }
  }

  /** A walk begins with the first network. */
  lemma SsidOnWay(c: Config, s: State, env: Env)
    requires Free(s) && s.cntl == Idle
    ensures OnWay(c, CntlOidSsidProc(c, s, env), NONE)
  {
    hide Acts, TokenOf, IterateOnBssTab, KeepsOthers, Ahead;
    var now := s.(bssid := 0, tab := env.found, idx := 0);
    assert Free(now);
    IterateOnWay(c, now, NONE);
  }

  lemma BssidOnWay(c: Config, s: State, a: Addr, env: Env)
    requires Free(s) && s.cntl == Idle
    ensures OnWay(c, CntlOidRTBssidProc(s, a, env), NONE)
  {
    hide Acts, TokenOf, KeepsOthers;
    var now := s.(bssid := a, idx := 0, tab := [a]);
    assert Free(now);
    IterateOnWay(c, now, NONE);
  }

  lemma IdleOnWay(c: Config, s: State, m: Msg, env: Env)
    requires Free(s) && s.cntl == Idle
    ensures OnWay(c, CntlIdleProc(c, s, m, env), NONE)
  {
    hide Acts, TokenOf, IterateOnBssTab, KeepsOthers, Ahead, CntlOidSsidProc, CntlOidRTBssidProc;
    match m
    case OidSsid => SsidOnWay(c, s, env);
    case OidBssid(a) => BssidOnWay(c, s, a, env);
    case Roaming =>
      var now := s.(tab := env.found, idx := 0);
      assert Free(now);
      IterateOnWay(c, now, NONE);
    case _ =>
  }

  lemma RestOnWay(c: Config, s: State, m: Msg, env: Env)
    requires Free(s) && !Connecting(s.cntl) && Awaits(s.cntl) == ActivityOf(m) != None && !ForSyncOrAssoc(m)
    ensures OnWay(c, MlmeCntlMachinePerformAction(c, s, m, env).s, NONE)
  {
    hide Acts, TokenOf, IterateOnBssTab, KeepsOthers, Ahead, CntlIdleProc;
    if s.cntl == WaitDisassoc {
      var now := s.(idx := 0, linked := false);
      assert Free(now);
      IterateOnWay(c, now, NONE);
    }
  }

  /** The queue does not matter to where the walk stands. */
  lemma AheadRest(c: Config, s: State, q: seq<Msg>, t: Token, p: Progress)
    requires Ahead(c, s, t, p)
    ensures Ahead(c, s.(queue := q), t, p)
  {
  }

  /** AUTH waits, and a message comes that may end its waiting. */
  lemma WaitingOnWay(c: Config, s: State, m: Msg, env: Env, p: Progress)
    requires Placed(s, At(Authenticate)) && InAuth(s.cntl) && (m.PeerAuth? || m == AuthTimeout)
    requires Ahead(c, s, At(Authenticate), p)
    ensures OnWay(c, AuthPerformAction(s, m, env).s, p)
  {
    hide Acts, TokenOf, AuthPerformAction;
    AuthStepShape(s, m, env);
    var o := AuthPerformAction(s, m, env);
    if o.s.auth == ReqIdle {
      ReportPlaced(s.(timer := o.s.timer), o.confirmed);
      PlacedIsToken(o.s, Queued(AuthConf(o.confirmed)));
    } else {
      PlacedIsToken(o.s, At(Authenticate));
    }
  }

  /** Any other message is handled. */
  lemma OtherOnWay(c: Config, s: State, t: Token, m: Msg, env: Env, p: Progress)
    requires Placed(s, t) && ActivityOf(m) == None && (Connecting(s.cntl) ==> Ahead(c, s, t, p))
    ensures var t := Dispatch(c, s, m, env).s;
            && OnWay(c, t, if Connecting(s.cntl) then p else NONE)
            && (Connecting(s.cntl) ==> Connecting(t.cntl) && t.tab == s.tab)
  {
    hide Acts, TokenOf, Ahead, CntlIdleProc, MlmeAuthReqAction, PeerAuthRspAtSeq2Action, PeerAuthRspAtSeq4Action;
    PlacedIsToken(s, t);
    if ForAuth(m) && t == At(Authenticate) {
      AuthFrame(s, m, env);
      WaitingOnWay(c, s, m, env, p);
    } else if ForAuth(m) {
      assert AuthPerformAction(s, m, env).s == s;
    } else if s.cntl == Idle {
      IdleOnWay(c, s, m, env);
    } else {
      hide MlmeCntlMachinePerformAction;
      CntlIgnores(c, s, m, env);
    }
  }

  lemma ServeOnWay(c: Config, s: State, h: History, env: Env, p: Progress, e: Entry)
    requires s.queue != [] && Clean(c, s, h) && OnWay(c, s, p) && e.msg == s.queue[0] && e.cntl == s.cntl
    ensures var t := Next(c, s, Serve(env)).s;
            && OnWay(c, t, Onto(p, e)) && (InWalk(e) ==> Fits(c, p, e.msg))
            && (Connecting(s.cntl) ==> Over(c, s, e.msg, t, Onto(p, e)) && s.idx < |s.tab|)
  {
    assert Connecting(s.cntl) ==> s.idx < |s.tab|;
    var m, rest, t := s.queue[0], s.(queue := s.queue[1..]), TokenOf(s);
    hide Placed, Facts, Bounded, Acts, TokenOf, Free, Ahead, Fits;
    hide AuthPerformAction, CntlIdleProc, CntlWaitJoinProc, CntlWaitAuthProc, CntlWaitAuthProc2, CntlWaitAssocProc;
    hide Begin;
    if Connecting(s.cntl) {
      AheadRest(c, s, rest.queue, t, p);
    }
    if ActivityOf(m) == None {
      TakeOther(s, t);
      OtherOnWay(c, rest, t, m, env, p);
    } else {
      TakeAct(s, t);
      RestSame(c, s, h, t);
      if Connecting(s.cntl) {
        AheadFits(c, s, m, p);
        ActOnWay(c, rest, h, m, env, p, e);
      } else if ForSyncOrAssoc(m) {
        MlmeHandler.BegunSame(rest, m);
      } else {
        NotAuth(s.cntl, m);
        RestOnWay(c, rest, m, env);
      }
    }
  }

  lemma AheadFits(c: Config, s: State, m: Msg, p: Progress)
    requires Ahead(c, s, Queued(m), p)
    ensures Fits(c, p, m)
  {
  }

  lemma NotAuth(k: Cntl, m: Msg)
    requires !Connecting(k) && Awaits(k) == ActivityOf(m) != None
    ensures !ForAuth(m)
  {
  }

  lemma AnswerOnWay(c: Config, s: State, h: History, k: Kind, ok: bool, p: Progress)
    requires k in s.busy && k != Authenticate && Clean(c, s, h) && OnWay(c, s, p)
    ensures OnWay(c, Next(c, s, Answer(k, ok)).s, p)
  {
    AnswerPlaced(s, k, ok);
    hide Acts, TokenOf, Placed, Facts, Bounded;
    var t := Next(c, s, Answer(k, ok)).s;
    PlacedIsToken(t, Queued(Confirmation(k, ok)));
  }

  /** What comes in from outside leaves the walk where it is. */
  lemma ArriveOnWay(c: Config, s: State, m: Msg, timer: bool, p: Progress)
    requires ActivityOf(m) == None && OnWay(c, s, p)
    ensures OnWay(c, s.(queue := s.queue + [m], timer := timer), p)
  {
    hide Fits;
    ActsLast(s.queue, m);
  }

  lemma FlagsOnWay(c: Config, s: State, p: Progress, blocked: bool, linked: bool)
    requires OnWay(c, s, p)
    ensures OnWay(c, s.(blocked := blocked, linked := linked), p)
  {
    hide Fits, Acts;
  }

  ghost predicate Keeps(c: Config, s: State, log: seq<Entry>) {
    OnWay(c, s, Walked(log)) && Proper(c, log)
  }

  lemma ServedKeeps(c: Config, s: State, h: History, env: Env)
    requires s.queue != [] && Clean(c, s, h) && Keeps(c, s, h.log)
    ensures var o := Next(c, s, Serve(env)); Keeps(c, o.s, Recorded(h, s, Serve(env), o).log)
  {
    hide Clean, OnWay, Dispatch, Fits, Proper, Walked, Onto;
    var o := Next(c, s, Serve(env));
    var entry := Entry(s.queue[0], s.cntl, s.idx, s.bssid, o.confirmed, o.up);
    ServeOnWay(c, s, h, env, Walked(h.log), entry);
    OneMore(c, h.log, entry);
  }

  /** CNTL is put to rest. */
  lemma RestKeeps(c: Config, s: State, s': State, log: seq<Entry>)
    requires Keeps(c, s, log) && !Connecting(s'.cntl)
    ensures Keeps(c, s', log + [Entry(Other, s.cntl, s.idx, s.bssid, false, false)])
  {
    hide Fits, Proper, Walked, Onto;
    OneMore(c, log, Entry(Other, s.cntl, s.idx, s.bssid, false, false));
  }

  lemma NextKeeps(c: Config, s: State, h: History, e: Event)
    requires Enabled(s, e) && (e.Overwrite? ==> s.cntl == Idle) && Clean(c, s, h) && Keeps(c, s, h.log)
    ensures var o := Next(c, s, e); Keeps(c, o.s, Recorded(h, s, e, o).log)
  {
    hide Clean, OnWay, Dispatch, Proper, Walked, Confirmation;
    if e.Serve? {
      ServedKeeps(c, s, h, e.env);
    } else if e.Overwrite? || e.Restart? {
      hide Keeps;
      RestKeeps(c, s, Next(c, s, e).s, h.log);
    } else {
      var p := Walked(h.log);
      match e
      case Answer(k, ok) => AnswerOnWay(c, s, h, k, ok, p);
      case Arrive(m) => ArriveOnWay(c, s, m, s.timer, p);
      case Fire => ArriveOnWay(c, s, AuthTimeout, false, p);
      case SetBlock(b) => FlagsOnWay(c, s, p, b, s.linked);
      case LoseLink => FlagsOnWay(c, s, p, s.blocked, false);
    }
  }

  lemma Elsewhere(c: Config, s: State, p: Progress)
    requires !Connecting(s.cntl)
    ensures OnWay(c, s, p)
  {
  }

  // ---- all runs ----

  /**
   In every run whose interventions find CNTL idle, each walk asks for the networks of its table one by one, from the
   first on and without a gap; a network is left only when it could not be joined or associated with, or when
   authentication has failed at least twice; and every attempt uses the algorithm that the mode calls for.
   */
  lemma {:induction false} ProperWalks(c: Config, alg: Alg, events: seq<Event>)
    requires IdleOnly(c, Boot(alg), events)
    ensures var w := After(c, Boot(alg), events); Proper(c, w.h.log) && OnWay(c, w.s, Walked(w.h.log))
    decreases |events|
  {
    hide Next, Recorded, OnWay;
    if events == [] {
      Elsewhere(c, Boot(alg).s, NONE);
    } else {
      var n := |events| - 1;
      IdlePrefix(c, Boot(alg), events, n);
      ProperWalks(c, alg, events[..n]);
      CleanRuns(c, alg, events[..n]);
      var w := After(c, Boot(alg), events[..n]);
      if Enabled(w.s, events[n]) {
        hide Clean, Proper, Walked;
        NextKeeps(c, w.s, w.h, events[n]);
      }
    }
  }

  /** Nothing but CNTL at rest changes the table. */
  lemma TableStays(c: Config, s: State, h: History, e: Event)
    requires Enabled(s, e) && (e.Overwrite? ==> s.cntl == Idle) && Clean(c, s, h) && OnWay(c, s, Walked(h.log))
    requires Connecting(s.cntl)
    ensures Next(c, s, e).s.tab == s.tab
  {
    hide Clean, OnWay, Dispatch, Walked;
    if e.Serve? {
      ServeOnWay(c, s, h, e.env, Walked(h.log), Entry(s.queue[0], s.cntl, s.idx, s.bssid, false, false));
    }
  }

  /**
   In every such run a walk that comes to rest on a message has brought the link up, or has found its network among
   stations, or has asked for every network of the table and given up each.
   */
  lemma ComesToRest(c: Config, alg: Alg, events: seq<Event>, env: Env)
    requires IdleOnly(c, Boot(alg), events)
    requires var w := After(c, Boot(alg), events); w.s.queue != [] && Connecting(w.s.cntl)
    ensures var w := After(c, Boot(alg), events);
            var t := Step(c, w, Serve(env));
            Connecting(t.s.cntl) || Next(c, w.s, Serve(env)).up || (c.adhoc && w.s.queue[0] == JoinConf(true))
            || (Walked(t.h.log).asked == |w.s.tab| && GivenUp(Walked(t.h.log)))
  {
    hide After, Dispatch, Clean, OnWay, Proper, Walked, Onto, GivenUp, IdleOnly;
    ProperWalks(c, alg, events);
    CleanRuns(c, alg, events);
    var w := After(c, Boot(alg), events);
    var o := Next(c, w.s, Serve(env));
    var entry := Entry(w.s.queue[0], w.s.cntl, w.s.idx, w.s.bssid, o.confirmed, o.up);
    ServeOnWay(c, w.s, w.h, env, Walked(w.h.log), entry);
    OneMore(c, w.h.log, entry);
    UpWhen(c, w.s, env);
  }

  lemma UpWhen(c: Config, s: State, env: Env)
    requires s.queue != []
    ensures s.cntl == WaitAssoc && s.queue[0] == AssocConf(true) ==> Next(c, s, Serve(env)).up
  {
    hide MlmeCntlMachinePerformAction;
  }
}
