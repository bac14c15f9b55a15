/**
 Connecting to an access point in the RT61 driver. The CNTL machine walks through a table
 of matching networks; for each it asks SYNC to join, AUTH to authenticate and ASSOC to
 associate, and moves on when one of them reports failure. The machines talk through one
 queue. SYNC and ASSOC are environment here; CNTL and AUTH are modelled.
 */
module Mlme {
  /** The address of a network; its lowest bit, the group bit, is clear. */
  type Addr = a: nat | a % 2 == 0

  predicate Unicast(a: nat) { a % 2 == 0 }

  datatype Cntl =
    | Idle | WaitDisassoc | WaitJoin | WaitStart | WaitAuth | WaitAuth2 | WaitAssoc | WaitListScan | WaitOidDisassoc

  datatype Auth = ReqIdle | WaitSeq2 | WaitSeq4

  datatype Alg = Open | Shared

  datatype AuthMode = OpenMode | SharedMode | AutoSwitch | WpaMode

  /** What a machine can be asked to do, on behalf of CNTL. */
  datatype Kind = Join | Authenticate | Associate | Start | Disassociate | Scan

  datatype Msg =
    // requests, and to whom they go
    | JoinReq(idx: nat) | StartReq | ScanReq
    | AuthReq(addr: Addr, alg: Alg)
    | AssocReq | DisassocReq
    // confirmations for CNTL
    | JoinConf(ok: bool) | StartConf(ok: bool) | ScanConf
    | AuthConf(ok: bool)
    | AssocConf(ok: bool) | DisassocConf
    // what reaches AUTH from outside
    | PeerAuth(sane: bool, addr: Addr, seqNo: nat, ok: bool) | AuthTimeout
    // what reaches CNTL from outside
    | OidSsid | OidBssid(addr: Addr) | OidScan | OidDisassoc | Roaming
    | Other

  /** Requests and confirmations belong to an activity; nothing else does. */
  datatype Activity = None | Of(kind: Kind)

  function ActivityOf(m: Msg): Activity {
    match m
    case JoinReq(_) => Of(Join)
    case JoinConf(_) => Of(Join)
    case AuthReq(_, _) => Of(Authenticate)
    case AuthConf(_) => Of(Authenticate)
    case AssocReq => Of(Associate)
    case AssocConf(_) => Of(Associate)
    case StartReq => Of(Start)
    case StartConf(_) => Of(Start)
    case DisassocReq => Of(Disassociate)
    case DisassocConf => Of(Disassociate)
    case ScanReq => Of(Scan)
    case ScanConf => Of(Scan)
    case _ => None
  }

  /** The activity that CNTL waits for. */
  function Awaits(c: Cntl): Activity {
    match c
    case Idle => None
    case WaitJoin => Of(Join)
    case WaitAuth => Of(Authenticate)
    case WaitAuth2 => Of(Authenticate)
    case WaitAssoc => Of(Associate)
    case WaitStart => Of(Start)
    case WaitDisassoc => Of(Disassociate)
    case WaitOidDisassoc => Of(Disassociate)
    case WaitListScan => Of(Scan)
  }

  predicate InAuth(c: Cntl) { c == WaitAuth || c == WaitAuth2 }

  // ---- the machines ----

  /** What does not change during a run: the authentication mode and the kind of network. */
  datatype Config = Config(mode: AuthMode, adhoc: bool)

  datatype State = State(
    cntl: Cntl,
    auth: Auth,
    timer: bool,            // AuthTimer is running
    alg: Alg,               // MlmeAux.Alg
    bssid: Addr,            // MlmeAux.Bssid
    idx: nat,               // MlmeAux.BssIdx
    tab: seq<Addr>,         // MlmeAux.SsidBssTab
    queue: seq<Msg>,
    busy: multiset<Kind>,   // what SYNC and ASSOC are at
    blocked: bool,          // PortCfg.bBlockAssoc
    linked: bool)           // INFRA_ON: associated with an access point

  /** What a handler finds in the rest of the driver. */
  datatype Env =
    Env(radioOff: bool, found: seq<Addr>, known: bool, sameAp: bool, redo: bool, rescan: bool, noMemory: bool)

  /** The state after a message, whether the link went up, and whether AUTH confirmed success. */
  datatype Out = Out(s: State, up: bool, confirmed: bool)

  /** CNTL leaves AUTH, SYNC and ASSOC alone and adds at most one request to the queue. */
  predicate KeepsOthers(s: State, t: State) {
    && t.auth == s.auth && t.timer == s.timer && t.alg == s.alg && t.busy == s.busy && t.blocked == s.blocked
    && AddsAct(s.queue, t.queue)
  }

  predicate AddsAct(q: seq<Msg>, r: seq<Msg>) {
    r == q || (|r| == |q| + 1 && q <= r && ActivityOf(r[|q|]) != None)
  }

  function Ask(s: State, m: Msg, c: Cntl): (t: State)
    requires ActivityOf(m) != None
    ensures KeepsOthers(s, t)
  {
    s.(queue := s.queue + [m], cntl := c)
  }

  /** The first algorithm to try. */
  function FirstAlg(mode: AuthMode): Alg {
    if mode == SharedMode || mode == AutoSwitch then Shared else Open
  }

  function IterateOnBssTab(c: Config, s: State): (t: State)
    ensures KeepsOthers(s, t)
  {
    if s.idx < |s.tab| then Ask(s, JoinReq(s.idx), WaitJoin)
    else if c.adhoc then Ask(s, StartReq, WaitStart)
    else s.(cntl := Idle)
  }

  function CntlOidSsidProc(c: Config, s: State, env: Env): (t: State)
    ensures KeepsOthers(s, t)
  {
    var s := s.(bssid := 0, tab := env.found);
    if env.sameAp then if env.redo then Ask(s, DisassocReq, WaitDisassoc) else s
    else if s.linked then Ask(s, DisassocReq, WaitDisassoc)
    else if s.tab == [] && env.rescan then Ask(s, ScanReq, WaitListScan)
    else IterateOnBssTab(c, s.(idx := 0))
  }

  function CntlOidRTBssidProc(s: State, a: Addr, env: Env): (t: State)
    ensures KeepsOthers(s, t)
  {
    var s := s.(bssid := a);
    if !env.known then s
    else
      var s := s.(idx := 0, tab := [a]);
      if env.sameAp then s
      else if s.linked then Ask(s, DisassocReq, WaitDisassoc)
      else Ask(s, JoinReq(s.idx), WaitJoin)
  }

  function CntlIdleProc(c: Config, s: State, m: Msg, env: Env): (t: State)
    ensures KeepsOthers(s, t)
  {
    if env.radioOff then s
    else
      match m
      case OidSsid => CntlOidSsidProc(c, s, env)
      case OidBssid(a) => CntlOidRTBssidProc(s, a, env)
      case OidScan => Ask(s, ScanReq, WaitListScan)
      case OidDisassoc => Ask(s, DisassocReq, WaitOidDisassoc)
      case Roaming => IterateOnBssTab(c, s.(tab := env.found, idx := 0))
      case _ => s
  }

  function CntlWaitDisassocProc(c: Config, s: State, m: Msg): (t: State)
    ensures KeepsOthers(s, t)
  {
    if m != DisassocConf then s
    else if s.tab == [] && c.adhoc then Ask(s.(linked := false), StartReq, WaitStart)
    else IterateOnBssTab(c, s.(idx := 0, linked := false))
  }

  function CntlWaitJoinProc(c: Config, s: State, m: Msg): (t: State)
    ensures KeepsOthers(s, t)
  {
    if !m.JoinConf? then s
    else if !m.ok then IterateOnBssTab(c, s.(idx := s.idx + 1))
    else if c.adhoc then s.(cntl := Idle, linked := false)
    else Ask(s, AuthReq(s.bssid, FirstAlg(c.mode)), WaitAuth)
  }

  function CntlWaitStartProc(s: State, m: Msg): (t: State)
    ensures KeepsOthers(s, t)
  {
    if m.StartConf? then s.(cntl := Idle, linked := s.linked && !m.ok) else s
  }

  function CntlWaitAuthProc(c: Config, s: State, m: Msg): (t: State)
    ensures KeepsOthers(s, t)
  {
    if !m.AuthConf? then s
    else if m.ok then Ask(s, AssocReq, WaitAssoc)
    else Ask(s, AuthReq(s.bssid, FirstAlg(c.mode)), WaitAuth2)
  }

  function CntlWaitAuthProc2(c: Config, s: State, m: Msg): (t: State)
    ensures KeepsOthers(s, t)
  {
    if !m.AuthConf? then s
    else if m.ok then Ask(s, AssocReq, WaitAssoc)
    else if c.mode == AutoSwitch && s.alg == Shared then Ask(s, AuthReq(s.bssid, Open), WaitAuth2)
    else IterateOnBssTab(c, s.(idx := s.idx + 1))
  }

  function CntlWaitAssocProc(c: Config, s: State, m: Msg): (t: State)
    ensures KeepsOthers(s, t)
  {
    if !m.AssocConf? then s
    else if m.ok then s.(cntl := Idle, linked := true)
    else IterateOnBssTab(c, s.(idx := s.idx + 1))
  }

  function MlmeCntlMachinePerformAction(c: Config, s: State, m: Msg, env: Env): (o: Out)
    ensures KeepsOthers(s, o.s)
    ensures !o.confirmed && (o.up <==> s.cntl == WaitAssoc && m == AssocConf(true))
  {
    match s.cntl
    case Idle => Out(CntlIdleProc(c, s, m, env), false, false)
    case WaitDisassoc => Out(CntlWaitDisassocProc(c, s, m), false, false)
    case WaitJoin => Out(CntlWaitJoinProc(c, s, m), false, false)
    case WaitStart => Out(CntlWaitStartProc(s, m), false, false)
    case WaitAuth => Out(CntlWaitAuthProc(c, s, m), false, false)
    case WaitAuth2 => Out(CntlWaitAuthProc2(c, s, m), false, false)
    case WaitAssoc => Out(CntlWaitAssocProc(c, s, m), m == AssocConf(true), false)
    case WaitListScan => Out(if m == ScanConf then s.(cntl := Idle) else s, false, false)
    case WaitOidDisassoc => Out(if m == DisassocConf then s.(cntl := Idle, linked := false) else s, false, false)
  }

  /** AUTH reports to CNTL and is idle again. */
  function Report(s: State, ok: bool): Out {
    Out(s.(auth := ReqIdle, queue := s.queue + [AuthConf(ok)]), false, ok)
  }

  function MlmeAuthReqAction(s: State, a: Addr, g: Alg, env: Env): Out {
    if s.blocked || !Unicast(a) then Report(s, false)
    else
      var s := s.(timer := false, bssid := a, alg := g);
      if env.noMemory then Report(s, false)
      else Out(s.(timer := true, auth := WaitSeq2), false, false)
  }

  function PeerAuthRspAtSeq2Action(s: State, m: Msg, env: Env): Out
    requires m.PeerAuth?
  {
    if !(m.sane && m.addr == s.bssid && m.seqNo == 2) then Out(s, false, false)
    else
      var s := s.(timer := false);
      if !m.ok || s.alg == Open then Report(s, m.ok)
      else if env.noMemory then Report(s, false)
      else Out(s.(timer := true, auth := WaitSeq4), false, false)
  }

  function PeerAuthRspAtSeq4Action(s: State, m: Msg): Out
    requires m.PeerAuth?
  {
    if m.sane && m.addr == s.bssid && m.seqNo == 4 then Report(s.(timer := false), m.ok) else Out(s, false, false)
  }

  /** The transition table of AUTH. */
  function AuthPerformAction(s: State, m: Msg, env: Env): Out {
    match m
    case AuthReq(a, g) => if s.auth == ReqIdle then MlmeAuthReqAction(s, a, g, env) else Report(s, false)
    case PeerAuth(_, _, _, _) =>
      (match s.auth
       case ReqIdle => Out(s, false, false)
       case WaitSeq2 => PeerAuthRspAtSeq2Action(s, m, env)
       case WaitSeq4 => PeerAuthRspAtSeq4Action(s, m))
    case AuthTimeout => if s.auth == ReqIdle then Out(s, false, false) else Report(s, false)
    case _ => Out(s, false, false)
  }

  /**
   SYNC and ASSOC start on a request. SYNC records whom it joins; ASSOC refuses at once while association is blocked.
   */
  function Begin(s: State, m: Msg): State {
    match m
    case JoinReq(i) => s.(busy := s.busy + multiset{Join}, bssid := if i < |s.tab| then s.tab[i] else s.bssid)
    case StartReq => s.(busy := s.busy + multiset{Start})
    case ScanReq => s.(busy := s.busy + multiset{Scan})
    case AssocReq =>
      if s.blocked then s.(queue := s.queue + [AssocConf(false)]) else s.(busy := s.busy + multiset{Associate})
    case DisassocReq => s.(busy := s.busy + multiset{Disassociate})
    case _ => s
  }

  predicate ForSyncOrAssoc(m: Msg) {
    m.JoinReq? || m == StartReq || m == ScanReq || m == AssocReq || m == DisassocReq
  }

  predicate ForAuth(m: Msg) {
    m.AuthReq? || m.PeerAuth? || m == AuthTimeout
  }

  /** One turn of MlmeHandler's loop, on a message already taken from the queue. */
  function Dispatch(c: Config, s: State, m: Msg, env: Env): Out {
    if ForSyncOrAssoc(m) then Out(Begin(s, m), false, false)
    else if ForAuth(m) then AuthPerformAction(s, m, env)
    else MlmeCntlMachinePerformAction(c, s, m, env)
  }

  function Confirmation(k: Kind, ok: bool): Msg {
    match k
    case Join => JoinConf(ok)
    case Authenticate => AuthConf(ok)
    case Associate => AssocConf(ok)
    case Start => StartConf(ok)
    case Disassociate => DisassocConf
    case Scan => ScanConf
  }

  // ---- the record of a run ----

  /**
   A message that was handled: the state of CNTL, the index and the address at that time;
   whether AUTH confirmed success on it, and whether CNTL brought the link up on it.
   */
  datatype Entry = Entry(msg: Msg, cntl: Cntl, idx: nat, bssid: Addr, confirmed: bool, up: bool)

  /** Entry i joined network idx, and up to n CNTL has been authenticating with it. */
  ghost predicate JoinedAt(log: seq<Entry>, i: nat, n: nat, idx: nat) {
    && i < n <= |log|
    && log[i].msg == JoinConf(true) && log[i].cntl == WaitJoin && log[i].idx == idx
    && forall t :: i < t < n ==> InAuth(log[t].cntl) && log[t].idx == idx
  }

  /** Entry j then confirmed the authentication, and up to n CNTL has been associating. */
  ghost predicate AuthedAt(log: seq<Entry>, i: nat, j: nat, n: nat, idx: nat) {
    && j < n <= |log|
    && JoinedAt(log, i, j, idx)
    && log[j].msg == AuthConf(true) && InAuth(log[j].cntl) && log[j].idx == idx
    && forall t :: j < t < n ==> log[t].cntl == WaitAssoc && log[t].idx == idx
  }

  /** The link went up at k: on an association, after an authentication, after a join, all of the same network. */
  ghost predicate UpOk(log: seq<Entry>, k: nat)
    requires k < |log|
  {
    && log[k].msg == AssocConf(true) && log[k].cntl == WaitAssoc
    && exists i: nat, j: nat :: AuthedAt(log, i, j, k, log[k].idx)
  }

  ghost predicate UpsOk(log: seq<Entry>) {
    forall k: nat :: k < |log| && log[k].up ==> UpOk(log, k)
  }

  lemma JoinedStays(log: seq<Entry>, e: Entry, i: nat, n: nat, idx: nat)
    requires JoinedAt(log, i, n, idx)
    ensures JoinedAt(log + [e], i, n, idx)
  {
  }

  lemma AuthedStays(log: seq<Entry>, e: Entry, i: nat, j: nat, n: nat, idx: nat)
    requires AuthedAt(log, i, j, n, idx)
    ensures AuthedAt(log + [e], i, j, n, idx)
  {
    JoinedStays(log, e, i, j, idx);
  }

  lemma UpsStay(log: seq<Entry>, e: Entry)
    requires UpsOk(log) && (e.up ==> UpOk(log + [e], |log|))
    ensures UpsOk(log + [e])
  {
    hide AuthedAt;
    var more := log + [e];
    forall k: nat | k < |more| && more[k].up
      ensures UpOk(more, k)
    {
      if k < |log| {
        assert log[k].up;
        var i: nat, j: nat :| AuthedAt(log, i, j, k, log[k].idx);
        AuthedStays(log, e, i, j, k, log[k].idx);
      }
    }
  }

  /** What the record says about where CNTL stands. */
  ghost predicate TraceOk(log: seq<Entry>, c: Cntl, idx: nat, joinAt: nat, authAt: nat) {
    && UpsOk(log)
    && (InAuth(c) ==> JoinedAt(log, joinAt, |log|, idx))
    && (c == WaitAssoc ==> AuthedAt(log, joinAt, authAt, |log|, idx))
  }

  /** Any step that does not end in authenticating, associating or link-up keeps it. */
  lemma TraceElsewhere(log: seq<Entry>, e: Entry, c: Cntl, idx: nat, c': Cntl, idx': nat, joinAt: nat, authAt: nat,
                       joinAt': nat)
    requires TraceOk(log, c, idx, joinAt, authAt) && !e.up && !InAuth(c') && c' != WaitAssoc
    ensures TraceOk(log + [e], c', idx', joinAt', authAt)
  {
    hide UpsOk, JoinedAt, AuthedAt;
    UpsStay(log, e);
  }

  /** A step that leaves the state where it is, or goes on authenticating. */
  lemma TraceStays(log: seq<Entry>, e: Entry, c: Cntl, idx: nat, c': Cntl, joinAt: nat, authAt: nat)
    requires TraceOk(log, c, idx, joinAt, authAt) && !e.up && e.cntl == c && e.idx == idx
    requires c' == c || (InAuth(c) && InAuth(c'))
    ensures TraceOk(log + [e], c', idx, joinAt, authAt)
  {
    hide UpsOk;
    UpsStay(log, e);
    if c == WaitAssoc {
      JoinedStays(log, e, joinAt, authAt, idx);
    }
  }

  lemma TraceJoined(log: seq<Entry>, e: Entry, c: Cntl, idx: nat, joinAt: nat, authAt: nat)
    requires TraceOk(log, c, idx, joinAt, authAt) && !e.up && e.msg == JoinConf(true) && e.cntl == WaitJoin
             && e.idx == idx
    ensures TraceOk(log + [e], WaitAuth, idx, |log|, authAt)
  {
    hide UpsOk;
    UpsStay(log, e);
  }

  lemma TraceAuthed(log: seq<Entry>, e: Entry, c: Cntl, idx: nat, joinAt: nat, authAt: nat)
    requires TraceOk(log, c, idx, joinAt, authAt) && InAuth(c)
    requires !e.up && e.msg == AuthConf(true) && e.cntl == c && e.idx == idx
    ensures TraceOk(log + [e], WaitAssoc, idx, joinAt, |log|)
  {
    hide UpsOk;
    UpsStay(log, e);
    JoinedStays(log, e, joinAt, |log|, idx);
  }

  lemma TraceUp(log: seq<Entry>, e: Entry, idx: nat, joinAt: nat, authAt: nat)
    requires TraceOk(log, WaitAssoc, idx, joinAt, authAt)
    requires e.up && e.msg == AssocConf(true) && e.cntl == WaitAssoc && e.idx == idx
    ensures TraceOk(log + [e], Idle, idx, joinAt, authAt)
  {
    hide UpsOk;
    AuthedStays(log, e, joinAt, authAt, |log|, idx);
    assert UpOk(log + [e], |log|);
    UpsStay(log, e);
  }

  // ---- runs ----

  /**
   What can happen: a message is handled, a machine answers, a message or a timeout comes in, code outside CNTL puts it
   into another state, the blocking of associations is set or cleared, the link is lost, all machines are restarted
   between two messages.
   */
  datatype Event =
    | Serve(env: Env)
    | Answer(kind: Kind, ok: bool)
    | Arrive(msg: Msg)
    | Fire
    | Overwrite(cntl: Cntl)
    | SetBlock(on: bool)
    | LoseLink
    | Restart

  /**
   The states that code outside CNTL puts it into, and the request it queues: the scans of the periodic task, and the
   disassociations after a second MIC failure, which block associations in the same step.
   */
  function Intervention(c: Cntl): Activity {
    match c
    case WaitDisassoc => Of(Disassociate)
    case WaitOidDisassoc => Of(Disassociate)
    case WaitListScan => Of(Scan)
    case _ => None
  }

  predicate Enabled(s: State, e: Event) {
    match e
    case Serve(_) => s.queue != []
    case Answer(k, _) => k in s.busy && k != Authenticate
    case Arrive(m) => ActivityOf(m) == None && m != AuthTimeout
    case Fire => s.timer
    case Overwrite(c) => Intervention(c) != None && (c == WaitListScan ==> s.cntl == Idle || s.linked)
    case SetBlock(_) => true
    case LoseLink => true
    case Restart => true
  }

  /** MlmeRestartStateMachine: the queue is emptied, the timers are cancelled and every machine is idle. */
  function Restarted(s: State): State {
    s.(queue := [], timer := false, cntl := Idle, auth := ReqIdle, busy := multiset{})
  }

  function Next(c: Config, s: State, e: Event): Out
    requires Enabled(s, e)
  {
    match e
    case Serve(env) => Dispatch(c, s.(queue := s.queue[1..]), s.queue[0], env)
    case Answer(k, ok) => Out(s.(busy := s.busy - multiset{k}, queue := s.queue + [Confirmation(k, ok)]), false, false)
    case Arrive(m) => Out(s.(queue := s.queue + [m]), false, false)
    case Fire => Out(s.(timer := false, queue := s.queue + [AuthTimeout]), false, false)
    case Overwrite(c') =>
      Out(s.(cntl := c', queue := s.queue + [if c' == WaitListScan then ScanReq else DisassocReq],
             blocked := s.blocked || c' != WaitListScan), false, false)
    case SetBlock(b) => Out(s.(blocked := b), false, false)
    case LoseLink => Out(s.(linked := false), false, false)
    case Restart => Out(Restarted(s), false, false)
  }

  /**
   The history: the record, the places in it of the last join, authentication and peer's answer, how many
   confirmations the present walk through the table has used, and how many open authentications it asked for in vain.
   */
  datatype History = History(log: seq<Entry>, joinAt: nat, authAt: nat, peerAt: nat, confs: nat, refused: nat)

  /** AUTH refuses open authentication because association is blocked, and goes on remembering the shared keys. */
  predicate RefusesOpen(s: State, m: Msg) {
    s.cntl == WaitAuth2 && s.blocked && s.alg == Shared && m.AuthReq? && m.alg == Open
  }

  predicate Connecting(c: Cntl) {
    c == WaitJoin || InAuth(c) || c == WaitAssoc
  }

  function Recorded(h: History, s: State, e: Event, o: Out): History
    requires Enabled(s, e)
  {
    if e.Serve? then
      var m, n := s.queue[0], |h.log|;
      History(
        h.log + [Entry(m, s.cntl, s.idx, s.bssid, o.confirmed, o.up)],
        if m == JoinConf(true) && s.cntl == WaitJoin then n else h.joinAt,
        if m == AuthConf(true) && InAuth(s.cntl) then n else h.authAt,
        if o.confirmed then n else h.peerAt,
        if !Connecting(s.cntl) then 0
        else if m == Confirmation(Awaits(s.cntl).kind, true) || m == Confirmation(Awaits(s.cntl).kind, false)
        then h.confs + 1
        else h.confs,
        if !Connecting(s.cntl) then 0 else if RefusesOpen(s, m) then h.refused + 1 else h.refused)
    else if e.Overwrite? || e.Restart? then
      h.(log := h.log + [Entry(Other, s.cntl, s.idx, s.bssid, false, false)])
    else h
  }

  /** What every step of AUTH leaves alone, and how it ends. */
  predicate FramesAuth(s: State, m: Msg, o: Out) {
    && o.s.cntl == s.cntl && o.s.idx == s.idx && o.s.tab == s.tab && o.s.busy == s.busy && o.s.blocked == s.blocked
    && !o.up
    && (o.s.queue == s.queue || (o.s.queue == s.queue + [AuthConf(o.confirmed)] && o.s.auth == ReqIdle))
    && (o.s.auth != ReqIdle ==> o.s.timer || (o.s.timer == s.timer && o.s.auth == s.auth && m != AuthTimeout))
  }

  lemma AuthReqFrame(s: State, m: Msg, env: Env)
    requires m.AuthReq?
    ensures FramesAuth(s, m, AuthPerformAction(s, m, env))
  {
  }

  lemma Seq2Frame(s: State, m: Msg, env: Env)
    requires m.PeerAuth?
    ensures FramesAuth(s, m, PeerAuthRspAtSeq2Action(s, m, env))
  {
  }

  lemma Seq4Frame(s: State, m: Msg)
    requires m.PeerAuth?
    ensures FramesAuth(s, m, PeerAuthRspAtSeq4Action(s, m))
  {
  }

  lemma PeerFrame(s: State, m: Msg, env: Env)
    requires m.PeerAuth?
    ensures FramesAuth(s, m, AuthPerformAction(s, m, env))
  {
    hide PeerAuthRspAtSeq2Action, PeerAuthRspAtSeq4Action;
    Seq2Frame(s, m, env);
    Seq4Frame(s, m);
  }

  /** AUTH leaves CNTL and its table alone; it is idle again exactly when it reports. */
  lemma AuthFrame(s: State, m: Msg, env: Env)
    ensures FramesAuth(s, m, AuthPerformAction(s, m, env))
  {
    if m.AuthReq? {
      hide AuthPerformAction, FramesAuth;
      AuthReqFrame(s, m, env);
    } else if m.PeerAuth? {
      hide AuthPerformAction, FramesAuth;
      PeerFrame(s, m, env);
    }
  }

  // ---- safety, with interventions ----

  /** CNTL handles a message: one of the five kinds of step. */
  lemma DispatchTrace(c: Config, s: State, m: Msg, env: Env, h: History)
    requires TraceOk(h.log, s.cntl, s.idx, h.joinAt, h.authAt)
    ensures var o := Dispatch(c, s, m, env);
            var e := Entry(m, s.cntl, s.idx, s.bssid, o.confirmed, o.up);
            TraceOk(h.log + [e], o.s.cntl, o.s.idx,
                    if m == JoinConf(true) && s.cntl == WaitJoin then |h.log| else h.joinAt,
                    if m == AuthConf(true) && InAuth(s.cntl) then |h.log| else h.authAt)
  {
    hide TraceOk;
    var o := Dispatch(c, s, m, env);
    var e := Entry(m, s.cntl, s.idx, s.bssid, o.confirmed, o.up);
    if ForSyncOrAssoc(m) || ForAuth(m) {
      hide AuthPerformAction;
      AuthFrame(s, m, env);
      TraceStays(h.log, e, s.cntl, s.idx, s.cntl, h.joinAt, h.authAt);
    } else {
      CntlTrace(c, s, m, env, h);
    }
  }

  /** CNTL is neither authenticating nor associating. */
  predicate Elsewhere(c: Cntl) { !InAuth(c) && c != WaitAssoc }

  /** Where CNTL can go on a message. */
  predicate Goes(c: Config, s: State, m: Msg, t: State) {
    if m == JoinConf(true) && s.cntl == WaitJoin && !c.adhoc then t.cntl == WaitAuth && t.idx == s.idx
    else if m == AuthConf(true) && InAuth(s.cntl) then t.cntl == WaitAssoc && t.idx == s.idx
    else if m == AssocConf(true) && s.cntl == WaitAssoc then t.cntl == Idle && t.idx == s.idx
    else || (t.cntl == s.cntl && t.idx == s.idx)
         || (InAuth(s.cntl) && InAuth(t.cntl) && t.idx == s.idx)
         || Elsewhere(t.cntl)
  }

  lemma IterateGoes(c: Config, s: State)
    ensures Elsewhere(IterateOnBssTab(c, s).cntl)
  {
    hide KeepsOthers;
  }

  lemma IdleGoes(c: Config, s: State, m: Msg, env: Env)
    requires s.cntl == Idle
    ensures Elsewhere(CntlIdleProc(c, s, m, env).cntl)
  {
    hide KeepsOthers;
  }

  lemma JoinGoes(c: Config, s: State, m: Msg)
    requires s.cntl == WaitJoin
    ensures Goes(c, s, m, CntlWaitJoinProc(c, s, m))
  {
    hide KeepsOthers, IterateOnBssTab;
    IterateGoes(c, s.(idx := s.idx + 1));
  }

  lemma AuthGoes(c: Config, s: State, m: Msg)
    requires InAuth(s.cntl)
    ensures Goes(c, s, m, if s.cntl == WaitAuth then CntlWaitAuthProc(c, s, m) else CntlWaitAuthProc2(c, s, m))
  {
    hide KeepsOthers, IterateOnBssTab;
    IterateGoes(c, s.(idx := s.idx + 1));
  }

  lemma AssocGoes(c: Config, s: State, m: Msg)
    requires s.cntl == WaitAssoc
    ensures Goes(c, s, m, CntlWaitAssocProc(c, s, m))
  {
    hide KeepsOthers, IterateOnBssTab;
    IterateGoes(c, s.(idx := s.idx + 1));
  }

  lemma DisassocGoes(c: Config, s: State, m: Msg)
    requires s.cntl == WaitDisassoc
    ensures Elsewhere(CntlWaitDisassocProc(c, s, m).cntl)
  {
    hide KeepsOthers, IterateOnBssTab;
    IterateGoes(c, s.(idx := 0, linked := false));
  }

  lemma RestGoes(c: Config, s: State, m: Msg, t: State)
    requires Elsewhere(s.cntl) && s.cntl != WaitJoin && Elsewhere(t.cntl)
    ensures Goes(c, s, m, t)
  {
  }

  lemma CntlGoes(c: Config, s: State, m: Msg, env: Env)
    ensures Goes(c, s, m, MlmeCntlMachinePerformAction(c, s, m, env).s)
  {
    hide KeepsOthers, CntlIdleProc, CntlWaitDisassocProc, CntlWaitJoinProc, CntlWaitAuthProc, CntlWaitAuthProc2;
    hide CntlWaitAssocProc, Goes;
    var t := MlmeCntlMachinePerformAction(c, s, m, env).s;
    match s.cntl
    case WaitJoin => JoinGoes(c, s, m);
    case WaitAuth => AuthGoes(c, s, m);
    case WaitAuth2 => AuthGoes(c, s, m);
    case WaitAssoc => AssocGoes(c, s, m);
    case Idle =>
      IdleGoes(c, s, m, env);
      RestGoes(c, s, m, t);
    case WaitDisassoc =>
      DisassocGoes(c, s, m);
      RestGoes(c, s, m, t);
    case _ => RestGoes(c, s, m, t);
  }

  lemma CntlTrace(c: Config, s: State, m: Msg, env: Env, h: History)
    requires TraceOk(h.log, s.cntl, s.idx, h.joinAt, h.authAt)
    ensures var o := MlmeCntlMachinePerformAction(c, s, m, env);
            var e := Entry(m, s.cntl, s.idx, s.bssid, o.confirmed, o.up);
            TraceOk(h.log + [e], o.s.cntl, o.s.idx,
                    if m == JoinConf(true) && s.cntl == WaitJoin then |h.log| else h.joinAt,
                    if m == AuthConf(true) && InAuth(s.cntl) then |h.log| else h.authAt)
  {
    hide TraceOk, MlmeCntlMachinePerformAction, KeepsOthers;
    CntlGoes(c, s, m, env);
    var o := MlmeCntlMachinePerformAction(c, s, m, env);
    var e := Entry(m, s.cntl, s.idx, s.bssid, o.confirmed, o.up);
    if o.up {
      TraceUp(h.log, e, s.idx, h.joinAt, h.authAt);
    } else if m == JoinConf(true) && s.cntl == WaitJoin && !c.adhoc {
      TraceJoined(h.log, e, s.cntl, s.idx, h.joinAt, h.authAt);
    } else if m == AuthConf(true) && InAuth(s.cntl) {
      TraceAuthed(h.log, e, s.cntl, s.idx, h.joinAt, h.authAt);
    } else {
      var joinAt := if m == JoinConf(true) && s.cntl == WaitJoin then |h.log| else h.joinAt;
      if InAuth(o.s.cntl) || o.s.cntl == WaitAssoc {
        TraceStays(h.log, e, s.cntl, s.idx, o.s.cntl, h.joinAt, h.authAt);
      } else {
        TraceElsewhere(h.log, e, s.cntl, s.idx, o.s.cntl, o.s.idx, h.joinAt, h.authAt, joinAt);
      }
    }
  }

  ghost predicate Traced(s: State, h: History) {
    TraceOk(h.log, s.cntl, s.idx, h.joinAt, h.authAt)
  }

  /** While AUTH waits, its timer runs or has just run out. */
  predicate TimerOk(s: State) {
    s.auth != ReqIdle ==> s.timer || AuthTimeout in s.queue
  }

  lemma NextTraced(c: Config, s: State, h: History, e: Event)
    requires Enabled(s, e) && Traced(s, h)
    ensures Traced(Next(c, s, e).s, Recorded(h, s, e, Next(c, s, e)))
  {
    hide TraceOk;
    match e
    case Serve(env) =>
      hide Dispatch;
      DispatchTrace(c, s.(queue := s.queue[1..]), s.queue[0], env, h);
    case Overwrite(c') =>
      TraceElsewhere(h.log, Entry(Other, s.cntl, s.idx, s.bssid, false, false), s.cntl, s.idx, c', s.idx, h.joinAt,
          h.authAt, h.joinAt);
    case Restart =>
      TraceElsewhere(h.log, Entry(Other, s.cntl, s.idx, s.bssid, false, false), s.cntl, s.idx, Idle, s.idx, h.joinAt,
          h.authAt, h.joinAt);
    case _ =>
  }

  lemma NextTimer(c: Config, s: State, e: Event)
    requires Enabled(s, e) && TimerOk(s)
    ensures TimerOk(Next(c, s, e).s)
  {
    match e
    case Serve(env) =>
      hide MlmeCntlMachinePerformAction, AuthPerformAction;
      var rest, m := s.(queue := s.queue[1..]), s.queue[0];
      assert s.queue == [m] + rest.queue;
      AuthFrame(rest, m, env);
    case _ =>
  }

  // ---- runs with interventions at rest only: one activity at a time ----

  /** The requests and confirmations in a queue. */
  function Acts(queue: seq<Msg>): seq<Msg> {
    if queue == [] then []
    else (if ActivityOf(queue[0]) != None then [queue[0]] else []) + Acts(queue[1..])
  }

  lemma {:induction false} ActsLast(queue: seq<Msg>, m: Msg)
    ensures Acts(queue + [m]) == Acts(queue) + if ActivityOf(m) != None then [m] else []
    decreases |queue|
  {
    hide ActivityOf;
    if queue == [] {
      assert queue + [m] == [m];
    } else {
      ActsLast(queue[1..], m);
      var all := queue + [m];
      assert all[1..] == queue[1..] + [m] && all[0] == queue[0];
      assert Acts(all) == (if ActivityOf(all[0]) != None then [all[0]] else []) + Acts(all[1..]);
    }
  }

  /** Where the activity that CNTL waits for has got to. */
  datatype Token = Nowhere | Queued(msg: Msg) | At(kind: Kind)

  function TokenOf(s: State): Token {
    if Acts(s.queue) != [] then Queued(Acts(s.queue)[0])
    else if Awaits(s.cntl) == None then Nowhere
    else At(Awaits(s.cntl).kind)
  }

  /** Nothing is under way. */
  ghost predicate Free(s: State) {
    Acts(s.queue) == [] && s.busy == multiset{} && s.auth == ReqIdle
  }

  /** What CNTL waits for is under way in exactly one place, and nothing else is. */
  ghost predicate Placed(s: State, t: Token) {
    match t
    case Nowhere => Awaits(s.cntl) == None && Free(s)
    case Queued(m) =>
      && Awaits(s.cntl) == ActivityOf(m) != None && Acts(s.queue) == [m] && s.busy == multiset{} && s.auth == ReqIdle
    case At(k) =>
      && Awaits(s.cntl) == Of(k) && Acts(s.queue) == []
      && (if k == Authenticate then s.busy == multiset{} && s.auth != ReqIdle
          else s.busy == multiset{k} && s.auth == ReqIdle)
  }

  lemma PlacedIsToken(s: State, t: Token)
    requires Placed(s, t)
    ensures t == TokenOf(s)
  {
  }

  /** What holds of the network in hand, stage by stage. */
  predicate Facts(s: State, t: Token) {
    Connecting(s.cntl) ==>
      && s.idx < |s.tab|
      && (if t.Queued? && t.msg.JoinReq? then t.msg.idx == s.idx else s.bssid == s.tab[s.idx])
      && (t.Queued? && t.msg.AuthReq? ==> t.msg.addr == s.bssid)
  }

  /** Association is blocked, and a failed shared-key authentication keeps being followed by an open one. */
  predicate Looping(c: Config, s: State) {
    s.blocked && !c.adhoc && c.mode == AutoSwitch && s.alg == Shared
  }

  /** How many confirmations are still to come, at most. */
  function Fuel(c: Config, s: State, t: Token): int {
    var left := 5 * (|s.tab| - s.idx);
    var alg := if t.Queued? && t.msg.AuthReq? then t.msg.alg else s.alg;
    match s.cntl
    case WaitJoin => left
    case WaitAuth => left - 1
    case WaitAuth2 => if c.mode == AutoSwitch && alg == Shared then left - 2 else left - 3
    case WaitAssoc => left - 4
    case _ => 0
  }

  /** Five confirmations for each network in the table; in automatic mode one more for each request refused. */
  function Limit(c: Config, s: State, h: History): nat {
    5 * |s.tab| + if c.mode == AutoSwitch && !c.adhoc then h.refused else 0
  }

  ghost predicate Bounded(c: Config, s: State, h: History, t: Token) {
    && (InAuth(s.cntl) ==> !c.adhoc)
    && h.confs <= Limit(c, s, h)
    && (Connecting(s.cntl) ==> h.confs + Fuel(c, s, t) <= Limit(c, s, h))
  }

  ghost predicate CleanAt(c: Config, s: State, h: History, t: Token) {
    Placed(s, t) && Facts(s, t) && Bounded(c, s, h, t)
  }

  ghost predicate Clean(c: Config, s: State, h: History) {
    CleanAt(c, s, h, TokenOf(s))
  }

  /** The counts go on with a message that is no confirmation. */
  predicate Onward(h: History, h': History, s: State) {
    if Connecting(s.cntl) then h'.confs == h.confs && h'.refused == h.refused else h'.confs == h'.refused == 0
  }

  lemma Found(c: Config, s: State, h: History, t: Token)
    requires CleanAt(c, s, h, t)
    ensures Clean(c, s, h)
  {
    PlacedIsToken(s, t);
  }

  /** Taking a request or confirmation from the queue leaves nothing under way. */
  lemma TakeAct(s: State, t: Token)
    requires Placed(s, t) && s.queue != [] && ActivityOf(s.queue[0]) != None
    ensures t == Queued(s.queue[0]) && Free(s.(queue := s.queue[1..])) && Awaits(s.cntl) == ActivityOf(s.queue[0])
  {
    var acts := Acts(s.queue);
    assert acts[0] == s.queue[0] && acts[1..] == Acts(s.queue[1..]);
  }

  lemma TakeOther(s: State, t: Token)
    requires Placed(s, t) && s.queue != [] && ActivityOf(s.queue[0]) == None
    ensures Placed(s.(queue := s.queue[1..]), t)
  {
    assert Acts(s.queue) == Acts(s.queue[1..]);
  }

  lemma AskPlaced(s: State, m: Msg, c: Cntl)
    requires Free(s) && Awaits(c) == ActivityOf(m) != None
    ensures Placed(Ask(s, m, c), Queued(m))
  {
    ActsLast(s.queue, m);
  }

  lemma IterateClean(c: Config, s: State, h: History)
    requires Free(s)
    requires h.confs <= Limit(c, s, h) && (s.idx < |s.tab| ==> h.confs + 5 * (|s.tab| - s.idx) <= Limit(c, s, h))
    ensures Clean(c, IterateOnBssTab(c, s), h)
  {
    hide Acts;
    if s.idx < |s.tab| {
      AskPlaced(s, JoinReq(s.idx), WaitJoin);
      Found(c, Ask(s, JoinReq(s.idx), WaitJoin), h, Queued(JoinReq(s.idx)));
    } else if c.adhoc {
      AskPlaced(s, StartReq, WaitStart);
      RestClean(c, Ask(s, StartReq, WaitStart), h, Queued(StartReq));
    } else {
      RestClean(c, s.(cntl := Idle), h, Nowhere);
    }
  }

  /** A state in which CNTL waits for nothing that concerns a network, or for nothing at all. */
  lemma RestClean(c: Config, s: State, h: History, t: Token)
    requires Placed(s, t) && !Connecting(s.cntl) && h.confs <= Limit(c, s, h)
    ensures Clean(c, s, h)
  {
    Found(c, s, h, t);
  }

  /** JOIN answers. */
  lemma JoinConfClean(c: Config, s: State, h: History, h': History, m: Msg)
    requires Free(s) && s.cntl == WaitJoin && m.JoinConf? && Facts(s, Queued(m)) && Bounded(c, s, h, Queued(m))
    requires h'.confs == h.confs + 1 && h'.refused == h.refused
    ensures Clean(c, CntlWaitJoinProc(c, s, m), h')
  {
    hide Acts, TokenOf;
    if !m.ok {
      var next := s.(idx := s.idx + 1);
      assert Free(next);
      IterateClean(c, next, h');
    } else if c.adhoc {
      RestClean(c, CntlWaitJoinProc(c, s, m), h', Nowhere);
    } else {
      var req := AuthReq(s.bssid, FirstAlg(c.mode));
      AskPlaced(s, req, WaitAuth);
      Found(c, Ask(s, req, WaitAuth), h', Queued(req));
    }
  }

  /** AUTH answers. */
  lemma AuthConfClean(c: Config, s: State, h: History, h': History, m: Msg)
    requires Free(s) && InAuth(s.cntl) && m.AuthConf? && Facts(s, Queued(m)) && Bounded(c, s, h, Queued(m))
    requires h'.confs == h.confs + 1 && h'.refused == h.refused
    ensures Clean(c, if s.cntl == WaitAuth then CntlWaitAuthProc(c, s, m) else CntlWaitAuthProc2(c, s, m), h')
  {
    hide Acts, TokenOf;
    if m.ok {
      AskPlaced(s, AssocReq, WaitAssoc);
      Found(c, Ask(s, AssocReq, WaitAssoc), h', Queued(AssocReq));
    } else if s.cntl == WaitAuth {
      var req := AuthReq(s.bssid, FirstAlg(c.mode));
      AskPlaced(s, req, WaitAuth2);
      Found(c, Ask(s, req, WaitAuth2), h', Queued(req));
    } else if c.mode == AutoSwitch && s.alg == Shared {
      var req := AuthReq(s.bssid, Open);
      AskPlaced(s, req, WaitAuth2);
      Found(c, Ask(s, req, WaitAuth2), h', Queued(req));
    } else {
      var next := s.(idx := s.idx + 1);
      assert Free(next);
      IterateClean(c, next, h');
    }
  }

  /** ASSOC answers. */
  lemma AssocConfClean(c: Config, s: State, h: History, h': History, m: Msg)
    requires Free(s) && s.cntl == WaitAssoc && m.AssocConf? && Facts(s, Queued(m)) && Bounded(c, s, h, Queued(m))
    requires h'.confs == h.confs + 1 && h'.refused == h.refused
    ensures Clean(c, CntlWaitAssocProc(c, s, m), h')
  {
    hide Acts, TokenOf;
    if m.ok {
      RestClean(c, CntlWaitAssocProc(c, s, m), h', Nowhere);
    } else {
      var next := s.(idx := s.idx + 1);
      assert Free(next);
      IterateClean(c, next, h');
    }
  }

  /** The other confirmations. */
  lemma OtherConfClean(c: Config, s: State, h': History, m: Msg, env: Env)
    requires Free(s) && Awaits(s.cntl) == ActivityOf(m) != None && !Connecting(s.cntl) && !ForSyncOrAssoc(m)
    requires h'.confs == h'.refused == 0
    ensures Clean(c, MlmeCntlMachinePerformAction(c, s, m, env).s, h')
  {
    hide Acts, TokenOf;
    if s.cntl == WaitDisassoc {
      if s.tab == [] && c.adhoc {
        var next := s.(linked := false);
        AskPlaced(next, StartReq, WaitStart);
        RestClean(c, Ask(next, StartReq, WaitStart), h', Queued(StartReq));
      } else {
        var next := s.(idx := 0, linked := false);
        assert Free(next);
        IterateClean(c, next, h');
      }
    } else {
      RestClean(c, MlmeCntlMachinePerformAction(c, s, m, env).s, h', Nowhere);
    }
  }

  /** The user names a network. */
  lemma SsidClean(c: Config, s: State, h': History, env: Env)
    requires Free(s) && s.cntl == Idle && h'.confs == h'.refused == 0
    ensures Clean(c, CntlOidSsidProc(c, s, env), h')
  {
    hide Acts, TokenOf, Clean, IterateOnBssTab, KeepsOthers;
    var now := s.(bssid := 0, tab := env.found);
    assert Free(now) && Free(now.(idx := 0));
    if env.sameAp && !env.redo {
      RestClean(c, now, h', Nowhere);
    } else if env.sameAp || s.linked {
      AskPlaced(now, DisassocReq, WaitDisassoc);
      RestClean(c, Ask(now, DisassocReq, WaitDisassoc), h', Queued(DisassocReq));
    } else if now.tab == [] && env.rescan {
      AskPlaced(now, ScanReq, WaitListScan);
      RestClean(c, Ask(now, ScanReq, WaitListScan), h', Queued(ScanReq));
    } else {
      IterateClean(c, now.(idx := 0), h');
    }
  }

  /** The user names an access point. */
  lemma BssidClean(c: Config, s: State, h': History, a: Addr, env: Env)
    requires Free(s) && s.cntl == Idle && h'.confs == h'.refused == 0
    ensures Clean(c, CntlOidRTBssidProc(s, a, env), h')
  {
    hide Acts, TokenOf, Clean, KeepsOthers;
    var now := s.(bssid := a, idx := 0, tab := [a]);
    assert Free(now) && Free(s.(bssid := a));
    if !env.known {
      RestClean(c, s.(bssid := a), h', Nowhere);
    } else if env.sameAp {
      RestClean(c, now, h', Nowhere);
    } else if s.linked {
      AskPlaced(now, DisassocReq, WaitDisassoc);
      RestClean(c, Ask(now, DisassocReq, WaitDisassoc), h', Queued(DisassocReq));
    } else {
      IterateClean(c, now, h');
    }
  }

  /** A new request from outside. */
  lemma IdleClean(c: Config, s: State, h': History, m: Msg, env: Env)
    requires Free(s) && s.cntl == Idle && h'.confs == h'.refused == 0
    ensures Clean(c, CntlIdleProc(c, s, m, env), h')
  {
    hide Acts, TokenOf, Clean, IterateOnBssTab, CntlOidSsidProc, CntlOidRTBssidProc, KeepsOthers;
    if env.radioOff {
      RestClean(c, s, h', Nowhere);
    } else {
      match m
      case OidSsid => SsidClean(c, s, h', env);
      case OidBssid(a) => BssidClean(c, s, h', a, env);
      case OidScan =>
        AskPlaced(s, ScanReq, WaitListScan);
        RestClean(c, Ask(s, ScanReq, WaitListScan), h', Queued(ScanReq));
      case OidDisassoc =>
        AskPlaced(s, DisassocReq, WaitOidDisassoc);
        RestClean(c, Ask(s, DisassocReq, WaitOidDisassoc), h', Queued(DisassocReq));
      case Roaming =>
        var now := s.(tab := env.found, idx := 0);
        assert Free(now);
        IterateClean(c, now, h');
      case _ => RestClean(c, s, h', Nowhere);
    }
  }

  /** SYNC or ASSOC starts on its request. */
  lemma BeginClean(c: Config, s: State, h: History, h': History, m: Msg)
    requires Free(s) && ForSyncOrAssoc(m) && Awaits(s.cntl) == ActivityOf(m)
    requires Facts(s, Queued(m)) && Bounded(c, s, h, Queued(m))
    requires Onward(h, h', s)
    ensures Clean(c, Begin(s, m), h')
  {
    hide Acts, TokenOf;
    var t := Begin(s, m);
    if m == AssocReq && s.blocked {
      RefusalPlaced(s);
      Found(c, t, h', Queued(AssocConf(false)));
    } else {
      assert t.busy == multiset{ActivityOf(m).kind};
      Found(c, t, h', At(ActivityOf(m).kind));
    }
  }

  /** ASSOC refuses: on to the queue with the confirmation. */
  lemma RefusalPlaced(s: State)
    requires Free(s) && s.cntl == WaitAssoc
    ensures Placed(s.(queue := s.queue + [AssocConf(false)]), Queued(AssocConf(false)))
  {
    ActsLast(s.queue, AssocConf(false));
  }

  /** AUTH reports: on to the queue with the confirmation. */
  lemma ReportPlaced(s: State, ok: bool)
    requires Acts(s.queue) == [] && s.busy == multiset{} && InAuth(s.cntl)
    ensures Placed(Report(s, ok).s, Queued(AuthConf(ok)))
  {
    ActsLast(s.queue, AuthConf(ok));
  }

  /** AUTH gets its request. */
  lemma AuthReqClean(c: Config, s: State, h: History, h': History, m: Msg, env: Env)
    requires Free(s) && m.AuthReq? && InAuth(s.cntl)
    requires Facts(s, Queued(m)) && Bounded(c, s, h, Queued(m))
    requires h'.confs == h.confs && h'.refused == if RefusesOpen(s, m) then h.refused + 1 else h.refused
    ensures Clean(c, AuthPerformAction(s, m, env).s, h')
  {
    hide Acts, TokenOf;
    var t := AuthPerformAction(s, m, env).s;
    if t.auth == ReqIdle {
      if s.blocked {
        ReportPlaced(s, false);
      } else {
        ReportPlaced(s.(timer := false, bssid := m.addr, alg := m.alg), false);
      }
      Found(c, t, h', Queued(AuthConf(false)));
    } else {
      Found(c, t, h', At(Authenticate));
    }
  }

  lemma AuthStepShape(s: State, m: Msg, env: Env)
    requires s.auth != ReqIdle && (m.PeerAuth? || m == AuthTimeout)
    ensures var o := AuthPerformAction(s, m, env);
            && !o.up
            && if o.s.auth == ReqIdle then o == Report(s.(timer := o.s.timer), o.confirmed)
               else o.s == s.(auth := o.s.auth, timer := o.s.timer) && !o.confirmed
  {
  }

  /** AUTH is at it, and something comes in from outside. */
  lemma AuthStepClean(c: Config, s: State, h: History, h': History, m: Msg, env: Env)
    requires Placed(s, At(Authenticate)) && InAuth(s.cntl) && (m.PeerAuth? || m == AuthTimeout)
    requires Facts(s, At(Authenticate)) && Bounded(c, s, h, At(Authenticate))
    requires Onward(h, h', s)
    ensures Clean(c, AuthPerformAction(s, m, env).s, h')
  {
    hide Acts, TokenOf, AuthPerformAction;
    AuthStepShape(s, m, env);
    var o := AuthPerformAction(s, m, env);
    if o.s.auth == ReqIdle {
      ReportPlaced(s.(timer := o.s.timer), o.confirmed);
      Found(c, o.s, h', Queued(AuthConf(o.confirmed)));
    } else {
      Found(c, o.s, h', At(Authenticate));
    }
  }

  /** A message is handled that changes nothing. */
  lemma NothingClean(c: Config, s: State, h: History, h': History, t: Token)
    requires CleanAt(c, s, h, t) && Onward(h, h', s)
    ensures Clean(c, s, h')
  {
    hide Placed, Facts, TokenOf;
    Found(c, s, h', t);
  }

  /** One message handled, with nothing else going on. */
  lemma ServeClean(c: Config, s: State, h: History, env: Env)
    requires s.queue != [] && Clean(c, s, h)
    ensures var o := Next(c, s, Serve(env)); Clean(c, o.s, Recorded(h, s, Serve(env), o))
  {
    var m, rest := s.queue[0], s.(queue := s.queue[1..]);
    var o := Next(c, s, Serve(env));
    var h' := Recorded(h, s, Serve(env), o);
    hide Placed, Bounded, Acts;
    hide AuthPerformAction, CntlIdleProc, Begin, CntlWaitJoinProc, CntlWaitAuthProc, CntlWaitAuthProc2;
    hide CntlWaitAssocProc;
    var t := TokenOf(s);
    hide TokenOf;
    if ActivityOf(m) != None {
      TakeAct(s, t);
      RestSame(c, s, h, t);
      ServeActClean(c, rest, h, h', m, env);
    } else {
      TakeOther(s, t);
      RestSame(c, s, h, t);
      ServeOtherClean(c, rest, h, h', t, m, env);
    }
  }

  lemma RestSame(c: Config, s: State, h: History, t: Token)
    requires s.queue != [] && Facts(s, t) && Bounded(c, s, h, t)
    ensures var rest := s.(queue := s.queue[1..]); Facts(rest, t) && Bounded(c, rest, h, t)
  {
  }

  /** How the counts go on when m is handled in state s. */
  predicate GoesOn(h: History, h': History, s: State, m: Msg) {
    && h'.confs == (if !Connecting(s.cntl) then 0
                    else if || m == Confirmation(Awaits(s.cntl).kind, true)
                            || m == Confirmation(Awaits(s.cntl).kind, false)
                    then h.confs + 1 else h.confs)
    && h'.refused == (if !Connecting(s.cntl) then 0 else if RefusesOpen(s, m) then h.refused + 1 else h.refused)
  }

  lemma ServeActClean(c: Config, s: State, h: History, h': History, m: Msg, env: Env)
    requires Free(s) && Awaits(s.cntl) == ActivityOf(m) != None
    requires Facts(s, Queued(m)) && Bounded(c, s, h, Queued(m))
    requires GoesOn(h, h', s, m)
    ensures Clean(c, Dispatch(c, s, m, env).s, h')
  {
    hide Free, Bounded, Clean;
    if ForSyncOrAssoc(m) {
      BeginClean(c, s, h, h', m);
    } else if m.AuthReq? {
      AuthReqClean(c, s, h, h', m, env);
    } else if s.cntl == WaitJoin {
      JoinConfClean(c, s, h, h', m);
    } else if InAuth(s.cntl) {
      AuthConfClean(c, s, h, h', m);
    } else if s.cntl == WaitAssoc {
      AssocConfClean(c, s, h, h', m);
    } else {
      OtherConfClean(c, s, h', m, env);
    }
  }

  /** While CNTL waits, it ignores what belongs to no activity. */
  lemma CntlIgnores(c: Config, s: State, m: Msg, env: Env)
    requires s.cntl != Idle && ActivityOf(m) == None
    ensures MlmeCntlMachinePerformAction(c, s, m, env).s == s
  {
    hide CntlIdleProc, IterateOnBssTab, KeepsOthers;
  }

  lemma ServeOtherClean(c: Config, s: State, h: History, h': History, t: Token, m: Msg, env: Env)
    requires Placed(s, t) && ActivityOf(m) == None
    requires Facts(s, t) && Bounded(c, s, h, t)
    requires GoesOn(h, h', s, m)
    ensures Clean(c, Dispatch(c, s, m, env).s, h')
  {
    hide Bounded, Clean, Facts, CntlIdleProc, Acts, MlmeAuthReqAction, GoesOn;
    hide PeerAuthRspAtSeq2Action, PeerAuthRspAtSeq4Action;
    GoesOnward(h, h', s, m);
    if ForAuth(m) {
      hide MlmeCntlMachinePerformAction;
      if t == At(Authenticate) {
        AuthStepClean(c, s, h, h', m, env);
      } else {
        assert s.auth == ReqIdle;
        NothingClean(c, s, h, h', t);
      }
    } else if s.cntl == Idle {
      IdleClean(c, s, h', m, env);
    } else {
      hide MlmeCntlMachinePerformAction;
      CntlIgnores(c, s, m, env);
      NothingClean(c, s, h, h', t);
    }
  }

  lemma GoesOnward(h: History, h': History, s: State, m: Msg)
    requires ActivityOf(m) == None && GoesOn(h, h', s, m)
    ensures Onward(h, h', s)
  {
  }

  lemma AnswerPlaced(s: State, k: Kind, ok: bool)
    requires k in s.busy && k != Authenticate && Placed(s, TokenOf(s))
    ensures TokenOf(s) == At(k)
    ensures Placed(s.(busy := s.busy - multiset{k}, queue := s.queue + [Confirmation(k, ok)]),
            Queued(Confirmation(k, ok)))
  {
    ActsLast(s.queue, Confirmation(k, ok));
    hide Acts;
    assert TokenOf(s) == At(k) && s.busy == multiset{k};
    assert s.busy - multiset{k} == multiset{};
  }

  /** A machine answers. */
  lemma AnswerClean(c: Config, s: State, h: History, k: Kind, ok: bool)
    requires k in s.busy && k != Authenticate && Clean(c, s, h)
    ensures Clean(c, Next(c, s, Answer(k, ok)).s, h)
  {
    var m := Confirmation(k, ok);
    AnswerPlaced(s, k, ok);
    hide Acts, TokenOf, Placed;
    Found(c, Next(c, s, Answer(k, ok)).s, h, Queued(m));
  }

  /** An intervention that finds CNTL idle. */
  lemma OverwriteClean(c: Config, s: State, h: History, c': Cntl)
    requires Enabled(s, Overwrite(c')) && s.cntl == Idle && Clean(c, s, h)
    ensures var o := Next(c, s, Overwrite(c')); Clean(c, o.s, Recorded(h, s, Overwrite(c'), o))
  {
    hide Acts;
    assert TokenOf(s) == Nowhere;
    hide TokenOf;
    var o, m := Next(c, s, Overwrite(c')), if c' == WaitListScan then ScanReq else DisassocReq;
    var h' := Recorded(h, s, Overwrite(c'), o);
    var now := s.(blocked := o.s.blocked);
    assert Free(now);
    AskPlaced(now, m, c');
    assert o.s == Ask(now, m, c');
    RestClean(c, o.s, h', Queued(m));
  }

  /** The blocking of associations and the link are nothing to what is under way. */
  lemma FlagsClean(c: Config, s: State, h: History, blocked: bool, linked: bool)
    requires Clean(c, s, h)
    ensures Clean(c, s.(blocked := blocked, linked := linked), h)
  {
    hide Acts;
    Found(c, s.(blocked := blocked, linked := linked), h, TokenOf(s));
  }

  /** After a restart nothing is under way. */
  lemma RestartClean(c: Config, s: State, h: History)
    requires Clean(c, s, h)
    ensures Clean(c, Restarted(s), Recorded(h, s, Restart, Next(c, s, Restart)))
  {
    RestClean(c, Restarted(s), Recorded(h, s, Restart, Next(c, s, Restart)), Nowhere);
  }

  /** Something comes in that CNTL did not ask for. */
  lemma ArriveClean(c: Config, s: State, h: History, m: Msg, timer: bool)
    requires ActivityOf(m) == None && Clean(c, s, h)
    ensures Clean(c, s.(queue := s.queue + [m], timer := timer), h)
  {
    ActsLast(s.queue, m);
    Found(c, s.(queue := s.queue + [m], timer := timer), h, TokenOf(s));
  }

  lemma NextClean(c: Config, s: State, h: History, e: Event)
    requires Enabled(s, e) && (e.Overwrite? ==> s.cntl == Idle) && Clean(c, s, h)
    ensures Clean(c, Next(c, s, e).s, Recorded(h, s, e, Next(c, s, e)))
  {
    hide Clean, Dispatch;
    match e
    case Serve(env) => ServeClean(c, s, h, env);
    case Answer(k, ok) => AnswerClean(c, s, h, k, ok);
    case Arrive(m) => ArriveClean(c, s, h, m, s.timer);
    case Fire => ArriveClean(c, s, h, AuthTimeout, false);
    case Overwrite(c') => OverwriteClean(c, s, h, c');
    case SetBlock(b) => FlagsClean(c, s, h, b, s.linked);
    case LoseLink => FlagsClean(c, s, h, s.blocked, false);
    case Restart => RestartClean(c, s, h);
  }

  // ---- all runs ----

  datatype Where = Where(s: State, h: History)

  function Boot(alg: Alg): Where {
    Where(State(Idle, ReqIdle, false, alg, 0, 0, [], [], multiset{}, false, false), History([], 0, 0, 0, 0, 0))
  }

  /** An event that cannot happen is skipped. */
  function Step(c: Config, w: Where, e: Event): Where {
    if Enabled(w.s, e) then var o := Next(c, w.s, e); Where(o.s, Recorded(w.h, w.s, e, o)) else w
  }

  function After(c: Config, w: Where, events: seq<Event>): Where {
    if events == [] then w else Step(c, After(c, w, events[..|events| - 1]), events[|events| - 1])
  }

  lemma AfterNext(c: Config, w: Where, events: seq<Event>, e: Event)
    ensures After(c, w, events + [e]) == Step(c, After(c, w, events), e)
  {
    assert (events + [e])[..|events|] == events;
  }

  /** Every intervention finds CNTL idle, as the guard at most of the places that intervene has it. */
  predicate IdleOnly(c: Config, w: Where, events: seq<Event>) {
    forall i :: 0 <= i < |events| && events[i].Overwrite? ==> After(c, w, events[..i]).s.cntl == Idle
  }

  lemma IdlePrefix(c: Config, w: Where, events: seq<Event>, n: nat)
    requires n <= |events| && IdleOnly(c, w, events)
    ensures IdleOnly(c, w, events[..n])
  {
    hide After;
    forall i | 0 <= i < n
      ensures events[..n][i] == events[i] && events[..n][..i] == events[..i]
    {
    }
  }

  /**
   In every run, whatever comes in, whenever someone intervenes and whether or not associations are blocked, the
   link goes up only on an association that follows an authentication that follows a join, all of the same network
   with no other step of CNTL between; and an AUTH machine that waits will be woken.
   */
  lemma {:induction false} LinkUpSafety(c: Config, alg: Alg, events: seq<Event>)
    ensures var w := After(c, Boot(alg), events); UpsOk(w.h.log) && Traced(w.s, w.h) && TimerOk(w.s)
    decreases |events|
  {
    hide Next, Recorded;
    if events == [] {
    } else {
      var n := |events| - 1;
      LinkUpSafety(c, alg, events[..n]);
      var w := After(c, Boot(alg), events[..n]);
      if Enabled(w.s, events[n]) {
        hide TraceOk, TimerOk;
        NextTraced(c, w.s, w.h, events[n]);
        NextTimer(c, w.s, events[n]);
        TracedUps(Next(c, w.s, events[n]).s, Recorded(w.h, w.s, events[n], Next(c, w.s, events[n])));
      }
    }
  }

  lemma TracedUps(s: State, h: History)
    requires Traced(s, h)
    ensures UpsOk(h.log)
  {
  }

  /** With interventions at rest only, what CNTL waits for is always under way in exactly one place. */
  lemma {:induction false} CleanRuns(c: Config, alg: Alg, events: seq<Event>)
    requires IdleOnly(c, Boot(alg), events)
    ensures var w := After(c, Boot(alg), events); Clean(c, w.s, w.h)
    decreases |events|
  {
    hide Next, Recorded;
    if events == [] {
      Found(c, Boot(alg).s, Boot(alg).h, Nowhere);
    } else {
      var n := |events| - 1;
      IdlePrefix(c, Boot(alg), events, n);
      CleanRuns(c, alg, events[..n]);
      var w := After(c, Boot(alg), events[..n]);
      if Enabled(w.s, events[n]) {
        hide Clean;
        NextClean(c, w.s, w.h, events[n]);
      }
    }
  }
}
