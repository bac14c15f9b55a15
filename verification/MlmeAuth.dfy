/**
 What AUTH confirms, and when a station that has a link asks for another one: laws of the record,
 over all runs, whatever intervenes.
 */
module MlmeAuth {
  import opened Mlme

  // ---- what AUTH confirms ----

  /** Entry r asked for an authentication of that kind, and nothing up to n asked for another. */
  ghost predicate Asked(log: seq<Entry>, r: nat, n: nat, g: Alg) {
    && r < n <= |log| && log[r].msg.AuthReq? && log[r].msg.alg == g
    && forall k :: r < k < n ==> !log[k].msg.AuthReq?
  }

  /** A well-formed frame of the address in hand, with that number, that says yes. */
  predicate Grants(e: Entry, seqNo: nat) {
    e.msg == PeerAuth(true, e.bssid, seqNo, true)
  }

  /** The second frame ends an open authentication; with shared keys it takes the second and then the fourth. */
  ghost predicate Earned(log: seq<Entry>, p: nat)
    requires p < |log|
  {
    || (Grants(log[p], 2) && exists r: nat :: Asked(log, r, p, Open))
    || (Grants(log[p], 4) && exists r: nat, q: nat :: Asked(log, r, p, Shared) && r < q < p && Grants(log[q], 2))
  }

  ghost predicate AllEarned(log: seq<Entry>) {
    forall p: nat :: p < |log| && log[p].confirmed ==> Earned(log, p)
  }

  /** What the record says about where AUTH stands. */
  ghost predicate Trail(log: seq<Entry>, auth: Auth, alg: Alg) {
    && (auth == WaitSeq2 ==> exists r: nat :: Asked(log, r, |log|, alg))
    && (auth == WaitSeq4 ==> alg == Shared && Halfway(log))
  }

  ghost predicate Halfway(log: seq<Entry>) {
    exists r: nat, q: nat :: Asked(log, r, |log|, Shared) && r < q < |log| && Grants(log[q], 2)
  }

  lemma AskedStays(log: seq<Entry>, e: Entry, r: nat, g: Alg)
    requires Asked(log, r, |log|, g) && !e.msg.AuthReq?
    ensures Asked(log + [e], r, |log|, g) && Asked(log + [e], r, |log| + 1, g)
  {
  }

  lemma EarnedStays(log: seq<Entry>, e: Entry)
    requires AllEarned(log) && (e.confirmed ==> Earned(log + [e], |log|))
    ensures AllEarned(log + [e])
  {
    var more := log + [e];
    forall p: nat | p < |more| && more[p].confirmed
      ensures Earned(more, p)
    {
      if p < |log| {
        assert Earned(log, p);
        EarlierStays(log, e, p);
      }
    }
  }

  lemma EarlierStays(log: seq<Entry>, e: Entry, p: nat)
    requires p < |log| && Earned(log, p)
    ensures Earned(log + [e], p)
  {
    var more := log + [e];
    if Grants(log[p], 2) && exists r: nat :: Asked(log, r, p, Open) {
      var r: nat :| Asked(log, r, p, Open);
      assert Asked(more, r, p, Open);
    } else {
      var r: nat, q: nat :| Asked(log, r, p, Shared) && r < q < p && Grants(log[q], 2);
      assert Asked(more, r, p, Shared) && Grants(more[q], 2);
    }
  }

  /** A step that leaves AUTH as it is, or makes it idle, on anything but a request to it. */
  lemma TrailStays(log: seq<Entry>, e: Entry, auth: Auth, alg: Alg, auth': Auth)
    requires Trail(log, auth, alg) && (auth' == auth || auth' == ReqIdle) && !e.msg.AuthReq?
    ensures Trail(log + [e], auth', alg)
  {
    if auth' == WaitSeq2 {
      var r: nat :| Asked(log, r, |log|, alg);
      AskedStays(log, e, r, alg);
    } else if auth' == WaitSeq4 {
      var r: nat, q: nat :| Asked(log, r, |log|, Shared) && r < q < |log| && Grants(log[q], 2);
      AskedStays(log, e, r, Shared);
      assert Grants((log + [e])[q], 2);
    }
  }

  /** AUTH is asked, and begins. */
  lemma TrailBegins(log: seq<Entry>, e: Entry)
    requires e.msg.AuthReq?
    ensures Trail(log + [e], WaitSeq2, e.msg.alg)
  {
    assert Asked(log + [e], |log|, |log| + 1, e.msg.alg);
  }

  /** The second frame: it ends an open authentication, or is half of one with shared keys. */
  lemma SecondFrame(log: seq<Entry>, e: Entry, alg: Alg)
    requires Trail(log, WaitSeq2, alg) && Grants(e, 2)
    ensures if alg == Open then Earned(log + [e], |log|) else Trail(log + [e], WaitSeq4, alg)
  {
    var r: nat :| Asked(log, r, |log|, alg);
    AskedStays(log, e, r, alg);
    assert Grants((log + [e])[|log|], 2);
  }

  lemma FourthFrame(log: seq<Entry>, e: Entry, alg: Alg)
    requires Trail(log, WaitSeq4, alg) && Grants(e, 4)
    ensures Earned(log + [e], |log|)
  {
    var r: nat, q: nat :| Asked(log, r, |log|, Shared) && r < q < |log| && Grants(log[q], 2);
    AskedStays(log, e, r, Shared);
    assert Grants((log + [e])[q], 2);
  }

  lemma ServedAuth(c: Config, s: State, m: Msg, env: Env, log: seq<Entry>)
    requires AllEarned(log) && Trail(log, s.auth, s.alg)
    ensures var o := Dispatch(c, s, m, env);
            var more := log + [Entry(m, s.cntl, s.idx, s.bssid, o.confirmed, o.up)];
            AllEarned(more) && Trail(more, o.s.auth, o.s.alg)
  {
    hide AllEarned, Trail, Earned, CntlIdleProc;
    var o := Dispatch(c, s, m, env);
    var e := Entry(m, s.cntl, s.idx, s.bssid, o.confirmed, o.up);
    if m.AuthReq? {
      if o.s.auth == ReqIdle {
        IdleTrail(log + [e], o.s.alg);
      } else {
        TrailBegins(log, e);
      }
    } else if m.PeerAuth? && (o.confirmed || (o.s.auth != s.auth && o.s.auth != ReqIdle)) {
      if s.auth == WaitSeq2 {
        SecondFrame(log, e, s.alg);
      } else {
        FourthFrame(log, e, s.alg);
      }
      IdleTrail(log + [e], o.s.alg);
    } else {
      TrailStays(log, e, s.auth, s.alg, o.s.auth);
    }
    EarnedStays(log, e);
  }

  lemma IdleTrail(log: seq<Entry>, alg: Alg)
    ensures Trail(log, ReqIdle, alg)
  {
  }

  lemma {:induction false} AuthEarned(c: Config, w: Where, events: seq<Event>)
    requires AllEarned(w.h.log) && Trail(w.h.log, w.s.auth, w.s.alg)
    ensures var v := After(c, w, events); AllEarned(v.h.log) && Trail(v.h.log, v.s.auth, v.s.alg)
    decreases |events|
  {
    hide AllEarned, Trail, Dispatch;
    if events != [] {
      var n := |events| - 1;
      AuthEarned(c, w, events[..n]);
      var v, e := After(c, w, events[..n]), events[n];
      if Enabled(v.s, e) {
        if e.Serve? {
          ServedAuth(c, v.s.(queue := v.s.queue[1..]), v.s.queue[0], e.env, v.h.log);
        } else if e.Overwrite? || e.Restart? {
          var entry := Entry(Other, v.s.cntl, v.s.idx, v.s.bssid, false, false);
          TrailStays(v.h.log, entry, v.s.auth, v.s.alg, if e.Restart? then ReqIdle else v.s.auth);
          EarnedStays(v.h.log, entry);
        }
      }
    }
  }

  /** In every run, whatever intervenes: AUTH confirms only what the peer's frames, in their order, have earned. */
  lemma ConfirmedIsEarned(c: Config, alg: Alg, events: seq<Event>)
    ensures AllEarned(After(c, Boot(alg), events).h.log)
  {
    hide After, Trail;
    IdleTrail([], alg);
    AuthEarned(c, Boot(alg), events);
  }

  // ---- a second link ----

  /** CNTL was told to roam, and no link has come up since. */
  ghost predicate Roamed(log: seq<Entry>) {
    exists r: nat :: r < |log| && log[r].msg == Roaming && log[r].cntl == Idle && NoUpFrom(log, r)
  }

  predicate NoUpFrom(log: seq<Entry>, r: nat) {
    forall t :: r <= t < |log| ==> !log[t].up
  }

  ghost predicate OneLink(s: State, log: seq<Entry>) {
    s.linked && Connecting(s.cntl) ==> Roamed(log)
  }

  lemma RoamedStays(log: seq<Entry>, e: Entry)
    requires Roamed(log) && !e.up
    ensures Roamed(log + [e])
  {
    var r: nat :| r < |log| && log[r].msg == Roaming && log[r].cntl == Idle && NoUpFrom(log, r);
    assert (log + [e])[r] == log[r] && NoUpFrom(log + [e], r);
  }

  lemma RoamsNow(log: seq<Entry>, e: Entry)
    requires e.msg == Roaming && e.cntl == Idle && !e.up
    ensures Roamed(log + [e])
  {
    assert (log + [e])[|log|] == e && NoUpFrom(log + [e], |log|);
  }

  /** Where a step of CNTL leads while there is a link: to another network only from there, or on roaming. */
  predicate LinkStep(s: State, m: Msg, o: Out) {
    && (o.up ==> !Connecting(o.s.cntl))
    && (o.s.linked && Connecting(o.s.cntl) ==>
          (s.linked && Connecting(s.cntl)) || (m == Roaming && s.cntl == Idle && !o.up))
  }

  lemma IdleLink(c: Config, s: State, m: Msg, env: Env)
    requires s.cntl == Idle
    ensures LinkStep(s, m, MlmeCntlMachinePerformAction(c, s, m, env))
  {
  }

  lemma WaitingLink(c: Config, s: State, m: Msg, env: Env)
    requires s.cntl != Idle
    ensures LinkStep(s, m, MlmeCntlMachinePerformAction(c, s, m, env))
  {
    hide CntlIdleProc;
  }

  lemma AuthLink(s: State, m: Msg, env: Env)
    ensures var o := AuthPerformAction(s, m, env); o.s.linked == s.linked && o.s.cntl == s.cntl && !o.up
  {
  }

  lemma DispatchLink(c: Config, s: State, m: Msg, env: Env)
    ensures LinkStep(s, m, Dispatch(c, s, m, env))
  {
    hide AuthPerformAction, MlmeCntlMachinePerformAction, LinkStep;
    if ForSyncOrAssoc(m) {
      SameLink(s, m, Dispatch(c, s, m, env));
    } else if ForAuth(m) {
      AuthLink(s, m, env);
      SameLink(s, m, Dispatch(c, s, m, env));
    } else if s.cntl == Idle {
      IdleLink(c, s, m, env);
    } else {
      WaitingLink(c, s, m, env);
    }
  }

  lemma SameLink(s: State, m: Msg, o: Out)
    requires o.s.linked == s.linked && o.s.cntl == s.cntl && !o.up
    ensures LinkStep(s, m, o)
  {
  }

  lemma ServedLink(c: Config, s: State, m: Msg, env: Env, log: seq<Entry>)
    requires OneLink(s, log)
    ensures var o := Dispatch(c, s, m, env);
            OneLink(o.s, log + [Entry(m, s.cntl, s.idx, s.bssid, o.confirmed, o.up)])
  {
    hide Roamed, Dispatch;
    DispatchLink(c, s, m, env);
    var o := Dispatch(c, s, m, env);
    var e := Entry(m, s.cntl, s.idx, s.bssid, o.confirmed, o.up);
    if o.s.linked && Connecting(o.s.cntl) {
      if Connecting(s.cntl) && s.linked {
        RoamedStays(log, e);
      } else {
        RoamsNow(log, e);
      }
    }
  }

  lemma OtherLink(c: Config, s: State, e: Event)
    requires Enabled(s, e) && !e.Serve?
    ensures var o := Next(c, s, e);
            o.s.linked && Connecting(o.s.cntl) ==> s.linked && o.s.cntl == s.cntl && !e.Overwrite?
    ensures e.Restart? ==> !Connecting(Next(c, s, e).s.cntl)
  {
  }

  lemma {:induction false} LinkKept(c: Config, w: Where, events: seq<Event>)
    requires OneLink(w.s, w.h.log)
    ensures var v := After(c, w, events); OneLink(v.s, v.h.log)
    decreases |events|
  {
    hide Roamed, Dispatch, Enabled, Connecting;
    if events != [] {
      var n := |events| - 1;
      LinkKept(c, w, events[..n]);
      var v, e := After(c, w, events[..n]), events[n];
      if Enabled(v.s, e) {
        if e.Serve? {
          CanServe(v.s, e);
          ServedLink(c, v.s.(queue := v.s.queue[1..]), v.s.queue[0], e.env, v.h.log);
        } else {
          OtherLink(c, v.s, e);
        }
      }
    }
  }

  lemma CanServe(s: State, e: Event)
    requires Enabled(s, e) && e.Serve?
    ensures s.queue != []
  {
  }

  /** In every run: a station that has a link goes after another one only on a request to roam. */
  lemma SecondLinkOnlyRoaming(c: Config, alg: Alg, events: seq<Event>)
    ensures var v := After(c, Boot(alg), events); v.s.linked && Connecting(v.s.cntl) ==> Roamed(v.h.log)
  {
    hide After, Roamed;
    LinkKept(c, Boot(alg), events);
  }
}
