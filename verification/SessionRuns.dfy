/** What holds of every run of sign-ins and sessions. */
module SessionRuns {
  import opened Wrappers
  import opened SessionModel

  // The latest time a session was opened or resolved.
  function LastUse(log: seq<Entry>, sid: string): Option<nat> {
    if log == [] then None
    else
      var e := log[|log| - 1];
      if (e.Opened? || e.Resolved?) && e.sid == sid then Some(e.at) else LastUse(log[..|log| - 1], sid)
  }

  predicate OpenedAs(log: seq<Entry>, sid: string, terminal: string, at: nat) {
    exists i | 0 <= i < |log| :: log[i].Opened? && log[i].sid == sid && log[i].terminal == terminal && log[i].at == at
  }

  predicate Dead(log: seq<Entry>, sid: string) {
    exists i | 0 <= i < |log| :: (log[i].Refused? || log[i].Closed?) && log[i].sid == sid
  }

  /** What entitles a session to be accepted at a time from a terminal. */
  ghost predicate Entitled(p: Policy, log: seq<Entry>, sid: string, terminal: string, at: nat) {
    && (exists since: nat :: OpenedAs(log, sid, terminal, since) && at < since + p.absolute)
    && LastUse(log, sid).Some? && at <= LastUse(log, sid).value + p.idle
    && !Dead(log, sid)
  }

  ghost predicate AllEntitled(p: Policy, log: seq<Entry>) {
    forall i | 0 <= i < |log| && log[i].Resolved? :: Entitled(p, log[..i], log[i].sid, log[i].terminal, log[i].at)
  }

  /** Every sign-in opens at most one session, and every session comes from one sign-in. */
  predicate OneEach(log: seq<Entry>) {
    forall i, j | 0 <= i < j < |log| && log[i].Opened? && log[j].Opened? ::
      log[i].login != log[j].login && log[i].sid != log[j].sid
  }

  // ---- The invariant ------------------------------------------------------------------------------

  predicate SessionOk(s: State, sid: string)
    requires sid in s.sessions
  {
    var x := s.sessions[sid];
    && x.expiresAt >= s.policy.absolute && OpenedAs(s.log, sid, x.terminal, x.expiresAt - s.policy.absolute)
    && LastUse(s.log, sid) == Some(x.lastSeen)
    && (Dead(s.log, sid) ==> x.ended.Some?)
  }

  // A login state is in one place: waiting, in a callback, or behind a session.
  predicate LoginsOk(s: State) {
    && (forall l | l in s.logins :: l in s.used)
    && (forall p | p in s.callbacks :: s.callbacks[p] in s.used && s.callbacks[p] !in s.logins)
    && (forall p, q | p in s.callbacks && q in s.callbacks && p != q :: s.callbacks[p] != s.callbacks[q])
  }

  predicate OpenedOk(s: State) {
    forall i | 0 <= i < |s.log| && s.log[i].Opened? ::
      && s.log[i].sid in s.sessions && s.log[i].login in s.used && s.log[i].login !in s.logins
      && forall p | p in s.callbacks :: s.callbacks[p] != s.log[i].login
  }

  predicate SessionsOk(s: State) { forall sid | sid in s.sessions :: SessionOk(s, sid) }

  // No entry speaks of a session that was never opened.
  predicate EntriesOk(s: State) { forall i | 0 <= i < |s.log| :: s.log[i].sid in s.sessions }

  // The two halves: who may still open a session, and what is known of the opened ones.
  predicate SignInOk(s: State) { LoginsOk(s) && OpenedOk(s) && OneEach(s.log) }

  ghost predicate RecordsOk(s: State) { SessionsOk(s) && EntriesOk(s) && AllEntitled(s.policy, s.log) }

  ghost predicate Inv(s: State) { SignInOk(s) && RecordsOk(s) }

  // ---- Appending to the log -----------------------------------------------------------------------

  lemma AppendUse(log: seq<Entry>, e: Entry, sid: string)
    ensures LastUse(log + [e], sid)
            == if (e.Opened? || e.Resolved?) && e.sid == sid then Some(e.at) else LastUse(log, sid)
    ensures Dead(log + [e], sid) <==> Dead(log, sid) || ((e.Refused? || e.Closed?) && e.sid == sid)
  {
    assert (log + [e])[..|log|] == log;
    assert forall i | 0 <= i < |log| :: (log + [e])[i] == log[i];
    if Dead(log, sid) {
      var i :| 0 <= i < |log| && (log[i].Refused? || log[i].Closed?) && log[i].sid == sid;
      assert (log + [e])[i] == log[i];
    }
    assert (log + [e])[|log|] == e;
  }

  lemma AppendOpened(log: seq<Entry>, e: Entry, sid: string, terminal: string, at: nat)
    ensures OpenedAs(log, sid, terminal, at) ==> OpenedAs(log + [e], sid, terminal, at)
  {
    if OpenedAs(log, sid, terminal, at) {
      var i :| 0 <= i < |log| && log[i].Opened? && log[i].sid == sid && log[i].terminal == terminal && log[i].at == at;
      assert (log + [e])[i] == log[i];
    }
  }

  lemma AppendEntitled(p: Policy, log: seq<Entry>, e: Entry)
    requires AllEntitled(p, log) && (e.Resolved? ==> Entitled(p, log, e.sid, e.terminal, e.at))
    ensures AllEntitled(p, log + [e])
  {
    forall i | 0 <= i < |log + [e]| && (log + [e])[i].Resolved?
      ensures Entitled(p, (log + [e])[..i], (log + [e])[i].sid, (log + [e])[i].terminal, (log + [e])[i].at)
    {
      assert (log + [e])[..i] == log[..i];
      if i == |log| {
        assert log[..i] == log;
      }
    }
  }

  // ---- The steps ----------------------------------------------------------------------------------

  lemma BeginOk(s: State, state: string, binding: string, terminal: string)
    requires Inv(s)
    ensures Inv(BeginStep(s, state, binding, terminal))
  {
    BeginSignIn(s, state, binding, terminal);
  }

  lemma BeginSignIn(s: State, state: string, binding: string, terminal: string)
    requires SignInOk(s)
    ensures SignInOk(BeginStep(s, state, binding, terminal))
  {
  }

  lemma CallbackSignIn(s: State, pid: nat, state: string, binding: string)
    requires SignInOk(s)
    ensures SignInOk(CallbackStep(s, pid, state, binding))
  {
    var t := CallbackStep(s, pid, state, binding);
    assert t.logins.Keys <= s.logins.Keys && t.log == s.log;
    assert LoginsOk(t);
  }

  lemma CallbackOk(s: State, pid: nat, state: string, binding: string)
    requires Inv(s)
    ensures Inv(CallbackStep(s, pid, state, binding))
  {
    CallbackSignIn(s, pid, state, binding);
  }

  lemma OpenSignIn(s: State, pid: nat, sid: string, user: string, terminal: string)
    requires SignInOk(s) && EntriesOk(s) && pid in s.callbacks && sid !in s.sessions
    ensures SignInOk(OpenStep(s, pid, sid, user, terminal))
  {
    var t := OpenStep(s, pid, sid, user, terminal);
    assert t.log[|s.log|] == Opened(sid, s.callbacks[pid], terminal, s.clock);
    assert forall i | 0 <= i < |s.log| :: t.log[i] == s.log[i] && s.log[i].sid in s.sessions;
    assert LoginsOk(t);
    assert OneEach(t.log);
  }

  lemma OpenRecords(s: State, pid: nat, sid: string, user: string, terminal: string)
    requires RecordsOk(s) && pid in s.callbacks && sid !in s.sessions
    ensures RecordsOk(OpenStep(s, pid, sid, user, terminal))
  {
    var t := OpenStep(s, pid, sid, user, terminal);
    var e := Opened(sid, s.callbacks[pid], terminal, s.clock);
    AppendEntitled(s.policy, s.log, e);
    assert t.log[|s.log|] == e;
    forall other | other in t.sessions ensures SessionOk(t, other) {
      AppendUse(s.log, e, other);
      if other == sid {
        assert !Dead(s.log, sid);
      } else {
        assert SessionOk(s, other);
        AppendOpened(s.log, e, other, s.sessions[other].terminal, s.sessions[other].expiresAt - s.policy.absolute);
      }
    }
  }

  lemma OpenOk(s: State, pid: nat, sid: string, user: string, terminal: string)
    requires Inv(s) && pid in s.callbacks && sid !in s.sessions
    ensures Inv(OpenStep(s, pid, sid, user, terminal))
  {
    OpenSignIn(s, pid, sid, user, terminal);
    OpenRecords(s, pid, sid, user, terminal);
  }

  // How an entry about a stored session may change its row: when it was seen, or that it ended.
  ghost predicate Changes(s: State, x: Session, y: Session, e: Entry) {
    && y == x.(lastSeen := y.lastSeen, ended := y.ended)
    && (x.ended.Some? ==> y.ended.Some?)
    && (if e.Resolved? then y.lastSeen == e.at && Entitled(s.policy, s.log, e.sid, e.terminal, e.at)
        else y.lastSeen == x.lastSeen && y.ended.Some?)
  }

  lemma EntrySignIn(s: State, t: State, e: Entry)
    requires SignInOk(s) && t == s.(sessions := t.sessions, log := s.log + [e]) && !e.Opened?
    requires t.sessions.Keys == s.sessions.Keys
    ensures SignInOk(t)
  {
    assert forall i | 0 <= i < |t.log| && t.log[i].Opened? :: i < |s.log| && t.log[i] == s.log[i];
  }

  lemma EntryRecord(s: State, t: State, e: Entry, sid: string)
    requires sid in s.sessions && SessionOk(s, sid) && sid in t.sessions && t.policy == s.policy
    requires t.log == s.log + [e] && !e.Opened?
    requires if sid == e.sid then Changes(s, s.sessions[sid], t.sessions[sid], e) else t.sessions[sid] == s.sessions[sid]
    ensures SessionOk(t, sid)
  {
    AppendUse(s.log, e, sid);
    AppendOpened(s.log, e, sid, s.sessions[sid].terminal, s.sessions[sid].expiresAt - s.policy.absolute);
  }

  lemma EntryOk(s: State, t: State, e: Entry)
    requires Inv(s) && t == s.(sessions := t.sessions, log := s.log + [e]) && !e.Opened?
    requires e.sid in s.sessions && t.sessions.Keys == s.sessions.Keys
    requires forall other | other in s.sessions && other != e.sid :: t.sessions[other] == s.sessions[other]
    requires Changes(s, s.sessions[e.sid], t.sessions[e.sid], e)
    ensures Inv(t)
  {
    EntrySignIn(s, t, e);
    AppendEntitled(s.policy, s.log, e);
    assert EntriesOk(t) by {
      assert forall i | 0 <= i < |s.log| :: t.log[i] == s.log[i];
    }
    forall other | other in t.sessions ensures SessionOk(t, other) {
      EntryRecord(s, t, e, other);
    }
  }

  lemma AcceptOk(s: State, sid: string, terminal: string)
    requires Inv(s) && Judge(s.policy, s.active, s.sessions, s.clock, sid, terminal).Valid?
    ensures Inv(ResolveStep(s, sid, terminal))
  {
    assert SessionOk(s, sid);
    EntryOk(s, ResolveStep(s, sid, terminal), Resolved(sid, terminal, s.clock));
  }

  lemma RefuseOk(s: State, sid: string, terminal: string)
    requires Inv(s) && !Judge(s.policy, s.active, s.sessions, s.clock, sid, terminal).Valid?
    ensures Inv(ResolveStep(s, sid, terminal))
  {
    if Judge(s.policy, s.active, s.sessions, s.clock, sid, terminal).NoSession? {
      assert ResolveStep(s, sid, terminal) == s;
    } else {
      EntryOk(s, ResolveStep(s, sid, terminal), Refused(sid));
    }
  }

  lemma ResolveOk(s: State, sid: string, terminal: string)
    requires Inv(s)
    ensures Inv(ResolveStep(s, sid, terminal))
  {
    if Judge(s.policy, s.active, s.sessions, s.clock, sid, terminal).Valid? {
      AcceptOk(s, sid, terminal);
    } else {
      RefuseOk(s, sid, terminal);
    }
  }

  lemma EndOk(s: State, sid: string, reason: Reason)
    requires Inv(s)
    ensures Inv(EndStep(s, sid, reason))
  {
    if sid in s.sessions {
      EntryOk(s, EndStep(s, sid, reason), Closed(sid));
    }
  }

  lemma StepOk(s: State, e: Event)
    requires Inv(s)
    ensures Inv(Step(s, e)) && Step(s, e).policy == s.policy
  {
    match e
    case BeginLogin(state, binding, terminal) => BeginOk(s, state, binding, terminal);
    case Callback(pid, state, binding) => CallbackOk(s, pid, state, binding);
    case Open(pid, sid, user, terminal) =>
      if pid in s.callbacks && sid !in s.sessions {
        OpenOk(s, pid, sid, user, terminal);
      }
    case Resolve(sid, terminal) => ResolveOk(s, sid, terminal);
    case End(sid, reason) => EndOk(s, sid, reason);
    case MarkDormant(user) => DormantOk(s, user);
    case _ => QuietOk(s, e);
  }

  lemma DormantOk(s: State, user: string)
    requires Inv(s)
    ensures Inv(Step(s, MarkDormant(user)))
  {
  }

  lemma QuietOk(s: State, e: Event)
    requires Inv(s) && (e.GiveUp? || e.SetActive? || e.Tick?)
    ensures Inv(Step(s, e)) && Step(s, e).policy == s.policy
  {
  }

  lemma {:induction false} RunOk(p: Policy, es: seq<Event>)
    ensures Inv(Run(Initial(p), es)) && Run(Initial(p), es).policy == p
  {
    if es != [] {
      RunOk(p, es[..|es| - 1]);
      StepOk(Run(Initial(p), es[..|es| - 1]), es[|es| - 1]);
    }
  }

  // ---- Whole runs ---------------------------------------------------------------------------------

  /**
    In every run: a session is accepted only from the terminal it was opened on, before its absolute expiry, no
    longer than the idle limit after its last use, and never once it has been refused or closed.
   */
  lemma AcceptedIsEntitled(p: Policy, es: seq<Event>, i: nat)
    requires var log := Run(Initial(p), es).log; i < |log| && log[i].Resolved?
    ensures var log := Run(Initial(p), es).log; Entitled(p, log[..i], log[i].sid, log[i].terminal, log[i].at)
  {
    RunOk(p, es);
  }

  /** Every begun sign-in yields at most one session. */
  lemma OneSessionPerLogin(p: Policy, es: seq<Event>)
    ensures OneEach(Run(Initial(p), es).log)
  {
    RunOk(p, es);
  }

  /** The other direction: a presented session is accepted exactly when it is entitled and its user is active and not locked out. */
  lemma ResolveExact(p: Policy, es: seq<Event>, sid: string, terminal: string)
    ensures var s := Run(Initial(p), es);
            Judge(s.policy, s.active, s.sessions, s.clock, sid, terminal).Valid?
            <==> sid in s.sessions && s.sessions[sid].user in s.active && s.active[s.sessions[sid].user]
                 && s.sessions[sid].ended.None? && Entitled(p, s.log, sid, terminal, s.clock)
  {
    RunOk(p, es);
    var s := Run(Initial(p), es);
    if sid in s.sessions && Entitled(p, s.log, sid, terminal, s.clock) {
      EntitledFits(s, sid, terminal);
    }
  }

  // A session is opened once, so its row says what its opening entry says.
  lemma EntitledFits(s: State, sid: string, terminal: string)
    requires Inv(s) && sid in s.sessions && Entitled(s.policy, s.log, sid, terminal, s.clock)
    ensures s.sessions[sid].terminal == terminal && s.clock < s.sessions[sid].expiresAt
    ensures s.clock <= s.sessions[sid].lastSeen + s.policy.idle
  {
    assert SessionOk(s, sid);
    var x := s.sessions[sid];
    var since: nat :| OpenedAs(s.log, sid, terminal, since) && s.clock < since + s.policy.absolute;
    var i :| 0 <= i < |s.log| && s.log[i].Opened? && s.log[i].sid == sid && s.log[i].terminal == terminal && s.log[i].at == since;
    var j :| 0 <= j < |s.log| && s.log[j].Opened? && s.log[j].sid == sid && s.log[j].terminal == x.terminal
             && s.log[j].at == x.expiresAt - s.policy.absolute;
    assert i == j;
  }

  // ---- Ended sessions -----------------------------------------------------------------------------

  predicate IsEnded(s: State, sid: string) { sid in s.sessions && s.sessions[sid].ended.Some? }

  // Nothing accepts the session after this many entries.
  predicate NoneAccepted(log: seq<Entry>, from: nat, sid: string) {
    forall i | from <= i < |log| :: !(log[i].Resolved? && log[i].sid == sid)
  }

  lemma EndedStep(s: State, e: Event, sid: string)
    requires IsEnded(s, sid)
    ensures var t := Step(s, e);
            && IsEnded(t, sid) && t.sessions[sid] == s.sessions[sid]
            && |s.log| <= |t.log| <= |s.log| + 1 && t.log[..|s.log|] == s.log
            && (|t.log| > |s.log| ==> !(t.log[|s.log|].Resolved? && t.log[|s.log|].sid == sid))
  {
  }

  /** A session that has ended, for whatever reason, is never accepted again, and its row never changes. */
  lemma {:induction false} EndedForever(s: State, es: seq<Event>, sid: string)
    requires IsEnded(s, sid)
    ensures var t := Run(s, es);
            && IsEnded(t, sid) && t.sessions[sid] == s.sessions[sid]
            && |s.log| <= |t.log| && NoneAccepted(t.log, |s.log|, sid)
  {
    if es != [] {
      var front := es[..|es| - 1];
      EndedForever(s, front, sid);
      EndedStep(Run(s, front), es[|es| - 1], sid);
      var u, t := Run(s, front), Run(s, es);
      assert forall i | 0 <= i < |u.log| :: t.log[i] == t.log[..|u.log|][i] == u.log[i];
    }
  }

  /** Ending a session, refusing it or locking its user as dormant ends it in this sense. */
  lemma WhatEnds(s: State, sid: string, e: Event)
    requires sid in s.sessions
    requires || (e.End? && e.sid == sid)
             || (e.MarkDormant? && s.sessions[sid].user == e.user)
             || (e.Resolve? && e.sid == sid && Judge(s.policy, s.active, s.sessions, s.clock, sid, e.terminal).EndNow?)
    ensures IsEnded(Step(s, e), sid)
  {
  }

  /** After a user is locked as dormant, no session the user had is accepted in any later run. */
  lemma DormantLockedOut(s: State, user: string, es: seq<Event>, sid: string)
    requires sid in s.sessions && s.sessions[sid].user == user
    ensures var t := Step(s, MarkDormant(user)); NoneAccepted(Run(t, es).log, |t.log|, sid)
  {
    WhatEnds(s, sid, MarkDormant(user));
    EndedForever(Step(s, MarkDormant(user)), es, sid);
  }

  // ---- Terminals ----------------------------------------------------------------------------------

  // A sign-in begun on one terminal whose callback comes from another.
  function Elsewhere(state: string, binding: string, begun: string, user: string, sid: string, terminal: string): seq<Event> {
    [BeginLogin(state, binding, begun), Callback(0, state, binding), Open(0, sid, user, terminal)]
  }

  lemma RunSnoc(s: State, es: seq<Event>, e: Event)
    ensures Run(s, es + [e]) == Step(Run(s, es), e)
  {
    assert (es + [e])[..|es|] == es;
  }

  lemma ThreeSteps(s: State, a: Event, b: Event, c: Event)
    ensures Run(s, [a, b, c]) == Step(Step(Step(s, a), b), c)
  {
    RunSnoc(s, [a, b], c);
    RunSnoc(s, [a], b);
    RunSnoc(s, [], a);
    assert [a, b] + [c] == [a, b, c] && [a] + [b] == [a, b] && [] + [a] == [a];
    assert Run(s, []) == s;
  }

  /**
    The terminal a sign-in was begun on is recorded and never compared: a session opens on the callback's terminal,
    and is accepted there, whatever terminal the sign-in was begun on.
   */
  lemma TerminalNotCompared(p: Policy, state: string, binding: string, begun: string, user: string, sid: string,
                            terminal: string)
    requires p.loginTtl > 0 && p.absolute > 0
    ensures var s := Run(Initial(p), Elsewhere(state, binding, begun, user, sid, terminal));
            && sid in s.sessions && s.sessions[sid].terminal == terminal && s.sessions[sid].login == state
            && Judge(p, map[user := true], s.sessions, s.clock, sid, terminal).Valid?
  {
    var a, b := BeginLogin(state, binding, begun), Callback(0, state, binding);
    var s1 := Step(Initial(p), a);
    var s2 := Step(s1, b);
    ThreeSteps(Initial(p), a, b, Open(0, sid, user, terminal));
    assert s1.logins[state] == Login(binding, begun, p.loginTtl);
    assert 0 in s2.callbacks && s2.callbacks[0] == state;
  }
}
