/**
  The identity store as it runs: login states, sessions, approval requests and configuration versions as its
  tables, and the decision handler on top. Each call does what one step of the approval and session machines does.
 */
module IamStore {
  import opened Wrappers
  import A = ApprovalModel
  import S = SessionModel

  // What the handler answers: 404, 403, 409, the rejection, or the result of executing.
  datatype Answer = NotFound | OwnRequest | NotPending | Rejected | Executed | Failed

  class IamStore {
    const policy: S.Policy
    var active: map<string, bool>
    var logins: map<string, S.Login>
    var sessions: map<string, S.Session>
    var approvals: map<string, A.Approval>
    var log: seq<A.Entry>

    constructor (policy: S.Policy)
      ensures this.policy == policy && active == map[] && logins == map[] && sessions == map[]
      ensures approvals == map[] && log == []
    {
      this.policy := policy;
      active, logins, sessions, approvals, log := map[], map[], map[], map[], [];
    }

    // ---- Sign-in ----------------------------------------------------------------------------------

    /** Clears what has expired and remembers a begun sign-in under its fresh state. */
    method PutLoginState(state: string, binding: string, terminal: string, now: nat)
      modifies this`logins
      ensures logins == S.WithLogin(old(logins), now, state, S.Login(binding, terminal, now + policy.loginTtl))
    {
      var rest := logins.Keys;
      var kept := logins;
      while rest != {}
        invariant rest <= logins.Keys
        invariant kept == map k | k in logins && (k in rest || now <= logins[k].expiresAt) :: logins[k]
      {
        var k :| k in rest;
        if logins[k].expiresAt < now {
          kept := kept - {k};
        }
        rest := rest - {k};
      }
      logins := kept[state := S.Login(binding, terminal, now + policy.loginTtl)];
    }

    /** Takes a login state, once: it is gone whether or not it then validates. */
    method TakeLoginState(state: string, binding: string, now: nat) returns (login: Option<S.Login>)
      modifies this`logins
      ensures logins == S.WithoutLogin(old(logins), state)
      ensures login == if S.LoginValid(old(logins), state, binding, now) then Some(old(logins)[state]) else None
    {
      if state !in logins {
        assert logins - {state} == logins;
        return None;
      }
      var l := logins[state];
      logins := logins - {state};
      if l.expiresAt <= now || l.binding != binding {
        return None;
      }
      return Some(l);
    }

    /** Decides whether a presented session is accepted, and records that it was seen or that it is over. */
    method ResolveSession(sid: string, terminal: string, now: nat) returns (verdict: S.Verdict)
      modifies this`sessions
      ensures verdict == S.Judge(policy, active, old(sessions), now, sid, terminal)
      ensures sessions == S.Judged(old(sessions), now, sid, verdict)
    {
      if sid !in sessions || sessions[sid].user !in active {
        return S.NoSession;
      }
      var x := sessions[sid];
      verdict := S.Valid;
      if x.ended.Some? {
        verdict := S.AlreadyEnded;
      } else if x.expiresAt <= now {
        verdict := S.EndNow(S.EXPIRED);
      } else if x.lastSeen + policy.idle < now {
        verdict := S.EndNow(S.IDLE);
      } else if !active[x.user] {
        verdict := S.EndNow(S.USER_DISABLED);
      } else if x.terminal != terminal {
        verdict := S.EndNow(S.REVOKED);
      }
      if verdict.EndNow? {
        sessions := sessions[sid := x.(ended := Some(verdict.reason))];
      } else if verdict.Valid? {
        sessions := sessions[sid := x.(lastSeen := now)];
      }
    }

    method EndSession(sid: string, reason: S.Reason)
      modifies this`sessions
      ensures sessions == S.Ended(old(sessions), sid, reason)
    {
      if sid in sessions && sessions[sid].ended.None? {
        sessions := sessions[sid := sessions[sid].(ended := Some(reason))];
      }
    }

    // ---- Approvals --------------------------------------------------------------------------------

    /** The conditional UPDATE; whether it matched the row tells the caller if this decision counts. */
    method Decide(id: string, decider: string, approve: bool, now: nat) returns (won: bool)
      modifies this`approvals
      ensures won == (id in old(approvals) && A.Decidable(old(approvals)[id], decider, now))
      ensures approvals == if won then old(approvals)[id := A.Decided(old(approvals)[id], decider, approve, now)]
                           else old(approvals)
    {
      won := id in approvals && approvals[id].status == A.Pending && approvals[id].expiresAt > now
             && approvals[id].maker != decider;
      if won {
        approvals := approvals[id := approvals[id].(status := if approve then A.Approved else A.Rejected,
                                                    decidedBy := Some(decider), decidedAt := now)];
      }
    }

    method MarkExecuted(id: string, ok: bool)
      modifies this`approvals
      ensures approvals == if id in old(approvals) then old(approvals)[id := A.Marked(old(approvals)[id], ok)]
                           else old(approvals)
    {
      if id in approvals {
        if approvals[id].status == A.Approved {
          approvals := approvals[id := approvals[id].(status := if ok then A.Executed else A.Failed)];
        }
      }
    }

    /** The next number of a network function, taken under its lock. */
    method AddConfigVersion(nf: string, approval: Option<string>) returns (number: nat)
      modifies this`log
      ensures number == A.Max(A.Numbers(old(log), nf)) + 1
      ensures log == old(log) + [A.VersionAdded(nf, number, approval)]
    {
      number := 0;
      var rows := log;
      for i := 0 to |rows|
        invariant log == rows && number == A.Max(A.Numbers(rows[..i], nf))
      {
        assert rows[..i + 1][..i] == rows[..i];
        if rows[i].VersionAdded? && rows[i].nf == nf {
          assert A.Numbers(rows[..i + 1], nf) == A.Numbers(rows[..i], nf) + [rows[i].number];
          MaxSnoc(A.Numbers(rows[..i], nf), rows[i].number);
          if rows[i].number > number {
            number := rows[i].number;
          }
        } else {
          assert A.Numbers(rows[..i + 1], nf) == A.Numbers(rows[..i], nf);
        }
      }
      assert rows[..|rows|] == rows;
      number := number + 1;
      log := log + [A.VersionAdded(nf, number, approval)];
    }

    method Execute(id: string, kind: A.Kind, fault: A.Fault) returns (ok: bool)
      modifies this`log
      ensures ok == Succeeds(kind, fault)
      ensures log == old(log) + Work(old(log), id, kind, fault)
    {
      match kind {
        case Catalog =>
          if !fault.Fails? {
            log := log + [A.Posted(id)];
          }
          return fault.Fine?;
        case NfConfig(nf) =>
          if !fault.Fine? {
            return false;
          }
          var number := AddConfigVersion(nf, Some(id));
          return true;
        case Unknown =>
          return false;
      }
    }

    /** The decision handler: check, decide, audit, and after an approval execute and record the result. */
    method HandleDecision(id: string, decider: string, approve: bool, now: nat, fault: A.Fault) returns (answer: Answer)
      modifies this`approvals, this`log
      ensures (approvals, log, answer) == Handled(old(approvals), old(log), id, decider, approve, now, fault)
    {
      if id !in approvals {
        return NotFound;
      }
      if approvals[id].maker == decider {
        return OwnRequest;
      }
      var kind := approvals[id].kind;
      var won := Decide(id, decider, approve, now);
      if !won {
        return NotPending;
      }
      ghost var decided := approvals[id];
      log := log + [A.Verdict(id, approve)];
      if !approve {
        return Rejected;
      }
      var ok := Execute(id, kind, fault);
      MarkExecuted(id, ok);
      log := log + [A.Outcome(id, ok)];
      assert old(approvals)[id := decided][id := A.Marked(decided, ok)] == old(approvals)[id := A.Marked(decided, ok)];
      return if ok then Executed else Failed;
    }
  }

  lemma MaxSnoc(ns: seq<nat>, n: nat)
    ensures A.Max(ns + [n]) == if n > A.Max(ns) then n else A.Max(ns)
  {
    assert (ns + [n])[..|ns|] == ns;
  }

  // ---- The handler in one piece -------------------------------------------------------------------

  predicate Succeeds(kind: A.Kind, fault: A.Fault) { !kind.Unknown? && fault.Fine? }

  function Work(log: seq<A.Entry>, id: string, kind: A.Kind, fault: A.Fault): seq<A.Entry> {
    match kind
    case Catalog => if fault.Fails? then [] else [A.Posted(id)]
    case NfConfig(nf) => if fault.Fine? then [A.VersionAdded(nf, A.Max(A.Numbers(log, nf)) + 1, Some(id))] else []
    case Unknown => []
  }

  function Handled(approvals: map<string, A.Approval>, log: seq<A.Entry>, id: string, decider: string, approve: bool,
                   now: nat, fault: A.Fault): (map<string, A.Approval>, seq<A.Entry>, Answer) {
    if id !in approvals then (approvals, log, NotFound)
    else if approvals[id].maker == decider then (approvals, log, OwnRequest)
    else if !A.Decidable(approvals[id], decider, now) then (approvals, log, NotPending)
    else
      var a := A.Decided(approvals[id], decider, approve, now);
      var audited := log + [A.Verdict(id, approve)];
      if !approve then (approvals[id := a], audited, Rejected)
      else
        var ok := Succeeds(a.kind, fault);
        (approvals[id := A.Marked(a, ok)], audited + Work(audited, id, a.kind, fault) + [A.Outcome(id, ok)],
         if ok then Executed else Failed)
  }

  // n steps of one handler.
  function Alone(s: A.State, pid: nat, fault: A.Fault, n: nat): A.State
    decreases n
  {
    if n == 0 then s else Alone(A.Step(s, A.Advance(pid, fault)), pid, fault, n - 1)
  }

  lemma {:induction false} Gone(s: A.State, pid: nat, fault: A.Fault, n: nat)
    requires pid !in s.handlers
    ensures Alone(s, pid, fault, n) == s
  {
    if n > 0 {
      Gone(s, pid, fault, n - 1);
    }
  }

  // The handler at a stage, with what it has done so far.
  function At(s: A.State, pid: nat, h: A.Handler, approvals: map<string, A.Approval>, log: seq<A.Entry>): A.State {
    s.(approvals := approvals, log := log, handlers := s.handlers[pid := h])
  }

  predicate Free(s: A.State, pid: nat) { pid !in s.handlers && forall nf | nf in s.locks :: s.locks[nf] != pid }

  lemma Left(s: A.State, pid: nat, h: A.Handler, approvals: map<string, A.Approval>, log: seq<A.Entry>)
    requires Free(s, pid)
    ensures A.Leave(At(s, pid, h, approvals, log), pid) == s.(approvals := approvals, log := log)
  {
    assert s.handlers[pid := h] - {pid} == s.handlers;
  }

  /**
    A handler that runs without interference, and finds no configuration lock taken, does to the tables what the
    handler in one piece does; ten steps are always enough.
   */
  lemma SoloHandler(s: A.State, pid: nat, id: string, decider: string, approve: bool, fault: A.Fault, n: nat)
    requires Free(s, pid) && s.locks == map[] && n >= 10
    ensures var (approvals, log, _) := Handled(s.approvals, s.log, id, decider, approve, s.clock, fault);
            Alone(A.Step(s, A.Open(pid, id, decider, approve)), pid, fault, n) == s.(approvals := approvals, log := log)
  {
    var h := A.Decision(id, decider, approve, A.Reading);
    var s0 := At(s, pid, h, s.approvals, s.log);
    if id !in s.approvals || s.approvals[id].maker == decider {
      Left(s, pid, h, s.approvals, s.log);
      OneStep(s0, pid, fault, n, s);
      Gone(s, pid, fault, n - 1);
    } else {
      var deciding := h.(stage := A.Deciding(s.clock));
      OneStep(s0, pid, fault, n, At(s, pid, deciding, s.approvals, s.log));
      SoloDecision(s, pid, deciding, fault, n - 1);
    }
  }

  lemma SoloDecision(s: A.State, pid: nat, h: A.Handler, fault: A.Fault, n: nat)
    requires Free(s, pid) && s.locks == map[] && h.Decision? && h.stage == A.Deciding(s.clock) && n >= 9
    requires h.id in s.approvals && s.approvals[h.id].maker != h.decider
    ensures var (approvals, log, _) := Handled(s.approvals, s.log, h.id, h.decider, h.approve, s.clock, fault);
            Alone(At(s, pid, h, s.approvals, s.log), pid, fault, n) == s.(approvals := approvals, log := log)
  {
    var at := At(s, pid, h, s.approvals, s.log);
    if !A.Decidable(s.approvals[h.id], h.decider, s.clock) {
      Left(s, pid, h, s.approvals, s.log);
      OneStep(at, pid, fault, n, s);
      Gone(s, pid, fault, n - 1);
    } else {
      var approvals := s.approvals[h.id := A.Decided(s.approvals[h.id], h.decider, h.approve, s.clock)];
      var auditing := h.(stage := A.Auditing);
      OneStep(at, pid, fault, n, At(s, pid, auditing, approvals, s.log));
      SoloAudit(s, pid, auditing, fault, approvals, n - 1);
    }
  }

  lemma SoloAudit(s: A.State, pid: nat, h: A.Handler, fault: A.Fault, approvals: map<string, A.Approval>, n: nat)
    requires Free(s, pid) && s.locks == map[] && h.Decision? && h.stage == A.Auditing && h.id in approvals && n >= 8
    ensures var audited := s.log + [A.Verdict(h.id, h.approve)];
            var kind, ok := approvals[h.id].kind, Succeeds(approvals[h.id].kind, fault);
            Alone(At(s, pid, h, approvals, s.log), pid, fault, n)
            == if !h.approve then s.(approvals := approvals, log := audited)
               else s.(approvals := approvals[h.id := A.Marked(approvals[h.id], ok)],
                       log := audited + Work(audited, h.id, kind, fault) + [A.Outcome(h.id, ok)])
  {
    var audited := s.log + [A.Verdict(h.id, h.approve)];
    var at := At(s, pid, h, approvals, s.log);
    if h.approve {
      var executing := h.(stage := A.Executing);
      OneStep(at, pid, fault, n, At(s, pid, executing, approvals, audited));
      SoloExecution(s, pid, executing, fault, approvals, audited, n - 1);
    } else {
      Left(s, pid, h, approvals, audited);
      OneStep(at, pid, fault, n, s.(approvals := approvals, log := audited));
      Gone(s.(approvals := approvals, log := audited), pid, fault, n - 1);
    }
  }

  lemma SoloExecution(s: A.State, pid: nat, h: A.Handler, fault: A.Fault, approvals: map<string, A.Approval>,
                      log: seq<A.Entry>, n: nat)
    requires Free(s, pid) && s.locks == map[] && h.Decision? && h.stage == A.Executing && h.id in approvals && n >= 7
    ensures var kind := approvals[h.id].kind;
            var ok := Succeeds(kind, fault);
            Alone(At(s, pid, h, approvals, log), pid, fault, n)
            == s.(approvals := approvals[h.id := A.Marked(approvals[h.id], ok)],
                  log := log + Work(log, h.id, kind, fault) + [A.Outcome(h.id, ok)])
  {
    var kind := approvals[h.id].kind;
    var at := At(s, pid, h, approvals, log);
    var worked := log + Work(log, h.id, kind, fault);
    Starts(s, pid, h, fault, approvals, log);
    if kind.NfConfig? && fault.Fine? {
      var locking := h.(stage := A.Locking(kind.nf));
      OneStep(at, pid, fault, n, At(s, pid, locking, approvals, log));
      SoloVersion(s, pid, locking, fault, approvals, log, kind.nf, n - 1);
      SoloMark(s, pid, h.(stage := A.Marking(true)), fault, approvals, worked, n - 5);
    } else {
      var marking := h.(stage := A.Marking(Succeeds(kind, fault)));
      OneStep(at, pid, fault, n, At(s, pid, marking, approvals, worked));
      SoloMark(s, pid, marking, fault, approvals, worked, n - 1);
    }
  }

  lemma Starts(s: A.State, pid: nat, h: A.Handler, fault: A.Fault, approvals: map<string, A.Approval>, log: seq<A.Entry>)
    requires h.Decision? && h.stage == A.Executing && h.id in approvals
    ensures var kind := approvals[h.id].kind;
            A.Step(At(s, pid, h, approvals, log), A.Advance(pid, fault))
            == if kind.NfConfig? && fault.Fine? then At(s, pid, h.(stage := A.Locking(kind.nf)), approvals, log)
               else At(s, pid, h.(stage := A.Marking(Succeeds(kind, fault))), approvals, log + Work(log, h.id, kind, fault))
  {
  }

  lemma OneStep(s: A.State, pid: nat, fault: A.Fault, n: nat, t: A.State)
    requires n > 0 && A.Step(s, A.Advance(pid, fault)) == t
    ensures Alone(s, pid, fault, n) == Alone(t, pid, fault, n - 1)
  {
  }

  // Lock, insert, commit and apply.
  lemma SoloVersion(s: A.State, pid: nat, h: A.Handler, fault: A.Fault, approvals: map<string, A.Approval>,
                    log: seq<A.Entry>, nf: string, n: nat)
    requires s.locks == map[] && h.Decision? && h.stage == A.Locking(nf) && n >= 4
    ensures Alone(At(s, pid, h, approvals, log), pid, fault, n)
            == Alone(At(s, pid, h.(stage := A.Marking(true)), approvals,
                        log + [A.VersionAdded(nf, A.Max(A.Numbers(log, nf)) + 1, Some(h.id))]), pid, fault, n - 4)
  {
    var number := A.Max(A.Numbers(log, nf)) + 1;
    var inserting, committing := h.(stage := A.Inserting(nf)), h.(stage := A.Committing(nf, number));
    SoloLock(s, pid, h, fault, approvals, log, nf, n);
    SoloInsert(s.(locks := map[nf := pid]), pid, inserting, committing, fault, approvals, log, nf, n - 1);
    SoloCommit(s, pid, committing, h.(stage := A.Marking(true)), fault, approvals, log, nf, number, n - 2);
  }

  lemma SoloLock(s: A.State, pid: nat, h: A.Handler, fault: A.Fault, approvals: map<string, A.Approval>,
                 log: seq<A.Entry>, nf: string, n: nat)
    requires s.locks == map[] && h.Decision? && h.stage == A.Locking(nf) && n >= 1
    ensures Alone(At(s, pid, h, approvals, log), pid, fault, n)
            == Alone(At(s.(locks := map[nf := pid]), pid, h.(stage := A.Inserting(nf)), approvals, log), pid, fault, n - 1)
  {
    Locks(s, pid, h, fault, approvals, log, nf);
    OneStep(At(s, pid, h, approvals, log), pid, fault, n,
            At(s.(locks := map[nf := pid]), pid, h.(stage := A.Inserting(nf)), approvals, log));
  }

  lemma SoloCommit(s: A.State, pid: nat, h: A.Handler, next: A.Handler, fault: A.Fault,
                   approvals: map<string, A.Approval>, log: seq<A.Entry>, nf: string, number: nat, n: nat)
    requires s.locks == map[] && h.Decision? && h.stage == A.Committing(nf, number) && n >= 2
    requires next == h.(stage := A.Marking(true))
    ensures Alone(At(s.(locks := map[nf := pid]), pid, h, approvals, log), pid, fault, n)
            == Alone(At(s, pid, next, approvals, log + [A.VersionAdded(nf, number, Some(h.id))]), pid, fault, n - 2)
  {
    var added := log + [A.VersionAdded(nf, number, Some(h.id))];
    var applying := h.(stage := A.Applying);
    Commits(s, pid, h, fault, approvals, log, nf, number);
    OneStep(At(s.(locks := map[nf := pid]), pid, h, approvals, log), pid, fault, n, At(s, pid, applying, approvals, added));
    OneStep(At(s, pid, applying, approvals, added), pid, fault, n - 1, At(s, pid, next, approvals, added));
  }

  lemma Locks(s: A.State, pid: nat, h: A.Handler, fault: A.Fault, approvals: map<string, A.Approval>, log: seq<A.Entry>,
              nf: string)
    requires s.locks == map[] && h.Decision? && h.stage == A.Locking(nf)
    ensures A.Step(At(s, pid, h, approvals, log), A.Advance(pid, fault))
            == At(s.(locks := map[nf := pid]), pid, h.(stage := A.Inserting(nf)), approvals, log)
  {
  }

  lemma Inserts(s: A.State, pid: nat, h: A.Handler, fault: A.Fault, approvals: map<string, A.Approval>, log: seq<A.Entry>,
                nf: string)
    requires h.Decision? && h.stage == A.Inserting(nf)
    ensures A.Step(At(s, pid, h, approvals, log), A.Advance(pid, fault))
            == At(s, pid, h.(stage := A.Committing(nf, A.Max(A.Numbers(log, nf)) + 1)), approvals, log)
  {
  }

  lemma SoloInsert(s: A.State, pid: nat, h: A.Handler, next: A.Handler, fault: A.Fault,
                   approvals: map<string, A.Approval>, log: seq<A.Entry>, nf: string, n: nat)
    requires h.Decision? && h.stage == A.Inserting(nf) && n >= 1
    requires next == h.(stage := A.Committing(nf, A.Max(A.Numbers(log, nf)) + 1))
    ensures Alone(At(s, pid, h, approvals, log), pid, fault, n) == Alone(At(s, pid, next, approvals, log), pid, fault, n - 1)
  {
    Inserts(s, pid, h, fault, approvals, log, nf);
    OneStep(At(s, pid, h, approvals, log), pid, fault, n, At(s, pid, next, approvals, log));
  }

  lemma Commits(s: A.State, pid: nat, h: A.Handler, fault: A.Fault, approvals: map<string, A.Approval>, log: seq<A.Entry>,
                nf: string, number: nat)
    requires s.locks == map[] && h.Decision? && h.stage == A.Committing(nf, number)
    ensures A.Step(At(s.(locks := map[nf := pid]), pid, h, approvals, log), A.Advance(pid, fault))
            == At(s, pid, h.(stage := A.Applying), approvals, log + [A.VersionAdded(nf, number, Some(h.id))])
  {
    assert map[nf := pid] - {nf} == s.locks;
  }

  lemma SoloMark(s: A.State, pid: nat, h: A.Handler, fault: A.Fault, approvals: map<string, A.Approval>,
                 log: seq<A.Entry>, n: nat)
    requires Free(s, pid) && h.Decision? && h.stage.Marking? && h.id in approvals && n >= 2
    ensures Alone(At(s, pid, h, approvals, log), pid, fault, n)
            == s.(approvals := approvals[h.id := A.Marked(approvals[h.id], h.stage.ok)],
                  log := log + [A.Outcome(h.id, h.stage.ok)])
  {
    var marked := approvals[h.id := A.Marked(approvals[h.id], h.stage.ok)];
    var reporting := h.(stage := A.Reporting(h.stage.ok));
    var reported := log + [A.Outcome(h.id, h.stage.ok)];
    OneStep(At(s, pid, h, approvals, log), pid, fault, n, At(s, pid, reporting, marked, log));
    Left(s, pid, reporting, marked, reported);
    OneStep(At(s, pid, reporting, marked, log), pid, fault, n - 1, s.(approvals := marked, log := reported));
    Gone(s.(approvals := marked, log := reported), pid, fault, n - 2);
  }
}
