/** What holds in every state the approval machine can reach. */
module ApprovalRuns {
  import opened Wrappers
  import opened ApprovalModel

  // ---- The invariant ------------------------------------------------------------------------------

  predicate Active(h: Handler) { h.Decision? && !h.stage.Reading? && !h.stage.Deciding? && !h.stage.Reporting? }

  // A decided request names a decider other than its maker, who decided before it expired.
  predicate DecisionOk(a: Approval) {
    && (a.status == Pending <==> a.decidedBy.None?)
    && (a.decidedBy.Some? ==> a.decidedBy.value != a.maker && a.decidedAt < a.expiresAt)
  }

  predicate EffectsOk(s: State, id: string) {
    if id !in s.approvals then Effects(s.log, id) == 0
    else
      && Effects(s.log, id) <= 1
      && (s.approvals[id].status in {Pending, Rejected} ==> Effects(s.log, id) == 0)
      && (s.approvals[id].status == Executed ==> Effects(s.log, id) == 1)
  }

  predicate Holds(s: State, pid: nat, nf: string) { nf in s.locks && s.locks[nf] == pid }

  predicate StageOk(s: State, h: Handler)
    requires h.Decision? && h.id in s.approvals
  {
    var a, effects := s.approvals[h.id], Effects(s.log, h.id);
    match h.stage
    case Auditing => a.status == (if h.approve then Approved else Rejected) && effects == 0
    case Executing => a.status == Approved && effects == 0 && Verdict(h.id, true) in s.log
    case Locking(_) => a.status == Approved && effects == 0 && Verdict(h.id, true) in s.log
    case Inserting(_) => a.status == Approved && effects == 0 && Verdict(h.id, true) in s.log
    case Committing(_, _) => a.status == Approved && effects == 0 && Verdict(h.id, true) in s.log
    case Applying => a.status == Approved && effects == 1
    case Marking(ok) => a.status == Approved && (ok ==> effects == 1)
    case _ => true
  }

  predicate LockOk(s: State, pid: nat, h: Handler) {
    match h.stage
    case Inserting(nf) => Holds(s, pid, nf)
    case Committing(nf, number) => Holds(s, pid, nf) && number == |Numbers(s.log, nf)| + 1
    case _ => true
  }

  predicate HandlerOk(s: State, pid: nat, h: Handler) {
    && LockOk(s, pid, h)
    && (Active(h) ==> h.id in s.approvals && s.approvals[h.id].decidedBy == Some(h.decider) && StageOk(s, h))
  }

  predicate HandlersOk(s: State) { forall pid | pid in s.handlers :: HandlerOk(s, pid, s.handlers[pid]) }

  // At most one handler is past the decision of a request.
  predicate OneActive(s: State) {
    forall p, q | p in s.handlers && q in s.handlers && p != q && Active(s.handlers[p]) && Active(s.handlers[q]) ::
      s.handlers[p].id != s.handlers[q].id
  }

  /** Every effect comes after the audit row that approves it. */
  predicate AuditedFirst(log: seq<Entry>) {
    forall i | 0 <= i < |log| && EffectOf(log[i]).Some? :: Verdict(EffectOf(log[i]).value, true) in log[..i]
  }

  /** The versions of a network function are exactly 1, 2, ..., in the order they were committed. */
  predicate Numbered(log: seq<Entry>, nf: string) {
    forall i | 0 <= i < |Numbers(log, nf)| :: Numbers(log, nf)[i] == i + 1
  }

  ghost predicate AllNumbered(log: seq<Entry>) { forall nf: string :: Numbered(log, nf) }

  ghost predicate ApprovalsOk(s: State) {
    (forall id | id in s.approvals :: DecisionOk(s.approvals[id])) && forall id: string :: EffectsOk(s, id)
  }

  ghost predicate Inv(s: State) {
    ApprovalsOk(s) && HandlersOk(s) && OneActive(s) && AuditedFirst(s.log) && AllNumbered(s.log)
  }

  // ---- Frames -------------------------------------------------------------------------------------

  /** The way a request may move in one step. */
  predicate Moves(a: Approval, b: Approval) {
    && b.maker == a.maker && b.kind == a.kind && b.expiresAt == a.expiresAt
    && (a.status != Pending ==> b.decidedBy == a.decidedBy && b.decidedAt == a.decidedAt)
    && (b.status == a.status || (a.status == Pending && b.status in {Rejected, Approved})
        || (a.status == Approved && b.status in {Executed, Failed}))
  }

  predicate SameRequest(s: State, t: State, id: string) {
    && (id in s.approvals <==> id in t.approvals)
    && (id in s.approvals ==> t.approvals[id] == s.approvals[id])
    && Effects(t.log, id) == Effects(s.log, id)
  }

  predicate Grows(s: State, t: State) { |s.log| <= |t.log| && t.log[..|s.log|] == s.log }

  // What a step of one handler leaves alone: other requests, the locks of others, the numbers under those locks.
  ghost predicate Frame(s: State, t: State, pid: nat, id: Option<string>) {
    && Grows(s, t)
    && (forall other: string | id != Some(other) :: SameRequest(s, t, other))
    && (forall q: nat, nf: string | q != pid && Holds(s, q, nf) :: Holds(t, q, nf) && Numbers(t.log, nf) == Numbers(s.log, nf))
    && (forall q | q in t.handlers && q != pid :: q in s.handlers && t.handlers[q] == s.handlers[q])
  }

  // No other handler is past the decision of a request.
  predicate Alone(s: State, pid: nat, id: string) {
    forall q | q in s.handlers && q != pid && Active(s.handlers[q]) :: s.handlers[q].id != id
  }

  lemma HandlersKept(s: State, t: State, pid: nat, id: Option<string>)
    requires HandlersOk(s) && OneActive(s) && Frame(s, t, pid, id)
    requires id.Some? ==> Alone(s, pid, id.value)
    requires pid in t.handlers ==> HandlerOk(t, pid, t.handlers[pid])
    requires pid in t.handlers && Active(t.handlers[pid]) ==> Alone(s, pid, t.handlers[pid].id)
    ensures HandlersOk(t) && OneActive(t)
  {
    forall q | q in t.handlers ensures HandlerOk(t, q, t.handlers[q]) {
    }
  }

  // ---- Appending to the log -----------------------------------------------------------------------

  lemma AppendEntry(log: seq<Entry>, e: Entry)
    ensures forall id: string :: Effects(log + [e], id) == Effects(log, id) + if EffectOf(e) == Some(id) then 1 else 0
    ensures forall nf: string ::
              Numbers(log + [e], nf) == Numbers(log, nf) + if e.VersionAdded? && e.nf == nf then [e.number] else []
    ensures AuditedFirst(log) && (EffectOf(e).Some? ==> Verdict(EffectOf(e).value, true) in log) ==>
              AuditedFirst(log + [e])
  {
    assert (log + [e])[..|log|] == log;
    if AuditedFirst(log) && (EffectOf(e).Some? ==> Verdict(EffectOf(e).value, true) in log) {
      forall i | 0 <= i < |log + [e]| && EffectOf((log + [e])[i]).Some?
        ensures Verdict(EffectOf((log + [e])[i]).value, true) in (log + [e])[..i]
      {
        assert (log + [e])[..i] == log[..i];
        assert i < |log| ==> (log + [e])[i] == log[i];
        assert log[..|log|] == log;
      }
    }
  }

  lemma {:induction false} MaxOfFirst(ns: seq<nat>)
    requires forall i | 0 <= i < |ns| :: ns[i] == i + 1
    ensures Max(ns) == |ns|
  {
    if ns != [] {
      MaxOfFirst(ns[..|ns| - 1]);
    }
  }

  // ---- The steps ----------------------------------------------------------------------------------

  // What a step shows about the request it is about.
  predicate OwnOk(s: State, t: State, id: Option<string>) {
    id.Some? ==>
      && EffectsOk(t, id.value) && id.value in s.approvals && id.value in t.approvals
      && DecisionOk(t.approvals[id.value]) && Moves(s.approvals[id.value], t.approvals[id.value])
  }

  predicate SelfOk(t: State, pid: nat) { pid in t.handlers ==> HandlerOk(t, pid, t.handlers[pid]) }

  predicate SelfAlone(s: State, t: State, pid: nat) {
    pid in t.handlers && Active(t.handlers[pid]) ==> Alone(s, pid, t.handlers[pid].id)
  }

  ghost predicate LogOk(log: seq<Entry>) { AuditedFirst(log) && AllNumbered(log) }

  ghost predicate Good(s: State, t: State) {
    && Inv(t) && Grows(s, t)
    && forall id | id in s.approvals :: id in t.approvals && Moves(s.approvals[id], t.approvals[id])
  }

  lemma Assemble(s: State, t: State, pid: nat, id: Option<string>)
    requires Inv(s) && Frame(s, t, pid, id) && OwnOk(s, t, id) && (id.Some? ==> Alone(s, pid, id.value))
    requires SelfOk(t, pid) && SelfAlone(s, t, pid) && LogOk(t.log)
    ensures Good(s, t)
  {
    HandlersKept(s, t, pid, id);
    forall other: string ensures EffectsOk(t, other) && (other in t.approvals ==> DecisionOk(t.approvals[other])) {
      if id != Some(other) {
        assert SameRequest(s, t, other) && EffectsOk(s, other);
      }
    }
    forall other | other in s.approvals
      ensures other in t.approvals && Moves(s.approvals[other], t.approvals[other])
    {
      if id != Some(other) {
        assert SameRequest(s, t, other);
      }
    }
  }

  lemma LeaveFrame(s: State, pid: nat)
    ensures Frame(s, Leave(s, pid), pid, None) && pid !in Leave(s, pid).handlers
  {
  }

  lemma GoFrame(s: State, pid: nat, h: Handler)
    ensures Frame(s, Go(s, pid, h), pid, None)
  {
  }

  lemma WriteFrame(s: State, pid: nat, e: Entry)
    requires EffectOf(e).None? && !e.VersionAdded?
    ensures Frame(s, Write(s, e), pid, None)
    ensures forall nf: string :: Numbers(Write(s, e).log, nf) == Numbers(s.log, nf)
    ensures LogOk(s.log) ==> LogOk(Write(s, e).log)
    ensures e in Write(s, e).log
  {
    AppendEntry(s.log, e);
    assert Grows(s, Write(s, e));
    forall nf: string | Numbered(s.log, nf) ensures Numbered(Write(s, e).log, nf) {
      assert Numbers(Write(s, e).log, nf) == Numbers(s.log, nf);
    }
  }

  lemma FrameTrans(s: State, t: State, u: State, pid: nat, id: Option<string>)
    requires Frame(s, t, pid, id) && Frame(t, u, pid, None)
    ensures Frame(s, u, pid, id)
  {
    assert s.log == t.log[..|s.log|] == u.log[..|s.log|];
    forall other: string | id != Some(other) ensures SameRequest(s, u, other) {
      assert SameRequest(s, t, other) && SameRequest(t, u, other);
    }
    forall q | q in u.handlers && q != pid ensures q in s.handlers && u.handlers[q] == s.handlers[q] {
      assert q in t.handlers;
    }
  }

  lemma LeaveOk(s: State, pid: nat)
    requires Inv(s)
    ensures Good(s, Leave(s, pid))
  {
    LeaveFrame(s, pid);
    Assemble(s, Leave(s, pid), pid, None);
  }

  // A step that only moves the handler on.
  lemma GoOk(s: State, pid: nat, h: Handler)
    requires Inv(s) && HandlerOk(s, pid, h) && (Active(h) ==> Alone(s, pid, h.id))
    ensures Good(s, Go(s, pid, h))
  {
    GoFrame(s, pid, h);
    Assemble(s, Go(s, pid, h), pid, None);
  }

  lemma StillAlone(s: State, pid: nat, h: Handler)
    requires OneActive(s) && pid in s.handlers && s.handlers[pid] == h && Active(h)
    ensures Alone(s, pid, h.id)
  {
  }

  // While a request is pending nobody is past its decision.
  lemma PendingAlone(s: State, pid: nat, id: string)
    requires HandlersOk(s) && id in s.approvals && s.approvals[id].status == Pending
    ensures Alone(s, pid, id)
  {
    forall q | q in s.handlers && q != pid && Active(s.handlers[q]) ensures s.handlers[q].id != id {
      assert HandlerOk(s, q, s.handlers[q]);
    }
  }

  lemma DecideOk(s: State, pid: nat, h: Handler, now: nat)
    requires Inv(s) && pid in s.handlers && s.handlers[pid] == h && h.Decision? && h.stage == Deciding(now)
    ensures Good(s, DecideStep(s, pid, h, now))
  {
    if h.id !in s.approvals || !Decidable(s.approvals[h.id], h.decider, now) {
      LeaveOk(s, pid);
    } else {
      var t := DecideStep(s, pid, h, now);
      PendingAlone(s, pid, h.id);
      assert DecisionOk(s.approvals[h.id]) && EffectsOk(s, h.id);
      assert Frame(s, t, pid, Some(h.id));
      Assemble(s, t, pid, Some(h.id));
    }
  }

  lemma AuditOk(s: State, pid: nat, h: Handler)
    requires Inv(s) && pid in s.handlers && s.handlers[pid] == h && h.Decision? && h.stage == Auditing
    ensures Good(s, AuditStep(s, pid, h))
  {
    var e := Verdict(h.id, h.approve);
    var written := Write(s, e);
    var t := AuditStep(s, pid, h);
    WriteFrame(s, pid, e);
    StillAlone(s, pid, h);
    assert HandlerOk(s, pid, h);
    assert SameRequest(s, written, h.id);
    if h.approve {
      GoFrame(written, pid, h.(stage := Executing));
    } else {
      LeaveFrame(written, pid);
    }
    FrameTrans(s, written, t, pid, None);
    Assemble(s, t, pid, None);
  }

  lemma PostOk(s: State, pid: nat, h: Handler, ok: bool)
    requires Inv(s) && pid in s.handlers && s.handlers[pid] == h && h.Decision? && h.stage == Executing
    ensures Good(s, Go(Write(s, Posted(h.id)), pid, h.(stage := Marking(ok))))
  {
    var e := Posted(h.id);
    var t := Go(Write(s, e), pid, h.(stage := Marking(ok)));
    StillAlone(s, pid, h);
    assert HandlerOk(s, pid, h) && EffectsOk(s, h.id);
    AppendEntry(s.log, e);
    forall nf: string ensures Numbered(t.log, nf) {
      assert Numbers(t.log, nf) == Numbers(s.log, nf) && Numbered(s.log, nf);
    }
    assert Frame(s, t, pid, Some(h.id));
    Assemble(s, t, pid, Some(h.id));
  }

  lemma ExecuteOk(s: State, pid: nat, h: Handler, fault: Fault)
    requires Inv(s) && pid in s.handlers && s.handlers[pid] == h && h.Decision? && h.stage == Executing
    ensures Good(s, ExecuteStep(s, pid, h, fault))
  {
    StillAlone(s, pid, h);
    assert HandlerOk(s, pid, h);
    match s.approvals[h.id].kind
    case Catalog =>
      if fault.Fails? {
        GoOk(s, pid, h.(stage := Marking(false)));
      } else {
        PostOk(s, pid, h, fault.Fine?);
      }
    case NfConfig(nf) => GoOk(s, pid, h.(stage := if fault.Fine? then Locking(nf) else Marking(false)));
    case Unknown => GoOk(s, pid, h.(stage := Marking(false)));
  }

  lemma LockStepOk(s: State, pid: nat, h: Handler, nf: string)
    requires Inv(s) && pid in s.handlers && s.handlers[pid] == h && h.stage == Locking(nf)
    ensures Good(s, LockStep(s, pid, h, nf))
  {
    var t := LockStep(s, pid, h, nf);
    assert HandlerOk(s, pid, h);
    if nf !in s.locks {
      if h.Decision? {
        StillAlone(s, pid, h);
      }
      assert Frame(s, t, pid, None);
      Assemble(s, t, pid, None);
    } else {
    }
  }

  lemma InsertOk(s: State, pid: nat, h: Handler, nf: string)
    requires Inv(s) && pid in s.handlers && s.handlers[pid] == h && h.stage == Inserting(nf)
    ensures Good(s, InsertStep(s, pid, h, nf))
  {
    assert HandlerOk(s, pid, h) && Numbered(s.log, nf);
    MaxOfFirst(Numbers(s.log, nf));
    if h.Decision? {
      StillAlone(s, pid, h);
    }
    GoOk(s, pid, h.(stage := Committing(nf, Max(Numbers(s.log, nf)) + 1)));
  }

  lemma CommitFrame(s: State, pid: nat, h: Handler, nf: string, number: nat)
    requires Holds(s, pid, nf)
    ensures Frame(s, CommitStep(s, pid, h, nf, number), pid, if h.Decision? then Some(h.id) else None)
  {
    var e := VersionAdded(nf, number, if h.Decision? then Some(h.id) else None);
    AppendEntry(s.log, e);
  }

  lemma CommitLog(log: seq<Entry>, nf: string, approval: Option<string>)
    requires LogOk(log) && (approval.Some? ==> Verdict(approval.value, true) in log)
    ensures LogOk(log + [VersionAdded(nf, |Numbers(log, nf)| + 1, approval)])
  {
    var e := VersionAdded(nf, |Numbers(log, nf)| + 1, approval);
    AppendEntry(log, e);
    forall other: string ensures Numbered(log + [e], other) {
      assert Numbered(log, other);
    }
  }

  lemma CommitOk(s: State, pid: nat, h: Handler, nf: string, number: nat)
    requires Inv(s) && pid in s.handlers && s.handlers[pid] == h && h.stage == Committing(nf, number)
    ensures Good(s, CommitStep(s, pid, h, nf, number))
  {
    var t := CommitStep(s, pid, h, nf, number);
    assert HandlerOk(s, pid, h);
    CommitFrame(s, pid, h, nf, number);
    CommitLog(s.log, nf, if h.Decision? then Some(h.id) else None);
    AppendEntry(s.log, VersionAdded(nf, number, if h.Decision? then Some(h.id) else None));
    if h.Decision? {
      StillAlone(s, pid, h);
      assert EffectsOk(s, h.id);
      Assemble(s, t, pid, Some(h.id));
    } else {
      Assemble(s, t, pid, None);
    }
  }

  lemma MarkOk(s: State, pid: nat, h: Handler, ok: bool)
    requires Inv(s) && pid in s.handlers && s.handlers[pid] == h && h.Decision? && h.stage == Marking(ok)
    ensures Good(s, MarkStep(s, pid, h, ok))
  {
    var t := MarkStep(s, pid, h, ok);
    StillAlone(s, pid, h);
    assert HandlerOk(s, pid, h) && EffectsOk(s, h.id) && DecisionOk(s.approvals[h.id]);
    assert Frame(s, t, pid, Some(h.id));
    Assemble(s, t, pid, Some(h.id));
  }

  lemma ReportOk(s: State, pid: nat, h: Handler, ok: bool)
    requires Inv(s) && h.Decision?
    ensures Good(s, Leave(Write(s, Outcome(h.id, ok)), pid))
  {
    var written := Write(s, Outcome(h.id, ok));
    WriteFrame(s, pid, Outcome(h.id, ok));
    LeaveFrame(written, pid);
    FrameTrans(s, written, Leave(written, pid), pid, None);
    Assemble(s, Leave(written, pid), pid, None);
  }

  lemma DecisionStepOk(s: State, pid: nat, h: Handler, fault: Fault)
    requires Inv(s) && pid in s.handlers && s.handlers[pid] == h && h.Decision?
    ensures Good(s, AdvanceDecision(s, pid, h, fault))
  {
    match h.stage
    case Reading =>
      if h.id !in s.approvals || s.approvals[h.id].maker == h.decider {
        LeaveOk(s, pid);
      } else {
        GoOk(s, pid, h.(stage := Deciding(s.clock)));
      }
    case Deciding(now) => DecideOk(s, pid, h, now);
    case Auditing => AuditOk(s, pid, h);
    case Executing => ExecuteOk(s, pid, h, fault);
    case Locking(nf) => LockStepOk(s, pid, h, nf);
    case Inserting(nf) => InsertOk(s, pid, h, nf);
    case Committing(nf, number) => CommitOk(s, pid, h, nf, number);
    case Applying => AppliedOk(s, pid, h);
    case Marking(ok) => MarkOk(s, pid, h, ok);
    case Reporting(ok) => ReportOk(s, pid, h, ok);
  }

  lemma AppliedOk(s: State, pid: nat, h: Handler)
    requires Inv(s) && pid in s.handlers && s.handlers[pid] == h && h.Decision? && h.stage == Applying
    ensures Good(s, Go(s, pid, h.(stage := Marking(true))))
  {
    StillAlone(s, pid, h);
    assert HandlerOk(s, pid, h);
    GoOk(s, pid, h.(stage := Marking(true)));
  }

  lemma ImportStepOk(s: State, pid: nat, h: Handler)
    requires Inv(s) && pid in s.handlers && s.handlers[pid] == h && h.Import?
    ensures Good(s, AdvanceImport(s, pid, h))
  {
    match h.stage
    case Locking(nf) => LockStepOk(s, pid, h, nf);
    case Inserting(nf) => InsertOk(s, pid, h, nf);
    case Committing(nf, number) => CommitOk(s, pid, h, nf, number);
    case _ => LeaveOk(s, pid);
  }

  lemma SubmitOk(s: State, id: string, maker: string, kind: Kind, ttl: nat)
    requires Inv(s)
    ensures Good(s, SubmitStep(s, id, maker, kind, ttl))
  {
    var t := SubmitStep(s, id, maker, kind, ttl);
    assert EffectsOk(s, id);
    forall other: string ensures EffectsOk(t, other) {
      assert EffectsOk(s, other);
    }
    forall q | q in t.handlers ensures HandlerOk(t, q, t.handlers[q]) {
      assert HandlerOk(s, q, s.handlers[q]);
    }
  }

  lemma TickOk(s: State, seconds: nat)
    requires Inv(s)
    ensures Good(s, s.(clock := s.clock + seconds))
  {
    var t := s.(clock := s.clock + seconds);
    forall other: string ensures EffectsOk(t, other) {
      assert EffectsOk(s, other);
    }
    forall q | q in t.handlers ensures HandlerOk(t, q, t.handlers[q]) {
      assert HandlerOk(s, q, s.handlers[q]);
    }
  }

  lemma StepOk(s: State, e: Event)
    requires Inv(s)
    ensures Good(s, Step(s, e))
  {
    match e
    case Submit(id, maker, kind, ttl) => SubmitOk(s, id, maker, kind, ttl);
    case Open(pid, id, decider, approve) =>
      if pid in s.handlers { } else { GoOk(s, pid, Decision(id, decider, approve, Reading)); }
    case OpenImport(pid, nf) =>
      if pid in s.handlers { } else { GoOk(s, pid, Import(Locking(nf))); }
    case Advance(pid, fault) =>
      if pid !in s.handlers {
      } else if s.handlers[pid].Decision? {
        DecisionStepOk(s, pid, s.handlers[pid], fault);
      } else {
        ImportStepOk(s, pid, s.handlers[pid]);
      }
    case Crash(pid) => LeaveOk(s, pid);
    case Tick(seconds) => TickOk(s, seconds);
  }
}
