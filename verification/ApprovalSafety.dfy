/** What the approval machine guarantees over whole runs. */
module ApprovalSafety {
  import opened Wrappers
  import opened ApprovalModel
  import opened ApprovalRuns

  /** The way a request may move in any number of steps. */
  predicate Later(a: Approval, b: Approval) {
    && b.maker == a.maker && b.kind == a.kind && b.expiresAt == a.expiresAt
    && (a.status != Pending ==> b.decidedBy == a.decidedBy && b.decidedAt == a.decidedAt && b.status != Pending)
    && (a.status in {Rejected, Executed, Failed} ==> b.status == a.status)
    && (a.status == Approved ==> b.status in {Approved, Executed, Failed})
  }

  // Where no request is forgotten and none moves back.
  predicate Forward(s: State, t: State) {
    Grows(s, t) && forall id | id in s.approvals :: id in t.approvals && Later(s.approvals[id], t.approvals[id])
  }

  lemma {:induction false} RunForward(s: State, es: seq<Event>)
    requires Inv(s)
    ensures Inv(Run(s, es)) && Forward(s, Run(s, es))
  {
    if es != [] {
      var front := es[..|es| - 1];
      RunForward(s, front);
      StepOk(Run(s, front), es[|es| - 1]);
    }
  }

  lemma Reachable(es: seq<Event>)
    ensures Inv(Run(Initial(), es))
  {
    RunForward(Initial(), es);
  }

  /**
    In every interleaving of makers, approvers, the clock and crashes: a decided request was decided before it
    expired and by somebody else than its maker; whatever was done for it was done once, after it was approved and
    after the audit row that says so; and an EXECUTED one was done.
   */
  lemma FourEyes(es: seq<Event>, id: string)
    ensures var s := Run(Initial(), es);
            && (id in s.approvals && s.approvals[id].status != Pending ==>
                  exists decider :: s.approvals[id].decidedBy == Some(decider) && decider != s.approvals[id].maker
                                    && s.approvals[id].decidedAt < s.approvals[id].expiresAt)
            && Effects(s.log, id) <= 1
            && (Effects(s.log, id) == 1 ==>
                  id in s.approvals && s.approvals[id].status in {Approved, Executed, Failed})
            && (id in s.approvals && s.approvals[id].status == Executed ==> Effects(s.log, id) == 1)
            && forall i | 0 <= i < |s.log| && EffectOf(s.log[i]) == Some(id) :: Verdict(id, true) in s.log[..i]
  {
    Reachable(es);
    assert EffectsOk(Run(Initial(), es), id);
  }

  /** A decision is final: who made it and when never change, and the status only moves forward. */
  lemma DecidedOnce(es: seq<Event>, fs: seq<Event>, id: string)
    requires id in Run(Initial(), es).approvals
    ensures var s, t := Run(Initial(), es), Run(Run(Initial(), es), fs);
            id in t.approvals && Later(s.approvals[id], t.approvals[id])
  {
    Reachable(es);
    RunForward(Run(Initial(), es), fs);
  }

  /** Configuration versions of every network function are exactly 1 to n, whoever added them. */
  lemma VersionsExact(es: seq<Event>, nf: string)
    ensures var numbers := Numbers(Run(Initial(), es).log, nf);
            forall i | 0 <= i < |numbers| :: numbers[i] == i + 1
  {
    Reachable(es);
    assert Numbered(Run(Initial(), es).log, nf);
  }

  // ---- A handler that dies half-way ---------------------------------------------------------------

  // Decided, and nobody is carrying it out.
  predicate Orphaned(s: State, id: string) {
    && id in s.approvals && s.approvals[id].status != Pending
    && forall pid | pid in s.handlers && Active(s.handlers[pid]) :: s.handlers[pid].id != id
  }

  predicate Frozen(s: State, t: State, id: string) {
    Orphaned(t, id) && id in s.approvals && t.approvals[id] == s.approvals[id] && Effects(t.log, id) == Effects(s.log, id)
  }

  // A handler of another request may do what it likes.
  predicate Elsewhere(s: State, t: State, pid: nat, id: string) {
    && id in s.approvals && id in t.approvals && t.approvals[id] == s.approvals[id]
    && Effects(t.log, id) == Effects(s.log, id)
    && (forall q | q in t.handlers && q != pid :: q in s.handlers && t.handlers[q] == s.handlers[q])
    && (pid in t.handlers && Active(t.handlers[pid]) ==> t.handlers[pid].id != id)
  }

  lemma RestElsewhere(s: State, pid: nat, h: Handler, fault: Fault, id: string)
    requires h.Decision? && Orphaned(s, id) && (Active(h) ==> h.id != id)
    requires h.stage.Auditing? || h.stage.Locking? || h.stage.Inserting? || h.stage.Applying? || h.stage.Reporting?
    ensures Elsewhere(s, AdvanceDecision(s, pid, h, fault), pid, id)
  {
    if h.stage.Auditing? {
      AppendEntry(s.log, Verdict(h.id, h.approve));
    } else if h.stage.Reporting? {
      AppendEntry(s.log, Outcome(h.id, h.stage.ok));
    }
  }

  lemma FrozenDecision(s: State, pid: nat, h: Handler, fault: Fault, id: string)
    requires pid in s.handlers && s.handlers[pid] == h && h.Decision? && Orphaned(s, id)
    ensures Frozen(s, AdvanceDecision(s, pid, h, fault), id)
  {
    if h.stage.Reading? || h.stage.Deciding? {
    } else if h.stage.Executing? || h.stage.Committing? || h.stage.Marking? {
    } else {
      RestElsewhere(s, pid, h, fault, id);
    }
  }

  lemma FrozenStep(s: State, e: Event, id: string)
    requires Orphaned(s, id)
    ensures Frozen(s, Step(s, e), id)
  {
    match e
    case Advance(pid, fault) =>
      if pid in s.handlers && s.handlers[pid].Decision? {
        FrozenDecision(s, pid, s.handlers[pid], fault, id);
      } else if pid in s.handlers {
      }
    case _ =>
  }

  /**
    The price of executing at most once: a request whose handler died after the decision is never touched again. An
    approved one stays APPROVED for good, and nothing more is ever done for it.
   */
  lemma {:induction false} OrphanedForever(s: State, es: seq<Event>, id: string)
    requires Orphaned(s, id)
    ensures Frozen(s, Run(s, es), id)
  {
    if es != [] {
      OrphanedForever(s, es[..|es| - 1], id);
      FrozenStep(Run(s, es[..|es| - 1]), es[|es| - 1], id);
    }
  }
}
