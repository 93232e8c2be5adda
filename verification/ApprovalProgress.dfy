/** Which approved requests are ever carried out to their end. */
module ApprovalProgress {
  import opened Wrappers
  import opened ApprovalModel
  import opened ApprovalRuns
  import opened ApprovalSafety

  // ---- Locks --------------------------------------------------------------------------------------

  predicate AtLock(h: Handler, nf: string) { h.stage == Inserting(nf) || (h.stage.Committing? && h.stage.nf == nf) }

  /** Every lock belongs to a handler that is on its way to release it. */
  predicate LocksHeld(s: State) {
    forall nf | nf in s.locks :: s.locks[nf] in s.handlers && AtLock(s.handlers[s.locks[nf]], nf)
  }

  // The locks of others are as they were, and so are their holders.
  predicate LocksOfOthers(s: State, t: State, pid: nat) {
    && (forall nf | nf in t.locks && t.locks[nf] != pid :: nf in s.locks && s.locks[nf] == t.locks[nf])
    && OthersStay(s, t, pid)
  }

  predicate LocksOf(t: State, pid: nat) {
    forall nf | nf in t.locks && t.locks[nf] == pid :: pid in t.handlers && AtLock(t.handlers[pid], nf)
  }

  // A handler that is not at a lock has none, and gets none but by asking for it.
  lemma WithoutLock(s: State, pid: nat, fault: Fault)
    requires LocksHeld(s) && pid in s.handlers && !s.handlers[pid].stage.Inserting? && !s.handlers[pid].stage.Committing?
    requires !s.handlers[pid].stage.Locking?
    ensures LocksOfOthers(s, Step(s, Advance(pid, fault)), pid) && LocksOf(Step(s, Advance(pid, fault)), pid)
  {
    assert forall nf | nf in s.locks :: s.locks[nf] != pid;
    var h := s.handlers[pid];
    if h.Decision? {
      UntouchedLocks(s, pid, h, fault);
    }
  }

  lemma UntouchedLocks(s: State, pid: nat, h: Handler, fault: Fault)
    requires h.Decision? && !h.stage.Inserting? && !h.stage.Committing? && !h.stage.Locking?
    ensures AdvanceDecision(s, pid, h, fault).locks in {s.locks, Leave(s, pid).locks}
    ensures OthersStay(s, AdvanceDecision(s, pid, h, fault), pid)
  {
    match h.stage
    case Reading =>
    case Deciding(now) =>
    case Auditing =>
    case Executing =>
    case Applying =>
    case Marking(ok) =>
    case Reporting(ok) =>
  }

  predicate OthersStay(s: State, t: State, pid: nat) {
    forall q | q in s.handlers && q != pid :: q in t.handlers && t.handlers[q] == s.handlers[q]
  }

  lemma LocksHeldStep(s: State, e: Event)
    requires LocksHeld(s)
    ensures LocksHeld(Step(s, e))
  {
    if e.Advance? && e.pid in s.handlers {
      var stage := s.handlers[e.pid].stage;
      if !stage.Inserting? && !stage.Committing? && !stage.Locking? {
        WithoutLock(s, e.pid, e.fault);
      }
    }
  }

  lemma {:induction false} LocksHeldAlways(es: seq<Event>)
    ensures LocksHeld(Run(Initial(), es))
  {
    if es != [] {
      LocksHeldAlways(es[..|es| - 1]);
      LocksHeldStep(Run(Initial(), es[..|es| - 1]), es[|es| - 1]);
    }
  }

  // ---- Progress -----------------------------------------------------------------------------------

  predicate Finished(s: State, id: string) { id in s.approvals && s.approvals[id].status in {Executed, Failed} }

  predicate IsApproved(s: State, id: string) { id in s.approvals && s.approvals[id].status == Approved }

  // A handler past the decision of an approved request.
  predicate Working(s: State, pid: nat, id: string) {
    pid in s.handlers && Active(s.handlers[pid]) && s.handlers[pid].id == id && IsApproved(s, id)
  }

  predicate HasHandler(s: State, id: string) { exists pid | pid in s.handlers :: Working(s, pid, id) }

  function StepsLeft(stage: Stage): nat {
    match stage
    case Auditing => 7
    case Executing => 6
    case Locking(_) => 5
    case Inserting(_) => 4
    case Committing(_, _) => 3
    case Applying => 2
    case Marking(_) => 1
    case _ => 0
  }

  function StepsToRelease(s: State, stage: Stage): nat {
    if stage.Locking? && stage.nf in s.locks && s.locks[stage.nf] in s.handlers
    then if s.handlers[s.locks[stage.nf]].stage.Inserting? then 2 else 1
    else 0
  }

  // The handler itself, or the one it waits for.
  function Mover(s: State, pid: nat): nat
    requires pid in s.handlers
  {
    var stage := s.handlers[pid].stage;
    if stage.Locking? && stage.nf in s.locks then s.locks[stage.nf] else pid
  }

  predicate FinishedAfter(s: State, es: seq<Event>, id: string) { Finished(Run(s, es), id) }

  predicate AllFine(es: seq<Event>) { forall i | 0 <= i < |es| :: es[i].Advance? && es[i].fault.Fine? }

  lemma HolderMoves(s: State, pid: nat, id: string, nf: string)
    requires Working(s, pid, id) && LocksHeld(s) && s.handlers[pid].stage == Locking(nf) && nf in s.locks
    ensures var t := Step(s, Advance(s.locks[nf], Fine));
            && Working(t, pid, id) && t.handlers[pid] == s.handlers[pid]
            && StepsToRelease(t, Locking(nf)) < StepsToRelease(s, Locking(nf))
  {
    var holder := s.locks[nf];
    assert AtLock(s.handlers[holder], nf) && holder != pid;
  }

  lemma HandlerMoves(s: State, pid: nat, id: string)
    requires Working(s, pid, id) && HandlerOk(s, pid, s.handlers[pid]) && Mover(s, pid) == pid && LocksHeld(s)
    ensures var t := Step(s, Advance(pid, Fine));
            if s.handlers[pid].stage.Marking? then Finished(t, id)
            else Working(t, pid, id) && StepsLeft(t.handlers[pid].stage) < StepsLeft(s.handlers[pid].stage)
  {
    var h := s.handlers[pid];
    match h.stage
    case Auditing =>
    case Executing =>
    case Locking(nf) => assert nf in s.locks ==> AtLock(s.handlers[s.locks[nf]], nf);
    case Inserting(nf) =>
    case Committing(nf, number) =>
    case Applying =>
    case Marking(ok) =>
  }

  lemma {:induction false} RunCons(s: State, e: Event, es: seq<Event>)
    ensures Run(s, [e] + es) == Run(Step(s, e), es)
  {
    if es == [] {
      assert [e] + es == [e] && [e][..0] == [];
      assert Run(s, []) == s;
    } else {
      RunCons(s, e, es[..|es| - 1]);
      assert ([e] + es)[..|[e] + es| - 1] == [e] + es[..|es| - 1];
    }
  }

  /** A handler past the decision carries its request to the end when nothing more fails, locks of others included. */
  lemma {:induction false} Finishes(s: State, pid: nat, id: string) returns (es: seq<Event>)
    requires Inv(s) && LocksHeld(s) && Working(s, pid, id)
    ensures AllFine(es) && Finished(Run(s, es), id)
    decreases StepsLeft(s.handlers[pid].stage), StepsToRelease(s, s.handlers[pid].stage)
  {
    var e := Advance(Mover(s, pid), Fine);
    var t := Step(s, e);
    StepOk(s, e);
    LocksHeldStep(s, e);
    var rest := [];
    if Mover(s, pid) != pid {
      HolderMoves(s, pid, id, s.handlers[pid].stage.nf);
      rest := Finishes(t, pid, id);
    } else {
      assert HandlerOk(s, pid, s.handlers[pid]);
      HandlerMoves(s, pid, id);
      if !s.handlers[pid].stage.Marking? {
        rest := Finishes(t, pid, id);
      }
    }
    RunCons(s, e, rest);
    es := [e] + rest;
  }

  /**
    In every reachable state an approved request can still become EXECUTED or FAILED exactly when a handler that is
    past its decision remains; then advancing handlers without a fault is enough.
   */
  lemma FinishesExactly(es: seq<Event>, id: string)
    requires IsApproved(Run(Initial(), es), id)
    ensures var s := Run(Initial(), es);
            && ((exists fs :: FinishedAfter(s, fs, id)) <==> HasHandler(s, id))
            && ((exists fs :: AllFine(fs) && FinishedAfter(s, fs, id)) <==> HasHandler(s, id))
  {
    var s := Run(Initial(), es);
    Reachable(es);
    LocksHeldAlways(es);
    if HasHandler(s, id) {
      var pid :| pid in s.handlers && Working(s, pid, id);
      var fs := Finishes(s, pid, id);
      assert FinishedAfter(s, fs, id);
    } else {
      assert Orphaned(s, id) by {
        forall pid | pid in s.handlers && Active(s.handlers[pid]) ensures s.handlers[pid].id != id {
          assert !Working(s, pid, id);
        }
      }
      forall fs ensures !FinishedAfter(s, fs, id) {
        OrphanedForever(s, fs, id);
      }
    }
  }

  // ---- A handler that dies ------------------------------------------------------------------------

  function Dying(id: string, maker: string, kind: Kind, ttl: nat, decider: string): seq<Event> {
    [Submit(id, maker, kind, ttl), Open(0, id, decider, true), Advance(0, Fine), Advance(0, Fine), Crash(0)]
  }

  /** A handler that dies right after approving leaves its request APPROVED for good, whatever happens later. */
  lemma ApprovedForever(id: string, maker: string, kind: Kind, ttl: nat, decider: string, es: seq<Event>)
    requires maker != decider && ttl > 0
    ensures var s := Run(Initial(), Dying(id, maker, kind, ttl, decider));
            IsApproved(s, id) && IsApproved(Run(s, es), id) && Effects(Run(s, es).log, id) == 0
  {
    var run := Dying(id, maker, kind, ttl, decider);
    var s1 := Step(Initial(), run[0]);
    var s2 := Step(s1, run[1]);
    var s3 := Step(s2, run[2]);
    var s4 := Step(s3, run[3]);
    var s5 := Step(s4, run[4]);
    FiveSteps(Initial(), run[0], run[1], run[2], run[3], run[4]);
    assert s1.approvals == map[id := Approval(maker, kind, ttl, Pending, None, 0)];
    assert s3.handlers == map[0 := Decision(id, decider, true, Deciding(0))] && s3.approvals == s1.approvals;
    assert s5.handlers == map[] && IsApproved(s5, id) && s5.log == [];
    OrphanedForever(s5, es, id);
  }

  lemma FiveSteps(s: State, a: Event, b: Event, c: Event, d: Event, e: Event)
    ensures Run(s, [a, b, c, d, e]) == Step(Step(Step(Step(Step(s, a), b), c), d), e)
  {
    RunCons(s, a, [b, c, d, e]);
    assert [a] + [b, c, d, e] == [a, b, c, d, e];
    RunCons(Step(s, a), b, [c, d, e]);
    assert [b] + [c, d, e] == [b, c, d, e];
    RunCons(Step(Step(s, a), b), c, [d, e]);
    assert [c] + [d, e] == [c, d, e];
    RunCons(Step(Step(Step(s, a), b), c), d, [e]);
    assert [d] + [e] == [d, e];
    RunCons(Step(Step(Step(Step(s, a), b), c), d), e, []);
    assert [e] + [] == [e];
  }
}
