/**
  Four-eyes approvals: requests, the handlers that decide and execute them one store call or upstream call at a
  time, and the numbering of configuration versions. Handlers interleave freely and may die between any two steps.
 */
module ApprovalModel {
  import opened Wrappers

  datatype Status = Pending | Rejected | Approved | Executed | Failed

  // What carrying out a request does: a catalog POST, a new configuration version, or nothing it knows how to do.
  datatype Kind = Catalog | NfConfig(nf: string) | Unknown

  datatype Approval = Approval(maker: string, kind: Kind, expiresAt: nat, status: Status,
                               decidedBy: Option<string>, decidedAt: nat)

  // Audit rows and lasting effects, in the order they happened.
  datatype Entry =
    | Verdict(id: string, approve: bool)
    | Posted(id: string)
    | VersionAdded(nf: string, number: nat, approval: Option<string>)
    | Outcome(id: string, ok: bool)

  datatype Stage =
    | Reading
    | Deciding(now: nat)
    | Auditing
    | Executing
    | Locking(nf: string)
    | Inserting(nf: string)
    | Committing(nf: string, number: nat)
    | Applying
    | Marking(ok: bool)
    | Reporting(ok: bool)

  // A decision on a request, or the import of a configuration file as a first version.
  datatype Handler = Decision(id: string, decider: string, approve: bool, stage: Stage) | Import(stage: Stage)

  datatype State = State(clock: nat, approvals: map<string, Approval>, log: seq<Entry>, locks: map<string, nat>,
                         handlers: map<nat, Handler>)

  datatype Fault = Fine | Fails | LostReply

  datatype Event =
    | Submit(id: string, maker: string, kind: Kind, ttl: nat)
    | Open(pid: nat, id: string, decider: string, approve: bool)
    | OpenImport(pid: nat, nf: string)
    | Advance(pid: nat, fault: Fault)
    | Crash(pid: nat)
    | Tick(seconds: nat)

  // ---- The log ------------------------------------------------------------------------------------

  // The approval whose execution an entry is an effect of.
  function EffectOf(e: Entry): Option<string> {
    match e
    case Posted(id) => Some(id)
    case VersionAdded(_, _, approval) => approval
    case _ => None
  }

  function Effects(log: seq<Entry>, id: string): nat {
    if log == [] then 0
    else Effects(log[..|log| - 1], id) + if EffectOf(log[|log| - 1]) == Some(id) then 1 else 0
  }

  // The version numbers of one network function, in commit order.
  function Numbers(log: seq<Entry>, nf: string): seq<nat> {
    if log == [] then []
    else
      var e := log[|log| - 1];
      Numbers(log[..|log| - 1], nf) + if e.VersionAdded? && e.nf == nf then [e.number] else []
  }

  function Max(ns: seq<nat>): nat {
    if ns == [] then 0
    else
      var rest := Max(ns[..|ns| - 1]);
      if ns[|ns| - 1] > rest then ns[|ns| - 1] else rest
  }

  // ---- The store calls ----------------------------------------------------------------------------

  /** The condition of the one conditional UPDATE; `now` is when its transaction began. */
  predicate Decidable(a: Approval, decider: string, now: nat) {
    a.status == Pending && a.expiresAt > now && a.maker != decider
  }

  function Decided(a: Approval, decider: string, approve: bool, now: nat): Approval {
    a.(status := if approve then Approved else Rejected, decidedBy := Some(decider), decidedAt := now)
  }

  function Marked(a: Approval, ok: bool): Approval {
    if a.status == Approved then a.(status := if ok then Executed else Failed) else a
  }

  // ---- The steps ----------------------------------------------------------------------------------

  function SubmitStep(s: State, id: string, maker: string, kind: Kind, ttl: nat): State {
    if id in s.approvals then s
    else s.(approvals := s.approvals[id := Approval(maker, kind, s.clock + ttl, Pending, None, 0)])
  }

  function Go(s: State, pid: nat, h: Handler): State { s.(handlers := s.handlers[pid := h]) }

  // Ends a handler; the lock of an open transaction goes with it.
  function Leave(s: State, pid: nat): State {
    s.(handlers := s.handlers - {pid}, locks := map nf | nf in s.locks && s.locks[nf] != pid :: s.locks[nf])
  }

  function Write(s: State, e: Entry): State { s.(log := s.log + [e]) }

  function ReadStep(s: State, pid: nat, h: Handler): State
    requires h.Decision?
  {
    if h.id !in s.approvals || s.approvals[h.id].maker == h.decider then Leave(s, pid)
    else Go(s, pid, h.(stage := Deciding(s.clock)))
  }

  function DecideStep(s: State, pid: nat, h: Handler, now: nat): State
    requires h.Decision?
  {
    if h.id !in s.approvals || !Decidable(s.approvals[h.id], h.decider, now) then Leave(s, pid)
    else Go(s.(approvals := s.approvals[h.id := Decided(s.approvals[h.id], h.decider, h.approve, now)]), pid,
            h.(stage := Auditing))
  }

  function AuditStep(s: State, pid: nat, h: Handler): State
    requires h.Decision?
  {
    var written := Write(s, Verdict(h.id, h.approve));
    if h.approve then Go(written, pid, h.(stage := Executing)) else Leave(written, pid)
  }

  function ExecuteStep(s: State, pid: nat, h: Handler, fault: Fault): State
    requires h.Decision?
  {
    if h.id !in s.approvals then Leave(s, pid)
    else match s.approvals[h.id].kind
      case Catalog =>
        Go(if fault.Fails? then s else Write(s, Posted(h.id)), pid, h.(stage := Marking(fault.Fine?)))
      case NfConfig(nf) => Go(s, pid, h.(stage := if fault.Fine? then Locking(nf) else Marking(false)))
      case Unknown => Go(s, pid, h.(stage := Marking(false)))
  }

  // A handler that has to wait for the lock stays where it is.
  function LockStep(s: State, pid: nat, h: Handler, nf: string): State {
    if nf in s.locks then s else Go(s.(locks := s.locks[nf := pid]), pid, h.(stage := Inserting(nf)))
  }

  // The new number is one above the highest committed one; the row is seen by others only once committed.
  function InsertStep(s: State, pid: nat, h: Handler, nf: string): State {
    Go(s, pid, h.(stage := Committing(nf, Max(Numbers(s.log, nf)) + 1)))
  }

  function CommitStep(s: State, pid: nat, h: Handler, nf: string, number: nat): State {
    var written := Write(s, VersionAdded(nf, number, if h.Decision? then Some(h.id) else None)).(locks := s.locks - {nf});
    if h.Decision? then Go(written, pid, h.(stage := Applying)) else Leave(written, pid)
  }

  function MarkStep(s: State, pid: nat, h: Handler, ok: bool): State
    requires h.Decision?
  {
    Go(if h.id in s.approvals then s.(approvals := s.approvals[h.id := Marked(s.approvals[h.id], ok)]) else s, pid,
       h.(stage := Reporting(ok)))
  }

  function AdvanceDecision(s: State, pid: nat, h: Handler, fault: Fault): State
    requires h.Decision?
  {
    match h.stage
    case Reading => ReadStep(s, pid, h)
    case Deciding(now) => DecideStep(s, pid, h, now)
    case Auditing => AuditStep(s, pid, h)
    case Executing => ExecuteStep(s, pid, h, fault)
    case Locking(nf) => LockStep(s, pid, h, nf)
    case Inserting(nf) => InsertStep(s, pid, h, nf)
    case Committing(nf, number) => CommitStep(s, pid, h, nf, number)
    case Applying => Go(s, pid, h.(stage := Marking(true)))
    case Marking(ok) => MarkStep(s, pid, h, ok)
    case Reporting(ok) => Leave(Write(s, Outcome(h.id, ok)), pid)
  }

  function AdvanceImport(s: State, pid: nat, h: Handler): State
    requires h.Import?
  {
    match h.stage
    case Locking(nf) => LockStep(s, pid, h, nf)
    case Inserting(nf) => InsertStep(s, pid, h, nf)
    case Committing(nf, number) => CommitStep(s, pid, h, nf, number)
    case _ => Leave(s, pid)
  }

  function Step(s: State, e: Event): State {
    match e
    case Submit(id, maker, kind, ttl) => SubmitStep(s, id, maker, kind, ttl)
    case Open(pid, id, decider, approve) =>
      if pid in s.handlers then s else Go(s, pid, Decision(id, decider, approve, Reading))
    case OpenImport(pid, nf) => if pid in s.handlers then s else Go(s, pid, Import(Locking(nf)))
    case Advance(pid, fault) =>
      if pid !in s.handlers then s
      else if s.handlers[pid].Decision? then AdvanceDecision(s, pid, s.handlers[pid], fault)
      else AdvanceImport(s, pid, s.handlers[pid])
    case Crash(pid) => Leave(s, pid)
    case Tick(seconds) => s.(clock := s.clock + seconds)
  }

  function Run(s: State, es: seq<Event>): State {
    if es == [] then s else Step(Run(s, es[..|es| - 1]), es[|es| - 1])
  }

  function Initial(): State { State(0, map[], [], map[], map[]) }
}
