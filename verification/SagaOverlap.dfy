/**
  The saga without the rule that requests for one order do not overlap: any request may arrive at any time.
 */
module SagaOverlap {
  import opened Wrappers
  import opened SagaModel
  import opened SagaRuns
  import opened SagaSafety
  import opened SagaRecovery

  function ArriveAny(s: State, pid: nat, r: Request): State {
    if pid in s.live || !Valid(r) then s
    else s.(live := s.live[pid := Process(r, Recording)], started := s.started + {r})
  }

  function StepAny(s: State, e: Event): State {
    if e.Arrive? then ArriveAny(s, e.pid, e.request) else Step(s, e)
  }

  function RunAny(s: State, es: seq<Event>): State {
    if es == [] then s else StepAny(RunAny(s, es[..|es| - 1]), es[|es| - 1])
  }

  lemma {:induction false} RunAnyConcat(s: State, es: seq<Event>, fs: seq<Event>)
    ensures RunAny(s, es + fs) == RunAny(RunAny(s, es), fs)
  {
    if fs == [] {
      assert es + fs == es;
    } else {
      RunAnyConcat(s, es, fs[..|fs| - 1]);
      assert (es + fs)[..|es + fs| - 1] == es + fs[..|fs| - 1];
    }
  }

  // ---- What survives ------------------------------------------------------------------------------

  predicate OrderKept(s: State, order: string) {
    && (s.db.BssDone(order) ==> Chained(s, order))
    && (s.db.UdrDone(order) || s.db.StateOf(order) == Some(Completed) ==> Provisioned(s, order))
  }

  /** Some accepted request of the order has its rows, and some has its documents. */
  predicate Provisioned(s: State, order: string) { Chained(s, order) && Documented(s, order) }

  predicate WorkKept(s: State, p: Process) {
    var order := OrderId(p.request);
    && p.request in s.started && Valid(p.request)
    && match p.stage
       case MarkBss(ok) => ok ==> Present(s.db.rows, p.request)
       case AskUdr => Chained(s, order)
       case ProvisionUdr => Chained(s, order)
       case MarkUdr(ok) => Chained(s, order) && (ok ==> Delivered(s.db, p.request))
       case CheckUdr => Chained(s, order)
       case Closing(all) => all ==> Provisioned(s, order)
       case _ => true
  }

  predicate HistoryKept(s: State) {
    forall i | 0 <= i < |s.db.history| :: s.db.history[i].1 == Completed ==> Provisioned(s, s.db.history[i].0)
  }

  ghost predicate Kept(s: State) {
    && (forall order: string :: OrderKept(s, order)) && HistoryKept(s)
    && (forall pid | pid in s.live :: WorkKept(s, s.live[pid])) && ContentsOk(s)
  }

  lemma WorkGrows(s: State, t: State, p: Process)
    requires RowsGrow(s, t) && WorkKept(s, p)
    ensures WorkKept(t, p)
  {
    ChainedKept(s, t, OrderId(p.request));
    if Present(s.db.rows, p.request) {
      PresentGrows(s, t, p.request);
    }
  }

  lemma OrderGrows(s: State, t: State, order: string)
    requires RowsGrow(s, t) && SameOrder(s, t, order) && OrderKept(s, order)
    ensures OrderKept(t, order)
  {
    ChainedKept(s, t, order);
  }

  // What a step has to show: about its own order, its process and the state it may have closed the order with.
  ghost predicate OwnKept(s: State, t: State, pid: nat, order: string) {
    && OrderKept(t, order) && (pid in t.live ==> WorkKept(t, t.live[pid]))
    && (t.db.history == s.db.history
        || exists state :: t.db.history == s.db.history + [(order, state)] && (state == Completed ==> Provisioned(t, order)))
  }

  ghost predicate Others(s: State, t: State, pid: nat) {
    forall q | q in t.live && q != pid :: q in s.live && t.live[q] == s.live[q]
  }

  lemma KeepsAll(s: State, t: State, pid: nat, order: string)
    requires Kept(s) && Frame(s, t, order) && NewOk(s, t) && Others(s, t, pid) && OwnKept(s, t, pid, order)
    ensures Kept(t)
  {
    RowsKept(s, t);
    forall other: string ensures OrderKept(t, other) {
      if other != order {
        OrderGrows(s, t, other);
      }
    }
    forall q | q in t.live ensures WorkKept(t, t.live[q]) {
      if q != pid {
        WorkGrows(s, t, s.live[q]);
      }
    }
    forall i | 0 <= i < |t.db.history| && t.db.history[i].1 == Completed ensures Provisioned(t, t.db.history[i].0) {
      if i < |s.db.history| {
        assert t.db.history[i] == s.db.history[i];
        ChainedKept(s, t, s.db.history[i].0);
      }
    }
  }

  // A process at work, with what is kept about it.
  predicate At(s: State, pid: nat, order: string) {
    pid in s.live && order == OrderId(s.live[pid].request) && WorkKept(s, s.live[pid]) && OrderKept(s, order)
  }

  lemma GoKeeps(s: State, pid: nat, order: string, stage: Stage)
    requires At(s, pid, order) && WorkKept(s, s.live[pid].(stage := stage))
    ensures Apart(s, Go(s, pid, stage), pid, order) && OwnKept(s, Go(s, pid, stage), pid, order)
  {
    var t := Go(s, pid, stage);
    OrderGrows(s, t, order);
    WorkGrows(s, t, t.live[pid]);
  }

  lemma ReadKeeps(s: State, pid: nat, order: string, fault: Fault)
    requires At(s, pid, order) && Reading(s.live[pid].stage)
    ensures Apart(s, AdvanceStep(s, pid, fault), pid, order) && OwnKept(s, AdvanceStep(s, pid, fault), pid, order)
  {
    var stage := AdvanceStep(s, pid, fault).live[pid].stage;
    assert WorkKept(s, s.live[pid].(stage := stage));
    GoKeeps(s, pid, order, stage);
  }

  lemma RecordKeeps(s: State, pid: nat, order: string)
    requires At(s, pid, order) && s.live[pid].stage.Recording?
    ensures OwnKept(s, Commit(s, pid, AskBss, s.db.WithOrder(order)), pid, order)
  {
    var t := Commit(s, pid, AskBss, s.db.WithOrder(order));
    assert t.db.BssDone(order) == s.db.BssDone(order) && t.db.UdrDone(order) == s.db.UdrDone(order);
    ChainedKept(s, t, order);
  }

  lemma WriteKeeps(s: State, pid: nat, order: string, stage: Stage)
    requires At(s, pid, order) && stage.MarkBss?
    ensures var t := Commit(s, pid, stage, s.db.WithRows(s.live[pid].request));
            Apart(s, t, pid, order) && OwnKept(s, t, pid, order)
  {
    var t := Commit(s, pid, stage, s.db.WithRows(s.live[pid].request));
    BssApart(s, pid, order, stage);
    WithRowsGrows(s.db, s.live[pid].request);
    OrderGrows(s, t, order);
  }

  lemma BssKeeps(s: State, pid: nat, order: string, fault: Fault)
    requires At(s, pid, order) && s.live[pid].stage.ProvisionBss?
    ensures Apart(s, BssStep(s, pid, fault), pid, order) && OwnKept(s, BssStep(s, pid, fault), pid, order)
  {
    if fault.Fails? || !s.db.Takes(s.live[pid].request) {
      GoKeeps(s, pid, order, MarkBss(false));
    } else {
      WriteKeeps(s, pid, order, MarkBss(fault.Fine?));
    }
  }

  lemma OrderFollows(s: State, t: State, order: string)
    requires RowsGrow(s, t) && OrderKept(s, order)
    requires t.db.BssDone(order) ==> s.db.BssDone(order) || Chained(s, order)
    requires t.db.UdrDone(order) ==> s.db.UdrDone(order) || Provisioned(s, order)
    requires t.db.StateOf(order) == Some(Completed) ==> s.db.StateOf(order) == Some(Completed) || Provisioned(s, order)
    ensures OrderKept(t, order)
  {
    ChainedKept(s, t, order);
  }

  lemma StatusesAfter(db: Tables, node: Node, order: string, ok: bool)
    ensures var after := db.WithTask(TaskId(node, order), ok);
            && after.StateOf(order) == db.StateOf(order)
            && (after.BssDone(order) ==> db.BssDone(order) || (ok && node.BssCharging?))
            && (after.UdrDone(order) ==> db.UdrDone(order) || (ok && node.UdrSubscription?))
  {
  }

  lemma MarkKeeps(s: State, pid: nat, order: string, stage: Stage, node: Node, ok: bool)
    requires At(s, pid, order) && (stage == AskBssAgain || stage == CheckBss || stage == MarkBss(false))
    requires ok && node.BssCharging? ==> Chained(s, order)
    requires ok && node.UdrSubscription? ==> Provisioned(s, order)
    ensures OwnKept(s, Commit(s, pid, stage, s.db.WithTask(TaskId(node, order), ok)), pid, order)
  {
    var t := Commit(s, pid, stage, s.db.WithTask(TaskId(node, order), ok));
    StatusesAfter(s.db, node, order, ok);
    OrderFollows(s, t, order);
  }

  lemma MarkBssKeeps(s: State, pid: nat, order: string, fault: Fault)
    requires At(s, pid, order) && s.live[pid].stage.MarkBss?
    ensures var t := MarkBssStep(s, pid, s.live[pid].stage.ok, fault);
            Apart(s, t, pid, order) && OwnKept(s, t, pid, order)
  {
    var ok := s.live[pid].stage.ok;
    if ok && fault.Fails? {
      GoKeeps(s, pid, order, MarkBss(false));
    } else {
      var t := MarkBssStep(s, pid, ok, fault);
      TaskApart(s, pid, order, t.live[pid].stage, BssCharging, ok);
      MarkKeeps(s, pid, order, t.live[pid].stage, BssCharging, ok);
    }
  }

  lemma DeliverKeeps(s: State, pid: nat, order: string, ok: bool, d: Documents)
    requires At(s, pid, order) && s.live[pid].stage.ProvisionUdr?
    requires BuildDocuments(s.db.setting, s.live[pid].request) == Some(d)
    ensures OwnKept(s, Commit(s, pid, MarkUdr(ok), s.db.WithDocuments(d)), pid, order)
  {
    var t := Commit(s, pid, MarkUdr(ok), s.db.WithDocuments(d));
    SupiOf(s.db.setting, s.live[pid].request, d);
    OrderGrows(s, t, order);
    ChainedKept(s, t, order);
  }

  lemma UdrKeeps(s: State, pid: nat, order: string, fault: Fault)
    requires At(s, pid, order) && s.live[pid].stage.ProvisionUdr?
    ensures Apart(s, UdrStep(s, pid, fault), pid, order) && OwnKept(s, UdrStep(s, pid, fault), pid, order)
  {
    var d := BuildDocuments(s.db.setting, s.live[pid].request);
    if d.None? || fault.Fails? {
      GoKeeps(s, pid, order, MarkUdr(false));
    } else {
      DeliverKeeps(s, pid, order, fault.Fine?, d.value);
      UdrApart(s, pid, order, MarkUdr(fault.Fine?), d.value);
    }
  }

  lemma MarkUdrKeeps(s: State, pid: nat, order: string)
    requires At(s, pid, order) && s.live[pid].stage.MarkUdr?
    ensures OwnKept(s, Commit(s, pid, CheckBss, s.db.WithTask(TaskId(UdrSubscription, order), s.live[pid].stage.ok)), pid, order)
  {
    MarkKeeps(s, pid, order, CheckBss, UdrSubscription, s.live[pid].stage.ok);
  }

  lemma StatusesClosed(db: Tables, order: string, state: OrderState)
    ensures var after := db.WithState(order, state);
            && after.BssDone(order) == db.BssDone(order) && after.UdrDone(order) == db.UdrDone(order)
            && (after.StateOf(order) == Some(Completed) ==> state == Completed)
            && after.history == db.history + [(order, state)]
  {
  }

  lemma CloseKeeps(s: State, pid: nat, order: string, all: bool)
    requires At(s, pid, order) && s.live[pid].stage == Closing(all)
    ensures OwnKept(s, CloseStep(s, pid, all), pid, order)
  {
    var t := CloseStep(s, pid, all);
    StatusesClosed(s.db, order, if all then Completed else Incomplete);
    OrderFollows(s, t, order);
    ChainedKept(s, t, order);
  }

  lemma AdvanceKeeps(s: State, pid: nat, order: string, fault: Fault)
    requires At(s, pid, order)
    ensures Apart(s, AdvanceStep(s, pid, fault), pid, order) && OwnKept(s, AdvanceStep(s, pid, fault), pid, order)
  {
    match s.live[pid].stage
    case Recording => RecordApart(s, pid, order); RecordKeeps(s, pid, order);
    case ProvisionBss => BssKeeps(s, pid, order, fault);
    case MarkBss(ok) => MarkBssKeeps(s, pid, order, fault);
    case ProvisionUdr => UdrKeeps(s, pid, order, fault);
    case MarkUdr(ok) => TaskApart(s, pid, order, CheckBss, UdrSubscription, ok); MarkUdrKeeps(s, pid, order);
    case Closing(all) => CloseApart(s, pid, order, all); CloseKeeps(s, pid, order, all);
    case _ => ReadKeeps(s, pid, order, fault);
  }

  // Steps that leave every order, and what is stored for it, as it is.
  lemma IdleKeeps(s: State, t: State, pid: nat)
    requires Kept(s) && RowsGrow(s, t) && NewOk(s, t) && Others(s, t, pid)
    requires pid in t.live ==> WorkKept(t, t.live[pid])
    requires (forall order: string :: SameOrder(s, t, order)) && t.db.history == s.db.history
    ensures Kept(t)
  {
    OrderGrows(s, t, "");
    KeepsAll(s, t, pid, "");
  }

  lemma StepKeeps(s: State, e: Event)
    requires Kept(s)
    ensures Kept(StepAny(s, e)) && RowsGrow(s, StepAny(s, e))
  {
    var t := StepAny(s, e);
    match e
    case Arrive(pid, r) => if t != s { IdleKeeps(s, t, pid); }
    case Advance(pid, fault) =>
      if pid in s.live {
        var order := OrderId(s.live[pid].request);
        AdvanceKeeps(s, pid, order, fault);
        KeepsAll(s, t, pid, order);
      }
    case Crash(pid) => IdleKeeps(s, t, pid);
    case Move(bucket, delta) =>
      MoveKeeps(s, bucket, delta);
      forall q | q in t.live ensures WorkKept(t, t.live[q]) {
        WorkGrows(s, t, s.live[q]);
      }
      IdleKeeps(s, t, 0);
  }

  lemma {:induction false} RunKeeps(s: State, es: seq<Event>)
    requires Kept(s)
    ensures Kept(RunAny(s, es)) && RowsGrow(s, RunAny(s, es))
  {
    if es != [] {
      RunKeeps(s, es[..|es| - 1]);
      StepKeeps(RunAny(s, es[..|es| - 1]), es[|es| - 1]);
    }
  }

  /**
    Without the rule nothing provisioned is lost or overwritten, and an order that was ever closed as completed, or
    counts as completed, has the whole chain of one of its requests and the documents of one.
   */
  lemma OverlapKeeps(setting: Setting, es: seq<Event>, fs: seq<Event>, order: string)
    ensures var s, t := RunAny(Initial(setting), es), RunAny(Initial(setting), es + fs);
            && RowsGrow(s, t) && ContentsOk(s)
            && (s.db.StateOf(order) == Some(Completed) || (order, Completed) in s.db.history ==> Provisioned(t, order))
  {
    RunKeeps(Initial(setting), es);
    RunAnyConcat(Initial(setting), es, fs);
    var s, t := RunAny(Initial(setting), es), RunAny(Initial(setting), es + fs);
    RunKeeps(s, fs);
    assert OrderKept(s, order);
    ChainedKept(s, t, order);
  }

  // ---- When finished tasks stay finished ----------------------------------------------------------

  /** A process that is about to write to a node, or to record the outcome of a write that may yet count as failed. */
  predicate Dangerous(stage: Stage) {
    stage.ProvisionBss? || stage.MarkBss? || stage.ProvisionUdr? || stage == MarkUdr(false)
  }

  predicate Endangered(s: State, order: string) {
    exists pid | pid in s.live :: OrderId(s.live[pid].request) == order && Dangerous(s.live[pid].stage)
  }

  ghost predicate StayDone(s: State, order: string) { forall es: seq<Event> :: RunAny(s, es).db.BothDone(order) }

  lemma SafeAdvance(s: State, pid: nat, fault: Fault)
    requires pid in s.live && s.db.BothDone(OrderId(s.live[pid].request)) && !Dangerous(s.live[pid].stage)
    ensures var t := AdvanceStep(s, pid, fault);
            && t.db.BothDone(OrderId(s.live[pid].request))
            && (pid in t.live ==> !Dangerous(t.live[pid].stage)) && t.live - {pid} == s.live - {pid}
  {
  }

  lemma OtherTask(db: Tables, id: TaskId, ok: bool, order: string)
    requires id.order != order
    ensures db.WithTask(id, ok).BothDone(order) == db.BothDone(order)
  {
  }

  lemma OtherOrder(db: Tables, other: string, order: string, state: OrderState)
    requires other != order
    ensures db.WithOrder(other).BothDone(order) == db.BothDone(order)
    ensures db.WithState(other, state).BothDone(order) == db.BothDone(order)
  {
  }

  lemma OtherAdvance(s: State, pid: nat, fault: Fault, order: string)
    requires pid in s.live && OrderId(s.live[pid].request) != order
    ensures AdvanceStep(s, pid, fault).db.BothDone(order) == s.db.BothDone(order)
  {
    var other := OrderId(s.live[pid].request);
    match s.live[pid].stage
    case Recording => OtherOrder(s.db, other, order, Completed);
    case ProvisionBss =>
    case MarkBss(ok) => OtherTask(s.db, TaskId(BssCharging, other), ok, order);
    case ProvisionUdr =>
    case MarkUdr(ok) => OtherTask(s.db, TaskId(UdrSubscription, other), ok, order);
    case Closing(all) => OtherOrder(s.db, other, order, if all then Completed else Incomplete);
    case _ =>
  }

  lemma OnlyItself(s: State, pid: nat, fault: Fault)
    requires pid in s.live
    ensures AdvanceStep(s, pid, fault).live - {pid} == s.live - {pid}
  {
  }

  lemma SafeStep(s: State, e: Event, order: string)
    requires s.db.BothDone(order) && !Endangered(s, order)
    ensures StepAny(s, e).db.BothDone(order) && !Endangered(StepAny(s, e), order)
  {
    var t := StepAny(s, e);
    if e.Advance? && e.pid in s.live {
      SameRequests(s, e.pid, e.fault);
      if OrderId(s.live[e.pid].request) == order {
        SafeAdvance(s, e.pid, e.fault);
      } else {
        OtherAdvance(s, e.pid, e.fault, order);
        OnlyItself(s, e.pid, e.fault);
      }
      forall pid | pid in t.live && OrderId(t.live[pid].request) == order ensures !Dangerous(t.live[pid].stage) {
        if pid != e.pid {
          assert pid in t.live - {e.pid} && t.live[pid] == (t.live - {e.pid})[pid] == (s.live - {e.pid})[pid];
        }
      }
    }
  }

  lemma {:induction false} SafeRun(s: State, es: seq<Event>, order: string)
    requires s.db.BothDone(order) && !Endangered(s, order)
    ensures RunAny(s, es).db.BothDone(order) && !Endangered(RunAny(s, es), order)
  {
    if es != [] {
      SafeRun(s, es[..|es| - 1], order);
      SafeStep(RunAny(s, es[..|es| - 1]), es[|es| - 1], order);
    }
  }

  lemma TwoSteps(s: State, d: Event, e: Event)
    ensures RunAny(s, [d, e]) == StepAny(StepAny(s, d), e)
  {
    assert [d, e][..1] == [d] && [d][..0] == [];
    assert RunAny(s, []) == s;
  }

  lemma Undone(s: State, pid: nat, order: string)
    requires pid in s.live && OrderId(s.live[pid].request) == order && Dangerous(s.live[pid].stage)
    ensures !RunAny(s, [Advance(pid, Fails), Advance(pid, Fine)]).db.BothDone(order)
  {
    TwoSteps(s, Advance(pid, Fails), Advance(pid, Fine));
  }

  /**
    From any state in which both tasks of an order are done they stay done, whatever arrives, fails or overlaps,
    exactly when no process of the order is between finding a task open and having recorded it.
   */
  lemma StayDoneExactly(s: State, order: string)
    requires s.db.BothDone(order)
    ensures StayDone(s, order) <==> !Endangered(s, order)
  {
    if Endangered(s, order) {
      var pid :| pid in s.live && OrderId(s.live[pid].request) == order && Dangerous(s.live[pid].stage);
      Undone(s, pid, order);
    } else {
      forall es: seq<Event> ensures RunAny(s, es).db.BothDone(order) {
        SafeRun(s, es, order);
      }
    }
  }

  // ---- A run that undoes a completed order ---------------------------------------------------------

  lemma {:induction false} WithoutArrivals(s: State, es: seq<Event>)
    requires forall i | 0 <= i < |es| :: !es[i].Arrive?
    ensures RunAny(s, es) == Run(s, es)
  {
    if es != [] {
      WithoutArrivals(s, es[..|es| - 1]);
    }
  }

  // Two requests of one order; both find the BSS task open, the first completes the order.
  function Overlapping(q: Request, r: Request): seq<Event> {
    [Arrive(0, r), Arrive(1, q)] + (Advances(0, 2) + (Advances(1, 2) + Advances(0, 9)))
  }

  // The order is open, with nothing written for it yet.
  predicate OpenOrder(a: Tables, b: Tables, order: string) {
    b.setting == a.setting && b.rows == a.rows && !b.BssDone(order) && !b.UdrDone(order)
  }

  lemma OneAsks(s: State, pid: nat, order: string)
    requires pid in s.live && s.live[pid].stage.Recording? && OrderId(s.live[pid].request) == order
    requires OpenOrder(s.db, s.db, order)
    ensures var t := Run(s, Advances(pid, 2));
            && Recorded(t.db, order) && OpenOrder(s.db, t.db, order)
            && t.live == s.live[pid := Process(s.live[pid].request, ProvisionBss)]
  {
    AsksTwice(s, pid, order);
    RecordedBy(s.db, order);
  }

  // Both requests have got to this stage.
  predicate Stand(live: map<nat, Process>, q: Request, r: Request, stage: Stage) {
    0 in live && live[0] == Process(r, stage) && 1 in live && live[1] == Process(q, stage)
  }

  lemma BothAsk(s: State, q: Request, r: Request)
    requires Stand(s.live, q, r, Recording) && OrderId(q) == OrderId(r) && OpenOrder(s.db, s.db, OrderId(r))
    ensures var t := Run(Run(s, Advances(0, 2)), Advances(1, 2));
            && Recorded(t.db, OrderId(r)) && OpenOrder(s.db, t.db, OrderId(r))
            && Stand(t.live, q, r, ProvisionBss)
  {
    OneAsks(s, 0, OrderId(r));
    OneAsks(Run(s, Advances(0, 2)), 1, OrderId(r));
  }

  lemma FirstFinishes(s: State, pid: nat, r: Request)
    requires pid in s.live && s.live[pid] == Process(r, ProvisionBss)
    requires Recorded(s.db, OrderId(r)) && OpenOrder(s.db, s.db, OrderId(r))
    requires s.db.Takes(r) && BuildDocuments(s.db.setting, r).Some?
    ensures var t := Run(s, Advances(pid, 9)); Finished(t, OrderId(r)) && t.live == s.live - {pid}
  {
    AdvancesGive(s, pid, 9);
    OpenLeaves(s.db, r);
  }

  lemma OverlappingIs(setting: Setting, q: Request, r: Request)
    requires Valid(q) && Valid(r)
    ensures var s := Initial(setting).(live := map[0 := Process(r, Recording), 1 := Process(q, Recording)], started := {q, r});
            RunAny(Initial(setting), Overlapping(q, r))
            == Run(Run(Run(s, Advances(0, 2)), Advances(1, 2)), Advances(0, 9))
  {
    var s0, head, tail := Initial(setting), [Arrive(0, r), Arrive(1, q)], Advances(1, 2) + Advances(0, 9);
    var s := s0.(live := map[0 := Process(r, Recording), 1 := Process(q, Recording)], started := {q, r});
    TwoSteps(s0, head[0], head[1]);
    assert ArriveAny(s0, 0, r) == s0.(live := map[0 := Process(r, Recording)], started := {r});
    assert RunAny(s0, head) == s;
    RunAnyConcat(s0, head, Advances(0, 2) + tail);
    WithoutArrivals(s, Advances(0, 2) + tail);
    RunConcat(s, Advances(0, 2), tail);
    RunConcat(Run(s, Advances(0, 2)), Advances(1, 2), Advances(0, 9));
  }

  lemma FirstCompletes(setting: Setting, q: Request, r: Request)
    requires Valid(q) && Valid(r) && OrderId(q) == OrderId(r)
    requires Admits(setting, map[], r) && BuildDocuments(setting, r).Some?
    ensures var t := RunAny(Initial(setting), Overlapping(q, r));
            Finished(t, OrderId(r)) && 1 in t.live && OrderId(t.live[1].request) == OrderId(r) && t.live[1].stage.ProvisionBss?
  {
    var s := Initial(setting).(live := map[0 := Process(r, Recording), 1 := Process(q, Recording)], started := {q, r});
    OverlappingIs(setting, q, r);
    BothAsk(s, q, r);
    var t := Run(Run(s, Advances(0, 2)), Advances(1, 2));
    StillTaken(s.db, t.db, r);
    FirstFinishes(t, 0, r);
  }

  lemma SlowerFails(s: State, pid: nat, order: string)
    requires pid in s.live && OrderId(s.live[pid].request) == order && s.live[pid].stage.ProvisionBss? && s.db.BssDone(order)
    ensures var t := RunAny(s, [Advance(pid, Fails), Advance(pid, Fine)]);
            t.db.StateOf(order) == s.db.StateOf(order) && t.db.StatusOf(TaskId(BssCharging, order)) == Some(Failed)
  {
    TwoSteps(s, Advance(pid, Fails), Advance(pid, Fine));
    var u := AdvanceStep(s, pid, Fails);
    assert u == Go(s, pid, MarkBss(false));
    TaskStatuses(s.db, BssCharging, order, false);
  }

  /**
    A request that the charging database and the UDR take, overlapped by any valid one of its order: the slower one
    records its failure over the success of the faster one, and the completed order is left with a failed task.
   */
  lemma OverlapUndoes(setting: Setting, q: Request, r: Request)
    requires Valid(q) && Valid(r) && OrderId(q) == OrderId(r)
    requires Admits(setting, map[], r) && BuildDocuments(setting, r).Some?
    ensures var t := RunAny(Initial(setting), Overlapping(q, r) + [Advance(1, Fails), Advance(1, Fine)]);
            t.db.StateOf(OrderId(r)) == Some(Completed)
            && t.db.StatusOf(TaskId(BssCharging, OrderId(r))) == Some(Failed)
  {
    FirstCompletes(setting, q, r);
    RunAnyConcat(Initial(setting), Overlapping(q, r), [Advance(1, Fails), Advance(1, Fine)]);
    SlowerFails(RunAny(Initial(setting), Overlapping(q, r)), 1, OrderId(r));
  }

  /** Where requests for one order do not overlap no such process exists. */
  lemma GatedIsSafe(setting: Setting, es: seq<Event>, order: string)
    requires Run(Initial(setting), es).db.BothDone(order)
    ensures !Endangered(Run(Initial(setting), es), order)
  {
    Reachable(setting, es);
    var s := Run(Initial(setting), es);
    forall pid | pid in s.live && OrderId(s.live[pid].request) == order ensures !Dangerous(s.live[pid].stage) {
      assert ProcessOk(s, s.live[pid]);
    }
  }
}
