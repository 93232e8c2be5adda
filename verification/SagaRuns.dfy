/**
  Every run of the provisioning saga: requests arrive, advance one commit or one read at a time in any
  interleaving, fail, crash and are sent again, while balances move. Requests for one order do not overlap.
 */
module SagaRuns {
  import opened Wrappers
  import opened SagaModel

  datatype Stage =
    | Recording
    | AskBss
    | ProvisionBss
    | MarkBss(ok: bool)
    | AskBssAgain
    | AskUdr
    | ProvisionUdr
    | MarkUdr(ok: bool)
    | CheckBss
    | CheckUdr
    | Closing(all: bool)

  datatype Process = Process(request: Request, stage: Stage)

  // `started` only records which requests were accepted; no step reads it.
  datatype State = State(db: Tables, live: map<nat, Process>, started: set<Request>)

  // LostReply is a write that took effect although its caller saw it fail.
  datatype Fault = Fine | Fails | LostReply

  datatype Event =
    | Arrive(pid: nat, request: Request)
    | Advance(pid: nat, fault: Fault)
    | Crash(pid: nat)
    | Move(bucket: string, delta: int)

  predicate Busy(s: State, order: string) {
    exists pid | pid in s.live :: OrderId(s.live[pid].request) == order
  }

  /** A request that does not validate is rejected before anything is written. */
  function ArriveStep(s: State, pid: nat, r: Request): State {
    if pid in s.live || Busy(s, OrderId(r)) || !Valid(r) then s
    else s.(live := s.live[pid := Process(r, Recording)], started := s.started + {r})
  }

  function Go(s: State, pid: nat, stage: Stage): State
    requires pid in s.live
  {
    s.(live := s.live[pid := s.live[pid].(stage := stage)])
  }

  function Commit(s: State, pid: nat, stage: Stage, db: Tables): State
    requires pid in s.live
  {
    Go(s, pid, stage).(db := db)
  }

  // The write of the BSS rows, inside a try block: a failure or a refusal is recorded as a failed task.
  function BssStep(s: State, pid: nat, fault: Fault): State
    requires pid in s.live
  {
    var r := s.live[pid].request;
    if fault.Fails? || !s.db.Takes(r) then Go(s, pid, MarkBss(false))
    else Commit(s, pid, MarkBss(fault.Fine?), s.db.WithRows(r))
  }

  // Recording success is inside the same try block; recording failure is not, so its failure is a crash.
  function MarkBssStep(s: State, pid: nat, ok: bool, fault: Fault): State
    requires pid in s.live
  {
    var id := TaskId(BssCharging, OrderId(s.live[pid].request));
    if !ok || fault.Fine? then Commit(s, pid, AskBssAgain, s.db.WithTask(id, ok))
    else Commit(s, pid, MarkBss(false), if fault.LostReply? then s.db.WithTask(id, true) else s.db)
  }

  function UdrStep(s: State, pid: nat, fault: Fault): State
    requires pid in s.live
  {
    match BuildDocuments(s.db.setting, s.live[pid].request)
    case None => Go(s, pid, MarkUdr(false))
    case Some(d) => Commit(s, pid, MarkUdr(fault.Fine?), if fault.Fails? then s.db else s.db.WithDocuments(d))
  }

  function CloseStep(s: State, pid: nat, all: bool): State
    requires pid in s.live
  {
    s.(db := s.db.WithState(OrderId(s.live[pid].request), if all then Completed else Incomplete), live := s.live - {pid})
  }

  function AdvanceStep(s: State, pid: nat, fault: Fault): State
    requires pid in s.live
  {
    var order := OrderId(s.live[pid].request);
    match s.live[pid].stage
    case Recording => Commit(s, pid, AskBss, s.db.WithOrder(order))
    case AskBss => Go(s, pid, if s.db.BssDone(order) then AskBssAgain else ProvisionBss)
    case ProvisionBss => BssStep(s, pid, fault)
    case MarkBss(ok) => MarkBssStep(s, pid, ok, fault)
    case AskBssAgain => Go(s, pid, if s.db.BssDone(order) then AskUdr else CheckBss)
    case AskUdr => Go(s, pid, if s.db.UdrDone(order) then CheckBss else ProvisionUdr)
    case ProvisionUdr => UdrStep(s, pid, fault)
    case MarkUdr(ok) => Commit(s, pid, CheckBss, s.db.WithTask(TaskId(UdrSubscription, order), ok))
    case CheckBss => Go(s, pid, if s.db.BssDone(order) then CheckUdr else Closing(false))
    case CheckUdr => Go(s, pid, Closing(s.db.UdrDone(order)))
    case Closing(all) => CloseStep(s, pid, all)
  }

  // What the balance store does to a bucket.
  function MoveStep(s: State, bucket: string, delta: int): State {
    var key := RowKey(Buckets, bucket);
    if key !in s.db.rows then s
    else s.(db := s.db.(rows := s.db.rows[key := s.db.rows[key].(amount := s.db.rows[key].amount + delta)]))
  }

  function Step(s: State, e: Event): State {
    match e
    case Arrive(pid, r) => ArriveStep(s, pid, r)
    case Advance(pid, fault) => if pid in s.live then AdvanceStep(s, pid, fault) else s
    case Crash(pid) => s.(live := s.live - {pid})
    case Move(bucket, delta) => MoveStep(s, bucket, delta)
  }

  function Run(s: State, es: seq<Event>): State {
    if es == [] then s else Step(Run(s, es[..|es| - 1]), es[|es| - 1])
  }

  function Initial(setting: Setting): State {
    State(Tables(setting, map[], [], map[], map[], map[]), map[], {})
  }

  // ---- The invariant ------------------------------------------------------------------------------

  predicate Present(rows: Rows, r: Request) { RowsOf(r).Keys <= rows.Keys }

  /** Some accepted request of the order has its whole chain in the charging database. */
  predicate Chained(s: State, order: string) {
    exists r | r in s.started :: Valid(r) && OrderId(r) == order && Present(s.db.rows, r)
  }

  predicate Delivered(db: Tables, r: Request) { BuildDocuments(db.setting, r).Some? && r.supi in db.docs }

  /** Some accepted request of the order has its subscriber's documents on the UDR. */
  predicate Documented(s: State, order: string) {
    exists r | r in s.started :: Valid(r) && OrderId(r) == order && Delivered(s.db, r)
  }

  predicate OrderOk(s: State, order: string) {
    && (s.db.UdrDone(order) ==> s.db.BssDone(order) && Documented(s, order))
    && (s.db.BssDone(order) ==> Chained(s, order))
    && (s.db.StateOf(order) == Some(Completed) ==> s.db.BothDone(order))
  }

  predicate HistoryOk(s: State) {
    forall i | 0 <= i < |s.db.history| :: s.db.history[i].1 == Completed ==> s.db.BothDone(s.db.history[i].0)
  }

  predicate ProcessOk(s: State, p: Process) {
    var order := OrderId(p.request);
    && p.request in s.started && Valid(p.request)
    && (!p.stage.Recording? ==>
          && s.db.StateOf(order) == Some(InProgress)
          && s.db.StatusOf(TaskId(BssCharging, order)).Some? && s.db.StatusOf(TaskId(UdrSubscription, order)).Some?)
    && match p.stage
       case ProvisionBss => !s.db.UdrDone(order)
       case MarkBss(ok) => !s.db.UdrDone(order) && (ok ==> Present(s.db.rows, p.request))
       case AskUdr => s.db.BssDone(order)
       case ProvisionUdr => s.db.BssDone(order) && !s.db.UdrDone(order)
       case MarkUdr(ok) => s.db.BssDone(order) && !s.db.UdrDone(order) && (ok ==> Delivered(s.db, p.request))
       case CheckUdr => s.db.BssDone(order)
       case Closing(all) => all ==> s.db.BothDone(order)
       case _ => true
  }

  // Equal up to the balance, which moves after the row is inserted.
  predicate Like(key: RowKey, a: Row, b: Row) {
    a.links == b.links && a.facts == b.facts && (!key.table.Buckets? ==> a.amount == b.amount)
  }

  /** Every row is as some accepted request asked for it. */
  predicate RowOk(s: State, key: RowKey)
    requires key in s.db.rows
  {
    exists r | r in s.started :: Valid(r) && key in RowsOf(r) && Like(key, s.db.rows[key], RowsOf(r)[key])
  }

  predicate DocumentsOk(s: State, supi: string)
    requires supi in s.db.docs
  {
    exists r | r in s.started ::
      Valid(r) && r.supi == supi && BuildDocuments(s.db.setting, r) == Some(s.db.docs[supi])
  }

  ghost predicate OrdersOk(s: State) { forall order: string :: OrderOk(s, order) }

  predicate ProcessesOk(s: State) { forall pid | pid in s.live :: ProcessOk(s, s.live[pid]) }

  predicate Exclusive(s: State) {
    forall p, q | p in s.live && q in s.live && p != q :: OrderId(s.live[p].request) != OrderId(s.live[q].request)
  }

  predicate ContentsOk(s: State) {
    && (forall key | key in s.db.rows :: RowOk(s, key))
    && (forall supi | supi in s.db.docs :: DocumentsOk(s, supi))
  }

  ghost predicate Inv(s: State) {
    OrdersOk(s) && HistoryOk(s) && ProcessesOk(s) && Exclusive(s) && ContentsOk(s)
  }

  // ---- What a step leaves alone -------------------------------------------------------------------

  predicate RowsGrow(s: State, t: State) {
    && t.db.setting == s.db.setting && s.started <= t.started
    && (forall key | key in s.db.rows :: key in t.db.rows && Like(key, t.db.rows[key], s.db.rows[key]))
    && s.db.docs.Keys <= t.db.docs.Keys
  }

  predicate SameOrder(s: State, t: State, order: string) {
    && t.db.StateOf(order) == s.db.StateOf(order)
    && t.db.StatusOf(TaskId(BssCharging, order)) == s.db.StatusOf(TaskId(BssCharging, order))
    && t.db.StatusOf(TaskId(UdrSubscription, order)) == s.db.StatusOf(TaskId(UdrSubscription, order))
  }

  // Everything a step on one order does not touch.
  ghost predicate Frame(s: State, t: State, order: string) {
    && RowsGrow(s, t)
    && (forall other: string | other != order :: SameOrder(s, t, other))
  }

  lemma PresentGrows(s: State, t: State, r: Request)
    requires RowsGrow(s, t) && Present(s.db.rows, r)
    ensures Present(t.db.rows, r)
  {
  }

  lemma OrderKept(s: State, t: State, order: string)
    requires RowsGrow(s, t) && SameOrder(s, t, order) && OrderOk(s, order)
    ensures OrderOk(t, order)
  {
    if s.db.BssDone(order) {
      ChainedKept(s, t, order);
    }
  }

  lemma ChainedKept(s: State, t: State, order: string)
    requires RowsGrow(s, t)
    ensures Chained(s, order) ==> Chained(t, order)
    ensures Documented(s, order) ==> Documented(t, order)
  {
    if Chained(s, order) {
      var r :| r in s.started && Valid(r) && OrderId(r) == order && Present(s.db.rows, r);
      PresentGrows(s, t, r);
    }
    if Documented(s, order) {
      var r :| r in s.started && Valid(r) && OrderId(r) == order && Delivered(s.db, r);
      assert r in t.started && Delivered(t.db, r);
    }
  }

  lemma ProcessKept(s: State, t: State, p: Process)
    requires RowsGrow(s, t) && SameOrder(s, t, OrderId(p.request)) && ProcessOk(s, p)
    ensures ProcessOk(t, p)
  {
    var order := OrderId(p.request);
    assert Present(s.db.rows, p.request) ==> Present(t.db.rows, p.request);
  }

  // The rows and the documents that are new are as an accepted request asked for them.
  ghost predicate NewOk(s: State, t: State) {
    && (forall key | key in t.db.rows && key !in s.db.rows :: RowOk(t, key))
    && (forall supi | supi in t.db.docs && !(supi in s.db.docs && t.db.docs[supi] == s.db.docs[supi]) :: DocumentsOk(t, supi))
  }

  lemma RowsKept(s: State, t: State)
    requires RowsGrow(s, t) && ContentsOk(s) && NewOk(s, t)
    ensures ContentsOk(t)
  {
    forall key | key in t.db.rows && key in s.db.rows ensures RowOk(t, key) {
      assert RowOk(s, key);
      var r :| r in s.started && Valid(r) && key in RowsOf(r) && Like(key, s.db.rows[key], RowsOf(r)[key]);
      assert r in t.started && Like(key, t.db.rows[key], RowsOf(r)[key]);
    }
    forall supi | supi in t.db.docs && supi in s.db.docs && t.db.docs[supi] == s.db.docs[supi]
      ensures DocumentsOk(t, supi)
    {
      assert DocumentsOk(s, supi);
      var r :| r in s.started && Valid(r) && r.supi == supi
               && BuildDocuments(s.db.setting, r) == Some(s.db.docs[supi]);
      assert r in t.started;
    }
  }

  lemma OrdersKept(s: State, t: State, order: string)
    requires OrdersOk(s) && Frame(s, t, order) && OrderOk(t, order)
    ensures OrdersOk(t)
  {
    forall other: string ensures OrderOk(t, other) {
      if other != order {
        OrderKept(s, t, other);
      }
    }
  }

  // One process may have moved; the others belong to other orders.
  ghost predicate OneMoved(s: State, t: State, pid: nat, order: string) {
    && t.live.Keys <= s.live.Keys + {pid}
    && (forall q | q in t.live && q != pid :: t.live[q] == s.live[q] && OrderId(s.live[q].request) != order)
    && (pid in t.live ==> OrderId(t.live[pid].request) == order && ProcessOk(t, t.live[pid]))
  }

  lemma ProcessesKept(s: State, t: State, pid: nat, order: string)
    requires ProcessesOk(s) && Exclusive(s) && Frame(s, t, order) && OneMoved(s, t, pid, order)
    ensures ProcessesOk(t) && Exclusive(t)
  {
    forall q | q in t.live ensures ProcessOk(t, t.live[q]) {
      if q != pid {
        ProcessKept(s, t, s.live[q]);
      }
    }
  }

  predicate Steady(s: State, t: State, order: string) {
    && (s.db.BothDone(order) ==> t.db.BothDone(order))
    && (t.db.history == s.db.history
        || exists state :: t.db.history == s.db.history + [(order, state)] && (state == Completed ==> t.db.BothDone(order)))
  }

  // Once both tasks of an order are done they stay done.
  ghost predicate StaysDone(s: State, t: State) {
    forall order: string | s.db.BothDone(order) :: t.db.BothDone(order)
  }

  lemma HistoryKept(s: State, t: State, order: string)
    requires HistoryOk(s) && Frame(s, t, order) && Steady(s, t, order)
    ensures HistoryOk(t) && StaysDone(s, t)
  {
    forall other: string | s.db.BothDone(other) ensures t.db.BothDone(other) {
      if other != order {
        assert SameOrder(s, t, other);
      }
    }
  }

  /** A step on one order keeps the invariant when it keeps it for that order and its process. */
  lemma Assemble(s: State, t: State, pid: nat, order: string)
    requires Inv(s) && Frame(s, t, order) && NewOk(s, t) && OneMoved(s, t, pid, order)
    requires OrderOk(t, order) && Steady(s, t, order)
    ensures Inv(t) && StaysDone(s, t)
  {
    OrdersKept(s, t, order);
    ProcessesKept(s, t, pid, order);
    RowsKept(s, t);
    HistoryKept(s, t, order);
  }

  // ---- The steps ----------------------------------------------------------------------------------

  // What is proved of every step.
  ghost predicate Good(s: State, t: State) { Inv(t) && StaysDone(s, t) && RowsGrow(s, t) }

  lemma ArriveOk(s: State, pid: nat, r: Request)
    requires Inv(s)
    ensures Good(s, ArriveStep(s, pid, r))
  {
    var t := ArriveStep(s, pid, r);
    if t != s {
      assert forall q | q in s.live :: OrderId(s.live[q].request) != OrderId(r);
      OrderKept(s, t, OrderId(r));
      Assemble(s, t, pid, OrderId(r));
    }
  }

  lemma CrashOk(s: State, pid: nat)
    requires Inv(s) && pid in s.live
    ensures Good(s, Step(s, Crash(pid)))
  {
    var t := Step(s, Crash(pid));
    var order := OrderId(s.live[pid].request);
    OrderKept(s, t, order);
    Assemble(s, t, pid, order);
  }

  lemma MoveKeeps(s: State, bucket: string, delta: int)
    ensures var t := MoveStep(s, bucket, delta);
            && RowsGrow(s, t) && t.live == s.live && t.started == s.started && NewOk(s, t)
            && (forall order: string :: SameOrder(s, t, order)) && t.db.history == s.db.history
  {
  }

  // A step of nobody's, which no order sees.
  lemma Unseen(s: State, t: State)
    requires RowsGrow(s, t) && t.live == s.live && t.started == s.started && NewOk(s, t)
    requires (forall order: string :: SameOrder(s, t, order)) && t.db.history == s.db.history
    requires Inv(s)
    ensures Good(s, t)
  {
    assert SameOrder(s, t, "");
    OrderKept(s, t, "");
    OrdersKept(s, t, "");
    RowsKept(s, t);
    assert Steady(s, t, "");
    HistoryKept(s, t, "");
    UnseenProcesses(s, t);
  }

  lemma UnseenProcesses(s: State, t: State)
    requires RowsGrow(s, t) && t.live == s.live && ProcessesOk(s) && forall order: string :: SameOrder(s, t, order)
    ensures ProcessesOk(t)
  {
    forall q | q in t.live ensures ProcessOk(t, t.live[q]) {
      ProcessKept(s, t, s.live[q]);
    }
  }

  // What a step of a process at pid has to show about its own order.
  ghost predicate Own(s: State, t: State, pid: nat, order: string) {
    && OrderOk(t, order) && Steady(s, t, order)
    && (pid in t.live ==> OrderId(t.live[pid].request) == order && ProcessOk(t, t.live[pid]))
  }

  // Only the stage of the process, or its being there, changes.
  ghost predicate Moves(s: State, t: State, pid: nat) {
    t.started == s.started && t.live.Keys <= s.live.Keys && forall q | q in t.live && q != pid :: t.live[q] == s.live[q]
  }

  lemma OwnSuffices(s: State, t: State, pid: nat, order: string)
    requires Inv(s) && pid in s.live && order == OrderId(s.live[pid].request)
    requires Frame(s, t, order) && NewOk(s, t) && Moves(s, t, pid) && Own(s, t, pid, order)
    ensures Good(s, t)
  {
    assert OneMoved(s, t, pid, order);
    Assemble(s, t, pid, order);
  }

  // The premises a step may use about itself.
  predicate Here(s: State, pid: nat, order: string) {
    pid in s.live && order == OrderId(s.live[pid].request) && ProcessOk(s, s.live[pid]) && OrderOk(s, order)
  }

  // All that the effect of a step on everything else rests on.
  predicate Known(s: State, pid: nat, order: string) {
    && pid in s.live && order == OrderId(s.live[pid].request)
    && s.live[pid].request in s.started && Valid(s.live[pid].request)
  }

  // The effect of a step on everything else.
  ghost predicate Apart(s: State, t: State, pid: nat, order: string) {
    Frame(s, t, order) && NewOk(s, t) && Moves(s, t, pid)
  }

  lemma GoApart(s: State, pid: nat, order: string, stage: Stage)
    requires pid in s.live && order == OrderId(s.live[pid].request)
    ensures Apart(s, Go(s, pid, stage), pid, order) && SameOrder(s, Go(s, pid, stage), order)
  {
  }

  lemma GoOwn(s: State, pid: nat, order: string, stage: Stage)
    requires Here(s, pid, order) && ProcessOk(s, s.live[pid].(stage := stage))
    ensures Apart(s, Go(s, pid, stage), pid, order) && Own(s, Go(s, pid, stage), pid, order)
  {
    var t := Go(s, pid, stage);
    GoApart(s, pid, order, stage);
    OrderKept(s, t, order);
    ProcessKept(s, t, t.live[pid]);
  }

  lemma RecordApart(s: State, pid: nat, order: string)
    requires Known(s, pid, order)
    ensures Apart(s, Commit(s, pid, AskBss, s.db.WithOrder(order)), pid, order)
  {
  }

  lemma RecordOwn(s: State, pid: nat, order: string)
    requires Here(s, pid, order) && s.live[pid].stage.Recording?
    ensures Own(s, Commit(s, pid, AskBss, s.db.WithOrder(order)), pid, order)
  {
    var t := Commit(s, pid, AskBss, s.db.WithOrder(order));
    assert t.db.BssDone(order) == s.db.BssDone(order) && t.db.UdrDone(order) == s.db.UdrDone(order);
    ChainedKept(s, t, order);
  }

  lemma WithRowsGrows(db: Tables, r: Request)
    ensures Present(db.WithRows(r).rows, r)
    ensures forall key | key in db.rows :: key in db.WithRows(r).rows && db.WithRows(r).rows[key] == db.rows[key]
    ensures forall key | key in db.WithRows(r).rows && key !in db.rows ::
              key in RowsOf(r) && db.WithRows(r).rows[key] == RowsOf(r)[key]
  {
  }

  lemma BssApart(s: State, pid: nat, order: string, stage: Stage)
    requires Known(s, pid, order)
    ensures Apart(s, Commit(s, pid, stage, s.db.WithRows(s.live[pid].request)), pid, order)
  {
    var t := Commit(s, pid, stage, s.db.WithRows(s.live[pid].request));
    WithRowsGrows(s.db, s.live[pid].request);
    forall key | key in t.db.rows && key !in s.db.rows ensures RowOk(t, key) {
      assert Like(key, t.db.rows[key], RowsOf(s.live[pid].request)[key]);
    }
  }

  lemma BssOwn(s: State, pid: nat, order: string, fault: Fault)
    requires Here(s, pid, order) && s.live[pid].stage.ProvisionBss?
    ensures Apart(s, BssStep(s, pid, fault), pid, order) && Own(s, BssStep(s, pid, fault), pid, order)
  {
    if fault.Fails? || !s.db.Takes(s.live[pid].request) {
      GoOwn(s, pid, order, MarkBss(false));
    } else {
      var t := BssStep(s, pid, fault);
      BssApart(s, pid, order, t.live[pid].stage);
      WithRowsGrows(s.db, s.live[pid].request);
      OrderKept(s, t, order);
    }
  }

  lemma TaskApart(s: State, pid: nat, order: string, stage: Stage, node: Node, ok: bool)
    requires Known(s, pid, order)
    ensures Apart(s, Commit(s, pid, stage, s.db.WithTask(TaskId(node, order), ok)), pid, order)
  {
  }

  lemma TaskStatuses(db: Tables, node: Node, order: string, ok: bool)
    requires db.StatusOf(TaskId(node, order)).Some?
    ensures var after := db.WithTask(TaskId(node, order), ok);
            && after.StateOf(order) == db.StateOf(order)
            && after.StatusOf(TaskId(node, order)) == Some(if ok then Done else Failed)
            && (forall other | other != node :: after.StatusOf(TaskId(other, order)) == db.StatusOf(TaskId(other, order)))
  {
  }

  lemma BssMarked(s: State, t: State, order: string, ok: bool)
    requires RowsGrow(s, t) && OrderOk(s, order) && !s.db.UdrDone(order) && !t.db.UdrDone(order)
    requires t.db.StateOf(order) == Some(InProgress) && t.db.BssDone(order) == ok && (ok ==> Chained(s, order))
    ensures OrderOk(t, order)
  {
    ChainedKept(s, t, order);
  }

  lemma MarkBssOwn(s: State, pid: nat, order: string, stage: Stage, ok: bool)
    requires Here(s, pid, order) && s.live[pid].stage.MarkBss? && stage in [AskBssAgain, MarkBss(false)]
    requires ok ==> s.live[pid].stage.ok
    ensures Own(s, Commit(s, pid, stage, s.db.WithTask(TaskId(BssCharging, order), ok)), pid, order)
  {
    var t := Commit(s, pid, stage, s.db.WithTask(TaskId(BssCharging, order), ok));
    TaskStatuses(s.db, BssCharging, order, ok);
    assert ok ==> Chained(s, order);
    BssMarked(s, t, order, ok);
  }

  lemma MarkBssGood(s: State, pid: nat, order: string, fault: Fault)
    requires Here(s, pid, order) && s.live[pid].stage.MarkBss?
    ensures var t := MarkBssStep(s, pid, s.live[pid].stage.ok, fault);
            Apart(s, t, pid, order) && Own(s, t, pid, order)
  {
    var ok := s.live[pid].stage.ok;
    if ok && fault.Fails? {
      GoOwn(s, pid, order, MarkBss(false));
    } else {
      var t := MarkBssStep(s, pid, ok, fault);
      TaskApart(s, pid, order, t.live[pid].stage, BssCharging, ok);
      MarkBssOwn(s, pid, order, t.live[pid].stage, ok);
    }
  }

  lemma SupiOf(setting: Setting, r: Request, d: Documents)
    requires BuildDocuments(setting, r) == Some(d)
    ensures d.supi == r.supi
  {
  }

  lemma DeliverOwn(s: State, pid: nat, order: string, ok: bool, d: Documents)
    requires Here(s, pid, order) && s.live[pid].stage.ProvisionUdr?
    requires BuildDocuments(s.db.setting, s.live[pid].request) == Some(d)
    ensures var t := Commit(s, pid, MarkUdr(ok), s.db.WithDocuments(d)); Apart(s, t, pid, order) && Own(s, t, pid, order)
  {
    var t := Commit(s, pid, MarkUdr(ok), s.db.WithDocuments(d));
    SupiOf(s.db.setting, s.live[pid].request, d);
    UdrApart(s, pid, order, MarkUdr(ok), d);
    OrderKept(s, t, order);
  }

  lemma UdrOwn(s: State, pid: nat, order: string, fault: Fault)
    requires Here(s, pid, order) && s.live[pid].stage.ProvisionUdr?
    ensures Apart(s, UdrStep(s, pid, fault), pid, order) && Own(s, UdrStep(s, pid, fault), pid, order)
  {
    var d := BuildDocuments(s.db.setting, s.live[pid].request);
    if d.None? || fault.Fails? {
      GoOwn(s, pid, order, MarkUdr(false));
    } else {
      DeliverOwn(s, pid, order, fault.Fine?, d.value);
    }
  }

  lemma UdrApart(s: State, pid: nat, order: string, stage: Stage, d: Documents)
    requires Known(s, pid, order) && BuildDocuments(s.db.setting, s.live[pid].request) == Some(d)
    ensures Apart(s, Commit(s, pid, stage, s.db.WithDocuments(d)), pid, order)
  {
    var t := Commit(s, pid, stage, s.db.WithDocuments(d));
    SupiOf(s.db.setting, s.live[pid].request, d);
    assert DocumentsOk(t, d.supi);
  }

  lemma DocumentedNow(s: State, pid: nat, order: string)
    requires Here(s, pid, order) && s.live[pid].stage == MarkUdr(true)
    ensures Documented(s, order)
  {
  }

  lemma UdrMarked(s: State, t: State, order: string, ok: bool)
    requires RowsGrow(s, t) && OrderOk(s, order) && s.db.BssDone(order) && t.db.BssDone(order)
    requires t.db.StateOf(order) == Some(InProgress) && t.db.UdrDone(order) == ok && (ok ==> Documented(s, order))
    ensures OrderOk(t, order)
  {
    ChainedKept(s, t, order);
  }

  lemma MarkUdrOwn(s: State, pid: nat, order: string)
    requires Here(s, pid, order) && s.live[pid].stage.MarkUdr?
    ensures Own(s, Commit(s, pid, CheckBss, s.db.WithTask(TaskId(UdrSubscription, order), s.live[pid].stage.ok)), pid, order)
  {
    var ok := s.live[pid].stage.ok;
    var t := Commit(s, pid, CheckBss, s.db.WithTask(TaskId(UdrSubscription, order), ok));
    TaskStatuses(s.db, UdrSubscription, order, ok);
    if ok {
      DocumentedNow(s, pid, order);
    }
    UdrMarked(s, t, order, ok);
  }

  lemma CloseApart(s: State, pid: nat, order: string, all: bool)
    requires Known(s, pid, order)
    ensures Apart(s, CloseStep(s, pid, all), pid, order)
  {
  }

  lemma ClosedTables(db: Tables, order: string, state: OrderState)
    ensures var after := db.WithState(order, state);
            && after.BssDone(order) == db.BssDone(order) && after.UdrDone(order) == db.UdrDone(order)
            && (after.StateOf(order).Some? ==> after.StateOf(order) == Some(state))
            && after.history == db.history + [(order, state)]
  {
  }

  lemma CloseOwn(s: State, pid: nat, order: string, all: bool)
    requires Here(s, pid, order) && s.live[pid].stage == Closing(all)
    ensures Own(s, CloseStep(s, pid, all), pid, order)
  {
    var t := CloseStep(s, pid, all);
    ChainedKept(s, t, order);
    ClosedTables(s.db, order, if all then Completed else Incomplete);
    assert OrderOk(t, order);
  }

  predicate Reading(stage: Stage) {
    stage.AskBss? || stage.AskBssAgain? || stage.AskUdr? || stage.CheckBss? || stage.CheckUdr?
  }

  lemma ReadOwn(s: State, pid: nat, order: string, fault: Fault)
    requires Here(s, pid, order) && Reading(s.live[pid].stage)
    ensures Apart(s, AdvanceStep(s, pid, fault), pid, order) && Own(s, AdvanceStep(s, pid, fault), pid, order)
  {
    var stage := AdvanceStep(s, pid, fault).live[pid].stage;
    assert ProcessOk(s, s.live[pid].(stage := stage));
    GoOwn(s, pid, order, stage);
  }

  lemma AdvanceOwn(s: State, pid: nat, order: string, fault: Fault)
    requires Here(s, pid, order)
    ensures Apart(s, AdvanceStep(s, pid, fault), pid, order) && Own(s, AdvanceStep(s, pid, fault), pid, order)
  {
    match s.live[pid].stage
    case Recording => RecordApart(s, pid, order); RecordOwn(s, pid, order);
    case ProvisionBss => BssOwn(s, pid, order, fault);
    case MarkBss(ok) => MarkBssGood(s, pid, order, fault);
    case ProvisionUdr => UdrOwn(s, pid, order, fault);
    case MarkUdr(ok) => TaskApart(s, pid, order, CheckBss, UdrSubscription, ok); MarkUdrOwn(s, pid, order);
    case Closing(all) => CloseApart(s, pid, order, all); CloseOwn(s, pid, order, all);
    case _ => ReadOwn(s, pid, order, fault);
  }

  lemma StepOk(s: State, e: Event)
    requires Inv(s)
    ensures Good(s, Step(s, e))
  {
    match e
    case Arrive(pid, r) => ArriveOk(s, pid, r);
    case Advance(pid, fault) =>
      if pid in s.live {
        var order := OrderId(s.live[pid].request);
        AdvanceOwn(s, pid, order, fault);
        OwnSuffices(s, AdvanceStep(s, pid, fault), pid, order);
      }
    case Crash(pid) =>
      if pid in s.live {
        CrashOk(s, pid);
      } else {
        assert Step(s, e) == s;
      }
    case Move(bucket, delta) => MoveKeeps(s, bucket, delta); Unseen(s, MoveStep(s, bucket, delta));
  }

  lemma {:induction false} RunGood(s: State, es: seq<Event>)
    requires Inv(s)
    ensures Good(s, Run(s, es))
  {
    if es != [] {
      var before := Run(s, es[..|es| - 1]);
      RunGood(s, es[..|es| - 1]);
      StepOk(before, es[|es| - 1]);
    }
  }

  /** Every state reachable by any interleaving, failures and crashes included, satisfies the invariant. */
  lemma Reachable(setting: Setting, es: seq<Event>)
    ensures Inv(Run(Initial(setting), es))
  {
    RunGood(Initial(setting), es);
  }
}
