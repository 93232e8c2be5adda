/** What one request does to the system when it meets no failure, from whatever state earlier ones left. */
module SagaRecovery {
  import opened Wrappers
  import opened SagaModel
  import opened SagaRuns
  import opened SagaSafety

  function Advances(pid: nat, n: nat): (es: seq<Event>)
    ensures |es| == n && forall i | 0 <= i < n :: es[i] == Advance(pid, Fine)
  {
    seq(n, _ => Advance(pid, Fine))
  }

  /** A request that meets no failure: one arrival and as many steps as the longest path has. */
  function Clean(pid: nat, r: Request): seq<Event> { [Arrive(pid, r)] + Advances(pid, 11) }

  function Remaining(stage: Stage): nat {
    match stage
    case Recording => 11
    case AskBss => 10
    case ProvisionBss => 9
    case MarkBss(ok) => 8
    case AskBssAgain => 7
    case AskUdr => 6
    case ProvisionUdr => 5
    case MarkUdr(ok) => 4
    case CheckBss => 3
    case CheckUdr => 2
    case Closing(all) => 1
  }

  // ---- The tables a request leaves ----------------------------------------------------------------

  /** The tables a request leaves from a stage on, alone and without a failure. */
  function Outcome(db: Tables, r: Request, stage: Stage): Tables
    decreases Remaining(stage)
  {
    var order := OrderId(r);
    match stage
    case Recording => Outcome(db.WithOrder(order), r, AskBss)
    case AskBss => Outcome(db, r, if db.BssDone(order) then AskBssAgain else ProvisionBss)
    case ProvisionBss => if db.Takes(r) then Outcome(db.WithRows(r), r, MarkBss(true)) else Outcome(db, r, MarkBss(false))
    case MarkBss(ok) => Outcome(db.WithTask(TaskId(BssCharging, order), ok), r, AskBssAgain)
    case AskBssAgain => Outcome(db, r, if db.BssDone(order) then AskUdr else CheckBss)
    case AskUdr => Outcome(db, r, if db.UdrDone(order) then CheckBss else ProvisionUdr)
    case ProvisionUdr =>
      var d := BuildDocuments(db.setting, r);
      if d.None? then Outcome(db, r, MarkUdr(false)) else Outcome(db.WithDocuments(d.value), r, MarkUdr(true))
    case MarkUdr(ok) => Outcome(db.WithTask(TaskId(UdrSubscription, order), ok), r, CheckBss)
    case CheckBss => Outcome(db, r, if db.BssDone(order) then CheckUdr else Closing(false))
    case CheckUdr => Outcome(db, r, Closing(db.UdrDone(order)))
    case Closing(all) => db.WithState(order, if all then Completed else Incomplete)
  }

  // One step leads to where the outcome is the same.
  predicate LeadsOn(s: State, t: State, pid: nat)
    requires pid in s.live
  {
    var p := s.live[pid];
    && t == s.(db := t.db, live := t.live) && pid in t.live && t.live == s.live[pid := t.live[pid]]
    && t.live[pid].request == p.request && Remaining(t.live[pid].stage) < Remaining(p.stage)
    && Outcome(t.db, p.request, t.live[pid].stage) == Outcome(s.db, p.request, p.stage)
  }

  lemma BssLeadsOn(s: State, pid: nat)
    requires pid in s.live && s.live[pid].stage.ProvisionBss?
    ensures LeadsOn(s, AdvanceStep(s, pid, Fine), pid)
  {
  }

  lemma OtherLeadsOn(s: State, pid: nat)
    requires pid in s.live && !s.live[pid].stage.ProvisionBss? && !s.live[pid].stage.Closing?
    ensures LeadsOn(s, AdvanceStep(s, pid, Fine), pid)
  {
  }

  lemma OneStep(s: State, pid: nat)
    requires pid in s.live
    ensures var p, t := s.live[pid], AdvanceStep(s, pid, Fine);
            if p.stage.Closing? then t == s.(db := Outcome(s.db, p.request, p.stage), live := s.live - {pid})
            else LeadsOn(s, t, pid)
  {
    if s.live[pid].stage.ProvisionBss? {
      BssLeadsOn(s, pid);
    } else if !s.live[pid].stage.Closing? {
      OtherLeadsOn(s, pid);
    }
  }

  lemma {:induction false} Idle(s: State, pid: nat, n: nat)
    requires pid !in s.live
    ensures Run(s, Advances(pid, n)) == s
  {
    if n > 0 {
      assert Advances(pid, n)[..n - 1] == Advances(pid, n - 1);
      Idle(s, pid, n - 1);
    }
  }

  lemma OneAdvance(s: State, pid: nat, n: nat)
    requires pid in s.live && n > 0
    ensures Run(s, Advances(pid, n)) == Run(AdvanceStep(s, pid, Fine), Advances(pid, n - 1))
  {
    RunConcat(s, [Advance(pid, Fine)], Advances(pid, n - 1));
    assert Advances(pid, n) == [Advance(pid, Fine)] + Advances(pid, n - 1);
    assert [Advance(pid, Fine)][..0] == [];
    assert Run(s, []) == s;
  }

  /** A process that is advanced without a failure is gone afterwards and leaves the outcome. */
  lemma {:induction false} AdvancesGive(s: State, pid: nat, n: nat)
    requires pid in s.live && Remaining(s.live[pid].stage) <= n
    ensures Run(s, Advances(pid, n))
            == s.(db := Outcome(s.db, s.live[pid].request, s.live[pid].stage), live := s.live - {pid})
    decreases n
  {
    var t := AdvanceStep(s, pid, Fine);
    OneStep(s, pid);
    OneAdvance(s, pid, n);
    if s.live[pid].stage.Closing? {
      Idle(t, pid, n - 1);
    } else {
      AdvancesGive(t, pid, n - 1);
      assert t.live - {pid} == s.live - {pid};
    }
  }

  // A first request of an order, as far as its BSS half.
  lemma AsksTwice(s: State, pid: nat, order: string)
    requires pid in s.live && s.live[pid].stage.Recording? && OrderId(s.live[pid].request) == order && !s.db.BssDone(order)
    ensures Run(s, Advances(pid, 2))
            == s.(db := s.db.WithOrder(order), live := s.live[pid := s.live[pid].(stage := ProvisionBss)])
  {
    var t := AdvanceStep(s, pid, Fine);
    assert t == s.(db := s.db.WithOrder(order), live := s.live[pid := s.live[pid].(stage := AskBss)]);
    OneAdvance(s, pid, 2);
    OneAdvance(t, pid, 1);
  }

  lemma CleanGives(s: State, pid: nat, r: Request)
    requires pid !in s.live && !Busy(s, OrderId(r)) && Valid(r)
    ensures Run(s, Clean(pid, r)) == s.(db := Outcome(s.db, r, Recording), started := s.started + {r})
  {
    var u := ArriveStep(s, pid, r);
    RunConcat(s, [Arrive(pid, r)], Advances(pid, 11));
    assert [Arrive(pid, r)][..0] == [];
    assert Run(s, []) == s;
    AdvancesGive(u, pid, 11);
    assert u.live - {pid} == s.live;
  }

  // ---- What the tables are ------------------------------------------------------------------------

  predicate Recorded(db: Tables, order: string) {
    db.StateOf(order).Some? && db.StatusOf(TaskId(BssCharging, order)).Some? && db.StatusOf(TaskId(UdrSubscription, order)).Some?
  }

  // Other orders are as they were.
  ghost predicate SameOthers(a: Tables, b: Tables, order: string) {
    && b.setting == a.setting
    && forall other: string | other != order ::
         && b.StateOf(other) == a.StateOf(other) && b.BssDone(other) == a.BssDone(other)
         && b.UdrDone(other) == a.UdrDone(other)
  }

  // The last reads and the new state of the order.
  lemma ClosingGives(db: Tables, r: Request)
    requires Recorded(db, OrderId(r))
    ensures var t, order := Outcome(db, r, CheckBss), OrderId(r);
            && t.rows == db.rows && t.docs == db.docs && SameOthers(db, t, order)
            && t.BssDone(order) == db.BssDone(order) && t.UdrDone(order) == db.UdrDone(order)
            && t.StateOf(order) == Some(if db.BothDone(order) then Completed else Incomplete)
  {
    var order := OrderId(r);
    var state := if db.BothDone(order) then Completed else Incomplete;
    assert Outcome(db, r, CheckBss) == db.WithState(order, state);
  }

  lemma Marked(db: Tables, node: Node, order: string, ok: bool)
    requires Recorded(db, order)
    ensures var t := db.WithTask(TaskId(node, order), ok);
            && Recorded(t, order) && t.rows == db.rows && t.docs == db.docs && SameOthers(db, t, order)
            && t.BssDone(order) == (if node.BssCharging? then ok else db.BssDone(order))
            && t.UdrDone(order) == (if node.UdrSubscription? then ok else db.UdrDone(order))
  {
  }

  /** The UDR half of the order follows. */
  predicate Delivers(db: Tables, r: Request) {
    db.BssDone(OrderId(r)) && !db.UdrDone(OrderId(r)) && BuildDocuments(db.setting, r).Some?
  }

  function DocsAfter(db: Tables, r: Request): map<string, Documents> {
    if Delivers(db, r) then db.docs[r.supi := BuildDocuments(db.setting, r).value] else db.docs
  }

  lemma UdrGives(db: Tables, r: Request)
    requires Recorded(db, OrderId(r))
    ensures var t, order := Outcome(db, r, AskBssAgain), OrderId(r);
            && t.rows == db.rows && t.docs == DocsAfter(db, r) && SameOthers(db, t, order)
            && t.BssDone(order) == db.BssDone(order)
            && t.UdrDone(order) == (db.UdrDone(order) || Delivers(db, r))
            && t.StateOf(order) == Some(if t.BothDone(order) then Completed else Incomplete)
  {
    var order := OrderId(r);
    if db.BssDone(order) && !db.UdrDone(order) {
      var d := BuildDocuments(db.setting, r);
      var wrote := if d.None? then db else db.WithDocuments(d.value);
      var marked := wrote.WithTask(TaskId(UdrSubscription, order), d.Some?);
      if d.Some? {
        SupiOf(db.setting, r, d.value);
      }
      Marked(wrote, UdrSubscription, order, d.Some?);
      ClosingGives(marked, r);
      assert Outcome(db, r, AskBssAgain) == Outcome(db, r, ProvisionUdr) == Outcome(marked, r, CheckBss);
    } else {
      ClosingGives(db, r);
      assert Outcome(db, r, AskBssAgain) == Outcome(db, r, CheckBss);
    }
  }

  lemma MarkGives(db: Tables, r: Request, ok: bool)
    ensures Outcome(db, r, MarkBss(ok)) == Outcome(db.WithTask(TaskId(BssCharging, OrderId(r)), ok), r, AskBssAgain)
  {
  }

  // The order from the recording of its BSS half on.
  lemma MarkLeaves(db: Tables, r: Request, ok: bool)
    requires Recorded(db, OrderId(r))
    ensures var t, order := Outcome(db, r, MarkBss(ok)), OrderId(r);
            var delivers := ok && !db.UdrDone(order) && BuildDocuments(db.setting, r).Some?;
            && t.rows == db.rows && SameOthers(db, t, order)
            && t.docs == (if delivers then db.docs[r.supi := BuildDocuments(db.setting, r).value] else db.docs)
            && t.BssDone(order) == ok && t.UdrDone(order) == (db.UdrDone(order) || delivers)
            && t.StateOf(order) == Some(if t.BothDone(order) then Completed else Incomplete)
  {
    MarkGives(db, r, ok);
    Marked(db, BssCharging, OrderId(r), ok);
    UdrGives(db.WithTask(TaskId(BssCharging, OrderId(r)), ok), r);
  }

  function BssWritten(db: Tables, r: Request): Tables { if db.Takes(r) then db.WithRows(r) else db }

  lemma ProvisionGives(db: Tables, r: Request)
    ensures Outcome(db, r, ProvisionBss) == Outcome(BssWritten(db, r), r, MarkBss(db.Takes(r)))
  {
  }

  lemma RecordedBy(db: Tables, order: string)
    ensures var t := db.WithOrder(order);
            && Recorded(t, order) && t.rows == db.rows && t.docs == db.docs && SameOthers(db, t, order)
            && t.BssDone(order) == db.BssDone(order) && t.UdrDone(order) == db.UdrDone(order)
  {
  }

  /** The BSS task is done afterwards: it was before, or the charging database takes the rows. */
  predicate Provisions(db: Tables, r: Request) { db.BssDone(OrderId(r)) || db.Takes(r) }

  predicate Completes(db: Tables, r: Request) {
    Provisions(db, r) && (db.UdrDone(OrderId(r)) || BuildDocuments(db.setting, r).Some?)
  }

  function RowsLeft(db: Tables, r: Request): Rows {
    if db.BssDone(OrderId(r)) || !db.Takes(r) then db.rows else RowsOf(r) + db.rows
  }

  function DocsLeft(db: Tables, r: Request): map<string, Documents> {
    if Provisions(db, r) && !db.UdrDone(OrderId(r)) && BuildDocuments(db.setting, r).Some?
    then db.docs[r.supi := BuildDocuments(db.setting, r).value]
    else db.docs
  }

  lemma StillTaken(a: Tables, b: Tables, r: Request)
    requires a.setting == b.setting && a.rows == b.rows
    ensures a.Takes(r) == b.Takes(r)
  {
  }

  lemma StillTakes(db: Tables, order: string, r: Request)
    ensures db.WithOrder(order).Takes(r) == db.Takes(r)
  {
  }

  // The same from tables that differ in rows only.
  lemma MarkLeavesFrom(db: Tables, wrote: Tables, r: Request, ok: bool)
    requires Recorded(db, OrderId(r)) && wrote == db.(rows := wrote.rows)
    ensures var t, order := Outcome(wrote, r, MarkBss(ok)), OrderId(r);
            var delivers := ok && !db.UdrDone(order) && BuildDocuments(db.setting, r).Some?;
            && t.rows == wrote.rows && SameOthers(db, t, order)
            && t.docs == (if delivers then db.docs[r.supi := BuildDocuments(db.setting, r).value] else db.docs)
            && t.BssDone(order) == ok && t.UdrDone(order) == (db.UdrDone(order) || delivers)
            && t.StateOf(order) == Some(if t.BothDone(order) then Completed else Incomplete)
  {
    assert Recorded(wrote, OrderId(r)) && wrote.UdrDone(OrderId(r)) == db.UdrDone(OrderId(r));
    assert SameOthers(db, wrote, OrderId(r));
    MarkLeaves(wrote, r, ok);
  }

  // The tables a request leaves whose order is recorded and whose BSS task is open.
  lemma OpenLeaves(db: Tables, r: Request)
    requires Recorded(db, OrderId(r)) && !db.BssDone(OrderId(r))
    ensures var t, order := Outcome(db, r, ProvisionBss), OrderId(r);
            && t.rows == RowsLeft(db, r) && t.docs == DocsLeft(db, r) && SameOthers(db, t, order)
            && t.BssDone(order) == db.Takes(r)
            && t.UdrDone(order) == (db.UdrDone(order) || (db.Takes(r) && BuildDocuments(db.setting, r).Some?))
            && t.StateOf(order) == Some(if t.BothDone(order) then Completed else Incomplete)
  {
    ProvisionGives(db, r);
    MarkLeavesFrom(db, BssWritten(db, r), r, db.Takes(r));
  }

  lemma AsksOnce(db: Tables, r: Request)
    ensures var recorded := db.WithOrder(OrderId(r));
            Outcome(db, r, Recording)
            == Outcome(recorded, r, if recorded.BssDone(OrderId(r)) then AskBssAgain else ProvisionBss)
  {
  }

  /** What a request leaves that meets no failure, from any tables. */
  lemma CleanLeaves(db: Tables, r: Request)
    ensures var t, order := Outcome(db, r, Recording), OrderId(r);
            && t.rows == RowsLeft(db, r) && t.docs == DocsLeft(db, r) && SameOthers(db, t, order)
            && t.BssDone(order) == Provisions(db, r)
            && t.UdrDone(order) == (db.UdrDone(order) || (Provisions(db, r) && BuildDocuments(db.setting, r).Some?))
            && t.StateOf(order) == Some(if t.BothDone(order) then Completed else Incomplete)
  {
    var order := OrderId(r);
    var recorded := db.WithOrder(order);
    RecordedBy(db, order);
    StillTakes(db, order, r);
    AsksOnce(db, r);
    if db.BssDone(order) {
      UdrGives(recorded, r);
    } else {
      OpenLeaves(recorded, r);
    }
  }

  /**
    Whatever failed or crashed before, one clean resend of an order that is not in flight finishes it exactly when its
    rows are in already or the charging database takes them, and its documents are delivered already or the UDR takes
    them; finished, everything is provisioned. Nothing is left running in any case.
   */
  lemma CleanResendExactly(s: State, pid: nat, r: Request)
    requires Inv(s) && pid !in s.live && !Busy(s, OrderId(r)) && Valid(r)
    ensures var t, order := Run(s, Clean(pid, r)), OrderId(r);
            && t.live == s.live && Inv(t)
            && (Finished(t, order) <==> Completes(s.db, r))
            && (Finished(t, order) ==> Chained(t, order) && Documented(t, order))
            && (!Finished(t, order) ==> t.db.StateOf(order) == Some(Incomplete))
  {
    CleanGives(s, pid, r);
    CleanLeaves(s.db, r);
    RunGood(s, Clean(pid, r));
    assert OrderOk(Run(s, Clean(pid, r)), OrderId(r));
    assert OrderOk(s, OrderId(r));
  }

  predicate Finished(s: State, order: string) {
    s.db.StateOf(order) == Some(Completed) && s.db.BothDone(order)
  }
}
