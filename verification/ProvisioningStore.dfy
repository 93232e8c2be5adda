/**
  The provisioning store itself: two databases and the UDR node as fields, and the call that runs one customer
  order through them. Every commit and every node call may fail, or take effect and still look failed. What one
  call does is a run of the step machine of SagaRuns.
 */
module ProvisioningStore {
  import opened Wrappers
  import opened Digits
  import opened SagaModel
  import opened SagaRuns
  import opened SagaSafety
  import opened SagaRecovery

  // One fault for every commit or node call on the way; an exception outside the one try block ends the call.
  datatype Faults = Faults(record: Fault, bss: Fault, markDone: Fault, markFailed: Fault, udr: Fault,
                           markUdr: Fault, close: Fault)

  datatype Answer = Rejected | Answered(order: string, completed: bool)

  // The tables after a phase, and whether the call is still going.
  datatype After = After(db: Tables, going: bool)

  function RecordPhase(db: Tables, r: Request, f: Faults): After {
    After(if f.record.Fails? then db else db.WithOrder(OrderId(r)), f.record.Fine?)
  }

  function MarkFailedPhase(db: Tables, r: Request, f: Faults): After {
    After(if f.markFailed.Fails? then db else db.WithTask(TaskId(BssCharging, OrderId(r)), false), f.markFailed.Fine?)
  }

  // The write of the rows: refused, failed, done, or done and failed in the caller's eyes.
  function Written(db: Tables, r: Request, fault: Fault): Tables {
    if fault.Fails? || !db.Takes(r) then db else db.WithRows(r)
  }

  predicate Wrote(db: Tables, r: Request, fault: Fault) { fault.Fine? && db.Takes(r) }

  function RecordBss(db: Tables, r: Request, f: Faults, wrote: bool): After {
    if !wrote then MarkFailedPhase(db, r, f)
    else
      var marked := if f.markDone.Fails? then db else db.WithTask(TaskId(BssCharging, OrderId(r)), true);
      if f.markDone.Fine? then After(marked, true) else MarkFailedPhase(marked, r, f)
  }

  function BssPhase(db: Tables, r: Request, f: Faults): After {
    if db.BssDone(OrderId(r)) then After(db, true) else RecordBss(Written(db, r, f.bss), r, f, Wrote(db, r, f.bss))
  }

  function UdrPhase(db: Tables, r: Request, f: Faults): After {
    if !db.BssDone(OrderId(r)) || db.UdrDone(OrderId(r)) then After(db, true)
    else
      var d := BuildDocuments(db.setting, r);
      var wrote := if d.None? || f.udr.Fails? then db else db.WithDocuments(d.value);
      var marked := wrote.WithTask(TaskId(UdrSubscription, OrderId(r)), d.Some? && f.udr.Fine?);
      After(if f.markUdr.Fails? then wrote else marked, f.markUdr.Fine?)
  }

  function ClosePhase(db: Tables, r: Request, f: Faults): After {
    var state := if db.BothDone(OrderId(r)) then Completed else Incomplete;
    After(if f.close.Fails? then db else db.WithState(OrderId(r), state), f.close.Fine?)
  }

  function NodePhases(db: Tables, r: Request, f: Faults): After {
    var bss := BssPhase(db, r, f);
    if !bss.going then bss else UdrPhase(bss.db, r, f)
  }

  /** What one call does to the databases and the node. */
  function Attempt(db: Tables, r: Request, f: Faults): After {
    if !Valid(r) then After(db, true)
    else
      var recorded := RecordPhase(db, r, f);
      if !recorded.going then recorded
      else
        var nodes := NodePhases(recorded.db, r, f);
        if !nodes.going then nodes else ClosePhase(nodes.db, r, f)
  }

  /** Collects the digits of a SUPI. */
  method CollectKey(supi: string) returns (k: string)
    ensures k == KeyOf(supi)
  {
    k := "";
    for i := 0 to |supi|
      invariant k == DigitsOf(supi[..i])
    {
      assert supi[..i + 1][..i] == supi[..i];
      if IsDigit(supi[i]) {
        k := k + [supi[i]];
      }
    }
    assert supi[..|supi|] == supi;
    if k == "" {
      k := supi;
    }
  }

  class ProvisioningStore {
    const setting: Setting
    var orders: map<string, OrderState>
    var history: seq<(string, OrderState)>
    var tasks: map<TaskId, Task>
    var rows: Rows
    var docs: map<string, Documents>

    constructor (setting: Setting)
      ensures State() == Initial(setting).db
    {
      this.setting := setting;
      orders, history, tasks, rows, docs := map[], [], map[], map[], map[];
    }

    function State(): Tables
      reads this
    {
      Tables(setting, orders, history, tasks, rows, docs)
    }

    // INSERT ... ON CONFLICT DO NOTHING.
    method Insert(cond: bool, key: RowKey, row: Row)
      modifies this`rows
      ensures rows == One(cond, key, row) + old(rows)
    {
      if cond && key !in rows {
        rows := rows[key := row];
      }
    }

    method InsertPerson(r: Request, k: string)
      modifies this`rows
      ensures rows == PersonRows(r, k) + old(rows)
    {
      var i := r.individual;
      Insert(true, RowKey(Individuals, "ind-" + k), Row([], [i.given, i.family, i.given + " " + i.family], 0));
      Insert(i.email.Some? || i.phone.Some?, RowKey(ContactMedia, "cm-" + k),
             Row(["ind-" + k], [Or(i.email, ""), Or(i.phone, "")], 0));
      Insert(true, RowKey(Identifications, "iid-" + k), Row(["ind-" + k, "SUPI", r.supi], [], 0));
      PersonMerges(r, k, old(rows));
    }

    // False, here and below, stands for a constraint that refuses the row; the transaction is then rolled back.
    method InsertLine(r: Request, k: string) returns (ok: bool)
      modifies this`rows
      ensures ok == (Or(r.segment, "CONSUMER") in {"CONSUMER", "ENTERPRISE"} && Or(r.chargingMode, "PREPAID") in {"PREPAID", "POSTPAID"})
      ensures ok ==> rows == LineRows(r, k) + old(rows)
    {
      if Or(r.segment, "CONSUMER") !in {"CONSUMER", "ENTERPRISE"} {
        return false;
      }
      Insert(true, RowKey(Accounts, "acc-" + k), Row(["ind-" + k], [Or(r.segment, "CONSUMER")], 0));
      if Or(r.chargingMode, "PREPAID") !in {"PREPAID", "POSTPAID"} {
        return false;
      }
      Insert(true, RowKey(Subscribers, "sub-" + k),
             Row(["acc-" + k, "ind-" + k], [Or(r.chargingMode, "PREPAID")], 0));
      return true;
    }

    // The unique index on what a resource row holds.
    method InsertResource(cond: bool, key: RowKey, row: Row, kind: string, value: string) returns (ok: bool)
      modifies this`rows
      ensures ok == (cond ==> Free(setting, old(rows), key, kind, value))
      ensures ok ==> rows == One(cond, key, row) + old(rows)
    {
      if cond && !Free(setting, rows, key, kind, value) {
        return false;
      }
      Insert(cond, key, row);
      return true;
    }

    method InsertResources(r: Request, k: string) returns (ok: bool)
      modifies this`rows
      ensures ok == ResourcesFree(setting, old(rows), r, k)
      ensures ok ==> rows == ResourceRows(r, k) + old(rows)
    {
      assert ("res-s-" + k)[4] == 's' && ("res-m-" + k)[4] == 'm';
      ok := InsertResource(true, RowKey(Resources, "res-s-" + k), Row(["sub-" + k, "SUPI", r.supi], [], 0), "SUPI", r.supi);
      if ok {
        SupiHoldsNoNumber(setting, old(rows), r, k);
        ok := InsertResource(r.msisdn != "", RowKey(Resources, "res-m-" + k), Row(["sub-" + k, "MSISDN"], [r.msisdn], 0),
                             "MSISDN", r.msisdn);
      }
    }

    method InsertService(r: Request, k: string) returns (ok: bool)
      modifies this`rows
      ensures ok == ServiceTaken(setting, old(rows), r, k)
      ensures ok ==> rows == ServiceRows(r, k) + old(rows)
    {
      ok := InsertLine(r, k);
      if ok {
        LineHoldsNothing(setting, old(rows), r, k);
        ok := InsertResources(r, k);
      }
      if ok && r.offering != "" && RowKey(Subscriptions, "ps-" + k) !in rows && r.offering !in setting.offerings {
        ok := false;
      }
      if ok {
        Insert(r.offering != "", RowKey(Subscriptions, "ps-" + k), Row(["sub-" + k, "acc-" + k], [r.offering], 0));
        ServiceMerges(r, k, old(rows));
      }
    }

    method InsertBucket(r: Request)
      modifies this`rows
      ensures rows == BucketRows(r) + old(rows)
    {
      Insert(true, RowKey(Buckets, r.supi), BucketRow(r));
      Insert(true, RowKey(BucketResources, r.supi), Row([r.supi, r.supi], [], 0));
    }

    /** The whole chain in one charging-database transaction; false stands for an exception. */
    method ProvisionBss(r: Request, k: string, fault: Fault) returns (ok: bool)
      requires k == KeyOf(r.supi)
      modifies this`rows
      ensures ok == (fault.Fine? && Admits(setting, old(rows), r))
      ensures rows == if fault.Fails? || !Admits(setting, old(rows), r) then old(rows) else RowsOf(r) + old(rows)
    {
      var before := rows;
      InsertPerson(r, k);
      PersonHoldsNothing(setting, before, r, k);
      ok := InsertService(r, k);
      if ok && !r.balance.typed {
        ok := false;
      }
      if ok {
        InsertBucket(r);
        ChainMerges(r, before);
      }
      if fault.Fails? || !ok {
        rows := before;
      }
      ok := ok && fault.Fine?;
    }

    /** Records the outcome of a task and counts the attempt; false stands for an exception. */
    method RecordTask(id: TaskId, done: bool, fault: Fault) returns (ok: bool)
      modifies this`tasks
      ensures ok == fault.Fine?
      ensures State() == if fault.Fails? then old(State()) else old(State()).WithTask(id, done)
    {
      if !fault.Fails? && id in tasks {
        tasks := tasks[id := Task(if done then Done else Failed, tasks[id].attempts + 1)];
      }
      ok := fault.Fine?;
    }

    method RunBss(r: Request, k: string, f: Faults) returns (going: bool)
      requires k == KeyOf(r.supi)
      modifies this`rows, this`tasks
      ensures After(State(), going) == BssPhase(old(State()), r, f)
    {
      var id := TaskId(BssCharging, OrderId(r));
      if State().IsDone(id) {
        return true;
      }
      var ok := ProvisionBss(r, k, f.bss);
      assert State() == Written(old(State()), r, f.bss);
      if ok {
        ok := RecordTask(id, true, f.markDone);
      }
      if ok {
        return true;
      }
      going := RecordTask(id, false, f.markFailed);
    }

    method RunUdr(r: Request, f: Faults) returns (going: bool)
      modifies this`docs, this`tasks
      ensures After(State(), going) == UdrPhase(old(State()), r, f)
    {
      var id := TaskId(UdrSubscription, OrderId(r));
      if !State().BssDone(OrderId(r)) || State().IsDone(id) {
        return true;
      }
      var ok := false;
      match BuildDocuments(setting, r) {
        case None =>
        case Some(d) =>
          if !f.udr.Fails? {
            docs := docs[d.supi := d];
          }
          ok := f.udr.Fine?;
      }
      going := RecordTask(id, ok, f.markUdr);
    }

    /** Runs one customer order; None stands for an exception or a crash on the way. */
    method CreateCustomerOrder(r: Request, f: Faults) returns (answer: Option<Answer>)
      modifies this
      ensures State() == Attempt(old(State()), r, f).db
      ensures answer.Some? == Attempt(old(State()), r, f).going
      ensures answer.Some? ==>
                answer.value == if Valid(r) then Answered(OrderId(r), State().BothDone(OrderId(r))) else Rejected
      ensures answer == Some(Answered(OrderId(r), true)) ==> State().StateOf(OrderId(r)) == Some(Completed)
    {
      var k := CollectKey(r.supi);
      if !Valid(r) {
        return Some(Rejected);
      }
      var order := OrderId(r);
      if !f.record.Fails? {
        orders := orders[order := InProgress];
        tasks := map[TaskId(BssCharging, order) := Task(Pending, 0), TaskId(UdrSubscription, order) := Task(Pending, 0)]
                 + tasks;
      }
      if !f.record.Fine? {
        return None;
      }
      assert State() == RecordPhase(old(State()), r, f).db;
      var going := RunBss(r, k, f);
      if going {
        going := RunUdr(r, f);
      }
      if !going {
        return None;
      }
      answer := Close(r, f);
      OrderRecorded(old(State()), r, f);
    }

    method Close(r: Request, f: Faults) returns (answer: Option<Answer>)
      modifies this`orders, this`history
      ensures After(State(), answer.Some?) == ClosePhase(old(State()), r, f)
      ensures answer.Some? ==> answer.value == Answered(OrderId(r), State().BothDone(OrderId(r)))
    {
      var order := OrderId(r);
      var all := State().BothDone(order);
      var state := if all then Completed else Incomplete;
      if !f.close.Fails? {
        if order in orders {
          orders := orders[order := state];
        }
        history := history + [(order, state)];
      }
      return if f.close.Fine? then Some(Answered(order, all)) else None;
    }
  }

  // ---- What the constraints see -------------------------------------------------------------------

  predicate ResourcesFree(setting: Setting, rows: Rows, r: Request, k: string) {
    && Free(setting, rows, RowKey(Resources, "res-s-" + k), "SUPI", r.supi)
    && (r.msisdn != "" ==> Free(setting, rows, RowKey(Resources, "res-m-" + k), "MSISDN", r.msisdn))
  }

  predicate ServiceTaken(setting: Setting, rows: Rows, r: Request, k: string) {
    && Or(r.segment, "CONSUMER") in {"CONSUMER", "ENTERPRISE"} && Or(r.chargingMode, "PREPAID") in {"PREPAID", "POSTPAID"}
    && ResourcesFree(setting, rows, r, k)
    && (r.offering != "" ==> RowKey(Subscriptions, "ps-" + k) in rows || r.offering in setting.offerings)
  }

  // Rows that hold nothing of a kind change nothing for it.
  lemma FreeBeside(setting: Setting, a: Rows, rows: Rows, key: RowKey, kind: string, value: string)
    requires key !in a && forall other | other in a :: !Holds(other, a[other], kind, value)
    ensures Free(setting, a + rows, key, kind, value) == Free(setting, rows, key, kind, value)
  {
    if Held(rows, kind, value) {
      var other :| other in rows && Holds(other, rows[other], kind, value);
      assert other in a + rows && (a + rows)[other] == rows[other];
    }
    if Held(a + rows, kind, value) {
      var other :| other in a + rows && Holds(other, (a + rows)[other], kind, value);
      assert other in rows && (a + rows)[other] == rows[other];
    }
  }

  lemma SupiHoldsNoNumber(setting: Setting, rows: Rows, r: Request, k: string)
    ensures var s := One(true, RowKey(Resources, "res-s-" + k), Row(["sub-" + k, "SUPI", r.supi], [], 0));
            Free(setting, s + rows, RowKey(Resources, "res-m-" + k), "MSISDN", r.msisdn)
            == Free(setting, rows, RowKey(Resources, "res-m-" + k), "MSISDN", r.msisdn)
  {
    assert ("res-s-" + k)[4] == 's' && ("res-m-" + k)[4] == 'm';
    FreeBeside(setting, One(true, RowKey(Resources, "res-s-" + k), Row(["sub-" + k, "SUPI", r.supi], [], 0)), rows,
               RowKey(Resources, "res-m-" + k), "MSISDN", r.msisdn);
  }

  lemma ResourcesBeside(setting: Setting, a: Rows, rows: Rows, r: Request, k: string)
    requires forall key | key in a :: !key.table.Resources?
    ensures ResourcesFree(setting, a + rows, r, k) == ResourcesFree(setting, rows, r, k)
  {
    FreeBeside(setting, a, rows, RowKey(Resources, "res-s-" + k), "SUPI", r.supi);
    FreeBeside(setting, a, rows, RowKey(Resources, "res-m-" + k), "MSISDN", r.msisdn);
  }

  lemma LineHoldsNothing(setting: Setting, rows: Rows, r: Request, k: string)
    ensures ResourcesFree(setting, LineRows(r, k) + rows, r, k) == ResourcesFree(setting, rows, r, k)
  {
    ResourcesBeside(setting, LineRows(r, k), rows, r, k);
  }

  lemma PersonHoldsNothing(setting: Setting, rows: Rows, r: Request, k: string)
    ensures ServiceTaken(setting, PersonRows(r, k) + rows, r, k) == ServiceTaken(setting, rows, r, k)
  {
    ResourcesBeside(setting, PersonRows(r, k), rows, r, k);
  }

  lemma ChainMerges(r: Request, rows: Rows)
    ensures var k := KeyOf(r.supi);
            BucketRows(r) + (ServiceRows(r, k) + (PersonRows(r, k) + rows)) == RowsOf(r) + rows
  {
    var k := KeyOf(r.supi);
    TablesApart(r, k);
    MergeApart(PersonRows(r, k), ServiceRows(r, k), BucketRows(r), rows);
  }

  lemma PersonMerges(r: Request, k: string, rows: Rows)
    ensures var i := r.individual;
            One(true, RowKey(Identifications, "iid-" + k), Row(["ind-" + k, "SUPI", r.supi], [], 0))
            + (One(i.email.Some? || i.phone.Some?, RowKey(ContactMedia, "cm-" + k),
                   Row(["ind-" + k], [Or(i.email, ""), Or(i.phone, "")], 0))
               + (One(true, RowKey(Individuals, "ind-" + k), Row([], [i.given, i.family, i.given + " " + i.family], 0)) + rows))
            == PersonRows(r, k) + rows
  {
    var i := r.individual;
    MergeApart(One(true, RowKey(Individuals, "ind-" + k), Row([], [i.given, i.family, i.given + " " + i.family], 0)),
               One(i.email.Some? || i.phone.Some?, RowKey(ContactMedia, "cm-" + k),
                   Row(["ind-" + k], [Or(i.email, ""), Or(i.phone, "")], 0)),
               One(true, RowKey(Identifications, "iid-" + k), Row(["ind-" + k, "SUPI", r.supi], [], 0)), rows);
  }

  lemma ServiceMerges(r: Request, k: string, rows: Rows)
    ensures One(r.offering != "", RowKey(Subscriptions, "ps-" + k), Row(["sub-" + k, "acc-" + k], [r.offering], 0))
            + (ResourceRows(r, k) + (LineRows(r, k) + rows)) == ServiceRows(r, k) + rows
  {
    MergeApart(LineRows(r, k), ResourceRows(r, k),
               One(r.offering != "", RowKey(Subscriptions, "ps-" + k), Row(["sub-" + k, "acc-" + k], [r.offering], 0)), rows);
  }

  // All rows of a map belong to the given tables.
  predicate In(rows: Rows, tables: set<TableName>) { forall key | key in rows :: key.table in tables }

  lemma PersonIn(r: Request, k: string)
    ensures In(PersonRows(r, k), {Individuals, ContactMedia, Identifications})
  {
  }

  lemma ServiceIn(r: Request, k: string)
    ensures In(ServiceRows(r, k), {Accounts, Subscribers, Resources, Subscriptions})
  {
  }

  lemma BucketIn(r: Request)
    ensures In(BucketRows(r), {Buckets, BucketResources})
  {
  }

  lemma TablesApart(r: Request, k: string)
    ensures PersonRows(r, k).Keys !! ServiceRows(r, k).Keys
    ensures PersonRows(r, k).Keys !! BucketRows(r).Keys
    ensures ServiceRows(r, k).Keys !! BucketRows(r).Keys
  {
    var person, service, bucket := {Individuals, ContactMedia, Identifications},
                                   {Accounts, Subscribers, Resources, Subscriptions}, {Buckets, BucketResources};
    PersonIn(r, k);
    ServiceIn(r, k);
    BucketIn(r);
    InApart(PersonRows(r, k), person, ServiceRows(r, k), service);
    InApart(PersonRows(r, k), person, BucketRows(r), bucket);
    InApart(ServiceRows(r, k), service, BucketRows(r), bucket);
  }

  lemma InApart(a: Rows, s: set<TableName>, b: Rows, t: set<TableName>)
    requires In(a, s) && In(b, t) && s !! t
    ensures a.Keys !! b.Keys
  {
  }

  lemma MergeApart(a: Rows, b: Rows, c: Rows, rows: Rows)
    requires a.Keys !! b.Keys && a.Keys !! c.Keys && b.Keys !! c.Keys
    ensures c + (b + (a + rows)) == (a + b + c) + rows
  {
  }

  lemma WrittenKeepsOrders(db: Tables, r: Request, fault: Fault)
    ensures Written(db, r, fault).orders == db.orders
  {
    assert db.WithRows(r).orders == db.orders;
  }

  lemma RecordKeepsOrders(db: Tables, r: Request, f: Faults, wrote: bool)
    ensures RecordBss(db, r, f, wrote).db.orders == db.orders
  {
  }

  lemma BssKeepsOrders(db: Tables, r: Request, f: Faults)
    ensures BssPhase(db, r, f).db.orders == db.orders
  {
    WrittenKeepsOrders(db, r, f.bss);
    RecordKeepsOrders(Written(db, r, f.bss), r, f, Wrote(db, r, f.bss));
  }

  lemma UdrKeepsOrders(db: Tables, r: Request, f: Faults)
    ensures UdrPhase(db, r, f).db.orders == db.orders
  {
  }

  // The order row is there from the first commit on.
  lemma OrderRecorded(db: Tables, r: Request, f: Faults)
    requires RecordPhase(db, r, f).going
    ensures OrderId(r) in NodePhases(RecordPhase(db, r, f).db, r, f).db.orders
  {
    var recorded := RecordPhase(db, r, f).db;
    BssKeepsOrders(recorded, r, f);
    UdrKeepsOrders(BssPhase(recorded, r, f).db, r, f);
  }

  // ---- A call is a run ----------------------------------------------------------------------------

  // The state in which the request of pid has got to a stage, or has stopped.
  function At(s: State, pid: nat, r: Request, db: Tables, stage: Stage): State {
    s.(db := db, live := s.live[pid := Process(r, stage)])
  }

  function Stopped(s: State, pid: nat, db: Tables): State { s.(db := db, live := s.live - {pid}) }

  function Reached(s: State, pid: nat, r: Request, after: After, stage: Stage): State {
    if after.going then At(s, pid, r, after.db, stage) else Stopped(s, pid, after.db)
  }

  lemma First(s: State, e: Event, es: seq<Event>)
    ensures Run(s, [e] + es) == Run(Step(s, e), es)
  {
    RunConcat(s, [e], es);
    assert [e][..0] == [];
    assert Run(s, []) == s;
  }

  // A write whose failure ends the call: it fails, or it happens and the call goes on, or it happens and the call ends.
  lemma Fatal(s: State, pid: nat, r: Request, db: Tables, stage: Stage, done: Tables, next: Stage, fault: Fault)
    returns (es: seq<Event>)
    requires Step(At(s, pid, r, db, stage), Advance(pid, Fine)) == At(s, pid, r, done, next)
    ensures Run(At(s, pid, r, db, stage), es)
            == Reached(s, pid, r, After(if fault.Fails? then db else done, fault.Fine?), next)
  {
    var at := At(s, pid, r, db, stage);
    var moved := At(s, pid, r, done, next);
    if fault.Fails? {
      es := [Crash(pid)];
      First(at, Crash(pid), []);
      assert at.live - {pid} == s.live - {pid};
    } else if fault.Fine? {
      es := [Advance(pid, Fine)];
      First(at, Advance(pid, Fine), []);
    } else {
      es := [Advance(pid, Fine), Crash(pid)];
      First(at, Advance(pid, Fine), [Crash(pid)]);
      First(moved, Crash(pid), []);
      assert moved.live - {pid} == s.live - {pid};
      assert [Advance(pid, Fine)] + [Crash(pid)] == es;
    }
  }

  lemma Forward(s: State, pid: nat, r: Request, db: Tables, stage: Stage, fault: Fault, done: Tables, next: Stage,
                es: seq<Event>) returns (fs: seq<Event>)
    requires Step(At(s, pid, r, db, stage), Advance(pid, fault)) == At(s, pid, r, done, next)
    ensures Run(At(s, pid, r, db, stage), fs) == Run(At(s, pid, r, done, next), es)
  {
    fs := [Advance(pid, fault)] + es;
    First(At(s, pid, r, db, stage), Advance(pid, fault), es);
  }

  lemma BssPhaseRuns(s: State, pid: nat, r: Request, db: Tables, f: Faults) returns (es: seq<Event>)
    ensures Run(At(s, pid, r, db, AskBss), es) == Reached(s, pid, r, BssPhase(db, r, f), AskBssAgain)
  {
    if db.BssDone(OrderId(r)) {
      es := Forward(s, pid, r, db, AskBss, Fine, db, AskBssAgain, []);
    } else {
      es := ProvisionRuns(s, pid, r, db, f);
      es := Forward(s, pid, r, db, AskBss, Fine, db, ProvisionBss, es);
    }
  }

  lemma ProvisionMoves(s: State, pid: nat, fault: Fault)
    requires pid in s.live && s.live[pid].stage.ProvisionBss?
    ensures var r := s.live[pid].request;
            Step(s, Advance(pid, fault)) == Commit(s, pid, MarkBss(Wrote(s.db, r, fault)), Written(s.db, r, fault))
  {
    assert Step(s, Advance(pid, fault)) == BssStep(s, pid, fault);
  }

  lemma CommitAt(s: State, pid: nat, r: Request, db: Tables, stage: Stage, after: Tables, next: Stage)
    ensures Commit(At(s, pid, r, db, stage), pid, next, after) == At(s, pid, r, after, next)
  {
  }

  lemma ProvisionStep(s: State, pid: nat, r: Request, db: Tables, fault: Fault)
    ensures Step(At(s, pid, r, db, ProvisionBss), Advance(pid, fault))
            == At(s, pid, r, Written(db, r, fault), MarkBss(Wrote(db, r, fault)))
  {
    ProvisionMoves(At(s, pid, r, db, ProvisionBss), pid, fault);
    CommitAt(s, pid, r, db, ProvisionBss, Written(db, r, fault), MarkBss(Wrote(db, r, fault)));
  }

  lemma ProvisionRuns(s: State, pid: nat, r: Request, db: Tables, f: Faults) returns (es: seq<Event>)
    requires !db.BssDone(OrderId(r))
    ensures Run(At(s, pid, r, db, ProvisionBss), es) == Reached(s, pid, r, BssPhase(db, r, f), AskBssAgain)
  {
    var wrote, ok := Written(db, r, f.bss), Wrote(db, r, f.bss);
    es := MarkBssRuns(s, pid, r, wrote, f, ok);
    ProvisionStep(s, pid, r, db, f.bss);
    es := Forward(s, pid, r, db, ProvisionBss, f.bss, wrote, MarkBss(ok), es);
  }

  lemma MarkBssRuns(s: State, pid: nat, r: Request, db: Tables, f: Faults, ok: bool) returns (es: seq<Event>)
    ensures Run(At(s, pid, r, db, MarkBss(ok)), es) == Reached(s, pid, r, RecordBss(db, r, f, ok), AskBssAgain)
  {
    if ok {
      es := MarkDoneRuns(s, pid, r, db, f);
    } else {
      es := MarkFailedRuns(s, pid, r, db, f);
    }
  }

  lemma MarkFailedRuns(s: State, pid: nat, r: Request, db: Tables, f: Faults) returns (es: seq<Event>)
    ensures Run(At(s, pid, r, db, MarkBss(false)), es) == Reached(s, pid, r, MarkFailedPhase(db, r, f), AskBssAgain)
  {
    es := Fatal(s, pid, r, db, MarkBss(false), db.WithTask(TaskId(BssCharging, OrderId(r)), false), AskBssAgain, f.markFailed);
  }

  lemma MarkDoneRuns(s: State, pid: nat, r: Request, db: Tables, f: Faults) returns (es: seq<Event>)
    ensures var id := TaskId(BssCharging, OrderId(r));
            var marked := if f.markDone.Fails? then db else db.WithTask(id, true);
            Run(At(s, pid, r, db, MarkBss(true)), es)
            == Reached(s, pid, r, if f.markDone.Fine? then After(marked, true) else MarkFailedPhase(marked, r, f), AskBssAgain)
  {
    var id := TaskId(BssCharging, OrderId(r));
    var marked := if f.markDone.Fails? then db else db.WithTask(id, true);
    if f.markDone.Fine? {
      es := [];
      es := Forward(s, pid, r, db, MarkBss(true), Fine, marked, AskBssAgain, es);
    } else {
      es := MarkFailedRuns(s, pid, r, marked, f);
      es := Forward(s, pid, r, db, MarkBss(true), f.markDone, marked, MarkBss(false), es);
    }
  }

  lemma UdrPhaseRuns(s: State, pid: nat, r: Request, db: Tables, f: Faults) returns (es: seq<Event>)
    ensures Run(At(s, pid, r, db, AskBssAgain), es) == Reached(s, pid, r, UdrPhase(db, r, f), CheckBss)
  {
    if !db.BssDone(OrderId(r)) {
      es := Forward(s, pid, r, db, AskBssAgain, Fine, db, CheckBss, []);
    } else if db.UdrDone(OrderId(r)) {
      es := Forward(s, pid, r, db, AskUdr, Fine, db, CheckBss, []);
      es := Forward(s, pid, r, db, AskBssAgain, Fine, db, AskUdr, es);
    } else {
      es := NodeRuns(s, pid, r, db, f);
      es := Forward(s, pid, r, db, AskUdr, Fine, db, ProvisionUdr, es);
      es := Forward(s, pid, r, db, AskBssAgain, Fine, db, AskUdr, es);
    }
  }

  // The delivery: refused, failed, done, or done and failed in the caller's eyes.
  function Sent(db: Tables, r: Request, fault: Fault): Tables {
    var d := BuildDocuments(db.setting, r);
    if d.None? || fault.Fails? then db else db.WithDocuments(d.value)
  }

  lemma SendStep(s: State, pid: nat, r: Request, db: Tables, fault: Fault)
    ensures Step(At(s, pid, r, db, ProvisionUdr), Advance(pid, fault))
            == At(s, pid, r, Sent(db, r, fault), MarkUdr(BuildDocuments(db.setting, r).Some? && fault.Fine?))
  {
  }

  lemma MarkUdrStep(s: State, pid: nat, r: Request, db: Tables, ok: bool)
    ensures Step(At(s, pid, r, db, MarkUdr(ok)), Advance(pid, Fine))
            == At(s, pid, r, db.WithTask(TaskId(UdrSubscription, OrderId(r)), ok), CheckBss)
  {
  }

  lemma NodeRuns(s: State, pid: nat, r: Request, db: Tables, f: Faults) returns (es: seq<Event>)
    requires db.BssDone(OrderId(r)) && !db.UdrDone(OrderId(r))
    ensures Run(At(s, pid, r, db, ProvisionUdr), es) == Reached(s, pid, r, UdrPhase(db, r, f), CheckBss)
  {
    var wrote, ok := Sent(db, r, f.udr), BuildDocuments(db.setting, r).Some? && f.udr.Fine?;
    MarkUdrStep(s, pid, r, wrote, ok);
    es := Fatal(s, pid, r, wrote, MarkUdr(ok), wrote.WithTask(TaskId(UdrSubscription, OrderId(r)), ok), CheckBss, f.markUdr);
    SendStep(s, pid, r, db, f.udr);
    es := Forward(s, pid, r, db, ProvisionUdr, f.udr, wrote, MarkUdr(ok), es);
  }

  lemma ClosePhaseRuns(s: State, pid: nat, r: Request, db: Tables, f: Faults) returns (es: seq<Event>)
    ensures Run(At(s, pid, r, db, CheckBss), es) == Stopped(s, pid, ClosePhase(db, r, f).db)
  {
    var all := db.BothDone(OrderId(r));
    var at := At(s, pid, r, db, Closing(all));
    es := [if f.close.Fails? then Crash(pid) else Advance(pid, Fine)];
    First(at, es[0], []);
    assert es == [es[0]] + [];
    assert at.live - {pid} == s.live - {pid};
    if db.BssDone(OrderId(r)) {
      es := Forward(s, pid, r, db, CheckUdr, Fine, db, Closing(all), es);
      es := Forward(s, pid, r, db, CheckBss, Fine, db, CheckUdr, es);
    } else {
      es := Forward(s, pid, r, db, CheckBss, Fine, db, Closing(all), es);
    }
  }

  /** From the first commit on, a call that meets these faults is a run of the step machine. */
  lemma RecordedRuns(s: State, pid: nat, r: Request, f: Faults) returns (es: seq<Event>)
    requires Valid(r)
    ensures Run(At(s, pid, r, s.db, Recording), es) == Stopped(s, pid, Attempt(s.db, r, f).db)
  {
    var recorded := RecordPhase(s.db, r, f);
    es := Fatal(s, pid, r, s.db, Recording, s.db.WithOrder(OrderId(r)), AskBss, f.record);
    if recorded.going {
      var fs := NodesRun(s, pid, r, recorded.db, f);
      RunConcat(At(s, pid, r, s.db, Recording), es, fs);
      es := es + fs;
    }
  }

  lemma NodesRun(s: State, pid: nat, r: Request, db: Tables, f: Faults) returns (es: seq<Event>)
    ensures var nodes := NodePhases(db, r, f);
            Run(At(s, pid, r, db, AskBss), es)
            == Stopped(s, pid, (if nodes.going then ClosePhase(nodes.db, r, f) else nodes).db)
  {
    var bss := BssPhase(db, r, f);
    es := BssPhaseRuns(s, pid, r, db, f);
    if bss.going {
      var fs := UdrPhaseRuns(s, pid, r, bss.db, f);
      RunConcat(At(s, pid, r, db, AskBss), es, fs);
      es := es + fs;
      var udr := UdrPhase(bss.db, r, f);
      if udr.going {
        var gs := ClosePhaseRuns(s, pid, r, udr.db, f);
        RunConcat(At(s, pid, r, db, AskBss), es, gs);
        es := es + gs;
      }
    }
  }

  /**
    One call of CreateCustomerOrder, whatever faults it meets, is a run of the step machine that leaves no
    request behind, so everything proved of runs holds of any sequence of calls.
   */
  lemma AttemptIsRun(s: State, pid: nat, r: Request, f: Faults) returns (es: seq<Event>)
    requires pid !in s.live && !Busy(s, OrderId(r))
    ensures Run(s, es).db == Attempt(s.db, r, f).db && Run(s, es).live == s.live
  {
    if !Valid(r) {
      es := [];
    } else {
      var begun := s.(started := s.started + {r});
      es := RecordedRuns(begun, pid, r, f);
      First(s, Arrive(pid, r), es);
      assert Step(s, Arrive(pid, r)) == At(begun, pid, r, begun.db, Recording);
      assert s.live - {pid} == s.live;
      es := [Arrive(pid, r)] + es;
    }
  }

  // ---- A call that meets no failure ---------------------------------------------------------------

  const NO_FAULTS := Faults(Fine, Fine, Fine, Fine, Fine, Fine, Fine)

  lemma CloseIsOutcome(db: Tables, r: Request)
    ensures ClosePhase(db, r, NO_FAULTS) == After(Outcome(db, r, CheckBss), true)
  {
  }

  lemma UdrIsOutcome(db: Tables, r: Request)
    ensures var udr := UdrPhase(db, r, NO_FAULTS);
            udr.going && Outcome(db, r, AskBssAgain) == Outcome(udr.db, r, CheckBss)
  {
  }

  lemma RecordIsOutcome(db: Tables, r: Request, ok: bool)
    ensures var bss := RecordBss(db, r, NO_FAULTS, ok);
            bss.going && Outcome(db, r, MarkBss(ok)) == Outcome(bss.db, r, AskBssAgain)
  {
  }

  lemma BssIsOutcome(db: Tables, r: Request)
    ensures var bss := BssPhase(db, r, NO_FAULTS);
            bss.going && Outcome(db, r, AskBss) == Outcome(bss.db, r, AskBssAgain)
  {
    if !db.BssDone(OrderId(r)) {
      ProvisionGives(db, r);
      RecordIsOutcome(BssWritten(db, r), r, db.Takes(r));
    }
  }

  /** It does what a request that meets no failure does, so it completes an order exactly when CleanLeaves says so. */
  lemma CleanAttempt(db: Tables, r: Request)
    requires Valid(r)
    ensures Attempt(db, r, NO_FAULTS) == After(Outcome(db, r, Recording), true)
  {
    var recorded := db.WithOrder(OrderId(r));
    BssIsOutcome(recorded, r);
    UdrIsOutcome(BssPhase(recorded, r, NO_FAULTS).db, r);
    CloseIsOutcome(NodePhases(recorded, r, NO_FAULTS).db, r);
  }
}
