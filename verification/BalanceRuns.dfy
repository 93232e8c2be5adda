/**
  The balance store under concurrent requests. Every request is one database transaction that moves through
  its statements one step at a time, in any interleaving with the others, and may be rolled back at any point.
  A statement that writes takes the row lock of its bucket until the transaction ends; one that matches no row
  is evaluated against the committed row and may or may not leave the row locked.
 */
module BalanceRuns {
  import opened Wrappers
  import opened BalanceModel

  // One committed event row; `id` comes from the sequence of the request's kind.
  datatype Row = Row(id: nat, txn: nat, request: Request, status: Status)

  datatype Sequences = Sequences(topup: nat, adjust: nat, reserve: nat) {
    function Next(k: Kind): nat {
      match k case Topup => topup case Adjust => adjust case Reserve => reserve
    }

    function Bump(k: Kind): Sequences {
      match k
      case Topup => this.(topup := topup + 1)
      case Adjust => this.(adjust := adjust + 1)
      case Reserve => this.(reserve := reserve + 1)
    }
  }

  datatype Phase =
    | Started
    | Updated(write: Option<Bucket>)
    | Logged(write: Option<Bucket>, id: nat)
    | Committed(id: nat)
    | Aborted
  {
    predicate Open() { !Committed? && !Aborted? }

    predicate Writing() { (Updated? || Logged?) && write.Some? }

    predicate Refused() { (Updated? || Logged?) && write.None? }
  }

  datatype Txn = Txn(request: Request, phase: Phase)

  // A transaction in the serial order: at its commit when it wrote, at its statement when it matched no row.
  datatype Entry = Entry(txn: nat, request: Request, status: Status)

  // `order` only records what happened; no step reads it.
  datatype Db = Db(buckets: Table, rows: seq<Row>, sequences: Sequences, locks: map<string, nat>,
                   txns: map<nat, Txn>, order: seq<Entry>)

  datatype Label =
    | Begin(txn: nat, request: Request)
    | Update(txn: nat, keepLock: bool)
    | LogEvent(txn: nat)
    | Commit(txn: nat)
    | Abort(txn: nat)

  function Release(locks: map<string, nat>, bucket: string, txn: nat): map<string, nat> {
    if bucket in locks && locks[bucket] == txn then locks - {bucket} else locks
  }

  function Without(order: seq<Entry>, gone: set<nat>): seq<Entry> {
    if order == [] then []
    else
      var rest := Without(order[..|order| - 1], gone);
      if order[|order| - 1].txn in gone then rest else rest + [order[|order| - 1]]
  }

  function RolledBack(s: Db, txn: nat): Db
    requires txn in s.txns
  {
    s.(locks := Release(s.locks, s.txns[txn].request.bucket, txn),
       txns := s.txns[txn := s.txns[txn].(phase := Aborted)],
       order := Without(s.order, {txn}))
  }

  function BeginStep(s: Db, t: nat, r: Request): Option<Db> {
    if t in s.txns then None else Some(s.(txns := s.txns[t := Txn(r, Started)]))
  }

  /** A statement that has to wait for the row lock is not enabled. */
  function UpdateStep(s: Db, t: nat, keepLock: bool): Option<Db> {
    if t !in s.txns || s.txns[t].phase != Started then None
    else
      var r := s.txns[t].request;
      var free := r.bucket !in s.locks;
      match Evaluate(Get(s.buckets, r.bucket), r)
      case Reject => if free then Some(RolledBack(s, t)) else None
      case Put(b) =>
        if !free then None
        else Some(s.(locks := s.locks[r.bucket := t], txns := s.txns[t := Txn(r, Updated(Some(b)))]))
      case NoRow =>
        if keepLock && !free then None
        else Some(s.(locks := if keepLock then s.locks[r.bucket := t] else s.locks,
                     txns := s.txns[t := Txn(r, Updated(None))],
                     order := s.order + [Entry(t, r, Failed)]))
  }

  /** The id is drawn before the date-times are checked, and a rollback does not give it back. */
  function LogStep(s: Db, t: nat): Option<Db> {
    if t !in s.txns || !s.txns[t].phase.Updated? then None
    else
      var r := s.txns[t].request;
      var id := s.sequences.Next(r.kind);
      var drawn := s.(sequences := s.sequences.Bump(r.kind));
      if r.datesOk then Some(drawn.(txns := s.txns[t := Txn(r, Logged(s.txns[t].phase.write, id))]))
      else Some(RolledBack(drawn, t))
  }

  function CommitStep(s: Db, t: nat): Option<Db> {
    if t !in s.txns || !s.txns[t].phase.Logged? then None
    else
      var r := s.txns[t].request;
      var w := s.txns[t].phase.write;
      var status := if w.Some? then Completed else Failed;
      Some(s.(buckets := if w.Some? then s.buckets[r.bucket := w.value] else s.buckets,
              rows := s.rows + [Row(s.txns[t].phase.id, t, r, status)],
              locks := Release(s.locks, r.bucket, t),
              txns := s.txns[t := Txn(r, Committed(s.txns[t].phase.id))],
              order := if w.Some? then s.order + [Entry(t, r, Completed)] else s.order))
  }

  function AbortStep(s: Db, t: nat): Option<Db> {
    if t !in s.txns || !s.txns[t].phase.Open() then None else Some(RolledBack(s, t))
  }

  function Next(s: Db, l: Label): Option<Db> {
    match l
    case Begin(t, r) => BeginStep(s, t, r)
    case Update(t, keepLock) => UpdateStep(s, t, keepLock)
    case LogEvent(t) => LogStep(s, t)
    case Commit(t) => CommitStep(s, t)
    case Abort(t) => AbortStep(s, t)
  }

  function Initial(open: Table): Db { Db(open, [], Sequences(1, 1, 1), map[], map[], []) }

  function Run(open: Table, ls: seq<Label>): Option<Db> {
    if ls == [] then Some(Initial(open))
    else
      var before := Run(open, ls[..|ls| - 1]);
      if before.None? then None else Next(before.value, ls[|ls| - 1])
  }

  // ---- Row locks ---------------------------------------------------------------------------------

  /** A pending write was computed from the row that is still committed, under a lock its writer holds. */
  ghost predicate LocksHold(s: Db) {
    forall t | t in s.txns && s.txns[t].phase.Writing() ::
      var r := s.txns[t].request;
      && r.bucket in s.locks && s.locks[r.bucket] == t
      && Evaluate(Get(s.buckets, r.bucket), r) == Put(s.txns[t].phase.write.value)
  }

  /** Only a commit changes the committed rows: whatever a transaction did before a rollback leaves no trace. */
  lemma OnlyCommitWrites(s: Db, l: Label)
    requires Next(s, l).Some? && !l.Commit?
    ensures Next(s, l).value.buckets == s.buckets && Next(s, l).value.rows == s.rows
  {
  }

  lemma LocksHoldStep(s: Db, l: Label)
    requires LocksHold(s) && Next(s, l).Some?
    ensures LocksHold(Next(s, l).value)
  {
  }

  // ---- The serial order --------------------------------------------------------------------------

  function Requests(order: seq<Entry>): seq<Request> {
    seq(|order|, i requires 0 <= i < |order| => order[i].request)
  }

  function Statuses(order: seq<Entry>): seq<Status> {
    seq(|order|, i requires 0 <= i < |order| => order[i].status)
  }

  /** Run one at a time in this order, the requests give this table and exactly these statuses. */
  ghost predicate Serialises(open: Table, order: seq<Entry>, table: Table) {
    Serial(open, Requests(order)) == Outcome(table, Statuses(order))
  }

  lemma SerialisesSnoc(open: Table, order: seq<Entry>, e: Entry, table: Table)
    requires Serialises(open, order, table) && StatusOf(table, e.request) == e.status
    ensures Serialises(open, order + [e], Apply(table, e.request))
  {
    assert Requests(order + [e]) == Requests(order) + [e.request];
    assert Statuses(order + [e]) == Statuses(order) + [e.status];
  }

  lemma SerialisesFront(open: Table, order: seq<Entry>, table: Table)
    requires order != [] && Serialises(open, order, table)
    ensures var front, last := order[..|order| - 1], order[|order| - 1];
            var before := Serial(open, Requests(front)).table;
            && Serialises(open, front, before)
            && table == Apply(before, last.request)
            && last.status == StatusOf(before, last.request)
  {
    var front, last := order[..|order| - 1], order[|order| - 1];
    assert order == front + [last];
    assert Requests(order) == Requests(front) + [last.request];
    assert Statuses(order) == Statuses(front) + [last.status];
    SerialLength(open, Requests(front));
    var ss, last' := Serial(open, Requests(front)).statuses, Statuses(order)[|front|];
    assert Statuses(order)[..|front|] == ss && Statuses(order)[..|front|] == Statuses(front);
    assert last' == last.status;
  }

  predicate OnlyFailed(order: seq<Entry>, txns: set<nat>) {
    forall i | 0 <= i < |order| && order[i].txn in txns :: order[i].status.Failed?
  }

  /** Leaving out transactions that failed changes nothing for the others. */
  lemma {:induction false} SerialisesWithout(open: Table, order: seq<Entry>, table: Table, gone: set<nat>)
    requires Serialises(open, order, table) && OnlyFailed(order, gone)
    ensures Serialises(open, Without(order, gone), table)
  {
    if order != [] {
      var front, last := order[..|order| - 1], order[|order| - 1];
      SerialisesFront(open, order, table);
      var before := Serial(open, Requests(front)).table;
      SerialisesWithout(open, front, before, gone);
      if last.txn !in gone {
        SerialisesSnoc(open, Without(front, gone), last, before);
      }
    }
  }

  lemma {:induction false} WithoutMembers(order: seq<Entry>, gone: set<nat>)
    ensures forall e :: e in Without(order, gone) <==> e in order && e.txn !in gone
    ensures Distinct(order) ==> Distinct(Without(order, gone))
  {
    if order != [] {
      WithoutMembers(order[..|order| - 1], gone);
      assert order == order[..|order| - 1] + [order[|order| - 1]];
    }
  }

  // No transaction occurs twice.
  predicate Distinct(order: seq<Entry>) {
    forall i, j | 0 <= i < j < |order| :: order[i].txn != order[j].txn
  }

  // An entry stands for a committed transaction, or for one that matched no row and has not ended yet.
  ghost predicate EntryHolds(s: Db, e: Entry) {
    && e.txn in s.txns && s.txns[e.txn].request == e.request
    && (s.txns[e.txn].phase.Committed? || (s.txns[e.txn].phase.Refused() && e.status.Failed?))
  }

  ghost predicate OrderHolds(s: Db) {
    && Distinct(s.order)
    && (forall e | e in s.order :: EntryHolds(s, e))
    && (forall t | t in s.txns && s.txns[t].phase.Refused() :: Entry(t, s.txns[t].request, Failed) in s.order)
  }

  // The event rows are the committed transactions, once each.
  ghost predicate RowsHold(s: Db) {
    && (forall row | row in s.rows ::
          && row.txn in s.txns && s.txns[row.txn].phase.Committed?
          && Entry(row.txn, row.request, row.status) in s.order)
    && (forall i, j | 0 <= i < j < |s.rows| :: s.rows[i].txn != s.rows[j].txn)
    && (forall t | t in s.txns && s.txns[t].phase.Committed? :: HasRow(s.rows, t))
  }

  ghost predicate HasRow(rows: seq<Row>, t: nat) { exists i :: 0 <= i < |rows| && rows[i].txn == t }

  ghost predicate Accounted(s: Db) { OrderHolds(s) && RowsHold(s) }

  lemma RolledBackAccounted(s: Db, t: nat)
    requires Accounted(s) && t in s.txns && s.txns[t].phase.Open()
    ensures Accounted(RolledBack(s, t))
  {
    WithoutMembers(s.order, {t});
  }

  lemma RefusedAccounted(s: Db, t: nat, keepLock: bool)
    requires Accounted(s) && UpdateStep(s, t, keepLock).Some?
    requires UpdateStep(s, t, keepLock).value.txns[t].phase == Updated(None)
    ensures Accounted(UpdateStep(s, t, keepLock).value)
  {
    var s' := UpdateStep(s, t, keepLock).value;
    var e' := Entry(t, s.txns[t].request, Failed);
    assert s'.order == s.order + [e'];
    forall e | e in s'.order ensures EntryHolds(s', e) {
      assert e in s.order || e == e';
      assert e in s.order ==> EntryHolds(s, e);
    }
    forall i, j | 0 <= i < j < |s'.order| ensures s'.order[i].txn != s'.order[j].txn {
      assert EntryHolds(s, s.order[i]);
    }
    assert s'.order[|s.order|] == e';
    forall u | u in s'.txns && s'.txns[u].phase.Committed? ensures HasRow(s'.rows, u) {
      assert HasRow(s.rows, u);
    }
  }

  lemma UpdateAccounted(s: Db, t: nat, keepLock: bool)
    requires Accounted(s) && UpdateStep(s, t, keepLock).Some?
    ensures Accounted(UpdateStep(s, t, keepLock).value)
  {
    var r := s.txns[t].request;
    match Evaluate(Get(s.buckets, r.bucket), r)
    case Reject => RolledBackAccounted(s, t);
    case Put(_) =>
    case NoRow => RefusedAccounted(s, t, keepLock);
  }

  lemma CommitOrderHolds(s: Db, t: nat)
    requires Accounted(s) && CommitStep(s, t).Some?
    ensures OrderHolds(CommitStep(s, t).value)
  {
    var s' := CommitStep(s, t).value;
    forall e | e in s'.order ensures EntryHolds(s', e) {
      if e in s.order {
        assert EntryHolds(s, e);
      }
    }
    forall i, j | 0 <= i < j < |s'.order| ensures s'.order[i].txn != s'.order[j].txn {
      assert EntryHolds(s, s.order[i]);
    }
  }

  lemma CommitRowsHold(s: Db, t: nat)
    requires Accounted(s) && CommitStep(s, t).Some?
    ensures RowsHold(CommitStep(s, t).value)
  {
    var s' := CommitStep(s, t).value;
    var row' := s'.rows[|s.rows|];
    assert Entry(t, row'.request, row'.status) in s'.order by {
      assert s'.order != s.order ==> s'.order[|s.order|] == Entry(t, row'.request, row'.status);
    }
    forall u | u in s'.txns && s'.txns[u].phase.Committed? ensures HasRow(s'.rows, u) {
      if u == t {
        assert s'.rows[|s.rows|].txn == t;
      } else {
        var i :| 0 <= i < |s.rows| && s.rows[i].txn == u;
        assert s'.rows[i].txn == u;
      }
    }
    forall i, j | 0 <= i < j < |s'.rows| ensures s'.rows[i].txn != s'.rows[j].txn {
      assert s.rows[i] in s.rows;
    }
  }

  lemma LogAccounted(s: Db, t: nat)
    requires Accounted(s) && LogStep(s, t).Some?
    ensures Accounted(LogStep(s, t).value)
  {
    RolledBackAccounted(s.(sequences := s.sequences.Bump(s.txns[t].request.kind)), t);
  }

  lemma AccountedStep(s: Db, l: Label)
    requires Accounted(s) && Next(s, l).Some?
    ensures Accounted(Next(s, l).value)
  {
    match l
    case Begin(t, r) =>
    case Abort(t) => RolledBackAccounted(s, t);
    case LogEvent(t) => LogAccounted(s, t);
    case Update(t, keepLock) => UpdateAccounted(s, t, keepLock);
    case Commit(t) =>
      CommitOrderHolds(s, t);
      CommitRowsHold(s, t);
  }

  lemma SerialisesStep(open: Table, s: Db, l: Label)
    requires Serialises(open, s.order, s.buckets) && LocksHold(s) && Accounted(s) && Next(s, l).Some?
    ensures var s' := Next(s, l).value; Serialises(open, s'.order, s'.buckets)
  {
    var s' := Next(s, l).value;
    if l.Begin? {
    } else {
      var t := l.txn;
      var r := s.txns[t].request;
      if s'.txns[t].phase.Aborted? {
        assert OnlyFailed(s.order, {t}) by {
          forall i | 0 <= i < |s.order| && s.order[i].txn in {t} ensures s.order[i].status.Failed? {
            assert s.order[i] in s.order;
          }
        }
        SerialisesWithout(open, s.order, s.buckets, {t});
      } else if s'.order != s.order {
        SerialisesSnoc(open, s.order, s'.order[|s.order|], s.buckets);
      }
    }
  }

  ghost predicate Inv(open: Table, s: Db) {
    LocksHold(s) && Accounted(s) && Serialises(open, s.order, s.buckets)
  }

  lemma {:induction false} RunKeepsInv(open: Table, ls: seq<Label>)
    requires Run(open, ls).Some?
    ensures Inv(open, Run(open, ls).value)
  {
    if ls != [] {
      var front := ls[..|ls| - 1];
      RunKeepsInv(open, front);
      var s := Run(open, front).value;
      LocksHoldStep(s, ls[|front|]);
      AccountedStep(s, ls[|front|]);
      SerialisesStep(open, s, ls[|front|]);
    }
  }

  /** The committed transactions in the order in which they took effect. */
  function History(s: Db): seq<Entry> {
    Without(s.order, NotCommitted(s))
  }

  function NotCommitted(s: Db): set<nat> { set t | t in s.txns && !s.txns[t].phase.Committed? }

  /**
    Serialisability: after any interleaving, the buckets and the statuses are those of running the committed
    transactions one at a time, and every committed transaction has exactly one event row.
   */
  lemma Serialisable(open: Table, ls: seq<Label>)
    requires Run(open, ls).Some?
    ensures var s := Run(open, ls).value;
            && Serialises(open, History(s), s.buckets)
            && Distinct(History(s))
            && (forall i, j | 0 <= i < j < |s.rows| :: s.rows[i].txn != s.rows[j].txn)
            && (forall t, r, status :: Entry(t, r, status) in History(s) <==>
                                       exists i :: 0 <= i < |s.rows| && s.rows[i] == Row(s.rows[i].id, t, r, status))
  {
    RunKeepsInv(open, ls);
    var s := Run(open, ls).value;
    var gone := NotCommitted(s);
    assert OnlyFailed(s.order, gone) by {
      forall i | 0 <= i < |s.order| && s.order[i].txn in gone ensures s.order[i].status.Failed? {
        assert EntryHolds(s, s.order[i]);
      }
    }
    SerialisesWithout(open, s.order, s.buckets, gone);
    WithoutMembers(s.order, gone);
    forall t, r, status | Entry(t, r, status) in History(s)
      ensures exists i :: 0 <= i < |s.rows| && s.rows[i] == Row(s.rows[i].id, t, r, status)
    {
      var e := Entry(t, r, status);
      assert EntryHolds(s, e);
      assert HasRow(s.rows, t);
      var i :| 0 <= i < |s.rows| && s.rows[i].txn == t;
      assert s.rows[i] in s.rows;
      assert Entry(t, s.rows[i].request, s.rows[i].status) in s.order;
    }
    forall i | 0 <= i < |s.rows|
      ensures Entry(s.rows[i].txn, s.rows[i].request, s.rows[i].status) in History(s)
    {
      assert s.rows[i] in s.rows;
    }
  }

  // ---- Real time ---------------------------------------------------------------------------------

  predicate Precedes(order: seq<Entry>, t1: nat, t2: nat) {
    forall i, j | 0 <= i < |order| && 0 <= j < |order| && order[i].txn == t1 && order[j].txn == t2 :: i < j
  }

  lemma {:induction false} PrecedesWithout(order: seq<Entry>, gone: set<nat>, t1: nat, t2: nat)
    requires Precedes(order, t1, t2)
    ensures Precedes(Without(order, gone), t1, t2)
  {
    if order != [] {
      var front, last := order[..|order| - 1], order[|order| - 1];
      PrecedesWithout(front, gone, t1, t2);
      if last.txn == t1 {
        WithoutMembers(front, gone);
        var kept := Without(front, gone);
        forall j | 0 <= j < |kept| ensures kept[j].txn != t2 {
          assert kept[j] in front;
        }
      }
    }
  }

  lemma PrecedesStep(s: Db, l: Label, t1: nat, t2: nat)
    requires Next(s, l).Some?
    requires t1 in s.txns && s.txns[t1].phase.Committed? && Precedes(s.order, t1, t2)
    ensures var s' := Next(s, l).value;
            t1 in s'.txns && s'.txns[t1].phase.Committed? && Precedes(s'.order, t1, t2)
  {
    if !l.Begin? {
      PrecedesWithout(s.order, {l.txn}, t1, t2);
    }
  }

  lemma NotBegunPrecedes(open: Table, ls: seq<Label>, t1: nat, t2: nat)
    requires Run(open, ls).Some? && t2 !in Run(open, ls).value.txns
    ensures Precedes(Run(open, ls).value.order, t1, t2)
  {
    RunKeepsInv(open, ls);
    var s := Run(open, ls).value;
    forall i | 0 <= i < |s.order| ensures s.order[i].txn != t2 {
      assert EntryHolds(s, s.order[i]);
    }
  }

  /** A transaction that committed before another began comes before it in the serial order. */
  lemma {:induction false} RealTimeOrder(open: Table, ls: seq<Label>, more: seq<Label>, t1: nat, t2: nat)
    requires Run(open, ls + more).Some? && Run(open, ls).Some?
    requires var s := Run(open, ls).value;
             t1 in s.txns && s.txns[t1].phase.Committed? && t2 !in s.txns
    ensures var s' := Run(open, ls + more).value;
            && t1 in s'.txns && s'.txns[t1].phase.Committed?
            && Precedes(s'.order, t1, t2) && Precedes(History(s'), t1, t2)
  {
    if more == [] {
      assert ls + more == ls;
      NotBegunPrecedes(open, ls, t1, t2);
    } else {
      var front := more[..|more| - 1];
      assert (ls + more)[..|ls + more| - 1] == ls + front;
      RealTimeOrder(open, ls, front, t1, t2);
      PrecedesStep(Run(open, ls + front).value, more[|front|], t1, t2);
    }
    var s' := Run(open, ls + more).value;
    PrecedesWithout(s'.order, NotCommitted(s'), t1, t2);
  }
}
