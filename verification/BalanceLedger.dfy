/**
  What every interleaving of balance transactions keeps: the ledger equation between buckets and event rows,
  the floors, the event ids, and exactly when replaying the rows in commit order tells the same story.
 */
module BalanceLedger {
  import opened Wrappers
  import opened BalanceModel
  import opened BalanceRuns

  // The amounts of the completed events of one kind on one bucket.
  function Total(rows: seq<Row>, id: string, kind: Kind): int {
    if rows == [] then 0
    else
      var last := rows[|rows| - 1];
      Total(rows[..|rows| - 1], id, kind) +
      if last.request.bucket == id && last.request.kind == kind && last.status.Completed? then last.request.amount
      else 0
  }

  /** remaining = opening + top-ups + adjustments - reserves, and reserved = opening + reserves. */
  ghost predicate LedgerHolds(open: Table, s: Db) {
    forall id: string ::
      && Remaining(Get(s.buckets, id)) ==
         Remaining(Get(open, id)) + Total(s.rows, id, Topup) + Total(s.rows, id, Adjust) - Total(s.rows, id, Reserve)
      && Reserved(Get(s.buckets, id)) == Reserved(Get(open, id)) + Total(s.rows, id, Reserve)
  }

  lemma LedgerStep(open: Table, s: Db, t: nat)
    requires LedgerHolds(open, s) && LocksHold(s) && CommitStep(s, t).Some?
    ensures LedgerHolds(open, CommitStep(s, t).value)
  {
    var s' := CommitStep(s, t).value;
    var txn := s.txns[t];
    forall id: string
      ensures Remaining(Get(s'.buckets, id)) == Remaining(Get(open, id)) + Total(s'.rows, id, Topup)
                                                + Total(s'.rows, id, Adjust) - Total(s'.rows, id, Reserve)
      ensures Reserved(Get(s'.buckets, id)) == Reserved(Get(open, id)) + Total(s'.rows, id, Reserve)
    {
    }
  }

  lemma {:induction false} Ledger(open: Table, ls: seq<Label>)
    requires Run(open, ls).Some?
    ensures LedgerHolds(open, Run(open, ls).value)
  {
    if ls != [] {
      var front := ls[..|ls| - 1];
      Ledger(open, front);
      LocksAlways(open, front);
      NextLedger(open, Run(open, front).value, ls[|front|]);
    }
  }

  lemma LocksAlways(open: Table, ls: seq<Label>)
    requires Run(open, ls).Some?
    ensures LocksHold(Run(open, ls).value)
  {
    RunKeepsInv(open, ls);
  }

  lemma NextLedger(open: Table, s: Db, l: Label)
    requires LedgerHolds(open, s) && LocksHold(s) && Next(s, l).Some?
    ensures LedgerHolds(open, Next(s, l).value)
  {
    if l.Commit? {
      LedgerStep(open, s, l.txn);
    } else {
      OnlyCommitWrites(s, l);
    }
  }

  // ---- Event ids and rejected requests -----------------------------------------------------------

  ghost predicate HasId(txn: Txn) { txn.phase.Logged? || txn.phase.Committed? }

  ghost predicate IdsHold(s: Db) {
    && (forall t | t in s.txns && HasId(s.txns[t]) ::
          s.txns[t].phase.id < s.sequences.Next(s.txns[t].request.kind) && s.txns[t].request.datesOk)
    && (forall t, u | t in s.txns && u in s.txns && t != u && HasId(s.txns[t]) && HasId(s.txns[u])
                      && s.txns[t].request.kind == s.txns[u].request.kind ::
          s.txns[t].phase.id != s.txns[u].phase.id)
  }

  ghost predicate RowIdsHold(s: Db) {
    forall i | 0 <= i < |s.rows| ::
      s.rows[i].txn in s.txns && s.txns[s.rows[i].txn] == Txn(s.rows[i].request, Committed(s.rows[i].id))
  }

  lemma IdsLogStep(s: Db, t: nat)
    requires IdsHold(s) && RowIdsHold(s) && LogStep(s, t).Some?
    ensures IdsHold(LogStep(s, t).value) && RowIdsHold(LogStep(s, t).value)
  {
    var s' := LogStep(s, t).value;
    assert forall k: Kind :: s'.sequences.Next(k) >= s.sequences.Next(k);
  }

  // A step that moves one transaction, to a phase without an id, and leaves rows and sequences alone.
  lemma IdsQuietStep(s: Db, s': Db, t: nat)
    requires IdsHold(s) && RowIdsHold(s)
    requires s'.rows == s.rows && s'.sequences == s.sequences
    requires t in s'.txns && !HasId(s'.txns[t]) && s'.txns == s.txns[t := s'.txns[t]]
    requires t in s.txns ==> s.txns[t].phase.Open()
    ensures IdsHold(s') && RowIdsHold(s')
  {
  }

  lemma IdsCommitStep(s: Db, t: nat)
    requires IdsHold(s) && RowIdsHold(s) && CommitStep(s, t).Some?
    ensures IdsHold(CommitStep(s, t).value) && RowIdsHold(CommitStep(s, t).value)
  {
  }

  lemma IdsStep(s: Db, l: Label)
    requires IdsHold(s) && RowIdsHold(s) && Next(s, l).Some?
    ensures IdsHold(Next(s, l).value) && RowIdsHold(Next(s, l).value)
  {
    match l
    case LogEvent(t) => IdsLogStep(s, t);
    case Commit(t) => IdsCommitStep(s, t);
    case Begin(t, r) => IdsQuietStep(s, BeginStep(s, t, r).value, t);
    case Update(t, keepLock) => IdsQuietStep(s, UpdateStep(s, t, keepLock).value, t);
    case Abort(t) => IdsQuietStep(s, AbortStep(s, t).value, t);
  }

  /** Event ids are never reused within a kind, and no event was ever written for a malformed date-time. */
  lemma {:induction false} EventIds(open: Table, ls: seq<Label>)
    requires Run(open, ls).Some?
    ensures var s := Run(open, ls).value;
            && IdsHold(s) && RowIdsHold(s)
            && (forall i | 0 <= i < |s.rows| :: s.rows[i].request.datesOk)
            && forall i, j | 0 <= i < j < |s.rows| && s.rows[i].request.kind == s.rows[j].request.kind ::
                 s.rows[i].id != s.rows[j].id
  {
    if ls != [] {
      EventIds(open, ls[..|ls| - 1]);
      IdsStep(Run(open, ls[..|ls| - 1]).value, ls[|ls| - 1]);
    }
    RunKeepsInv(open, ls);
  }

  // ---- Floors ------------------------------------------------------------------------------------

  /** A commit leaves the table non-negative exactly when it credits nothing below zero. */
  lemma CommitFloor(s: Db, t: nat)
    requires NonNegative(s.buckets) && LocksHold(s) && CommitStep(s, t).Some?
    ensures var r := s.txns[t].request;
            NonNegative(CommitStep(s, t).value.buckets) <==>
              (s.txns[t].phase.write.Some? && r.kind.Topup? ==> Remaining(Get(s.buckets, r.bucket)) + r.amount >= 0)
  {
    var r, s' := s.txns[t].request, CommitStep(s, t).value;
    if s.txns[t].phase.write.Some? {
      PutNonNegative(Get(s.buckets, r.bucket), r, s.txns[t].phase.write.value);
      assert s'.buckets[r.bucket] == s.txns[t].phase.write.value;
    }
  }

  // Only these requests are ever made.
  predicate Begins(ls: seq<Label>, rs: set<Request>) {
    forall i | 0 <= i < |ls| && ls[i].Begin? :: ls[i].request in rs
  }

  ghost predicate Of(s: Db, rs: set<Request>) { forall t | t in s.txns :: s.txns[t].request in rs }

  /** From every non-negative opening, no run of these requests takes an amount below zero. */
  ghost predicate NeverOverdrawn(rs: set<Request>) {
    forall open: Table, ls: seq<Label> | NonNegative(open) && Begins(ls, rs) && Run(open, ls).Some? ::
      NonNegative(Run(open, ls).value.buckets)
  }

  lemma {:induction false} StaysNonNegative(open: Table, ls: seq<Label>, rs: set<Request>)
    requires Run(open, ls).Some? && NonNegative(open) && Begins(ls, rs)
    requires forall r | r in rs && r.datesOk :: !Debit(r)
    ensures NonNegative(Run(open, ls).value.buckets) && Of(Run(open, ls).value, rs)
  {
    if ls != [] {
      var front, l := ls[..|ls| - 1], ls[|ls| - 1];
      StaysNonNegative(open, front, rs);
      LocksAlways(open, front);
      EventIds(open, front);
      var s := Run(open, front).value;
      if l.Commit? {
        assert HasId(s.txns[l.txn]);
        CommitFloor(s, l.txn);
      } else {
        OnlyCommitWrites(s, l);
      }
    }
  }

  lemma RunSnoc(open: Table, ls: seq<Label>, l: Label)
    requires Run(open, ls).Some?
    ensures Run(open, ls + [l]) == Next(Run(open, ls).value, l)
  {
    assert (ls + [l])[..|ls + [l]| - 1] == ls;
  }

  lemma DebitOverdraws(r: Request) returns (open: Table, ls: seq<Label>)
    requires Debit(r) && r.datesOk
    ensures NonNegative(open) && Begins(ls, {r}) && Run(open, ls).Some? && !NonNegative(Run(open, ls).value.buckets)
  {
    open := map[r.bucket := Bucket(0, 0)];
    ls := [Begin(0, r)];
    RunSnoc(open, [], Begin(0, r));
    assert [] + ls == ls;
    RunSnoc(open, ls, Update(0, false));
    ls := ls + [Update(0, false)];
    RunSnoc(open, ls, LogEvent(0));
    ls := ls + [LogEvent(0)];
    RunSnoc(open, ls, Commit(0));
    ls := ls + [Commit(0)];
    assert Run(open, ls).value.buckets[r.bucket] == Bucket(r.amount, 0);
  }

  /** No interleaving overdraws exactly when no top-up among the requests is negative and can commit. */
  lemma NeverOverdrawnExactly(rs: set<Request>)
    ensures NeverOverdrawn(rs) <==> forall r | r in rs && r.datesOk :: !Debit(r)
  {
    if forall r | r in rs && r.datesOk :: !Debit(r) {
      forall open: Table, ls: seq<Label> | NonNegative(open) && Begins(ls, rs) && Run(open, ls).Some?
        ensures NonNegative(Run(open, ls).value.buckets)
      {
        StaysNonNegative(open, ls, rs);
      }
    } else {
      var r :| r in rs && r.datesOk && Debit(r);
      var open, ls := DebitOverdraws(r);
      assert Begins(ls, rs);
    }
  }

  // ---- Commit order ------------------------------------------------------------------------------

  /** The table the first rows leave when each row keeps the status it has. */
  function Applied(open: Table, rows: seq<Row>): Table {
    if rows == [] then open
    else
      var before := Applied(open, rows[..|rows| - 1]);
      if rows[|rows| - 1].status.Completed? then Apply(before, rows[|rows| - 1].request) else before
  }

  // Every completed row was allowed by the table at its own commit, and the buckets are what the rows say.
  ghost predicate RowsExplain(open: Table, rows: seq<Row>) {
    forall k | 0 <= k < |rows| && rows[k].status.Completed? ::
      StatusOf(Applied(open, rows[..k]), rows[k].request).Completed?
  }

  lemma RowsExplainStep(open: Table, s: Db, t: nat)
    requires RowsExplain(open, s.rows) && s.buckets == Applied(open, s.rows)
    requires LocksHold(s) && CommitStep(s, t).Some?
    ensures var s' := CommitStep(s, t).value; RowsExplain(open, s'.rows) && s'.buckets == Applied(open, s'.rows)
  {
    var s' := CommitStep(s, t).value;
    forall k | 0 <= k < |s'.rows| && s'.rows[k].status.Completed?
      ensures StatusOf(Applied(open, s'.rows[..k]), s'.rows[k].request).Completed?
    {
      assert s'.rows[..k] == s.rows[..k];
      assert s.rows[..|s.rows|] == s.rows;
    }
  }

  lemma {:induction false} RowsExplainBuckets(open: Table, ls: seq<Label>)
    requires Run(open, ls).Some?
    ensures var s := Run(open, ls).value; RowsExplain(open, s.rows) && s.buckets == Applied(open, s.rows)
  {
    if ls != [] {
      var front := ls[..|ls| - 1];
      RowsExplainBuckets(open, front);
      LocksAlways(open, front);
      NextExplains(open, Run(open, front).value, ls[|front|]);
    }
  }

  lemma NextExplains(open: Table, s: Db, l: Label)
    requires LocksHold(s) && Next(s, l).Some? && RowsExplain(open, s.rows) && s.buckets == Applied(open, s.rows)
    ensures var t := Next(s, l).value; RowsExplain(open, t.rows) && t.buckets == Applied(open, t.rows)
  {
    if l.Commit? {
      RowsExplainStep(open, s, l.txn);
    } else {
      OnlyCommitWrites(s, l);
    }
  }

  function Entries(rows: seq<Row>): seq<Entry> {
    seq(|rows|, i requires 0 <= i < |rows| => Entry(rows[i].txn, rows[i].request, rows[i].status))
  }

  // Every refused row would have been refused by the table at its own commit too.
  ghost predicate StillRefused(open: Table, rows: seq<Row>) {
    forall k | 0 <= k < |rows| && rows[k].status.Failed? ::
      StatusOf(Applied(open, rows[..k]), rows[k].request).Failed?
  }

  lemma {:induction false} CommitOrderReplays(open: Table, rows: seq<Row>)
    requires RowsExplain(open, rows)
    ensures Serialises(open, Entries(rows), Applied(open, rows)) <==> StillRefused(open, rows)
  {
    if rows != [] {
      var front, last := rows[..|rows| - 1], rows[|rows| - 1];
      assert rows == front + [last];
      assert forall k | 0 <= k <= |front| :: rows[..k] == front[..k];
      assert front[..|front|] == front;
      CommitOrderReplays(open, front);
      var e := Entry(last.txn, last.request, last.status);
      assert Entries(rows) == Entries(front) + [e];
      if StillRefused(open, rows) {
        assert StillRefused(open, front);
        assert StatusOf(Applied(open, front), last.request) == last.status;
        SerialisesSnoc(open, Entries(front), e, Applied(open, front));
      }
      if Serialises(open, Entries(rows), Applied(open, rows)) {
        SerialisesFront(open, Entries(rows), Applied(open, rows));
        assert Entries(rows)[..|rows| - 1] == Entries(front);
        ReplayedTable(open, front);
        assert Serial(open, Requests(Entries(front))).table == Applied(open, front);
        forall k | 0 <= k < |rows| && rows[k].status.Failed?
          ensures StatusOf(Applied(open, rows[..k]), rows[k].request).Failed?
        {
          if k == |front| {
            assert rows[..k] == front;
          } else {
            assert rows[k] == front[k];
          }
        }
      }
    }
  }

  // When the replay gives the recorded statuses it also gives the recorded table.
  lemma {:induction false} ReplayedTable(open: Table, rows: seq<Row>)
    requires RowsExplain(open, rows)
    requires Serial(open, Requests(Entries(rows))).statuses == Statuses(Entries(rows))
    ensures Serial(open, Requests(Entries(rows))).table == Applied(open, rows)
  {
    if rows != [] {
      var front, last := rows[..|rows| - 1], rows[|rows| - 1];
      var e := Entry(last.txn, last.request, last.status);
      assert rows == front + [last];
      assert forall k | 0 <= k <= |front| :: rows[..k] == front[..k];
      assert Entries(rows) == Entries(front) + [e];
      var table := Serial(open, Requests(Entries(rows))).table;
      SerialisesFront(open, Entries(rows), table);
      assert Entries(rows)[..|rows| - 1] == Entries(front);
      ReplayedTable(open, front);
    }
  }

  /**
    Replaying the event rows in commit order gives the same buckets and statuses exactly when no refused
    request would have been accepted by the committed row at the moment it committed.
   */
  lemma CommitOrderExact(open: Table, ls: seq<Label>)
    requires Run(open, ls).Some?
    ensures var s := Run(open, ls).value;
            Serialises(open, Entries(s.rows), s.buckets) <==> StillRefused(open, s.rows)
  {
    RowsExplainBuckets(open, ls);
    CommitOrderReplays(open, Run(open, ls).value.rows);
  }

  /** It does not always: a reserve refused before a top-up commits may itself commit after it. */
  lemma CommitOrderCanDisagree() returns (open: Table, ls: seq<Label>)
    ensures Run(open, ls).Some?
    ensures var s := Run(open, ls).value;
            |s.rows| == 2 && s.rows[1].status.Failed? && !Serialises(open, Entries(s.rows), s.buckets)
  {
    open := map["b" := Bucket(5, 0)];
    var credit, hold := Request(Topup, "b", 10, true, true), Request(Reserve, "b", 10, true, true);
    ls := [];
    RunSnoc(open, ls, Begin(1, credit));
    ls := ls + [Begin(1, credit)];
    RunSnoc(open, ls, Begin(2, hold));
    ls := ls + [Begin(2, hold)];
    RunSnoc(open, ls, Update(1, false));
    ls := ls + [Update(1, false)];
    RunSnoc(open, ls, Update(2, false));
    ls := ls + [Update(2, false)];
    RunSnoc(open, ls, LogEvent(1));
    ls := ls + [LogEvent(1)];
    RunSnoc(open, ls, Commit(1));
    ls := ls + [Commit(1)];
    RunSnoc(open, ls, LogEvent(2));
    ls := ls + [LogEvent(2)];
    RunSnoc(open, ls, Commit(2));
    ls := ls + [Commit(2)];
    var rows := Run(open, ls).value.rows;
    assert rows == [Row(1, 1, credit, Completed), Row(1, 2, hold, Failed)];
    CommitOrderExact(open, ls);
    assert rows[..1] == [] + [rows[0]];
    assert StatusOf(Applied(open, rows[..1]), rows[1].request).Completed?;
  }

  // ---- Commits in between -------------------------------------------------------------------------

  /** The second request, when it takes effect, can make room for the first or create its bucket. */
  predicate Helps(other: Request, r: Request) {
    other.bucket == r.bucket
    && (other.kind.Topup? || (if r.kind.Reserve? && r.amount < 0 then ReservedMove(other) else RemainingMove(other)) > 0)
  }

  lemma NoHelp(row: Option<Bucket>, other: Request, r: Request, b: Bucket)
    requires Evaluate(row, r).NoRow? && Evaluate(row, other) == Put(b) && other.bucket == r.bucket && !Helps(other, r)
    ensures Evaluate(Some(b), r).NoRow?
  {
  }

  // Between the statement of a transaction and its end another one commits that makes room for it.
  ghost predicate HelpedAt(s: Db, ls: seq<Label>, t: nat, i: int, j: int) {
    && 0 <= i < j < |ls| && ls[i].Update? && ls[i].txn == t && ls[j].Commit? && ls[j].txn != t
    && Commit(t) !in ls[..j] && ls[j].txn in s.txns && t in s.txns
    && Helps(s.txns[ls[j].txn].request, s.txns[t].request)
  }

  ghost predicate Helped(s: Db, ls: seq<Label>, t: nat) { exists i, j :: HelpedAt(s, ls, t, i, j) }

  lemma HelpedStays(s: Db, ls: seq<Label>, l: Label, t: nat)
    requires Next(s, l).Some? && Helped(s, ls, t)
    ensures Helped(Next(s, l).value, ls + [l], t)
  {
    var i, j :| HelpedAt(s, ls, t, i, j);
    var s' := Next(s, l).value;
    assert s'.txns[t].request == s.txns[t].request && s'.txns[ls[j].txn].request == s.txns[ls[j].txn].request;
    assert (ls + [l])[..j] == ls[..j];
    assert HelpedAt(s', ls + [l], t, i, j);
  }

  ghost predicate Refuses(s: Db, r: Request) { Evaluate(Get(s.buckets, r.bucket), r).NoRow? }

  // A refused transaction that is still open was helped or would be refused again.
  ghost predicate ShutAt(s: Db, ls: seq<Label>, t: nat)
    requires t in s.txns
  {
    && (exists i :: 0 <= i < |ls| && ls[i].Update? && ls[i].txn == t) && Commit(t) !in ls
    && (Helped(s, ls, t) || Refuses(s, s.txns[t].request))
  }

  ghost predicate StillShut(s: Db, ls: seq<Label>) {
    && (forall t | t in s.txns && s.txns[t].phase.Refused() :: ShutAt(s, ls, t))
    && (forall t | Commit(t) in ls :: t in s.txns && s.txns[t].phase.Committed?)
  }

  // And so it was at the commit of every refused row.
  ghost predicate RowsShut(open: Table, s: Db, ls: seq<Label>) {
    forall k | 0 <= k < |s.rows| && s.rows[k].status.Failed? ::
      Helped(s, ls, s.rows[k].txn) || StatusOf(Applied(open, s.rows[..k]), s.rows[k].request).Failed?
  }

  lemma ShutStays(s: Db, ls: seq<Label>, l: Label, t: nat)
    requires Next(s, l).Some? && t in s.txns && ShutAt(s, ls, t) && l != Commit(t)
    requires LocksHold(s)
    ensures t in Next(s, l).value.txns && ShutAt(Next(s, l).value, ls + [l], t)
  {
    var s', r := Next(s, l).value, s.txns[t].request;
    var i :| 0 <= i < |ls| && ls[i].Update? && ls[i].txn == t;
    assert (ls + [l])[i] == ls[i];
    assert s'.txns[t].request == r;
    if Helped(s, ls, t) {
      HelpedStays(s, ls, l, t);
    } else if l.Commit? && s.txns[l.txn].phase.write.Some? && s.txns[l.txn].request.bucket == r.bucket {
      var other := s.txns[l.txn].request;
      if Helps(other, r) {
        assert (ls + [l])[..|ls|] == ls && (ls + [l])[|ls|] == l;
        assert HelpedAt(s', ls + [l], t, i, |ls|);
      } else {
        NoHelp(Get(s.buckets, r.bucket), other, r, s.txns[l.txn].phase.write.value);
      }
    } else if !l.Commit? {
      OnlyCommitWrites(s, l);
    }
  }

  lemma JustRefused(s: Db, ls: seq<Label>, t: nat, keepLock: bool)
    requires StillShut(s, ls) && UpdateStep(s, t, keepLock).Some?
    requires UpdateStep(s, t, keepLock).value.txns[t].phase == Updated(None)
    ensures ShutAt(UpdateStep(s, t, keepLock).value, ls + [Update(t, keepLock)], t)
  {
    assert (ls + [Update(t, keepLock)])[|ls|] == Update(t, keepLock);
  }

  // A transaction that is refused after a step was so before it, or the step is its own statement.
  lemma RefusedBefore(s: Db, l: Label, t: nat)
    requires Next(s, l).Some? && t in Next(s, l).value.txns && Next(s, l).value.txns[t].phase.Refused()
    ensures l != Commit(t)
    ensures (t in s.txns && s.txns[t].phase.Refused()) || (l.Update? && l.txn == t && Next(s, l).value.txns[t].phase == Updated(None))
  {
  }

  lemma ShutStep(s: Db, ls: seq<Label>, l: Label)
    requires StillShut(s, ls) && LocksHold(s) && Next(s, l).Some?
    ensures StillShut(Next(s, l).value, ls + [l])
  {
    var s' := Next(s, l).value;
    forall t | t in s'.txns && s'.txns[t].phase.Refused() ensures ShutAt(s', ls + [l], t) {
      RefusedBefore(s, l, t);
      if t in s.txns && s.txns[t].phase.Refused() {
        ShutStays(s, ls, l, t);
      } else {
        JustRefused(s, ls, t, l.keepLock);
      }
    }
    forall t | Commit(t) in ls + [l] ensures t in s'.txns && s'.txns[t].phase.Committed? {
      assert Commit(t) in ls || l == Commit(t);
    }
  }

  lemma RowsStep(open: Table, s: Db, ls: seq<Label>, l: Label)
    requires StillShut(s, ls) && RowsShut(open, s, ls) && s.buckets == Applied(open, s.rows) && Next(s, l).Some?
    ensures RowsShut(open, Next(s, l).value, ls + [l])
  {
    var s' := Next(s, l).value;
    if !l.Commit? {
      OnlyCommitWrites(s, l);
    }
    forall k | 0 <= k < |s'.rows| && s'.rows[k].status.Failed?
      ensures Helped(s', ls + [l], s'.rows[k].txn) || StatusOf(Applied(open, s'.rows[..k]), s'.rows[k].request).Failed?
    {
      assert s'.rows[..k] == s.rows[..k];
      if k == |s.rows| {
        assert s.rows[..k] == s.rows;
        assert ShutAt(s, ls, l.txn);
      }
      if Helped(s, ls, s'.rows[k].txn) {
        HelpedStays(s, ls, l, s'.rows[k].txn);
      }
    }
  }

  lemma {:induction false} RefusedStaysRefused(open: Table, ls: seq<Label>)
    requires Run(open, ls).Some?
    ensures StillShut(Run(open, ls).value, ls) && RowsShut(open, Run(open, ls).value, ls)
  {
    if ls != [] {
      var front, l := ls[..|ls| - 1], ls[|ls| - 1];
      RefusedStaysRefused(open, front);
      LocksAlways(open, front);
      RowsExplainBuckets(open, front);
      assert ls == front + [l];
      ShutStep(Run(open, front).value, front, l);
      RowsStep(open, Run(open, front).value, front, l);
    }
  }

  /**
    Replaying in commit order agrees whenever no refused request was overtaken: between its statement and its commit
    no other transaction commits that credits what it lacked or creates its bucket.
   */
  lemma CommitOrderAgrees(open: Table, ls: seq<Label>)
    requires Run(open, ls).Some?
    requires var s := Run(open, ls).value; forall row | row in s.rows && row.status.Failed? :: !Helped(s, ls, row.txn)
    ensures var s := Run(open, ls).value; Serialises(open, Entries(s.rows), s.buckets)
  {
    RefusedStaysRefused(open, ls);
    CommitOrderExact(open, ls);
    var s := Run(open, ls).value;
    forall k | 0 <= k < |s.rows| && s.rows[k].status.Failed?
      ensures StatusOf(Applied(open, s.rows[..k]), s.rows[k].request).Failed?
    {
      assert s.rows[k] in s.rows;
    }
  }
}
