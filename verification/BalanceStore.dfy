/**
  The store itself: the bucket and event tables as fields, and the three mutating calls, each of them one
  transaction that is undone when it throws. A call made alone is what the step machine of BalanceRuns
  does when one transaction runs without interference.
 */
module BalanceStore {
  import opened Wrappers
  import opened BalanceModel
  import opened BalanceRuns

  // UnknownAccount and BadDateTime are the two client errors (400); both leave no trace but a used-up id.
  datatype Error = UnknownAccount | BadDateTime

  datatype Tables = Tables(buckets: Table, rows: seq<Row>, sequences: Sequences)

  /** What one call does to the tables, and its result: the status of the event, or the error it throws. */
  function Call(s: Tables, txn: nat, r: Request): (Tables, Result<Status, Error>) {
    if Evaluate(Get(s.buckets, r.bucket), r).Reject? then (s, Err(UnknownAccount))
    else
      var drawn := s.(sequences := s.sequences.Bump(r.kind));
      if !r.datesOk then (drawn, Err(BadDateTime))
      else
        var status := StatusOf(s.buckets, r);
        (drawn.(buckets := Apply(s.buckets, r), rows := s.rows + [Row(s.sequences.Next(r.kind), txn, r, status)]),
         Ok(status))
  }

  class BalanceStore {
    var buckets: Table
    var rows: seq<Row>
    var sequences: Sequences

    constructor (open: Table)
      ensures State() == Tables(open, [], Sequences(1, 1, 1))
    {
      buckets, rows, sequences := open, [], Sequences(1, 1, 1);
    }

    function State(): Tables
      reads this
    {
      Tables(buckets, rows, sequences)
    }

    // Draws the event id, then writes the event row; a malformed date-time undoes the whole transaction.
    method Record(txn: nat, r: Request, succeeded: bool, before: Table) returns (result: Result<Status, Error>)
      modifies this
      ensures sequences == old(sequences).Bump(r.kind)
      ensures r.datesOk ==>
                var status := if succeeded then Completed else Failed;
                && result == Ok(status) && buckets == old(buckets)
                && rows == old(rows) + [Row(old(sequences).Next(r.kind), txn, r, status)]
      ensures !r.datesOk ==> result == Err(BadDateTime) && buckets == before && rows == old(rows)
    {
      var id := sequences.Next(r.kind);
      sequences := sequences.Bump(r.kind);
      if !r.datesOk {
        buckets := before;
        return Err(BadDateTime);
      }
      var status := if succeeded then Completed else Failed;
      rows := rows + [Row(id, txn, r, status)];
      return Ok(status);
    }

    /** Credits a bucket, creating it when it is new. */
    method TopUp(txn: nat, r: Request) returns (result: Result<Status, Error>)
      requires r.kind.Topup?
      modifies this
      ensures (State(), result) == Call(old(State()), txn, r)
    {
      var before := buckets;
      if r.bucket in buckets {
        buckets := buckets[r.bucket := Bucket(buckets[r.bucket].remaining + r.amount, buckets[r.bucket].reserved)];
      } else if r.accountKnown {
        buckets := buckets[r.bucket := Bucket(r.amount, 0)];
      } else {
        return Err(UnknownAccount);
      }
      result := Record(txn, r, true, before);
    }

    /** Credits or debits a bucket, never below zero. */
    method AdjustBy(txn: nat, r: Request) returns (result: Result<Status, Error>)
      requires r.kind.Adjust?
      modifies this
      ensures (State(), result) == Call(old(State()), txn, r)
    {
      var before := buckets;
      var succeeded := false;
      if r.bucket in buckets && buckets[r.bucket].remaining + r.amount >= 0 {
        buckets := buckets[r.bucket := Bucket(buckets[r.bucket].remaining + r.amount, buckets[r.bucket].reserved)];
        succeeded := true;
      }
      result := Record(txn, r, succeeded, before);
    }

    /** Moves an amount from remaining to reserved, or back when it is negative, only if that much is there. */
    method Hold(txn: nat, r: Request) returns (result: Result<Status, Error>)
      requires r.kind.Reserve?
      modifies this
      ensures (State(), result) == Call(old(State()), txn, r)
    {
      var before := buckets;
      var succeeded := false;
      if r.amount >= 0 {
        if r.bucket in buckets && buckets[r.bucket].remaining >= r.amount {
          buckets := buckets[r.bucket := Bucket(buckets[r.bucket].remaining - r.amount,
                                                buckets[r.bucket].reserved + r.amount)];
          succeeded := true;
        }
      } else {
        var refund := -r.amount;
        if r.bucket in buckets && buckets[r.bucket].reserved >= refund {
          buckets := buckets[r.bucket := Bucket(buckets[r.bucket].remaining + refund,
                                                buckets[r.bucket].reserved - refund)];
          succeeded := true;
        }
      }
      result := Record(txn, r, succeeded, before);
    }
  }

  function TablesOf(s: Db): Tables { Tables(s.buckets, s.rows, s.sequences) }

  /**
    One transaction run without interference, from its first statement to its commit or rollback, leaves the
    tables exactly as the call does, and releases its lock.
   */
  lemma SoloTransactionIsCall(s: Db, t: nat, r: Request, keepLock: bool)
    requires t !in s.txns && r.bucket !in s.locks
    ensures var begun := BeginStep(s, t, r).value;
            var (after, result) := Call(TablesOf(s), t, r);
            var updated := UpdateStep(begun, t, keepLock);
            && updated.Some?
            && (result == Err(UnknownAccount) ==>
                  updated.value.txns[t].phase.Aborted? && TablesOf(updated.value) == after
                  && updated.value.locks == s.locks)
            && (result != Err(UnknownAccount) ==>
                  var logged := LogStep(updated.value, t);
                  && logged.Some?
                  && (result == Err(BadDateTime) ==>
                        logged.value.txns[t].phase.Aborted? && TablesOf(logged.value) == after
                        && logged.value.locks == s.locks)
                  && (result.Ok? ==>
                        var done := CommitStep(logged.value, t);
                        done.Some? && TablesOf(done.value) == after && done.value.locks == s.locks))
  {
    var begun := BeginStep(s, t, r).value;
    var updated := UpdateStep(begun, t, keepLock).value;
    assert s.locks[r.bucket := t] - {r.bucket} == s.locks;
    if !Evaluate(Get(s.buckets, r.bucket), r).Reject? {
      var logged := LogStep(updated, t).value;
    }
  }
}
