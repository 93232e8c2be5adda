/**
  What one top-up, adjust or reserve does to the bucket table, and what running requests one at a time gives.
  Amounts are integers in the smallest unit. `datesOk` says whether every date-time of the request parses,
  `accountKnown` whether its party account is absent or exists.
 */
module BalanceModel {
  import opened Wrappers

  datatype Kind = Topup | Adjust | Reserve

  datatype Status = Completed | Failed

  datatype Bucket = Bucket(remaining: int, reserved: int)

  datatype Request = Request(kind: Kind, bucket: string, amount: int, datesOk: bool, accountKnown: bool)

  type Table = map<string, Bucket>

  function Get(t: Table, id: string): Option<Bucket> {
    if id in t then Some(t[id]) else None
  }

  // The outcome of the one conditional statement: a constraint violation, no row matched, or the new row.
  datatype Statement = Reject | NoRow | Put(bucket: Bucket)

  function Evaluate(row: Option<Bucket>, r: Request): Statement {
    match r.kind
    case Topup =>
      if row.Some? then Put(row.value.(remaining := row.value.remaining + r.amount))
      else if r.accountKnown then Put(Bucket(r.amount, 0))
      else Reject
    case Adjust =>
      if row.Some? && row.value.remaining + r.amount >= 0
      then Put(row.value.(remaining := row.value.remaining + r.amount))
      else NoRow
    case Reserve =>
      if r.amount >= 0 then
        if row.Some? && row.value.remaining >= r.amount
        then Put(Bucket(row.value.remaining - r.amount, row.value.reserved + r.amount))
        else NoRow
      else
        var refund := -r.amount;
        if row.Some? && row.value.reserved >= refund
        then Put(Bucket(row.value.remaining + refund, row.value.reserved - refund))
        else NoRow
  }

  // An absent bucket counts as holding nothing.
  function Remaining(row: Option<Bucket>): int { if row.Some? then row.value.remaining else 0 }

  function Reserved(row: Option<Bucket>): int { if row.Some? then row.value.reserved else 0 }

  // The signed movement a completed request stands for, independent of the row it met.
  function RemainingMove(r: Request): int { if r.kind.Reserve? then -r.amount else r.amount }

  function ReservedMove(r: Request): int { if r.kind.Reserve? then r.amount else 0 }

  function Apply(t: Table, r: Request): Table {
    match Evaluate(Get(t, r.bucket), r)
    case Put(b) => t[r.bucket := b]
    case _ => t
  }

  function StatusOf(t: Table, r: Request): Status {
    if Evaluate(Get(t, r.bucket), r).Put? then Completed else Failed
  }

  datatype Outcome = Outcome(table: Table, statuses: seq<Status>)

  /** The requests run one at a time, in order, from the table `open`. */
  function Serial(open: Table, rs: seq<Request>): Outcome {
    if rs == [] then Outcome(open, [])
    else
      var before := Serial(open, rs[..|rs| - 1]);
      var r := rs[|rs| - 1];
      Outcome(Apply(before.table, r), before.statuses + [StatusOf(before.table, r)])
  }

  predicate NonNegative(t: Table) {
    forall id | id in t :: t[id].remaining >= 0 && t[id].reserved >= 0
  }

  /** The one request whose statement checks no floor and lowers an amount. */
  predicate Debit(r: Request) { r.kind.Topup? && r.amount < 0 }

  /** On a given row a statement that matches keeps both amounts non-negative exactly when a top-up covers its debit. */
  lemma PutNonNegative(row: Option<Bucket>, r: Request, b: Bucket)
    requires Evaluate(row, r) == Put(b)
    requires Remaining(row) >= 0 && Reserved(row) >= 0
    ensures b.remaining >= 0 && b.reserved >= 0 <==> (r.kind.Topup? ==> Remaining(row) + r.amount >= 0)
  {
  }

  /** A request keeps every non-negative table non-negative exactly when it is no top-up by a negative amount. */
  lemma KeepsFloorsExactly(r: Request)
    ensures (forall t: Table | NonNegative(t) :: NonNegative(Apply(t, r))) <==> !Debit(r)
  {
    if Debit(r) {
      var t: Table := map[r.bucket := Bucket(0, 0)];
      assert NonNegative(t) && Apply(t, r)[r.bucket].remaining < 0;
    } else {
      forall t: Table | NonNegative(t) ensures NonNegative(Apply(t, r)) {
        if Evaluate(Get(t, r.bucket), r).Put? {
          PutNonNegative(Get(t, r.bucket), r, Evaluate(Get(t, r.bucket), r).bucket);
        }
      }
    }
  }

  lemma {:induction false} SerialLength(open: Table, rs: seq<Request>)
    ensures |Serial(open, rs).statuses| == |rs|
  {
    if rs != [] {
      SerialLength(open, rs[..|rs| - 1]);
    }
  }
}
