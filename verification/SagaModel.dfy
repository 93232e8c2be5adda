/**
  Provisioning one customer order: the rows it puts in the charging database, the documents it puts on the UDR
  node, and the steps by which one request does it. Every step ends in at most one commit, so a request that
  dies between two commits simply stops stepping.
 */
module SagaModel {
  import opened Wrappers
  import opened Digits

  // ---- Requests -----------------------------------------------------------------------------------

  datatype Individual = Individual(given: string, family: string, email: Option<string>, phone: Option<string>)

  // `typed`: whether the members have the types the code asks for; reading them throws otherwise.
  datatype Balance = Balance(usageType: Option<string>, unit: Option<string>, amount: Option<int>, typed: bool)

  datatype Sim = Sim(k: string, opc: string, sqn: string)

  // A string field that is absent is "" where the code does not tell the two apart.
  datatype Request = Request(idempotencyKey: string, segment: Option<string>, chargingMode: Option<string>,
                             offering: string, individual: Individual, supi: string, msisdn: string,
                             balance: Balance, sim: Sim)

  function Or<T>(o: Option<T>, d: T): T { if o.Some? then o.value else d }

  predicate Hex(s: string) { forall i | 0 <= i < |s| :: IsDigit(s[i]) || 'A' <= s[i] <= 'F' || 'a' <= s[i] <= 'f' }

  const IMSI := "imsi-"

  predicate ValidSupi(s: string) { |s| > 5 && s[..5] == IMSI && AllDigits(s[5..]) && 5 <= |s| - 5 <= 15 }

  predicate Valid(r: Request) {
    && ValidSupi(r.supi)
    && (r.msisdn == "" || (AllDigits(r.msisdn) && 5 <= |r.msisdn| <= 15))
    && Hex(r.sim.k) && |r.sim.k| == 32 && Hex(r.sim.opc) && |r.sim.opc| == 32
    && (r.sim.sqn == "" || (Hex(r.sim.sqn) && |r.sim.sqn| == 12))
  }

  function DigitsOf(s: string): (k: string)
    ensures AllDigits(k)
  {
    if s == "" then ""
    else
      var last := s[|s| - 1];
      DigitsOf(s[..|s| - 1]) + if IsDigit(last) then [last] else ""
  }

  function KeyOf(supi: string): string { if DigitsOf(supi) == "" then supi else DigitsOf(supi) }

  function OrderId(r: Request): string {
    "ord-" + if r.idempotencyKey == "" then KeyOf(r.supi) else r.idempotencyKey
  }

  lemma {:induction false} DigitsOfSuffix(s: string, n: nat)
    requires n <= |s| && AllDigits(s[n..])
    ensures DigitsOf(s) == DigitsOf(s[..n]) + s[n..]
    decreases |s|
  {
    if n < |s| {
      var front := s[..|s| - 1];
      assert AllDigits(front[n..]) by {
        assert forall i | 0 <= i < |front| - n :: front[n..][i] == s[n..][i];
      }
      DigitsOfSuffix(front, n);
      assert front[..n] == s[..n] && s[n..] == front[n..] + [s[|s| - 1]] && s[n..][|s| - 1 - n] == s[|s| - 1];
    } else {
      assert s[..n] == s && s[n..] == "";
    }
  }

  lemma KeyOfSupi(s: string)
    requires ValidSupi(s)
    ensures KeyOf(s) == s[5..]
  {
    DigitsOfSuffix(s, 5);
    assert DigitsOf("i") == DigitsOf("im") == "" by {
      assert "i"[..0] == "" && "im"[..1] == "i";
    }
    assert DigitsOf("imsi-") == "" by {
      assert "imsi-"[..4] == "imsi" && "imsi"[..3] == "ims" && "ims"[..2] == "im";
    }
  }

  /** On valid SUPIs the key that names a subscriber's entities tells the subscribers apart. */
  lemma KeyInjective(s: string, t: string)
    requires ValidSupi(s) && ValidSupi(t)
    ensures KeyOf(s) == KeyOf(t) <==> s == t
  {
    KeyOfSupi(s);
    KeyOfSupi(t);
    assert s == s[..5] + s[5..] && t == t[..5] + t[5..];
  }

  // ---- The charging database ----------------------------------------------------------------------

  datatype TableName = Individuals | ContactMedia | Identifications | Accounts | Subscribers | Resources
                     | Subscriptions | Buckets | BucketResources

  datatype RowKey = RowKey(table: TableName, id: string)

  // `links` are the columns that name other rows or the SUPI, `facts` the other columns.
  datatype Row = Row(links: seq<string>, facts: seq<string>, amount: int)

  type Rows = map<RowKey, Row>

  function One(cond: bool, key: RowKey, row: Row): Rows { if cond then map[key := row] else map[] }

  function PersonRows(r: Request, k: string): Rows {
    var i := r.individual;
    map[RowKey(Individuals, "ind-" + k) := Row([], [i.given, i.family, i.given + " " + i.family], 0)]
    + One(i.email.Some? || i.phone.Some?, RowKey(ContactMedia, "cm-" + k),
          Row(["ind-" + k], [Or(i.email, ""), Or(i.phone, "")], 0))
    + map[RowKey(Identifications, "iid-" + k) := Row(["ind-" + k, "SUPI", r.supi], [], 0)]
  }

  function LineRows(r: Request, k: string): Rows {
    map[RowKey(Accounts, "acc-" + k) := Row(["ind-" + k], [Or(r.segment, "CONSUMER")], 0)]
    + map[RowKey(Subscribers, "sub-" + k) := Row(["acc-" + k, "ind-" + k], [Or(r.chargingMode, "PREPAID")], 0)]
  }

  function ResourceRows(r: Request, k: string): Rows {
    map[RowKey(Resources, "res-s-" + k) := Row(["sub-" + k, "SUPI", r.supi], [], 0)]
    + One(r.msisdn != "", RowKey(Resources, "res-m-" + k), Row(["sub-" + k, "MSISDN"], [r.msisdn], 0))
  }

  function ServiceRows(r: Request, k: string): Rows {
    LineRows(r, k) + ResourceRows(r, k)
    + One(r.offering != "", RowKey(Subscriptions, "ps-" + k), Row(["sub-" + k, "acc-" + k], [r.offering], 0))
  }

  function BucketRow(r: Request): Row {
    Row(["acc-" + KeyOf(r.supi)], [Or(r.balance.usageType, "monetary"), Or(r.balance.unit, "USD")],
        Or(r.balance.amount, 0))
  }

  function BucketRows(r: Request): Rows {
    map[RowKey(Buckets, r.supi) := BucketRow(r)]
    + map[RowKey(BucketResources, r.supi) := Row([r.supi, r.supi], [], 0)]
  }

  /** The full chain a request stands for: party, account, subscriber, resources, subscription, balance. */
  function RowsOf(r: Request): Rows {
    PersonRows(r, KeyOf(r.supi)) + ServiceRows(r, KeyOf(r.supi)) + BucketRows(r)
  }

  predicate Fits(key: RowKey, k: string, supi: string) {
    match key.table
    case Individuals => key.id == "ind-" + k
    case ContactMedia => key.id == "cm-" + k
    case Identifications => key.id == "iid-" + k
    case Accounts => key.id == "acc-" + k
    case Subscribers => key.id == "sub-" + k
    case Resources => key.id == "res-s-" + k || key.id == "res-m-" + k
    case Subscriptions => key.id == "ps-" + k
    case Buckets => key.id == supi
    case BucketResources => key.id == supi
  }

  lemma PersonFits(r: Request, k: string, key: RowKey)
    requires key in PersonRows(r, k)
    ensures Fits(key, k, r.supi)
  {
  }

  lemma ServiceFits(r: Request, k: string, key: RowKey)
    requires key in ServiceRows(r, k)
    ensures Fits(key, k, r.supi)
  {
  }

  lemma RowsFit(r: Request, key: RowKey)
    requires key in RowsOf(r)
    ensures Fits(key, KeyOf(r.supi), r.supi)
  {
    var k := KeyOf(r.supi);
    if key in PersonRows(r, k) {
      PersonFits(r, k, key);
    }
    if key in ServiceRows(r, k) {
      ServiceFits(r, k, key);
    }
  }

  lemma PrefixInjective(p: string, a: string, b: string)
    ensures p + a == p + b <==> a == b
  {
    assert (p + a)[|p|..] == a && (p + b)[|p|..] == b;
  }

  // The key of a row names its subscriber.
  lemma FitsOne(key: RowKey, j: string, q: string, k: string, r: string)
    requires Fits(key, j, q) && Fits(key, k, r)
    ensures j == k || q == r
  {
    forall p: string ensures p + j == p + k <==> j == k {
      PrefixInjective(p, j, k);
    }
    assert ("res-s-" + j)[4] == 's' && ("res-m-" + k)[4] == 'm';
    assert ("res-s-" + k)[4] == 's' && ("res-m-" + j)[4] == 'm';
  }

  /** Requests for two subscribers never meet in a row. */
  lemma RowsApart(q: Request, r: Request, key: RowKey)
    requires ValidSupi(q.supi) && ValidSupi(r.supi) && key in RowsOf(q) && key in RowsOf(r)
    ensures q.supi == r.supi
  {
    RowsFit(q, key);
    RowsFit(r, key);
    KeyInjective(q.supi, r.supi);
    FitsOne(key, KeyOf(q.supi), q.supi, KeyOf(r.supi), r.supi);
  }

  // ---- What surrounds the saga --------------------------------------------------------------------

  datatype Profile = Profile(snssais: seq<(nat, string)>, dnn: string, uplink: string, downlink: string)

  /**
    The adapter's configuration and whether the UDR accepts what is configured; the offerings the catalog knows; and
    the SUPIs and numbers that other services hold.
   */
  datatype Setting = Setting(profiles: map<string, Profile>, initialSqn: string, accepted: bool, offerings: set<string>,
                             taken: set<string>)

  // ---- What the schema refuses --------------------------------------------------------------------

  // CHECK constraints are judged before ON CONFLICT looks for the key, so rows already there do not help.
  predicate Checked(r: Request) {
    && Or(r.segment, "CONSUMER") in {"CONSUMER", "ENTERPRISE"}
    && Or(r.chargingMode, "PREPAID") in {"PREPAID", "POSTPAID"}
    && r.balance.typed
  }

  /** An active resource row of this type with this value. */
  predicate Holds(key: RowKey, row: Row, kind: string, value: string) {
    key.table.Resources? && |row.links| >= 2 && row.links[1] == kind && row.links[2..] + row.facts == [value]
  }

  predicate Held(rows: Rows, kind: string, value: string) { exists key | key in rows :: Holds(key, rows[key], kind, value) }

  // The row is there already and is skipped, or nobody else holds the value.
  predicate Free(setting: Setting, rows: Rows, key: RowKey, kind: string, value: string) {
    key in rows || (value !in setting.taken && !Held(rows, kind, value))
  }

  /** The charging database takes the rows of the request: every constraint but the key conflict is met. */
  predicate Admits(setting: Setting, rows: Rows, r: Request) {
    var k := KeyOf(r.supi);
    && Checked(r)
    && Free(setting, rows, RowKey(Resources, "res-s-" + k), "SUPI", r.supi)
    && (r.msisdn != "" ==> Free(setting, rows, RowKey(Resources, "res-m-" + k), "MSISDN", r.msisdn))
    && (r.offering != "" ==> RowKey(Subscriptions, "ps-" + k) in rows || r.offering in setting.offerings)
  }

  // ---- The UDR node -------------------------------------------------------------------------------

  // The documents of one subscriber are a function of these, and determine them.
  datatype Documents = Documents(supi: string, msisdn: string, sim: Sim, profile: Profile)

  function ProfileOf(setting: Setting, r: Request): Option<Profile> {
    if r.offering in setting.profiles then Some(setting.profiles[r.offering])
    else if "default" in setting.profiles then Some(setting.profiles["default"])
    else None
  }

  // The sequence number a SIM starts with.
  function SqnOf(setting: Setting, r: Request): string { if r.sim.sqn == "" then setting.initialSqn else r.sim.sqn }

  /** The documents of a request that can be built and that the UDR accepts. */
  function BuildDocuments(setting: Setting, r: Request): Option<Documents> {
    var sqn := SqnOf(setting, r);
    match ProfileOf(setting, r)
    case None => None
    case Some(p) =>
      if setting.accepted && Hex(sqn) && |sqn| == 12 then Some(Documents(r.supi, r.msisdn, r.sim.(sqn := sqn), p)) else None
  }

  // ---- The orchestration database -----------------------------------------------------------------

  datatype Node = BssCharging | UdrSubscription

  datatype TaskId = TaskId(node: Node, order: string) {
    function Text(): string {
      (match node case BssCharging => "task-bss-" case UdrSubscription => "task-udr-") + order
    }
  }

  /** The text ids of the tasks are as distinct as the (node, order) pairs that stand for them here. */
  lemma TaskIdsDistinct(a: TaskId, b: TaskId)
    ensures a.Text() == b.Text() <==> a == b
  {
    assert ("task-bss-" + a.order)[5] == 'b' && ("task-udr-" + a.order)[5] == 'u';
    assert ("task-bss-" + b.order)[5] == 'b' && ("task-udr-" + b.order)[5] == 'u';
    PrefixInjective("task-bss-", a.order, b.order);
    PrefixInjective("task-udr-", a.order, b.order);
  }

  datatype TaskStatus = Pending | Done | Failed

  datatype Task = Task(status: TaskStatus, attempts: nat)

  datatype OrderState = InProgress | Completed | Incomplete

  datatype Tables = Tables(setting: Setting, orders: map<string, OrderState>,
                           history: seq<(string, OrderState)>, tasks: map<TaskId, Task>,
                           rows: Rows, docs: map<string, Documents>)
  {
    function StatusOf(id: TaskId): Option<TaskStatus> { if id in tasks then Some(tasks[id].status) else None }

    function StateOf(order: string): Option<OrderState> { if order in orders then Some(orders[order]) else None }

    predicate IsDone(id: TaskId) { StatusOf(id) == Some(Done) }

    predicate BssDone(order: string) { IsDone(TaskId(BssCharging, order)) }

    predicate UdrDone(order: string) { IsDone(TaskId(UdrSubscription, order)) }

    predicate BothDone(order: string) { BssDone(order) && UdrDone(order) }

    // Rows already there win: ON CONFLICT DO NOTHING.
    function WithOrder(order: string): Tables {
      var added := map[TaskId(BssCharging, order) := Task(Pending, 0), TaskId(UdrSubscription, order) := Task(Pending, 0)];
      this.(orders := orders[order := InProgress], tasks := added + tasks)
    }

    predicate Takes(r: Request) { Admits(setting, rows, r) }

    function WithRows(r: Request): Tables { this.(rows := RowsOf(r) + rows) }

    function WithTask(id: TaskId, ok: bool): Tables {
      if id !in tasks then this
      else this.(tasks := tasks[id := Task(if ok then Done else Failed, tasks[id].attempts + 1)])
    }

    // A PUT replaces the documents of the subscriber.
    function WithDocuments(d: Documents): Tables { this.(docs := docs[d.supi := d]) }

    function WithState(order: string, state: OrderState): Tables {
      this.(orders := if order in orders then orders[order := state] else orders, history := history + [(order, state)])
    }
  }
}
