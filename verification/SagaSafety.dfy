/** What the provisioning saga guarantees over whole runs, and what it does not. */
module SagaSafety {
  import opened Wrappers
  import opened SagaModel
  import opened SagaRuns

  lemma {:induction false} RunConcat(s: State, es: seq<Event>, fs: seq<Event>)
    ensures Run(s, es + fs) == Run(Run(s, es), fs)
  {
    if fs == [] {
      assert es + fs == es;
    } else {
      RunConcat(s, es, fs[..|fs| - 1]);
      assert (es + fs)[..|es + fs| - 1] == es + fs[..|fs| - 1];
    }
  }

  /** The UDR task is only done after the BSS task, and an order only counts as completed when both are. */
  lemma GatedOrders(setting: Setting, es: seq<Event>, order: string)
    ensures var db := Run(Initial(setting), es).db;
            && (db.UdrDone(order) ==> db.BssDone(order))
            && (db.StateOf(order) == Some(Completed) ==> db.BothDone(order))
            && ((order, Completed) in db.history ==> db.BothDone(order))
  {
    Reachable(setting, es);
    assert OrderOk(Run(Initial(setting), es), order);
  }

  // The chain of q holds every row r asks for.
  predicate Covers(q: Request, r: Request) {
    && q.supi == r.supi
    && (HasContact(r) ==> HasContact(q))
    && (r.msisdn != "" ==> q.msisdn != "")
    && (r.offering != "" ==> q.offering != "")
  }

  predicate HasContact(r: Request) { r.individual.email.Some? || r.individual.phone.Some? }

  // The rows a request asks for, table by table.
  predicate Asks(r: Request, key: RowKey) {
    var k := KeyOf(r.supi);
    match key.table
    case Individuals => key.id == "ind-" + k
    case ContactMedia => HasContact(r) && key.id == "cm-" + k
    case Identifications => key.id == "iid-" + k
    case Accounts => key.id == "acc-" + k
    case Subscribers => key.id == "sub-" + k
    case Resources => key.id == "res-s-" + k || (r.msisdn != "" && key.id == "res-m-" + k)
    case Subscriptions => r.offering != "" && key.id == "ps-" + k
    case Buckets => key.id == r.supi
    case BucketResources => key.id == r.supi
  }

  lemma ServiceAsks(r: Request, key: RowKey)
    ensures key in ServiceRows(r, KeyOf(r.supi)) <==>
            Asks(r, key) && (key.table.Accounts? || key.table.Subscribers? || key.table.Resources? || key.table.Subscriptions?)
  {
    var k := KeyOf(r.supi);
    assert key in LineRows(r, k) <==> Asks(r, key) && (key.table.Accounts? || key.table.Subscribers?);
    assert key in ResourceRows(r, k) <==> Asks(r, key) && key.table.Resources?;
  }

  lemma RowsAsk(r: Request, key: RowKey)
    ensures key in RowsOf(r) <==> Asks(r, key)
  {
    ServiceAsks(r, key);
    assert key in BucketRows(r) <==> Asks(r, key) && (key.table.Buckets? || key.table.BucketResources?);
  }

  lemma CoveredAsks(q: Request, r: Request, key: RowKey)
    requires Covers(q, r) && Asks(r, key)
    ensures Asks(q, key)
  {
  }

  lemma UncoveredAsks(q: Request, r: Request)
    requires q.supi == r.supi && !Covers(q, r)
    ensures exists key :: Asks(r, key) && !Asks(q, key)
  {
    var k := KeyOf(r.supi);
    if HasContact(r) && !HasContact(q) {
      assert Asks(r, RowKey(ContactMedia, "cm-" + k)) && !Asks(q, RowKey(ContactMedia, "cm-" + k));
    } else if r.msisdn != "" && q.msisdn == "" {
      assert ("res-s-" + k)[4] == 's' && ("res-m-" + k)[4] == 'm';
      assert Asks(r, RowKey(Resources, "res-m-" + k)) && !Asks(q, RowKey(Resources, "res-m-" + k));
    } else {
      assert Asks(r, RowKey(Subscriptions, "ps-" + k)) && !Asks(q, RowKey(Subscriptions, "ps-" + k));
    }
  }

  /** A request asks for no row that another one lacks exactly when that one covers it. */
  lemma CoversExactly(q: Request, r: Request)
    requires ValidSupi(q.supi) && ValidSupi(r.supi)
    ensures RowsOf(r).Keys <= RowsOf(q).Keys <==> Covers(q, r)
  {
    forall key ensures (key in RowsOf(q) <==> Asks(q, key)) && (key in RowsOf(r) <==> Asks(r, key)) {
      RowsAsk(q, key);
      RowsAsk(r, key);
    }
    if Covers(q, r) {
      forall key | key in RowsOf(r) ensures key in RowsOf(q) {
        CoveredAsks(q, r, key);
      }
    } else if q.supi == r.supi {
      UncoveredAsks(q, r);
    } else {
      assert Asks(r, RowKey(Buckets, r.supi)) && !Asks(q, RowKey(Buckets, r.supi));
    }
  }

  // Every accepted request of the order covers this one.
  predicate AllCover(s: State, r: Request) { forall q | q in s.started && OrderId(q) == OrderId(r) :: Covers(q, r) }

  predicate OnlyOfSupi(s: State, r: Request) { forall q | q in s.started && q.supi == r.supi :: q == r }

  /**
    When both tasks of an order are done and every request accepted for it covers a request, the whole chain of
    that request is in the charging database, linked to the right subscriber, and the subscriber's documents are on
    the UDR; all of them with exactly the contents asked for when no other request was made for the SUPI.
   */
  lemma DoneMeansProvisioned(setting: Setting, es: seq<Event>, r: Request)
    requires var s := Run(Initial(setting), es); Valid(r) && s.db.BothDone(OrderId(r)) && AllCover(s, r)
    ensures var s := Run(Initial(setting), es);
            && r.supi in s.db.docs && s.db.docs[r.supi].supi == r.supi
            && (forall key | key in RowsOf(r) :: key in s.db.rows && s.db.rows[key].links == RowsOf(r)[key].links)
            && (OnlyOfSupi(s, r) ==>
                  && BuildDocuments(s.db.setting, r) == Some(s.db.docs[r.supi])
                  && forall key | key in RowsOf(r) :: Like(key, s.db.rows[key], RowsOf(r)[key]))
  {
    var s := Run(Initial(setting), es);
    Reachable(setting, es);
    DoneIsPresent(s, r);
    forall key | key in RowsOf(r)
      ensures s.db.rows[key].links == RowsOf(r)[key].links
      ensures OnlyOfSupi(s, r) ==> Like(key, s.db.rows[key], RowsOf(r)[key])
    {
      RowAsAsked(s, r, key);
    }
  }

  lemma DoneIsPresent(s: State, r: Request)
    requires Inv(s) && Valid(r) && s.db.BothDone(OrderId(r)) && AllCover(s, r)
    ensures Present(s.db.rows, r) && r.supi in s.db.docs && DocumentsOk(s, r.supi)
  {
    assert OrderOk(s, OrderId(r)) && Chained(s, OrderId(r)) && Documented(s, OrderId(r));
    var q :| q in s.started && Valid(q) && OrderId(q) == OrderId(r) && Present(s.db.rows, q);
    CoversExactly(q, r);
  }

  lemma RowAsAsked(s: State, r: Request, key: RowKey)
    requires Inv(s) && Valid(r) && key in RowsOf(r) && key in s.db.rows
    ensures s.db.rows[key].links == RowsOf(r)[key].links
    ensures OnlyOfSupi(s, r) ==> Like(key, s.db.rows[key], RowsOf(r)[key])
  {
    assert RowOk(s, key);
    var q :| q in s.started && Valid(q) && key in RowsOf(q) && Like(key, s.db.rows[key], RowsOf(q)[key]);
    RowsApart(q, r, key);
    SameLinks(q, r, key);
  }

  // The links of a row depend on nothing but the SUPI.
  lemma SameLinks(q: Request, r: Request, key: RowKey)
    requires q.supi == r.supi && key in RowsOf(q) && key in RowsOf(r)
    ensures RowsOf(q)[key].links == RowsOf(r)[key].links
  {
    LinksOf(q, key);
    LinksOf(r, key);
  }

  function Links(key: RowKey, k: string, supi: string): seq<string> {
    match key.table
    case Individuals => []
    case ContactMedia => ["ind-" + k]
    case Identifications => ["ind-" + k, "SUPI", supi]
    case Accounts => ["ind-" + k]
    case Subscribers => ["acc-" + k, "ind-" + k]
    case Resources => if key.id == "res-s-" + k then ["sub-" + k, "SUPI", supi] else ["sub-" + k, "MSISDN"]
    case Subscriptions => ["sub-" + k, "acc-" + k]
    case Buckets => ["acc-" + k]
    case BucketResources => [supi, supi]
  }

  lemma ServiceLinks(r: Request, k: string, key: RowKey)
    requires key in ServiceRows(r, k)
    ensures ServiceRows(r, k)[key].links == Links(key, k, r.supi)
  {
    assert ("res-s-" + k)[4] == 's' && ("res-m-" + k)[4] == 'm';
  }

  lemma BucketLinks(r: Request, key: RowKey)
    requires key in BucketRows(r)
    ensures BucketRows(r)[key].links == Links(key, KeyOf(r.supi), r.supi)
  {
  }

  lemma LinksOf(r: Request, key: RowKey)
    requires key in RowsOf(r)
    ensures RowsOf(r)[key].links == Links(key, KeyOf(r.supi), r.supi)
  {
    var k := KeyOf(r.supi);
    var person, service, bucket := PersonRows(r, k), ServiceRows(r, k), BucketRows(r);
    if key in service {
      ServiceLinks(r, k, key);
    }
    if key in bucket {
      BucketLinks(r, key);
    }
  }

  /** Nothing that was provisioned is lost or overwritten later, and a finished order stays finished. */
  lemma DoneForever(setting: Setting, es: seq<Event>, fs: seq<Event>, order: string)
    ensures var s, t := Run(Initial(setting), es), Run(Initial(setting), es + fs);
            && RowsGrow(s, t)
            && (s.db.BothDone(order) ==> t.db.BothDone(order))
  {
    Reachable(setting, es);
    RunConcat(Initial(setting), es, fs);
    RunGood(Run(Initial(setting), es), fs);
  }

  // ---- The initial balance ------------------------------------------------------------------------

  function BalanceOf(s: State, supi: string): Option<int> {
    var key := RowKey(Buckets, supi);
    if key in s.db.rows then Some(s.db.rows[key].amount) else None
  }

  function MoveOf(e: Event, supi: string): int { if e.Move? && e.bucket == supi then e.delta else 0 }

  // The moves of a bucket from event i on.
  function Moved(es: seq<Event>, i: nat, supi: string): int
    decreases |es| - i
  {
    if i >= |es| then 0 else MoveOf(es[i], supi) + Moved(es, i + 1, supi)
  }

  lemma {:induction false} MovedSnoc(es: seq<Event>, e: Event, i: nat, supi: string)
    requires i <= |es|
    ensures Moved(es + [e], i, supi) == Moved(es, i, supi) + MoveOf(e, supi)
    decreases |es| - i
  {
    if i < |es| {
      MovedSnoc(es, e, i + 1, supi);
      assert (es + [e])[i] == es[i];
    } else {
      assert (es + [e])[i] == e;
    }
  }

  /** The event is the successful write of the rows of a request for this SUPI. */
  predicate Creates(s: State, e: Event, supi: string) {
    && e.Advance? && e.pid in s.live && s.live[e.pid].stage.ProvisionBss? && !e.fault.Fails?
    && s.live[e.pid].request.supi == supi && s.db.Takes(s.live[e.pid].request)
  }

  function InitialAmount(s: State, e: Event): int
    requires e.Advance? && e.pid in s.live
  {
    Or(s.live[e.pid].request.balance.amount, 0)
  }

  lemma BucketInserted(r: Request, supi: string)
    ensures RowKey(Buckets, supi) in RowsOf(r) <==> supi == r.supi
    ensures supi == r.supi ==> RowsOf(r)[RowKey(Buckets, supi)].amount == Or(r.balance.amount, 0)
  {
    if RowKey(Buckets, supi) in RowsOf(r) {
      RowsFit(r, RowKey(Buckets, supi));
    }
    assert RowKey(Buckets, r.supi) in BucketRows(r);
  }

  lemma BalanceInserted(db: Tables, r: Request, supi: string)
    ensures var key := RowKey(Buckets, supi);
            && (key in db.WithRows(r).rows <==> key in db.rows || supi == r.supi)
            && (key in db.rows ==> db.WithRows(r).rows[key] == db.rows[key])
            && (key !in db.rows && supi == r.supi ==> db.WithRows(r).rows[key].amount == Or(r.balance.amount, 0))
  {
    BucketInserted(r, supi);
  }

  lemma BalanceAdvances(s: State, pid: nat, fault: Fault, supi: string)
    requires pid in s.live
    ensures var t, e := AdvanceStep(s, pid, fault), Advance(pid, fault);
            BalanceOf(t, supi)
            == if BalanceOf(s, supi).None? && Creates(s, e, supi) then Some(InitialAmount(s, e)) else BalanceOf(s, supi)
  {
    if s.live[pid].stage.ProvisionBss? && !fault.Fails? {
      BalanceInserted(s.db, s.live[pid].request, supi);
    } else {
      OnlyProvisioningWrites(s, pid, fault);
    }
  }

  lemma OnlyProvisioningWrites(s: State, pid: nat, fault: Fault)
    requires pid in s.live && !(s.live[pid].stage.ProvisionBss? && !fault.Fails?)
    ensures AdvanceStep(s, pid, fault).db.rows == s.db.rows
  {
    match s.live[pid].stage
    case Recording =>
    case MarkBss(ok) => MarkLeavesNodes(s, pid, ok, fault);
    case ProvisionUdr =>
    case MarkUdr(ok) =>
    case Closing(all) =>
    case _ =>
  }

  /** A bucket appears with the initial balance of the request that creates it; after that only moves change it. */
  lemma BalanceSteps(s: State, e: Event, supi: string)
    ensures BalanceOf(Step(s, e), supi)
            == if BalanceOf(s, supi).Some? then Some(BalanceOf(s, supi).value + MoveOf(e, supi))
               else if Creates(s, e, supi) then Some(InitialAmount(s, e))
               else None
  {
    if e.Advance? && e.pid in s.live {
      BalanceAdvances(s, e.pid, e.fault, supi);
    }
  }

  // The bucket is absent before event i, which creates it; `balance` is its initial amount plus the later moves.
  predicate CreditedFrom(before: State, es: seq<Event>, supi: string, i: nat, balance: Option<int>)
    requires i < |es|
  {
    && BalanceOf(before, supi).None? && Creates(before, es[i], supi)
    && balance == Some(InitialAmount(before, es[i]) + Moved(es, i + 1, supi))
  }

  predicate CreditedAt(s0: State, es: seq<Event>, supi: string, i: nat)
    requires i < |es|
  {
    CreditedFrom(Run(s0, es[..i]), es, supi, i, BalanceOf(Run(s0, es), supi))
  }

  lemma CreditExtends(before: State, es: seq<Event>, e: Event, supi: string, i: nat, balance: int)
    requires i < |es| && CreditedFrom(before, es, supi, i, Some(balance))
    ensures CreditedFrom(before, es + [e], supi, i, Some(balance + MoveOf(e, supi)))
  {
    MovedSnoc(es, e, i + 1, supi);
  }

  lemma CreditStarts(s: State, es: seq<Event>, e: Event, supi: string)
    requires BalanceOf(s, supi).None? && Creates(s, e, supi)
    ensures CreditedFrom(s, es + [e], supi, |es|, Some(InitialAmount(s, e)))
  {
  }

  lemma BalanceAfter(s0: State, es: seq<Event>, e: Event, supi: string)
    ensures var s := Run(s0, es);
            BalanceOf(Run(s0, es + [e]), supi)
            == if BalanceOf(s, supi).Some? then Some(BalanceOf(s, supi).value + MoveOf(e, supi))
               else if Creates(s, e, supi) then Some(InitialAmount(s, e))
               else None
  {
    assert (es + [e])[..|es|] == es;
    BalanceSteps(Run(s0, es), e, supi);
  }

  /**
    The initial balance is credited once, whatever fails and however often the order is sent: a bucket holds the
    amount of the one write that created it plus the moves since.
   */
  lemma {:induction false} CreditedOnce(s0: State, es: seq<Event>, supi: string) returns (i: nat)
    requires BalanceOf(s0, supi).None? && BalanceOf(Run(s0, es), supi).Some?
    ensures i < |es| && CreditedAt(s0, es, supi, i)
  {
    var front, e := es[..|es| - 1], es[|es| - 1];
    assert es == front + [e];
    BalanceAfter(s0, front, e, supi);
    if BalanceOf(Run(s0, front), supi).Some? {
      i := CreditedOnce(s0, front, supi);
      assert front[..i] == es[..i];
      CreditExtends(Run(s0, es[..i]), front, e, supi, i, BalanceOf(Run(s0, front), supi).value);
    } else {
      i := |front|;
      CreditStarts(Run(s0, front), front, e, supi);
    }
  }

  // ---- Sending a completed order again ------------------------------------------------------------

  predicate About(e: Event, order: string) {
    !e.Move? && (e.Arrive? ==> OrderId(e.request) == order)
  }

  predicate AllOf(s: State, order: string) { forall pid | pid in s.live :: OrderId(s.live[pid].request) == order }

  lemma DoneOrderAdvance(s: State, pid: nat, fault: Fault, order: string)
    requires Here(s, pid, order) && s.db.BothDone(order)
    ensures AdvanceStep(s, pid, fault).db.rows == s.db.rows && AdvanceStep(s, pid, fault).db.docs == s.db.docs
    ensures forall q | q in AdvanceStep(s, pid, fault).live ::
              q in s.live && AdvanceStep(s, pid, fault).live[q].request == s.live[q].request
  {
    var stage := s.live[pid].stage;
    assert !stage.ProvisionBss? && !stage.ProvisionUdr?;
    NodesUntouched(s, pid, fault);
    SameRequests(s, pid, fault);
  }

  lemma DoneOrderStep(s: State, e: Event, order: string)
    requires s.db.BothDone(order) && AllOf(s, order) && About(e, order)
    requires e.Advance? && e.pid in s.live ==> Here(s, e.pid, order)
    ensures AllOf(Step(s, e), order)
    ensures Step(s, e).db.rows == s.db.rows && Step(s, e).db.docs == s.db.docs
  {
    if e.Advance? && e.pid in s.live {
      DoneOrderAdvance(s, e.pid, e.fault, order);
    }
  }

  lemma NodesUntouched(s: State, pid: nat, fault: Fault)
    requires pid in s.live && !s.live[pid].stage.ProvisionBss? && !s.live[pid].stage.ProvisionUdr?
    ensures AdvanceStep(s, pid, fault).db.rows == s.db.rows && AdvanceStep(s, pid, fault).db.docs == s.db.docs
  {
    match s.live[pid].stage
    case Recording =>
    case MarkBss(ok) => MarkLeavesNodes(s, pid, ok, fault);
    case MarkUdr(ok) =>
    case Closing(all) =>
    case _ =>
  }

  lemma MarkLeavesNodes(s: State, pid: nat, ok: bool, fault: Fault)
    requires pid in s.live
    ensures MarkBssStep(s, pid, ok, fault).db.rows == s.db.rows && MarkBssStep(s, pid, ok, fault).db.docs == s.db.docs
  {
  }

  lemma SameRequests(s: State, pid: nat, fault: Fault)
    requires pid in s.live
    ensures forall q | q in AdvanceStep(s, pid, fault).live ::
              q in s.live && AdvanceStep(s, pid, fault).live[q].request == s.live[q].request
  {
  }

  lemma StillHere(s: State, es: seq<Event>, order: string)
    requires Inv(s) && s.db.BothDone(order)
    ensures Run(s, es).db.BothDone(order)
    ensures forall pid | pid in Run(s, es).live && OrderId(Run(s, es).live[pid].request) == order ::
              Here(Run(s, es), pid, order)
  {
    RunGood(s, es);
  }

  /** Once both tasks are done, no resend of the order, complete or cut short, writes to either node. */
  lemma {:induction false} ResendWritesNothing(s: State, es: seq<Event>, order: string)
    requires Inv(s) && s.db.BothDone(order) && AllOf(s, order)
    requires forall i | 0 <= i < |es| :: About(es[i], order)
    ensures Run(s, es).db.rows == s.db.rows && Run(s, es).db.docs == s.db.docs && AllOf(Run(s, es), order)
  {
    if es != [] {
      var front := es[..|es| - 1];
      ResendWritesNothing(s, front, order);
      StillHere(s, front, order);
      DoneOrderStep(Run(s, front), es[|es| - 1], order);
    }
  }
}
