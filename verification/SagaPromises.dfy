/**
  What a completed order promises to a request, over every run of a set of requests, failures and crashes included:
  exactly when its rows are there, exactly when its documents are, and that one number serves one order.
 */
module SagaPromises {
  import opened Wrappers
  import opened SagaModel
  import opened SagaRuns
  import opened SagaSafety
  import opened SagaRecovery
  import opened SagaSequences
  import opened SagaCuts
  import opened SagaCollisions

  /** Requests that may be sent, in an order in which the charging database takes them. */
  ghost predicate Sequence(setting: Setting, allowed: set<Request>, hs: seq<Request>) {
    InTurn(setting, hs) && forall h | h in hs :: h in allowed
  }

  // The UDR takes what this request asks for, and that can complete the order.
  predicate Deliverable(setting: Setting, p: Request, order: string) {
    Valid(p) && OrderId(p) == order && BuildDocuments(setting, p).Some?
  }

  // ---- A run for every sequence -------------------------------------------------------------------

  lemma FromConcat(es: seq<Event>, fs: seq<Event>, allowed: set<Request>)
    requires From(es, allowed) && From(fs, allowed)
    ensures From(es + fs, allowed)
  {
  }

  lemma {:induction false} WritingFrom(hs: seq<Request>, allowed: set<Request>)
    requires forall h | h in hs :: h in allowed
    ensures From(AllWriting(hs), allowed)
  {
    if hs != [] {
      WritingFrom(hs[..|hs| - 1], allowed);
      FromConcat(AllWriting(hs[..|hs| - 1]), Writing(hs[|hs| - 1]), allowed);
    }
  }

  lemma WrittenIs(db: Tables, h: Request)
    ensures var t, order := WrittenTables(db, h), OrderId(h);
            && t.rows == RowsOf(h) + db.rows && t.docs == db.docs && SameOthers(db, t, order)
            && Recorded(t, order) && t.UdrDone(order) == db.UdrDone(order)
  {
    RecordedBy(db, OrderId(h));
    RowsOnly(db.WithOrder(OrderId(h)), RowsOf(h) + db.rows, OrderId(h));
  }

  lemma RowsOnly(db: Tables, rows: Rows, order: string)
    ensures var t := db.(rows := rows);
            && t.docs == db.docs && SameOthers(db, t, order) && Recorded(t, order) == Recorded(db, order)
            && t.UdrDone(order) == db.UdrDone(order)
  {
  }

  lemma MarkedIs(db: Tables, h: Request)
    ensures var t, order := MarkedTables(db, h), OrderId(h);
            && t.rows == RowsOf(h) + db.rows && t.docs == db.docs && SameOthers(db, t, order)
            && t.BssDone(order) && t.UdrDone(order) == db.UdrDone(order)
  {
    WrittenIs(db, h);
    Marked(WrittenTables(db, h), BssCharging, OrderId(h), true);
  }

  // One request's rows are recorded, another request delivers: what is needed to complete an order.
  function Finishing(h: Request, p: Request): seq<Event> { Marking(h) + Clean(0, p) }

  // Nobody works, the rows of h are there, its order is open and the request p of that order can be delivered.
  ghost predicate CanFinish(s: State, h: Request, p: Request) {
    && MayWrite(s, h) && Present(s.db.rows, h) && !s.db.UdrDone(OrderId(h))
    && Deliverable(s.db.setting, p, OrderId(h))
  }

  lemma FinishMarked(s: State, h: Request, p: Request)
    requires s.live == map[] && s.db.BssDone(OrderId(p)) && !s.db.UdrDone(OrderId(p)) && Deliverable(s.db.setting, p, OrderId(h))
    ensures var t := Run(s, Clean(0, p));
            && t.live == map[] && t.db.rows == s.db.rows && SameOthers(s.db, t.db, OrderId(h))
            && t.db.docs == s.db.docs[p.supi := BuildDocuments(s.db.setting, p).value]
            && t.db.StateOf(OrderId(h)) == Some(Completed)
  {
    CleanGives(s, 0, p);
    CleanLeaves(s.db, p);
  }

  lemma FinishOne(s: State, h: Request, p: Request)
    requires CanFinish(s, h, p)
    ensures var t := Run(s, Finishing(h, p));
            && t.live == map[] && t.db.rows == s.db.rows && SameOthers(s.db, t.db, OrderId(h))
            && t.db.docs == s.db.docs[p.supi := BuildDocuments(s.db.setting, p).value]
            && t.db.StateOf(OrderId(h)) == Some(Completed)
  {
    MarkOne(s, h);
    MarkedIs(s.db, h);
    assert RowsOf(h) + s.db.rows == s.db.rows;
    FinishMarked(Run(s, Marking(h)), h, p);
    RunConcat(s, Marking(h), Clean(0, p));
  }

  lemma FinishingFrom(h: Request, p: Request, allowed: set<Request>)
    requires h in allowed && p in allowed
    ensures From(Finishing(h, p), allowed)
  {
    CleanFrom(0, p, allowed);
    assert From(Marking(h), allowed);
    FromConcat(Marking(h), Clean(0, p), allowed);
  }

  // After the rows of a sequence, its requests can be finished.
  lemma FinishesWritten(s: State, setting: Setting, hs: seq<Request>, h: Request, p: Request)
    requires InTurn(setting, hs) && h in hs && Deliverable(setting, p, OrderId(h))
    requires s.live == map[] && s.db.setting == setting && s.db.rows == RowsAfter(hs)
    requires !s.db.BssDone(OrderId(h)) && !s.db.UdrDone(OrderId(h))
    ensures CanFinish(s, h, p)
  {
    AllPresent(setting, hs, h);
    TakenAgain(setting, s.db.rows, h);
  }

  /** Any sequence, and any deliverable request of one of its orders: a run that writes the one and delivers the other. */
  lemma OneOrder(setting: Setting, allowed: set<Request>, hs: seq<Request>, p: Request) returns (es: seq<Event>)
    requires Sequence(setting, allowed, hs) && p in allowed && Mentions(hs, OrderId(p)) && Deliverable(setting, p, OrderId(p))
    ensures From(es, allowed)
    ensures var t := Run(Initial(setting), es);
            && t.live == map[] && t.db.setting == setting && t.db.rows == RowsAfter(hs)
            && t.db.docs == map[p.supi := BuildDocuments(setting, p).value]
            && t.db.StateOf(OrderId(p)) == Some(Completed)
            && forall other: string | other != OrderId(p) :: !t.db.BssDone(other) && !t.db.UdrDone(other)
  {
    var h :| h in hs && OrderId(h) == OrderId(p);
    es := AllWriting(hs) + Finishing(h, p);
    WritingFrom(hs, allowed);
    FinishingFrom(h, p, allowed);
    FromConcat(AllWriting(hs), Finishing(h, p), allowed);
    SequenceIsRun(setting, hs);
    RunConcat(Initial(setting), AllWriting(hs), Finishing(h, p));
    var s := Run(Initial(setting), AllWriting(hs));
    FinishesWritten(s, setting, hs, h, p);
    FinishOne(s, h, p);
  }

  /** The same with a second order, delivered after the first. */
  lemma TwoOrders(setting: Setting, allowed: set<Request>, hs: seq<Request>, p: Request, q: Request) returns (es: seq<Event>)
    requires Sequence(setting, allowed, hs) && p in allowed && q in allowed && OrderId(p) != OrderId(q)
    requires Mentions(hs, OrderId(p)) && Mentions(hs, OrderId(q))
    requires Deliverable(setting, p, OrderId(p)) && Deliverable(setting, q, OrderId(q))
    ensures From(es, allowed)
    ensures var t := Run(Initial(setting), es);
            && t.db.StateOf(OrderId(p)) == Some(Completed) && t.db.setting == setting
            && q.supi in t.db.docs && t.db.docs[q.supi] == BuildDocuments(setting, q).value
  {
    var fs := OneOrder(setting, allowed, hs, p);
    var s := Run(Initial(setting), fs);
    var h :| h in hs && OrderId(h) == OrderId(q);
    es := fs + Finishing(h, q);
    FinishingFrom(h, q, allowed);
    FromConcat(fs, Finishing(h, q), allowed);
    RunConcat(Initial(setting), fs, Finishing(h, q));
    FinishesWritten(s, setting, hs, h, q);
    FinishOne(s, h, q);
  }

  // ---- Rows ---------------------------------------------------------------------------------------

  /** In every run of these requests, a completed order has all rows of this request. */
  ghost predicate RowsGuaranteed(setting: Setting, allowed: set<Request>, r: Request) {
    forall es: seq<Event> | From(es, allowed) ::
      var s := Run(Initial(setting), es);
      s.db.StateOf(OrderId(r)) == Some(Completed) ==> Present(s.db.rows, r)
  }

  ghost predicate CanDeliver(setting: Setting, allowed: set<Request>, order: string) {
    exists p | p in allowed :: Deliverable(setting, p, order)
  }

  /** A request of the order that is taken, first or after at most two others of its subscriber. */
  ghost predicate Short(setting: Setting, allowed: set<Request>, hs: seq<Request>, order: string) {
    Sequence(setting, allowed, hs) && |hs| <= 3 && OneSubscriber(hs) && Mentions(hs, order)
  }

  // What a run that completes the order shows.
  lemma Explained(setting: Setting, es: seq<Event>, allowed: set<Request>, order: string)
    returns (hs: seq<Request>, p: Request)
    requires From(es, allowed) && Run(Initial(setting), es).db.StateOf(order) == Some(Completed)
    ensures var s := Run(Initial(setting), es);
            && Sequence(setting, allowed, hs) && Mentions(hs, order) && Told(s, hs) && s.db.setting == setting
            && s.started <= allowed
            && p in allowed && Deliverable(setting, p, order) && p.supi in s.db.docs
  {
    var s := Run(Initial(setting), es);
    hs := WritesInTurn(setting, es);
    SettingsStay(setting, es);
    StartedFrom(Initial(setting), es, allowed);
    Reachable(setting, es);
    assert OrderOk(s, order) && Documented(s, order);
    p :| p in s.started && Valid(p) && OrderId(p) == order && Delivered(s.db, p);
  }

  lemma CompletedRows(setting: Setting, es: seq<Event>, allowed: set<Request>, r: Request)
    requires From(es, allowed) && Run(Initial(setting), es).db.StateOf(OrderId(r)) == Some(Completed)
    requires CanDeliver(setting, allowed, OrderId(r)) ==>
               forall hs: seq<Request> | Short(setting, allowed, hs, OrderId(r)) :: Present(RowsAfter(hs), r)
    ensures Present(Run(Initial(setting), es).db.rows, r)
  {
    var hs, p := Explained(setting, es, allowed, OrderId(r));
    var gs := CutToOne(setting, hs, OrderId(r));
    assert Short(setting, allowed, gs, OrderId(r));
    PartRows(setting, gs, hs);
  }

  /**
    An order that somebody can deliver guarantees the rows of a request exactly when no three requests for one
    subscriber, taken one after the other with one of the order among them, leave any of these rows out.
   */
  lemma RowsGuaranteedExactly(setting: Setting, allowed: set<Request>, r: Request)
    ensures RowsGuaranteed(setting, allowed, r) <==>
            (CanDeliver(setting, allowed, OrderId(r)) ==>
               forall hs: seq<Request> | Short(setting, allowed, hs, OrderId(r)) :: Present(RowsAfter(hs), r))
  {
    var order := OrderId(r);
    if CanDeliver(setting, allowed, order) && exists hs: seq<Request> :: Short(setting, allowed, hs, order) && !Present(RowsAfter(hs), r) {
      var hs: seq<Request> :| Short(setting, allowed, hs, order) && !Present(RowsAfter(hs), r);
      var p :| p in allowed && Deliverable(setting, p, order);
      var es := OneOrder(setting, allowed, hs, p);
      assert From(es, allowed);
    } else {
      forall es: seq<Event> | From(es, allowed) && Run(Initial(setting), es).db.StateOf(order) == Some(Completed)
        ensures Present(Run(Initial(setting), es).db.rows, r)
      {
        CompletedRows(setting, es, allowed, r);
      }
    }
  }

  /** Every request is taken by an empty database, or for a reason of its own never taken. */
  predicate Plain(setting: Setting, allowed: set<Request>) {
    forall q | q in allowed && Valid(q) && Checked(q) && q.supi !in setting.taken :: CanWrite(setting, q)
  }

  predicate WritersCover(setting: Setting, allowed: set<Request>, r: Request) {
    forall q | q in allowed && Valid(q) && CanWrite(setting, q) && OrderId(q) == OrderId(r) :: Covers(q, r)
  }

  lemma NotPresent(q: Request, r: Request)
    requires Valid(q) && Valid(r) && !Covers(q, r)
    ensures !Present(RowsOf(q), r)
  {
    CoversExactly(q, r);
  }

  lemma ShortAlone(setting: Setting, allowed: set<Request>, q: Request) returns (hs: seq<Request>)
    requires q in allowed && Valid(q) && CanWrite(setting, q)
    ensures Short(setting, allowed, hs, OrderId(q)) && RowsAfter(hs) == RowsOf(q)
  {
    hs := Alone(setting, q);
  }

  lemma PlainPresent(setting: Setting, allowed: set<Request>, hs: seq<Request>, r: Request)
    requires Valid(r) && Plain(setting, allowed) && WritersCover(setting, allowed, r)
    requires Short(setting, allowed, hs, OrderId(r))
    ensures Present(RowsAfter(hs), r)
  {
    var q :| q in hs && OrderId(q) == OrderId(r);
    AllMeet(setting, hs);
    AllPresent(setting, hs, q);
    assert Covers(q, r);
    CoversExactly(q, r);
  }

  /** Of plain requests: exactly when every one of the order that the charging database can take covers this one. */
  lemma PlainRows(setting: Setting, allowed: set<Request>, r: Request)
    requires Valid(r) && Plain(setting, allowed)
    ensures RowsGuaranteed(setting, allowed, r) <==>
            (CanDeliver(setting, allowed, OrderId(r)) ==> WritersCover(setting, allowed, r))
  {
    RowsGuaranteedExactly(setting, allowed, r);
    if WritersCover(setting, allowed, r) {
      forall hs: seq<Request> | Short(setting, allowed, hs, OrderId(r)) ensures Present(RowsAfter(hs), r) {
        PlainPresent(setting, allowed, hs, r);
      }
    } else {
      var q :| q in allowed && Valid(q) && CanWrite(setting, q) && OrderId(q) == OrderId(r) && !Covers(q, r);
      var hs := ShortAlone(setting, allowed, q);
      NotPresent(q, r);
    }
  }

  lemma Alone(setting: Setting, q: Request) returns (hs: seq<Request>)
    requires Valid(q) && CanWrite(setting, q)
    ensures hs == [q] && InTurn(setting, hs) && RowsAfter(hs) == RowsOf(q) && Mentions(hs, OrderId(q))
  {
    hs := [q];
    assert hs[..0] == [];
    assert RowsAfter([]) == map[];
    assert RowsOf(q) + map[] == RowsOf(q);
    assert q in hs;
  }

  // ---- Documents ----------------------------------------------------------------------------------

  /** In every run of these requests a completed order has this request's documents on the UDR. */
  ghost predicate DocumentsGuaranteed(setting: Setting, allowed: set<Request>, r: Request) {
    forall es: seq<Event> | From(es, allowed) ::
      var s := Run(Initial(setting), es);
      s.db.StateOf(OrderId(r)) == Some(Completed) ==> HasDocuments(s.db, r)
  }

  // A request that finishes the order, or that puts documents where this one's belong.
  predicate Rivals(setting: Setting, q: Request, r: Request) {
    Deliverable(setting, q, OrderId(q)) && (OrderId(q) == OrderId(r) || q.supi == r.supi)
  }

  /** Requests, at most six, that provision both orders one after the other. */
  ghost predicate Meeting(setting: Setting, allowed: set<Request>, hs: seq<Request>, a: string, b: string) {
    Sequence(setting, allowed, hs) && |hs| <= 6 && Mentions(hs, a) && Mentions(hs, b)
  }

  ghost predicate CanMeet(setting: Setting, allowed: set<Request>, a: string, b: string) {
    exists hs: seq<Request> :: Meeting(setting, allowed, hs, a, b)
  }

  // Whoever may deliver beside the order stands for the same documents.
  ghost predicate RivalsAlike(setting: Setting, allowed: set<Request>, r: Request) {
    forall q | q in allowed && Rivals(setting, q, r) && CanMeet(setting, allowed, OrderId(r), OrderId(q)) ::
      BuildDocuments(setting, q) == BuildDocuments(setting, r)
  }

  lemma Meet(setting: Setting, allowed: set<Request>, hs: seq<Request>, a: string, b: string)
    requires Sequence(setting, allowed, hs) && Mentions(hs, a) && Mentions(hs, b)
    ensures CanMeet(setting, allowed, a, b)
  {
    var gs := CutToTwo(setting, hs, a, b);
    assert Meeting(setting, allowed, gs, a, b);
  }

  lemma CompletedDocuments(setting: Setting, es: seq<Event>, allowed: set<Request>, r: Request)
    requires From(es, allowed) && Run(Initial(setting), es).db.StateOf(OrderId(r)) == Some(Completed)
    requires CanDeliver(setting, allowed, OrderId(r)) ==> RivalsAlike(setting, allowed, r)
    ensures HasDocuments(Run(Initial(setting), es).db, r)
  {
    var s := Run(Initial(setting), es);
    var hs, p := Explained(setting, es, allowed, OrderId(r));
    Meet(setting, allowed, hs, OrderId(r), OrderId(p));
    assert Rivals(setting, p, r);
    BuiltFor(setting, p);
    BuiltFor(setting, r);
    assert DocsTold(s, hs, r.supi);
    var x :| x in s.started && Valid(x) && x.supi == r.supi && BuildDocuments(s.db.setting, x) == Some(s.db.docs[r.supi])
             && Mentions(hs, OrderId(x));
    Meet(setting, allowed, hs, OrderId(r), OrderId(x));
    assert Rivals(setting, x, r);
  }

  lemma DocumentsMissing(setting: Setting, allowed: set<Request>, q: Request, p: Request, r: Request)
    returns (es: seq<Event>)
    requires q in allowed && p in allowed && Rivals(setting, q, r) && Deliverable(setting, p, OrderId(r))
    requires CanMeet(setting, allowed, OrderId(r), OrderId(q)) && BuildDocuments(setting, q) != BuildDocuments(setting, r)
    ensures From(es, allowed)
    ensures var s := Run(Initial(setting), es);
            s.db.StateOf(OrderId(r)) == Some(Completed) && !HasDocuments(s.db, r)
  {
    var hs: seq<Request> :| Meeting(setting, allowed, hs, OrderId(r), OrderId(q));
    BuiltFor(setting, q);
    if OrderId(q) == OrderId(r) {
      es := OneOrder(setting, allowed, hs, q);
    } else {
      es := TwoOrders(setting, allowed, hs, p, q);
    }
  }

  /**
    An order that somebody can deliver guarantees the documents of a request exactly when every deliverable request of
    the order, or for the subscriber, whose order can be provisioned beside it stands for the same documents.
   */
  lemma DocumentsGuaranteedExactly(setting: Setting, allowed: set<Request>, r: Request)
    ensures DocumentsGuaranteed(setting, allowed, r) <==>
            (CanDeliver(setting, allowed, OrderId(r)) ==> RivalsAlike(setting, allowed, r))
  {
    var order := OrderId(r);
    if CanDeliver(setting, allowed, order) && !RivalsAlike(setting, allowed, r) {
      var p :| p in allowed && Deliverable(setting, p, order);
      var q :| q in allowed && Rivals(setting, q, r) && CanMeet(setting, allowed, order, OrderId(q))
               && BuildDocuments(setting, q) != BuildDocuments(setting, r);
      var es := DocumentsMissing(setting, allowed, q, p, r);
      assert From(es, allowed);
    } else {
      forall es: seq<Event> | From(es, allowed) && Run(Initial(setting), es).db.StateOf(order) == Some(Completed)
        ensures HasDocuments(Run(Initial(setting), es).db, r)
      {
        CompletedDocuments(setting, es, allowed, r);
      }
    }
  }

  // ---- One number, one order ----------------------------------------------------------------------

  // No other request was accepted for the subscriber or under the order id.
  predicate Only(started: set<Request>, q: Request) {
    forall p | p in started && (p.supi == q.supi || OrderId(p) == OrderId(q)) :: p == q
  }

  lemma {:induction false} OnlyNumber(hs: seq<Request>, q: Request)
    requires q in hs && forall p | p in hs && p.supi == q.supi :: p == q
    ensures NumberOf(hs, q.supi) == q.msisdn
  {
    var front := hs[..|hs| - 1];
    if q in front {
      OnlyNumber(front, q);
    } else {
      NumberSome(front, q.supi);
    }
  }

  lemma WritesNumber(setting: Setting, hs: seq<Request>, q: Request)
    requires InTurn(setting, hs) && q in hs && q.msisdn != "" && forall p | p in hs && p.supi == q.supi :: p == q
    ensures NumberKey(q.supi) in RowsAfter(hs) && Holds(NumberKey(q.supi), RowsAfter(hs)[NumberKey(q.supi)], "MSISDN", q.msisdn)
  {
    AllMeet(setting, hs);
    OnlyNumber(hs, q);
    NumberRow(hs, q.supi);
    NumberHolds(KeyOf(q.supi), q.msisdn, q.msisdn);
  }

  lemma NumberKeysApart(s: string, t: string)
    requires ValidSupi(s) && ValidSupi(t) && NumberKey(s) == NumberKey(t)
    ensures s == t
  {
    PrefixInjective("res-m-", KeyOf(s), KeyOf(t));
    KeyInjective(s, t);
  }

  /** Of two orders for one number that no other requests touch, no run provisions both, however often they are sent. */
  lemma OneNumberOneOrder(setting: Setting, es: seq<Event>, q: Request, r: Request)
    requires var s := Run(Initial(setting), es); Only(s.started, q) && Only(s.started, r)
    requires q.supi != r.supi && q.msisdn == r.msisdn && q.msisdn != ""
    ensures var db := Run(Initial(setting), es).db; !(db.BssDone(OrderId(q)) && db.BssDone(OrderId(r)))
  {
    var s := Run(Initial(setting), es);
    if s.db.BssDone(OrderId(q)) && s.db.BssDone(OrderId(r)) {
      var hs := WritesInTurn(setting, es);
      SettingsStay(setting, es);
      assert Mentions(hs, OrderId(q)) && Mentions(hs, OrderId(r));
      AllMeet(setting, hs);
      WritesNumber(setting, hs, q);
      WritesNumber(setting, hs, r);
      HeldOnceInTurn(setting, hs);
      NumberKeysApart(q.supi, r.supi);
    }
  }

  /** Once the first is finished, the second is never completed. */
  lemma SecondNeverCompletes(setting: Setting, es: seq<Event>, fs: seq<Event>, q: Request, r: Request)
    requires var s := Run(Initial(setting), es + fs); Only(s.started, q) && Only(s.started, r)
    requires q.supi != r.supi && q.msisdn == r.msisdn && q.msisdn != ""
    requires Run(Initial(setting), es).db.StateOf(OrderId(q)) == Some(Completed)
    ensures Run(Initial(setting), es + fs).db.StateOf(OrderId(r)) != Some(Completed)
  {
    OneNumberOneOrder(setting, es + fs, q, r);
    GatedOrders(setting, es, OrderId(q));
    GatedOrders(setting, es + fs, OrderId(r));
    DoneForever(setting, es, fs, OrderId(q));
  }

  /** Two subscribers and one number, sent one after the other without a failure: the second order stays incomplete. */
  lemma SecondRefused(setting: Setting, q: Request, r: Request)
    requires Valid(q) && Valid(r) && q.supi != r.supi && OrderId(q) != OrderId(r)
    requires q.msisdn == r.msisdn && q.msisdn != "" && CanWrite(setting, q) && BuildDocuments(setting, q).Some?
    ensures var s := Run(Initial(setting), Clean(0, q)); var t := Run(s, Clean(0, r));
            && t.db.StateOf(OrderId(q)) == Some(Completed) && t.db.StateOf(OrderId(r)) == Some(Incomplete)
            && t.db.rows == s.db.rows == RowsOf(q)
  {
    CleanTwice(setting, q, r);
    FirstCompletes(setting, q, OrderId(r));
    NotTakenBeside(setting, q, r);
    RefusedLeaves(Outcome(Initial(setting).db, q, Recording), r);
  }

  lemma FirstCompletes(setting: Setting, q: Request, other: string)
    requires CanWrite(setting, q) && BuildDocuments(setting, q).Some? && other != OrderId(q)
    ensures var db := Outcome(Initial(setting).db, q, Recording);
            && db.setting == setting && db.rows == RowsOf(q)
            && db.StateOf(OrderId(q)) == Some(Completed) && !db.BssDone(other)
  {
    FirstLeaves(setting, q);
    CleanLeaves(Initial(setting).db, q);
  }

  lemma RefusedLeaves(db: Tables, r: Request)
    requires !db.Takes(r) && !db.BssDone(OrderId(r))
    ensures var t := Outcome(db, r, Recording);
            t.rows == db.rows && SameOthers(db, t, OrderId(r)) && t.StateOf(OrderId(r)) == Some(Incomplete)
  {
    CleanLeaves(db, r);
  }

  lemma NotTakenBeside(setting: Setting, q: Request, r: Request)
    requires Valid(q) && Valid(r) && q.supi != r.supi && q.msisdn == r.msisdn && q.msisdn != "" && CanWrite(setting, q)
    ensures !Admits(setting, RowsOf(q), r)
  {
    var hs := Alone(setting, q);
    AdmitsIs(setting, hs, r);
    OnlyNumber(hs, q);
    NumberSome(hs, r.supi);
    assert q in hs;
  }
}
