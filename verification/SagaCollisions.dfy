/**
  Requests that share an order id, sent one after the other; and the run that writes any sequence of requests the
  charging database takes.
 */
module SagaCollisions {
  import opened Wrappers
  import opened SagaModel
  import opened SagaRuns
  import opened SagaSafety
  import opened SagaRecovery
  import opened SagaSequences

  // Only these requests are ever sent.
  predicate From(es: seq<Event>, allowed: set<Request>) {
    forall i | 0 <= i < |es| && es[i].Arrive? :: es[i].request in allowed
  }

  lemma {:induction false} StartedFrom(s: State, es: seq<Event>, allowed: set<Request>)
    requires From(es, allowed)
    ensures Run(s, es).started <= s.started + allowed
  {
    if es != [] {
      var front, e := es[..|es| - 1], es[|es| - 1];
      StartedFrom(s, front, allowed);
    }
  }

  lemma CleanFrom(pid: nat, r: Request, allowed: set<Request>)
    ensures From(Clean(pid, r), allowed) <==> r in allowed
  {
    assert Clean(pid, r)[0] == Arrive(pid, r);
  }

  /**
    When two requests share an order id: by equal idempotency keys, by being for one subscriber without keys, or
    by a key that spells the digits of the other's SUPI.
   */
  lemma OrderIdsMeet(q: Request, r: Request)
    requires Valid(q) && Valid(r)
    ensures OrderId(q) == OrderId(r) <==>
            if q.idempotencyKey == "" && r.idempotencyKey == "" then q.supi == r.supi
            else if q.idempotencyKey == "" then r.idempotencyKey == q.supi[5..]
            else if r.idempotencyKey == "" then q.idempotencyKey == r.supi[5..]
            else q.idempotencyKey == r.idempotencyKey
  {
    KeyOfSupi(q.supi);
    KeyOfSupi(r.supi);
    KeyInjective(q.supi, r.supi);
    PrefixInjective("ord-", OrderId(q)[4..], OrderId(r)[4..]);
  }

  // ---- Two requests, one after the other ----------------------------------------------------------

  // The UDR holds what this request asked for.
  predicate HasDocuments(db: Tables, r: Request) {
    r.supi in db.docs && Some(db.docs[r.supi]) == BuildDocuments(db.setting, r)
  }

  /**
    An empty charging database takes the rows of the request: its columns are in their lists, no other service holds
    its SUPI or its number, and the catalog knows its offering.
   */
  predicate CanWrite(setting: Setting, r: Request) { Admits(setting, map[], r) }

  lemma CleanTwice(setting: Setting, q: Request, r: Request)
    requires Valid(q) && Valid(r)
    ensures var db := Outcome(Initial(setting).db, q, Recording);
            && Run(Initial(setting), Clean(0, q)) == Initial(setting).(db := db, started := {q})
            && Run(Run(Initial(setting), Clean(0, q)), Clean(0, r))
               == Initial(setting).(db := Outcome(db, r, Recording), started := {q, r})
  {
    CleanGives(Initial(setting), 0, q);
    CleanGives(Run(Initial(setting), Clean(0, q)), 0, r);
  }

  // What the first request leaves.
  lemma FirstLeaves(setting: Setting, q: Request)
    ensures var t, writes := Outcome(Initial(setting).db, q, Recording), CanWrite(setting, q);
            && t.setting == setting && t.rows == (if writes then RowsOf(q) else map[])
            && t.BssDone(OrderId(q)) == writes && t.UdrDone(OrderId(q)) == (writes && BuildDocuments(setting, q).Some?)
            && t.docs == if writes && BuildDocuments(setting, q).Some? then map[q.supi := BuildDocuments(setting, q).value] else map[]
  {
    CleanLeaves(Initial(setting).db, q);
    assert RowsOf(q) + map[] == RowsOf(q);
  }

  /**
    Two requests under one order id, sent one after the other without a failure. When the charging database takes the
    first, its rows are the order's, and the order is completed once one of the two has documents the UDR takes;
    otherwise all is up to the second.
   */
  lemma SharedOrderIdExact(setting: Setting, q: Request, r: Request)
    requires Valid(q) && Valid(r) && OrderId(q) == OrderId(r)
    ensures var t := Run(Run(Initial(setting), Clean(0, q)), Clean(0, r));
            var first, second := BuildDocuments(setting, q), BuildDocuments(setting, r);
            if CanWrite(setting, q) then
              && (t.db.StateOf(OrderId(r)) == Some(Completed) <==> first.Some? || second.Some?)
              && (Present(t.db.rows, r) <==> Covers(q, r))
              && (HasDocuments(t.db, r) <==> second.Some? && (first.None? || first == second))
            else
              && (t.db.StateOf(OrderId(r)) == Some(Completed) <==> CanWrite(setting, r) && second.Some?)
              && (Present(t.db.rows, r) <==> CanWrite(setting, r))
              && (HasDocuments(t.db, r) <==> CanWrite(setting, r) && second.Some?)
  {
    CleanTwice(setting, q, r);
    FirstLeaves(setting, q);
    SecondLeaves(setting, q, r);
  }

  // The second request, after the first.
  lemma SecondLeaves(setting: Setting, q: Request, r: Request)
    requires Valid(q) && Valid(r) && OrderId(q) == OrderId(r)
    ensures var t := Outcome(Outcome(Initial(setting).db, q, Recording), r, Recording);
            var first, second := BuildDocuments(setting, q), BuildDocuments(setting, r);
            if CanWrite(setting, q) then
              && (t.StateOf(OrderId(r)) == Some(Completed) <==> first.Some? || second.Some?)
              && (Present(t.rows, r) <==> Covers(q, r))
              && (HasDocuments(t, r) <==> second.Some? && (first.None? || first == second))
            else
              && (t.StateOf(OrderId(r)) == Some(Completed) <==> CanWrite(setting, r) && second.Some?)
              && (Present(t.rows, r) <==> CanWrite(setting, r))
              && (HasDocuments(t, r) <==> CanWrite(setting, r) && second.Some?)
  {
    FirstLeaves(setting, q);
    CleanLeaves(Outcome(Initial(setting).db, q, Recording), r);
    BuiltFor(setting, q);
    BuiltFor(setting, r);
    if CanWrite(setting, q) {
      CoversExactly(q, r);
    } else {
      SomeRow(r);
    }
  }

  lemma BuiltFor(setting: Setting, r: Request)
    ensures BuildDocuments(setting, r).Some? ==> BuildDocuments(setting, r).value.supi == r.supi
  {
  }

  lemma SomeRow(r: Request)
    ensures RowKey(Buckets, r.supi) in RowsOf(r)
  {
    RowsAsk(r, RowKey(Buckets, r.supi));
  }

  /**
    Two requests stand for the same documents exactly when subscriber, number, SIM and network profile agree, a SIM
    without a sequence number starting with the configured one.
   */
  lemma SameDocuments(setting: Setting, q: Request, r: Request)
    requires BuildDocuments(setting, q).Some? && BuildDocuments(setting, r).Some?
    ensures BuildDocuments(setting, q) == BuildDocuments(setting, r) <==>
            q.supi == r.supi && q.msisdn == r.msisdn && q.sim.k == r.sim.k && q.sim.opc == r.sim.opc
            && SqnOf(setting, q) == SqnOf(setting, r) && ProfileOf(setting, q) == ProfileOf(setting, r)
  {
  }

  // ---- The run of a sequence ----------------------------------------------------------------------

  /** A request whose rows are committed, and that dies before it records that. */
  function Writing(h: Request): seq<Event> { [Arrive(0, h)] + Advances(0, 3) + [Crash(0)] }

  /** A request whose rows are committed and recorded, and that dies before it looks further. */
  function Marking(h: Request): seq<Event> { [Arrive(0, h)] + Advances(0, 4) + [Crash(0)] }

  lemma NextAdvance(s: State, pid: nat, n: nat)
    requires pid in Run(s, Advances(pid, n)).live
    ensures Run(s, Advances(pid, n + 1)) == AdvanceStep(Run(s, Advances(pid, n)), pid, Fine)
  {
    assert Advances(pid, n + 1)[..n] == Advances(pid, n);
  }

  // The one process there is stands at this stage.
  function Standing(s: State, db: Tables, h: Request, stage: Stage): State {
    s.(db := db, live := map[0 := Process(h, stage)])
  }

  lemma StandingOn(s: State, db: Tables, h: Request, stage: Stage, next: Stage, after: Tables)
    ensures Commit(Standing(s, db, h, stage), 0, next, after) == Standing(s, after, h, next)
  {
    var live := map[0 := Process(h, stage)];
    assert live[0 := live[0].(stage := next)] == map[0 := Process(h, next)];
  }

  lemma TakenWrites(s: State, pid: nat, takes: bool)
    requires pid in s.live && s.live[pid].stage.ProvisionBss? && takes == s.db.Takes(s.live[pid].request) && takes
    ensures AdvanceStep(s, pid, Fine) == Commit(s, pid, MarkBss(true), s.db.WithRows(s.live[pid].request))
  {
    assert AdvanceStep(s, pid, Fine) == BssStep(s, pid, Fine);
  }

  lemma ToWritten(s: State, db: Tables, h: Request, takes: bool)
    requires takes == db.Takes(h) && takes
    ensures AdvanceStep(Standing(s, db, h, ProvisionBss), 0, Fine) == Standing(s, db.WithRows(h), h, MarkBss(true))
  {
    TakenWrites(Standing(s, db, h, ProvisionBss), 0, takes);
    StandingOn(s, db, h, ProvisionBss, MarkBss(true), db.WithRows(h));
  }

  lemma MarkedAdvances(s: State, pid: nat)
    requires pid in s.live && s.live[pid].stage == MarkBss(true)
    ensures AdvanceStep(s, pid, Fine)
            == Commit(s, pid, AskBssAgain, s.db.WithTask(TaskId(BssCharging, OrderId(s.live[pid].request)), true))
  {
  }

  lemma ToMarked(s: State, db: Tables, h: Request)
    ensures AdvanceStep(Standing(s, db, h, MarkBss(true)), 0, Fine)
            == Standing(s, db.WithTask(TaskId(BssCharging, OrderId(h)), true), h, AskBssAgain)
  {
    MarkedAdvances(Standing(s, db, h, MarkBss(true)), 0);
    StandingOn(s, db, h, MarkBss(true), AskBssAgain, db.WithTask(TaskId(BssCharging, OrderId(h)), true));
  }

  lemma ToOpen(s: State, h: Request)
    requires !s.db.BssDone(OrderId(h))
    ensures Run(Standing(s, s.db, h, Recording), Advances(0, 2)) == Standing(s, s.db.WithOrder(OrderId(h)), h, ProvisionBss)
  {
    AsksTwice(Standing(s, s.db, h, Recording), 0, OrderId(h));
  }

  function WrittenTables(db: Tables, h: Request): Tables { db.WithOrder(OrderId(h)).WithRows(h) }

  function MarkedTables(db: Tables, h: Request): Tables {
    WrittenTables(db, h).WithTask(TaskId(BssCharging, OrderId(h)), true)
  }

  // Nobody works, the order's BSS task is open and the database takes the request.
  predicate MayWrite(s: State, h: Request) {
    s.live == map[] && Valid(h) && !s.db.BssDone(OrderId(h)) && s.db.Takes(h)
  }

  lemma ThreeAdvances(s: State, h: Request)
    requires !s.db.BssDone(OrderId(h)) && s.db.Takes(h)
    ensures Run(Standing(s, s.db, h, Recording), Advances(0, 3)) == Standing(s, WrittenTables(s.db, h), h, MarkBss(true))
  {
    ToOpen(s, h);
    StillTakes(s.db, OrderId(h), h);
    NextAdvance(Standing(s, s.db, h, Recording), 0, 2);
    ToWritten(s, s.db.WithOrder(OrderId(h)), h, true);
  }

  lemma OneMore(u: State, s: State, db: Tables, h: Request)
    requires Run(u, Advances(0, 3)) == Standing(s, db, h, MarkBss(true))
    ensures Run(u, Advances(0, 4)) == Standing(s, db.WithTask(TaskId(BssCharging, OrderId(h)), true), h, AskBssAgain)
  {
    NextAdvance(u, 0, 3);
    ToMarked(s, db, h);
  }

  lemma FourAdvances(s: State, h: Request)
    requires !s.db.BssDone(OrderId(h)) && s.db.Takes(h)
    ensures Run(Standing(s, s.db, h, Recording), Advances(0, 4)) == Standing(s, MarkedTables(s.db, h), h, AskBssAgain)
  {
    ThreeAdvances(s, h);
    OneMore(Standing(s, s.db, h, Recording), s, WrittenTables(s.db, h), h);
  }

  lemma ArriveAdvanceCrash(s: State, h: Request, n: nat)
    requires s.live == map[] && Valid(h)
    ensures var u := s.(started := s.started + {h});
            Run(s, [Arrive(0, h)] + Advances(0, n) + [Crash(0)])
            == Step(Run(Standing(u, u.db, h, Recording), Advances(0, n)), Crash(0))
  {
    var head := [Arrive(0, h)];
    assert head[..0] == [];
    assert Run(s, []) == s;
    RunConcat(s, head, Advances(0, n));
    var es := head + Advances(0, n) + [Crash(0)];
    assert es[..|es| - 1] == head + Advances(0, n);
  }

  lemma GoneAfter(s: State, db: Tables, h: Request, stage: Stage)
    requires s.live == map[]
    ensures Step(Standing(s, db, h, stage), Crash(0)) == s.(db := db)
  {
    assert map[0 := Process(h, stage)] - {0} == map[];
  }

  lemma WriteOne(s: State, h: Request)
    requires MayWrite(s, h)
    ensures Run(s, Writing(h)) == s.(db := WrittenTables(s.db, h), started := s.started + {h})
  {
    var u := s.(started := s.started + {h});
    ArriveAdvanceCrash(s, h, 3);
    ThreeAdvances(u, h);
    GoneAfter(u, WrittenTables(s.db, h), h, MarkBss(true));
  }

  lemma MarkOne(s: State, h: Request)
    requires MayWrite(s, h)
    ensures Run(s, Marking(h)) == s.(db := MarkedTables(s.db, h), started := s.started + {h})
  {
    var u := s.(started := s.started + {h});
    ArriveAdvanceCrash(s, h, 4);
    FourAdvances(u, h);
    GoneAfter(u, MarkedTables(s.db, h), h, AskBssAgain);
  }

  function AllWriting(hs: seq<Request>): seq<Event> {
    if hs == [] then [] else AllWriting(hs[..|hs| - 1]) + Writing(hs[|hs| - 1])
  }

  ghost predicate NothingDone(db: Tables) { forall order: string :: !db.BssDone(order) && !db.UdrDone(order) }

  // Exactly the rows of the sequence, and nothing recorded of them.
  ghost predicate Written(s: State, setting: Setting, hs: seq<Request>) {
    && s.live == map[] && s.db.setting == setting && s.db.rows == RowsAfter(hs) && s.db.docs == map[]
    && NothingDone(s.db)
  }

  lemma StillNothing(db: Tables, h: Request)
    requires NothingDone(db)
    ensures NothingDone(WrittenTables(db, h))
  {
    RecordedBy(db, OrderId(h));
    forall order: string ensures !WrittenTables(db, h).BssDone(order) && !WrittenTables(db, h).UdrDone(order) {
      assert WrittenTables(db, h).BssDone(order) == db.WithOrder(OrderId(h)).BssDone(order);
      assert WrittenTables(db, h).UdrDone(order) == db.WithOrder(OrderId(h)).UdrDone(order);
    }
  }

  /** Every sequence that the charging database takes in turn is what some run writes. */
  lemma {:induction false} SequenceIsRun(setting: Setting, hs: seq<Request>)
    requires InTurn(setting, hs)
    ensures Written(Run(Initial(setting), AllWriting(hs)), setting, hs)
  {
    if hs != [] {
      var front, r := hs[..|hs| - 1], hs[|hs| - 1];
      SequenceIsRun(setting, front);
      var s := Run(Initial(setting), AllWriting(front));
      RunConcat(Initial(setting), AllWriting(front), Writing(r));
      WriteOne(s, r);
      StillNothing(s.db, r);
    }
  }

  lemma {:induction false} AllPresent(setting: Setting, hs: seq<Request>, h: Request)
    requires InTurn(setting, hs) && h in hs
    ensures Valid(h) && Checked(h) && Present(RowsAfter(hs), h)
  {
    if h != hs[|hs| - 1] {
      AllPresent(setting, hs[..|hs| - 1], h);
    }
  }

  // A request whose rows are all there is taken again and changes nothing.
  lemma TakenAgain(setting: Setting, rows: Rows, h: Request)
    requires Checked(h) && Present(rows, h)
    ensures Admits(setting, rows, h) && RowsOf(h) + rows == rows
  {
    var k := KeyOf(h.supi);
    RowsAsk(h, RowKey(Resources, "res-s-" + k));
    RowsAsk(h, RowKey(Resources, "res-m-" + k));
    RowsAsk(h, RowKey(Subscriptions, "ps-" + k));
  }
}
