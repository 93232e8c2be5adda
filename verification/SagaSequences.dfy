/**
  Every run of the saga writes what inserting some of its requests one after the other writes, and every such
  sequence is the work of a run. What the charging database holds follows from the sequences alone.
 */
module SagaSequences {
  import opened Wrappers
  import opened SagaModel
  import opened SagaRuns
  import opened SagaSafety
  import opened SagaOverlap

  // ---- Sequences ----------------------------------------------------------------------------------

  function RowsAfter(hs: seq<Request>): Rows {
    if hs == [] then map[] else RowsOf(hs[|hs| - 1]) + RowsAfter(hs[..|hs| - 1])
  }

  /** The charging database takes every request of the sequence after the ones before it. */
  predicate InTurn(setting: Setting, hs: seq<Request>) {
    hs == []
    || (InTurn(setting, hs[..|hs| - 1]) && Valid(hs[|hs| - 1]) && Admits(setting, RowsAfter(hs[..|hs| - 1]), hs[|hs| - 1]))
  }

  predicate Mentions(hs: seq<Request>, order: string) { exists h | h in hs :: OrderId(h) == order }

  lemma Snoc(setting: Setting, hs: seq<Request>, r: Request)
    ensures RowsAfter(hs + [r]) == RowsOf(r) + RowsAfter(hs)
    ensures InTurn(setting, hs + [r]) <==> InTurn(setting, hs) && Valid(r) && Admits(setting, RowsAfter(hs), r)
    ensures forall order | Mentions(hs, order) :: Mentions(hs + [r], order)
    ensures Mentions(hs + [r], OrderId(r))
  {
    assert (hs + [r])[..|hs + [r]| - 1] == hs;
    assert (hs + [r])[|hs|] == r;
    forall order | Mentions(hs, order) ensures Mentions(hs + [r], order) {
      var h :| h in hs && OrderId(h) == order;
      assert h in hs + [r];
    }
  }

  // The same rows, up to balances that moved.
  predicate SameRows(a: Rows, b: Rows) { a.Keys == b.Keys && forall key | key in a :: Like(key, a[key], b[key]) }

  lemma HoldsAlike(key: RowKey, a: Row, b: Row, kind: string, value: string)
    requires Like(key, a, b)
    ensures Holds(key, a, kind, value) == Holds(key, b, kind, value)
  {
  }

  lemma HeldAlike(a: Rows, b: Rows, kind: string, value: string)
    requires SameRows(a, b)
    ensures Held(a, kind, value) == Held(b, kind, value)
  {
    forall key | key in a ensures Holds(key, a[key], kind, value) == Holds(key, b[key], kind, value) {
      HoldsAlike(key, a[key], b[key], kind, value);
    }
  }

  lemma AdmitsAlike(setting: Setting, a: Rows, b: Rows, r: Request)
    requires SameRows(a, b)
    ensures Admits(setting, a, r) == Admits(setting, b, r)
  {
    HeldAlike(a, b, "SUPI", r.supi);
    HeldAlike(a, b, "MSISDN", r.msisdn);
  }

  // ---- The sequence of a run ----------------------------------------------------------------------

  predicate RowsTold(s: State, hs: seq<Request>) {
    && (forall h | h in hs :: h in s.started && Valid(h))
    && InTurn(s.db.setting, hs) && SameRows(s.db.rows, RowsAfter(hs))
  }

  ghost predicate TasksTold(s: State, hs: seq<Request>) {
    forall order: string | s.db.BssDone(order) :: Mentions(hs, order)
  }

  predicate PastBss(stage: Stage) { stage.AskUdr? || stage.ProvisionUdr? || stage.MarkUdr? }

  predicate WorkTold(started: set<Request>, hs: seq<Request>, p: Process) {
    && p.request in started && Valid(p.request)
    && (p.stage == MarkBss(true) ==> p.request in hs)
    && (PastBss(p.stage) ==> Mentions(hs, OrderId(p.request)))
  }

  predicate DocsTold(s: State, hs: seq<Request>, supi: string)
    requires supi in s.db.docs
  {
    exists x | x in s.started ::
      Valid(x) && x.supi == supi && BuildDocuments(s.db.setting, x) == Some(s.db.docs[supi]) && Mentions(hs, OrderId(x))
  }

  /** The sequence tells what the state holds: rows, finished BSS tasks and documents. */
  ghost predicate Told(s: State, hs: seq<Request>) {
    && RowsTold(s, hs) && TasksTold(s, hs)
    && (forall pid | pid in s.live :: WorkTold(s.started, hs, s.live[pid]))
    && (forall supi | supi in s.db.docs :: DocsTold(s, hs, supi))
  }

  predicate WritesNow(s: State, pid: nat, fault: Fault)
    requires pid in s.live
  {
    s.live[pid].stage.ProvisionBss? && !fault.Fails? && s.db.Takes(s.live[pid].request)
  }

  // The sequence after a step of a process.
  function Retold(s: State, pid: nat, fault: Fault, hs: seq<Request>): seq<Request>
    requires pid in s.live
  {
    if WritesNow(s, pid, fault) then hs + [s.live[pid].request] else hs
  }

  lemma RetoldMentions(s: State, pid: nat, fault: Fault, hs: seq<Request>)
    requires pid in s.live
    ensures forall order | Mentions(hs, order) :: Mentions(Retold(s, pid, fault, hs), order)
    ensures forall h | h in hs :: h in Retold(s, pid, fault, hs)
    ensures WritesNow(s, pid, fault) ==> s.live[pid].request in Retold(s, pid, fault, hs)
  {
    Snoc(s.db.setting, hs, s.live[pid].request);
  }

  lemma RowsExtend(setting: Setting, rows: Rows, hs: seq<Request>, r: Request)
    requires InTurn(setting, hs) && SameRows(rows, RowsAfter(hs)) && Valid(r) && Admits(setting, rows, r)
    ensures InTurn(setting, hs + [r]) && SameRows(RowsOf(r) + rows, RowsAfter(hs + [r]))
  {
    Snoc(setting, hs, r);
    AdmitsAlike(setting, rows, RowsAfter(hs), r);
    MergedAlike(RowsOf(r), rows, RowsAfter(hs));
  }

  lemma MergedAlike(a: Rows, b: Rows, c: Rows)
    requires SameRows(b, c)
    ensures SameRows(a + b, a + c)
  {
  }

  lemma RowsWritten(s: State, pid: nat, fault: Fault)
    requires pid in s.live && WritesNow(s, pid, fault)
    ensures AdvanceStep(s, pid, fault).db.rows == RowsOf(s.live[pid].request) + s.db.rows
  {
  }

  lemma RowsRetold(s: State, pid: nat, fault: Fault, hs: seq<Request>)
    requires RowsTold(s, hs) && pid in s.live && WorkTold(s.started, hs, s.live[pid])
    ensures RowsTold(AdvanceStep(s, pid, fault), Retold(s, pid, fault, hs))
  {
    SettingStays(s, pid, fault);
    if WritesNow(s, pid, fault) {
      RowsExtend(s.db.setting, s.db.rows, hs, s.live[pid].request);
      RowsWritten(s, pid, fault);
    } else {
      NothingWritten(s, pid, fault);
    }
  }

  lemma SettingStays(s: State, pid: nat, fault: Fault)
    requires pid in s.live
    ensures AdvanceStep(s, pid, fault).db.setting == s.db.setting && AdvanceStep(s, pid, fault).started == s.started
  {
  }

  lemma NothingWritten(s: State, pid: nat, fault: Fault)
    requires pid in s.live && !WritesNow(s, pid, fault)
    ensures AdvanceStep(s, pid, fault).db.rows == s.db.rows
  {
    if !s.live[pid].stage.ProvisionBss? {
      OnlyProvisioningWrites(s, pid, fault);
    }
  }

  // A task is only done newly by the process that was to record it.
  lemma NewlyDone(s: State, pid: nat, fault: Fault, order: string)
    requires pid in s.live && AdvanceStep(s, pid, fault).db.BssDone(order)
    ensures s.db.BssDone(order) || (s.live[pid].stage == MarkBss(true) && OrderId(s.live[pid].request) == order)
  {
    match s.live[pid].stage
    case Recording =>
    case ProvisionBss =>
    case MarkBss(ok) =>
    case ProvisionUdr =>
    case MarkUdr(ok) =>
    case Closing(all) =>
    case _ =>
  }

  lemma TasksRetold(s: State, pid: nat, fault: Fault, hs: seq<Request>)
    requires TasksTold(s, hs) && pid in s.live && WorkTold(s.started, hs, s.live[pid])
    ensures TasksTold(AdvanceStep(s, pid, fault), Retold(s, pid, fault, hs))
  {
    RetoldMentions(s, pid, fault, hs);
    forall order: string | AdvanceStep(s, pid, fault).db.BssDone(order) ensures Mentions(Retold(s, pid, fault, hs), order) {
      NewlyDone(s, pid, fault, order);
      assert s.live[pid].stage == MarkBss(true) ==> Mentions(hs, OrderId(s.live[pid].request));
    }
  }

  // Which stages lead to those that know of a write or a finished task.
  lemma StageAfter(s: State, pid: nat, fault: Fault)
    requires pid in s.live && pid in AdvanceStep(s, pid, fault).live
    ensures var was, now := s.live[pid].stage, AdvanceStep(s, pid, fault).live[pid].stage;
            && (now == MarkBss(true) ==> WritesNow(s, pid, fault))
            && (PastBss(now) ==> PastBss(was) || s.db.BssDone(OrderId(s.live[pid].request)))
  {
  }

  lemma OthersStay(s: State, pid: nat, fault: Fault)
    requires pid in s.live
    ensures forall q | q in AdvanceStep(s, pid, fault).live && q != pid :: q in s.live && AdvanceStep(s, pid, fault).live[q] == s.live[q]
  {
  }

  // Nothing that is told of a process is unsaid by a longer sequence.
  ghost predicate Longer(hs: seq<Request>, gs: seq<Request>) {
    (forall h | h in hs :: h in gs) && forall order | Mentions(hs, order) :: Mentions(gs, order)
  }

  lemma WorkGrows(a: set<Request>, b: set<Request>, hs: seq<Request>, gs: seq<Request>, p: Process)
    requires WorkTold(a, hs, p) && a <= b && Longer(hs, gs)
    ensures WorkTold(b, gs, p)
  {
  }

  lemma OwnRetold(s: State, pid: nat, fault: Fault, hs: seq<Request>)
    requires Told(s, hs) && pid in s.live && pid in AdvanceStep(s, pid, fault).live
    ensures WorkTold(s.started, Retold(s, pid, fault, hs), AdvanceStep(s, pid, fault).live[pid])
  {
    assert WorkTold(s.started, hs, s.live[pid]);
    RetoldMentions(s, pid, fault, hs);
    SameRequests(s, pid, fault);
    StageAfter(s, pid, fault);
  }

  lemma WorkRetold(s: State, pid: nat, fault: Fault, hs: seq<Request>)
    requires Told(s, hs) && pid in s.live
    ensures var t := AdvanceStep(s, pid, fault);
            forall q | q in t.live :: WorkTold(t.started, Retold(s, pid, fault, hs), t.live[q])
  {
    var t, gs := AdvanceStep(s, pid, fault), Retold(s, pid, fault, hs);
    RetoldMentions(s, pid, fault, hs);
    SettingStays(s, pid, fault);
    OthersStay(s, pid, fault);
    forall q | q in t.live ensures WorkTold(t.started, gs, t.live[q]) {
      if q == pid {
        OwnRetold(s, pid, fault, hs);
      } else {
        WorkGrows(s.started, t.started, hs, gs, s.live[q]);
      }
    }
  }

  // Documents change only where a process sends its own.
  lemma NewDocs(s: State, pid: nat, fault: Fault, supi: string)
    requires pid in s.live && supi in AdvanceStep(s, pid, fault).db.docs
    ensures var t, r := AdvanceStep(s, pid, fault), s.live[pid].request;
            || (supi in s.db.docs && t.db.docs[supi] == s.db.docs[supi])
            || (s.live[pid].stage.ProvisionUdr? && supi == r.supi && BuildDocuments(s.db.setting, r) == Some(t.db.docs[supi]))
  {
    match s.live[pid].stage
    case Recording =>
    case ProvisionBss =>
    case MarkBss(ok) =>
    case ProvisionUdr =>
      var d := BuildDocuments(s.db.setting, s.live[pid].request);
      if d.Some? {
        SupiOf(s.db.setting, s.live[pid].request, d.value);
      }
    case MarkUdr(ok) =>
    case Closing(all) =>
    case _ =>
  }

  lemma DocsRetold(s: State, pid: nat, fault: Fault, hs: seq<Request>, supi: string)
    requires Told(s, hs) && pid in s.live && supi in AdvanceStep(s, pid, fault).db.docs
    ensures DocsTold(AdvanceStep(s, pid, fault), Retold(s, pid, fault, hs), supi)
  {
    var t, gs := AdvanceStep(s, pid, fault), Retold(s, pid, fault, hs);
    RetoldMentions(s, pid, fault, hs);
    SettingStays(s, pid, fault);
    NewDocs(s, pid, fault, supi);
    if supi in s.db.docs && t.db.docs[supi] == s.db.docs[supi] {
      assert DocsTold(s, hs, supi);
      var x :| x in s.started && Valid(x) && x.supi == supi && BuildDocuments(s.db.setting, x) == Some(s.db.docs[supi])
               && Mentions(hs, OrderId(x));
      assert x in t.started && Mentions(gs, OrderId(x));
    } else {
      assert WorkTold(s.started, hs, s.live[pid]);
      assert s.live[pid].request in t.started && Mentions(gs, OrderId(s.live[pid].request));
    }
  }

  lemma AdvanceTold(s: State, pid: nat, fault: Fault, hs: seq<Request>)
    requires Told(s, hs) && pid in s.live
    ensures Told(AdvanceStep(s, pid, fault), Retold(s, pid, fault, hs))
  {
    var t := AdvanceStep(s, pid, fault);
    assert WorkTold(s.started, hs, s.live[pid]);
    RowsRetold(s, pid, fault, hs);
    TasksRetold(s, pid, fault, hs);
    WorkRetold(s, pid, fault, hs);
    forall supi | supi in t.db.docs ensures DocsTold(t, Retold(s, pid, fault, hs), supi) {
      DocsRetold(s, pid, fault, hs, supi);
    }
  }

  // A step that touches no table but balances, and takes no process further.
  lemma ToldSame(s: State, t: State, hs: seq<Request>)
    requires Told(s, hs) && SameRows(t.db.rows, s.db.rows) && t.db == s.db.(rows := t.db.rows) && s.started <= t.started
    requires forall q | q in t.live :: WorkTold(t.started, hs, t.live[q])
    ensures Told(t, hs)
  {
    assert RowsTold(t, hs);
    forall order: string | t.db.BssDone(order) ensures Mentions(hs, order) {
      assert s.db.BssDone(order);
    }
    forall supi | supi in t.db.docs ensures DocsTold(t, hs, supi) {
      assert DocsTold(s, hs, supi);
      var x :| x in s.started && Valid(x) && x.supi == supi && BuildDocuments(s.db.setting, x) == Some(s.db.docs[supi])
               && Mentions(hs, OrderId(x));
      assert x in t.started;
    }
  }

  lemma ArriveWork(s: State, pid: nat, r: Request, hs: seq<Request>)
    requires forall q | q in s.live :: WorkTold(s.started, hs, s.live[q])
    requires pid !in s.live && Valid(r)
    ensures var t := ArriveAny(s, pid, r); forall q | q in t.live :: WorkTold(t.started, hs, t.live[q])
  {
    var t := ArriveAny(s, pid, r);
    assert WorkTold(t.started, hs, Process(r, Recording));
    forall q | q in t.live ensures WorkTold(t.started, hs, t.live[q]) {
      if q != pid {
        WorkGrows(s.started, t.started, hs, hs, s.live[q]);
      }
    }
  }

  lemma ArriveTold(s: State, pid: nat, r: Request, hs: seq<Request>)
    requires Told(s, hs) && pid !in s.live && Valid(r)
    ensures Told(ArriveAny(s, pid, r), hs)
  {
    ArriveWork(s, pid, r, hs);
    ToldSame(s, ArriveAny(s, pid, r), hs);
  }

  lemma CrashTold(s: State, pid: nat, hs: seq<Request>)
    requires Told(s, hs)
    ensures Told(Step(s, Crash(pid)), hs)
  {
    ToldSame(s, Step(s, Crash(pid)), hs);
  }

  lemma MovedAlike(s: State, bucket: string, delta: int)
    ensures var t := MoveStep(s, bucket, delta);
            SameRows(t.db.rows, s.db.rows) && t == s.(db := s.db.(rows := t.db.rows))
  {
  }

  lemma MoveTold(s: State, bucket: string, delta: int, hs: seq<Request>)
    requires Told(s, hs)
    ensures Told(MoveStep(s, bucket, delta), hs)
  {
    MovedAlike(s, bucket, delta);
    ToldSame(s, MoveStep(s, bucket, delta), hs);
  }

  function ToldNext(s: State, e: Event, hs: seq<Request>): seq<Request> {
    if e.Advance? && e.pid in s.live then Retold(s, e.pid, e.fault, hs) else hs
  }

  lemma StepTold(s: State, e: Event, hs: seq<Request>)
    requires Told(s, hs)
    ensures Told(StepAny(s, e), ToldNext(s, e, hs))
  {
    match e
    case Arrive(pid, r) => if pid !in s.live && Valid(r) { ArriveTold(s, pid, r, hs); }
    case Advance(pid, fault) => if pid in s.live { AdvanceTold(s, pid, fault, hs); }
    case Crash(pid) => CrashTold(s, pid, hs);
    case Move(bucket, delta) => MoveTold(s, bucket, delta, hs);
  }

  lemma GatedStep(s: State, e: Event)
    ensures Step(s, e) == StepAny(s, e) || (e.Arrive? && Step(s, e) == s)
  {
  }

  lemma InitialTold(setting: Setting)
    ensures Told(Initial(setting), [])
  {
  }

  /** Every run, with whatever failures and crashes, writes what inserting some sequence of its requests writes. */
  lemma {:induction false} WritesInTurn(setting: Setting, es: seq<Event>) returns (hs: seq<Request>)
    ensures Told(Run(Initial(setting), es), hs)
  {
    if es == [] {
      hs := [];
      InitialTold(setting);
    } else {
      var front := es[..|es| - 1];
      hs := WritesInTurn(setting, front);
      StepTold(Run(Initial(setting), front), es[|es| - 1], hs);
      GatedStep(Run(Initial(setting), front), es[|es| - 1]);
      hs := ToldNext(Run(Initial(setting), front), es[|es| - 1], hs);
    }
  }

  /** So does every run in which requests for one order overlap. */
  lemma {:induction false} OverlapWritesInTurn(setting: Setting, es: seq<Event>) returns (hs: seq<Request>)
    ensures Told(RunAny(Initial(setting), es), hs)
  {
    if es == [] {
      hs := [];
      InitialTold(setting);
    } else {
      var front := es[..|es| - 1];
      hs := OverlapWritesInTurn(setting, front);
      StepTold(RunAny(Initial(setting), front), es[|es| - 1], hs);
      hs := ToldNext(RunAny(Initial(setting), front), es[|es| - 1], hs);
    }
  }

  // ---- Numbers ------------------------------------------------------------------------------------

  /** No SUPI and no number is held twice, and none that another service holds. */
  ghost predicate HeldOnce(setting: Setting, rows: Rows) {
    && (forall a, kind, value | a in rows && Holds(a, rows[a], kind, value) :: value !in setting.taken)
    && (forall a, b, kind, value | a in rows && b in rows && Holds(a, rows[a], kind, value) && Holds(b, rows[b], kind, value) ::
          a == b)
  }

  // What a request's rows hold.
  lemma HeldByRequest(r: Request, key: RowKey, kind: string, value: string)
    requires key in RowsOf(r) && Holds(key, RowsOf(r)[key], kind, value)
    ensures var k := KeyOf(r.supi);
            || (key == RowKey(Resources, "res-s-" + k) && kind == "SUPI" && value == r.supi)
            || (key == RowKey(Resources, "res-m-" + k) && kind == "MSISDN" && value == r.msisdn && r.msisdn != "")
  {
    ChainResource(r, key);
    ServiceResource(r, KeyOf(r.supi), key);
    HeldByResource(r, KeyOf(r.supi), key, kind, value);
  }

  lemma ChainResource(r: Request, key: RowKey)
    requires key in RowsOf(r) && key.table.Resources?
    ensures key in ServiceRows(r, KeyOf(r.supi)) && RowsOf(r)[key] == ServiceRows(r, KeyOf(r.supi))[key]
  {
    RowsAsk(r, key);
    ServiceAsks(r, key);
    assert key !in BucketRows(r);
  }

  lemma ServiceResource(r: Request, k: string, key: RowKey)
    requires key in ServiceRows(r, k) && key.table.Resources?
    ensures key in ResourceRows(r, k) && ServiceRows(r, k)[key] == ResourceRows(r, k)[key]
  {
    assert key !in LineRows(r, k);
  }

  lemma HeldByResource(r: Request, k: string, key: RowKey, kind: string, value: string)
    requires key in ResourceRows(r, k) && Holds(key, ResourceRows(r, k)[key], kind, value)
    ensures || (key == RowKey(Resources, "res-s-" + k) && kind == "SUPI" && value == r.supi)
            || (key == RowKey(Resources, "res-m-" + k) && kind == "MSISDN" && value == r.msisdn && r.msisdn != "")
  {
    var s, m := ["sub-" + k, "SUPI", r.supi], ["sub-" + k, "MSISDN"];
    assert s[2..] + [] == [r.supi] && m[2..] + [r.msisdn] == [r.msisdn];
    assert [r.supi][0] == r.supi && [r.msisdn][0] == r.msisdn && [value][0] == value;
    assert ("res-s-" + k)[4] == 's' && ("res-m-" + k)[4] == 'm';
  }

  lemma NewHolder(setting: Setting, rows: Rows, r: Request, key: RowKey, kind: string, value: string)
    requires Admits(setting, rows, r) && key in RowsOf(r) && key !in rows && Holds(key, RowsOf(r)[key], kind, value)
    ensures value !in setting.taken && !Held(rows, kind, value)
  {
    HeldByRequest(r, key, kind, value);
  }

  lemma OneHolderInRequest(r: Request, a: RowKey, b: RowKey, kind: string, value: string)
    requires a in RowsOf(r) && b in RowsOf(r) && Holds(a, RowsOf(r)[a], kind, value) && Holds(b, RowsOf(r)[b], kind, value)
    ensures a == b
  {
    HeldByRequest(r, a, kind, value);
    HeldByRequest(r, b, kind, value);
  }

  lemma {:induction false} HeldOnceInTurn(setting: Setting, hs: seq<Request>)
    requires InTurn(setting, hs)
    ensures HeldOnce(setting, RowsAfter(hs))
  {
    if hs != [] {
      var front, r := hs[..|hs| - 1], hs[|hs| - 1];
      var rows, after := RowsAfter(front), RowsAfter(hs);
      HeldOnceInTurn(setting, front);
      forall a, kind, value | a in after && Holds(a, after[a], kind, value) ensures value !in setting.taken {
        if a !in rows {
          NewHolder(setting, rows, r, a, kind, value);
        }
      }
      forall a, b, kind, value | a in after && b in after && Holds(a, after[a], kind, value) && Holds(b, after[b], kind, value)
        ensures a == b
      {
        if a !in rows {
          NewHolder(setting, rows, r, a, kind, value);
        }
        if b !in rows {
          NewHolder(setting, rows, r, b, kind, value);
        }
        if a !in rows && b !in rows {
          OneHolderInRequest(r, a, b, kind, value);
        }
      }
    }
  }

  lemma HeldOnceAlike(setting: Setting, a: Rows, b: Rows)
    requires SameRows(a, b) && HeldOnce(setting, b)
    ensures HeldOnce(setting, a)
  {
    forall key, kind, value | key in a ensures Holds(key, a[key], kind, value) == Holds(key, b[key], kind, value) {
      HoldsAlike(key, a[key], b[key], kind, value);
    }
  }

  /** In every reachable state, overlapping requests included, each SUPI and each number has one holder. */
  lemma NumbersUnique(setting: Setting, es: seq<Event>)
    ensures HeldOnce(setting, Run(Initial(setting), es).db.rows)
    ensures HeldOnce(setting, RunAny(Initial(setting), es).db.rows)
  {
    var hs := WritesInTurn(setting, es);
    var gs := OverlapWritesInTurn(setting, es);
    SettingsStay(setting, es);
    HeldOnceInTurn(setting, hs);
    HeldOnceInTurn(setting, gs);
    HeldOnceAlike(setting, Run(Initial(setting), es).db.rows, RowsAfter(hs));
    HeldOnceAlike(setting, RunAny(Initial(setting), es).db.rows, RowsAfter(gs));
  }

  lemma SettingsStay(setting: Setting, es: seq<Event>)
    ensures Run(Initial(setting), es).db.setting == setting && RunAny(Initial(setting), es).db.setting == setting
  {
    Reachable(setting, []);
    RunGood(Initial(setting), es);
    RunKeeps(Initial(setting), es);
  }
}
