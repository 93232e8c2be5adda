/**
  Which requests a sequence needs for one of them to be taken: the first of the subscriber that brings a number and
  the first that brings a subscription. Everything else can be cut away.
 */
module SagaCuts {
  import opened Wrappers
  import opened SagaModel
  import opened SagaRuns
  import opened SagaSafety
  import opened SagaSequences

  // ---- What a sequence has written for a subscriber -----------------------------------------------

  /** The number a subscriber holds after the sequence: the first one asked for. */
  function NumberOf(hs: seq<Request>, supi: string): string {
    if hs == [] then ""
    else
      var earlier, h := NumberOf(hs[..|hs| - 1], supi), hs[|hs| - 1];
      if earlier == "" && h.supi == supi then h.msisdn else earlier
  }

  predicate Served(hs: seq<Request>, supi: string) { exists h | h in hs :: h.supi == supi }

  predicate Subscribed(hs: seq<Request>, supi: string) { exists h | h in hs :: h.supi == supi && h.offering != "" }

  predicate AllValid(hs: seq<Request>) { forall h | h in hs :: Valid(h) }

  lemma {:induction false} RowFrom(hs: seq<Request>, key: RowKey) returns (h: Request)
    requires key in RowsAfter(hs)
    ensures h in hs && key in RowsOf(h) && RowsAfter(hs)[key] == RowsOf(h)[key]
  {
    var front := hs[..|hs| - 1];
    if key in RowsAfter(front) {
      h := RowFrom(front, key);
    } else {
      h := hs[|hs| - 1];
    }
  }

  lemma {:induction false} RowIn(hs: seq<Request>, h: Request, key: RowKey)
    requires h in hs && key in RowsOf(h)
    ensures key in RowsAfter(hs)
  {
    if h != hs[|hs| - 1] {
      RowIn(hs[..|hs| - 1], h, key);
    }
  }

  function NumberKey(supi: string): RowKey { RowKey(Resources, "res-m-" + KeyOf(supi)) }

  function SupiKey(supi: string): RowKey { RowKey(Resources, "res-s-" + KeyOf(supi)) }

  function SubscriptionKey(supi: string): RowKey { RowKey(Subscriptions, "ps-" + KeyOf(supi)) }

  // Which of a subscriber's keys a request asks for.
  lemma OwnKeys(h: Request, supi: string)
    requires ValidSupi(h.supi) && ValidSupi(supi)
    ensures Asks(h, NumberKey(supi)) <==> h.supi == supi && h.msisdn != ""
    ensures Asks(h, SupiKey(supi)) <==> h.supi == supi
    ensures Asks(h, SubscriptionKey(supi)) <==> h.supi == supi && h.offering != ""
  {
    var j, k := KeyOf(h.supi), KeyOf(supi);
    assert ("res-s-" + j)[4] == 's' && ("res-m-" + k)[4] == 'm' && ("res-s-" + k)[4] == 's' && ("res-m-" + j)[4] == 'm';
    PrefixInjective("res-m-", k, j);
    PrefixInjective("res-s-", k, j);
    PrefixInjective("ps-", k, j);
    KeyInjective(h.supi, supi);
  }

  lemma NumberWritten(h: Request)
    requires h.msisdn != ""
    ensures NumberKey(h.supi) in RowsOf(h)
    ensures RowsOf(h)[NumberKey(h.supi)] == Row(["sub-" + KeyOf(h.supi), "MSISDN"], [h.msisdn], 0)
  {
    RowsAsk(h, NumberKey(h.supi));
    ChainResource(h, NumberKey(h.supi));
    ServiceResource(h, KeyOf(h.supi), NumberKey(h.supi));
  }

  /** The row of the subscriber's number, and there is none without a number. */
  lemma {:induction false} NumberRow(hs: seq<Request>, supi: string)
    requires AllValid(hs) && ValidSupi(supi)
    ensures NumberKey(supi) in RowsAfter(hs) <==> NumberOf(hs, supi) != ""
    ensures NumberOf(hs, supi) != "" ==>
              RowsAfter(hs)[NumberKey(supi)] == Row(["sub-" + KeyOf(supi), "MSISDN"], [NumberOf(hs, supi)], 0)
  {
    if hs != [] {
      var h := hs[|hs| - 1];
      assert h in hs;
      NumberRow(hs[..|hs| - 1], supi);
      OwnKeys(h, supi);
      RowsAsk(h, NumberKey(supi));
      if h.msisdn != "" {
        NumberWritten(h);
      }
    }
  }

  lemma NumberHolds(k: string, n: string, value: string)
    ensures Holds(RowKey(Resources, "res-m-" + k), Row(["sub-" + k, "MSISDN"], [n], 0), "MSISDN", value) <==> n == value
  {
    var links := ["sub-" + k, "MSISDN"];
    assert links[2..] + [n] == [n];
    assert [n][0] == n && [value][0] == value;
  }

  lemma NumberHeld(hs: seq<Request>, value: string)
    requires AllValid(hs) && value != ""
    ensures Held(RowsAfter(hs), "MSISDN", value) <==> exists h | h in hs :: NumberOf(hs, h.supi) == value
  {
    if Held(RowsAfter(hs), "MSISDN", value) {
      var key :| key in RowsAfter(hs) && Holds(key, RowsAfter(hs)[key], "MSISDN", value);
      var h := RowFrom(hs, key);
      HeldByRequest(h, key, "MSISDN", value);
      NumberRow(hs, h.supi);
      NumberHolds(KeyOf(h.supi), NumberOf(hs, h.supi), value);
    }
    if h :| h in hs && NumberOf(hs, h.supi) == value {
      NumberRow(hs, h.supi);
      NumberHolds(KeyOf(h.supi), value, value);
      assert Holds(NumberKey(h.supi), RowsAfter(hs)[NumberKey(h.supi)], "MSISDN", value);
    }
  }

  lemma SupiKnown(hs: seq<Request>, supi: string)
    requires AllValid(hs) && ValidSupi(supi)
    ensures var key := SupiKey(supi);
            && (key in RowsAfter(hs) <==> Served(hs, supi))
            && (Held(RowsAfter(hs), "SUPI", supi) ==> Served(hs, supi))
  {
    var key := SupiKey(supi);
    if key in RowsAfter(hs) {
      var h := RowFrom(hs, key);
      OwnKeys(h, supi);
      RowsAsk(h, SupiKey(supi));
    }
    if h :| h in hs && h.supi == supi {
      OwnKeys(h, supi);
      RowsAsk(h, SupiKey(supi));
      RowIn(hs, h, key);
    }
    if Held(RowsAfter(hs), "SUPI", supi) {
      var other :| other in RowsAfter(hs) && Holds(other, RowsAfter(hs)[other], "SUPI", supi);
      var h := RowFrom(hs, other);
      HeldByRequest(h, other, "SUPI", supi);
    }
  }

  lemma SubscriptionKnown(hs: seq<Request>, supi: string)
    requires AllValid(hs) && ValidSupi(supi)
    ensures SubscriptionKey(supi) in RowsAfter(hs) <==> Subscribed(hs, supi)
  {
    var key := SubscriptionKey(supi);
    if key in RowsAfter(hs) {
      var h := RowFrom(hs, key);
      OwnKeys(h, supi);
      RowsAsk(h, SubscriptionKey(supi));
    }
    if h :| h in hs && h.supi == supi && h.offering != "" {
      OwnKeys(h, supi);
      RowsAsk(h, SubscriptionKey(supi));
      RowIn(hs, h, key);
    }
  }

  /** What the charging database asks of a request, told by the requests before it. */
  predicate Welcome(setting: Setting, hs: seq<Request>, r: Request) {
    && Checked(r)
    && (Served(hs, r.supi) || r.supi !in setting.taken)
    && (r.msisdn != "" && NumberOf(hs, r.supi) == "" ==>
          r.msisdn !in setting.taken && forall h | h in hs :: NumberOf(hs, h.supi) != r.msisdn)
    && (r.offering != "" && !Subscribed(hs, r.supi) ==> r.offering in setting.offerings)
  }

  lemma AdmitsIs(setting: Setting, hs: seq<Request>, r: Request)
    requires AllValid(hs) && Valid(r)
    ensures Admits(setting, RowsAfter(hs), r) <==> Welcome(setting, hs, r)
  {
    SupiKnown(hs, r.supi);
    SubscriptionKnown(hs, r.supi);
    NumberRow(hs, r.supi);
    if r.msisdn != "" {
      NumberHeld(hs, r.msisdn);
    }
  }

  /** Every request of a sequence that is taken in turn meets the constraints that no other request can lift. */
  lemma {:induction false} AllMeet(setting: Setting, hs: seq<Request>)
    requires InTurn(setting, hs)
    ensures forall h | h in hs :: Valid(h) && Checked(h) && h.supi !in setting.taken
  {
    if hs != [] {
      var front := hs[..|hs| - 1];
      AllMeet(setting, front);
      AdmitsIs(setting, front, hs[|hs| - 1]);
    }
  }

  // ---- Cutting ------------------------------------------------------------------------------------

  function Pick(hs: seq<Request>, kept: set<nat>): seq<Request> {
    if hs == [] then [] else
      var n := |hs| - 1;
      Pick(hs[..n], kept) + if n in kept then [hs[n]] else []
  }

  // The subscriber's first number, and first subscription.
  predicate FirstNumber(hs: seq<Request>, j: nat) {
    j < |hs| && hs[j].msisdn != "" && NumberOf(hs[..j], hs[j].supi) == ""
  }

  predicate FirstOffering(hs: seq<Request>, j: nat) {
    j < |hs| && hs[j].offering != "" && !Subscribed(hs[..j], hs[j].supi)
  }

  /** Whoever is kept, the firsts of the subscriber before it are kept. */
  predicate Closed(hs: seq<Request>, kept: set<nat>) {
    forall i: nat, j: nat | j < i < |hs| && i in kept && hs[j].supi == hs[i].supi && (FirstNumber(hs, j) || FirstOffering(hs, j)) ::
      j in kept
  }

  lemma FirstsStay(hs: seq<Request>, j: nat)
    requires j < |hs| - 1
    ensures FirstNumber(hs[..|hs| - 1], j) == FirstNumber(hs, j) && FirstOffering(hs[..|hs| - 1], j) == FirstOffering(hs, j)
  {
    assert hs[..|hs| - 1][..j] == hs[..j];
  }

  lemma ClosedFront(hs: seq<Request>, kept: set<nat>)
    requires hs != [] && Closed(hs, kept)
    ensures Closed(hs[..|hs| - 1], kept)
  {
    var front := hs[..|hs| - 1];
    forall i: nat, j: nat | j < i < |front| && i in kept && front[j].supi == front[i].supi && (FirstNumber(front, j) || FirstOffering(front, j))
      ensures j in kept
    {
      FirstsStay(hs, j);
    }
  }

  lemma {:induction false} NumberSome(hs: seq<Request>, supi: string)
    ensures NumberOf(hs, supi) != "" <==> exists h | h in hs :: h.supi == supi && h.msisdn != ""
  {
    if hs != [] {
      var front := hs[..|hs| - 1];
      NumberSome(front, supi);
      if h :| h in hs && h.supi == supi && h.msisdn != "" {
        assert h in front || h == hs[|hs| - 1];
      }
    }
  }

  lemma {:induction false} NumberFirst(hs: seq<Request>, supi: string) returns (j: nat)
    requires NumberOf(hs, supi) != ""
    ensures FirstNumber(hs, j) && hs[j].supi == supi
  {
    var front := hs[..|hs| - 1];
    if NumberOf(front, supi) != "" {
      j := NumberFirst(front, supi);
      FirstsStay(hs, j);
    } else {
      j := |hs| - 1;
    }
  }

  lemma {:induction false} OfferingFirst(hs: seq<Request>, supi: string) returns (j: nat)
    requires Subscribed(hs, supi)
    ensures FirstOffering(hs, j) && hs[j].supi == supi
  {
    var front := hs[..|hs| - 1];
    if Subscribed(front, supi) {
      j := OfferingFirst(front, supi);
      FirstsStay(hs, j);
    } else {
      j := |hs| - 1;
      var h :| h in hs && h.supi == supi && h.offering != "";
      assert h in front || h == hs[j];
    }
  }

  lemma {:induction false} Picked(hs: seq<Request>, kept: set<nat>)
    ensures forall h | h in Pick(hs, kept) :: exists i: nat :: i < |hs| && i in kept && hs[i] == h
    ensures forall i: nat | i < |hs| && i in kept :: hs[i] in Pick(hs, kept)
  {
    if hs != [] {
      var n := |hs| - 1;
      var front := hs[..n];
      Picked(front, kept);
      forall h | h in Pick(hs, kept) ensures exists i: nat :: i < |hs| && i in kept && hs[i] == h {
        if h in Pick(front, kept) {
          var i: nat :| i < |front| && i in kept && front[i] == h;
          assert hs[i] == h;
        } else {
          assert hs[n] == h;
        }
      }
      forall i: nat | i < |hs| && i in kept ensures hs[i] in Pick(hs, kept) {
        if i < n {
          assert front[i] in Pick(front, kept);
        }
      }
    }
  }

  // The request at the end finds its subscriber's number and subscription among the kept ones.
  lemma FindsFirsts(hs: seq<Request>, kept: set<nat>)
    requires hs != [] && |hs| - 1 in kept && Closed(hs, kept)
    ensures var front, supi := hs[..|hs| - 1], hs[|hs| - 1].supi;
            && (NumberOf(front, supi) != "" ==> NumberOf(Pick(front, kept), supi) != "")
            && (Subscribed(front, supi) ==> Subscribed(Pick(front, kept), supi))
  {
    var front, supi := hs[..|hs| - 1], hs[|hs| - 1].supi;
    Picked(front, kept);
    if NumberOf(front, supi) != "" {
      var j := NumberFirst(front, supi);
      FirstsStay(hs, j);
      NumberSome(Pick(front, kept), supi);
      assert front[j] in Pick(front, kept);
    }
    if Subscribed(front, supi) {
      var j := OfferingFirst(front, supi);
      FirstsStay(hs, j);
      assert front[j] in Pick(front, kept);
    }
  }

  // A number among the kept ones is the number of the whole sequence.
  lemma {:induction false} SameNumber(hs: seq<Request>, kept: set<nat>, supi: string)
    requires Closed(hs, kept)
    ensures NumberOf(Pick(hs, kept), supi) in {"", NumberOf(hs, supi)}
  {
    if hs != [] {
      var n := |hs| - 1;
      var front := hs[..n];
      ClosedFront(hs, kept);
      SameNumber(front, kept, supi);
      if n in kept {
        FindsFirsts(hs, kept);
        assert Pick(hs, kept)[..|Pick(hs, kept)| - 1] == Pick(front, kept);
      } else {
        assert Pick(hs, kept) == Pick(front, kept);
      }
    }
  }

  lemma StillWelcome(setting: Setting, hs: seq<Request>, kept: set<nat>)
    requires hs != [] && |hs| - 1 in kept && Closed(hs, kept) && InTurn(setting, hs)
    requires Welcome(setting, hs[..|hs| - 1], hs[|hs| - 1])
    ensures Welcome(setting, Pick(hs[..|hs| - 1], kept), hs[|hs| - 1])
  {
    var front, r := hs[..|hs| - 1], hs[|hs| - 1];
    var fewer := Pick(front, kept);
    AllMeet(setting, hs);
    FindsFirsts(hs, kept);
    ClosedFront(hs, kept);
    Picked(front, kept);
    forall h | r.msisdn != "" && NumberOf(fewer, r.supi) == "" && h in fewer ensures NumberOf(fewer, h.supi) != r.msisdn {
      SameNumber(front, kept, h.supi);
      assert h in front;
    }
  }

  lemma StillTakesLast(setting: Setting, hs: seq<Request>, kept: set<nat>)
    requires hs != [] && |hs| - 1 in kept && Closed(hs, kept) && InTurn(setting, hs)
    ensures Valid(hs[|hs| - 1]) && Admits(setting, RowsAfter(Pick(hs[..|hs| - 1], kept)), hs[|hs| - 1])
  {
    var front, r := hs[..|hs| - 1], hs[|hs| - 1];
    AllMeet(setting, front);
    Picked(front, kept);
    AdmitsIs(setting, front, r);
    StillWelcome(setting, hs, kept);
    AdmitsIs(setting, Pick(front, kept), r);
  }

  /** What is kept is taken in turn by itself. */
  lemma {:induction false} PickInTurn(setting: Setting, hs: seq<Request>, kept: set<nat>)
    requires InTurn(setting, hs) && Closed(hs, kept)
    ensures InTurn(setting, Pick(hs, kept))
  {
    if hs != [] {
      var n := |hs| - 1;
      var front := hs[..n];
      ClosedFront(hs, kept);
      PickInTurn(setting, front, kept);
      if n in kept {
        StillTakesLast(setting, hs, kept);
        Snoc(setting, Pick(front, kept), hs[n]);
        assert Pick(hs, kept) == Pick(front, kept) + [hs[n]];
      } else {
        assert Pick(hs, kept) == Pick(front, kept);
      }
    }
  }

  lemma {:induction false} PickAgrees(hs: seq<Request>, a: set<nat>, b: set<nat>)
    requires forall i: nat | i < |hs| :: i in a <==> i in b
    ensures Pick(hs, a) == Pick(hs, b)
  {
    if hs != [] {
      PickAgrees(hs[..|hs| - 1], a, b);
    }
  }

  lemma {:induction false} PickLength(hs: seq<Request>, kept: set<nat>)
    ensures |Pick(hs, kept)| <= |kept|
  {
    if hs != [] {
      var n := |hs| - 1;
      PickAgrees(hs[..n], kept, kept - {n});
      PickLength(hs[..n], kept - {n});
    }
  }

  // Of two requests for one subscriber, the later is not the first with a number, nor with a subscription.
  lemma OneFirst(hs: seq<Request>, i: nat, j: nat)
    requires i < |hs| && j < |hs| && hs[i].supi == hs[j].supi
    ensures FirstNumber(hs, i) && FirstNumber(hs, j) ==> i == j
    ensures FirstOffering(hs, i) && FirstOffering(hs, j) ==> i == j
  {
    if i < j {
      assert hs[i] in hs[..j];
      NumberSome(hs[..j], hs[j].supi);
    } else if j < i {
      assert hs[j] in hs[..i];
      NumberSome(hs[..i], hs[i].supi);
    }
  }

  /** One request needs at most two others, of its own subscriber. */
  lemma Needed(hs: seq<Request>, i: nat) returns (kept: set<nat>)
    requires i < |hs|
    ensures i in kept && |kept| <= 3 && Closed(hs, kept)
    ensures forall j | j in kept :: j < |hs| && hs[j].supi == hs[i].supi
  {
    var supi := hs[i].supi;
    var number, offering := i, i;
    if NumberOf(hs, supi) != "" {
      number := NumberFirst(hs, supi);
    }
    if Subscribed(hs, supi) {
      offering := OfferingFirst(hs, supi);
    }
    kept := {i, number, offering};
    forall a: nat, b: nat | b < a < |hs| && a in kept && hs[b].supi == hs[a].supi && (FirstNumber(hs, b) || FirstOffering(hs, b))
      ensures b in kept
    {
      OneFirst(hs, b, number);
      OneFirst(hs, b, offering);
      if FirstNumber(hs, b) {
        NumberSome(hs, supi);
        assert hs[b] in hs;
      }
    }
  }

  // Part of a sequence, itself taken in turn.
  ghost predicate Part(setting: Setting, gs: seq<Request>, hs: seq<Request>) {
    InTurn(setting, gs) && forall g | g in gs :: g in hs
  }

  lemma PartRows(setting: Setting, gs: seq<Request>, hs: seq<Request>)
    requires Part(setting, gs, hs)
    ensures RowsAfter(gs).Keys <= RowsAfter(hs).Keys
  {
    forall key | key in RowsAfter(gs) ensures key in RowsAfter(hs) {
      var h := RowFrom(gs, key);
      RowIn(hs, h, key);
    }
  }

  /** All requests are for one subscriber. */
  predicate OneSubscriber(hs: seq<Request>) { forall g, h | g in hs && h in hs :: g.supi == h.supi }

  /** Any request of a sequence is in a part of at most three, all for one subscriber. */
  lemma CutToOne(setting: Setting, hs: seq<Request>, order: string) returns (gs: seq<Request>)
    requires InTurn(setting, hs) && Mentions(hs, order)
    ensures Part(setting, gs, hs) && |gs| <= 3 && OneSubscriber(gs) && Mentions(gs, order)
  {
    var h :| h in hs && OrderId(h) == order;
    var i: nat :| i < |hs| && hs[i] == h;
    var kept := Needed(hs, i);
    gs := Pick(hs, kept);
    PickInTurn(setting, hs, kept);
    PickLength(hs, kept);
    Picked(hs, kept);
  }

  /** Any two are in a part of at most six. */
  lemma CutToTwo(setting: Setting, hs: seq<Request>, a: string, b: string) returns (gs: seq<Request>)
    requires InTurn(setting, hs) && Mentions(hs, a) && Mentions(hs, b)
    ensures Part(setting, gs, hs) && |gs| <= 6 && Mentions(gs, a) && Mentions(gs, b)
  {
    var h :| h in hs && OrderId(h) == a;
    var k :| k in hs && OrderId(k) == b;
    var i: nat :| i < |hs| && hs[i] == h;
    var j: nat :| j < |hs| && hs[j] == k;
    var first := Needed(hs, i);
    var second := Needed(hs, j);
    var kept := first + second;
    assert |kept| == |first| + |second - first|;
    gs := Pick(hs, kept);
    PickInTurn(setting, hs, kept);
    PickLength(hs, kept);
    Picked(hs, kept);
    assert hs[i] in gs && hs[j] in gs;
  }
}
