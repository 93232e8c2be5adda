/** Bill runs over applied rates: totals that refuse to mix currencies, and runs that can be repeated safely. */
module BillRun {
  import opened Wrappers

  // Amounts are integers in the smallest unit.
  datatype Money = Money(unit: Option<string>, value: Option<int>)

  datatype Item = Item(taxExcluded: Option<Money>, taxIncluded: Option<Money>, isBilled: bool, bill: Option<string>)

  datatype Bill = Bill(no: string, excluded: Option<Money>, included: Option<Money>, due: Option<Money>,
                       remaining: Option<Money>)

  type Field = Item -> Option<Money>

  const EXCLUDED: Field := (x: Item) => x.taxExcluded
  const INCLUDED: Field := (x: Item) => x.taxIncluded

  // ---- Totals -------------------------------------------------------------------------------------

  predicate Carried(items: seq<Item>, f: Field) { exists i | 0 <= i < |items| :: f(items[i]).Some? }

  predicate Names(x: Option<Money>, unit: string) { x.Some? && x.value.unit == Some(unit) }

  /** Two items name different units. */
  predicate Mixed(items: seq<Item>, f: Field) {
    exists i, j | 0 <= i < |items| && 0 <= j < |items| ::
      f(items[i]).Some? && f(items[j]).Some? && f(items[i]).value.unit.Some? && f(items[j]).value.unit.Some?
      && f(items[i]).value.unit != f(items[j]).value.unit
  }

  function Amount(x: Option<Money>): int { if x.Some? && x.value.value.Some? then x.value.value.value else 0 }

  function Sum(items: seq<Item>, f: Field): int {
    if items == [] then 0 else Sum(items[..|items| - 1], f) + Amount(f(items[|items| - 1]))
  }

  // The unit the first item that names one names.
  function UnitOf(items: seq<Item>, f: Field): Option<string> {
    if items == [] then None
    else
      var before := UnitOf(items[..|items| - 1], f);
      var last := f(items[|items| - 1]);
      if before.Some? || last.None? then before else last.value.unit
  }

  /** A total is stated only when some item carries the field and no two items name different units. */
  function Total(items: seq<Item>, f: Field): Option<Money> {
    if !Carried(items, f) || Mixed(items, f) then None else Some(Money(UnitOf(items, f), Some(Sum(items, f))))
  }

  lemma {:induction false} UnitNamed(items: seq<Item>, f: Field)
    ensures var u := UnitOf(items, f);
            && (u.Some? ==> exists i | 0 <= i < |items| :: Names(f(items[i]), u.value))
            && (u.None? ==> forall i | 0 <= i < |items| :: f(items[i]).Some? ==> f(items[i]).value.unit.None?)
  {
    if items != [] {
      var front := items[..|items| - 1];
      UnitNamed(front, f);
      var u := UnitOf(front, f);
      if u.Some? {
        var i :| 0 <= i < |front| && Names(f(front[i]), u.value);
        assert Names(f(items[i]), u.value);
      } else {
        assert forall i | 0 <= i < |front| :: items[i] == front[i];
      }
    }
  }

  // One more item clashes exactly when it names another unit than the one named so far.
  lemma MixedSnoc(items: seq<Item>, f: Field, x: Item)
    requires !Mixed(items, f)
    ensures Mixed(items + [x], f) <==>
            f(x).Some? && f(x).value.unit.Some? && UnitOf(items, f).Some? && f(x).value.unit != UnitOf(items, f)
  {
    var all := items + [x];
    UnitNamed(items, f);
    assert forall i | 0 <= i < |items| :: all[i] == items[i];
    assert all[|items|] == x;
    if f(x).Some? && f(x).value.unit.Some? && UnitOf(items, f).Some? && f(x).value.unit != UnitOf(items, f) {
      var i :| 0 <= i < |items| && Names(f(items[i]), UnitOf(items, f).value);
      assert Names(f(all[i]), UnitOf(items, f).value);
    }
  }

  lemma Snoc(items: seq<Item>, f: Field, x: Item)
    ensures Carried(items + [x], f) <==> Carried(items, f) || f(x).Some?
    ensures Sum(items + [x], f) == Sum(items, f) + Amount(f(x))
    ensures UnitOf(items + [x], f)
            == if UnitOf(items, f).Some? || f(x).None? then UnitOf(items, f) else f(x).value.unit
  {
    var all := items + [x];
    assert all[..|items|] == items && all[|items|] == x;
    if Carried(items, f) {
      var i :| 0 <= i < |items| && f(items[i]).Some?;
      assert f(all[i]).Some?;
    }
  }

  /** The loop, which gives up at the first item in another currency. */
  method SumMoney(items: seq<Item>, f: Field) returns (r: Option<Money>)
    ensures r == Total(items, f)
  {
    var currency: Option<string> := None;
    var total := 0;
    var any := false;
    for i := 0 to |items|
      invariant !Mixed(items[..i], f) && currency == UnitOf(items[..i], f) && total == Sum(items[..i], f)
      invariant any == Carried(items[..i], f)
    {
      var money := f(items[i]);
      assert items[..i + 1] == items[..i] + [items[i]];
      MixedSnoc(items[..i], f, items[i]);
      Snoc(items[..i], f, items[i]);
      if money.Some? {
        if money.value.unit.Some? {
          if currency.None? {
            currency := money.value.unit;
          } else if currency != money.value.unit {
            return None;
          }
        }
        total := total + Amount(money);
        any := true;
      }
    }
    assert items[..|items|] == items;
    if !any {
      return None;
    }
    return Some(Money(currency, Some(total)));
  }

  // ---- One run ------------------------------------------------------------------------------------

  function Unbilled(items: seq<Item>): seq<Item> {
    if items == [] then []
    else
      var rest := Unbilled(items[..|items| - 1]);
      if items[|items| - 1].isBilled then rest else rest + [items[|items| - 1]]
  }

  function BillFor(no: string, items: seq<Item>): Bill {
    var excluded, included := Total(Unbilled(items), EXCLUDED), Total(Unbilled(items), INCLUDED);
    var due := if included.Some? then included else excluded;
    Bill(no, excluded, included, due, due)
  }

  function OnBill(x: Item, no: string): Item { x.(isBilled := true, bill := Some(no)) }

  function BilledItems(no: string, items: seq<Item>): (out: seq<Item>)
    ensures |out| == |items| && forall i | 0 <= i < |items| :: out[i] == OnBill(items[i], no)
  {
    seq(|items|, i requires 0 <= i < |items| => OnBill(items[i], no))
  }

  /** One bill over everything that is not on a bill yet. */
  method RunBill(no: string, items: seq<Item>) returns (bill: Bill, billed: seq<Item>)
    ensures bill == BillFor(no, items)
    ensures billed == BilledItems(no, Unbilled(items))
  {
    var unbilled: seq<Item> := [];
    for i := 0 to |items|
      invariant unbilled == Unbilled(items[..i])
    {
      assert items[..i + 1][..i] == items[..i];
      if !items[i].isBilled {
        unbilled := unbilled + [items[i]];
      }
    }
    assert items[..|items|] == items;
    var excluded := SumMoney(unbilled, EXCLUDED);
    var included := SumMoney(unbilled, INCLUDED);
    var due := if included.Some? then included else excluded;
    bill := Bill(no, excluded, included, due, due);
    billed := [];
    for i := 0 to |unbilled|
      invariant billed == BilledItems(no, unbilled)[..i]
    {
      billed := billed + [unbilled[i].(isBilled := true, bill := Some(no))];
    }
  }

  // ---- Histories ----------------------------------------------------------------------------------

  // Items keep their place in the store; a run writes its billed items back to theirs.
  datatype State = State(items: seq<Item>, bills: seq<Bill>)

  datatype Event = Arrive(item: Item) | Run(no: string)

  function WriteBack(items: seq<Item>, no: string): (out: seq<Item>)
    ensures |out| == |items|
    ensures forall i | 0 <= i < |items| :: out[i] == if items[i].isBilled then items[i] else OnBill(items[i], no)
  {
    seq(|items|, i requires 0 <= i < |items| => if items[i].isBilled then items[i] else OnBill(items[i], no))
  }

  function Step(s: State, e: Event): State {
    match e
    case Arrive(item) => s.(items := s.items + [item])
    case Run(no) => State(WriteBack(s.items, no), s.bills + [BillFor(no, s.items)])
  }

  function After(es: seq<Event>): State {
    if es == [] then State([], []) else Step(After(es[..|es| - 1]), es[|es| - 1])
  }

  // What arrives is on no bill, and no two runs share a bill number.
  predicate Fresh(es: seq<Event>) {
    && (forall i | 0 <= i < |es| && es[i].Arrive? :: !es[i].item.isBilled && es[i].item.bill.None?)
    && (forall i, j | 0 <= i < j < |es| && es[i].Run? && es[j].Run? :: es[i].no != es[j].no)
  }

  /** All items of the field agree on one unit, as far as they name one. */
  predicate SingleCurrency(items: seq<Item>, f: Field) { !Mixed(items, f) }

  function OfBill(items: seq<Item>, no: string): seq<Item> {
    if items == [] then []
    else
      var rest := OfBill(items[..|items| - 1], no);
      if items[|items| - 1].isBilled && items[|items| - 1].bill == Some(no) then rest + [items[|items| - 1]] else rest
  }

  function Billed(items: seq<Item>): seq<Item> {
    if items == [] then []
    else
      var rest := Billed(items[..|items| - 1]);
      if items[|items| - 1].isBilled then rest + [items[|items| - 1]] else rest
  }

  function SumBills(bills: seq<Bill>, f: Bill -> Option<Money>): int {
    if bills == [] then 0 else SumBills(bills[..|bills| - 1], f) + Amount(f(bills[|bills| - 1]))
  }

  // A field that being put on a bill does not touch.
  ghost predicate Stable(f: Field) { forall x: Item, no: string :: f(OnBill(x, no)) == f(x) }

  lemma {:induction false} UnbilledMixed(items: seq<Item>, f: Field)
    ensures Mixed(Unbilled(items), f) ==> Mixed(items, f)
  {
    if Mixed(Unbilled(items), f) {
      var us := Unbilled(items);
      UnbilledFrom(items);
      var i, j :| 0 <= i < |us| && 0 <= j < |us|
                  && f(us[i]).Some? && f(us[j]).Some? && f(us[i]).value.unit.Some? && f(us[j]).value.unit.Some?
                  && f(us[i]).value.unit != f(us[j]).value.unit;
      assert us[i] in items && us[j] in items;
      var a :| 0 <= a < |items| && items[a] == us[i];
      var b :| 0 <= b < |items| && items[b] == us[j];
    }
  }

  lemma {:induction false} UnbilledFrom(items: seq<Item>)
    ensures forall x | x in Unbilled(items) :: x in items && !x.isBilled
  {
    if items != [] {
      UnbilledFrom(items[..|items| - 1]);
    }
  }

  // An absent total of one currency is a total of nothing.
  lemma {:induction false} NothingCarried(items: seq<Item>, f: Field)
    requires !Carried(items, f)
    ensures Sum(items, f) == 0
  {
    if items != [] {
      var front := items[..|items| - 1];
      assert forall i | 0 <= i < |front| :: front[i] == items[i];
      NothingCarried(front, f);
      assert f(items[|items| - 1]).None?;
    }
  }

  lemma TotalIsSum(items: seq<Item>, f: Field)
    requires SingleCurrency(items, f)
    ensures Amount(Total(items, f)) == Sum(items, f)
  {
    if !Carried(items, f) {
      NothingCarried(items, f);
    }
  }

  // Writing a run back adds the newly billed items to the billed ones.
  lemma {:induction false} WriteBackSum(items: seq<Item>, no: string, f: Field)
    requires Stable(f)
    ensures Sum(Billed(WriteBack(items, no)), f) == Sum(Billed(items), f) + Sum(Unbilled(items), f)
  {
    if items != [] {
      var front, last := items[..|items| - 1], items[|items| - 1];
      WriteBackSum(front, no, f);
      assert WriteBack(items, no)[..|items| - 1] == WriteBack(front, no);
      Snoc(Billed(WriteBack(front, no)), f, OnBill(last, no));
      Snoc(Billed(WriteBack(front, no)), f, last);
      Snoc(Billed(front), f, last);
      Snoc(Unbilled(front), f, last);
    }
  }

  /**
    In a single currency no amount is lost or billed twice: the bills of any history add up to the items that are
    on bills.
   */
  lemma {:induction false} Conserved(es: seq<Event>, f: Field, total: Bill -> Option<Money>)
    requires Fresh(es) && Stable(f) && SingleCurrency(After(es).items, f)
    requires forall no: string, items: seq<Item> :: total(BillFor(no, items)) == Total(Unbilled(items), f)
    ensures SumBills(After(es).bills, total) == Sum(Billed(After(es).items), f)
  {
    if es != [] {
      var front, e := es[..|es| - 1], es[|es| - 1];
      var s := After(front);
      match e
      case Arrive(item) =>
        assert After(es).items[..|s.items|] == s.items;
        ArriveMixed(s.items, item, f);
        Conserved(front, f, total);
        assert Billed(After(es).items) == Billed(s.items);
      case Run(no) =>
        Conserved(front, f, total);
        WriteBackSum(s.items, no, f);
        UnbilledMixed(s.items, f);
        TotalIsSum(Unbilled(s.items), f);
        assert After(es).bills[..|s.bills|] == s.bills;
    }
  }

  lemma ArriveMixed(items: seq<Item>, x: Item, f: Field)
    ensures Mixed(items, f) ==> Mixed(items + [x], f)
  {
    if Mixed(items, f) {
      assert (items + [x])[..|items|] == items;
    }
  }

  /** The two totals of a bill are such totals. */
  lemma BothConserved(es: seq<Event>)
    requires Fresh(es)
    ensures SingleCurrency(After(es).items, EXCLUDED) ==>
              SumBills(After(es).bills, (b: Bill) => b.excluded) == Sum(Billed(After(es).items), EXCLUDED)
    ensures SingleCurrency(After(es).items, INCLUDED) ==>
              SumBills(After(es).bills, (b: Bill) => b.included) == Sum(Billed(After(es).items), INCLUDED)
  {
    if SingleCurrency(After(es).items, EXCLUDED) {
      Conserved(es, EXCLUDED, (b: Bill) => b.excluded);
    }
    if SingleCurrency(After(es).items, INCLUDED) {
      Conserved(es, INCLUDED, (b: Bill) => b.included);
    }
  }

  // The number of bills an item is on; bills are told apart by number.
  function BillCount(bills: seq<Bill>, x: Item): nat {
    if bills == [] then 0
    else BillCount(bills[..|bills| - 1], x) + if x.isBilled && x.bill == Some(bills[|bills| - 1].no) then 1 else 0
  }

  lemma {:induction false} NotOnLater(bills: seq<Bill>, x: Item, no: string)
    requires x.isBilled && x.bill == Some(no) && forall k | 0 <= k < |bills| :: bills[k].no != no
    ensures BillCount(bills, x) == 0
  {
    if bills != [] {
      NotOnLater(bills[..|bills| - 1], x, no);
    }
  }

  predicate NumbersFrom(bills: seq<Bill>, es: seq<Event>) {
    forall k | 0 <= k < |bills| :: exists i | 0 <= i < |es| :: es[i] == Run(bills[k].no)
  }

  lemma {:induction false} BillNumbers(es: seq<Event>)
    ensures NumbersFrom(After(es).bills, es)
  {
    if es != [] {
      var front := es[..|es| - 1];
      BillNumbers(front);
      forall k | 0 <= k < |After(es).bills| ensures exists i | 0 <= i < |es| :: es[i] == Run(After(es).bills[k].no) {
        if k < |After(front).bills| {
          var i :| 0 <= i < |front| && front[i] == Run(After(front).bills[k].no);
          assert es[i] == front[i];
        } else {
          assert es[|es| - 1] == Run(After(es).bills[k].no);
        }
      }
    }
  }

  predicate OnOne(bills: seq<Bill>, items: seq<Item>) {
    forall i | 0 <= i < |items| :: BillCount(bills, items[i]) == if items[i].isBilled then 1 else 0
  }

  lemma RunOnOne(bills: seq<Bill>, items: seq<Item>, bill: Bill)
    requires OnOne(bills, items) && forall k | 0 <= k < |bills| :: bills[k].no != bill.no
    ensures OnOne(bills + [bill], WriteBack(items, bill.no))
  {
    var after := WriteBack(items, bill.no);
    assert (bills + [bill])[..|bills|] == bills;
    forall i | 0 <= i < |after| ensures BillCount(bills + [bill], after[i]) == 1 {
      if items[i].isBilled {
        assert BillCount(bills, items[i]) == 1;
        OldNumber(bills, items[i], bill.no);
      } else {
        NotOnLater(bills, after[i], bill.no);
      }
    }
  }

  lemma ArriveOnOne(bills: seq<Bill>, items: seq<Item>, x: Item)
    requires OnOne(bills, items) && !x.isBilled
    ensures OnOne(bills, items + [x])
  {
    NotBilled(bills, x);
    assert forall i | 0 <= i < |items| :: (items + [x])[i] == items[i];
  }

  /** In every history each item is on exactly one bill once it is billed, on none before, and a run bills them all. */
  lemma {:induction false} BilledOnce(es: seq<Event>)
    requires Fresh(es)
    ensures OnOne(After(es).bills, After(es).items)
    ensures es != [] && es[|es| - 1].Run? ==> forall i | 0 <= i < |After(es).items| :: After(es).items[i].isBilled
  {
    if es != [] {
      var front, e := es[..|es| - 1], es[|es| - 1];
      var s := After(front);
      BilledOnce(front);
      match e
      case Arrive(item) => ArriveOnOne(s.bills, s.items, item);
      case Run(no) =>
        BillNumbers(front);
        assert es == front + [e];
        NewNumber(front, e, s.bills);
        RunOnOne(s.bills, s.items, BillFor(no, s.items));
    }
  }

  lemma {:induction false} NotBilled(bills: seq<Bill>, x: Item)
    requires !x.isBilled
    ensures BillCount(bills, x) == 0
  {
    if bills != [] {
      NotBilled(bills[..|bills| - 1], x);
    }
  }

  lemma NewNumber(front: seq<Event>, e: Event, bills: seq<Bill>)
    requires e.Run? && Fresh(front + [e]) && NumbersFrom(bills, front)
    ensures forall k | 0 <= k < |bills| :: bills[k].no != e.no
  {
    forall k | 0 <= k < |bills| ensures bills[k].no != e.no {
      var i :| 0 <= i < |front| && front[i] == Run(bills[k].no);
      assert (front + [e])[i] == front[i] && (front + [e])[|front|] == e;
    }
  }

  // An item that is on one of the bills has that bill's number.
  lemma {:induction false} OldNumber(bills: seq<Bill>, x: Item, no: string)
    requires BillCount(bills, x) > 0 && forall k | 0 <= k < |bills| :: bills[k].no != no
    ensures x.bill != Some(no)
  {
    if !(x.isBilled && x.bill == Some(bills[|bills| - 1].no)) {
      OldNumber(bills[..|bills| - 1], x, no);
    }
  }

  /** Running again at once bills nothing: no item, and no amount. */
  lemma RunAgain(items: seq<Item>, no: string, again: string)
    ensures Unbilled(WriteBack(items, no)) == []
    ensures WriteBack(WriteBack(items, no), again) == WriteBack(items, no)
    ensures BillFor(again, WriteBack(items, no)) == Bill(again, None, None, None, None)
  {
    AllBilled(WriteBack(items, no));
  }

  lemma {:induction false} AllBilled(items: seq<Item>)
    requires forall i | 0 <= i < |items| :: items[i].isBilled
    ensures Unbilled(items) == []
  {
    if items != [] {
      AllBilled(items[..|items| - 1]);
    }
  }
}
