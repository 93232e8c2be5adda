/** Product offering prices: the header row, tax items, and two relationship lists that share one ordinal sequence. */
module CatalogPrice {
  import opened Wrappers
  import opened CatalogRows
  import opened CatalogModel

  datatype Relation = Relation(id: Text, href: Text, name: Text, kind: Text, role: Text)

  datatype RelationRow = RelationRow(list: string, id: Text, href: Text, name: Text, kind: Text, role: Text)

  datatype Tax = Tax(id: Text, href: Text, category: Text, rate: Option<real>, amount: Option<Money>)

  datatype TaxRow = TaxRow(id: Text, href: Text, category: Text, rate: Option<real>, unit: Text, value: Option<real>)

  datatype Header = Header(id: Text, href: Text, name: Text, description: Text, lifecycleStatus: Text,
                           lastUpdate: Text, priceType: Text, percentage: Option<real>, version: Text,
                           price: Option<Money>, periodLength: Option<int>, periodType: Text,
                           unitOfMeasure: Option<Quantity>, constraints: seq<Json>, place: seq<Json>,
                           algorithms: seq<Json>, terms: seq<Json>, validFor: Option<TimePeriod>)

  datatype HeaderRow = HeaderRow(id: string, href: Text, name: Text, description: Text, lifecycleStatus: Text,
                                 lastUpdate: Text, priceType: Text, percentage: Option<real>, version: Text,
                                 priceUnit: Text, priceValue: Option<real>, periodLength: Option<int>,
                                 periodType: Text, uomAmount: Option<real>, uomUnits: Text,
                                 constraints: Option<Json>, place: Option<Json>, algorithms: Option<Json>,
                                 terms: Option<Json>, start: Text, end: Text)

  datatype Lists = Lists(relations: seq<Relation>, bundled: seq<LooseBasic>, taxes: seq<Tax>)

  datatype Price = Price(header: Header, lists: Lists, uses: Uses)

  datatype Tables = Tables(headers: map<string, HeaderRow>, relations: Table<string, RelationRow>,
                           taxes: Table<string, TaxRow>)

  function HeaderIn(clock: Clock, id: string, h: Header): HeaderRow {
    HeaderRow(id, h.href, h.name, h.description, h.lifecycleStatus, Canonical(clock, h.lastUpdate), h.priceType,
              h.percentage, h.version, UnitColumn(h.price), ValueColumn(h.price), h.periodLength, h.periodType,
              AmountColumn(h.unitOfMeasure), UnitsColumn(h.unitOfMeasure), JsonIn(h.constraints), JsonIn(h.place),
              JsonIn(h.algorithms), JsonIn(h.terms), StartColumn(clock, h.validFor), EndColumn(clock, h.validFor))
  }

  function HeaderOut(r: HeaderRow): Header {
    Header(Some(r.id), r.href, r.name, r.description, r.lifecycleStatus, r.lastUpdate, r.priceType, r.percentage,
           r.version, MoneyOut(r.priceUnit, r.priceValue), r.periodLength, r.periodType,
           QuantityOut(r.uomAmount, r.uomUnits), JsonOut(r.constraints), JsonOut(r.place), JsonOut(r.algorithms),
           JsonOut(r.terms), PeriodOut(r.start, r.end))
  }

  const POP := "POP"
  const BUNDLED_POP := "BUNDLED_POP"

  function RelationIn(r: Relation): RelationRow { RelationRow(POP, r.id, r.href, r.name, r.kind, r.role) }

  function BundledIn(r: LooseBasic): RelationRow { RelationRow(BUNDLED_POP, r.id, r.href, r.name, None, None) }

  function RelationsIn(rs: seq<Relation>): (rows: seq<RelationRow>)
    ensures |rows| == |rs| && forall i | 0 <= i < |rs| :: rows[i] == RelationIn(rs[i])
  {
    Map(r => RelationIn(r), rs)
  }

  function BundledsIn(bs: seq<LooseBasic>): (rows: seq<RelationRow>)
    ensures |rows| == |bs| && forall i | 0 <= i < |bs| :: rows[i] == BundledIn(bs[i])
  {
    Map(b => BundledIn(b), bs)
  }

  // The plain relationships first, the bundled ones numbered on from them.
  function RelationRows(l: Lists): seq<RelationRow> { RelationsIn(l.relations) + BundledsIn(l.bundled) }

  // Puts a row into the list its kind names.
  function AddRelation(l: Lists, r: RelationRow): Lists {
    if r.list == BUNDLED_POP then l.(bundled := l.bundled + [LooseBasic(r.id, r.href, r.name)])
    else l.(relations := l.relations + [Relation(r.id, r.href, r.name, r.kind, r.role)])
  }

  function AddRelations(l: Lists, rows: seq<RelationRow>): Lists {
    if rows == [] then l else AddRelation(AddRelations(l, rows[..|rows| - 1]), rows[|rows| - 1])
  }

  function TaxIn(t: Tax): TaxRow {
    TaxRow(t.id, t.href, t.category, t.rate, UnitColumn(t.amount), ValueColumn(t.amount))
  }

  function TaxOut(r: TaxRow): Tax { Tax(r.id, r.href, r.category, r.rate, MoneyOut(r.unit, r.value)) }

  predicate DatesParse(clock: Clock, p: Price) {
    && Parses(clock, p.header.lastUpdate) && PeriodParses(clock, p.header.validFor)
    && NodesParse(clock, (u: Use) => u.validFor, p.uses)
  }

  function CanonicalHeader(clock: Clock, h: Header): Header {
    h.(lastUpdate := Canonical(clock, h.lastUpdate), price := CanonicalMoney(h.price),
       unitOfMeasure := CanonicalQuantity(h.unitOfMeasure), validFor := CanonicalPeriod(clock, h.validFor))
  }

  function CanonicalLists(l: Lists): Lists {
    l.(taxes := Map((t: Tax) => t.(amount := CanonicalMoney(t.amount)), l.taxes))
  }

  /** What a price posted and given an id and href is expected to come back as. */
  function CanonicalPrice(clock: Clock, p: Price): Price {
    Price(CanonicalHeader(clock, p.header), CanonicalLists(p.lists),
          CanonicalNodes(clock, u => CanonicalUse(clock, u), p.uses))
  }

  function WithHeader(clock: Clock, t: Tables, id: string, h: Header): Tables {
    t.(headers := t.headers[id := HeaderIn(clock, id, h)])
  }

  function WithLists(t: Tables, id: string, l: Lists): Tables {
    t.(relations := t.relations + Rows(id, RelationRows(l), 0), taxes := t.taxes + Rows(id, Map(x => TaxIn(x), l.taxes), 0))
  }

  function LoadLists(t: Tables, id: string): Lists {
    AddRelations(Lists([], [], Map(r => TaxOut(r), ListOf(t.taxes, id))), ListOf(t.relations, id))
  }

  ghost predicate TablesSound(t: Tables) { Sound(t.relations, t.headers.Keys) && Sound(t.taxes, t.headers.Keys) }

  lemma HeaderRoundTrip(clock: Clock, id: string, h: Header)
    requires Parses(clock, h.lastUpdate) && PeriodParses(clock, h.validFor)
    ensures HeaderOut(HeaderIn(clock, id, h)) == CanonicalHeader(clock, h.(id := Some(id)))
  {
  }

  lemma {:induction false} AddPlain(l: Lists, rs: seq<Relation>)
    ensures AddRelations(l, RelationsIn(rs)) == l.(relations := l.relations + rs)
  {
    if rs != [] {
      var front, last := rs[..|rs| - 1], rs[|rs| - 1];
      AddPlain(l, front);
      assert RelationsIn(rs) == RelationsIn(front) + [RelationIn(last)];
      assert rs == front + [last];
    }
  }

  lemma {:induction false} AddBundled(l: Lists, rows: seq<RelationRow>, bs: seq<LooseBasic>)
    ensures AddRelations(l, rows + BundledsIn(bs))
            == var before := AddRelations(l, rows); before.(bundled := before.bundled + bs)
  {
    if bs == [] {
      assert rows + BundledsIn(bs) == rows;
    } else {
      var front, last := bs[..|bs| - 1], bs[|bs| - 1];
      AddBundled(l, rows, front);
      assert rows + BundledsIn(bs) == (rows + BundledsIn(front)) + [BundledIn(last)];
      assert bs == front + [last];
    }
  }

  lemma TaxesRoundTrip(ts: seq<Tax>)
    ensures Map(r => TaxOut(r), Map(t => TaxIn(t), ts)) == Map((t: Tax) => t.(amount := CanonicalMoney(t.amount)), ts)
  {
  }

  lemma SoundLists(clock: Clock, t: Tables, id: string, h: Header, l: Lists)
    requires TablesSound(t) && id !in t.headers
    ensures TablesSound(WithLists(WithHeader(clock, t, id, h), id, l))
  {
    assert WithHeader(clock, t, id, h).headers.Keys == t.headers.Keys + {id};
    SoundInsert(t.relations, t.headers.Keys, id, RelationRows(l));
    SoundInsert(t.taxes, t.headers.Keys, id, Map(x => TaxIn(x), l.taxes));
  }

  /** Both relationship lists come back apart and in posted order, although one query returns them together. */
  lemma ListsRoundTrip(t: Tables, id: string, l: Lists, other: string)
    requires TablesSound(t) && id !in t.headers
    ensures LoadLists(WithLists(t, id, l), other) == if other == id then CanonicalLists(l) else LoadLists(t, other)
  {
    SoundInsert(t.relations, t.headers.Keys, id, RelationRows(l));
    SoundInsert(t.taxes, t.headers.Keys, id, Map(x => TaxIn(x), l.taxes));
    var empty := Lists([], [], Map(r => TaxOut(r), Map(x => TaxIn(x), l.taxes)));
    TaxesRoundTrip(l.taxes);
    AddPlain(empty, l.relations);
    AddBundled(empty, RelationsIn(l.relations), l.bundled);
  }
}
