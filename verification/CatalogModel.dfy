/**
  The catalog entities, their table columns, and what a stored entity looks like when it comes back: date-times
  in canonical form, and an object whose members are all absent gone.
 */
module CatalogModel {
  import opened Wrappers
  import opened Digits
  import opened CatalogRows
  import opened CatalogTrees

  type Text = Option<string>

  // Reads an RFC 3339 date-time and gives its canonical UTC form; None when it is malformed.
  type Clock = string -> Option<string>

  // A JSON value that is stored as it is.
  datatype Json = JsonArray(items: seq<Json>) | JsonOther(text: string)

  function Map<A, B>(f: A -> B, s: seq<A>): (t: seq<B>)
    ensures |t| == |s| && forall i | 0 <= i < |s| :: t[i] == f(s[i])
  {
    seq(|s|, i requires 0 <= i < |s| => f(s[i]))
  }

  // ---- Values shared by the entities --------------------------------------------------------------

  datatype TimePeriod = TimePeriod(start: Text, end: Text)

  datatype Money = Money(unit: Text, value: Option<real>)

  datatype Quantity = Quantity(amount: Option<real>, units: Text)

  datatype Duration = Duration(amount: Option<int>, units: Text)

  // A single reference, kept in columns of its owner's row.
  datatype Single = Single(id: string, href: Text, name: Text, version: Text, schema: Text)

  // A reference by id, href and name, and one with a fourth member: a version, lifecycle status or role.
  datatype Basic = Basic(id: string, href: Text, name: Text)

  datatype Ref = Ref(id: string, href: Text, name: Text, extra: Text)

  // The same with an optional id; these are also the columns of the two above.
  datatype LooseBasic = LooseBasic(id: Text, href: Text, name: Text)

  datatype LooseRef = LooseRef(id: Text, href: Text, name: Text, extra: Text)

  predicate Parses(clock: Clock, t: Text) { t.Some? ==> clock(t.value).Some? }

  function Canonical(clock: Clock, t: Text): Text { if t.Some? then clock(t.value) else None }

  predicate PeriodParses(clock: Clock, p: Option<TimePeriod>) {
    p.Some? ==> Parses(clock, p.value.start) && Parses(clock, p.value.end)
  }

  function StartColumn(clock: Clock, p: Option<TimePeriod>): Text {
    if p.Some? then Canonical(clock, p.value.start) else None
  }

  function EndColumn(clock: Clock, p: Option<TimePeriod>): Text {
    if p.Some? then Canonical(clock, p.value.end) else None
  }

  function PeriodOut(start: Text, end: Text): Option<TimePeriod> {
    if start.None? && end.None? then None else Some(TimePeriod(start, end))
  }

  function CanonicalPeriod(clock: Clock, p: Option<TimePeriod>): Option<TimePeriod> {
    match p
    case None => None
    case Some(TimePeriod(None, None)) => None
    case Some(TimePeriod(s, e)) => Some(TimePeriod(Canonical(clock, s), Canonical(clock, e)))
  }

  function CanonicalMoney(m: Option<Money>): Option<Money> { if m == Some(Money(None, None)) then None else m }

  function CanonicalQuantity(q: Option<Quantity>): Option<Quantity> {
    if q == Some(Quantity(None, None)) then None else q
  }

  function CanonicalDuration(d: Option<Duration>): Option<Duration> {
    if d == Some(Duration(None, None)) then None else d
  }

  function UnitColumn(m: Option<Money>): Text { if m.Some? then m.value.unit else None }

  function ValueColumn(m: Option<Money>): Option<real> { if m.Some? then m.value.value else None }

  function MoneyOut(unit: Text, value: Option<real>): Option<Money> {
    if unit.Some? || value.Some? then Some(Money(unit, value)) else None
  }

  function AmountColumn(q: Option<Quantity>): Option<real> { if q.Some? then q.value.amount else None }

  function UnitsColumn(q: Option<Quantity>): Text { if q.Some? then q.value.units else None }

  function QuantityOut(amount: Option<real>, units: Text): Option<Quantity> {
    if amount.None? && units.None? then None else Some(Quantity(amount, units))
  }

  datatype SingleColumns = SingleColumns(id: Text, href: Text, name: Text, version: Text, schema: Text)

  function SingleIn(s: Option<Single>): SingleColumns {
    match s
    case None => SingleColumns(None, None, None, None, None)
    case Some(r) => SingleColumns(Some(r.id), r.href, r.name, r.version, r.schema)
  }

  function SingleOut(c: SingleColumns): Option<Single> {
    if c.id.Some? then Some(Single(c.id.value, c.href, c.name, c.version, c.schema)) else None
  }

  function BasicIn(s: Option<Basic>): LooseBasic {
    match s
    case None => LooseBasic(None, None, None)
    case Some(r) => LooseBasic(Some(r.id), r.href, r.name)
  }

  function BasicOut(c: LooseBasic): Option<Basic> {
    if c.id.Some? then Some(Basic(c.id.value, c.href, c.name)) else None
  }

  function RefIn(s: Option<Ref>): LooseRef {
    match s
    case None => LooseRef(None, None, None, None)
    case Some(r) => LooseRef(Some(r.id), r.href, r.name, r.extra)
  }

  function RefOut(c: LooseRef): Option<Ref> {
    if c.id.Some? then Some(Ref(c.id.value, c.href, c.name, c.extra)) else None
  }

  // A list kept as one JSON column; an empty one is stored as NULL.
  function JsonIn(items: seq<Json>): Option<Json> { if items == [] then None else Some(JsonArray(items)) }

  function JsonOut(column: Option<Json>): seq<Json> {
    match column
    case None => []
    case Some(JsonArray(items)) => items
    case Some(j) => [j]
  }

  // ---- Two-level children -------------------------------------------------------------------------

  datatype ValueSpec = ValueSpec(isDefault: Option<bool>, rangeInterval: Text, regex: Text, unit: Option<Quantity>,
                                 from: Text, to: Text, valueType: Text, value: Option<Json>,
                                 validFor: Option<TimePeriod>)

  datatype ValueRow = ValueRow(isDefault: Option<bool>, rangeInterval: Text, regex: Text, amount: Option<real>,
                               units: Text, from: Text, to: Text, valueType: Text, value: Option<Json>,
                               start: Text, end: Text)

  function ValueIn(clock: Clock, v: ValueSpec): ValueRow {
    ValueRow(v.isDefault, v.rangeInterval, v.regex, AmountColumn(v.unit), UnitsColumn(v.unit), v.from, v.to,
             v.valueType, v.value, StartColumn(clock, v.validFor), EndColumn(clock, v.validFor))
  }

  function ValueOut(r: ValueRow): ValueSpec {
    ValueSpec(r.isDefault, r.rangeInterval, r.regex, QuantityOut(r.amount, r.units), r.from, r.to, r.valueType,
              r.value, PeriodOut(r.start, r.end))
  }

  function CanonicalValue(clock: Clock, v: ValueSpec): ValueSpec {
    v.(unit := CanonicalQuantity(v.unit), validFor := CanonicalPeriod(clock, v.validFor))
  }

  // A value-use of an offering or a price, without its values.
  datatype Use = Use(id: string, name: Text, description: Text, valueType: Text, minCardinality: Option<int>,
                     maxCardinality: Option<int>, specification: Option<Single>, validFor: Option<TimePeriod>)

  datatype UseRow = UseRow(useId: Text, name: Text, description: Text, valueType: Text, minCardinality: Option<int>,
                           maxCardinality: Option<int>, specification: SingleColumns, start: Text, end: Text)

  function UseIn(clock: Clock, u: Use): UseRow {
    UseRow(Some(u.id), u.name, u.description, u.valueType, u.minCardinality, u.maxCardinality,
           SingleIn(u.specification), StartColumn(clock, u.validFor), EndColumn(clock, u.validFor))
  }

  function UseOut(r: UseRow): Use {
    Use(if r.useId.Some? then r.useId.value else "", r.name, r.description, r.valueType, r.minCardinality,
        r.maxCardinality, SingleOut(r.specification), PeriodOut(r.start, r.end))
  }

  function CanonicalUse(clock: Clock, u: Use): Use { u.(validFor := CanonicalPeriod(clock, u.validFor)) }

  // A characteristic of a specification, without its values.
  datatype Characteristic = Characteristic(id: string, configurable: Option<bool>, description: Text,
                                           extensible: Option<bool>, isUnique: Option<bool>,
                                           maxCardinality: Option<int>, minCardinality: Option<int>, name: Text,
                                           regex: Text, valueType: Text, validFor: Option<TimePeriod>)

  datatype CharacteristicRow = CharacteristicRow(charId: Text, configurable: Option<bool>, description: Text,
                                                 extensible: Option<bool>, isUnique: Option<bool>,
                                                 maxCardinality: Option<int>, minCardinality: Option<int>,
                                                 name: Text, regex: Text, valueType: Text, start: Text, end: Text)

  function CharacteristicIn(clock: Clock, c: Characteristic): CharacteristicRow {
    CharacteristicRow(Some(c.id), c.configurable, c.description, c.extensible, c.isUnique, c.maxCardinality,
                      c.minCardinality, c.name, c.regex, c.valueType, StartColumn(clock, c.validFor),
                      EndColumn(clock, c.validFor))
  }

  function CharacteristicOut(r: CharacteristicRow): Characteristic {
    Characteristic(if r.charId.Some? then r.charId.value else "", r.configurable, r.description, r.extensible,
                   r.isUnique, r.maxCardinality, r.minCardinality, r.name, r.regex, r.valueType,
                   PeriodOut(r.start, r.end))
  }

  function CanonicalCharacteristic(clock: Clock, c: Characteristic): Characteristic {
    c.(validFor := CanonicalPeriod(clock, c.validFor))
  }

  type Uses = seq<Node<Use, ValueSpec>>

  type Characteristics = seq<Node<Characteristic, ValueSpec>>

  function NodesIn<P, R>(clock: Clock, f: P -> R, nodes: seq<Node<P, ValueSpec>>): seq<Node<R, ValueRow>> {
    Map((n: Node<P, ValueSpec>) => Node(f(n.cells), Map(v => ValueIn(clock, v), n.children)), nodes)
  }

  function NodesOut<P, R>(f: R -> P, nodes: seq<Node<R, ValueRow>>): seq<Node<P, ValueSpec>> {
    Map((n: Node<R, ValueRow>) => Node(f(n.cells), Map(v => ValueOut(v), n.children)), nodes)
  }

  function CanonicalNodes<P>(clock: Clock, f: P -> P, nodes: seq<Node<P, ValueSpec>>): seq<Node<P, ValueSpec>> {
    Map((n: Node<P, ValueSpec>) => Node(f(n.cells), Map(v => CanonicalValue(clock, v), n.children)), nodes)
  }

  predicate NodesParse<P>(clock: Clock, period: P -> Option<TimePeriod>, nodes: seq<Node<P, ValueSpec>>) {
    forall i | 0 <= i < |nodes| ::
      && PeriodParses(clock, period(nodes[i].cells))
      && forall j | 0 <= j < |nodes[i].children| :: PeriodParses(clock, nodes[i].children[j].validFor)
  }

  lemma NodesRoundTrip<P, R>(clock: Clock, into: P -> R, out: R -> P, canonical: P -> P,
                             period: P -> Option<TimePeriod>, nodes: seq<Node<P, ValueSpec>>)
    requires NodesParse(clock, period, nodes)
    requires forall c :: PeriodParses(clock, period(c)) ==> out(into(c)) == canonical(c)
    ensures NodesOut(out, NodesIn(clock, into, nodes)) == CanonicalNodes(clock, canonical, nodes)
  {
    forall i | 0 <= i < |nodes|
      ensures NodesOut(out, NodesIn(clock, into, nodes))[i] == CanonicalNodes(clock, canonical, nodes)[i]
    {
    }
  }

  // ---- Surrogate keys -----------------------------------------------------------------------------

  // The text key of an element: owner tag, owner id, list tag and ordinal.
  function SurrogateKey(tag: char, id: string, list: char, i: nat): string {
    [tag] + ":" + id + ":" + [list] + ToString(i)
  }

  lemma SurrogateKeyInjective(tag: char, id: string, list: char, i: nat, tag': char, id': string, list': char, i': nat)
    requires AllDigits(id) && AllDigits(id')
    ensures SurrogateKey(tag, id, list, i) == SurrogateKey(tag', id', list', i') <==>
            tag == tag' && id == id' && list == list' && i == i'
  {
    var a, b := SurrogateKey(tag, id, list, i), SurrogateKey(tag', id', list', i');
    if a == b {
      IdEnds(tag, id, list, i);
      IdEnds(tag', id', list', i');
      assert |id| == |id'|;
      assert a[2..2 + |id|] == id && b[2..2 + |id|] == id';
      assert a[4 + |id|..] == ToString(i) && b[4 + |id|..] == ToString(i');
    }
  }

  lemma IdEnds(tag: char, id: string, list: char, i: nat)
    requires AllDigits(id)
    ensures var a := SurrogateKey(tag, id, list, i);
            && |a| > 3 + |id| && a[0] == tag && a[2 + |id|] == ':' && a[3 + |id|] == list
            && forall k | 2 <= k < 2 + |id| :: a[k] != ':'
  {
    var a := SurrogateKey(tag, id, list, i);
    assert forall k | 2 <= k < 2 + |id| :: a[k] == id[k - 2];
  }

  // ---- Tables of one entity kind ------------------------------------------------------------------

  // Every row belongs to a stored entity, and an entity's rows are told apart by their ordinals.
  ghost predicate Sound<T(!new)>(table: Table<string, T>, ids: set<string>) {
    Ordered(table) && forall r | r in table :: r.owner in ids
  }

  lemma SoundInsert<T(!new)>(table: Table<string, T>, ids: set<string>, id: string, items: seq<T>)
    requires Sound(table, ids) && id !in ids
    ensures Sound(table + Rows(id, items, 0), ids + {id})
    ensures forall other: string ::
              ListOf(table + Rows(id, items, 0), other) == if other == id then items else ListOf(table, other)
  {
    forall other: string
      ensures ListOf(table + Rows(id, items, 0), other) == if other == id then items else ListOf(table, other)
    {
      InsertList(table, id, items, 0, other);
    }
  }
}
