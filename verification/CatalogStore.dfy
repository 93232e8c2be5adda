/**
  The catalog database: the tables of the three entity kinds, and the value-use, value and characteristic tables
  some of them share. Creating an entity writes it in one transaction; reading runs a fixed number of queries.
 */
module CatalogStore {
  import opened Wrappers
  import opened Digits
  import opened CatalogRows
  import opened CatalogTrees
  import opened CatalogModel
  import Offerings = CatalogOffering
  import Prices = CatalogPrice
  import Specs = CatalogSpecification

  datatype Owner = OfferingOwner(id: string) | PriceOwner(id: string)

  // Which of its two parent columns a value row fills, and with which surrogate key.
  datatype ValueKey = OfUse(key: string) | OfCharacteristic(key: string)

  datatype Sequences = Sequences(offering: nat, price: nat, spec: nat)

  datatype Db = Db(offerings: Offerings.Tables, prices: Prices.Tables, specs: Specs.Tables,
                   uses: Table<Owner, Keyed<ValueKey, UseRow>>,
                   characteristics: Table<string, Keyed<ValueKey, CharacteristicRow>>,
                   values: Table<ValueKey, ValueRow>, next: Sequences)

  // Every malformed date, missing name, dangling reference and repeated reference is one client error (400).
  datatype Error = InvalidRequest

  // Where the stores are told to be, and how date-times are read.
  datatype Setting = Setting(clock: Clock, offeringUrl: string, priceUrl: string, specUrl: string)

  function UseKey(owner: Owner): nat -> ValueKey {
    (i: nat) => OfUse(SurrogateKey(if owner.OfferingOwner? then 'o' else 'p', owner.id, 'u', i))
  }

  function CharacteristicKey(id: string): nat -> ValueKey {
    (i: nat) => OfCharacteristic(SurrogateKey('s', id, 'c', i))
  }

  // ---- Creating -----------------------------------------------------------------------------------

  function WithUses(clock: Clock, db: Db, owner: Owner, uses: Uses): Db {
    var nodes := NodesIn(clock, u => UseIn(clock, u), uses);
    db.(uses := db.uses + Rows(owner, Parents(UseKey(owner), nodes), 0),
        values := WithChildren(db.values, UseKey(owner), nodes, |nodes|))
  }

  function WithCharacteristics(clock: Clock, db: Db, id: string, cs: Characteristics): Db {
    var nodes := NodesIn(clock, c => CharacteristicIn(clock, c), cs);
    db.(characteristics := db.characteristics + Rows(id, Parents(CharacteristicKey(id), nodes), 0),
        values := WithChildren(db.values, CharacteristicKey(id), nodes, |nodes|))
  }

  predicate SpecStored(db: Db, r: Option<Single>) { r.Some? ==> r.value.id in db.specs.headers }

  predicate UsesStored(db: Db, uses: Uses) {
    forall i | 0 <= i < |uses| :: SpecStored(db, uses[i].cells.specification)
  }

  predicate Distinct(ids: seq<string>) { forall i, j | 0 <= i < j < |ids| :: ids[i] != ids[j] }

  function BasicIds(refs: seq<Basic>): seq<string> { Map((r: Basic) => r.id, refs) }

  function RefIds(refs: seq<Ref>): seq<string> { Map((r: Ref) => r.id, refs) }

  predicate Named(o: Offerings.Offering) { o.header.name.Some? && o.header.name.value != "" }

  /** What the catalog accepts: readable dates, references that exist, and no reference twice in these lists. */
  predicate OfferingAccepted(clock: Clock, db: Db, o: Offerings.Offering) {
    && Offerings.DatesParse(clock, o)
    && SpecStored(db, o.header.specification) && UsesStored(db, o.uses)
    && (forall i | 0 <= i < |o.lists.prices| :: o.lists.prices[i].id in db.prices.headers)
    && Distinct(BasicIds(o.lists.prices)) && Distinct(RefIds(o.lists.categories))
    && Distinct(BasicIds(o.lists.channels)) && Distinct(BasicIds(o.lists.segments))
  }

  predicate PriceAccepted(clock: Clock, db: Db, p: Prices.Price) {
    Prices.DatesParse(clock, p) && UsesStored(db, p.uses)
  }

  // The entity as posted, with the identity the server assigns.
  function IdentifiedOffering(s: Setting, id: string, o: Offerings.Offering): Offerings.Offering {
    o.(header := o.header.(id := Some(id), href := Some(s.offeringUrl + "/" + id)))
  }

  function IdentifiedPrice(s: Setting, id: string, p: Prices.Price): Prices.Price {
    p.(header := p.header.(id := Some(id), href := Some(s.priceUrl + "/" + id)))
  }

  function IdentifiedSpec(s: Setting, id: string, x: Specs.Specification): Specs.Specification {
    x.(header := x.header.(id := Some(id), href := Some(s.specUrl + "/" + id)))
  }

  function StoredOffering(s: Setting, db: Db, id: string, posted: Offerings.Offering): Db {
    var o := IdentifiedOffering(s, id, posted);
    var tables := Offerings.WithLists(s.clock, Offerings.WithHeader(s.clock, db.offerings, id, o.header), id, o.lists);
    WithUses(s.clock, db.(offerings := tables), OfferingOwner(id), o.uses)
  }

  function StoredPrice(s: Setting, db: Db, id: string, posted: Prices.Price): Db {
    var p := IdentifiedPrice(s, id, posted);
    var tables := Prices.WithLists(Prices.WithHeader(s.clock, db.prices, id, p.header), id, p.lists);
    WithUses(s.clock, db.(prices := tables), PriceOwner(id), p.uses)
  }

  function StoredSpec(s: Setting, db: Db, id: string, posted: Specs.Specification): Db {
    var x := IdentifiedSpec(s, id, posted);
    var tables := Specs.WithLists(s.clock, Specs.WithHeader(s.clock, db.specs, id, x.header), id, x.lists);
    WithCharacteristics(s.clock, db.(specs := tables), id, x.characteristics)
  }

  // An id is drawn before the rows are written, and a failed transaction does not give it back.
  function CreateOffering(s: Setting, db: Db, o: Offerings.Offering): (Db, Result<string, Error>) {
    if !Named(o) then (db, Err(InvalidRequest))
    else
      var id := ToString(db.next.offering);
      var drawn := db.(next := db.next.(offering := db.next.offering + 1));
      if OfferingAccepted(s.clock, drawn, o) then (StoredOffering(s, drawn, id, o), Ok(id))
      else (drawn, Err(InvalidRequest))
  }

  function CreatePrice(s: Setting, db: Db, p: Prices.Price): (Db, Result<string, Error>) {
    var id := ToString(db.next.price);
    var drawn := db.(next := db.next.(price := db.next.price + 1));
    if PriceAccepted(s.clock, drawn, p) then (StoredPrice(s, drawn, id, p), Ok(id))
    else (drawn, Err(InvalidRequest))
  }

  function CreateSpec(s: Setting, db: Db, x: Specs.Specification): (Db, Result<string, Error>) {
    var id := ToString(db.next.spec);
    var drawn := db.(next := db.next.(spec := db.next.spec + 1));
    if Specs.DatesParse(s.clock, x) then (StoredSpec(s, drawn, id, x), Ok(id)) else (drawn, Err(InvalidRequest))
  }

  // ---- Reading ------------------------------------------------------------------------------------

  function UsesOut(nodes: seq<Node<UseRow, ValueRow>>): Uses { NodesOut(r => UseOut(r), nodes) }

  function CharacteristicsOut(nodes: seq<Node<CharacteristicRow, ValueRow>>): Characteristics {
    NodesOut(r => CharacteristicOut(r), nodes)
  }

  function LoadUses(db: Db, owner: Owner): Uses { UsesOut(TreeOf(db.uses, db.values, owner)) }

  function LoadCharacteristics(db: Db, id: string): Characteristics {
    CharacteristicsOut(TreeOf(db.characteristics, db.values, id))
  }

  /** The offering with an id, put together from its rows. */
  function LoadOffering(db: Db, id: string): Option<Offerings.Offering> {
    if id !in db.offerings.headers then None
    else Some(Offerings.Offering(Offerings.HeaderOut(db.offerings.headers[id]),
                                 Offerings.LoadLists(db.offerings, id), LoadUses(db, OfferingOwner(id))))
  }

  function LoadPrice(db: Db, id: string): Option<Prices.Price> {
    if id !in db.prices.headers then None
    else Some(Prices.Price(Prices.HeaderOut(db.prices.headers[id]),
                           Prices.LoadLists(db.prices, id), LoadUses(db, PriceOwner(id))))
  }

  function LoadSpec(db: Db, id: string): Option<Specs.Specification> {
    if id !in db.specs.headers then None
    else Some(Specs.Specification(Specs.HeaderOut(db.specs.headers[id]),
                                  Specs.LoadLists(db.specs, id), LoadCharacteristics(db, id)))
  }

  // ---- The invariant ------------------------------------------------------------------------------

  predicate Issued(id: string, next: nat) { AllDigits(id) && id != "" && Value(id) < next && id == ToString(Value(id)) }

  predicate OwnerStored(db: Db, owner: Owner) {
    if owner.OfferingOwner? then owner.id in db.offerings.headers else owner.id in db.prices.headers
  }

  // The surrogate keys say whose rows they are, so nobody else's values can end up under them.
  ghost predicate UsesSound(db: Db) {
    && Ordered(db.uses)
    && forall r | r in db.uses :: OwnerStored(db, r.owner) && r.cells.key == UseKey(r.owner)(r.ordinal)
  }

  ghost predicate CharacteristicsSound(db: Db) {
    && Ordered(db.characteristics)
    && forall r | r in db.characteristics ::
         r.owner in db.specs.headers && r.cells.key == CharacteristicKey(r.owner)(r.ordinal)
  }

  ghost predicate KeyOfUse(db: Db, key: ValueKey) {
    exists owner: Owner, i: nat :: OwnerStored(db, owner) && key == UseKey(owner)(i)
  }

  ghost predicate KeyOfCharacteristic(db: Db, key: ValueKey) {
    exists id: string, i: nat :: id in db.specs.headers && key == CharacteristicKey(id)(i)
  }

  ghost predicate ValuesSound(db: Db) {
    Ordered(db.values) && forall r | r in db.values :: KeyOfUse(db, r.owner) || KeyOfCharacteristic(db, r.owner)
  }

  predicate IdsIssued(db: Db) {
    && (forall id | id in db.offerings.headers :: Issued(id, db.next.offering))
    && (forall id | id in db.prices.headers :: Issued(id, db.next.price))
    && (forall id | id in db.specs.headers :: Issued(id, db.next.spec))
  }

  ghost predicate HeadersSound(db: Db) {
    Offerings.TablesSound(db.offerings) && Prices.TablesSound(db.prices) && Specs.TablesSound(db.specs)
  }

  ghost predicate ChildrenSound(db: Db) { UsesSound(db) && CharacteristicsSound(db) && ValuesSound(db) }

  ghost predicate Inv(db: Db) { HeadersSound(db) && IdsIssued(db) && ChildrenSound(db) }

  // ---- Surrogate keys keep entities apart ---------------------------------------------------------

  lemma UseKeyInjective(a: Owner, i: nat, b: Owner, j: nat)
    requires AllDigits(a.id) && AllDigits(b.id)
    ensures UseKey(a)(i) == UseKey(b)(j) <==> a == b && i == j
  {
    SurrogateKeyInjective(if a.OfferingOwner? then 'o' else 'p', a.id, 'u', i,
                          if b.OfferingOwner? then 'o' else 'p', b.id, 'u', j);
  }

  lemma CharacteristicKeyInjective(a: string, i: nat, b: string, j: nat)
    requires AllDigits(a) && AllDigits(b)
    ensures CharacteristicKey(a)(i) == CharacteristicKey(b)(j) <==> a == b && i == j
  {
    SurrogateKeyInjective('s', a, 'c', i, 's', b, 'c', j);
  }

  predicate DigitIds(db: Db) {
    && (forall id | id in db.offerings.headers :: AllDigits(id))
    && (forall id | id in db.prices.headers :: AllDigits(id))
    && (forall id | id in db.specs.headers :: AllDigits(id))
  }

  // An owner that is not stored yet has no rows, and its keys are in no one else's use.
  ghost predicate Unused(db: Db, owner: Owner) {
    && (forall r | r in db.uses :: r.owner != owner)
    && (forall i: nat, r | r in db.values :: r.owner != UseKey(owner)(i))
    && (forall i: nat, j: nat | i != j :: UseKey(owner)(i) != UseKey(owner)(j))
    && (forall i: nat, r | r in db.uses :: r.cells.key != UseKey(owner)(i))
  }

  lemma NewOwnerUnused(db: Db, owner: Owner)
    requires ChildrenSound(db) && DigitIds(db) && AllDigits(owner.id) && !OwnerStored(db, owner)
    ensures Unused(db, owner)
  {
    forall i: nat, j: nat | i != j ensures UseKey(owner)(i) != UseKey(owner)(j) {
      UseKeyInjective(owner, i, owner, j);
    }
    forall i: nat, r | r in db.uses ensures r.cells.key != UseKey(owner)(i) {
      UseKeyInjective(r.owner, r.ordinal, owner, i);
    }
    forall i: nat, r | r in db.values ensures r.owner != UseKey(owner)(i) {
      if KeyOfUse(db, r.owner) {
        var o: Owner, j: nat :| OwnerStored(db, o) && r.owner == UseKey(o)(j);
        UseKeyInjective(o, j, owner, i);
      }
    }
  }

  ghost predicate UnusedId(db: Db, id: string) {
    && (forall r | r in db.characteristics :: r.owner != id)
    && (forall i: nat, r | r in db.values :: r.owner != CharacteristicKey(id)(i))
    && (forall i: nat, j: nat | i != j :: CharacteristicKey(id)(i) != CharacteristicKey(id)(j))
    && (forall i: nat, r | r in db.characteristics :: r.cells.key != CharacteristicKey(id)(i))
  }

  lemma NewIdUnused(db: Db, id: string)
    requires ChildrenSound(db) && DigitIds(db) && AllDigits(id) && id !in db.specs.headers
    ensures UnusedId(db, id)
  {
    forall i: nat, j: nat | i != j ensures CharacteristicKey(id)(i) != CharacteristicKey(id)(j) {
      CharacteristicKeyInjective(id, i, id, j);
    }
    forall i: nat, r | r in db.characteristics ensures r.cells.key != CharacteristicKey(id)(i) {
      CharacteristicKeyInjective(r.owner, r.ordinal, id, i);
    }
    forall i: nat, r | r in db.values ensures r.owner != CharacteristicKey(id)(i) {
      if KeyOfCharacteristic(db, r.owner) {
        var o: string, j: nat :| o in db.specs.headers && r.owner == CharacteristicKey(o)(j);
        CharacteristicKeyInjective(o, j, id, i);
      }
    }
  }

  // ---- Inserting the two-level lists --------------------------------------------------------------

  lemma UsesRoundTrip(clock: Clock, uses: Uses)
    requires NodesParse(clock, (u: Use) => u.validFor, uses)
    ensures UsesOut(NodesIn(clock, u => UseIn(clock, u), uses))
            == CanonicalNodes(clock, u => CanonicalUse(clock, u), uses)
  {
    NodesRoundTrip(clock, u => UseIn(clock, u), r => UseOut(r), u => CanonicalUse(clock, u), (u: Use) => u.validFor, uses);
  }

  lemma CharacteristicsRoundTrip(clock: Clock, cs: Characteristics)
    requires NodesParse(clock, (c: Characteristic) => c.validFor, cs)
    ensures CharacteristicsOut(NodesIn(clock, c => CharacteristicIn(clock, c), cs))
            == CanonicalNodes(clock, c => CanonicalCharacteristic(clock, c), cs)
  {
    NodesRoundTrip(clock, c => CharacteristicIn(clock, c), r => CharacteristicOut(r),
                   c => CanonicalCharacteristic(clock, c), (c: Characteristic) => c.validFor, cs);
  }

  // What inserting the value-uses of one owner does to every owner's.
  lemma UsesInserted(clock: Clock, db: Db, owner: Owner, uses: Uses, other: Owner)
    requires Unused(db, owner) && NodesParse(clock, (u: Use) => u.validFor, uses)
    ensures LoadUses(WithUses(clock, db, owner, uses), other)
            == if other == owner then CanonicalNodes(clock, u => CanonicalUse(clock, u), uses) else LoadUses(db, other)
  {
    var nodes := NodesIn(clock, u => UseIn(clock, u), uses);
    InsertTree(db.uses, db.values, owner, UseKey(owner), nodes, other);
    UsesRoundTrip(clock, uses);
  }

  lemma UsesLeaveCharacteristics(clock: Clock, db: Db, owner: Owner, uses: Uses, id: string)
    requires Unused(db, owner) && CharacteristicsSound(db)
    ensures LoadCharacteristics(WithUses(clock, db, owner, uses), id) == LoadCharacteristics(db, id)
  {
    TreeUntouched(db.characteristics, db.values, UseKey(owner), NodesIn(clock, u => UseIn(clock, u), uses), id);
  }

  lemma UsesSoundAfter(clock: Clock, db: Db, owner: Owner, uses: Uses)
    requires ChildrenSound(db) && Unused(db, owner) && OwnerStored(db, owner)
    ensures ChildrenSound(WithUses(clock, db, owner, uses))
  {
    var nodes := NodesIn(clock, u => UseIn(clock, u), uses);
    var t := WithUses(clock, db, owner, uses);
    ChildrenOrdered(db.values, UseKey(owner), nodes, |nodes|);
    ChildOwners(db.values, UseKey(owner), nodes, |nodes|);
    forall r | r in t.values ensures KeyOfUse(t, r.owner) || KeyOfCharacteristic(t, r.owner) {
    }
  }

  lemma CharacteristicsInserted(clock: Clock, db: Db, id: string, cs: Characteristics, other: string)
    requires UnusedId(db, id) && NodesParse(clock, (c: Characteristic) => c.validFor, cs)
    ensures LoadCharacteristics(WithCharacteristics(clock, db, id, cs), other)
            == if other == id then CanonicalNodes(clock, c => CanonicalCharacteristic(clock, c), cs)
               else LoadCharacteristics(db, other)
  {
    var nodes := NodesIn(clock, c => CharacteristicIn(clock, c), cs);
    InsertTree(db.characteristics, db.values, id, CharacteristicKey(id), nodes, other);
    CharacteristicsRoundTrip(clock, cs);
  }

  lemma CharacteristicsLeaveUses(clock: Clock, db: Db, id: string, cs: Characteristics, owner: Owner)
    requires UnusedId(db, id) && UsesSound(db)
    ensures LoadUses(WithCharacteristics(clock, db, id, cs), owner) == LoadUses(db, owner)
  {
    TreeUntouched(db.uses, db.values, CharacteristicKey(id), NodesIn(clock, c => CharacteristicIn(clock, c), cs), owner);
  }

  lemma CharacteristicsSoundAfter(clock: Clock, db: Db, id: string, cs: Characteristics)
    requires ChildrenSound(db) && UnusedId(db, id) && id in db.specs.headers
    ensures ChildrenSound(WithCharacteristics(clock, db, id, cs))
  {
    var nodes := NodesIn(clock, c => CharacteristicIn(clock, c), cs);
    var t := WithCharacteristics(clock, db, id, cs);
    ChildrenOrdered(db.values, CharacteristicKey(id), nodes, |nodes|);
    ChildOwners(db.values, CharacteristicKey(id), nodes, |nodes|);
    forall r | r in t.values ensures KeyOfUse(t, r.owner) || KeyOfCharacteristic(t, r.owner) {
    }
  }
}
