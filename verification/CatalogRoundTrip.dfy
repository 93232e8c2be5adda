/** Whatever the catalog accepts comes back in canonical form, and nothing else in the catalog changes. */
module CatalogRoundTrip {
  import opened Wrappers
  import opened Digits
  import opened CatalogRows
  import opened CatalogTrees
  import opened CatalogModel
  import opened CatalogStore
  import Offerings = CatalogOffering
  import Prices = CatalogPrice
  import Specs = CatalogSpecification

  // ---- Offerings ----------------------------------------------------------------------------------

  // The database once the header and the flat lists are written.
  function OfferingHeaded(s: Setting, db: Db, id: string, o: Offerings.Offering): Db {
    db.(offerings := Offerings.WithLists(s.clock, Offerings.WithHeader(s.clock, db.offerings, id, o.header), id, o.lists))
  }

  lemma OfferingHeadedSound(s: Setting, db: Db, id: string, o: Offerings.Offering)
    requires HeadersSound(db) && ChildrenSound(db) && id !in db.offerings.headers
    ensures HeadersSound(OfferingHeaded(s, db, id, o)) && ChildrenSound(OfferingHeaded(s, db, id, o))
    ensures OfferingHeaded(s, db, id, o).offerings.headers == db.offerings.headers[id := Offerings.HeaderIn(s.clock, id, o.header)]
  {
    Offerings.SoundLists(s.clock, db.offerings, id, o.header, o.lists);
  }

  lemma OfferingHeadedLists(s: Setting, db: Db, id: string, o: Offerings.Offering, other: string)
    requires HeadersSound(db) && id !in db.offerings.headers && Offerings.DatesParse(s.clock, o)
    ensures Offerings.LoadLists(OfferingHeaded(s, db, id, o).offerings, other)
            == if other == id then Offerings.CanonicalLists(s.clock, o.lists) else Offerings.LoadLists(db.offerings, other)
  {
    Offerings.ListsRoundTrip(s.clock, db.offerings, id, o.lists, other);
  }

  lemma OfferingHeaderLoads(s: Setting, db: Db, id: string, o: Offerings.Offering, other: string)
    requires HeadersSound(db) && ChildrenSound(db) && id !in db.offerings.headers && Offerings.DatesParse(s.clock, o)
    ensures var t := OfferingHeaded(s, db, id, o).offerings;
            && (other in t.headers <==> other in db.offerings.headers || other == id)
            && (other in db.offerings.headers ==> t.headers[other] == db.offerings.headers[other])
            && Offerings.HeaderOut(t.headers[id]) == Offerings.CanonicalHeader(s.clock, o.header.(id := Some(id)))
  {
    OfferingHeadedSound(s, db, id, o);
    Offerings.HeaderRoundTrip(s.clock, id, o.header);
  }

  lemma OfferingLoads(s: Setting, db: Db, id: string, o: Offerings.Offering, other: string)
    requires HeadersSound(db) && ChildrenSound(db) && DigitIds(db) && AllDigits(id) && id !in db.offerings.headers
    requires Offerings.DatesParse(s.clock, o)
    ensures var t := WithUses(s.clock, OfferingHeaded(s, db, id, o), OfferingOwner(id), o.uses);
            LoadOffering(t, other)
            == if other == id then Some(Offerings.CanonicalOffering(s.clock, o.(header := o.header.(id := Some(id)))))
               else LoadOffering(db, other)
  {
    var owner := OfferingOwner(id);
    OfferingHeaderLoads(s, db, id, o, other);
    OfferingHeadedLists(s, db, id, o, other);
    NewOwnerUnused(db, owner);
    UsesInserted(s.clock, OfferingHeaded(s, db, id, o), owner, o.uses, OfferingOwner(other));
  }

  lemma OfferingLeavesPrices(s: Setting, db: Db, id: string, o: Offerings.Offering, other: string)
    requires ChildrenSound(db) && DigitIds(db) && AllDigits(id) && id !in db.offerings.headers
    requires Offerings.DatesParse(s.clock, o)
    ensures var t := WithUses(s.clock, OfferingHeaded(s, db, id, o), OfferingOwner(id), o.uses);
            LoadPrice(t, other) == LoadPrice(db, other)
  {
    NewOwnerUnused(db, OfferingOwner(id));
    UsesInserted(s.clock, OfferingHeaded(s, db, id, o), OfferingOwner(id), o.uses, PriceOwner(other));
  }

  lemma OfferingLeavesSpecs(s: Setting, db: Db, id: string, o: Offerings.Offering, other: string)
    requires HeadersSound(db) && ChildrenSound(db) && DigitIds(db) && AllDigits(id) && id !in db.offerings.headers
    ensures var t := WithUses(s.clock, OfferingHeaded(s, db, id, o), OfferingOwner(id), o.uses);
            LoadSpec(t, other) == LoadSpec(db, other)
  {
    NewOwnerUnused(db, OfferingOwner(id));
    OfferingHeadedSound(s, db, id, o);
    UsesLeaveCharacteristics(s.clock, OfferingHeaded(s, db, id, o), OfferingOwner(id), o.uses, other);
  }

  /** A database differs from another by one offering. */
  ghost predicate OneMoreOffering(before: Db, after: Db, id: string, o: Offerings.Offering) {
    && LoadOffering(before, id) == None && LoadOffering(after, id) == Some(o)
    && (forall other: string | other != id :: LoadOffering(after, other) == LoadOffering(before, other))
    && (forall other: string :: LoadPrice(after, other) == LoadPrice(before, other))
    && (forall other: string :: LoadSpec(after, other) == LoadSpec(before, other))
  }

  ghost predicate SameEntities(before: Db, after: Db) {
    && (forall other: string :: LoadOffering(after, other) == LoadOffering(before, other))
    && (forall other: string :: LoadPrice(after, other) == LoadPrice(before, other))
    && (forall other: string :: LoadSpec(after, other) == LoadSpec(before, other))
  }

  lemma OfferingStoredSound(s: Setting, db: Db, id: string, o: Offerings.Offering)
    requires HeadersSound(db) && ChildrenSound(db) && DigitIds(db) && IdsIssued(db)
    requires id !in db.offerings.headers && Issued(id, db.next.offering)
    ensures Inv(WithUses(s.clock, OfferingHeaded(s, db, id, o), OfferingOwner(id), o.uses))
  {
    OfferingHeadedSound(s, db, id, o);
    NewOwnerUnused(db, OfferingOwner(id));
    UsesSoundAfter(s.clock, OfferingHeaded(s, db, id, o), OfferingOwner(id), o.uses);
  }

  lemma OfferingStoredOnce(s: Setting, db: Db, id: string, o: Offerings.Offering)
    requires HeadersSound(db) && ChildrenSound(db) && DigitIds(db) && AllDigits(id) && id !in db.offerings.headers
    requires Offerings.DatesParse(s.clock, o) && o.header.id == Some(id)
    ensures OneMoreOffering(db, WithUses(s.clock, OfferingHeaded(s, db, id, o), OfferingOwner(id), o.uses), id,
                            Offerings.CanonicalOffering(s.clock, o))
  {
    var t := WithUses(s.clock, OfferingHeaded(s, db, id, o), OfferingOwner(id), o.uses);
    assert o == o.(header := o.header.(id := Some(id)));
    forall other: string
      ensures LoadOffering(t, other)
              == if other == id then Some(Offerings.CanonicalOffering(s.clock, o)) else LoadOffering(db, other)
    {
      OfferingLoads(s, db, id, o, other);
    }
    forall other: string ensures LoadPrice(t, other) == LoadPrice(db, other) {
      OfferingLeavesPrices(s, db, id, o, other);
    }
    forall other: string ensures LoadSpec(t, other) == LoadSpec(db, other) {
      OfferingLeavesSpecs(s, db, id, o, other);
    }
  }

  // The sequences belong to no entity.
  lemma OnlyNext(db: Db, next: Sequences)
    requires HeadersSound(db) && ChildrenSound(db)
    ensures HeadersSound(db.(next := next)) && ChildrenSound(db.(next := next)) && SameEntities(db, db.(next := next))
  {
  }

  lemma DrawnOffering(db: Db)
    requires Inv(db)
    ensures var id, drawn := ToString(db.next.offering), db.(next := db.next.(offering := db.next.offering + 1));
            && HeadersSound(drawn) && ChildrenSound(drawn) && IdsIssued(drawn) && DigitIds(drawn)
            && id !in drawn.offerings.headers && Issued(id, drawn.next.offering) && SameEntities(db, drawn)
  {
    OnlyNext(db, db.next.(offering := db.next.offering + 1));
  }

  lemma StillOneMoreOffering(a: Db, b: Db, c: Db, id: string, o: Offerings.Offering)
    requires SameEntities(a, b) && OneMoreOffering(b, c, id, o)
    ensures OneMoreOffering(a, c, id, o)
  {
  }

  /**
    An accepted offering comes back with its id and href, dates canonical and empty objects gone, all lists in
    posted order; a refused one leaves every entity as it was.
   */
  lemma OfferingRoundTrip(s: Setting, db: Db, o: Offerings.Offering)
    requires Inv(db)
    ensures var (after, result) := CreateOffering(s, db, o);
            && Inv(after)
            && (result.Ok? <==> Named(o) && OfferingAccepted(s.clock, db, o))
            && (result.Ok? ==> OneMoreOffering(db, after, result.value,
                                 Offerings.CanonicalOffering(s.clock, IdentifiedOffering(s, result.value, o))))
            && (result.Err? ==> SameEntities(db, after))
  {
    var id, drawn := ToString(db.next.offering), db.(next := db.next.(offering := db.next.offering + 1));
    DrawnOffering(db);
    assert OfferingAccepted(s.clock, drawn, o) == OfferingAccepted(s.clock, db, o);
    if Named(o) && OfferingAccepted(s.clock, drawn, o) {
      var posted := IdentifiedOffering(s, id, o);
      OfferingStoredSound(s, drawn, id, posted);
      OfferingStoredOnce(s, drawn, id, posted);
      StillOneMoreOffering(db, drawn, StoredOffering(s, drawn, id, o), id, Offerings.CanonicalOffering(s.clock, posted));
    }
  }

  // ---- Prices -------------------------------------------------------------------------------------

  function PriceHeaded(s: Setting, db: Db, id: string, p: Prices.Price): Db {
    db.(prices := Prices.WithLists(Prices.WithHeader(s.clock, db.prices, id, p.header), id, p.lists))
  }

  lemma PriceHeadedSound(s: Setting, db: Db, id: string, p: Prices.Price)
    requires HeadersSound(db) && ChildrenSound(db) && id !in db.prices.headers
    ensures HeadersSound(PriceHeaded(s, db, id, p)) && ChildrenSound(PriceHeaded(s, db, id, p))
    ensures PriceHeaded(s, db, id, p).prices.headers == db.prices.headers[id := Prices.HeaderIn(s.clock, id, p.header)]
  {
    Prices.SoundLists(s.clock, db.prices, id, p.header, p.lists);
  }

  lemma PriceLoads(s: Setting, db: Db, id: string, p: Prices.Price, other: string)
    requires HeadersSound(db) && ChildrenSound(db) && DigitIds(db) && AllDigits(id) && id !in db.prices.headers
    requires Prices.DatesParse(s.clock, p)
    ensures var t := WithUses(s.clock, PriceHeaded(s, db, id, p), PriceOwner(id), p.uses);
            LoadPrice(t, other)
            == if other == id then Some(Prices.CanonicalPrice(s.clock, p.(header := p.header.(id := Some(id)))))
               else LoadPrice(db, other)
  {
    PriceHeadedSound(s, db, id, p);
    Prices.ListsRoundTrip(db.prices, id, p.lists, other);
    NewOwnerUnused(db, PriceOwner(id));
    UsesInserted(s.clock, PriceHeaded(s, db, id, p), PriceOwner(id), p.uses, PriceOwner(other));
    if other == id {
      Prices.HeaderRoundTrip(s.clock, id, p.header);
    }
  }

  lemma PriceLeavesOfferings(s: Setting, db: Db, id: string, p: Prices.Price, other: string)
    requires ChildrenSound(db) && DigitIds(db) && AllDigits(id) && id !in db.prices.headers
    requires Prices.DatesParse(s.clock, p)
    ensures var t := WithUses(s.clock, PriceHeaded(s, db, id, p), PriceOwner(id), p.uses);
            LoadOffering(t, other) == LoadOffering(db, other)
  {
    NewOwnerUnused(db, PriceOwner(id));
    UsesInserted(s.clock, PriceHeaded(s, db, id, p), PriceOwner(id), p.uses, OfferingOwner(other));
  }

  lemma PriceLeavesSpecs(s: Setting, db: Db, id: string, p: Prices.Price, other: string)
    requires HeadersSound(db) && ChildrenSound(db) && DigitIds(db) && AllDigits(id) && id !in db.prices.headers
    ensures var t := WithUses(s.clock, PriceHeaded(s, db, id, p), PriceOwner(id), p.uses);
            LoadSpec(t, other) == LoadSpec(db, other)
  {
    NewOwnerUnused(db, PriceOwner(id));
    PriceHeadedSound(s, db, id, p);
    UsesLeaveCharacteristics(s.clock, PriceHeaded(s, db, id, p), PriceOwner(id), p.uses, other);
  }

  ghost predicate OneMorePrice(before: Db, after: Db, id: string, p: Prices.Price) {
    && LoadPrice(before, id) == None && LoadPrice(after, id) == Some(p)
    && (forall other: string | other != id :: LoadPrice(after, other) == LoadPrice(before, other))
    && (forall other: string :: LoadOffering(after, other) == LoadOffering(before, other))
    && (forall other: string :: LoadSpec(after, other) == LoadSpec(before, other))
  }

  lemma PriceStoredSound(s: Setting, db: Db, id: string, p: Prices.Price)
    requires HeadersSound(db) && ChildrenSound(db) && DigitIds(db) && IdsIssued(db)
    requires id !in db.prices.headers && Issued(id, db.next.price)
    ensures Inv(WithUses(s.clock, PriceHeaded(s, db, id, p), PriceOwner(id), p.uses))
  {
    PriceHeadedSound(s, db, id, p);
    NewOwnerUnused(db, PriceOwner(id));
    UsesSoundAfter(s.clock, PriceHeaded(s, db, id, p), PriceOwner(id), p.uses);
  }

  lemma PriceStoredOnce(s: Setting, db: Db, id: string, p: Prices.Price)
    requires HeadersSound(db) && ChildrenSound(db) && DigitIds(db) && AllDigits(id) && id !in db.prices.headers
    requires Prices.DatesParse(s.clock, p) && p.header.id == Some(id)
    ensures OneMorePrice(db, WithUses(s.clock, PriceHeaded(s, db, id, p), PriceOwner(id), p.uses), id,
                         Prices.CanonicalPrice(s.clock, p))
  {
    var t := WithUses(s.clock, PriceHeaded(s, db, id, p), PriceOwner(id), p.uses);
    assert p == p.(header := p.header.(id := Some(id)));
    forall other: string
      ensures LoadPrice(t, other)
              == if other == id then Some(Prices.CanonicalPrice(s.clock, p)) else LoadPrice(db, other)
    {
      PriceLoads(s, db, id, p, other);
    }
    forall other: string ensures LoadOffering(t, other) == LoadOffering(db, other) {
      PriceLeavesOfferings(s, db, id, p, other);
    }
    forall other: string ensures LoadSpec(t, other) == LoadSpec(db, other) {
      PriceLeavesSpecs(s, db, id, p, other);
    }
  }

  lemma DrawnPrice(db: Db)
    requires Inv(db)
    ensures var id, drawn := ToString(db.next.price), db.(next := db.next.(price := db.next.price + 1));
            && HeadersSound(drawn) && ChildrenSound(drawn) && IdsIssued(drawn) && DigitIds(drawn)
            && id !in drawn.prices.headers && Issued(id, drawn.next.price) && SameEntities(db, drawn)
  {
    OnlyNext(db, db.next.(price := db.next.price + 1));
  }

  /** The same for a price: both its relationship lists, its taxes and its value-uses come back in posted order. */
  lemma PriceRoundTrip(s: Setting, db: Db, p: Prices.Price)
    requires Inv(db)
    ensures var (after, result) := CreatePrice(s, db, p);
            && Inv(after)
            && (result.Ok? <==> PriceAccepted(s.clock, db, p))
            && (result.Ok? ==> OneMorePrice(db, after, result.value,
                                 Prices.CanonicalPrice(s.clock, IdentifiedPrice(s, result.value, p))))
            && (result.Err? ==> SameEntities(db, after))
  {
    var id, drawn := ToString(db.next.price), db.(next := db.next.(price := db.next.price + 1));
    DrawnPrice(db);
    assert PriceAccepted(s.clock, drawn, p) == PriceAccepted(s.clock, db, p);
    if PriceAccepted(s.clock, drawn, p) {
      var posted := IdentifiedPrice(s, id, p);
      PriceStoredSound(s, drawn, id, posted);
      PriceStoredOnce(s, drawn, id, posted);
    }
  }

  // ---- Specifications -----------------------------------------------------------------------------

  function SpecHeaded(s: Setting, db: Db, id: string, x: Specs.Specification): Db {
    db.(specs := Specs.WithLists(s.clock, Specs.WithHeader(s.clock, db.specs, id, x.header), id, x.lists))
  }

  lemma SpecHeadedSound(s: Setting, db: Db, id: string, x: Specs.Specification)
    requires HeadersSound(db) && ChildrenSound(db) && id !in db.specs.headers
    ensures HeadersSound(SpecHeaded(s, db, id, x)) && ChildrenSound(SpecHeaded(s, db, id, x))
    ensures SpecHeaded(s, db, id, x).specs.headers == db.specs.headers[id := Specs.HeaderIn(s.clock, id, x.header)]
  {
  }

  lemma SpecLoads(s: Setting, db: Db, id: string, x: Specs.Specification, other: string)
    requires HeadersSound(db) && ChildrenSound(db) && DigitIds(db) && AllDigits(id) && id !in db.specs.headers
    requires Specs.DatesParse(s.clock, x)
    ensures var t := WithCharacteristics(s.clock, SpecHeaded(s, db, id, x), id, x.characteristics);
            LoadSpec(t, other)
            == if other == id
               then Some(Specs.CanonicalSpecification(s.clock, x.(header := x.header.(id := Some(id)))))
               else LoadSpec(db, other)
  {
    SpecHeadedSound(s, db, id, x);
    Specs.ListsRoundTrip(s.clock, db.specs, id, x.lists, other);
    NewIdUnused(db, id);
    CharacteristicsInserted(s.clock, SpecHeaded(s, db, id, x), id, x.characteristics, other);
    if other == id {
      Specs.HeaderRoundTrip(s.clock, id, x.header);
    }
  }

  lemma SpecLeaves(s: Setting, db: Db, id: string, x: Specs.Specification, other: Owner)
    requires HeadersSound(db) && ChildrenSound(db) && DigitIds(db) && AllDigits(id) && id !in db.specs.headers
    ensures var t := WithCharacteristics(s.clock, SpecHeaded(s, db, id, x), id, x.characteristics);
            LoadUses(t, other) == LoadUses(db, other) && t.offerings == db.offerings && t.prices == db.prices
  {
    NewIdUnused(db, id);
    SpecHeadedSound(s, db, id, x);
    CharacteristicsLeaveUses(s.clock, SpecHeaded(s, db, id, x), id, x.characteristics, other);
  }

  ghost predicate OneMoreSpec(before: Db, after: Db, id: string, x: Specs.Specification) {
    && LoadSpec(before, id) == None && LoadSpec(after, id) == Some(x)
    && (forall other: string | other != id :: LoadSpec(after, other) == LoadSpec(before, other))
    && (forall other: string :: LoadOffering(after, other) == LoadOffering(before, other))
    && (forall other: string :: LoadPrice(after, other) == LoadPrice(before, other))
  }

  lemma SpecStoredSound(s: Setting, db: Db, id: string, x: Specs.Specification)
    requires HeadersSound(db) && ChildrenSound(db) && DigitIds(db) && IdsIssued(db)
    requires id !in db.specs.headers && Issued(id, db.next.spec)
    ensures Inv(WithCharacteristics(s.clock, SpecHeaded(s, db, id, x), id, x.characteristics))
  {
    SpecHeadedSound(s, db, id, x);
    NewIdUnused(db, id);
    CharacteristicsSoundAfter(s.clock, SpecHeaded(s, db, id, x), id, x.characteristics);
  }

  lemma SpecStoredOnce(s: Setting, db: Db, id: string, x: Specs.Specification)
    requires HeadersSound(db) && ChildrenSound(db) && DigitIds(db) && AllDigits(id) && id !in db.specs.headers
    requires Specs.DatesParse(s.clock, x) && x.header.id == Some(id)
    ensures OneMoreSpec(db, WithCharacteristics(s.clock, SpecHeaded(s, db, id, x), id, x.characteristics), id,
                        Specs.CanonicalSpecification(s.clock, x))
  {
    var t := WithCharacteristics(s.clock, SpecHeaded(s, db, id, x), id, x.characteristics);
    assert x == x.(header := x.header.(id := Some(id)));
    forall other: string
      ensures LoadSpec(t, other)
              == if other == id then Some(Specs.CanonicalSpecification(s.clock, x)) else LoadSpec(db, other)
    {
      SpecLoads(s, db, id, x, other);
    }
    forall other: string
      ensures LoadOffering(t, other) == LoadOffering(db, other) && LoadPrice(t, other) == LoadPrice(db, other)
    {
      SpecLeaves(s, db, id, x, OfferingOwner(other));
      SpecLeaves(s, db, id, x, PriceOwner(other));
    }
  }

  lemma DrawnSpec(db: Db)
    requires Inv(db)
    ensures var id, drawn := ToString(db.next.spec), db.(next := db.next.(spec := db.next.spec + 1));
            && HeadersSound(drawn) && ChildrenSound(drawn) && IdsIssued(drawn) && DigitIds(drawn)
            && id !in drawn.specs.headers && Issued(id, drawn.next.spec) && SameEntities(db, drawn)
  {
    OnlyNext(db, db.next.(spec := db.next.spec + 1));
  }

  /** The same for a specification: the two kinds of candidates come back apart, the characteristics with their values. */
  lemma SpecRoundTrip(s: Setting, db: Db, x: Specs.Specification)
    requires Inv(db)
    ensures var (after, result) := CreateSpec(s, db, x);
            && Inv(after)
            && (result.Ok? <==> Specs.DatesParse(s.clock, x))
            && (result.Ok? ==> OneMoreSpec(db, after, result.value,
                                 Specs.CanonicalSpecification(s.clock, IdentifiedSpec(s, result.value, x))))
            && (result.Err? ==> SameEntities(db, after))
  {
    var id, drawn := ToString(db.next.spec), db.(next := db.next.(spec := db.next.spec + 1));
    DrawnSpec(db);
    if Specs.DatesParse(s.clock, x) {
      var posted := IdentifiedSpec(s, id, x);
      SpecStoredSound(s, drawn, id, posted);
      SpecStoredOnce(s, drawn, id, posted);
    }
  }

  // ---- Whole histories ----------------------------------------------------------------------------

  datatype Post = PostOffering(o: Offerings.Offering) | PostPrice(p: Prices.Price) | PostSpec(x: Specs.Specification)

  function Create(s: Setting, db: Db, post: Post): (Db, Result<string, Error>) {
    match post
    case PostOffering(o) => CreateOffering(s, db, o)
    case PostPrice(p) => CreatePrice(s, db, p)
    case PostSpec(x) => CreateSpec(s, db, x)
  }

  function Empty(): Db {
    Db(Offerings.Tables(map[], [], [], [], [], [], [], [], []), Prices.Tables(map[], [], []),
       Specs.Tables(map[], [], [], [], []), [], [], [], Sequences(1, 1, 1))
  }

  function After(s: Setting, db: Db, posts: seq<Post>): Db {
    if posts == [] then db else Create(s, After(s, db, posts[..|posts| - 1]), posts[|posts| - 1]).0
  }

  // The posted entity is stored under the id, in canonical form.
  predicate Retrievable(s: Setting, db: Db, post: Post, id: string) {
    match post
    case PostOffering(o) => LoadOffering(db, id) == Some(Offerings.CanonicalOffering(s.clock, IdentifiedOffering(s, id, o)))
    case PostPrice(p) => LoadPrice(db, id) == Some(Prices.CanonicalPrice(s.clock, IdentifiedPrice(s, id, p)))
    case PostSpec(x) => LoadSpec(db, id) == Some(Specs.CanonicalSpecification(s.clock, IdentifiedSpec(s, id, x)))
  }

  // Everything that can be read stays readable, unchanged.
  ghost predicate Keeps(before: Db, after: Db) {
    && (forall id: string :: LoadOffering(before, id).Some? ==> LoadOffering(after, id) == LoadOffering(before, id))
    && (forall id: string :: LoadPrice(before, id).Some? ==> LoadPrice(after, id) == LoadPrice(before, id))
    && (forall id: string :: LoadSpec(before, id).Some? ==> LoadSpec(after, id) == LoadSpec(before, id))
  }

  lemma CreateKeeps(s: Setting, db: Db, post: Post)
    requires Inv(db)
    ensures var (after, result) := Create(s, db, post);
            Inv(after) && Keeps(db, after) && (result.Ok? ==> Retrievable(s, after, post, result.value))
  {
    match post
    case PostOffering(o) => OfferingKeeps(s, db, o);
    case PostPrice(p) => PriceKeeps(s, db, p);
    case PostSpec(x) => SpecKeeps(s, db, x);
  }

  lemma OfferingKeeps(s: Setting, db: Db, o: Offerings.Offering)
    requires Inv(db)
    ensures var (after, result) := CreateOffering(s, db, o);
            Inv(after) && Keeps(db, after) && (result.Ok? ==> Retrievable(s, after, PostOffering(o), result.value))
  {
    OfferingRoundTrip(s, db, o);
  }

  lemma PriceKeeps(s: Setting, db: Db, p: Prices.Price)
    requires Inv(db)
    ensures var (after, result) := CreatePrice(s, db, p);
            Inv(after) && Keeps(db, after) && (result.Ok? ==> Retrievable(s, after, PostPrice(p), result.value))
  {
    PriceRoundTrip(s, db, p);
  }

  lemma SpecKeeps(s: Setting, db: Db, x: Specs.Specification)
    requires Inv(db)
    ensures var (after, result) := CreateSpec(s, db, x);
            Inv(after) && Keeps(db, after) && (result.Ok? ==> Retrievable(s, after, PostSpec(x), result.value))
  {
    SpecRoundTrip(s, db, x);
  }

  lemma {:induction false} AfterKeeps(s: Setting, posts: seq<Post>, n: nat)
    requires n <= |posts|
    ensures Inv(After(s, Empty(), posts)) && Keeps(After(s, Empty(), posts[..n]), After(s, Empty(), posts))
    decreases |posts|
  {
    if posts == [] {
    } else {
      var front := posts[..|posts| - 1];
      AfterKeeps(s, front, if n < |posts| then n else n - 1);
      CreateKeeps(s, After(s, Empty(), front), posts[|posts| - 1]);
      if n < |posts| {
        assert front[..n] == posts[..n];
      } else {
        assert posts[..n] == posts;
      }
    }
  }

  /** Over any history of posts, whatever was accepted at any point can still be read back at the end. */
  lemma AcceptedIsRetrievable(s: Setting, posts: seq<Post>, n: nat)
    requires n < |posts|
    ensures var (_, result) := Create(s, After(s, Empty(), posts[..n]), posts[n]);
            result.Ok? ==> Retrievable(s, After(s, Empty(), posts), posts[n], result.value)
  {
    AfterKeeps(s, posts[..n], 0);
    CreateKeeps(s, After(s, Empty(), posts[..n]), posts[n]);
    AfterKeeps(s, posts, n + 1);
    assert posts[..n + 1][..n] == posts[..n] && posts[..n + 1][n] == posts[n];
  }
}
