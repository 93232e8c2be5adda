/**
  The catalog stores as they run: inserts in ordinal loops inside one transaction, and reads that query each
  table once and hand every row to its owner, whatever order the database returns equal owners in.
 */
module CatalogDatabase {
  import opened Wrappers
  import opened Digits
  import opened CatalogRows
  import opened CatalogTrees
  import opened CatalogModel
  import opened CatalogStore
  import Offerings = CatalogOffering
  import Prices = CatalogPrice
  import Specs = CatalogSpecification

  // The filter of a query: everything, or one entity.
  predicate Wanted(only: Option<string>, id: string) { only.None? || only.value == id }

  /** Inserts a reference list whose table allows each reference once per owner; stops at the first repeat. */
  method InsertDistinct<T>(table: Table<string, T>, owner: string, items: seq<T>, ref: T -> string)
    returns (ok: bool, after: Table<string, T>)
    ensures ok == Distinct(Map(ref, items))
    ensures ok ==> after == table + Rows(owner, items, 0)
  {
    var seen: set<string> := {};
    after := table;
    for i := 0 to |items|
      invariant after == table + Rows(owner, items, 0)[..i]
      invariant Distinct(Map(ref, items)[..i]) && forall k :: k in seen <==> k in Map(ref, items)[..i]
    {
      assert Map(ref, items)[..i + 1] == Map(ref, items)[..i] + [ref(items[i])];
      if ref(items[i]) in seen {
        var j :| 0 <= j < i && Map(ref, items)[j] == ref(items[i]);
        return false, after;
      }
      seen := seen + {ref(items[i])};
      after := after + [Row(owner, i, items[i])];
    }
    assert Map(ref, items)[..|items|] == Map(ref, items);
    ok := true;
  }

  /** Reads one child table: one query, then every row to its owner. */
  method ReadLists<T(!new)>(table: Table<string, T>, only: Option<string>) returns (lists: map<string, seq<T>>)
    requires Ordered(table)
    ensures forall id: string | Wanted(only, id) :: At(lists, id) == ListOf(table, id)
  {
    var f := (id: string) => Wanted(only, id);
    var answer := Query(table, f);
    lists := Collect(answer);
    forall id: string | Wanted(only, id) ensures At(lists, id) == ListOf(table, id) {
      AnyAnswer(table, f, answer, id);
    }
  }

  // Gives every entity its group, decoded.
  method HandOut<K(==), A, B>(keys: seq<K>, groups: map<K, seq<A>>, decode: seq<A> -> B) returns (out: seq<B>)
    ensures |out| == |keys| && forall i | 0 <= i < |keys| :: out[i] == decode(At(groups, keys[i]))
  {
    out := [];
    for i := 0 to |keys|
      invariant |out| == i && forall j | 0 <= j < i :: out[j] == decode(At(groups, keys[j]))
    {
      out := out + [decode(At(groups, keys[i]))];
    }
  }

  // The order the database sorts text in.
  type Collation = (string, string) -> bool

  ghost predicate TotalOrder(le: Collation) {
    && (forall a, b :: le(a, b) || le(b, a))
    && (forall a, b | le(a, b) && le(b, a) :: a == b)
    && (forall a, b, c | le(a, b) && le(b, c) :: le(a, c))
  }

  predicate InOrder(le: Collation, ids: seq<string>) { forall i, j | 0 <= i < j < |ids| :: le(ids[i], ids[j]) }

  // The ids of the selected header rows, each once, in the order of the database.
  predicate Enumerates(le: Collation, ids: seq<string>, stored: set<string>, only: Option<string>) {
    && (forall id | id in ids :: id in stored && Wanted(only, id))
    && (forall id | id in stored && Wanted(only, id) :: id in ids)
    && Distinct(ids) && InOrder(le, ids)
  }

  method ReadIds(le: Collation, stored: set<string>, only: Option<string>) returns (ids: seq<string>)
    requires TotalOrder(le)
    ensures Enumerates(le, ids, stored, only)
  {
    ids := [];
    var rest := stored;
    while rest != {}
      invariant rest <= stored && (forall id | id in ids :: id in stored && Wanted(only, id) && id !in rest)
      invariant forall id | id in stored && Wanted(only, id) :: id in ids || id in rest
      invariant Distinct(ids) && InOrder(le, ids)
    {
      var id :| id in rest;
      rest := rest - {id};
      if Wanted(only, id) {
        ids := Placed(le, ids, id);
      }
    }
  }

  function Inserted(ids: seq<string>, at: nat, id: string): seq<string>
    requires at <= |ids|
  {
    ids[..at] + [id] + ids[at..]
  }

  lemma InsertedAt(ids: seq<string>, at: nat, id: string)
    requires at <= |ids|
    ensures var after := Inserted(ids, at, id);
            && |after| == |ids| + 1 && after[at] == id
            && (forall i | 0 <= i < at :: after[i] == ids[i]) && forall i | at < i <= |ids| :: after[i] == ids[i - 1]
  {
  }

  lemma InsertedOrdered(le: Collation, ids: seq<string>, at: nat, id: string)
    requires TotalOrder(le) && InOrder(le, ids) && at <= |ids|
    requires (forall i | 0 <= i < at :: le(ids[i], id)) && (at < |ids| ==> le(id, ids[at]))
    ensures InOrder(le, Inserted(ids, at, id))
  {
    InsertedAt(ids, at, id);
    forall i | at <= i < |ids| ensures le(id, ids[i]) {
      assert i == at || le(ids[at], ids[i]);
    }
  }

  lemma InsertedDistinct(ids: seq<string>, at: nat, id: string)
    requires Distinct(ids) && id !in ids && at <= |ids|
    ensures Distinct(Inserted(ids, at, id))
  {
    InsertedAt(ids, at, id);
  }

  lemma InsertedHas(ids: seq<string>, at: nat, id: string)
    requires at <= |ids|
    ensures forall other :: other in Inserted(ids, at, id) <==> other in ids || other == id
  {
    assert ids == ids[..at] + ids[at..];
  }

  method Placed(le: Collation, ids: seq<string>, id: string) returns (after: seq<string>)
    requires TotalOrder(le) && InOrder(le, ids) && Distinct(ids) && id !in ids
    ensures InOrder(le, after) && Distinct(after) && forall other :: other in after <==> other in ids || other == id
  {
    var at := 0;
    while at < |ids| && le(ids[at], id)
      invariant 0 <= at <= |ids| && forall i | 0 <= i < at :: le(ids[i], id)
    {
      at := at + 1;
    }
    InsertedOrdered(le, ids, at, id);
    InsertedDistinct(ids, at, id);
    InsertedHas(ids, at, id);
    after := Inserted(ids, at, id);
  }

  class Catalog {
    const setting: Setting
    const collation: Collation
    var db: Db

    constructor (setting: Setting, collation: Collation)
      ensures this.setting == setting && this.collation == collation
      ensures db == Db(Offerings.Tables(map[], [], [], [], [], [], [], [], []), Prices.Tables(map[], [], []),
                       Specs.Tables(map[], [], [], [], []), [], [], [], Sequences(1, 1, 1))
    {
      this.setting := setting;
      this.collation := collation;
      db := Db(Offerings.Tables(map[], [], [], [], [], [], [], [], []), Prices.Tables(map[], [], []),
               Specs.Tables(map[], [], [], [], []), [], [], [], Sequences(1, 1, 1));
    }

    // ---- Offerings --------------------------------------------------------------------------------

    /** Writes an offering; `txn` is the transaction, which only a success makes the state of the database. */
    method CreateOffering(posted: Offerings.Offering) returns (result: Result<string, Error>)
      modifies this`db
      ensures (db, result) == CatalogStore.CreateOffering(setting, old(db), posted)
    {
      if posted.header.name.None? || posted.header.name.value == "" {
        return Err(InvalidRequest);
      }
      var id := ToString(db.next.offering);
      db := db.(next := db.next.(offering := db.next.offering + 1));
      if !Offerings.DatesParse(setting.clock, posted) || !SpecStored(db, posted.header.specification)
         || !UsesStored(db, posted.uses)
         || !forall i | 0 <= i < |posted.lists.prices| :: posted.lists.prices[i].id in db.prices.headers {
        return Err(InvalidRequest);
      }
      var o := IdentifiedOffering(setting, id, posted);
      var t := Offerings.WithHeader(setting.clock, db.offerings, id, o.header);
      var ok, txn := InsertOfferingLists(t, id, o.lists);
      if !ok {
        return Err(InvalidRequest);
      }
      var nodes := NodesIn(setting.clock, u => UseIn(setting.clock, u), o.uses);
      var uses, values := InsertNodes(db.uses, db.values, OfferingOwner(id), UseKey(OfferingOwner(id)), nodes);
      db := db.(offerings := txn, uses := uses, values := values);
      return Ok(id);
    }

    method InsertOfferingLists(t: Offerings.Tables, id: string, l: Offerings.Lists)
      returns (ok: bool, after: Offerings.Tables)
      ensures ok == (Distinct(BasicIds(l.prices)) && Distinct(RefIds(l.categories))
                     && Distinct(BasicIds(l.channels)) && Distinct(BasicIds(l.segments)))
      ensures ok ==> after == Offerings.WithLists(setting.clock, t, id, l)
    {
      after := t;
      var prices, categories, channels, segments := t.prices, t.categories, t.channels, t.segments;
      ok, prices := InsertDistinct(t.prices, id, l.prices, (r: Basic) => r.id);
      if !ok { return; }
      ok, categories := InsertDistinct(t.categories, id, l.categories, (r: Ref) => r.id);
      if !ok { return; }
      ok, channels := InsertDistinct(t.channels, id, l.channels, (r: Basic) => r.id);
      if !ok { return; }
      ok, segments := InsertDistinct(t.segments, id, l.segments, (r: Basic) => r.id);
      if !ok { return; }
      var agreements := InsertRows(t.agreements, id, l.agreements, 0);
      var bundles := InsertRows(t.bundles, id, l.bundles, 0);
      var relationships := InsertRows(t.relationships, id, Map(r => Offerings.RelationshipIn(setting.clock, r), l.relationships), 0);
      var terms := InsertRows(t.terms, id, Map(r => Offerings.TermIn(setting.clock, r), l.terms), 0);
      after := t.(prices := prices, categories := categories, channels := channels, segments := segments,
                  agreements := agreements, bundles := bundles, relationships := relationships, terms := terms);
    }

    method ReadUses(only: Option<string>, ofOfferings: bool) returns (lists: map<Owner, seq<Node<UseRow, ValueRow>>>)
      requires UsesSound(db) && ValuesSound(db)
      ensures forall owner: Owner | owner.OfferingOwner? == ofOfferings && Wanted(only, owner.id) ::
                At(lists, owner) == TreeOf(db.uses, db.values, owner)
    {
      var uses := db.uses;
      var f := (owner: Owner) => owner.OfferingOwner? == ofOfferings && Wanted(only, owner.id);
      // The values are joined to the selected uses by surrogate key.
      var g := (key: ValueKey) => exists i :: 0 <= i < |uses| && f(uses[i].owner) && uses[i].cells.key == key;
      var useRows := Query(db.uses, f);
      var valueRows := Query(db.values, g);
      lists := CollectNodes(useRows, valueRows);
      forall owner: Owner | f(owner) ensures At(lists, owner) == TreeOf(db.uses, db.values, owner) {
        AnyTreeAnswer(db.uses, db.values, f, g, useRows, valueRows, owner);
      }
    }

    method LoadOfferingLists(ids: seq<string>, only: Option<string>) returns (out: seq<Offerings.Lists>)
      requires Offerings.TablesSound(db.offerings) && forall id | id in ids :: Wanted(only, id)
      ensures |out| == |ids| && forall i | 0 <= i < |ids| :: out[i] == Offerings.LoadLists(db.offerings, ids[i])
    {
      var t := db.offerings;
      var prices := ReadLists(t.prices, only);
      var categories := ReadLists(t.categories, only);
      var channels := ReadLists(t.channels, only);
      var segments := ReadLists(t.segments, only);
      var agreements := ReadLists(t.agreements, only);
      var bundles := ReadLists(t.bundles, only);
      var relationships := ReadLists(t.relationships, only);
      var terms := ReadLists(t.terms, only);
      out := [];
      for i := 0 to |ids|
        invariant |out| == i && forall j | 0 <= j < i :: out[j] == Offerings.LoadLists(t, ids[j])
      {
        var id := ids[i];
        assert id in ids;
        out := out + [Offerings.Lists(At(prices, id), At(categories, id), At(channels, id), At(segments, id),
                                      At(agreements, id), At(bundles, id),
                                      Offerings.RelationshipsOut(At(relationships, id)),
                                      Offerings.TermsOut(At(terms, id)))];
      }
    }

    method LoadUseLists(ids: seq<string>, only: Option<string>, ofOfferings: bool) returns (out: seq<Uses>)
      requires UsesSound(db) && ValuesSound(db) && forall id | id in ids :: Wanted(only, id)
      ensures |out| == |ids|
      ensures forall i | 0 <= i < |ids| :: out[i] == LoadUses(db, UseOwner(ids[i], ofOfferings))
    {
      var groups := ReadUses(only, ofOfferings);
      out := HandOut(Map(id => UseOwner(id, ofOfferings), ids), groups, nodes => UsesOut(nodes));
      forall i | 0 <= i < |ids| ensures out[i] == LoadUses(db, UseOwner(ids[i], ofOfferings)) {
        assert ids[i] in ids;
        assert out[i] == UsesOut(At(groups, UseOwner(ids[i], ofOfferings)));
      }
    }

    function UseOwner(id: string, ofOfferings: bool): Owner { if ofOfferings then OfferingOwner(id) else PriceOwner(id) }

    method LoadOfferings(only: Option<string>) returns (ids: seq<string>, out: seq<Offerings.Offering>)
      requires Inv(db) && TotalOrder(collation)
      ensures Enumerates(collation, ids, db.offerings.headers.Keys, only) && |out| == |ids|
      ensures forall i | 0 <= i < |ids| :: LoadOffering(db, ids[i]) == Some(out[i])
    {
      ids := ReadIds(collation, db.offerings.headers.Keys, only);
      var lists := LoadOfferingLists(ids, only);
      var uses := LoadUseLists(ids, only, true);
      out := JoinOfferings(ids, lists, uses);
    }

    method JoinOfferings(ids: seq<string>, lists: seq<Offerings.Lists>, uses: seq<Uses>) returns (out: seq<Offerings.Offering>)
      requires forall i | 0 <= i < |ids| :: ids[i] in db.offerings.headers
      requires |lists| == |uses| == |ids|
      requires forall i | 0 <= i < |ids| :: lists[i] == Offerings.LoadLists(db.offerings, ids[i])
      requires forall i | 0 <= i < |ids| :: uses[i] == LoadUses(db, OfferingOwner(ids[i]))
      ensures |out| == |ids| && forall i | 0 <= i < |ids| :: LoadOffering(db, ids[i]) == Some(out[i])
    {
      out := [];
      for i := 0 to |ids|
        invariant |out| == i && forall j | 0 <= j < i :: LoadOffering(db, ids[j]) == Some(out[j])
      {
        out := out + [Offerings.Offering(Offerings.HeaderOut(db.offerings.headers[ids[i]]), lists[i], uses[i])];
      }
    }

    method GetOffering(id: string) returns (result: Option<Offerings.Offering>)
      requires Inv(db) && TotalOrder(collation)
      ensures result == LoadOffering(db, id)
    {
      var ids, out := LoadOfferings(Some(id));
      if out == [] {
        assert id !in ids;
        return None;
      }
      assert ids[0] in ids;
      return Some(out[0]);
    }

    /** The list holds every stored offering once, ordered by id, each as a single read of it gives it. */
    method ListOfferings() returns (ids: seq<string>, out: seq<Offerings.Offering>)
      requires Inv(db) && TotalOrder(collation)
      ensures Distinct(ids) && InOrder(collation, ids) && |out| == |ids| && forall id :: id in ids <==> LoadOffering(db, id).Some?
      ensures forall i | 0 <= i < |ids| :: LoadOffering(db, ids[i]) == Some(out[i])
    {
      ids, out := LoadOfferings(None);
    }

    // ---- Prices -----------------------------------------------------------------------------------

    method CreatePrice(posted: Prices.Price) returns (result: Result<string, Error>)
      modifies this`db
      ensures (db, result) == CatalogStore.CreatePrice(setting, old(db), posted)
    {
      var id := ToString(db.next.price);
      db := db.(next := db.next.(price := db.next.price + 1));
      if !Prices.DatesParse(setting.clock, posted) || !UsesStored(db, posted.uses) {
        return Err(InvalidRequest);
      }
      var p := IdentifiedPrice(setting, id, posted);
      var t := Prices.WithHeader(setting.clock, db.prices, id, p.header);
      var relations := InsertRelations(t.relations, id, p.lists);
      var taxes := InsertRows(t.taxes, id, Map(x => Prices.TaxIn(x), p.lists.taxes), 0);
      var nodes := NodesIn(setting.clock, u => UseIn(setting.clock, u), p.uses);
      var uses, values := InsertNodes(db.uses, db.values, PriceOwner(id), UseKey(PriceOwner(id)), nodes);
      db := db.(prices := t.(relations := relations, taxes := taxes), uses := uses, values := values);
      return Ok(id);
    }

    // The two lists share one running ordinal.
    method InsertRelations(table: Table<string, Prices.RelationRow>, id: string, l: Prices.Lists)
      returns (after: Table<string, Prices.RelationRow>)
      ensures after == table + Rows(id, Prices.RelationRows(l), 0)
    {
      var first := InsertRows(table, id, Prices.RelationsIn(l.relations), 0);
      after := InsertRows(first, id, Prices.BundledsIn(l.bundled), |l.relations|);
      assert Rows(id, Prices.RelationsIn(l.relations), 0)
             + Rows(id, Prices.BundledsIn(l.bundled), |l.relations|)
             == Rows(id, Prices.RelationRows(l), 0);
    }

    method LoadPriceLists(ids: seq<string>, only: Option<string>) returns (out: seq<Prices.Lists>)
      requires Prices.TablesSound(db.prices) && forall id | id in ids :: Wanted(only, id)
      ensures |out| == |ids| && forall i | 0 <= i < |ids| :: out[i] == Prices.LoadLists(db.prices, ids[i])
    {
      var relations := ReadLists(db.prices.relations, only);
      var taxes := ReadLists(db.prices.taxes, only);
      out := [];
      for i := 0 to |ids|
        invariant |out| == i && forall j | 0 <= j < i :: out[j] == Prices.LoadLists(db.prices, ids[j])
      {
        assert ids[i] in ids;
        var empty := Prices.Lists([], [], Map(r => Prices.TaxOut(r), At(taxes, ids[i])));
        var lists := PushRelations(empty, At(relations, ids[i]));
        out := out + [lists];
      }
    }

    method LoadPrices(only: Option<string>) returns (ids: seq<string>, out: seq<Prices.Price>)
      requires Inv(db) && TotalOrder(collation)
      ensures Enumerates(collation, ids, db.prices.headers.Keys, only) && |out| == |ids|
      ensures forall i | 0 <= i < |ids| :: LoadPrice(db, ids[i]) == Some(out[i])
    {
      ids := ReadIds(collation, db.prices.headers.Keys, only);
      var lists := LoadPriceLists(ids, only);
      var uses := LoadUseLists(ids, only, false);
      out := JoinPrices(ids, lists, uses);
    }

    method JoinPrices(ids: seq<string>, lists: seq<Prices.Lists>, uses: seq<Uses>) returns (out: seq<Prices.Price>)
      requires forall i | 0 <= i < |ids| :: ids[i] in db.prices.headers
      requires |lists| == |uses| == |ids|
      requires forall i | 0 <= i < |ids| :: lists[i] == Prices.LoadLists(db.prices, ids[i])
      requires forall i | 0 <= i < |ids| :: uses[i] == LoadUses(db, PriceOwner(ids[i]))
      ensures |out| == |ids| && forall i | 0 <= i < |ids| :: LoadPrice(db, ids[i]) == Some(out[i])
    {
      out := [];
      for i := 0 to |ids|
        invariant |out| == i && forall j | 0 <= j < i :: LoadPrice(db, ids[j]) == Some(out[j])
      {
        out := out + [Prices.Price(Prices.HeaderOut(db.prices.headers[ids[i]]), lists[i], uses[i])];
      }
    }

    method PushRelations(empty: Prices.Lists, rows: seq<Prices.RelationRow>) returns (lists: Prices.Lists)
      ensures lists == Prices.AddRelations(empty, rows)
    {
      lists := empty;
      for i := 0 to |rows|
        invariant lists == Prices.AddRelations(empty, rows[..i])
      {
        assert rows[..i + 1][..i] == rows[..i];
        if rows[i].list == Prices.BUNDLED_POP {
          lists := lists.(bundled := lists.bundled + [LooseBasic(rows[i].id, rows[i].href, rows[i].name)]);
        } else {
          lists := lists.(relations := lists.relations
                                       + [Prices.Relation(rows[i].id, rows[i].href, rows[i].name, rows[i].kind, rows[i].role)]);
        }
      }
      assert rows[..|rows|] == rows;
    }

    method GetPrice(id: string) returns (result: Option<Prices.Price>)
      requires Inv(db) && TotalOrder(collation)
      ensures result == LoadPrice(db, id)
    {
      var ids, out := LoadPrices(Some(id));
      if out == [] {
        assert id !in ids;
        return None;
      }
      assert ids[0] in ids;
      return Some(out[0]);
    }

    method ListPrices() returns (ids: seq<string>, out: seq<Prices.Price>)
      requires Inv(db) && TotalOrder(collation)
      ensures Distinct(ids) && InOrder(collation, ids) && |out| == |ids| && forall id :: id in ids <==> LoadPrice(db, id).Some?
      ensures forall i | 0 <= i < |ids| :: LoadPrice(db, ids[i]) == Some(out[i])
    {
      ids, out := LoadPrices(None);
    }

    // ---- Specifications ---------------------------------------------------------------------------

    method CreateSpec(posted: Specs.Specification) returns (result: Result<string, Error>)
      modifies this`db
      ensures (db, result) == CatalogStore.CreateSpec(setting, old(db), posted)
    {
      var id := ToString(db.next.spec);
      db := db.(next := db.next.(spec := db.next.spec + 1));
      if !Specs.DatesParse(setting.clock, posted) {
        return Err(InvalidRequest);
      }
      var x := IdentifiedSpec(setting, id, posted);
      var t := Specs.WithHeader(setting.clock, db.specs, id, x.header);
      var nodes := NodesIn(setting.clock, c => CharacteristicIn(setting.clock, c), x.characteristics);
      var characteristics, values := InsertNodes(db.characteristics, db.values, id, CharacteristicKey(id), nodes);
      var bundled := InsertRows(t.bundled, id, x.lists.bundled, 0);
      var relationships := InsertRows(t.relationships, id, Map(r => Specs.RelationshipIn(setting.clock, r), x.lists.relationships), 0);
      var parties := InsertRows(t.parties, id, x.lists.parties, 0);
      var candidates := InsertRows(t.candidates, id, Specs.ResourceRows(x.lists), 0);
      candidates := InsertRows(candidates, id, Specs.ServiceRows(x.lists), |x.lists.resources|);
      db := db.(specs := t.(bundled := bundled, relationships := relationships, parties := parties, candidates := candidates),
                characteristics := characteristics, values := values);
      return Ok(id);
    }

    method ReadCharacteristics(only: Option<string>)
      returns (lists: map<string, seq<Node<CharacteristicRow, ValueRow>>>)
      requires CharacteristicsSound(db) && ValuesSound(db)
      ensures forall id: string | Wanted(only, id) :: At(lists, id) == TreeOf(db.characteristics, db.values, id)
    {
      var parents := db.characteristics;
      var f := (id: string) => Wanted(only, id);
      var g := (key: ValueKey) => exists i :: 0 <= i < |parents| && f(parents[i].owner) && parents[i].cells.key == key;
      var parentRows := Query(db.characteristics, f);
      var valueRows := Query(db.values, g);
      lists := CollectNodes(parentRows, valueRows);
      forall id: string | f(id) ensures At(lists, id) == TreeOf(db.characteristics, db.values, id) {
        AnyTreeAnswer(db.characteristics, db.values, f, g, parentRows, valueRows, id);
      }
    }

    method LoadSpecLists(ids: seq<string>, only: Option<string>) returns (out: seq<Specs.Lists>)
      requires Specs.TablesSound(db.specs) && forall id | id in ids :: Wanted(only, id)
      ensures |out| == |ids| && forall i | 0 <= i < |ids| :: out[i] == Specs.LoadLists(db.specs, ids[i])
    {
      var bundled := ReadLists(db.specs.bundled, only);
      var relationships := ReadLists(db.specs.relationships, only);
      var parties := ReadLists(db.specs.parties, only);
      var candidates := ReadLists(db.specs.candidates, only);
      out := [];
      for i := 0 to |ids|
        invariant |out| == i && forall j | 0 <= j < i :: out[j] == Specs.LoadLists(db.specs, ids[j])
      {
        assert ids[i] in ids;
        var lists := SpecListsOf(ids[i], bundled, relationships, parties, candidates);
        out := out + [lists];
      }
    }

    method SpecListsOf(id: string, bundled: map<string, seq<LooseRef>>,
                       relationships: map<string, seq<Specs.RelationshipRow>>, parties: map<string, seq<Ref>>,
                       candidates: map<string, seq<Specs.CandidateRow>>) returns (lists: Specs.Lists)
      requires At(bundled, id) == ListOf(db.specs.bundled, id)
      requires At(relationships, id) == ListOf(db.specs.relationships, id)
      requires At(parties, id) == ListOf(db.specs.parties, id) && At(candidates, id) == ListOf(db.specs.candidates, id)
      ensures lists == Specs.LoadLists(db.specs, id)
    {
      var empty := Specs.Lists(At(bundled, id), Specs.RelationshipsOut(At(relationships, id)),
                               At(parties, id), [], []);
      lists := PushCandidates(empty, At(candidates, id));
    }

    method LoadCharacteristicLists(ids: seq<string>, only: Option<string>) returns (out: seq<Characteristics>)
      requires CharacteristicsSound(db) && ValuesSound(db) && forall id | id in ids :: Wanted(only, id)
      ensures |out| == |ids| && forall i | 0 <= i < |ids| :: out[i] == LoadCharacteristics(db, ids[i])
    {
      var groups := ReadCharacteristics(only);
      out := HandOut(ids, groups, nodes => CharacteristicsOut(nodes));
      forall i | 0 <= i < |ids| ensures out[i] == LoadCharacteristics(db, ids[i]) {
        assert ids[i] in ids;
        assert out[i] == CharacteristicsOut(At(groups, ids[i]));
      }
    }

    method LoadSpecs(only: Option<string>) returns (ids: seq<string>, out: seq<Specs.Specification>)
      requires Inv(db) && TotalOrder(collation)
      ensures Enumerates(collation, ids, db.specs.headers.Keys, only) && |out| == |ids|
      ensures forall i | 0 <= i < |ids| :: LoadSpec(db, ids[i]) == Some(out[i])
    {
      ids := ReadIds(collation, db.specs.headers.Keys, only);
      var lists := LoadSpecLists(ids, only);
      var characteristics := LoadCharacteristicLists(ids, only);
      out := JoinSpecs(ids, lists, characteristics);
    }

    method JoinSpecs(ids: seq<string>, lists: seq<Specs.Lists>, characteristics: seq<Characteristics>)
      returns (out: seq<Specs.Specification>)
      requires forall i | 0 <= i < |ids| :: ids[i] in db.specs.headers
      requires |lists| == |characteristics| == |ids|
      requires forall i | 0 <= i < |ids| :: lists[i] == Specs.LoadLists(db.specs, ids[i])
      requires forall i | 0 <= i < |ids| :: characteristics[i] == LoadCharacteristics(db, ids[i])
      ensures |out| == |ids| && forall i | 0 <= i < |ids| :: LoadSpec(db, ids[i]) == Some(out[i])
    {
      out := [];
      for i := 0 to |ids|
        invariant |out| == i && forall j | 0 <= j < i :: LoadSpec(db, ids[j]) == Some(out[j])
      {
        out := out + [Specs.Specification(Specs.HeaderOut(db.specs.headers[ids[i]]), lists[i], characteristics[i])];
      }
    }

    method PushCandidates(empty: Specs.Lists, rows: seq<Specs.CandidateRow>) returns (lists: Specs.Lists)
      ensures lists == Specs.AddCandidates(empty, rows)
    {
      lists := empty;
      for i := 0 to |rows|
        invariant lists == Specs.AddCandidates(empty, rows[..i])
      {
        assert rows[..i + 1][..i] == rows[..i];
        var ref := LooseRef(rows[i].id, rows[i].href, rows[i].name, rows[i].version);
        if rows[i].list == Specs.RESOURCE {
          lists := lists.(resources := lists.resources + [ref]);
        } else {
          lists := lists.(services := lists.services + [ref]);
        }
      }
      assert rows[..|rows|] == rows;
    }

    method GetSpec(id: string) returns (result: Option<Specs.Specification>)
      requires Inv(db) && TotalOrder(collation)
      ensures result == LoadSpec(db, id)
    {
      var ids, out := LoadSpecs(Some(id));
      if out == [] {
        assert id !in ids;
        return None;
      }
      assert ids[0] in ids;
      return Some(out[0]);
    }

    method ListSpecs() returns (ids: seq<string>, out: seq<Specs.Specification>)
      requires Inv(db) && TotalOrder(collation)
      ensures Distinct(ids) && InOrder(collation, ids) && |out| == |ids| && forall id :: id in ids <==> LoadSpec(db, id).Some?
      ensures forall i | 0 <= i < |ids| :: LoadSpec(db, ids[i]) == Some(out[i])
    {
      ids, out := LoadSpecs(None);
    }
  }
}
