/** Product offerings: the header row and eight child lists. */
module CatalogOffering {
  import opened Wrappers
  import opened CatalogRows
  import opened CatalogModel

  datatype Relationship = Relationship(id: Text, href: Text, name: Text, kind: Text, role: Text,
                                       validFor: Option<TimePeriod>)

  datatype RelationshipRow = RelationshipRow(id: Text, href: Text, name: Text, kind: Text, role: Text,
                                             start: Text, end: Text)

  datatype Term = Term(description: Text, name: Text, duration: Option<Duration>, validFor: Option<TimePeriod>)

  datatype TermRow = TermRow(name: Text, description: Text, amount: Option<int>, units: Text, start: Text, end: Text)

  datatype Header = Header(id: Text, href: Text, name: Text, description: Text, lifecycleStatus: Text,
                           lastUpdate: Text, statusReason: Text, isBundle: Option<bool>, isSellable: Option<bool>,
                           version: Text, specification: Option<Single>, serviceLevel: Option<Basic>,
                           resourceCandidate: Option<Ref>, serviceCandidate: Option<Ref>,
                           attachment: seq<Json>, place: seq<Json>, validFor: Option<TimePeriod>)

  datatype HeaderRow = HeaderRow(id: string, href: Text, name: Text, description: Text, lifecycleStatus: Text,
                                 lastUpdate: Text, statusReason: Text, isBundle: Option<bool>,
                                 isSellable: Option<bool>, version: Text, specification: SingleColumns,
                                 serviceLevel: LooseBasic, resourceCandidate: LooseRef, serviceCandidate: LooseRef,
                                 attachment: Option<Json>, place: Option<Json>, start: Text, end: Text)

  datatype Lists = Lists(prices: seq<Basic>, categories: seq<Ref>, channels: seq<Basic>, segments: seq<Basic>,
                         agreements: seq<Basic>, bundles: seq<Ref>, relationships: seq<Relationship>,
                         terms: seq<Term>)

  datatype Offering = Offering(header: Header, lists: Lists, uses: Uses)

  datatype Tables = Tables(headers: map<string, HeaderRow>, prices: Table<string, Basic>,
                           categories: Table<string, Ref>, channels: Table<string, Basic>,
                           segments: Table<string, Basic>, agreements: Table<string, Basic>,
                           bundles: Table<string, Ref>, relationships: Table<string, RelationshipRow>,
                           terms: Table<string, TermRow>)

  function HeaderIn(clock: Clock, id: string, h: Header): HeaderRow {
    HeaderRow(id, h.href, h.name, h.description, h.lifecycleStatus, Canonical(clock, h.lastUpdate), h.statusReason,
              h.isBundle, h.isSellable, h.version, SingleIn(h.specification), BasicIn(h.serviceLevel),
              RefIn(h.resourceCandidate), RefIn(h.serviceCandidate), JsonIn(h.attachment), JsonIn(h.place),
              StartColumn(clock, h.validFor), EndColumn(clock, h.validFor))
  }

  function HeaderOut(r: HeaderRow): Header {
    Header(Some(r.id), r.href, r.name, r.description, r.lifecycleStatus, r.lastUpdate, r.statusReason, r.isBundle,
           r.isSellable, r.version, SingleOut(r.specification), BasicOut(r.serviceLevel),
           RefOut(r.resourceCandidate), RefOut(r.serviceCandidate), JsonOut(r.attachment), JsonOut(r.place),
           PeriodOut(r.start, r.end))
  }

  function RelationshipIn(clock: Clock, r: Relationship): RelationshipRow {
    RelationshipRow(r.id, r.href, r.name, r.kind, r.role, StartColumn(clock, r.validFor), EndColumn(clock, r.validFor))
  }

  function RelationshipOut(r: RelationshipRow): Relationship {
    Relationship(r.id, r.href, r.name, r.kind, r.role, PeriodOut(r.start, r.end))
  }

  function TermIn(clock: Clock, t: Term): TermRow {
    TermRow(t.name, t.description, if t.duration.Some? then t.duration.value.amount else None,
            if t.duration.Some? then t.duration.value.units else None,
            StartColumn(clock, t.validFor), EndColumn(clock, t.validFor))
  }

  function TermOut(r: TermRow): Term {
    Term(r.description, r.name,
         if r.amount.Some? || r.units.Some? then Some(Duration(r.amount, r.units)) else None,
         PeriodOut(r.start, r.end))
  }

  // ---- Canonical form -----------------------------------------------------------------------------

  predicate DatesParse(clock: Clock, o: Offering) {
    && Parses(clock, o.header.lastUpdate) && PeriodParses(clock, o.header.validFor)
    && (forall i | 0 <= i < |o.lists.relationships| :: PeriodParses(clock, o.lists.relationships[i].validFor))
    && (forall i | 0 <= i < |o.lists.terms| :: PeriodParses(clock, o.lists.terms[i].validFor))
    && NodesParse(clock, (u: Use) => u.validFor, o.uses)
  }

  function CanonicalHeader(clock: Clock, h: Header): Header {
    h.(lastUpdate := Canonical(clock, h.lastUpdate), validFor := CanonicalPeriod(clock, h.validFor))
  }

  function CanonicalLists(clock: Clock, l: Lists): Lists {
    l.(relationships := Map((r: Relationship) => r.(validFor := CanonicalPeriod(clock, r.validFor)), l.relationships),
       terms := Map((t: Term) => t.(duration := CanonicalDuration(t.duration),
                                    validFor := CanonicalPeriod(clock, t.validFor)), l.terms))
  }

  /** What an offering posted and given an id and href is expected to come back as. */
  function CanonicalOffering(clock: Clock, o: Offering): Offering {
    Offering(CanonicalHeader(clock, o.header), CanonicalLists(clock, o.lists),
             CanonicalNodes(clock, u => CanonicalUse(clock, u), o.uses))
  }

  // ---- Shredding and reassembling -----------------------------------------------------------------

  function WithHeader(clock: Clock, t: Tables, id: string, h: Header): Tables {
    t.(headers := t.headers[id := HeaderIn(clock, id, h)])
  }

  function WithLists(clock: Clock, t: Tables, id: string, l: Lists): Tables {
    t.(prices := t.prices + Rows(id, l.prices, 0),
       categories := t.categories + Rows(id, l.categories, 0),
       channels := t.channels + Rows(id, l.channels, 0),
       segments := t.segments + Rows(id, l.segments, 0),
       agreements := t.agreements + Rows(id, l.agreements, 0),
       bundles := t.bundles + Rows(id, l.bundles, 0),
       relationships := t.relationships + Rows(id, Map(r => RelationshipIn(clock, r), l.relationships), 0),
       terms := t.terms + Rows(id, Map(r => TermIn(clock, r), l.terms), 0))
  }

  function RelationshipsOut(rows: seq<RelationshipRow>): seq<Relationship> { Map(r => RelationshipOut(r), rows) }

  function TermsOut(rows: seq<TermRow>): seq<Term> { Map(r => TermOut(r), rows) }

  function LoadLists(t: Tables, id: string): Lists {
    Lists(ListOf(t.prices, id), ListOf(t.categories, id), ListOf(t.channels, id), ListOf(t.segments, id),
          ListOf(t.agreements, id), ListOf(t.bundles, id),
          RelationshipsOut(ListOf(t.relationships, id)), TermsOut(ListOf(t.terms, id)))
  }

  ghost predicate TablesSound(t: Tables) {
    var ids := t.headers.Keys;
    && Sound(t.prices, ids) && Sound(t.categories, ids) && Sound(t.channels, ids) && Sound(t.segments, ids)
    && Sound(t.agreements, ids) && Sound(t.bundles, ids) && Sound(t.relationships, ids) && Sound(t.terms, ids)
  }

  lemma HeaderRoundTrip(clock: Clock, id: string, h: Header)
    requires Parses(clock, h.lastUpdate) && PeriodParses(clock, h.validFor)
    ensures HeaderOut(HeaderIn(clock, id, h)) == CanonicalHeader(clock, h.(id := Some(id)))
  {
  }

  lemma RelationshipsRoundTrip(clock: Clock, rs: seq<Relationship>)
    requires forall i | 0 <= i < |rs| :: PeriodParses(clock, rs[i].validFor)
    ensures RelationshipsOut(Map(r => RelationshipIn(clock, r), rs))
            == Map((r: Relationship) => r.(validFor := CanonicalPeriod(clock, r.validFor)), rs)
  {
    forall i | 0 <= i < |rs|
      ensures RelationshipOut(RelationshipIn(clock, rs[i])) == rs[i].(validFor := CanonicalPeriod(clock, rs[i].validFor))
    {
      assert PeriodParses(clock, rs[i].validFor);
    }
  }

  lemma TermsRoundTrip(clock: Clock, ts: seq<Term>)
    requires forall i | 0 <= i < |ts| :: PeriodParses(clock, ts[i].validFor)
    ensures TermsOut(Map(r => TermIn(clock, r), ts))
            == Map((t: Term) => t.(duration := CanonicalDuration(t.duration),
                                   validFor := CanonicalPeriod(clock, t.validFor)), ts)
  {
    forall i | 0 <= i < |ts|
      ensures TermOut(TermIn(clock, ts[i]))
              == ts[i].(duration := CanonicalDuration(ts[i].duration), validFor := CanonicalPeriod(clock, ts[i].validFor))
    {
      assert PeriodParses(clock, ts[i].validFor);
    }
  }

  lemma SoundLists(clock: Clock, t: Tables, id: string, h: Header, l: Lists)
    requires TablesSound(t) && id !in t.headers
    ensures TablesSound(WithLists(clock, WithHeader(clock, t, id, h), id, l))
  {
    var ids := t.headers.Keys;
    assert WithHeader(clock, t, id, h).headers.Keys == ids + {id};
    SoundInsert(t.prices, ids, id, l.prices);
    SoundInsert(t.categories, ids, id, l.categories);
    SoundInsert(t.channels, ids, id, l.channels);
    SoundInsert(t.segments, ids, id, l.segments);
    SoundInsert(t.agreements, ids, id, l.agreements);
    SoundInsert(t.bundles, ids, id, l.bundles);
    SoundInsert(t.relationships, ids, id, Map(r => RelationshipIn(clock, r), l.relationships));
    SoundInsert(t.terms, ids, id, Map(r => TermIn(clock, r), l.terms));
  }

  /** The lists come back in canonical form, in posted order, and no other offering's lists change. */
  lemma ListsRoundTrip(clock: Clock, t: Tables, id: string, l: Lists, other: string)
    requires TablesSound(t) && id !in t.headers
    requires forall i | 0 <= i < |l.relationships| :: PeriodParses(clock, l.relationships[i].validFor)
    requires forall i | 0 <= i < |l.terms| :: PeriodParses(clock, l.terms[i].validFor)
    ensures LoadLists(WithLists(clock, t, id, l), other)
            == if other == id then CanonicalLists(clock, l) else LoadLists(t, other)
  {
    var ids := t.headers.Keys;
    SoundInsert(t.prices, ids, id, l.prices);
    SoundInsert(t.categories, ids, id, l.categories);
    SoundInsert(t.channels, ids, id, l.channels);
    SoundInsert(t.segments, ids, id, l.segments);
    SoundInsert(t.agreements, ids, id, l.agreements);
    SoundInsert(t.bundles, ids, id, l.bundles);
    SoundInsert(t.relationships, ids, id, Map(r => RelationshipIn(clock, r), l.relationships));
    SoundInsert(t.terms, ids, id, Map(r => TermIn(clock, r), l.terms));
    RelationshipsRoundTrip(clock, l.relationships);
    TermsRoundTrip(clock, l.terms);
  }
}
