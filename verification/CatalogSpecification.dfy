/** Product specifications: the header row, four child lists, and the candidate references of two kinds in one table. */
module CatalogSpecification {
  import opened Wrappers
  import opened CatalogRows
  import opened CatalogModel

  datatype Relationship = Relationship(id: Text, href: Text, name: Text, kind: Text, validFor: Option<TimePeriod>)

  datatype RelationshipRow = RelationshipRow(id: Text, href: Text, name: Text, kind: Text, start: Text, end: Text)

  datatype CandidateRow = CandidateRow(list: string, id: Text, href: Text, name: Text, version: Text)

  datatype Header = Header(id: Text, href: Text, brand: Text, description: Text, isBundle: Option<bool>,
                           lifecycleStatus: Text, lastUpdate: Text, name: Text, productNumber: Text, version: Text,
                           schema: Option<Json>, attachment: seq<Json>, validFor: Option<TimePeriod>)

  datatype HeaderRow = HeaderRow(id: string, href: Text, brand: Text, description: Text, isBundle: Option<bool>,
                                 lifecycleStatus: Text, lastUpdate: Text, name: Text, productNumber: Text,
                                 version: Text, schema: Option<Json>, attachment: Option<Json>,
                                 start: Text, end: Text)

  datatype Lists = Lists(bundled: seq<LooseRef>, relationships: seq<Relationship>, parties: seq<Ref>,
                         resources: seq<LooseRef>, services: seq<LooseRef>)

  datatype Specification = Specification(header: Header, lists: Lists, characteristics: Characteristics)

  datatype Tables = Tables(headers: map<string, HeaderRow>, bundled: Table<string, LooseRef>,
                           relationships: Table<string, RelationshipRow>, parties: Table<string, Ref>,
                           candidates: Table<string, CandidateRow>)

  function HeaderIn(clock: Clock, id: string, h: Header): HeaderRow {
    HeaderRow(id, h.href, h.brand, h.description, h.isBundle, h.lifecycleStatus, Canonical(clock, h.lastUpdate),
              h.name, h.productNumber, h.version, h.schema, JsonIn(h.attachment),
              StartColumn(clock, h.validFor), EndColumn(clock, h.validFor))
  }

  function HeaderOut(r: HeaderRow): Header {
    Header(Some(r.id), r.href, r.brand, r.description, r.isBundle, r.lifecycleStatus, r.lastUpdate, r.name,
           r.productNumber, r.version, r.schema, JsonOut(r.attachment), PeriodOut(r.start, r.end))
  }

  function RelationshipIn(clock: Clock, r: Relationship): RelationshipRow {
    RelationshipRow(r.id, r.href, r.name, r.kind, StartColumn(clock, r.validFor), EndColumn(clock, r.validFor))
  }

  function RelationshipOut(r: RelationshipRow): Relationship {
    Relationship(r.id, r.href, r.name, r.kind, PeriodOut(r.start, r.end))
  }

  const RESOURCE := "RESOURCE"
  const SERVICE := "SERVICE"

  function CandidateIn(list: string, r: LooseRef): CandidateRow { CandidateRow(list, r.id, r.href, r.name, r.extra) }

  function CandidatesIn(list: string, rs: seq<LooseRef>): (rows: seq<CandidateRow>)
    ensures |rows| == |rs| && forall i | 0 <= i < |rs| :: rows[i] == CandidateIn(list, rs[i])
  {
    Map(r => CandidateIn(list, r), rs)
  }

  function ResourceRows(l: Lists): seq<CandidateRow> { CandidatesIn(RESOURCE, l.resources) }

  function ServiceRows(l: Lists): seq<CandidateRow> { CandidatesIn(SERVICE, l.services) }

  function AddCandidate(l: Lists, r: CandidateRow): Lists {
    var ref := LooseRef(r.id, r.href, r.name, r.version);
    if r.list == RESOURCE then l.(resources := l.resources + [ref]) else l.(services := l.services + [ref])
  }

  function AddCandidates(l: Lists, rows: seq<CandidateRow>): Lists {
    if rows == [] then l else AddCandidate(AddCandidates(l, rows[..|rows| - 1]), rows[|rows| - 1])
  }

  predicate DatesParse(clock: Clock, s: Specification) {
    && Parses(clock, s.header.lastUpdate) && PeriodParses(clock, s.header.validFor)
    && (forall i | 0 <= i < |s.lists.relationships| :: PeriodParses(clock, s.lists.relationships[i].validFor))
    && NodesParse(clock, (c: Characteristic) => c.validFor, s.characteristics)
  }

  function CanonicalHeader(clock: Clock, h: Header): Header {
    h.(lastUpdate := Canonical(clock, h.lastUpdate), validFor := CanonicalPeriod(clock, h.validFor))
  }

  function CanonicalLists(clock: Clock, l: Lists): Lists {
    l.(relationships := Map((r: Relationship) => r.(validFor := CanonicalPeriod(clock, r.validFor)), l.relationships))
  }

  /** What a specification posted and given an id and href is expected to come back as. */
  function CanonicalSpecification(clock: Clock, s: Specification): Specification {
    Specification(CanonicalHeader(clock, s.header), CanonicalLists(clock, s.lists),
                  CanonicalNodes(clock, c => CanonicalCharacteristic(clock, c), s.characteristics))
  }

  function WithHeader(clock: Clock, t: Tables, id: string, h: Header): Tables {
    t.(headers := t.headers[id := HeaderIn(clock, id, h)])
  }

  // The service candidates are numbered on from the resource candidates.
  function WithLists(clock: Clock, t: Tables, id: string, l: Lists): Tables {
    t.(bundled := t.bundled + Rows(id, l.bundled, 0),
       relationships := t.relationships + Rows(id, Map(r => RelationshipIn(clock, r), l.relationships), 0),
       parties := t.parties + Rows(id, l.parties, 0),
       candidates := t.candidates + Rows(id, ResourceRows(l), 0) + Rows(id, ServiceRows(l), |l.resources|))
  }

  function RelationshipsOut(rows: seq<RelationshipRow>): seq<Relationship> { Map(r => RelationshipOut(r), rows) }

  function LoadLists(t: Tables, id: string): Lists {
    AddCandidates(Lists(ListOf(t.bundled, id), RelationshipsOut(ListOf(t.relationships, id)),
                        ListOf(t.parties, id), [], []),
                  ListOf(t.candidates, id))
  }

  ghost predicate TablesSound(t: Tables) {
    var ids := t.headers.Keys;
    Sound(t.bundled, ids) && Sound(t.relationships, ids) && Sound(t.parties, ids) && Sound(t.candidates, ids)
  }

  lemma HeaderRoundTrip(clock: Clock, id: string, h: Header)
    requires Parses(clock, h.lastUpdate) && PeriodParses(clock, h.validFor)
    ensures HeaderOut(HeaderIn(clock, id, h)) == CanonicalHeader(clock, h.(id := Some(id)))
  {
  }

  lemma RelationshipsRoundTrip(clock: Clock, rs: seq<Relationship>)
    requires forall i | 0 <= i < |rs| :: PeriodParses(clock, rs[i].validFor)
    ensures RelationshipsOut(Map(r => RelationshipIn(clock, r), rs))
            == Map((r: Relationship) => r.(validFor := CanonicalPeriod(clock, r.validFor)), rs)
  {
    forall i | 0 <= i < |rs|
      ensures RelationshipOut(RelationshipIn(clock, rs[i])) == rs[i].(validFor := CanonicalPeriod(clock, rs[i].validFor))
    {
      assert PeriodParses(clock, rs[i].validFor);
    }
  }

  lemma CandidatesLast(list: string, rs: seq<LooseRef>)
    requires rs != []
    ensures CandidatesIn(list, rs) == CandidatesIn(list, rs[..|rs| - 1]) + [CandidateIn(list, rs[|rs| - 1])]
  {
  }

  lemma {:induction false} AddResources(l: Lists, rs: seq<LooseRef>)
    ensures AddCandidates(l, CandidatesIn(RESOURCE, rs)) == l.(resources := l.resources + rs)
  {
    if rs != [] {
      var front, last := rs[..|rs| - 1], rs[|rs| - 1];
      AddResources(l, front);
      CandidatesLast(RESOURCE, rs);
      assert rs == front + [last];
    }
  }

  lemma {:induction false} AddServices(l: Lists, rows: seq<CandidateRow>, rs: seq<LooseRef>)
    ensures AddCandidates(l, rows + CandidatesIn(SERVICE, rs))
            == var before := AddCandidates(l, rows); before.(services := before.services + rs)
  {
    if rs == [] {
      assert rows + CandidatesIn(SERVICE, rs) == rows;
    } else {
      var front, last := rs[..|rs| - 1], rs[|rs| - 1];
      AddServices(l, rows, front);
      CandidatesLast(SERVICE, rs);
      assert rows + CandidatesIn(SERVICE, rs) == (rows + CandidatesIn(SERVICE, front)) + [CandidateIn(SERVICE, last)];
      assert rs == front + [last];
    }
  }

  lemma CandidatesAre(t: Tables, id: string, l: Lists)
    ensures t.candidates + Rows(id, ResourceRows(l), 0) + Rows(id, ServiceRows(l), |l.resources|)
            == t.candidates + Rows(id, ResourceRows(l) + ServiceRows(l), 0)
  {
  }

  /** All lists come back in posted order, the two kinds of candidates apart. */
  lemma ListsRoundTrip(clock: Clock, t: Tables, id: string, l: Lists, other: string)
    requires TablesSound(t) && id !in t.headers
    requires forall i | 0 <= i < |l.relationships| :: PeriodParses(clock, l.relationships[i].validFor)
    ensures LoadLists(WithLists(clock, t, id, l), other)
            == if other == id then CanonicalLists(clock, l) else LoadLists(t, other)
  {
    var ids := t.headers.Keys;
    SoundInsert(t.bundled, ids, id, l.bundled);
    SoundInsert(t.relationships, ids, id, Map(r => RelationshipIn(clock, r), l.relationships));
    SoundInsert(t.parties, ids, id, l.parties);
    CandidatesAre(t, id, l);
    SoundInsert(t.candidates, ids, id, ResourceRows(l) + ServiceRows(l));
    RelationshipsRoundTrip(clock, l.relationships);
    var rest := Lists(l.bundled, RelationshipsOut(Map(r => RelationshipIn(clock, r), l.relationships)),
                      l.parties, [], []);
    AddResources(rest, l.resources);
    AddServices(rest, ResourceRows(l), l.services);
  }
}
