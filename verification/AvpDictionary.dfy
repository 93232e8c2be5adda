/**
  The AVP name table: names resolved from the summary tables and from prose, one name per code, a sorted table,
  and the binary search that reads it.
 */
module AvpDictionary {
  import opened Wrappers

  // A name or a code of a vendor.
  datatype Name = Name(vendor: nat, text: string)

  datatype Code = Code(vendor: nat, number: nat)

  // All codes the source gives for a name.
  type Citations = map<Name, set<nat>>

  // ---- What resolution means ----------------------------------------------------------------------

  /** The summary tables win; prose supplies names the tables do not settle, when it cites one code only. */
  predicate Resolves(table: Citations, prose: Citations, n: Name, c: nat) {
    if n in table && |table[n]| == 1 then c in table[n]
    else n in prose && |prose[n]| == 1 && c in prose[n]
  }

  ghost predicate IsResolved(table: Citations, prose: Citations, resolved: map<Name, nat>) {
    && (forall n | n in resolved :: Resolves(table, prose, n, resolved[n]))
    && (forall n, c | Resolves(table, prose, n, c) :: n in resolved && resolved[n] == c)
  }

  // The names that share a code.
  predicate IsByCode(resolved: map<Name, nat>, byCode: map<Code, set<string>>) {
    && (forall n | n in resolved :: Code(n.vendor, resolved[n]) in byCode && n.text in byCode[Code(n.vendor, resolved[n])])
    && (forall k | k in byCode :: byCode[k] != {})
    && (forall k | k in byCode :: forall t | t in byCode[k] ::
          Name(k.vendor, t) in resolved && resolved[Name(k.vendor, t)] == k.number)
  }

  predicate FromTable(table: Citations, k: Code, t: string) {
    Name(k.vendor, t) in table && k.number in table[Name(k.vendor, t)]
  }

  /** The name a code keeps: its only one, or the only one of several that a summary table spells. */
  predicate Keeps(table: Citations, names: set<string>, k: Code, t: string) {
    && t in names
    && (|names| == 1 || (FromTable(table, k, t) && forall u | u in names && FromTable(table, k, u) :: u == t))
  }

  // No table name has several codes, and every code keeps a name.
  predicate NoConflict(table: Citations, byCode: map<Code, set<string>>, final: map<Code, string>) {
    (forall n | n in table :: |table[n]| <= 1) && forall k | k in byCode :: k in final
  }

  predicate IsFinal(table: Citations, byCode: map<Code, set<string>>, final: map<Code, string>) {
    && (forall k | k in final :: k in byCode && Keeps(table, byCode[k], k, final[k]))
    && (forall k | k in byCode && k !in final :: forall t | t in byCode[k] :: !Keeps(table, byCode[k], k, t))
  }

  // ---- The loops ----------------------------------------------------------------------------------

  lemma Only<T>(s: set<T>, a: T, b: T)
    requires |s| == 1 && a in s && b in s
    ensures a == b
  {
    assert |s - {a}| == 0;
    assert b in s - {a} || b == a;
  }

  method ResolveTable(table: Citations) returns (resolved: map<Name, nat>)
    ensures forall n :: n in resolved <==> n in table && |table[n]| == 1
    ensures forall n | n in resolved :: resolved[n] in table[n]
  {
    resolved := map[];
    var rest := table.Keys;
    while rest != {}
      invariant rest <= table.Keys
      invariant forall n :: n in resolved <==> n in table && n !in rest && |table[n]| == 1
      invariant forall n | n in resolved :: resolved[n] in table[n]
    {
      var n :| n in rest;
      rest := rest - {n};
      if |table[n]| == 1 {
        var c :| c in table[n];
        resolved := resolved[n := c];
      }
    }
  }

  method Resolve(table: Citations, prose: Citations) returns (resolved: map<Name, nat>)
    ensures IsResolved(table, prose, resolved)
  {
    var settled := ResolveTable(table);
    resolved := settled;
    var rest := prose.Keys;
    while rest != {}
      invariant rest <= prose.Keys
      invariant forall n :: n in resolved <==> n in settled || (n in prose && n !in rest && |prose[n]| == 1)
      invariant forall n | n in resolved :: resolved[n] in if n in settled then table[n] else prose[n]
    {
      var n :| n in rest;
      rest := rest - {n};
      if |prose[n]| == 1 && n !in resolved {
        var c :| c in prose[n];
        resolved := resolved[n := c];
      }
    }
    forall n, c | Resolves(table, prose, n, c) ensures n in resolved && resolved[n] == c {
      Only(if n in settled then table[n] else prose[n], resolved[n], c);
    }
  }

  method GroupByCode(resolved: map<Name, nat>) returns (byCode: map<Code, set<string>>)
    ensures IsByCode(resolved, byCode)
  {
    byCode := map[];
    var rest := resolved.Keys;
    ghost var seen := map[];
    while rest != {}
      invariant rest <= resolved.Keys
      invariant seen == map n | n in resolved && n !in rest :: resolved[n]
      invariant IsByCode(seen, byCode)
    {
      var n :| n in rest;
      rest := rest - {n};
      var k := Code(n.vendor, resolved[n]);
      byCode := byCode[k := (if k in byCode then byCode[k] else {}) + {n.text}];
      seen := seen[n := resolved[n]];
    }
    assert seen == resolved;
  }

  lemma KeptIsOnly(table: Citations, names: set<string>, k: Code, t: string)
    requires |names| != 1
    ensures Keeps(table, names, k, t) ==> |set u | u in names && FromTable(table, k, u)| == 1
  {
    if Keeps(table, names, k, t) {
      assert (set u | u in names && FromTable(table, k, u)) == {t};
    }
  }

  // The name a code keeps, when it keeps one.
  method Keep(table: Citations, names: set<string>, k: Code) returns (kept: Option<string>)
    requires names != {}
    ensures kept.Some? ==> Keeps(table, names, k, kept.value)
    ensures kept.None? ==> forall t | t in names :: !Keeps(table, names, k, t)
  {
    if |names| == 1 {
      var t :| t in names;
      return Some(t);
    }
    var fromTable := set t | t in names && FromTable(table, k, t);
    if |fromTable| == 1 {
      var t :| t in fromTable;
      forall u | u in names && FromTable(table, k, u) ensures u == t {
        Only(fromTable, u, t);
      }
      return Some(t);
    }
    forall t | t in names ensures Keeps(table, names, k, t) ==> |fromTable| == 1 {
      KeptIsOnly(table, names, k, t);
    }
    return None;
  }

  method Decide(table: Citations, byCode: map<Code, set<string>>) returns (final: map<Code, string>)
    requires forall k | k in byCode :: byCode[k] != {}
    ensures IsFinal(table, byCode, final)
  {
    final := map[];
    var rest := byCode.Keys;
    while rest != {}
      invariant rest <= byCode.Keys
      invariant forall k | k in final :: k in byCode && k !in rest && Keeps(table, byCode[k], k, final[k])
      invariant forall k | k in byCode && k !in rest && k !in final :: forall t | t in byCode[k] :: !Keeps(table, byCode[k], k, t)
    {
      var k :| k in rest;
      rest := rest - {k};
      var kept := Keep(table, byCode[k], k);
      if kept.Some? {
        final := final[k := kept.value];
      }
    }
  }

  // ---- What is emitted ----------------------------------------------------------------------------

  datatype Row = Row(key: Code, name: string)

  predicate Less(a: Code, b: Code) { a.vendor < b.vendor || (a.vendor == b.vendor && a.number < b.number) }

  predicate StrictlySorted(rows: seq<Row>) { forall i, j | 0 <= i < j < |rows| :: Less(rows[i].key, rows[j].key) }

  predicate IsTable(rows: seq<Row>, final: map<Code, string>) {
    && StrictlySorted(rows)
    && (forall i | 0 <= i < |rows| :: rows[i].key in final && final[rows[i].key] == rows[i].name)
    && (forall k | k in final :: Row(k, final[k]) in rows)
  }

  /** The source settles this code for this name. */
  predicate Claims(table: Citations, prose: Citations, k: Code, t: string) {
    Resolves(table, prose, Name(k.vendor, t), k.number)
  }

  /** The name has the code to itself, or alone among the names that claim it and that a summary table spells. */
  ghost predicate Kept(table: Citations, prose: Citations, k: Code, t: string) {
    && Claims(table, prose, k, t)
    && ((forall u | Claims(table, prose, k, u) :: u == t)
        || (FromTable(table, k, t) && forall u | Claims(table, prose, k, u) && FromTable(table, k, u) :: u == t))
  }

  /** No summary table lists several codes for a name, and every claimed code keeps a name. */
  ghost predicate Emittable(table: Citations, prose: Citations) {
    && (forall n | n in table :: |table[n]| <= 1)
    && forall k, t | Claims(table, prose, k, t) :: exists u :: Kept(table, prose, k, u)
  }

  /** Sorted, and exactly the names that are kept, each with its code. */
  ghost predicate IsEmitted(table: Citations, prose: Citations, rows: seq<Row>) {
    StrictlySorted(rows) && forall k, t :: Row(k, t) in rows <==> Kept(table, prose, k, t)
  }

  lemma KeptByCode(table: Citations, prose: Citations, resolved: map<Name, nat>, byCode: map<Code, set<string>>,
                   k: Code, t: string)
    requires IsResolved(table, prose, resolved) && IsByCode(resolved, byCode)
    ensures Kept(table, prose, k, t) <==> k in byCode && Keeps(table, byCode[k], k, t)
  {
    forall u ensures Claims(table, prose, k, u) <==> k in byCode && u in byCode[k] {
    }
    if k in byCode && t in byCode[k] {
      OneName(byCode[k], t);
    }
  }

  lemma OneName(names: set<string>, t: string)
    requires t in names
    ensures |names| == 1 <==> forall u | u in names :: u == t
  {
    if |names| == 1 {
      forall u | u in names ensures u == t {
        Only(names, u, t);
      }
    }
    if forall u | u in names :: u == t {
      assert names == {t};
    }
  }

  lemma FinalIsKept(table: Citations, prose: Citations, resolved: map<Name, nat>, byCode: map<Code, set<string>>,
                    final: map<Code, string>, k: Code, t: string)
    requires IsResolved(table, prose, resolved) && IsByCode(resolved, byCode) && IsFinal(table, byCode, final)
    ensures Kept(table, prose, k, t) <==> k in final && final[k] == t
  {
    KeptByCode(table, prose, resolved, byCode, k, t);
    if k in final {
      KeptByCode(table, prose, resolved, byCode, k, final[k]);
    }
  }

  lemma EmittableFinal(table: Citations, prose: Citations, resolved: map<Name, nat>, byCode: map<Code, set<string>>,
                       final: map<Code, string>)
    requires IsResolved(table, prose, resolved) && IsByCode(resolved, byCode) && IsFinal(table, byCode, final)
    ensures NoConflict(table, byCode, final) <==> Emittable(table, prose)
  {
    forall k, t ensures Kept(table, prose, k, t) <==> k in final && final[k] == t {
      FinalIsKept(table, prose, resolved, byCode, final, k, t);
    }
    forall k, t ensures Claims(table, prose, k, t) <==> k in byCode && t in byCode[k] {
    }
    if NoConflict(table, byCode, final) {
      forall k, t | Claims(table, prose, k, t) ensures exists u :: Kept(table, prose, k, u) {
        assert Kept(table, prose, k, final[k]);
      }
    }
    if Emittable(table, prose) {
      forall k | k in byCode ensures k in final {
        var t :| t in byCode[k];
        assert Claims(table, prose, k, t);
        var u :| Kept(table, prose, k, u);
      }
    }
  }

  lemma EmittedFinal(table: Citations, prose: Citations, resolved: map<Name, nat>, byCode: map<Code, set<string>>,
                     final: map<Code, string>, rows: seq<Row>)
    requires IsResolved(table, prose, resolved) && IsByCode(resolved, byCode) && IsFinal(table, byCode, final)
    requires IsTable(rows, final)
    ensures IsEmitted(table, prose, rows)
  {
    forall k, t ensures Row(k, t) in rows <==> Kept(table, prose, k, t) {
      FinalIsKept(table, prose, resolved, byCode, final, k, t);
    }
  }

  /** A table is emitted exactly when there is no conflict to report, and then lists what is kept. */
  method BuildTable(table: Citations, prose: Citations) returns (rows: Option<seq<Row>>)
    ensures rows.Some? <==> Emittable(table, prose)
    ensures rows.Some? ==> IsEmitted(table, prose, rows.value)
  {
    var resolved := Resolve(table, prose);
    var byCode := GroupByCode(resolved);
    var final := Decide(table, byCode);
    EmittableFinal(table, prose, resolved, byCode, final);
    if (exists n | n in table :: |table[n]| > 1) || exists k | k in byCode :: k !in final {
      return None;
    }
    var sorted := SortRows(final);
    EmittedFinal(table, prose, resolved, byCode, final, sorted);
    rows := Some(sorted);
  }

  /** No vendor's name occurs twice in the table. */
  lemma NamesUnique(table: Citations, prose: Citations, rows: seq<Row>, i: nat, j: nat)
    requires IsEmitted(table, prose, rows) && i < |rows| && j < |rows|
    requires rows[i].key.vendor == rows[j].key.vendor && rows[i].name == rows[j].name
    ensures i == j
  {
    var a, b, n := rows[i].key, rows[j].key, Name(rows[i].key.vendor, rows[i].name);
    assert Row(a, rows[i].name) in rows && Row(b, rows[j].name) in rows;
    assert Resolves(table, prose, n, a.number) && Resolves(table, prose, n, b.number);
    Only(if n in table && |table[n]| == 1 then table[n] else prose[n], a.number, b.number);
  }

  /** Every name of a summary table is emitted, with the code that table gives it. */
  lemma TableNamesKept(table: Citations, prose: Citations, rows: seq<Row>, n: Name, c: nat)
    requires Emittable(table, prose) && IsEmitted(table, prose, rows)
    requires n in table && c in table[n]
    ensures Row(Code(n.vendor, c), n.text) in rows
  {
    var k := Code(n.vendor, c);
    assert table[n] != {} && |table[n]| == 1;
    assert Claims(table, prose, k, n.text) && FromTable(table, k, n.text);
    var u :| Kept(table, prose, k, u);
    assert u == n.text;
  }

  // ---- Sorting and searching ----------------------------------------------------------------------

  method SortRows(final: map<Code, string>) returns (rows: seq<Row>)
    ensures IsTable(rows, final)
  {
    rows := [];
    var rest := final.Keys;
    while rest != {}
      invariant rest <= final.Keys && StrictlySorted(rows)
      invariant forall x | x in rows :: x.key in final && x.key !in rest && final[x.key] == x.name
      invariant forall k | k in final && k !in rest :: Row(k, final[k]) in rows
    {
      var k :| k in rest;
      rest := rest - {k};
      var at := LowerBound(rows, k);
      rows := rows[..at] + [Row(k, final[k])] + rows[at..];
    }
  }

  /** The first row that is not below a key, by halving. */
  method LowerBound(rows: seq<Row>, key: Code) returns (at: nat)
    requires StrictlySorted(rows)
    ensures at <= |rows|
    ensures forall i | 0 <= i < at :: Less(rows[i].key, key)
    ensures forall i | at <= i < |rows| :: !Less(rows[i].key, key)
  {
    var lo, hi := 0, |rows|;
    while lo < hi
      invariant 0 <= lo <= hi <= |rows|
      invariant forall i | 0 <= i < lo :: Less(rows[i].key, key)
      invariant forall i | hi <= i < |rows| :: !Less(rows[i].key, key)
    {
      var mid := lo + (hi - lo) / 2;
      if Less(rows[mid].key, key) {
        lo := mid + 1;
      } else {
        hi := mid;
      }
    }
    at := lo;
  }

  /** The lookup finds exactly the name in the table, and nothing for any other code. */
  method AvpName(rows: seq<Row>, vendor: nat, number: nat) returns (name: string)
    requires StrictlySorted(rows)
    ensures forall i | 0 <= i < |rows| && rows[i].key == Code(vendor, number) :: name == rows[i].name
    ensures (forall i | 0 <= i < |rows| :: rows[i].key != Code(vendor, number)) ==> name == ""
  {
    var key := Code(vendor, number);
    var at := LowerBound(rows, key);
    if at == |rows| || rows[at].key != key {
      return "";
    }
    forall i | 0 <= i < |rows| ensures rows[i].key == key <==> i == at {
    }
    return rows[at].name;
  }
}
