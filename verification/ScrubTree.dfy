/** Scrubbing and masking a JSON document: strings anywhere in the tree, and values at configured paths. */
module ScrubTree {
  import opened Wrappers
  import opened ScrubText
  import opened ScrubComplete

  datatype Json = Text(s: string) | Array(items: seq<Json>) | Object(fields: seq<Field>) | Other(token: string)

  datatype Field = Field(key: string, value: Json)

  // ---- One string ---------------------------------------------------------------------------------

  // The string after the passes for the secrets, None when one of them never ends.
  function Passes(s: string, secrets: seq<string>): Option<string>
    decreases |secrets|
  {
    if secrets == [] then Some(s)
    else if secrets[0] == "" then Passes(s, secrets[1..])
    else if Contains(s, secrets[0]) && Contains(GONE, secrets[0]) then None
    else Passes(Clean(GONE, s, secrets[0]), secrets[1..])
  }

  predicate Ends(s: string, secrets: seq<string>) { Passes(s, secrets).Some? }

  function WithoutIdentifiers(s: string, ids: seq<string>): string
    decreases |ids|
  {
    if ids == [] then s
    else WithoutIdentifiers(if |ids[0]| <= SHOWN then s else Masked(s, ids[0], 0), ids[1..])
  }

  function ScrubbedText(s: string, ids: seq<string>, secrets: seq<string>): string
    requires Ends(s, secrets)
  {
    WithoutIdentifiers(Passes(s, secrets).value, ids)
  }

  /** Secrets first, then identifiers of at least five characters. */
  method ScrubString(text: string, ids: seq<string>, secrets: seq<string>) returns (s: string)
    requires Ends(text, secrets)
    ensures s == ScrubbedText(text, ids, secrets)
  {
    s := text;
    for i := 0 to |secrets|
      invariant Passes(text, secrets) == Passes(s, secrets[i..])
    {
      assert secrets[i..][0] == secrets[i] && secrets[i..][1..] == secrets[i + 1..];
      if secrets[i] != "" {
        s := ReplaceSecret(GONE, s, secrets[i]);
      }
    }
    ghost var clean := s;
    for i := 0 to |ids|
      invariant WithoutIdentifiers(clean, ids) == WithoutIdentifiers(s, ids[i..])
    {
      assert ids[i..][0] == ids[i] && ids[i..][1..] == ids[i + 1..];
      if |ids[i]| >= 5 {
        s := ReplaceIdentifier(s, ids[i]);
      }
    }
  }

  // ---- When the passes end ------------------------------------------------------------------------

  // The nested loops over the secrets: those still to come, the first of them in progress at a place.
  datatype Work = Work(rest: seq<string>, at: Place)

  function Round(w: Work): Option<Work> {
    if w.rest == [] then None
    else
      match if w.rest[0] == "" then None else Next(GONE, w.rest[0], w.at)
      case None => Some(Work(w.rest[1..], Place(w.at.s, 0)))
      case Some(t) => Some(Work(w.rest, t))
  }

  predicate DoneAfter(w: Work, n: nat) { Rounds(Round, w, n).None? }

  predicate WillEnd(w: Work) {
    if w.rest == [] then true
    else
      match if w.rest[0] == "" then None else Next(GONE, w.rest[0], w.at)
      case None => Ends(w.at.s, w.rest[1..])
      case Some(t) =>
        !Contains(GONE, w.rest[0]) && OccursAt(t.s, GONE, t.p) && Ends(Cleaned(GONE, w.rest[0], t), w.rest[1..])
  }

  lemma StartsAs(s: string, secrets: seq<string>)
    ensures WillEnd(Work(secrets, Place(s, 0))) <==> Ends(s, secrets)
  {
    if secrets != [] && secrets[0] != "" {
      NextFirst(GONE, secrets[0], s);
    }
  }

  // Whether the work will end does not change with a round.
  lemma RoundAgrees(w: Work)
    requires w.rest != []
    ensures WillEnd(w) <==> WillEnd(Round(w).value)
  {
    if w.rest[0] != "" && Next(GONE, w.rest[0], w.at).Some? {
      var t := Next(GONE, w.rest[0], w.at).value;
      if Contains(GONE, w.rest[0]) {
        NextKeeps(GONE, w.rest[0], t);
      } else {
        NextShrinks(GONE, w.rest[0], t);
      }
    } else {
      StartsAs(w.at.s, w.rest[1..]);
    }
  }

  lemma {:induction false} DoneWillEnd(w: Work, n: nat)
    requires DoneAfter(w, n)
    ensures WillEnd(w)
    decreases n
  {
    if w.rest != [] {
      RoundAgrees(w);
      DoneWillEnd(Round(w).value, n - 1);
    }
  }

  // What is left to search in the pass in progress.
  function ToSearch(w: Work): nat { |w.at.s| + 1 - if w.at.p <= |w.at.s| then w.at.p else |w.at.s| }

  lemma {:induction false} PassIsDone(w: Work) returns (n: nat)
    requires WillEnd(w)
    ensures DoneAfter(w, n)
    decreases |w.rest|, !OccursAt(w.at.s, GONE, w.at.p), ToSearch(w)
  {
    if w.rest == [] {
      return 1;
    }
    RoundAgrees(w);
    var v := Round(w).value;
    if v.rest == w.rest {
      if OccursAt(w.at.s, GONE, w.at.p) {
        NextShrinks(GONE, w.rest[0], w.at);
      }
    }
    n := PassIsDone(v);
    n := n + 1;
  }

  /** The loops over all secrets end on a string exactly when no pass finds a secret that is part of the replacement. */
  lemma EndsExactly(s: string, secrets: seq<string>)
    ensures (exists n: nat :: DoneAfter(Work(secrets, Place(s, 0)), n)) <==> Ends(s, secrets)
  {
    StartsAs(s, secrets);
    if Ends(s, secrets) {
      var n := PassIsDone(Work(secrets, Place(s, 0)));
    } else {
      forall n: nat ensures !DoneAfter(Work(secrets, Place(s, 0)), n) {
        if DoneAfter(Work(secrets, Place(s, 0)), n) {
          DoneWillEnd(Work(secrets, Place(s, 0)), n);
        }
      }
    }
  }

  /** Secrets that are no part of the replacement text never keep the loops going. */
  lemma {:induction false} HarmlessEnd(s: string, secrets: seq<string>)
    requires forall i | 0 <= i < |secrets| :: secrets[i] == "" || !Contains(GONE, secrets[i])
    ensures Ends(s, secrets)
    decreases |secrets|
  {
    if secrets != [] {
      HarmlessEnd(if secrets[0] == "" then s else Clean(GONE, s, secrets[0]), secrets[1..]);
    }
  }

  // ---- What is left of the secrets ----------------------------------------------------------------

  // Texts that no replacement and no mask can bring back.
  predicate Removable(secret: string) { secret != "" && !Overlaps(GONE, secret) && Without(secret, STAR) }

  predicate Maskable(id: string) { |id| > SHOWN && Without(id, STAR) }

  lemma {:induction false} SecretStaysOut(s: string, secrets: seq<string>, x: string)
    requires Ends(s, secrets) && !Overlaps(GONE, x) && !Contains(s, x)
    ensures !Contains(Passes(s, secrets).value, x)
    decreases |secrets|
  {
    if secrets == [] {
    } else if secrets[0] == "" {
      SecretStaysOut(s, secrets[1..], x);
    } else {
      CleanKeepsOut(GONE, s, secrets[0], x);
      SecretStaysOut(Clean(GONE, s, secrets[0]), secrets[1..], x);
    }
  }

  lemma {:induction false} SecretGone(s: string, secrets: seq<string>, x: string)
    requires Ends(s, secrets) && x in secrets && x != "" && !Overlaps(GONE, x)
    ensures !Contains(Passes(s, secrets).value, x)
    decreases |secrets|
  {
    if secrets[0] == "" {
      SecretGone(s, secrets[1..], x);
    } else if secrets[0] == x {
      assert !Rebuildable(GONE, x) by {
        if Rebuildable(GONE, x) {
          RebuiltOverlaps(GONE, x);
        }
      }
      CleanRemoves(GONE, s, x);
      SecretStaysOut(Clean(GONE, s, x), secrets[1..], x);
    } else {
      SecretGone(Clean(GONE, s, secrets[0]), secrets[1..], x);
    }
  }

  lemma {:induction false} StaysOut(s: string, ids: seq<string>, x: string)
    requires Without(x, STAR) && !Contains(s, x)
    ensures !Contains(WithoutIdentifiers(s, ids), x)
    decreases |ids|
  {
    if ids != [] {
      if |ids[0]| > SHOWN {
        MaskedKeepsOut(s, ids[0], 0, x);
      }
      StaysOut(if |ids[0]| <= SHOWN then s else Masked(s, ids[0], 0), ids[1..], x);
    }
  }

  lemma {:induction false} IdentifierGone(s: string, ids: seq<string>, x: string)
    requires x in ids && Maskable(x)
    ensures !Contains(WithoutIdentifiers(s, ids), x)
    decreases |ids|
  {
    var t := if |ids[0]| <= SHOWN then s else Masked(s, ids[0], 0);
    if ids[0] == x {
      MaskedRemoves(s, x, 0);
      StaysOut(t, ids[1..], x);
    } else {
      IdentifierGone(t, ids[1..], x);
    }
  }

  // No listed secret and no listed identifier, of those that can be removed for good.
  predicate Spotless(s: string, ids: seq<string>, secrets: seq<string>) {
    && (forall x | x in secrets && Removable(x) :: !Contains(s, x))
    && (forall x | x in ids && Maskable(x) :: !Contains(s, x))
  }

  /** A scrubbed string holds none of them: later passes never bring back what earlier ones removed. */
  lemma ScrubbedIsSpotless(s: string, ids: seq<string>, secrets: seq<string>)
    requires Ends(s, secrets)
    ensures Spotless(ScrubbedText(s, ids, secrets), ids, secrets)
  {
    var clean := Passes(s, secrets).value;
    forall x | x in secrets && Removable(x) ensures !Contains(ScrubbedText(s, ids, secrets), x) {
      SecretGone(s, secrets, x);
      StaysOut(clean, ids, x);
    }
    forall x | x in ids && Maskable(x) ensures !Contains(ScrubbedText(s, ids, secrets), x) {
      IdentifierGone(clean, ids, x);
    }
  }

  predicate SecretSurvives(s: string, ids: seq<string>, secrets: seq<string>, x: string) {
    x in secrets && Ends(s, secrets) && Contains(ScrubbedText(s, ids, secrets), x)
  }

  predicate IdentifierSurvives(s: string, ids: seq<string>, secrets: seq<string>, x: string) {
    x in ids && Ends(s, secrets) && Contains(ScrubbedText(s, ids, secrets), x)
  }

  lemma SecretBroughtBack(x: string, s: string, other: string)
    requires x != "" && BringsBack(GONE, s, other, x)
    ensures SecretSurvives(s, [], [x, other], x)
  {
    NextFirst(GONE, x, s);
    assert [x, other][1..] == [other] && [other][1..] == [];
    assert Passes(Clean(GONE, s, other), []) == Some(Clean(GONE, s, other));
    assert other != "" by {
      if other == "" {
        assert OccursAt(GONE, other, 0);
      }
    }
    assert Passes(s, [other]) == Some(Clean(GONE, s, other));
  }

  lemma SecretStarred(x: string, s: string, id: string)
    requires x != "" && MaskBringsBack(s, id, x)
    ensures SecretSurvives(s, [id], [x], x)
  {
    NextFirst(GONE, x, s);
    assert [x][1..] == [] && [id][1..] == [];
    assert Passes(s, []) == Some(s);
    assert WithoutIdentifiers(Masked(s, id, 0), []) == Masked(s, id, 0);
  }

  lemma IdentifierStarred(x: string, s: string, id: string)
    requires |x| > SHOWN && MaskBringsBack(s, id, x)
    ensures IdentifierSurvives(s, [x, id], [], x)
  {
    FindSpec(s, x, 0);
    assert [x, id][1..] == [id] && [id][1..] == [];
    assert WithoutIdentifiers(Masked(s, id, 0), []) == Masked(s, id, 0);
    assert WithoutIdentifiers(s, [id]) == Masked(s, id, 0);
  }

  lemma ShortSurvives(x: string)
    requires |x| <= SHOWN
    ensures IdentifierSurvives(x, [x], [], x)
  {
    assert OccursAt(x, x, 0);
    assert WithoutIdentifiers(x, [x][1..]) == x;
  }

  ghost predicate SecretAlwaysGone(x: string) { forall s, ids, secrets :: !SecretSurvives(s, ids, secrets, x) }

  ghost predicate IdentifierAlwaysGone(x: string) { forall s, ids, secrets :: !IdentifierSurvives(s, ids, secrets, x) }

  /**
    A listed secret is removed by every scrub, whatever else is listed, exactly when it has no star and cannot lie
    across the replacement; left open for texts in which every character there is occurs.
   */
  lemma SecretExactly(x: string)
    requires x != ""
    ensures Removable(x) ==> SecretAlwaysGone(x)
    ensures SecretAlwaysGone(x) ==> Removable(x) || !Spares(x)
  {
    if Removable(x) {
      forall s, ids, secrets ensures !SecretSurvives(s, ids, secrets, x) {
        if x in secrets && Ends(s, secrets) {
          ScrubbedIsSpotless(s, ids, secrets);
        }
      }
    } else if Overlaps(GONE, x) {
      BroughtBackExactly(GONE, x);
      var s, other :| BringsBack(GONE, s, other, x);
      SecretBroughtBack(x, s, other);
    } else if Spares(x) {
      StarsExactly(x);
      var s, id :| MaskBringsBack(s, id, x);
      SecretStarred(x, s, id);
    }
  }

  /** A listed identifier is masked by every scrub exactly when it has five characters or more and no star. */
  lemma IdentifierExactly(x: string)
    ensures Maskable(x) ==> IdentifierAlwaysGone(x)
    ensures IdentifierAlwaysGone(x) ==> Maskable(x) || !Spares(x)
  {
    if Maskable(x) {
      forall s, ids, secrets ensures !IdentifierSurvives(s, ids, secrets, x) {
        if x in ids && Ends(s, secrets) {
          ScrubbedIsSpotless(s, ids, secrets);
        }
      }
    } else if |x| <= SHOWN {
      ShortSurvives(x);
    } else if Spares(x) {
      StarsExactly(x);
      var s, id :| MaskBringsBack(s, id, x);
      IdentifierStarred(x, s, id);
    }
  }

  // A string in which nothing listed occurs.
  predicate Untouched(s: string, ids: seq<string>, secrets: seq<string>) {
    && (forall x | x in secrets && x != "" :: !Contains(s, x))
    && (forall x | x in ids && |x| > SHOWN :: !Contains(s, x))
  }

  lemma {:induction false} NoSecretNoChange(s: string, secrets: seq<string>)
    requires Untouched(s, [], secrets)
    ensures Passes(s, secrets) == Some(s)
  {
    if secrets != [] {
      NoSecretNoChange(s, secrets[1..]);
      NextFirst(GONE, secrets[0], s);
      assert secrets[0] in secrets;
    }
  }

  lemma {:induction false} NoIdentifierNoChange(s: string, ids: seq<string>)
    requires Untouched(s, ids, [])
    ensures WithoutIdentifiers(s, ids) == s
  {
    if ids != [] {
      NoIdentifierNoChange(s, ids[1..]);
      FindSpec(s, ids[0], 0);
      assert ids[0] in ids;
    }
  }

  lemma UntouchedStays(s: string, ids: seq<string>, secrets: seq<string>)
    requires Untouched(s, ids, secrets)
    ensures Ends(s, secrets) && ScrubbedText(s, ids, secrets) == s
  {
    NoSecretNoChange(s, secrets);
    NoIdentifierNoChange(s, ids);
  }

  /** Strings without anything listed stay as they are, so scrubbing twice does no more than scrubbing once. */
  lemma ScrubTwice(s: string, ids: seq<string>, secrets: seq<string>)
    requires Ends(s, secrets)
    ensures Untouched(s, ids, secrets) ==> ScrubbedText(s, ids, secrets) == s
    ensures var once := ScrubbedText(s, ids, secrets);
            (forall x | x in secrets && x != "" :: Removable(x)) && (forall x | x in ids && |x| > SHOWN :: Maskable(x)) ==>
              Ends(once, secrets) && ScrubbedText(once, ids, secrets) == once
  {
    var once := ScrubbedText(s, ids, secrets);
    ScrubbedIsSpotless(s, ids, secrets);
    if Untouched(s, ids, secrets) {
      UntouchedStays(s, ids, secrets);
    }
    if Untouched(once, ids, secrets) {
      UntouchedStays(once, ids, secrets);
    }
  }

  // ---- The tree -----------------------------------------------------------------------------------

  /** Every string value of a document; keys are not touched. */
  predicate AllTexts(node: Json, p: string -> bool) {
    match node
    case Text(s) => p(s)
    case Array(items) => forall i | 0 <= i < |items| :: AllTexts(items[i], p)
    case Object(fields) => forall i | 0 <= i < |fields| :: AllTexts(fields[i].value, p)
    case Other(_) => true
  }

  // The loops end on every string of the document.
  predicate TreeEnds(node: Json, secrets: seq<string>) { AllTexts(node, s => Ends(s, secrets)) }

  function Scrubbed(node: Json, ids: seq<string>, secrets: seq<string>): Json
    requires TreeEnds(node, secrets)
  {
    match node
    case Text(s) => Text(ScrubbedText(s, ids, secrets))
    case Array(items) =>
      Array(seq(|items|, i requires 0 <= i < |items| => Scrubbed(items[i], ids, secrets)))
    case Object(fields) =>
      Object(seq(|fields|, i requires 0 <= i < |fields| => Field(fields[i].key, Scrubbed(fields[i].value, ids, secrets))))
    case Other(_) => node
  }

  /** No string value of a scrubbed document holds a listed secret or identifier. */
  lemma {:induction false} ScrubbedTreeIsSpotless(node: Json, ids: seq<string>, secrets: seq<string>)
    requires TreeEnds(node, secrets)
    ensures AllTexts(Scrubbed(node, ids, secrets), s => Spotless(s, ids, secrets))
  {
    match node
    case Text(s) => ScrubbedIsSpotless(s, ids, secrets);
    case Array(items) =>
      forall i | 0 <= i < |items| ensures AllTexts(Scrubbed(items[i], ids, secrets), s => Spotless(s, ids, secrets)) {
        ScrubbedTreeIsSpotless(items[i], ids, secrets);
      }
    case Object(fields) =>
      forall i | 0 <= i < |fields|
        ensures AllTexts(Scrubbed(fields[i].value, ids, secrets), s => Spotless(s, ids, secrets))
      {
        ScrubbedTreeIsSpotless(fields[i].value, ids, secrets);
      }
    case Other(_) =>
  }

  /** The walk over the document. */
  method ScrubNode(node: Json, ids: seq<string>, secrets: seq<string>) returns (out: Json)
    requires TreeEnds(node, secrets)
    ensures out == Scrubbed(node, ids, secrets)
  {
    match node {
      case Text(s) =>
        var t := ScrubString(s, ids, secrets);
        out := Text(t);
      case Array(items) =>
        var done: seq<Json> := [];
        for i := 0 to |items|
          invariant |done| == i && forall j | 0 <= j < i :: done[j] == Scrubbed(items[j], ids, secrets)
        {
          var el := ScrubNode(items[i], ids, secrets);
          done := done + [el];
        }
        assert done == Scrubbed(node, ids, secrets).items;
        out := Array(done);
      case Object(fields) =>
        var done: seq<Field> := [];
        for i := 0 to |fields|
          invariant |done| == i
          invariant forall j | 0 <= j < i :: done[j] == Field(fields[j].key, Scrubbed(fields[j].value, ids, secrets))
        {
          var el := ScrubNode(fields[i].value, ids, secrets);
          done := done + [Field(fields[i].key, el)];
        }
        assert done == Scrubbed(node, ids, secrets).fields;
        out := Object(done);
      case Other(_) =>
        out := node;
    }
  }

  // ---- Values at a path ---------------------------------------------------------------------------

  function IndexOf(fields: seq<Field>, key: string): Option<nat>
    ensures IndexOf(fields, key).Some? ==> IndexOf(fields, key).value < |fields|
  {
    if fields == [] then None
    else
      var front := IndexOf(fields[..|fields| - 1], key);
      if front.Some? then front
      else if fields[|fields| - 1].key == key then Some(|fields| - 1)
      else None
  }

  /** Applies a change to the value at a path, in every element of the arrays on the way. */
  function AtPath(node: Json, path: seq<string>, f: Json -> Json): Json
    requires path != []
    decreases node
  {
    match node
    case Array(items) => Array(seq(|items|, i requires 0 <= i < |items| => AtPath(items[i], path, f)))
    case Object(fields) =>
      var k := IndexOf(fields, path[0]);
      if k.None? then node
      else
        var v := fields[k.value].value;
        Object(fields[k.value := Field(fields[k.value].key, if |path| == 1 then f(v) else AtPath(v, path[1..], f))])
    case _ => node
  }

  function Joined(parts: seq<seq<Json>>): seq<Json> {
    if parts == [] then [] else Joined(parts[..|parts| - 1]) + parts[|parts| - 1]
  }

  /** The values a path leads to. */
  function Located(node: Json, path: seq<string>): seq<Json>
    requires path != []
    decreases node
  {
    match node
    case Array(items) => Joined(seq(|items|, i requires 0 <= i < |items| => Located(items[i], path)))
    case Object(fields) =>
      var k := IndexOf(fields, path[0]);
      if k.None? then []
      else if |path| == 1 then [fields[k.value].value]
      else Located(fields[k.value].value, path[1..])
    case _ => []
  }

  function Each(f: Json -> Json, vs: seq<Json>): seq<Json> { seq(|vs|, i requires 0 <= i < |vs| => f(vs[i])) }

  lemma {:induction false} JoinedEach(f: Json -> Json, a: seq<seq<Json>>, b: seq<seq<Json>>)
    requires |a| == |b| && forall i | 0 <= i < |a| :: a[i] == Each(f, b[i])
    ensures Joined(a) == Each(f, Joined(b))
  {
    if a != [] {
      JoinedEach(f, a[..|a| - 1], b[..|b| - 1]);
    }
  }

  lemma {:induction false} SameIndex(fields: seq<Field>, gs: seq<Field>, key: string)
    requires |gs| == |fields| && forall i | 0 <= i < |fields| :: gs[i].key == fields[i].key
    ensures IndexOf(gs, key) == IndexOf(fields, key)
  {
    if fields != [] {
      SameIndex(fields[..|fields| - 1], gs[..|gs| - 1], key);
    }
  }

  /** Exactly the located values change, each by the change. */
  lemma {:induction false} LocatedAfter(node: Json, path: seq<string>, f: Json -> Json)
    requires path != []
    ensures Located(AtPath(node, path, f), path) == Each(f, Located(node, path))
    decreases node
  {
    match node
    case Array(items) =>
      var after := AtPath(node, path, f).items;
      forall i | 0 <= i < |items| ensures Located(after[i], path) == Each(f, Located(items[i], path)) {
        LocatedAfter(items[i], path, f);
      }
      JoinedEach(f, seq(|items|, i requires 0 <= i < |items| => Located(after[i], path)),
                 seq(|items|, i requires 0 <= i < |items| => Located(items[i], path)));
    case Object(fields) =>
      var k := IndexOf(fields, path[0]);
      if k.Some? {
        SameIndex(fields, AtPath(node, path, f).fields, path[0]);
        if |path| > 1 {
          LocatedAfter(fields[k.value].value, path[1..], f);
        }
      }
    case _ =>
  }

  // ---- And nothing else changes -------------------------------------------------------------------

  /** Two documents that differ at most in the values the path leads to. */
  predicate SameOff(a: Json, b: Json, path: seq<string>)
    requires path != []
    decreases a
  {
    match a
    case Array(items) =>
      b.Array? && |b.items| == |items| && forall i | 0 <= i < |items| :: SameOff(items[i], b.items[i], path)
    case Object(fields) =>
      var k := IndexOf(fields, path[0]);
      if k.None? then b == a
      else
        && b.Object? && |b.fields| == |fields|
        && (forall i | 0 <= i < |fields| :: b.fields[i].key == fields[i].key && (i != k.value ==> b.fields[i] == fields[i]))
        && (|path| > 1 ==> SameOff(fields[k.value].value, b.fields[k.value].value, path[1..]))
    case _ => b == a
  }

  lemma {:induction false} AtPathSameOff(node: Json, path: seq<string>, f: Json -> Json)
    requires path != []
    ensures SameOff(node, AtPath(node, path, f), path)
    decreases node
  {
    match node
    case Array(items) =>
      var after := AtPath(node, path, f).items;
      forall i | 0 <= i < |items| ensures SameOff(items[i], after[i], path) {
        AtPathSameOff(items[i], path, f);
      }
    case Object(fields) =>
      var k := IndexOf(fields, path[0]);
      if k.Some? && |path| > 1 {
        AtPathSameOff(fields[k.value].value, path[1..], f);
      }
    case _ =>
  }

  lemma {:induction false} JoinedCount(a: seq<seq<Json>>, b: seq<seq<Json>>)
    requires |a| == |b| && forall i | 0 <= i < |a| :: |a[i]| == |b[i]|
    ensures |Joined(a)| == |Joined(b)|
  {
    if a != [] {
      JoinedCount(a[..|a| - 1], b[..|b| - 1]);
    }
  }

  lemma {:induction false} JoinedApart(a: seq<seq<Json>>, b: seq<seq<Json>>)
    requires |a| == |b| && (forall i | 0 <= i < |a| :: |a[i]| == |b[i]|) && Joined(a) == Joined(b)
    ensures a == b
  {
    if a != [] {
      var n := |a| - 1;
      JoinedCount(a[..n], b[..n]);
      assert Joined(a)[..|Joined(a[..n])|] == Joined(a[..n]) && Joined(b)[..|Joined(b[..n])|] == Joined(b[..n]);
      assert Joined(a)[|Joined(a[..n])|..] == a[n] && Joined(b)[|Joined(b[..n])|..] == b[n];
      JoinedApart(a[..n], b[..n]);
      assert a == a[..n] + [a[n]] && b == b[..n] + [b[n]];
    }
  }

  lemma {:induction false} SameCount(a: Json, b: Json, path: seq<string>)
    requires path != [] && SameOff(a, b, path)
    ensures |Located(a, path)| == |Located(b, path)|
    decreases a
  {
    match a
    case Array(items) =>
      forall i | 0 <= i < |items| ensures |Located(items[i], path)| == |Located(b.items[i], path)| {
        SameCount(items[i], b.items[i], path);
      }
      JoinedCount(Parts(items, path), Parts(b.items, path));
    case Object(fields) =>
      var k := IndexOf(fields, path[0]);
      if k.Some? {
        SameIndex(fields, b.fields, path[0]);
        if |path| > 1 {
          SameCount(fields[k.value].value, b.fields[k.value].value, path[1..]);
        }
      }
    case _ =>
  }

  function Parts(items: seq<Json>, path: seq<string>): seq<seq<Json>>
    requires path != []
  {
    seq(|items|, i requires 0 <= i < |items| => Located(items[i], path))
  }

  // Two documents that differ at most there, and not even there, are one.
  lemma {:induction false} SameThere(a: Json, b: Json, c: Json, path: seq<string>)
    requires path != [] && SameOff(a, b, path) && SameOff(a, c, path) && Located(b, path) == Located(c, path)
    ensures b == c
    decreases a
  {
    match a
    case Array(items) =>
      forall i | 0 <= i < |items| ensures |Located(b.items[i], path)| == |Located(c.items[i], path)| {
        SameCount(items[i], b.items[i], path);
        SameCount(items[i], c.items[i], path);
      }
      JoinedApart(Parts(b.items, path), Parts(c.items, path));
      forall i | 0 <= i < |items| ensures b.items[i] == c.items[i] {
        assert Parts(b.items, path)[i] == Parts(c.items, path)[i];
        SameThere(items[i], b.items[i], c.items[i], path);
      }
    case Object(fields) =>
      var k := IndexOf(fields, path[0]);
      if k.Some? {
        SameIndex(fields, b.fields, path[0]);
        SameIndex(fields, c.fields, path[0]);
        if |path| > 1 {
          SameThere(fields[k.value].value, b.fields[k.value].value, c.fields[k.value].value, path[1..]);
        }
        assert b.fields[k.value] == c.fields[k.value];
        assert b.fields == c.fields;
      }
    case _ =>
  }

  /** A change at a path gives the one document that has the changed values there and is the same everywhere else. */
  lemma AtPathExactly(node: Json, path: seq<string>, f: Json -> Json, b: Json)
    requires path != []
    ensures b == AtPath(node, path, f) <==> SameOff(node, b, path) && Located(b, path) == Each(f, Located(node, path))
  {
    AtPathSameOff(node, path, f);
    LocatedAfter(node, path, f);
    if SameOff(node, b, path) && Located(b, path) == Each(f, Located(node, path)) {
      SameThere(node, b, AtPath(node, path, f), path);
    }
  }
}
