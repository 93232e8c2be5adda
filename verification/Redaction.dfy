/**
  Field rules over whole documents: what is stripped before storing, what is masked for display, and the scrubbing
  of an answer by the secrets found in a request.
 */
module Redaction {
  import opened Wrappers
  import opened ScrubText
  import opened ScrubComplete
  import opened ScrubTree
  import SagaModel

  datatype FieldRule = FieldRule(path: string, classification: string) {
    predicate IsSecret() { classification == "SECRET_WRITE_ONLY" }

    predicate IsPersonal() { classification == "PII" || classification == "CREDENTIAL" }
  }

  // ---- Paths --------------------------------------------------------------------------------------

  // Where the first member ends.
  function DotAt(path: string): (n: nat)
    ensures n <= |path|
  {
    match Find(path, ".", 0)
    case None => |path|
    case Some(n) => n
  }

  function BehindDot(path: string): (rest: string)
    ensures path != "" ==> |rest| < |path|
  {
    if DotAt(path) == |path| then "" else path[DotAt(path) + 1..]
  }

  // The members of a path; an empty one at the end is dropped.
  function Segments(path: string): seq<string> { SegmentsAfter([], path) }

  function SegmentsAfter(before: seq<string>, path: string): seq<string>
    decreases |path|
  {
    if path == "" then before else SegmentsAfter(before + [path[..DotAt(path)]], BehindDot(path))
  }

  method Split(path: string) returns (segments: seq<string>)
    ensures segments == Segments(path)
  {
    var rest := path;
    segments := [];
    while rest != ""
      invariant SegmentsAfter(segments, rest) == Segments(path)
      decreases |rest|
    {
      var dot := FindFrom(rest, ".", 0);
      var n := if dot.None? then |rest| else dot.value;
      segments := segments + [rest[..n]];
      rest := if n == |rest| then "" else rest[n + 1..];
    }
  }

  function ChangedAt(doc: Json, path: string, f: Json -> Json): Json {
    if Segments(path) == [] then doc else AtPath(doc, Segments(path), f)
  }

  function FoundAt(doc: Json, path: string): seq<Json> {
    if Segments(path) == [] then [] else Located(doc, Segments(path))
  }

  // ---- Rules --------------------------------------------------------------------------------------

  function Hide(v: Json): Json { Text(GONE) }

  function MaskText(v: Json): Json { if v.Text? then Text(MaskValue(v.s)) else v }

  function Stripped(doc: Json, rules: seq<FieldRule>): Json {
    if rules == [] then doc
    else
      var before, r := Stripped(doc, rules[..|rules| - 1]), rules[|rules| - 1];
      if r.IsSecret() then ChangedAt(before, r.path, Hide) else before
  }

  function Covered(doc: Json, rules: seq<FieldRule>): Json {
    if rules == [] then doc
    else
      var before, r := Covered(doc, rules[..|rules| - 1]), rules[|rules| - 1];
      if r.IsSecret() then ChangedAt(before, r.path, Hide)
      else if r.IsPersonal() then ChangedAt(before, r.path, MaskText)
      else before
  }

  function Lower(s: string): string {
    seq(|s|, i requires 0 <= i < |s| => if 'A' <= s[i] <= 'Z' then (s[i] as int + 32) as char else s[i])
  }

  function Upper(s: string): string {
    seq(|s|, i requires 0 <= i < |s| => if 'a' <= s[i] <= 'z' then (s[i] as int - 32) as char else s[i])
  }

  function FormsOf(v: Json): seq<string> {
    if v.Text? && v.s != "" then [v.s, Lower(v.s), Upper(v.s)] else []
  }

  function AllForms(vs: seq<Json>): seq<string> {
    if vs == [] then [] else AllForms(vs[..|vs| - 1]) + FormsOf(vs[|vs| - 1])
  }

  function SecretsOf(doc: Json, rules: seq<FieldRule>): seq<string> {
    if rules == [] then []
    else
      var r := rules[|rules| - 1];
      SecretsOf(doc, rules[..|rules| - 1]) + if r.IsSecret() then AllForms(FoundAt(doc, r.path)) else []
  }

  method StripSecrets(doc: Json, rules: seq<FieldRule>) returns (out: Json)
    ensures out == Stripped(doc, rules)
  {
    out := doc;
    for i := 0 to |rules|
      invariant out == Stripped(doc, rules[..i])
    {
      assert rules[..i + 1][..i] == rules[..i];
      if rules[i].IsSecret() {
        out := ChangedAt(out, rules[i].path, Hide);
      }
    }
    assert rules[..|rules|] == rules;
  }

  method SecretValues(doc: Json, rules: seq<FieldRule>) returns (out: seq<string>)
    ensures out == SecretsOf(doc, rules)
  {
    out := [];
    for i := 0 to |rules|
      invariant out == SecretsOf(doc, rules[..i])
    {
      assert rules[..i + 1][..i] == rules[..i];
      if rules[i].IsSecret() {
        out := out + AllForms(FoundAt(doc, rules[i].path));
      }
    }
    assert rules[..|rules|] == rules;
  }

  /** The rules first, then every identifier and secret in any other string. */
  method MaskPii(doc: Json, rules: seq<FieldRule>, ids: seq<string>, secrets: seq<string>) returns (out: Json)
    requires TreeEnds(Covered(doc, rules), secrets)
    ensures out == Scrubbed(Covered(doc, rules), ids, secrets)
  {
    out := doc;
    for i := 0 to |rules|
      invariant out == Covered(doc, rules[..i])
    {
      assert rules[..i + 1][..i] == rules[..i];
      if rules[i].IsSecret() {
        out := ChangedAt(out, rules[i].path, Hide);
      } else if rules[i].IsPersonal() {
        out := ChangedAt(out, rules[i].path, MaskText);
      }
    }
    assert rules[..|rules|] == rules;
    out := ScrubNode(out, ids, secrets);
  }

  // ---- What no later rule uncovers ----------------------------------------------------------------

  // A change that only ever puts a text in place, and a property of values that it keeps.
  ghost predicate Keeps(f: Json -> Json, p: Json -> bool) {
    && (forall v: Json :: f(v).Text? || f(v) == v)
    && (forall v: Json :: p(v) ==> p(f(v)))
    && (forall v: Json, w: Json :: p(v) && !v.Text? && !w.Text? ==> p(w))
  }

  ghost predicate AllAre(vs: seq<Json>, p: Json -> bool) { forall v | v in vs :: p(v) }

  lemma {:induction false} JoinedAre(parts: seq<seq<Json>>, p: Json -> bool)
    ensures AllAre(Joined(parts), p) <==> forall i | 0 <= i < |parts| :: AllAre(parts[i], p)
  {
    if parts != [] {
      JoinedAre(parts[..|parts| - 1], p);
    }
  }

  lemma StaysKind(v: Json, path: seq<string>, f: Json -> Json, p: Json -> bool)
    requires path != [] && Keeps(f, p) && p(v)
    ensures p(AtPath(v, path, f))
  {
  }

  /** What holds of the values at one path still holds after a change at any other. */
  lemma {:induction false} ChangeKeeps(node: Json, path: seq<string>, other: seq<string>, f: Json -> Json, p: Json -> bool)
    requires path != [] && other != [] && Keeps(f, p) && AllAre(Located(node, path), p)
    ensures AllAre(Located(AtPath(node, other, f), path), p)
    decreases node
  {
    match node
    case Array(items) =>
      JoinedAre(Parts(items, path), p);
      forall i | 0 <= i < |items| ensures AllAre(Located(AtPath(items[i], other, f), path), p) {
        assert AllAre(Parts(items, path)[i], p);
        ChangeKeeps(items[i], path, other, f, p);
      }
      JoinedAre(Parts(AtPath(node, other, f).items, path), p);
    case Object(fields) => ObjectKeeps(node, path, other, f, p);
    case _ =>
  }

  lemma {:induction false} ObjectKeeps(node: Json, path: seq<string>, other: seq<string>, f: Json -> Json, p: Json -> bool)
    requires node.Object? && path != [] && other != [] && Keeps(f, p) && AllAre(Located(node, path), p)
    ensures AllAre(Located(AtPath(node, other, f), path), p)
    decreases node, 0
  {
    var fields := node.fields;
    var at, changed := IndexOf(fields, path[0]), IndexOf(fields, other[0]);
    if changed.Some? {
      SameIndex(fields, AtPath(node, other, f).fields, path[0]);
    }
    if at.Some? && at == changed {
      var v := fields[at.value].value;
      if |path| == 1 {
        assert p(v) by {
          assert v in Located(node, path);
        }
        if |other| > 1 {
          StaysKind(v, other[1..], f, p);
        }
      } else if |other| > 1 {
        ChangeKeeps(v, path[1..], other[1..], f, p);
      }
    }
  }

  lemma ChangedKeeps(doc: Json, path: string, other: string, f: Json -> Json, p: Json -> bool)
    requires Keeps(f, p) && AllAre(FoundAt(doc, path), p)
    ensures AllAre(FoundAt(ChangedAt(doc, other, f), path), p)
  {
    if Segments(path) != [] && Segments(other) != [] {
      ChangeKeeps(doc, Segments(path), Segments(other), f, p);
    }
  }

  lemma ChangedHas(doc: Json, path: string, f: Json -> Json, p: Json -> bool)
    requires forall v :: p(f(v))
    ensures AllAre(FoundAt(ChangedAt(doc, path, f), path), p)
  {
    if Segments(path) != [] {
      LocatedAfter(doc, Segments(path), f);
    }
  }

  predicate IsGone(v: Json) { v == Text(GONE) }

  /** Nothing is left at any secret path of what is stored: every value there is the replacement. */
  lemma {:induction false} NothingStored(doc: Json, rules: seq<FieldRule>, r: FieldRule)
    requires r in rules && r.IsSecret()
    ensures AllAre(FoundAt(Stripped(doc, rules), r.path), IsGone)
  {
    var front, last := rules[..|rules| - 1], rules[|rules| - 1];
    if last == r {
      ChangedHas(Stripped(doc, front), r.path, Hide, IsGone);
    } else {
      NothingStored(doc, front, r);
      ChangedKeeps(Stripped(doc, front), r.path, last.path, Hide, IsGone);
    }
  }

  // At most the last four characters of the value show.
  predicate IsCovered(v: Json) {
    v.Text? && v.s != GONE ==> forall k | 0 <= k < |v.s| :: v.s[k] == STAR || (k >= |v.s| - SHOWN && |v.s| > SHOWN)
  }

  lemma MaskCovers(v: Json)
    ensures IsCovered(MaskText(v)) && IsCovered(Hide(v))
  {
  }

  lemma MaskingKeeps()
    ensures Keeps(MaskText, IsCovered) && Keeps(Hide, IsCovered)
  {
    forall v ensures IsCovered(MaskText(v)) && IsCovered(Hide(v)) {
      MaskCovers(v);
    }
  }

  /** At every personal and every secret path of what is displayed, at most four characters show. */
  lemma {:induction false} LittleShown(doc: Json, rules: seq<FieldRule>, r: FieldRule)
    requires r in rules && (r.IsSecret() || r.IsPersonal())
    ensures AllAre(FoundAt(Covered(doc, rules), r.path), IsCovered)
  {
    var front, last := rules[..|rules| - 1], rules[|rules| - 1];
    var f := if last.IsSecret() then Hide else MaskText;
    MaskingKeeps();
    if last == r {
      forall v ensures IsCovered(f(v)) {
        MaskCovers(v);
      }
      ChangedHas(Covered(doc, front), r.path, f, IsCovered);
    } else {
      LittleShown(doc, front, r);
      ChangedKeeps(Covered(doc, front), r.path, last.path, f, IsCovered);
    }
  }

  // ---- A secret of the request does not come back -------------------------------------------------

  lemma {:induction false} FormsListed(vs: seq<Json>, v: Json)
    requires v in vs
    ensures forall x | x in FormsOf(v) :: x in AllForms(vs)
  {
    if v != vs[|vs| - 1] {
      FormsListed(vs[..|vs| - 1], v);
    }
  }

  lemma {:induction false} SecretListed(doc: Json, rules: seq<FieldRule>, r: FieldRule, v: Json)
    requires r in rules && r.IsSecret() && v in FoundAt(doc, r.path)
    ensures forall x | x in FormsOf(v) :: x in SecretsOf(doc, rules)
  {
    var front, last := rules[..|rules| - 1], rules[|rules| - 1];
    if last == r {
      FormsListed(FoundAt(doc, r.path), v);
    } else {
      SecretListed(doc, front, r, v);
    }
  }

  lemma {:induction false} AllTextsImply(node: Json, p: string -> bool, q: string -> bool)
    requires AllTexts(node, p) && forall s :: p(s) ==> q(s)
    ensures AllTexts(node, q)
  {
    match node
    case Text(s) =>
    case Array(items) =>
      forall i | 0 <= i < |items| ensures AllTexts(items[i], q) {
        AllTextsImply(items[i], p, q);
      }
    case Object(fields) =>
      forall i | 0 <= i < |fields| ensures AllTexts(fields[i].value, q) {
        AllTextsImply(fields[i].value, p, q);
      }
    case Other(_) =>
  }

  predicate Lacks(node: Json, x: string) { AllTexts(node, s => !Contains(s, x)) }

  /**
    An answer that is masked with the secrets of a request: no string value anywhere in it holds a secret found at a
    secret path of the request, as it was or in one letter case, of those that can be removed for good.
   */
  lemma NeverEchoed(request: Json, rules: seq<FieldRule>, r: FieldRule, v: Json, answer: Json, shown: seq<FieldRule>,
                    ids: seq<string>, x: string)
    requires r in rules && r.IsSecret() && v in FoundAt(request, r.path) && x in FormsOf(v) && Removable(x)
    requires TreeEnds(Covered(answer, shown), SecretsOf(request, rules))
    ensures Lacks(Scrubbed(Covered(answer, shown), ids, SecretsOf(request, rules)), x)
  {
    var secrets := SecretsOf(request, rules);
    SecretListed(request, rules, r, v);
    ScrubbedTreeIsSpotless(Covered(answer, shown), ids, secrets);
    AllTextsImply(Scrubbed(Covered(answer, shown), ids, secrets), s => Spotless(s, ids, secrets), s => !Contains(s, x));
  }

  // A SIM key: 32 hexadecimal digits.
  predicate IsKey(x: string) { |x| == 32 && SagaModel.Hex(x) }

  lemma KeyForms(x: string)
    requires IsKey(x)
    ensures IsKey(Lower(x)) && IsKey(Upper(x))
  {
  }

  lemma KeyRemovable(x: string)
    requires IsKey(x)
    ensures Removable(x) && !Contains(GONE, x)
  {
    assert GONE[0] == '[' && GONE[21] == ']' && |GONE| == 22;
    forall o | -|x| < o < |GONE| ensures !MeetsAt(GONE, x, o) {
      if o <= 0 {
        assert x[-o] != GONE[o + -o];
      } else {
        assert x[21 - o] != GONE[o + (21 - o)];
      }
    }
  }

  // Every string at a secret path is a key, or empty.
  predicate OnlyKeys(vs: seq<Json>) { forall v | v in vs && v.Text? && v.s != "" :: IsKey(v.s) }

  ghost predicate KeysOnly(doc: Json, rules: seq<FieldRule>) {
    forall r | r in rules && r.IsSecret() :: OnlyKeys(FoundAt(doc, r.path))
  }

  lemma {:induction false} FormsAreKeys(vs: seq<Json>)
    requires OnlyKeys(vs)
    ensures forall x | x in AllForms(vs) :: IsKey(x)
  {
    if vs != [] {
      FormsAreKeys(vs[..|vs| - 1]);
      if FormsOf(vs[|vs| - 1]) != [] {
        KeyForms(vs[|vs| - 1].s);
      }
    }
  }

  lemma {:induction false} SecretsAreKeys(doc: Json, rules: seq<FieldRule>)
    requires KeysOnly(doc, rules)
    ensures forall x | x in SecretsOf(doc, rules) :: IsKey(x)
  {
    if rules != [] {
      SecretsAreKeys(doc, rules[..|rules| - 1]);
      if rules[|rules| - 1].IsSecret() {
        FormsAreKeys(FoundAt(doc, rules[|rules| - 1].path));
      }
    }
  }

  lemma {:induction false} TreeAlwaysEnds(node: Json, secrets: seq<string>)
    requires forall i | 0 <= i < |secrets| :: secrets[i] == "" || !Contains(GONE, secrets[i])
    ensures TreeEnds(node, secrets)
  {
    match node
    case Text(s) => HarmlessEnd(s, secrets);
    case Array(items) =>
      forall i | 0 <= i < |items| ensures TreeEnds(items[i], secrets) {
        TreeAlwaysEnds(items[i], secrets);
      }
    case Object(fields) =>
      forall i | 0 <= i < |fields| ensures TreeEnds(fields[i].value, secrets) {
        TreeAlwaysEnds(fields[i].value, secrets);
      }
    case Other(_) =>
  }

  /** A request whose secrets are SIM keys: masking any answer ends, and no key of the request is in it. */
  lemma KeysNeverShown(request: Json, rules: seq<FieldRule>, answer: Json, shown: seq<FieldRule>, ids: seq<string>)
    requires KeysOnly(request, rules)
    ensures TreeEnds(Covered(answer, shown), SecretsOf(request, rules))
    ensures forall r, v, x | r in rules && r.IsSecret() && v in FoundAt(request, r.path) && x in FormsOf(v) ::
              Lacks(Scrubbed(Covered(answer, shown), ids, SecretsOf(request, rules)), x)
  {
    var secrets := SecretsOf(request, rules);
    SecretsAreKeys(request, rules);
    forall i | 0 <= i < |secrets| ensures !Contains(GONE, secrets[i]) {
      KeyRemovable(secrets[i]);
    }
    TreeAlwaysEnds(Covered(answer, shown), secrets);
    forall r, v, x | r in rules && r.IsSecret() && v in FoundAt(request, r.path) && x in FormsOf(v)
      ensures Lacks(Scrubbed(Covered(answer, shown), ids, secrets), x)
    {
      SecretListed(request, rules, r, v);
      KeyRemovable(x);
      NeverEchoed(request, rules, r, v, answer, shown, ids, x);
    }
  }
}
