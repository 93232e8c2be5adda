/**
  Configuration documents in the operator back end: validation against a component's schema, masking of
  credentials for display, and putting unchanged credentials back into an edited document.
 */
module ConfigMask {
  import opened Wrappers
  import opened Digits

  datatype Json =
    | Text(s: string)
    | Integer(n: int)
    | Fraction(r: real)
    | Boolean(b: bool)
    | Null
    | Array(items: seq<Json>)
    | Object(fields: map<string, Json>)

  // The members of a JSON schema that are read; `closed` is additionalProperties being false.
  datatype Schema = Schema(kind: Option<string>, properties: Option<map<string, Schema>>, required: seq<string>,
                           closed: bool, items: Option<Schema>, credential: bool)

  const MASK := "********"

  // ---- Credentials --------------------------------------------------------------------------------

  // The member of another document that stands where k does.
  function Counterpart(other: Option<Json>, k: string): Option<Json> {
    if other.Some? && other.value.Object? && k in other.value.fields then Some(other.value.fields[k]) else None
  }

  /**
    Changes every value that a schema calls a credential, through nested object schemas; the change also sees what
    stands in the same place of another document.
   */
  function EachCredential(s: Schema, v: Json, other: Option<Json>, f: (Json, Option<Json>) -> Json): Json
    decreases v, 0
  {
    if !v.Object? || s.properties.None? then v
    else Object(map k | k in v.fields :: Member(s.properties.value, k, v.fields[k], Counterpart(other, k), f))
  }

  function Member(props: map<string, Schema>, k: string, x: Json, o: Option<Json>, f: (Json, Option<Json>) -> Json): Json
    decreases x, 1
  {
    if k !in props then x
    else if props[k].credential then f(x, o)
    else if props[k].kind == Some("object") then EachCredential(props[k], x, o, f)
    else x
  }

  function Hide(x: Json, o: Option<Json>): Json { if x.Text? then Text(MASK) else x }

  function PutBack(x: Json, o: Option<Json>): Json { if x == Text(MASK) && o.Some? then o.value else x }

  function Mask(s: Schema, doc: Json): Json { EachCredential(s, doc, None, (x, o) => Hide(x, o)) }

  /** For an edited document: a credential that is still the mask means unchanged. */
  function UnmaskUnchanged(s: Schema, proposed: Json, current: Json): Json {
    EachCredential(s, proposed, Some(current), (x, o) => PutBack(x, o))
  }

  /** The loop over a schema's properties, changing the document member by member. */
  method ChangeCredentials(s: Schema, doc: Json, other: Option<Json>, f: (Json, Option<Json>) -> Json)
    returns (out: Json)
    ensures out == EachCredential(s, doc, other, f)
    decreases doc
  {
    if !doc.Object? || s.properties.None? {
      return doc;
    }
    var props := s.properties.value;
    var fields := doc.fields;
    var rest := props.Keys;
    while rest != {}
      invariant rest <= props.Keys
      invariant fields == map k | k in doc.fields ::
                  if k in rest then doc.fields[k] else Member(props, k, doc.fields[k], Counterpart(other, k), f)
      decreases rest
    {
      var k :| k in rest;
      rest := rest - {k};
      if k in fields {
        assert fields[k] == doc.fields[k];
        if props[k].credential {
          fields := fields[k := f(fields[k], Counterpart(other, k))];
        } else if props[k].kind == Some("object") {
          var inner := ChangeCredentials(props[k], fields[k], Counterpart(other, k), f);
          fields := fields[k := inner];
        }
      }
    }
    out := Object(fields);
  }

  /** Masking a document and putting back what is unchanged gives the document, whatever the schema. */
  lemma {:induction false} UnmaskMask(s: Schema, doc: Json)
    ensures UnmaskUnchanged(s, Mask(s, doc), doc) == doc
    decreases doc
  {
    if doc.Object? && s.properties.Some? {
      var props := s.properties.value;
      forall k | k in doc.fields
        ensures Member(props, k, Member(props, k, doc.fields[k], None, (x, o) => Hide(x, o)), Some(doc.fields[k]),
                       (x, o) => PutBack(x, o)) == doc.fields[k]
      {
        if k in props && !props[k].credential && props[k].kind == Some("object") {
          UnmaskMask(props[k], doc.fields[k]);
        }
      }
      assert UnmaskUnchanged(s, Mask(s, doc), doc).fields == doc.fields;
    }
  }

  /** Masking twice is masking once. */
  lemma {:induction false} MaskTwice(s: Schema, doc: Json)
    ensures Mask(s, Mask(s, doc)) == Mask(s, doc)
    decreases doc
  {
    if doc.Object? && s.properties.Some? {
      var props := s.properties.value;
      forall k | k in doc.fields
        ensures var once := Member(props, k, doc.fields[k], None, (x, o) => Hide(x, o));
                Member(props, k, once, None, (x, o) => Hide(x, o)) == once
      {
        if k in props && !props[k].credential && props[k].kind == Some("object") {
          MaskTwice(props[k], doc.fields[k]);
        }
      }
      assert Mask(s, Mask(s, doc)).fields == Mask(s, doc).fields;
    }
  }

  /** Two documents that agree except in the text of credentials. */
  predicate SameButCredentials(s: Schema, a: Json, b: Json)
    decreases a, 0
  {
    if !a.Object? || !b.Object? || s.properties.None? then a == b
    else
      && a.fields.Keys == b.fields.Keys
      && forall k | k in a.fields :: SameMember(s.properties.value, k, a.fields[k], b.fields[k])
  }

  predicate SameMember(props: map<string, Schema>, k: string, x: Json, y: Json)
    decreases x, 1
  {
    if k !in props then x == y
    else if props[k].credential then x == y || (x.Text? && y.Text?)
    else if props[k].kind == Some("object") then SameButCredentials(props[k], x, y)
    else x == y
  }

  /** The masked document tells nothing of the credentials and everything else: it is the same exactly then. */
  lemma {:induction false} MaskHidesExactly(s: Schema, a: Json, b: Json)
    ensures Mask(s, a) == Mask(s, b) <==> SameButCredentials(s, a, b)
    decreases a
  {
    if a.Object? && b.Object? && s.properties.Some? {
      var props := s.properties.value;
      var m, n := Mask(s, a).fields, Mask(s, b).fields;
      assert m.Keys == a.fields.Keys && n.Keys == b.fields.Keys;
      forall k | k in a.fields && k in b.fields ensures m[k] == n[k] <==> SameMember(props, k, a.fields[k], b.fields[k]) {
        assert m[k] == Member(props, k, a.fields[k], None, (x, o) => Hide(x, o));
        assert n[k] == Member(props, k, b.fields[k], None, (x, o) => Hide(x, o));
        if k in props && !props[k].credential && props[k].kind == Some("object") {
          MaskHidesExactly(props[k], a.fields[k], b.fields[k]);
        }
      }
      if SameButCredentials(s, a, b) {
        assert m == n;
      }
    }
  }

  // ---- Validation ---------------------------------------------------------------------------------

  predicate TypeOk(t: string, v: Json) {
    match t
    case "integer" => v.Integer?
    case "number" => v.Integer? || v.Fraction?
    case "string" => v.Text?
    case "boolean" => v.Boolean?
    case "object" => v.Object?
    case "array" => v.Array?
    case _ => true
  }

  function Dotted(path: string, k: string): string { if path == "" then k else path + "." + k }

  function Indexed(path: string, i: nat): string { path + "[" + ToString(i) + "]" }

  // How the JSON library enumerates the members of an object.
  type Order = set<string> -> seq<string>

  /** The error messages of a document, in the order they are found. */
  function Check(order: Order, s: Schema, v: Json, path: string): seq<string>
    decreases v, 2, 0
  {
    if s.kind.Some? && !TypeOk(s.kind.value, v) then
      [(if path == "" then "<root>" else path) + ": must be " + s.kind.value]
    else
      (if v.Object? && s.properties.Some?
       then Missing(s.required, v.fields.Keys, path) + CheckMembers(order, s, v, order(v.fields.Keys), path)
       else [])
      + (if v.Array? && s.items.Some? then CheckItems(order, s.items.value, v, |v.items|, path) else [])
  }

  function Missing(required: seq<string>, keys: set<string>, path: string): seq<string> {
    if required == [] then []
    else
      var k := required[|required| - 1];
      Missing(required[..|required| - 1], keys, path) + MissingOne(k, keys, path)
  }

  function CheckMembers(order: Order, s: Schema, v: Json, keys: seq<string>, path: string): seq<string>
    requires v.Object? && s.properties.Some?
    decreases v, 1, |keys|
  {
    if keys == [] then []
    else
      var k := keys[|keys| - 1];
      CheckMembers(order, s, v, keys[..|keys| - 1], path) + CheckMember(order, s, v, k, path)
  }

  function CheckMember(order: Order, s: Schema, v: Json, k: string, path: string): seq<string>
    requires v.Object? && s.properties.Some?
    decreases v, 0, 0
  {
    if k !in v.fields then []
    else if k !in s.properties.value then if s.closed then [UnknownKey(Dotted(path, k))] else []
    else Check(order, s.properties.value[k], v.fields[k], Dotted(path, k))
  }

  function UnknownKey(path: string): string { path + ": not a key of this component's configuration" }

  function CheckItems(order: Order, s: Schema, v: Json, n: nat, path: string): seq<string>
    requires v.Array? && n <= |v.items|
    decreases v, 1, n
  {
    if n == 0 then []
    else CheckItems(order, s, v, n - 1, path) + Check(order, s, v.items[n - 1], Indexed(path, n - 1))
  }

  function Validate(order: Order, s: Schema, doc: Json): seq<string> { Check(order, s, doc, "") }

  /** The walk that pushes messages onto one list as it goes. */
  method PushErrors(order: Order, s: Schema, v: Json, path: string, before: seq<string>) returns (errs: seq<string>)
    ensures errs == before + Check(order, s, v, path)
    decreases v, 2, 0
  {
    errs := before;
    if s.kind.Some? && !TypeOk(s.kind.value, v) {
      return errs + [(if path == "" then "<root>" else path) + ": must be " + s.kind.value];
    }
    if v.Object? && s.properties.Some? {
      errs := PushMissing(s.required, v.fields.Keys, path, errs);
      errs := PushMembers(order, s, v, path, errs);
    }
    if v.Array? && s.items.Some? {
      errs := PushItems(order, s.items.value, v, path, errs);
    }
  }

  method PushMembers(order: Order, s: Schema, v: Json, path: string, before: seq<string>) returns (errs: seq<string>)
    requires v.Object? && s.properties.Some?
    ensures errs == before + CheckMembers(order, s, v, order(v.fields.Keys), path)
    decreases v, 1, 0
  {
    errs := before;
    var keys := order(v.fields.Keys);
    for i := 0 to |keys|
      invariant errs == before + CheckMembers(order, s, v, keys[..i], path)
    {
      var k := keys[i];
      assert keys[..i + 1][..i] == keys[..i] && keys[..i + 1][i] == k;
      ghost var found := errs;
      if k in v.fields {
        if k in s.properties.value {
          errs := PushErrors(order, s.properties.value[k], v.fields[k], Dotted(path, k), errs);
        } else if s.closed {
          errs := errs + [UnknownKey(Dotted(path, k))];
        }
      }
      assert errs == found + CheckMember(order, s, v, k, path);
    }
    assert keys[..|keys|] == keys;
  }

  method PushItems(order: Order, s: Schema, v: Json, path: string, before: seq<string>) returns (errs: seq<string>)
    requires v.Array?
    ensures errs == before + CheckItems(order, s, v, |v.items|, path)
    decreases v, 1, 0
  {
    errs := before;
    for i := 0 to |v.items|
      invariant errs == before + CheckItems(order, s, v, i, path)
    {
      errs := PushErrors(order, s, v.items[i], Indexed(path, i), errs);
    }
  }

  function MissingOne(k: string, keys: set<string>, path: string): seq<string> {
    if k in keys then [] else [Dotted(path, k) + ": required"]
  }

  method PushMissing(required: seq<string>, keys: set<string>, path: string, before: seq<string>)
    returns (errs: seq<string>)
    ensures errs == before + Missing(required, keys, path)
  {
    errs := before;
    for i := 0 to |required|
      invariant errs == before + Missing(required[..i], keys, path)
    {
      assert required[..i + 1][..i] == required[..i] && required[..i + 1][i] == required[i];
      errs := errs + MissingOne(required[i], keys, path);
    }
    assert required[..|required|] == required;
  }

  lemma {:induction false} CheckMasked(order: Order, s: Schema, doc: Json, path: string)
    ensures Check(order, s, Mask(s, doc), path) == Check(order, s, doc, path)
    decreases doc, 1
  {
    if doc.Object? && s.properties.Some? {
      assert Mask(s, doc).fields.Keys == doc.fields.Keys;
      MembersMasked(order, s, doc, order(doc.fields.Keys), path);
    }
  }

  // The text of a string plays no part in its errors.
  lemma CheckTexts(order: Order, s: Schema, x: Json, y: Json, path: string)
    requires x == y || (x.Text? && y.Text?)
    ensures Check(order, s, x, path) == Check(order, s, y, path)
  {
  }

  lemma {:induction false} MembersMasked(order: Order, s: Schema, doc: Json, keys: seq<string>, path: string)
    requires doc.Object? && s.properties.Some?
    ensures CheckMembers(order, s, Mask(s, doc), keys, path) == CheckMembers(order, s, doc, keys, path)
    decreases doc, 0, |keys|
  {
    if keys != [] {
      var k := keys[|keys| - 1];
      var props := s.properties.value;
      MembersMasked(order, s, doc, keys[..|keys| - 1], path);
      if k in doc.fields && k in props {
        var x, y := doc.fields[k], Mask(s, doc).fields[k];
        assert y == Member(props, k, x, None, (x, o) => Hide(x, o));
        if props[k].credential {
          CheckTexts(order, props[k], x, y, Dotted(path, k));
        } else if props[k].kind == Some("object") {
          assert y == Mask(props[k], x);
          CheckMasked(order, props[k], x, Dotted(path, k));
        }
      }
    }
  }

  /** A masked document gets exactly the errors of the document it hides. */
  lemma ValidateMasked(order: Order, s: Schema, doc: Json)
    ensures Validate(order, s, Mask(s, doc)) == Validate(order, s, doc)
  {
    CheckMasked(order, s, doc, "");
  }

  /** What a schema asks of a document, said without an algorithm. */
  predicate Conforms(s: Schema, v: Json)
    decreases v
  {
    && (s.kind.Some? ==> TypeOk(s.kind.value, v))
    && (v.Object? && s.properties.Some? ==>
          && (forall i | 0 <= i < |s.required| :: s.required[i] in v.fields)
          && (forall k | k in v.fields ::
                if k in s.properties.value then Conforms(s.properties.value[k], v.fields[k]) else !s.closed))
    && (v.Array? && s.items.Some? ==> forall i | 0 <= i < |v.items| :: Conforms(s.items.value, v.items[i]))
  }

  ghost predicate Enumerates(order: Order) { forall keys: set<string>, k: string :: k in order(keys) <==> k in keys }

  lemma {:induction false} MissingExact(required: seq<string>, keys: set<string>, path: string)
    ensures Missing(required, keys, path) == [] <==> forall i | 0 <= i < |required| :: required[i] in keys
  {
    if required != [] {
      MissingExact(required[..|required| - 1], keys, path);
      assert forall i | 0 <= i < |required| - 1 :: required[..|required| - 1][i] == required[i];
    }
  }

  /** Validation reports nothing exactly when the document conforms. */
  lemma {:induction false} CheckExact(order: Order, s: Schema, v: Json, path: string)
    requires Enumerates(order)
    ensures Check(order, s, v, path) == [] <==> Conforms(s, v)
    decreases v, 1, 0
  {
    if v.Object? && s.properties.Some? {
      MissingExact(s.required, v.fields.Keys, path);
      MembersExact(order, s, v, order(v.fields.Keys), path);
    } else if v.Array? && s.items.Some? {
      ItemsExact(order, s.items.value, v, |v.items|, path);
    }
  }

  lemma BothEmpty(a: seq<string>, b: seq<string>)
    ensures a + b == [] <==> a == [] && b == []
  {
  }

  lemma {:induction false} MembersExact(order: Order, s: Schema, v: Json, keys: seq<string>, path: string)
    requires Enumerates(order) && v.Object? && s.properties.Some?
    ensures CheckMembers(order, s, v, keys, path) == [] <==>
            forall k | k in v.fields && k in keys ::
              if k in s.properties.value then Conforms(s.properties.value[k], v.fields[k]) else !s.closed
    decreases v, 0, |keys|
  {
    if keys != [] {
      var front, k := keys[..|keys| - 1], keys[|keys| - 1];
      MembersExact(order, s, v, front, path);
      BothEmpty(CheckMembers(order, s, v, front, path), CheckMember(order, s, v, k, path));
      assert forall x :: x in keys <==> x in front || x == k;
      if k in v.fields && k in s.properties.value {
        CheckExact(order, s.properties.value[k], v.fields[k], Dotted(path, k));
      }
    }
  }

  lemma {:induction false} ItemsExact(order: Order, s: Schema, v: Json, n: nat, path: string)
    requires Enumerates(order) && v.Array? && n <= |v.items|
    ensures CheckItems(order, s, v, n, path) == [] <==> forall i | 0 <= i < n :: Conforms(s, v.items[i])
    decreases v, 0, n
  {
    if n > 0 {
      var last := Check(order, s, v.items[n - 1], Indexed(path, n - 1));
      ItemsExact(order, s, v, n - 1, path);
      CheckExact(order, s, v.items[n - 1], Indexed(path, n - 1));
      BothEmpty(CheckItems(order, s, v, n - 1, path), last);
    }
  }
}
