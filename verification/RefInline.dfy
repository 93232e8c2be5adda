/**
  Inlining every reference of an API description into one self-contained schema. References lead across
  documents and may run in circles; a circle is cut to an open object.
 */
module RefInline {
  import opened Wrappers

  datatype Node = Dict(fields: map<string, Node>) | Items(items: seq<Node>) | Scalar(token: string) | Text(s: string)

  type Documents = map<string, Node>

  const REF := "$ref"
  const DROPPED := {"description", "example", "examples"}

  // Where a reference leads: a document and a pointer into it.
  datatype Key = Key(document: string, pointer: string)

  // ---- Reading a reference ------------------------------------------------------------------------

  // What stands before and behind the first occurrence of a character.
  function Partition(s: string, c: char): (string, string) {
    if s == "" then ("", "")
    else if s[0] == c then ("", s[1..])
    else
      var (a, b) := Partition(s[1..], c);
      ([s[0]] + a, b)
  }

  function StripLeft(s: string, c: char): string {
    if s != "" && s[0] == c then StripLeft(s[1..], c) else s
  }

  function Split(s: string, c: char): (parts: seq<string>)
    ensures parts != []
  {
    if s == "" then [""]
    else
      var rest := Split(s[1..], c);
      if s[0] == c then [""] + rest else [[s[0]] + rest[0]] + rest[1..]
  }

  // A reference without a document name stays in the current document.
  function Target(reference: string, current: string): Key {
    var (name, pointer) := Partition(reference, '#');
    Key(if name == "" then current else name, pointer)
  }

  function Follow(node: Node, parts: seq<string>): Option<Node>
    decreases |parts|
  {
    if parts == [] then Some(node)
    else if !node.Dict? || parts[0] !in node.fields then None
    else Follow(node.fields[parts[0]], parts[1..])
  }

  function Resolve(docs: Documents, key: Key): Option<Node> {
    if key.document !in docs then None
    else Follow(docs[key.document], Split(StripLeft(key.pointer, '/'), '/'))
  }

  // ---- The finitely many places a reference can lead to -------------------------------------------

  // The pointers of all references below a node.
  function Pointers(node: Node): set<string> {
    match node
    case Dict(fields) =>
      (if REF in fields && fields[REF].Text? then {Partition(fields[REF].s, '#').1} else {})
      + set k, p | k in fields && p in Pointers(fields[k]) :: p
    case Items(items) => set i, p | 0 <= i < |items| && p in Pointers(items[i]) :: p
    case _ => {}
  }

  ghost predicate Closed(docs: Documents, pointers: set<string>) {
    forall d | d in docs :: Pointers(docs[d]) <= pointers
  }

  function Places(docs: Documents, pointers: set<string>): set<Key> {
    set d, p | d in docs.Keys && p in pointers :: Key(d, p)
  }

  lemma {:induction false} FollowPointers(node: Node, parts: seq<string>)
    ensures Follow(node, parts).Some? ==> Pointers(Follow(node, parts).value) <= Pointers(node)
    decreases |parts|
  {
    if parts != [] && node.Dict? && parts[0] in node.fields {
      FollowPointers(node.fields[parts[0]], parts[1..]);
    }
  }

  lemma ResolvePointers(docs: Documents, pointers: set<string>, key: Key)
    requires Closed(docs, pointers)
    ensures Resolve(docs, key).Some? ==> Pointers(Resolve(docs, key).value) <= pointers
  {
    if key.document in docs {
      FollowPointers(docs[key.document], Split(StripLeft(key.pointer, '/'), '/'));
    }
  }

  lemma FewerPlaces(docs: Documents, pointers: set<string>, stack: set<Key>, key: Key)
    requires key in Places(docs, pointers) && key !in stack
    ensures |Places(docs, pointers) - (stack + {key})| < |Places(docs, pointers) - stack|
  {
    var before, after := Places(docs, pointers) - stack, Places(docs, pointers) - (stack + {key});
    assert after == before - {key};
  }

  // ---- The walk -----------------------------------------------------------------------------------

  predicate AllSome<T>(m: map<string, Option<T>>) { forall k | k in m :: m[k].Some? }

  predicate EverySome<T>(s: seq<Option<T>>) { forall i | 0 <= i < |s| :: s[i].Some? }

  /**
    Inlines a node read from the current document; `stack` holds the references being inlined. None stands for a
    reference that leads nowhere. It ends because every reference followed leaves one place fewer that is not on
    the stack, and otherwise the node gets smaller.
   */
  function Walk(docs: Documents, pointers: set<string>, node: Node, current: string, stack: set<Key>): Option<Node>
    requires Closed(docs, pointers) && Pointers(node) <= pointers
    decreases |Places(docs, pointers) - stack|, node
  {
    match node
    case Dict(fields) =>
      if REF in fields then
        if !fields[REF].Text? then None
        else
          var key := Target(fields[REF].s, current);
          if key in stack then Some(Dict(map[]))
          else
            var target := Resolve(docs, key);
            ResolvePointers(docs, pointers, key);
            if target.None? then None
            else
              FewerPlaces(docs, pointers, stack, key);
              Walk(docs, pointers, target.value, key.document, stack + {key})
      else
        var walked := map k | k in fields && k !in DROPPED :: Walk(docs, pointers, fields[k], current, stack);
        if AllSome(walked) then Some(Dict(map k | k in walked :: walked[k].value)) else None
    case Items(items) =>
      var walked := seq(|items|, i requires 0 <= i < |items| => Walk(docs, pointers, items[i], current, stack));
      if EverySome(walked) then Some(Items(seq(|walked|, i requires 0 <= i < |walked| => walked[i].value))) else None
    case _ => Some(node)
  }

  // The node and the document the walk of a whole schema starts with.
  function Start(reference: string): Node { Dict(map[REF := Text(reference)]) }

  function StartDocument(reference: string): string { Partition(reference, '#').0 }

  function AllPointers(docs: Documents, reference: string): set<string> {
    (set d, p | d in docs.Keys && p in Pointers(docs[d]) :: p) + {Partition(reference, '#').1}
  }

  /** Inlines the schema that a reference names. */
  function Inline(docs: Documents, reference: string): Option<Node> {
    Walk(docs, AllPointers(docs, reference), Start(reference), StartDocument(reference), {})
  }

  // ---- Nothing refers any more --------------------------------------------------------------------

  /** No dictionary in a tree has a reference or an annotation. */
  predicate SelfContained(node: Node) {
    match node
    case Dict(fields) => REF !in fields && fields.Keys !! DROPPED && forall k | k in fields :: SelfContained(fields[k])
    case Items(items) => forall i | 0 <= i < |items| :: SelfContained(items[i])
    case _ => true
  }

  lemma {:induction false} WalkSelfContained(docs: Documents, pointers: set<string>, node: Node, current: string,
                                             stack: set<Key>)
    requires Closed(docs, pointers) && Pointers(node) <= pointers
    ensures var r := Walk(docs, pointers, node, current, stack); r.Some? ==> SelfContained(r.value)
    decreases |Places(docs, pointers) - stack|, node
  {
    match node
    case Dict(fields) =>
      if REF in fields {
        if fields[REF].Text? {
          var key := Target(fields[REF].s, current);
          var target := Resolve(docs, key);
          if key !in stack && target.Some? {
            ResolvePointers(docs, pointers, key);
            FewerPlaces(docs, pointers, stack, key);
            WalkSelfContained(docs, pointers, target.value, key.document, stack + {key});
          }
        }
      } else {
        forall k | k in fields && k !in DROPPED
          ensures var r := Walk(docs, pointers, fields[k], current, stack); r.Some? ==> SelfContained(r.value)
        {
          WalkSelfContained(docs, pointers, fields[k], current, stack);
        }
      }
    case Items(items) =>
      forall i | 0 <= i < |items|
        ensures var r := Walk(docs, pointers, items[i], current, stack); r.Some? ==> SelfContained(r.value)
      {
        WalkSelfContained(docs, pointers, items[i], current, stack);
      }
    case _ =>
  }

  /** Whatever the documents, inlining gives a finite schema without references and annotations, or reports a dead one. */
  lemma InlineSelfContained(docs: Documents, reference: string)
    ensures Inline(docs, reference).Some? ==> SelfContained(Inline(docs, reference).value)
  {
    WalkSelfContained(docs, AllPointers(docs, reference), Start(reference), StartDocument(reference), {});
  }

  /** Annotations go by their names alone: what stays of a dictionary are exactly the other members. */
  lemma KeysKept(docs: Documents, pointers: set<string>, fields: map<string, Node>, current: string, stack: set<Key>)
    requires Closed(docs, pointers) && Pointers(Dict(fields)) <= pointers && REF !in fields
    ensures var r := Walk(docs, pointers, Dict(fields), current, stack);
            r.Some? ==> r.value.Dict? && r.value.fields.Keys == fields.Keys - DROPPED
  {
  }

  // ---- Without circles ----------------------------------------------------------------------------

  // The keys of the references below a node that the walk would follow.
  predicate Below(rank: Key -> nat, node: Node, current: string, bound: nat) {
    match node
    case Dict(fields) =>
      if REF in fields then fields[REF].Text? ==> rank(Target(fields[REF].s, current)) < bound
      else forall k | k in fields && k !in DROPPED :: Below(rank, fields[k], current, bound)
    case Items(items) => forall i | 0 <= i < |items| :: Below(rank, items[i], current, bound)
    case _ => true
  }

  /** Every reference leads to a place whose own references rank lower: there is no circle. */
  ghost predicate Acyclic(docs: Documents, rank: Key -> nat) {
    forall key: Key | Resolve(docs, key).Some? :: Below(rank, Resolve(docs, key).value, key.document, rank(key))
  }

  /** Plain inlining, which knows no stack: every reference is replaced by what it leads to. */
  function Plain(docs: Documents, rank: Key -> nat, node: Node, current: string, bound: nat): Option<Node>
    requires Acyclic(docs, rank) && Below(rank, node, current, bound)
    decreases bound, node
  {
    match node
    case Dict(fields) =>
      if REF in fields then
        if !fields[REF].Text? then None
        else
          var key := Target(fields[REF].s, current);
          var target := Resolve(docs, key);
          if target.None? then None else Plain(docs, rank, target.value, key.document, rank(key))
      else
        var walked := map k | k in fields && k !in DROPPED :: Plain(docs, rank, fields[k], current, bound);
        if AllSome(walked) then Some(Dict(map k | k in walked :: walked[k].value)) else None
    case Items(items) =>
      var walked := seq(|items|, i requires 0 <= i < |items| => Plain(docs, rank, items[i], current, bound));
      if EverySome(walked) then Some(Items(seq(|walked|, i requires 0 <= i < |walked| => walked[i].value))) else None
    case _ => Some(node)
  }

  /** Where the references run in no circle, the walk is plain inlining: the cut never happens. */
  lemma {:induction false} WalkIsPlain(docs: Documents, pointers: set<string>, rank: Key -> nat, node: Node,
                                       current: string, stack: set<Key>, bound: nat)
    requires Closed(docs, pointers) && Pointers(node) <= pointers
    requires Acyclic(docs, rank) && Below(rank, node, current, bound) && forall key | key in stack :: rank(key) >= bound
    ensures Walk(docs, pointers, node, current, stack) == Plain(docs, rank, node, current, bound)
    decreases bound, node
  {
    match node
    case Dict(fields) =>
      if REF in fields {
        if fields[REF].Text? {
          var key := Target(fields[REF].s, current);
          var target := Resolve(docs, key);
          assert key !in stack;
          if target.Some? {
            ResolvePointers(docs, pointers, key);
            WalkIsPlain(docs, pointers, rank, target.value, key.document, stack + {key}, rank(key));
          }
        }
      } else {
        DictIsPlain(docs, pointers, rank, fields, current, stack, bound);
      }
    case Items(items) =>
      forall i | 0 <= i < |items|
        ensures Walk(docs, pointers, items[i], current, stack) == Plain(docs, rank, items[i], current, bound)
      {
        WalkIsPlain(docs, pointers, rank, items[i], current, stack, bound);
      }
      assert seq(|items|, i requires 0 <= i < |items| => Walk(docs, pointers, items[i], current, stack))
             == seq(|items|, i requires 0 <= i < |items| => Plain(docs, rank, items[i], current, bound));
    case _ =>
  }

  lemma {:induction false} DictIsPlain(docs: Documents, pointers: set<string>, rank: Key -> nat, fields: map<string, Node>,
                                       current: string, stack: set<Key>, bound: nat)
    requires Closed(docs, pointers) && Pointers(Dict(fields)) <= pointers && REF !in fields
    requires Acyclic(docs, rank) && Below(rank, Dict(fields), current, bound)
    requires forall key | key in stack :: rank(key) >= bound
    ensures Walk(docs, pointers, Dict(fields), current, stack) == Plain(docs, rank, Dict(fields), current, bound)
    decreases bound, Dict(fields), 0
  {
    forall k | k in fields && k !in DROPPED
      ensures Walk(docs, pointers, fields[k], current, stack) == Plain(docs, rank, fields[k], current, bound)
    {
      WalkIsPlain(docs, pointers, rank, fields[k], current, stack, bound);
    }
    assert (map k | k in fields && k !in DROPPED :: Walk(docs, pointers, fields[k], current, stack))
           == (map k | k in fields && k !in DROPPED :: Plain(docs, rank, fields[k], current, bound));
  }

  function StartKey(reference: string): Key { Target(reference, StartDocument(reference)) }

  /** Where the references run in no circle, a schema is inlined in full. */
  lemma InlineIsPlain(docs: Documents, rank: Key -> nat, reference: string)
    requires Acyclic(docs, rank)
    ensures Below(rank, Start(reference), StartDocument(reference), rank(StartKey(reference)) + 1)
    ensures Inline(docs, reference)
            == Plain(docs, rank, Start(reference), StartDocument(reference), rank(StartKey(reference)) + 1)
  {
    var pointers := AllPointers(docs, reference);
    WalkIsPlain(docs, pointers, rank, Start(reference), StartDocument(reference), {}, rank(StartKey(reference)) + 1);
  }

  // ---- Dead references ----------------------------------------------------------------------------

  // Below a node, outside of what is dropped, as far as the first reference on every way.
  predicate Meets(node: Node, sub: Node) {
    node == sub
    || match node
       case Dict(fields) => REF !in fields && exists k | k in fields && k !in DROPPED :: Meets(fields[k], sub)
       case Items(items) => exists i | 0 <= i < |items| :: Meets(items[i], sub)
       case _ => false
  }

  predicate IsReference(node: Node) { node.Dict? && REF in node.fields }

  /** A reference that is no text, or leads nowhere. */
  predicate IsDead(docs: Documents, node: Node, current: string) {
    IsReference(node)
    && (!node.fields[REF].Text? || Resolve(docs, Target(node.fields[REF].s, current)).None?)
  }

  // Following references in turn, none twice, leads from a node to a dead one.
  predicate DeadEnd(docs: Documents, node: Node, current: string, stack: set<Key>, path: seq<Node>)
    decreases |path|
  {
    path != [] && Meets(node, path[0]) && IsReference(path[0])
    && if |path| == 1 then IsDead(docs, path[0], current) && !Followed(path[0], current, stack)
       else
         && path[0].fields[REF].Text?
         && var key := Target(path[0].fields[REF].s, current);
            key !in stack && Resolve(docs, key).Some?
            && DeadEnd(docs, Resolve(docs, key).value, key.document, stack + {key}, path[1..])
  }

  predicate Followed(node: Node, current: string, stack: set<Key>)
    requires IsReference(node)
  {
    node.fields[REF].Text? && Target(node.fields[REF].s, current) in stack
  }

  lemma {:induction false} FindsDead(docs: Documents, pointers: set<string>, node: Node, current: string, stack: set<Key>)
    returns (path: seq<Node>)
    requires Closed(docs, pointers) && Pointers(node) <= pointers
    requires Walk(docs, pointers, node, current, stack).None?
    ensures DeadEnd(docs, node, current, stack, path)
    decreases |Places(docs, pointers) - stack|, node
  {
    if IsReference(node) {
      path := [node];
      if !IsDead(docs, node, current) {
        var key := Target(node.fields[REF].s, current);
        var target := Resolve(docs, key).value;
        ResolvePointers(docs, pointers, key);
        FewerPlaces(docs, pointers, stack, key);
        var rest := FindsDead(docs, pointers, target, key.document, stack + {key});
        path := [node] + rest;
        assert path[1..] == rest;
      }
    } else if node.Dict? {
      var k :| k in node.fields && k !in DROPPED && Walk(docs, pointers, node.fields[k], current, stack).None?;
      path := FindsDead(docs, pointers, node.fields[k], current, stack);
    } else {
      var i :| 0 <= i < |node.items| && Walk(docs, pointers, node.items[i], current, stack).None?;
      path := FindsDead(docs, pointers, node.items[i], current, stack);
    }
  }

  lemma {:induction false} DeadStops(docs: Documents, pointers: set<string>, node: Node, current: string, stack: set<Key>,
                                     path: seq<Node>)
    requires Closed(docs, pointers) && Pointers(node) <= pointers && DeadEnd(docs, node, current, stack, path)
    ensures Walk(docs, pointers, node, current, stack).None?
    decreases |path|, node
  {
    if node == path[0] {
      if |path| > 1 {
        var key := Target(node.fields[REF].s, current);
        ResolvePointers(docs, pointers, key);
        FewerPlaces(docs, pointers, stack, key);
        DeadStops(docs, pointers, Resolve(docs, key).value, key.document, stack + {key}, path[1..]);
      }
    } else if node.Dict? {
      var k :| k in node.fields && k !in DROPPED && Meets(node.fields[k], path[0]);
      DeadStops(docs, pointers, node.fields[k], current, stack, path);
      FieldStops(docs, pointers, node.fields, current, stack, k);
    } else {
      var i :| 0 <= i < |node.items| && Meets(node.items[i], path[0]);
      DeadStops(docs, pointers, node.items[i], current, stack, path);
      ItemStops(docs, pointers, node.items, current, stack, i);
    }
  }

  lemma FieldStops(docs: Documents, pointers: set<string>, fields: map<string, Node>, current: string, stack: set<Key>,
                   k: string)
    requires Closed(docs, pointers) && Pointers(Dict(fields)) <= pointers && REF !in fields
    requires k in fields && k !in DROPPED && Walk(docs, pointers, fields[k], current, stack).None?
    ensures Walk(docs, pointers, Dict(fields), current, stack).None?
  {
    var walked := map j | j in fields && j !in DROPPED :: Walk(docs, pointers, fields[j], current, stack);
    assert walked[k].None?;
  }

  lemma ItemStops(docs: Documents, pointers: set<string>, items: seq<Node>, current: string, stack: set<Key>, i: nat)
    requires Closed(docs, pointers) && Pointers(Items(items)) <= pointers
    requires i < |items| && Walk(docs, pointers, items[i], current, stack).None?
    ensures Walk(docs, pointers, Items(items), current, stack).None?
  {
    var walked := seq(|items|, j requires 0 <= j < |items| => Walk(docs, pointers, items[j], current, stack));
    assert walked[i].None?;
  }

  /** Inlining is refused exactly when following references from the schema, none twice, leads to a dead one. */
  lemma InlineRefusedExactly(docs: Documents, reference: string)
    ensures Inline(docs, reference).None? <==>
            exists path :: DeadEnd(docs, Start(reference), StartDocument(reference), {}, path)
  {
    var pointers := AllPointers(docs, reference);
    if Inline(docs, reference).None? {
      var path := FindsDead(docs, pointers, Start(reference), StartDocument(reference), {});
      assert exists path :: DeadEnd(docs, Start(reference), StartDocument(reference), {}, path);
    } else if exists path :: DeadEnd(docs, Start(reference), StartDocument(reference), {}, path) {
      var path :| DeadEnd(docs, Start(reference), StartDocument(reference), {}, path);
      DeadStops(docs, pointers, Start(reference), StartDocument(reference), {}, path);
      assert false;
    }
  }
}
