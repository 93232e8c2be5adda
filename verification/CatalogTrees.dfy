/**
  Two-level lists: every parent row carries a surrogate key under which the rows of its own list are stored in
  a second table, which several kinds of parents may share.
 */
module CatalogTrees {
  import opened Wrappers
  import opened CatalogRows

  datatype Keyed<L, P> = Keyed(key: L, cells: P)

  datatype Node<P, V> = Node(cells: P, children: seq<V>)

  // The parent rows of a list; `key` gives the surrogate key of the element at a position.
  function Parents<L, P, V>(key: nat -> L, nodes: seq<Node<P, V>>): (ps: seq<Keyed<L, P>>)
    ensures |ps| == |nodes| && forall i | 0 <= i < |ps| :: ps[i] == Keyed(key(i), nodes[i].cells)
  {
    seq(|nodes|, i requires 0 <= i < |nodes| => Keyed(key(i), nodes[i].cells))
  }

  // The child table with the lists of the first n elements inserted.
  function WithChildren<L, P, V>(children: Table<L, V>, key: nat -> L, nodes: seq<Node<P, V>>, n: nat): Table<L, V>
    requires n <= |nodes|
  {
    if n == 0 then children
    else WithChildren(children, key, nodes, n - 1) + Rows(key(n - 1), nodes[n - 1].children, 0)
  }

  function Attach<L(==), P, V>(parents: seq<Keyed<L, P>>, children: Table<L, V>): (nodes: seq<Node<P, V>>)
    ensures |nodes| == |parents|
    ensures forall i | 0 <= i < |nodes| :: nodes[i] == Node(parents[i].cells, ListOf(children, parents[i].key))
  {
    seq(|parents|, i requires 0 <= i < |parents| => Node(parents[i].cells, ListOf(children, parents[i].key)))
  }

  /** The two-level list of one owner. */
  function TreeOf<K(==), L(==), P, V>(parents: Table<K, Keyed<L, P>>, children: Table<L, V>, owner: K): seq<Node<P, V>> {
    Attach(ListOf(parents, owner), children)
  }

  // The keys of the new elements differ from each other and from every key in use.
  ghost predicate FreshKeys<L, V>(children: Table<L, V>, key: nat -> L, n: nat) {
    && (forall i: nat, j: nat | i < j < n :: key(i) != key(j))
    && (forall i: nat, r | i < n && r in children :: r.owner != key(i))
  }

  lemma {:induction false} ChildOwners<L, P, V>(children: Table<L, V>, key: nat -> L, nodes: seq<Node<P, V>>, n: nat)
    requires n <= |nodes|
    ensures forall r | r in WithChildren(children, key, nodes, n) :: r in children || exists i: nat :: i < n && r.owner == key(i)
  {
    if n > 0 {
      ChildOwners(children, key, nodes, n - 1);
    }
  }

  lemma {:induction false} ChildLists<L, P, V>(children: Table<L, V>, key: nat -> L, nodes: seq<Node<P, V>>, n: nat,
                                               owner: L)
    requires n <= |nodes| && FreshKeys(children, key, n)
    ensures forall i: nat | i < n && owner == key(i) :: ListOf(WithChildren(children, key, nodes, n), owner) == nodes[i].children
    ensures (forall i: nat | i < n :: owner != key(i)) ==>
              ListOf(WithChildren(children, key, nodes, n), owner) == ListOf(children, owner)
  {
    if n > 0 {
      var before := WithChildren(children, key, nodes, n - 1);
      ChildLists(children, key, nodes, n - 1, owner);
      ChildOwners(children, key, nodes, n - 1);
      InsertList(before, key(n - 1), nodes[n - 1].children, 0, owner);
    }
  }

  lemma {:induction false} ChildrenOrdered<L, P, V>(children: Table<L, V>, key: nat -> L, nodes: seq<Node<P, V>>, n: nat)
    requires n <= |nodes| && FreshKeys(children, key, n) && Ordered(children)
    ensures Ordered(WithChildren(children, key, nodes, n))
  {
    if n > 0 {
      ChildrenOrdered(children, key, nodes, n - 1);
      ChildOwners(children, key, nodes, n - 1);
    }
  }

  /** Inserting a two-level list gives its owner that list and leaves every other owner's as it was. */
  lemma InsertTree<K, L, P, V>(parents: Table<K, Keyed<L, P>>, children: Table<L, V>, owner: K, key: nat -> L,
                               nodes: seq<Node<P, V>>, other: K)
    requires forall r | r in parents :: r.owner != owner
    requires FreshKeys(children, key, |nodes|)
    requires forall i: nat, r | i < |nodes| && r in parents :: r.cells.key != key(i)
    ensures TreeOf(parents + Rows(owner, Parents(key, nodes), 0), WithChildren(children, key, nodes, |nodes|), other)
            == if other == owner then nodes else TreeOf(parents, children, other)
  {
    var added := WithChildren(children, key, nodes, |nodes|);
    InsertList(parents, owner, Parents(key, nodes), 0, other);
    var list := ListOf(parents + Rows(owner, Parents(key, nodes), 0), other);
    forall i | 0 <= i < |list|
      ensures ListOf(added, list[i].key) == if other == owner then nodes[i].children else ListOf(children, list[i].key)
    {
      if other == owner {
        assert list[i] == Keyed(key(i), nodes[i].cells);
      } else {
        var r := Part(parents, other)[i];
        assert r in parents && r.cells == list[i];
      }
      ChildLists(children, key, nodes, |nodes|, list[i].key);
    }
  }

  // Lists kept under other keys of the shared child table stay as they are.
  lemma TreeUntouched<K, L, P, Q, V>(parents: Table<K, Keyed<L, P>>, children: Table<L, V>, key: nat -> L,
                                     nodes: seq<Node<Q, V>>, owner: K)
    requires FreshKeys(children, key, |nodes|)
    requires forall i: nat, r | i < |nodes| && r in parents :: r.cells.key != key(i)
    ensures TreeOf(parents, WithChildren(children, key, nodes, |nodes|), owner) == TreeOf(parents, children, owner)
  {
    var list := ListOf(parents, owner);
    forall i | 0 <= i < |list|
      ensures ListOf(WithChildren(children, key, nodes, |nodes|), list[i].key) == ListOf(children, list[i].key)
    {
      var r := Part(parents, owner)[i];
      assert r in parents && r.cells == list[i];
      ChildLists(children, key, nodes, |nodes|, list[i].key);
    }
  }

  /** The loop that writes a two-level list. */
  method InsertNodes<K, L, P, V>(parents: Table<K, Keyed<L, P>>, children: Table<L, V>, owner: K, key: nat -> L,
                                 nodes: seq<Node<P, V>>)
    returns (parentsAfter: Table<K, Keyed<L, P>>, childrenAfter: Table<L, V>)
    ensures parentsAfter == parents + Rows(owner, Parents(key, nodes), 0)
    ensures childrenAfter == WithChildren(children, key, nodes, |nodes|)
  {
    parentsAfter, childrenAfter := parents, children;
    for i := 0 to |nodes|
      invariant parentsAfter == parents + Rows(owner, Parents(key, nodes), 0)[..i]
      invariant childrenAfter == WithChildren(children, key, nodes, i)
    {
      parentsAfter := parentsAfter + [Row(owner, i, Keyed(key(i), nodes[i].cells))];
      childrenAfter := InsertRows(childrenAfter, key(i), nodes[i].children, 0);
    }
  }

  // Handing one more parent row, with its group of children, to its owner.
  lemma AttachOne<K, L, P, V>(lists: map<K, seq<Node<P, V>>>, values: map<L, seq<V>>, parents: Table<K, Keyed<L, P>>,
                                  r: Row<K, Keyed<L, P>>, children: Table<L, V>)
    requires forall owner :: At(lists, owner) == TreeOf(parents, children, owner)
    requires At(values, r.cells.key) == ListOf(children, r.cells.key)
    ensures var after := lists[r.owner := At(lists, r.owner) + [Node(r.cells.cells, At(values, r.cells.key))]];
            forall owner :: At(after, owner) == TreeOf(parents + [r], children, owner)
  {
    var after := lists[r.owner := At(lists, r.owner) + [Node(r.cells.cells, At(values, r.cells.key))]];
    forall owner ensures At(after, owner) == TreeOf(parents + [r], children, owner) {
      assert At(lists, owner) == TreeOf(parents, children, owner);
    }
  }

  /**
    The loops that read two-level lists: the children are grouped first, then each parent row takes the group of
    its key. `parentRows` and `childRows` are what the two queries returned.
   */
  method CollectNodes<K, L(==), P, V>(parentRows: Table<K, Keyed<L, P>>, childRows: Table<L, V>)
    returns (lists: map<K, seq<Node<P, V>>>)
    ensures forall owner :: At(lists, owner) == TreeOf(parentRows, childRows, owner)
  {
    var values := Collect(childRows);
    lists := map[];
    for i := 0 to |parentRows|
      invariant forall owner :: At(lists, owner) == TreeOf(parentRows[..i], childRows, owner)
    {
      var r := parentRows[i];
      AttachOne(lists, values, parentRows[..i], r, childRows);
      assert parentRows[..i + 1] == parentRows[..i] + [r];
      lists := lists[r.owner := At(lists, r.owner) + [Node(r.cells.cells, At(values, r.cells.key))]];
    }
    assert parentRows[..|parentRows|] == parentRows;
  }

  /** Whatever order the two queries return their rows in, the two-level lists of the owner are the stored ones. */
  lemma AnyTreeAnswer<K(!new), L(!new), P(!new), V(!new)>(
    parents: Table<K, Keyed<L, P>>, children: Table<L, V>, f: K -> bool, g: L -> bool,
    parentRows: Table<K, Keyed<L, P>>, childRows: Table<L, V>, owner: K)
    requires Ordered(parents) && Ordered(children)
    requires Answers(parents, f, parentRows) && Answers(children, g, childRows)
    requires f(owner) && forall r | r in parents && r.owner == owner :: g(r.cells.key)
    ensures TreeOf(parentRows, childRows, owner) == TreeOf(parents, children, owner)
  {
    AnyAnswer(parents, f, parentRows, owner);
    var list := ListOf(parents, owner);
    forall i | 0 <= i < |list| ensures ListOf(childRows, list[i].key) == ListOf(children, list[i].key) {
      var r := Part(parents, owner)[i];
      assert r in parents && r.cells == list[i];
      AnyAnswer(children, g, childRows, list[i].key);
    }
  }
}
