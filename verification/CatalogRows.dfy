/**
  Child tables: every element of a list becomes a row with its owner and its ordinal, and the list is rebuilt
  from whatever order the database returns the rows in, as long as each owner's rows come by ordinal.
 */
module CatalogRows {
  import opened Wrappers

  datatype Row<K, T> = Row(owner: K, ordinal: nat, cells: T)

  type Table<K, T> = seq<Row<K, T>>

  // The rows of one list, numbered from `base` on.
  function Rows<K, T>(owner: K, items: seq<T>, base: nat): (rows: Table<K, T>)
    ensures |rows| == |items|
    ensures forall i | 0 <= i < |rows| :: rows[i] == Row(owner, base + i, items[i])
  {
    seq(|items|, i requires 0 <= i < |items| => Row(owner, base + i, items[i]))
  }

  // The rows of one owner, in the order of the table.
  function Part<K(==), T>(table: Table<K, T>, owner: K): (part: Table<K, T>)
    ensures forall r | r in part :: r in table && r.owner == owner
  {
    if table == [] then []
    else
      var rest := Part(table[..|table| - 1], owner);
      if table[|table| - 1].owner == owner then rest + [table[|table| - 1]] else rest
  }

  function Cells<K, T>(rows: Table<K, T>): (cells: seq<T>)
    ensures |cells| == |rows| && forall i | 0 <= i < |rows| :: cells[i] == rows[i].cells
  {
    seq(|rows|, i requires 0 <= i < |rows| => rows[i].cells)
  }

  /** The list of one owner. */
  function ListOf<K(==), T>(table: Table<K, T>, owner: K): seq<T> { Cells(Part(table, owner)) }

  // ---- Insertion ----------------------------------------------------------------------------------

  lemma {:induction false} PartConcat<K, T>(a: Table<K, T>, b: Table<K, T>, owner: K)
    ensures Part(a + b, owner) == Part(a, owner) + Part(b, owner)
  {
    if b == [] {
      assert a + b == a;
    } else {
      var front, last := b[..|b| - 1], b[|b| - 1];
      PartConcat(a, front, owner);
      assert (a + b)[..|a + b| - 1] == a + front && (a + b)[|a + b| - 1] == last;
      assert Part(b, owner) == Part(front, owner) + if last.owner == owner then [last] else [];
    }
  }

  lemma {:induction false} PartAll<K, T>(table: Table<K, T>, owner: K)
    requires forall r | r in table :: r.owner == owner
    ensures Part(table, owner) == table
  {
    if table != [] {
      PartAll(table[..|table| - 1], owner);
    }
  }

  lemma {:induction false} PartNone<K, T>(table: Table<K, T>, owner: K)
    requires forall r | r in table :: r.owner != owner
    ensures Part(table, owner) == []
  {
    if table != [] {
      PartNone(table[..|table| - 1], owner);
    }
  }

  /** Inserting a list for an owner that has no rows gives that owner the list, and no other owner anything. */
  lemma InsertList<K, T>(table: Table<K, T>, owner: K, items: seq<T>, base: nat, other: K)
    requires forall r | r in table :: r.owner != owner
    ensures ListOf(table + Rows(owner, items, base), other) == if other == owner then items else ListOf(table, other)
  {
    var rows := Rows(owner, items, base);
    PartConcat(table, rows, other);
    if other == owner {
      PartNone(table, owner);
      PartAll(rows, owner);
      assert Part(table + rows, owner) == rows;
    } else {
      PartNone(rows, other);
    }
  }

  method InsertRows<K, T>(table: Table<K, T>, owner: K, items: seq<T>, base: nat) returns (after: Table<K, T>)
    ensures after == table + Rows(owner, items, base)
  {
    after := table;
    var ordinal := base;
    for i := 0 to |items|
      invariant ordinal == base + i && after == table + Rows(owner, items, base)[..i]
    {
      after := after + [Row(owner, ordinal, items[i])];
      ordinal := ordinal + 1;
    }
  }

  // ---- Queries ------------------------------------------------------------------------------------

  // Each owner's rows come by ascending ordinal, and no two of them share one.
  predicate Ordered<K(==), T>(table: Table<K, T>) {
    forall i, j | 0 <= i < j < |table| && table[i].owner == table[j].owner :: table[i].ordinal < table[j].ordinal
  }

  // The rows a WHERE clause on the owner selects.
  function Selected<K, T>(table: Table<K, T>, f: K -> bool): Table<K, T> {
    if table == [] then []
    else
      var rest := Selected(table[..|table| - 1], f);
      if f(table[|table| - 1].owner) then rest + [table[|table| - 1]] else rest
  }

  predicate Climbs<K(==), T>(answer: Table<K, T>) {
    forall i, j | 0 <= i < j < |answer| && answer[i].owner == answer[j].owner :: answer[i].ordinal <= answer[j].ordinal
  }

  /** What ORDER BY owner, ordinal promises: the selected rows, each owner's by ascending ordinal. */
  ghost predicate Answers<K, T>(table: Table<K, T>, f: K -> bool, answer: Table<K, T>) {
    multiset(answer) == multiset(Selected(table, f)) && Climbs(answer)
  }

  lemma {:induction false} SelectedPart<K, T>(table: Table<K, T>, f: K -> bool, owner: K)
    requires f(owner)
    ensures Part(Selected(table, f), owner) == Part(table, owner)
  {
    if table != [] {
      var front, last := table[..|table| - 1], table[|table| - 1];
      SelectedPart(front, f, owner);
      if f(last.owner) {
        PartConcat(Selected(front, f), [last], owner);
        assert [last][..0] == [];
      }
    }
  }

  // Some order the database may pick; callers rely on nothing but the promise.
  method Query<K, T>(table: Table<K, T>, f: K -> bool) returns (answer: Table<K, T>)
    requires Ordered(table)
    ensures Answers(table, f, answer)
  {
    answer := [];
    for i := 0 to |table|
      invariant answer == Selected(table[..i], f)
      invariant forall r | r in answer :: r in table[..i]
      invariant Climbs(answer)
    {
      assert table[..i + 1][..i] == table[..i];
      if f(table[i].owner) {
        forall j | 0 <= j < |answer| && answer[j].owner == table[i].owner ensures answer[j].ordinal <= table[i].ordinal {
          assert answer[j] in table[..i];
        }
        answer := answer + [table[i]];
      }
    }
    assert table[..|table|] == table;
  }

  predicate Rising<K, T>(rows: Table<K, T>) {
    forall i, j | 0 <= i < j < |rows| :: rows[i].ordinal < rows[j].ordinal
  }

  predicate Climbing<K, T>(rows: Table<K, T>) {
    forall i, j | 0 <= i < j < |rows| :: rows[i].ordinal <= rows[j].ordinal
  }

  lemma {:induction false} PartMultiset<K, T>(table: Table<K, T>, owner: K, r: Row<K, T>)
    ensures multiset(Part(table, owner))[r] == if r.owner == owner then multiset(table)[r] else 0
  {
    if table != [] {
      PartMultiset(table[..|table| - 1], owner, r);
      assert table == table[..|table| - 1] + [table[|table| - 1]];
    }
  }

  lemma SameSize<T>(a: seq<T>, b: seq<T>)
    requires multiset(a) == multiset(b)
    ensures |a| == |b|
  {
    assert |multiset(a)| == |multiset(b)|;
  }

  lemma FrontMultiset<T>(s: seq<T>)
    requires s != []
    ensures multiset(s[..|s| - 1]) == multiset(s) - multiset{s[|s| - 1]}
  {
    assert s == s[..|s| - 1] + [s[|s| - 1]];
  }

  // Rows with distinct ordinals have only one order by ordinal.
  lemma {:induction false} OneOrder<K, T>(a: Table<K, T>, b: Table<K, T>)
    requires multiset(a) == multiset(b) && Rising(a) && Climbing(b)
    ensures a == b
  {
    SameSize(a, b);
    if a != [] {
      var n := |a| - 1;
      var p, q := a[..n], b[..n];
      LastIsMax(a, b);
      SameFront(a, b);
      assert Rising(p) && Climbing(q);
      OneOrder(p, q);
      assert a == p + [a[n]] && b == q + [b[n]];
    }
  }

  lemma SameFront<T>(a: seq<T>, b: seq<T>)
    requires |a| == |b| > 0 && multiset(a) == multiset(b) && a[|a| - 1] == b[|b| - 1]
    ensures multiset(a[..|a| - 1]) == multiset(b[..|b| - 1])
  {
    FrontMultiset(a);
    FrontMultiset(b);
  }

  lemma LastIsMax<K, T>(a: Table<K, T>, b: Table<K, T>)
    requires multiset(a) == multiset(b) && Rising(a) && Climbing(b) && a != [] && |b| == |a|
    ensures a[|a| - 1] == b[|b| - 1]
  {
    var n := |a| - 1;
    assert a[n] in multiset(b) && b[n] in multiset(a);
    var i :| 0 <= i < |a| && a[i] == b[n];
    var j :| 0 <= j < |b| && b[j] == a[n];
  }

  lemma {:induction false} PartRising<K, T>(table: Table<K, T>, owner: K)
    requires Ordered(table)
    ensures Rising(Part(table, owner))
  {
    if table != [] {
      var front := table[..|table| - 1];
      PartRising(front, owner);
      assert forall r | r in Part(front, owner) :: r in front;
      forall i | 0 <= i < |Part(front, owner)| && table[|table| - 1].owner == owner
        ensures Part(front, owner)[i].ordinal < table[|table| - 1].ordinal
      {
        var r := Part(front, owner)[i];
        var k :| 0 <= k < |front| && front[k] == r;
        assert table[k] == r;
      }
    }
  }

  lemma {:induction false} PartClimbing<K, T>(answer: Table<K, T>, owner: K)
    requires Climbs(answer)
    ensures Climbing(Part(answer, owner))
  {
    if answer != [] {
      var front := answer[..|answer| - 1];
      PartClimbing(front, owner);
      forall i | 0 <= i < |Part(front, owner)| && answer[|answer| - 1].owner == owner
        ensures Part(front, owner)[i].ordinal <= answer[|answer| - 1].ordinal
      {
        var r := Part(front, owner)[i];
        assert r in front;
        var k :| 0 <= k < |front| && front[k] == r;
        assert answer[k] == r;
      }
    }
  }

  /** Whatever order the database picks, each owner gets its own list in posted order. */
  lemma AnyAnswer<K(!new), T(!new)>(table: Table<K, T>, f: K -> bool, answer: Table<K, T>, owner: K)
    requires Ordered(table) && Answers(table, f, answer) && f(owner)
    ensures ListOf(answer, owner) == ListOf(table, owner)
  {
    SelectedPart(table, f, owner);
    PartRising(table, owner);
    PartClimbing(answer, owner);
    SamePart(Selected(table, f), answer, owner);
    OneOrder(Part(table, owner), Part(answer, owner));
  }

  lemma SamePart<K(!new), T(!new)>(a: Table<K, T>, b: Table<K, T>, owner: K)
    requires multiset(a) == multiset(b)
    ensures multiset(Part(a, owner)) == multiset(Part(b, owner))
  {
    var p, q := multiset(Part(a, owner)), multiset(Part(b, owner));
    forall r: Row<K, T> ensures p[r] == q[r] {
      PartMultiset(a, owner, r);
      PartMultiset(b, owner, r);
    }
  }

  function At<K, T>(lists: map<K, seq<T>>, owner: K): seq<T> { if owner in lists then lists[owner] else [] }

  lemma ListSnoc<K, T>(table: Table<K, T>, r: Row<K, T>, owner: K)
    ensures ListOf(table + [r], owner) == ListOf(table, owner) + if r.owner == owner then [r.cells] else []
  {
    assert (table + [r])[..|table|] == table;
  }

  /** Groups the rows of an answer by owner, as the loaders do. */
  method Collect<K, T>(answer: Table<K, T>) returns (lists: map<K, seq<T>>)
    ensures forall owner :: At(lists, owner) == ListOf(answer, owner)
  {
    lists := map[];
    for i := 0 to |answer|
      invariant forall owner :: At(lists, owner) == ListOf(answer[..i], owner)
    {
      var r := answer[i];
      ghost var before := lists;
      lists := lists[r.owner := At(lists, r.owner) + [r.cells]];
      forall owner ensures At(lists, owner) == ListOf(answer[..i + 1], owner) {
        ListSnoc(answer[..i], r, owner);
        assert answer[..i + 1] == answer[..i] + [r];
        assert At(before, owner) == ListOf(answer[..i], owner);
      }
    }
    assert answer[..|answer|] == answer;
  }
}
