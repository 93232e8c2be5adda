/** The closure of one type in a schema module: the worklist that copies a type and everything it refers to. */
module TypeClosure {
  import opened Wrappers

  // The types a definition refers to; a type without an entry is not defined in the module.
  type Module = map<string, seq<string>>

  // A chain of references.
  predicate IsPath(m: Module, p: seq<string>) {
    p != [] && forall i | 0 <= i < |p| - 1 :: p[i] in m && p[i + 1] in m[p[i]]
  }

  ghost predicate Reaches(m: Module, root: string, t: string) {
    exists p: seq<string> :: IsPath(m, p) && p[0] == root && p[|p| - 1] == t
  }

  lemma ReachesSelf(m: Module, root: string)
    ensures Reaches(m, root, root)
  {
    assert IsPath(m, [root]);
  }

  lemma ReachesNext(m: Module, root: string, t: string, u: string)
    requires Reaches(m, root, t) && t in m && u in m[t]
    ensures Reaches(m, root, u)
  {
    var p: seq<string> :| IsPath(m, p) && p[0] == root && p[|p| - 1] == t;
    var q := p + [u];
    forall i | 0 <= i < |q| - 1 ensures q[i] in m && q[i + 1] in m[q[i]] {
      if i < |p| - 1 {
        assert q[i] == p[i] && q[i + 1] == p[i + 1];
      }
    }
    assert IsPath(m, q) && q[0] == root && q[|q| - 1] == u;
  }

  predicate Complete(m: Module, s: set<string>) { forall t | t in s :: t in m && forall u | u in m[t] :: u in s }

  lemma {:induction false} PathStays(m: Module, s: set<string>, p: seq<string>)
    requires Complete(m, s) && IsPath(m, p) && p[0] in s
    ensures p[|p| - 1] in s
    decreases |p|
  {
    if |p| > 1 {
      var front := p[..|p| - 1];
      assert forall i | 0 <= i < |front| :: front[i] == p[i];
      PathStays(m, s, front);
      assert p[|p| - 2] in s && p[|p| - 2 + 1] in m[p[|p| - 2]];
    }
  }

  // A complete set holds everything that is reachable from its members.
  lemma CompleteHolds(m: Module, s: set<string>, root: string, t: string)
    requires Complete(m, s) && root in s && Reaches(m, root, t)
    ensures t in s
  {
    var p: seq<string> :| IsPath(m, p) && p[0] == root && p[|p| - 1] == t;
    PathStays(m, s, p);
  }

  predicate Distinct(order: seq<string>) { forall i, j | 0 <= i < j < |order| :: order[i] != order[j] }

  /**
    The worklist. It gives every type reachable from the root once, the root first, or reports a reachable type
    that the module does not define; one of the two, exactly when there is such a type.
   */
  method Closure(m: Module, root: string) returns (order: Option<seq<string>>)
    ensures order.Some? ==>
              && Distinct(order.value) && (forall t :: t in order.value <==> Reaches(m, root, t))
              && order.value != [] && order.value[0] == root
    ensures order.None? <==> exists t :: Reaches(m, root, t) && t !in m
  {
    var seen: set<string>, done: seq<string>, todo := {}, [], [root];
    ReachesSelf(m, root);
    while todo != []
      invariant (forall t | t in todo :: Reaches(m, root, t)) && (forall t | t in seen :: Reaches(m, root, t) && t in m)
      invariant forall t | t in seen :: forall u | u in m[t] :: u in seen || u in todo
      invariant root in seen || root in todo
      invariant Distinct(done) && (forall t :: t in done <==> t in seen)
      invariant if done == [] then todo == [root] else done[0] == root
      decreases m.Keys - seen, |todo|
    {
      var t := todo[0];
      ghost var before := todo;
      todo := todo[1..];
      assert before == [t] + todo;
      if t !in seen {
        if t !in m {
          return None;
        }
        seen := seen + {t};
        done := done + [t];
        var refs := Unseen(m[t], seen);
        forall u | u in refs ensures Reaches(m, root, u) {
          ReachesNext(m, root, t, u);
        }
        todo := todo + refs;
      }
    }
    forall t | Reaches(m, root, t) ensures t in seen {
      CompleteHolds(m, seen, root, t);
    }
    order := Some(done);
  }

  // The references that have not been taken up yet, in their order.
  method Unseen(refs: seq<string>, seen: set<string>) returns (out: seq<string>)
    ensures forall u :: u in out <==> u in refs && u !in seen
  {
    out := [];
    for i := 0 to |refs|
      invariant forall u :: u in out <==> u in refs[..i] && u !in seen
    {
      assert refs[..i + 1] == refs[..i] + [refs[i]];
      if refs[i] !in seen {
        out := out + [refs[i]];
      }
    }
    assert refs[..|refs|] == refs;
  }
}
