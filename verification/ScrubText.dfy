/**
  Scrubbing one string: every listed secret is replaced by a fixed text, every listed identifier by a mask of
  its own length. The search for a secret goes on from where the replacement starts, not behind it.
 */
module ScrubText {
  import opened Wrappers

  // ---- Occurrences --------------------------------------------------------------------------------

  predicate OccursAt(s: string, x: string, i: int) {
    0 <= i && i + |x| <= |s| && forall k | 0 <= k < |x| :: s[i + k] == x[k]
  }

  predicate Contains(s: string, x: string) { exists i | 0 <= i <= |s| :: OccursAt(s, x, i) }

  // The first occurrence at or after a position.
  function Find(s: string, x: string, from: nat): (r: Option<nat>)
    ensures r.Some? ==> from <= r.value && r.value + |x| <= |s|
    decreases |s| + 1 - from
  {
    if from + |x| > |s| then None
    else if OccursAt(s, x, from) then Some(from)
    else Find(s, x, from + 1)
  }

  lemma {:induction false} FindSpec(s: string, x: string, from: nat)
    ensures var r := Find(s, x, from);
            && (r.Some? ==> OccursAt(s, x, r.value))
            && forall i | from <= i < (if r.Some? then r.value else |s| + 1) :: !OccursAt(s, x, i)
    decreases |s| + 1 - from
  {
    if from + |x| <= |s| && !OccursAt(s, x, from) {
      FindSpec(s, x, from + 1);
    }
  }

  lemma FindSome(s: string, x: string, from: nat, i: nat)
    requires from <= i && OccursAt(s, x, i)
    ensures Find(s, x, from).Some? && OccursAt(s, x, Find(s, x, from).value)
  {
    FindSpec(s, x, from);
  }

  method FindFrom(s: string, x: string, from: nat) returns (r: Option<nat>)
    ensures r == Find(s, x, from)
  {
    var i := from;
    while i + |x| <= |s|
      invariant from <= i && Find(s, x, from) == Find(s, x, i)
      decreases |s| - i
    {
      if OccursAt(s, x, i) {
        return Some(i);
      }
      i := i + 1;
    }
    r := None;
  }

  // ---- Secrets ------------------------------------------------------------------------------------

  function Splice(s: string, q: nat, n: nat, put: string): string
    requires q + n <= |s|
  {
    s[..q] + put + s[q + n..]
  }

  // The state of the loop: the string and the position the next search starts from.
  datatype Place = Place(s: string, p: nat)

  // One round of the loop, when there is one.
  function Next(gone: string, secret: string, at: Place): Option<Place> {
    match Find(at.s, secret, at.p)
    case None => None
    case Some(q) => Some(Place(Splice(at.s, q, |secret|, gone), q))
  }

  // A loop in general: None once it has stopped.
  function Rounds<S>(next: S -> Option<S>, s: S, n: nat): Option<S>
    decreases n
  {
    if n == 0 then Some(s)
    else
      var t := next(s);
      if t.None? then None else Rounds(next, t.value, n - 1)
  }

  lemma {:induction false} Forever<S>(next: S -> Option<S>, good: S -> bool, s: S, n: nat)
    requires forall x | good(x) :: next(x).Some? && good(next(x).value)
    requires good(s)
    ensures Rounds(next, s, n).Some?
    decreases n
  {
    if n > 0 {
      Forever(next, good, next(s).value, n - 1);
    }
  }

  lemma {:induction false} RunsDown<S>(next: S -> Option<S>, good: S -> bool, rank: S -> nat, s: S) returns (n: nat)
    requires forall x | good(x) && next(x).Some? :: good(next(x).value) && rank(next(x).value) < rank(x)
    requires good(s)
    ensures Rounds(next, s, n).None?
    decreases rank(s)
  {
    n := 1;
    if next(s).Some? {
      n := RunsDown(next, good, rank, next(s).value);
      n := n + 1;
    }
  }

  // The loop for one secret is over after n rounds.
  predicate OverAfter(gone: string, secret: string, at: Place, n: nat) {
    Rounds(x => Next(gone, secret, x), at, n).None?
  }

  ghost predicate Halts(gone: string, s: string, secret: string) {
    exists n: nat :: OverAfter(gone, secret, Place(s, 0), n)
  }

  lemma SpliceOccurs(s: string, q: nat, n: nat, put: string)
    requires q + n <= |s|
    ensures OccursAt(Splice(s, q, n, put), put, q)
    ensures |Splice(s, q, n, put)| == |s| - n + |put|
    ensures forall k | 0 <= k < q :: Splice(s, q, n, put)[k] == s[k]
    ensures forall k | q + n <= k < |s| :: Splice(s, q, n, put)[k - n + |put|] == s[k]
  {
  }

  lemma FindInside(gone: string, s: string, secret: string, p: nat, i: nat)
    requires OccursAt(s, gone, p) && OccursAt(gone, secret, i)
    ensures Find(s, secret, p).Some?
  {
    assert OccursAt(s, secret, p + i) by {
      forall k | 0 <= k < |secret| ensures s[p + i + k] == secret[k] {
        assert s[p + (i + k)] == gone[i + k];
      }
    }
    FindSome(s, secret, p, p + i);
  }

  lemma NextKeeps(gone: string, secret: string, at: Place)
    requires OccursAt(at.s, gone, at.p) && Contains(gone, secret)
    ensures var t := Next(gone, secret, at); t.Some? && OccursAt(t.value.s, gone, t.value.p)
  {
    var i :| 0 <= i <= |gone| && OccursAt(gone, secret, i);
    FindInside(gone, at.s, secret, at.p, i);
    SpliceOccurs(at.s, Find(at.s, secret, at.p).value, |secret|, gone);
  }

  // A secret that is not part of the replacement takes at least one character of what follows it.
  lemma MatchEndsBehind(gone: string, s: string, secret: string, p: nat, q: nat)
    requires OccursAt(s, gone, p) && p <= q && OccursAt(s, secret, q) && !Contains(gone, secret)
    ensures q + |secret| > p + |gone|
  {
    if q + |secret| <= p + |gone| {
      assert OccursAt(gone, secret, q - p) by {
        forall k | 0 <= k < |secret| ensures gone[q - p + k] == secret[k] {
          assert s[p + (q - p + k)] == gone[q - p + k];
        }
      }
    }
  }

  lemma NextShrinks(gone: string, secret: string, at: Place)
    requires OccursAt(at.s, gone, at.p) && !Contains(gone, secret)
    ensures var t := Next(gone, secret, at);
            t.Some? ==> OccursAt(t.value.s, gone, t.value.p) && |t.value.s| - t.value.p < |at.s| - at.p
  {
    var q := Find(at.s, secret, at.p);
    FindSpec(at.s, secret, at.p);
    if q.Some? {
      MatchEndsBehind(gone, at.s, secret, at.p, q.value);
      SpliceOccurs(at.s, q.value, |secret|, gone);
    }
  }

  lemma NextFirst(gone: string, secret: string, s: string)
    ensures var t := Next(gone, secret, Place(s, 0));
            (t.Some? <==> Contains(s, secret)) && (t.Some? ==> OccursAt(t.value.s, gone, t.value.p))
  {
    var q := Find(s, secret, 0);
    FindSpec(s, secret, 0);
    if q.Some? {
      SpliceOccurs(s, q.value, |secret|, gone);
    }
  }

  lemma RunsForever(gone: string, secret: string, at: Place, n: nat)
    requires OccursAt(at.s, gone, at.p) && Contains(gone, secret)
    ensures !OverAfter(gone, secret, at, n)
  {
    forall x: Place | OccursAt(x.s, gone, x.p)
      ensures Next(gone, secret, x).Some? && OccursAt(Next(gone, secret, x).value.s, gone, Next(gone, secret, x).value.p)
    {
      NextKeeps(gone, secret, x);
    }
    Forever(x => Next(gone, secret, x), (x: Place) => OccursAt(x.s, gone, x.p), at, n);
  }

  function Left(x: Place): nat { if x.p <= |x.s| then |x.s| - x.p else 0 }

  lemma RunsOut(gone: string, secret: string, at: Place) returns (n: nat)
    requires OccursAt(at.s, gone, at.p) && !Contains(gone, secret)
    ensures OverAfter(gone, secret, at, n)
  {
    forall x: Place | OccursAt(x.s, gone, x.p) && Next(gone, secret, x).Some?
      ensures var t := Next(gone, secret, x).value; OccursAt(t.s, gone, t.p) && Left(t) < Left(x)
    {
      NextShrinks(gone, secret, x);
    }
    n := RunsDown(x => Next(gone, secret, x), (x: Place) => OccursAt(x.s, gone, x.p), x => Left(x), at);
  }

  lemma OneMore(gone: string, secret: string, at: Place, n: nat)
    ensures var t := Next(gone, secret, at);
            OverAfter(gone, secret, at, n + 1) <==> t.None? || OverAfter(gone, secret, t.value, n)
  {
  }

  /** The loop for one secret ends on a string exactly when the secret is not there or not part of the replacement. */
  lemma HaltsExactly(gone: string, s: string, secret: string)
    ensures Halts(gone, s, secret) <==> !(Contains(s, secret) && Contains(gone, secret))
  {
    NextFirst(gone, secret, s);
    var t := Next(gone, secret, Place(s, 0));
    if t.None? {
      OneMore(gone, secret, Place(s, 0), 0);
    } else if Contains(gone, secret) {
      forall n: nat ensures !OverAfter(gone, secret, Place(s, 0), n) {
        if n == 0 {
        } else {
          OneMore(gone, secret, Place(s, 0), n - 1);
          RunsForever(gone, secret, t.value, n - 1);
        }
      }
    } else {
      var n := RunsOut(gone, secret, t.value);
      OneMore(gone, secret, Place(s, 0), n);
    }
  }

  // The string the loop ends with, from a place where a replacement stands.
  function Cleaned(gone: string, secret: string, at: Place): string
    requires OccursAt(at.s, gone, at.p) && !Contains(gone, secret)
    decreases |at.s| - at.p
  {
    NextShrinks(gone, secret, at);
    var t := Next(gone, secret, at);
    if t.None? then at.s else Cleaned(gone, secret, t.value)
  }

  /** What the loop makes of a string, where it ends. */
  function Clean(gone: string, s: string, secret: string): string
    requires !(Contains(s, secret) && Contains(gone, secret))
  {
    NextFirst(gone, secret, s);
    var t := Next(gone, secret, Place(s, 0));
    if t.None? then s else Cleaned(gone, secret, t.value)
  }

  /** The loop itself. */
  method ReplaceSecret(gone: string, text: string, secret: string) returns (s: string)
    requires !(Contains(text, secret) && Contains(gone, secret))
    ensures s == Clean(gone, text, secret)
  {
    s := text;
    var p: Option<nat> := FindFrom(s, secret, 0);
    NextFirst(gone, secret, s);
    while p.Some?
      invariant p.Some? ==> p.value + |secret| <= |s| && !Contains(gone, secret)
      invariant Clean(gone, text, secret) == Ahead(gone, s, secret, p)
      decreases if p.Some? then |s| - p.value + 1 else 0
    {
      SpliceOccurs(s, p.value, |secret|, gone);
      s := Splice(s, p.value, |secret|, gone);
      NextShrinks(gone, secret, Place(s, p.value));
      p := FindFrom(s, secret, p.value);
    }
  }

  // What is still to come when the next occurrence has been found.
  function Ahead(gone: string, s: string, secret: string, p: Option<nat>): string
    requires p.Some? ==> p.value + |secret| <= |s| && !Contains(gone, secret)
  {
    if p.None? then s
    else
      SpliceOccurs(s, p.value, |secret|, gone);
      Cleaned(gone, secret, Place(Splice(s, p.value, |secret|, gone), p.value))
  }
}
