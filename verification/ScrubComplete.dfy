/** Scrubbing leaves no listed secret and no listed identifier behind, in a string or in a whole document. */
module ScrubComplete {
  import opened Wrappers
  import opened ScrubText

  const GONE := "[secret: not retained]"

  // ---- Secrets ------------------------------------------------------------------------------------

  predicate Without(x: string, c: char) { forall k | 0 <= k < |x| :: x[k] != c }

  // Placed at this offset from the replacement, the text agrees with it wherever they meet.
  predicate MeetsAt(gone: string, x: string, o: int) {
    forall k | 0 <= k < |x| && 0 <= o + k < |gone| :: x[k] == gone[o + k]
  }

  /** A text that can lie across the replacement, inside it or around it. */
  predicate Overlaps(gone: string, x: string) { exists o | -|x| < o < |gone| :: MeetsAt(gone, x, o) }

  // An occurrence in a spliced string lies wholly before or wholly behind the splice.
  lemma OutsideSplice(gone: string, s: string, q: nat, n: nat, x: string, i: nat)
    requires q + n <= |s| && !Overlaps(gone, x) && OccursAt(Splice(s, q, n, gone), x, i)
    ensures (i + |x| <= q && OccursAt(s, x, i)) || (i >= q + |gone| && OccursAt(s, x, i - |gone| + n))
  {
    SpliceOccurs(s, q, n, gone);
    var t := Splice(s, q, n, gone);
    if i + |x| <= q {
      forall k | 0 <= k < |x| ensures s[i + k] == x[k] {
        assert t[i + k] == x[k];
      }
    } else if i >= q + |gone| {
      forall k | 0 <= k < |x| ensures s[i - |gone| + n + k] == x[k] {
        assert t[(i - |gone| + n + k) - n + |gone|] == s[i - |gone| + n + k];
        assert t[i + k] == x[k];
      }
    } else {
      Across(gone, t, q, x, i);
    }
  }

  lemma Across(gone: string, t: string, q: nat, x: string, i: nat)
    requires OccursAt(t, gone, q) && OccursAt(t, x, i) && q < i + |x| && i < q + |gone|
    ensures Overlaps(gone, x)
  {
    assert MeetsAt(gone, x, i - q) by {
      forall k | 0 <= k < |x| && 0 <= i - q + k < |gone| ensures x[k] == gone[i - q + k] {
        assert t[q + (i - q + k)] == gone[i - q + k] && t[i + k] == x[k];
      }
    }
  }

  lemma Inside(gone: string, t: string, q: nat, x: string, i: nat)
    requires OccursAt(t, gone, q) && OccursAt(t, x, i) && q <= i && i + |x| <= q + |gone|
    ensures Contains(gone, x)
  {
    assert OccursAt(gone, x, i - q) by {
      forall k | 0 <= k < |x| ensures gone[i - q + k] == x[k] {
        assert t[q + (i - q + k)] == gone[i - q + k] && t[i + k] == x[k];
      }
    }
  }

  lemma SpliceKeepsOut(gone: string, s: string, q: nat, n: nat, x: string)
    requires q + n <= |s| && !Overlaps(gone, x) && !Contains(s, x)
    ensures !Contains(Splice(s, q, n, gone), x)
  {
    var t := Splice(s, q, n, gone);
    forall i | 0 <= i <= |t| ensures !OccursAt(t, x, i) {
      if OccursAt(t, x, i) {
        OutsideSplice(gone, s, q, n, x, i);
      }
    }
  }

  lemma {:induction false} CleanedKeepsOut(gone: string, secret: string, at: Place, x: string)
    requires OccursAt(at.s, gone, at.p) && !Contains(gone, secret) && !Overlaps(gone, x) && !Contains(at.s, x)
    ensures !Contains(Cleaned(gone, secret, at), x)
    decreases |at.s| - at.p
  {
    NextShrinks(gone, secret, at);
    var t := Next(gone, secret, at);
    if t.Some? {
      SpliceKeepsOut(gone, at.s, Find(at.s, secret, at.p).value, |secret|, x);
      CleanedKeepsOut(gone, secret, t.value, x);
    }
  }

  /** Replacing one secret never brings back another text that cannot lie across the replacement. */
  lemma CleanKeepsOut(gone: string, s: string, secret: string, x: string)
    requires !(Contains(s, secret) && Contains(gone, secret)) && !Overlaps(gone, x) && !Contains(s, x)
    ensures !Contains(Clean(gone, s, secret), x)
  {
    NextFirst(gone, secret, s);
    var t := Next(gone, secret, Place(s, 0));
    if t.Some? {
      SpliceKeepsOut(gone, s, Find(s, secret, 0).value, |secret|, x);
      CleanedKeepsOut(gone, secret, t.value, x);
    }
  }

  // The parts of a text that stand before and behind the replacement when it lies across it at this offset.
  function Before(x: string, o: int): string
    requires -|x| < o
  {
    if o < 0 then x[..-o] else ""
  }

  function Behind(gone: string, x: string, o: int): string
    requires o < |gone|
  {
    if |gone| - o < |x| then x[|gone| - o..] else ""
  }

  lemma PutTogether(gone: string, x: string, o: int)
    requires -|x| < o < |gone| && MeetsAt(gone, x, o)
    ensures OccursAt(Before(x, o) + gone + Behind(gone, x, o), x, if o < 0 then 0 else o)
  {
  }

  lemma NoneFrom(s: string, x: string, p: nat)
    requires forall i | p <= i <= |s| :: !OccursAt(s, x, i)
    ensures Find(s, x, p).None?
  {
    FindSpec(s, x, p);
  }

  function Other(a: char, b: char, c: char): (d: char)
    ensures d != a && d != b && d != c
  {
    if 'a' !in [a, b, c] then 'a' else if 'b' !in [a, b, c] then 'b' else if 'c' !in [a, b, c] then 'c' else 'd'
  }

  function Filler(n: nat, f: char): (w: string)
    ensures |w| == n && forall k | 0 <= k < n :: w[k] == f
  {
    seq(n, _ => f)
  }

  lemma FilledLacks(u: string, w: string, v: string, x: string, f: char)
    requires |u| < |x| && |v| < |x| && |x| < |w| && (forall k | 0 <= k < |w| :: w[k] == f)
    requires x[0] != f && x[|x| - 1] != f
    ensures !Contains(u + w + v, x)
  {
    var s, last := u + w + v, |x| - 1;
    forall i | 0 <= i <= |s| ensures !OccursAt(s, x, i) {
      if i < |u| {
        assert s[i + last] != x[last];
      } else if i < |u| + |w| {
        assert s[i + 0] != x[0];
      }
    }
  }

  lemma FirstIs(s: string, x: string, k: nat)
    requires OccursAt(s, x, k) && NoneBefore(s, x, k)
    ensures Find(s, x, 0) == Some(k)
  {
    FindSome(s, x, 0, k);
    FindSpec(s, x, 0);
  }

  lemma FilledNoEarlier(u: string, s: string, w: string, f: char)
    requires |u| < |w| && |u| <= |s| && s[..|u|] == u && (forall k | 0 <= k < |w| :: w[k] == f)
    requires u != "" ==> u[|u| - 1] != f
    ensures NoneBefore(s, w, |u|)
  {
    forall i | 0 <= i < |u| && i + |w| <= |s| ensures !OccursAt(s, w, i) {
      assert s[|u| - 1] == u[|u| - 1];
      assert s[i + (|u| - 1 - i)] != w[|u| - 1 - i];
    }
  }

  lemma FilledFirst(u: string, w: string, v: string, f: char)
    requires |u| < |w| && (forall k | 0 <= k < |w| :: w[k] == f) && (u != "" ==> u[|u| - 1] != f)
    ensures Find(u + w + v, w, 0) == Some(|u|)
  {
    FilledNoEarlier(u, u + w + v, w, f);
    FirstIs(u + w + v, w, |u|);
  }

  lemma SpliceParts(u: string, m: string, v: string, put: string)
    ensures Splice(u + m + v, |u|, |m|, put) == u + put + v
  {
  }

  lemma OneReplacement(gone: string, s: string, secret: string, q: nat)
    requires Find(s, secret, 0) == Some(q) && !Contains(gone, secret)
    requires Find(Splice(s, q, |secret|, gone), secret, q).None?
    ensures Clean(gone, s, secret) == Splice(s, q, |secret|, gone)
  {
    NextFirst(gone, secret, s);
  }

  // A secret so long that it occurs nowhere but where it is put.
  lemma FilledCleans(gone: string, u: string, w: string, v: string, f: char)
    requires |u| + |gone| + |v| < |w| && (forall k | 0 <= k < |w| :: w[k] == f) && (u != "" ==> u[|u| - 1] != f)
    ensures !Contains(gone, w) && Clean(gone, u + w + v, w) == u + gone + v
  {
    FilledFirst(u, w, v, f);
    SpliceParts(u, w, v, gone);
    OneReplacement(gone, u + w + v, w, |u|);
  }

  predicate BringsBack(gone: string, s: string, secret: string, x: string) {
    !Contains(gone, secret) && !Contains(s, x) && Contains(Clean(gone, s, secret), x)
  }

  lemma BroughtBack(gone: string, x: string, o: int) returns (s: string, secret: string)
    requires -|x| < o < |gone| && MeetsAt(gone, x, o) && x != ""
    ensures BringsBack(gone, s, secret, x)
  {
    var u, v := Before(x, o), Behind(gone, x, o);
    var f := Other(x[0], x[|x| - 1], if u == "" then x[0] else u[|u| - 1]);
    secret := Filler(2 * |x| + |gone| + 1, f);
    s := u + secret + v;
    FilledLacks(u, secret, v, x, f);
    FilledCleans(gone, u, secret, v, f);
    PutTogether(gone, x, o);
  }

  /**
    A text that the replacement can lie across, inside of or around, and only such a text, can be brought back by
    replacing some other secret in some string.
   */
  lemma BroughtBackExactly(gone: string, x: string)
    requires x != ""
    ensures Overlaps(gone, x) <==> exists s, secret :: BringsBack(gone, s, secret, x)
  {
    if Overlaps(gone, x) {
      var o :| -|x| < o < |gone| && MeetsAt(gone, x, o);
      var s, secret := BroughtBack(gone, x, o);
    } else {
      forall s, secret ensures !BringsBack(gone, s, secret, x) {
        if !Contains(gone, secret) && !Contains(s, x) {
          CleanKeepsOut(gone, s, secret, x);
        }
      }
    }
  }

  // ---- The secret itself --------------------------------------------------------------------------

  predicate Agree(a: string, b: string) { forall k | 0 <= k < |a| && k < |b| :: a[k] == b[k] }

  predicate NoneBefore(s: string, x: string, p: nat) { forall i | 0 <= i < p :: !OccursAt(s, x, i) }

  // The secret with its own beginning in front, which the search passes over; the rest of it reads like the replacement.
  predicate RebuiltAt(gone: string, x: string, k: nat) {
    1 <= k < |x| && Agree(x[k..], gone) && NoneBefore(x[..k] + x, x, k)
  }

  predicate Rebuildable(gone: string, x: string) { exists k | 1 <= k < |x| :: RebuiltAt(gone, x, k) }

  lemma RebuiltOverlaps(gone: string, x: string)
    requires Rebuildable(gone, x)
    ensures Overlaps(gone, x)
  {
    var k :| 1 <= k < |x| && RebuiltAt(gone, x, k);
    assert MeetsAt(gone, x, -k) by {
      forall j | 0 <= j < |x| && 0 <= -k + j < |gone| ensures x[j] == gone[-k + j] {
        assert x[k..][j - k] == x[j];
      }
    }
  }

  /** A secret in which the first character of the replacement does not occur is never rebuilt. */
  lemma NeverRebuilt(gone: string, x: string)
    requires gone != "" && Without(x, gone[0])
    ensures !Rebuildable(gone, x)
  {
    forall k | 1 <= k < |x| ensures !RebuiltAt(gone, x, k) {
      assert x[k..][0] == x[k];
    }
  }

  lemma AgreesBehind(gone: string, t: string, x: string, q: nat, i: nat)
    requires OccursAt(t, gone, q) && OccursAt(t, x, i) && i < q < i + |x|
    ensures Agree(x[q - i..], gone)
  {
    forall j | 0 <= j < |x| - (q - i) && j < |gone| ensures x[q - i..][j] == gone[j] {
      assert t[i + (q - i + j)] == x[q - i + j] && t[q + j] == gone[j];
    }
  }

  lemma StraddlesRebuilt(gone: string, s: string, x: string, q: nat, i: nat)
    requires OccursAt(s, x, q) && NoneBefore(s, x, q) && i < q < i + |x|
    requires OccursAt(Splice(s, q, |x|, gone), x, i)
    ensures RebuiltAt(gone, x, q - i)
  {
    var t, k := Splice(s, q, |x|, gone), q - i;
    SpliceOccurs(s, q, |x|, gone);
    AgreesBehind(gone, t, x, q, i);
    BeginsEarlier(s, t, x, q, i);
    forall j | 0 <= j < k ensures !OccursAt(x[..k] + x, x, j) {
      if OccursAt(x[..k] + x, x, j) {
        WithinSlice(s, i, q + |x|, x, j);
      }
    }
  }

  lemma BeginsEarlier(s: string, t: string, x: string, q: nat, i: nat)
    requires OccursAt(s, x, q) && OccursAt(t, x, i) && i < q < i + |x|
    requires forall k | 0 <= k < q :: t[k] == s[k]
    ensures x[..q - i] + x == s[i..q + |x|]
  {
    assert x[..q - i] == s[i..q] by {
      forall j | 0 <= j < q - i ensures x[j] == s[i + j] {
        assert t[i + j] == x[j];
      }
    }
    assert x == s[q..q + |x|];
  }

  lemma WithinSlice(s: string, lo: nat, hi: nat, x: string, j: nat)
    requires lo <= hi <= |s| && OccursAt(s[lo..hi], x, j)
    ensures OccursAt(s, x, lo + j)
  {
    forall k | 0 <= k < |x| ensures s[lo + j + k] == x[k] {
      assert s[lo..hi][j + k] == x[k];
    }
  }

  lemma NextNoneBefore(gone: string, x: string, at: Place)
    requires !Rebuildable(gone, x) && NoneBefore(at.s, x, at.p) && Next(gone, x, at).Some?
    ensures NoneBefore(Next(gone, x, at).value.s, x, Next(gone, x, at).value.p)
  {
    var q := Find(at.s, x, at.p).value;
    var t := Splice(at.s, q, |x|, gone);
    FindSpec(at.s, x, at.p);
    SpliceOccurs(at.s, q, |x|, gone);
    forall i | 0 <= i < q ensures !OccursAt(t, x, i) {
      if OccursAt(t, x, i) {
        if i + |x| <= q {
          assert OccursAt(at.s, x, i) by {
            forall k | 0 <= k < |x| ensures at.s[i + k] == x[k] {
              assert t[i + k] == x[k];
            }
          }
        } else {
          StraddlesRebuilt(gone, at.s, x, q, i);
        }
      }
    }
  }

  lemma NoneAtAll(s: string, x: string, p: nat)
    requires NoneBefore(s, x, p) && Find(s, x, p).None?
    ensures !Contains(s, x)
  {
    FindSpec(s, x, p);
  }

  lemma {:induction false} CleanedRemoves(gone: string, secret: string, at: Place)
    requires OccursAt(at.s, gone, at.p) && !Contains(gone, secret) && !Rebuildable(gone, secret)
    requires NoneBefore(at.s, secret, at.p)
    ensures !Contains(Cleaned(gone, secret, at), secret)
    decreases |at.s| - at.p
  {
    NextShrinks(gone, secret, at);
    var t := Next(gone, secret, at);
    if t.Some? {
      NextNoneBefore(gone, secret, at);
      CleanedRemoves(gone, secret, t.value);
    } else {
      NoneAtAll(at.s, secret, at.p);
    }
  }

  /** The loop for a secret that cannot be rebuilt leaves no occurrence of it, overlapping ones included. */
  lemma CleanRemoves(gone: string, s: string, secret: string)
    requires !(Contains(s, secret) && Contains(gone, secret)) && !Rebuildable(gone, secret)
    ensures !Contains(Clean(gone, s, secret), secret)
  {
    NextFirst(gone, secret, s);
    var t := Next(gone, secret, Place(s, 0));
    if t.Some? {
      NextNoneBefore(gone, secret, Place(s, 0));
      CleanedRemoves(gone, secret, t.value);
    }
  }

  // The string in which one replacement puts the secret together again.
  function Rebuilding(gone: string, x: string, k: nat): string
    requires k <= |x|
  {
    x[..k] + x + if k + |gone| < |x| then x[k + |gone|..] else ""
  }

  lemma OccursInFront(u: string, v: string, x: string, i: nat)
    requires i + |x| <= |u|
    ensures OccursAt(u + v, x, i) <==> OccursAt(u, x, i)
  {
  }

  lemma FirstInFront(u: string, v: string, x: string, k: nat)
    requires k + |x| == |u| && OccursAt(u, x, k) && NoneBefore(u, x, k)
    ensures Find(u + v, x, 0) == Some(k)
  {
    OccursInFront(u, v, x, k);
    forall i | 0 <= i < k ensures !OccursAt(u + v, x, i) {
      OccursInFront(u, v, x, i);
    }
    FirstIs(u + v, x, k);
  }

  lemma ReplacedReads(gone: string, x: string, k: nat, v: string)
    requires k <= |x| && Agree(x[k..], gone) && v == if k + |gone| < |x| then x[k + |gone|..] else ""
    ensures OccursAt(x[..k] + gone + v, x, 0)
  {
    var t := x[..k] + gone + v;
    forall j | 0 <= j < |x| ensures t[0 + j] == x[j] {
      if k <= j < k + |gone| {
        assert x[k..][j - k] == gone[j - k];
      }
    }
  }

  lemma NothingLeft(gone: string, x: string, u: string, v: string)
    requires u != "" && !Contains(gone, x) && |v| == if |u| + |gone| < |x| then |x| - |u| - |gone| else 0
    ensures Find(u + gone + v, x, |u|).None?
  {
    var t := u + gone + v;
    assert OccursAt(t, gone, |u|);
    forall i | |u| <= i <= |t| ensures !OccursAt(t, x, i) {
      if OccursAt(t, x, i) {
        Inside(gone, t, |u|, x, i);
      }
    }
    NoneFrom(t, x, |u|);
  }

  lemma SecretRebuilt(gone: string, x: string, k: nat)
    requires RebuiltAt(gone, x, k) && !Contains(gone, x)
    ensures Contains(Clean(gone, Rebuilding(gone, x, k), x), x)
  {
    var v := if k + |gone| < |x| then x[k + |gone|..] else "";
    FirstInFront(x[..k] + x, v, x, k);
    SpliceParts(x[..k], x, v, gone);
    NothingLeft(gone, x, x[..k], v);
    OneReplacement(gone, x[..k] + x + v, x, k);
    ReplacedReads(gone, x, k, v);
  }

  /**
    A secret can survive its own loop on some string exactly when, put behind some beginning of itself, it is not
    found any earlier and its rest reads like the replacement.
   */
  lemma RebuiltExactly(gone: string, x: string)
    requires !Contains(gone, x)
    ensures Rebuildable(gone, x) <==> exists s :: Contains(Clean(gone, s, x), x)
  {
    if Rebuildable(gone, x) {
      var k :| 1 <= k < |x| && RebuiltAt(gone, x, k);
      SecretRebuilt(gone, x, k);
    } else {
      forall s ensures !Contains(Clean(gone, s, x), x) {
        CleanRemoves(gone, s, x);
      }
    }
  }

  // ---- Identifiers --------------------------------------------------------------------------------

  const SHOWN := 4
  const STAR := '*'

  /** All but the last four characters, or all of a short value. */
  function MaskValue(v: string): (m: string)
    ensures |m| == |v|
    ensures forall k | 0 <= k < |v| :: m[k] == if |v| > SHOWN && k >= |v| - SHOWN then v[k] else STAR
  {
    if |v| <= SHOWN then seq(|v|, _ => STAR) else seq(|v| - SHOWN, _ => STAR) + v[|v| - SHOWN..]
  }

  function MaskAt(s: string, id: string, q: nat): (t: string)
    requires q + |id| <= |s|
    ensures |t| == |s|
  {
    SpliceOccurs(s, q, |id|, MaskValue(id));
    Splice(s, q, |id|, MaskValue(id))
  }

  // The loop for one identifier; the search goes on one character behind the last match.
  function Masked(s: string, id: string, p: nat): string
    requires id != ""
    decreases |s| + 1 - p
  {
    match Find(s, id, p)
    case None => s
    case Some(q) => Masked(MaskAt(s, id, q), id, q + 1)
  }

  method ReplaceIdentifier(text: string, id: string) returns (s: string)
    requires id != ""
    ensures s == Masked(text, id, 0)
  {
    s := text;
    var p: Option<nat> := FindFrom(s, id, 0);
    while p.Some?
      invariant p.Some? ==> p.value + |id| <= |s|
      invariant Masked(text, id, 0) == MaskedAhead(s, id, p)
      decreases if p.Some? then |s| - p.value + 1 else 0
    {
      s := MaskAt(s, id, p.value);
      p := FindFrom(s, id, p.value + 1);
    }
  }

  function MaskedAhead(s: string, id: string, p: Option<nat>): string
    requires id != "" && (p.Some? ==> p.value + |id| <= |s|)
  {
    if p.None? then s else Masked(MaskAt(s, id, p.value), id, p.value + 1)
  }

  lemma StarsKeepOut(s: string, t: string, x: string, i: nat)
    requires |t| == |s| && (forall k | 0 <= k < |s| :: t[k] == s[k] || t[k] == STAR)
    requires Without(x, STAR) && OccursAt(t, x, i)
    ensures OccursAt(s, x, i)
  {
    forall k | 0 <= k < |x| ensures s[i + k] == x[k] {
      assert t[i + k] == x[k];
    }
  }

  // A mask changes characters to stars only.
  lemma MaskStars(s: string, id: string, q: nat)
    requires OccursAt(s, id, q)
    ensures forall k | 0 <= k < |s| :: MaskAt(s, id, q)[k] == s[k] || MaskAt(s, id, q)[k] == STAR
  {
    var m, t := MaskValue(id), MaskAt(s, id, q);
    forall k | 0 <= k < |s| ensures t[k] == s[k] || t[k] == STAR {
      if q <= k < q + |id| {
        assert t[k] == m[k - q] && s[q + (k - q)] == id[k - q];
      }
    }
  }

  lemma MaskKeepsOut(s: string, id: string, q: nat, x: string)
    requires OccursAt(s, id, q) && Without(x, STAR) && !Contains(s, x)
    ensures !Contains(MaskAt(s, id, q), x)
  {
    var t := MaskAt(s, id, q);
    MaskStars(s, id, q);
    forall i | 0 <= i <= |t| ensures !OccursAt(t, x, i) {
      if OccursAt(t, x, i) {
        StarsKeepOut(s, t, x, i);
      }
    }
  }

  /** Masking never brings back a text without stars that was not there. */
  lemma {:induction false} MaskedKeepsOut(s: string, id: string, p: nat, x: string)
    requires id != "" && Without(x, STAR) && !Contains(s, x)
    ensures !Contains(Masked(s, id, p), x)
    decreases |s| + 1 - p
  {
    FindSpec(s, id, p);
    var q := Find(s, id, p);
    if q.Some? {
      MaskKeepsOut(s, id, q.value, x);
      MaskedKeepsOut(MaskAt(s, id, q.value), id, q.value + 1, x);
    }
  }

  lemma MaskNoneBefore(s: string, id: string, p: nat)
    requires |id| > SHOWN && Without(id, STAR) && NoneBefore(s, id, p) && Find(s, id, p).Some?
    ensures var q := Find(s, id, p).value; NoneBefore(MaskAt(s, id, q), id, q + 1)
  {
    var q := Find(s, id, p).value;
    var t := MaskAt(s, id, q);
    FindSpec(s, id, p);
    MaskStars(s, id, q);
    assert id[0] != t[q];
    forall i | 0 <= i < q + 1 ensures !OccursAt(t, id, i) {
      if OccursAt(t, id, i) {
        StarsKeepOut(s, t, id, i);
      }
    }
  }

  /** The loop for an identifier leaves no occurrence of it, overlapping ones included. */
  lemma {:induction false} MaskedRemoves(s: string, id: string, p: nat)
    requires |id| > SHOWN && Without(id, STAR) && NoneBefore(s, id, p)
    ensures !Contains(Masked(s, id, p), id)
    decreases |s| + 1 - p
  {
    var q := Find(s, id, p);
    if q.None? {
      NoneAtAll(s, id, p);
    } else {
      MaskNoneBefore(s, id, p);
      MaskedRemoves(MaskAt(s, id, q.value), id, q.value + 1);
    }
  }

  // The text with another character for one of its stars, and room for a mask that puts the star back.
  function Unstarred(x: string, j: nat, c: char, d: char): string
    requires j < |x|
  {
    x[..j] + [c] + (x[j + 1..] + [d, d, d, d])
  }

  lemma UnstarredLacks(x: string, j: nat, c: char, d: char)
    requires j < |x| && x[j] != c && x[|x| - 1] != d
    ensures !Contains(Unstarred(x, j, c, d), x)
  {
    var s := Unstarred(x, j, c, d);
    forall i | 0 <= i <= |s| ensures !OccursAt(s, x, i) {
      if i == 0 {
        assert s[i + j] != x[j];
      } else if i <= 4 {
        assert s[i + (|x| - 1)] != x[|x| - 1];
      }
    }
  }

  lemma FirstOnly(u: string, id: string, v: string)
    requires id != "" && Without(u, id[0])
    ensures Find(u + id + v, id, 0) == Some(|u|)
  {
    var s := u + id + v;
    forall i | 0 <= i < |u| ensures !OccursAt(s, id, i) {
      assert s[i + 0] != id[0];
    }
    FirstIs(s, id, |u|);
  }

  lemma MaskedParts(u: string, id: string, v: string)
    requires id != "" && Without(u, id[0]) && Without(u + MaskValue(id) + v, id[0])
    ensures Masked(u + id + v, id, 0) == u + MaskValue(id) + v
  {
    FirstOnly(u, id, v);
    SpliceParts(u, id, v, MaskValue(id));
    FirstAbsent(u + MaskValue(id) + v, id, |u| + 1);
  }

  lemma MaskedOnce(u: string, c: char, v: string)
    requires |v| >= SHOWN && Without(u, c) && Without(v, c) && c != STAR
    ensures Masked(u + [c] + v, [c] + v[..SHOWN], 0) == u + [STAR] + v
  {
    var id := [c] + v[..SHOWN];
    assert MaskValue(id) == [STAR] + v[..SHOWN];
    assert u + id + v[SHOWN..] == u + [c] + v && u + MaskValue(id) + v[SHOWN..] == u + [STAR] + v;
    MaskedParts(u, id, v[SHOWN..]);
  }

  lemma FirstAbsent(t: string, id: string, p: nat)
    requires id != "" && Without(t, id[0])
    ensures Find(t, id, p).None?
  {
    forall i | p <= i <= |t| ensures !OccursAt(t, id, i) {
      assert i < |t| ==> t[i + 0] != id[0];
    }
    NoneFrom(t, id, p);
  }

  function StarMask(x: string, j: nat, c: char, d: char): string
    requires j < |x|
  {
    [c] + (x[j + 1..] + [d, d, d, d])[..SHOWN]
  }

  lemma StarBroughtBack(x: string, j: nat, c: char, d: char)
    requires j < |x| && x[j] == STAR && Without(x, c) && c != d
    ensures |StarMask(x, j, c, d)| > SHOWN && Contains(Masked(Unstarred(x, j, c, d), StarMask(x, j, c, d), 0), x)
  {
    var v := x[j + 1..] + [d, d, d, d];
    MaskedOnce(x[..j], c, v);
    assert OccursAt(x[..j] + [STAR] + v, x, 0);
  }

  predicate MaskBringsBack(s: string, id: string, x: string) {
    |id| > SHOWN && !Contains(s, x) && Contains(Masked(s, id, 0), x)
  }

  // Some character does not occur in the text.
  predicate Spares(x: string) { exists c :: Without(x, c) }

  /** Every text of fewer than 55296 characters leaves one unused. */
  lemma {:induction false} ShortSpares(x: string, n: nat) returns (c: char)
    requires |x| < n <= 0xD800
    ensures c as int < n && Without(x, c)
  {
    var last := (n - 1) as char;
    if k :| 0 <= k < |x| && x[k] == last {
      var rest := x[..k] + x[k + 1..];
      c := ShortSpares(rest, n - 1);
      forall i | 0 <= i < |x| ensures x[i] != c {
        assert i < k ==> x[i] == rest[i];
        assert i > k ==> x[i] == rest[i - 1];
      }
    } else {
      c := last;
    }
  }

  /**
    Masking some identifier in some string brings back only texts with a star, and every text with a star that leaves
    a character unused.
   */
  lemma StarsExactly(x: string)
    ensures (exists s, id :: MaskBringsBack(s, id, x)) ==> !Without(x, STAR)
    ensures !Without(x, STAR) && Spares(x) ==> exists s, id :: MaskBringsBack(s, id, x)
  {
    if Without(x, STAR) {
      forall s, id ensures !MaskBringsBack(s, id, x) {
        if |id| > SHOWN && !Contains(s, x) {
          MaskedKeepsOut(s, id, 0, x);
        }
      }
    } else if c :| Without(x, c) {
      var j: nat :| j < |x| && x[j] == STAR;
      var d := Other(c, x[|x| - 1], c);
      UnstarredLacks(x, j, c, d);
      StarBroughtBack(x, j, c, d);
      assert MaskBringsBack(Unstarred(x, j, c, d), StarMask(x, j, c, d), x);
    }
  }
}
