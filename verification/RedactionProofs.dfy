/** What redaction achieves, and exactly when. */
module RedactionProofs {
  import opened Strings
  import opened Redaction

  // ---------------------------------------------------------------- overlaps with the placeholder

  /** Lay `p` over `v` so that p[0] sits at v[d]: do they agree wherever both are defined? */
  ghost predicate Agree(v: string, p: string, d: int) {
    forall k | 0 <= k < |v| && d <= k < d + |p| :: v[k] == p[k - d]
  }

  /** No alignment of the two overlaps in at least one position and agrees on the overlap. */
  ghost predicate OverlapFree(v: string, p: string) {
    forall d | -|p| < d < |v| :: !Agree(v, p, d)
  }

  ghost predicate AllOverlapFree(secrets: seq<Secret>, p: string) {
    forall x | x in secrets && x.value != "" :: OverlapFree(x.value, p)
  }

  ghost predicate Clean(s: string, secrets: seq<Secret>) {
    forall x | x in secrets && x.value != "" :: !Occurs(x.value, s)
  }

  // ---------------------------------------------------------------- pieces

  /** Redacted text keeps characters of the original and cuts out secret values. */
  datatype Piece = Kept(c: char) | Cut(v: string)

  ghost predicate Proper(ps: seq<Piece>) {
    forall k | 0 <= k < |ps| :: ps[k] != Cut("")
  }

  ghost function Original(ps: seq<Piece>): string {
    if ps == [] then "" else (if ps[0].Kept? then [ps[0].c] else ps[0].v) + Original(ps[1..])
  }

  ghost function Shown(ps: seq<Piece>, p: string): string {
    if ps == [] then "" else (if ps[0].Kept? then [ps[0].c] else p) + Shown(ps[1..], p)
  }

  ghost predicate RunAt(ps: seq<Piece>, i: nat, v: string) {
    i + |v| <= |ps| && forall k | 0 <= k < |v| :: ps[i + k] == Kept(v[k])
  }

  ghost predicate HasRun(ps: seq<Piece>, v: string) {
    exists i: nat :: RunAt(ps, i, v)
  }

  /** The same replacement as ReplaceAll, but on pieces: only kept runs can match. */
  ghost function CutOut(ps: seq<Piece>, v: string): seq<Piece>
    requires v != ""
    decreases |ps|
  {
    if ps == [] then []
    else if RunAt(ps, 0, v) then [Cut(v)] + CutOut(ps[|v|..], v)
    else [ps[0]] + CutOut(ps[1..], v)
  }

  lemma {:induction false} RunSplits(ps: seq<Piece>, v: string, p: string)
    requires RunAt(ps, 0, v)
    ensures Original(ps) == v + Original(ps[|v|..])
    ensures Shown(ps, p) == v + Shown(ps[|v|..], p)
    decreases |v|
  {
    if v == "" {
      assert ps[0..] == ps;
    } else {
      assert ps[0 + 0] == Kept(v[0]);
      forall k | 0 <= k < |v[1..]| ensures ps[1..][0 + k] == Kept(v[1..][k]) {
        assert ps[0 + (k + 1)] == Kept(v[k + 1]);
      }
      RunSplits(ps[1..], v[1..], p);
      assert ps[1..][|v[1..]|..] == ps[|v|..];
      assert v == [v[0]] + v[1..];
    }
  }

  /** With an overlap-free value, text that starts with it starts with a kept run of it. */
  lemma {:induction false} PrefixIsKept(ps: seq<Piece>, v: string, p: string, k: nat)
    requires p != "" && OverlapFree(v, p) && v <= Shown(ps, p) && k <= |v|
    ensures RunAt(ps, 0, v[..k])
    decreases k
  {
    if k > 0 {
      PrefixIsKept(ps, v, p, k - 1);
      RunSplits(ps, v[..k - 1], p);
      var rest := ps[k - 1..];
      assert Shown(ps, p) == v[..k - 1] + Shown(rest, p);
      if rest != [] && rest[0].Cut? {
        assert p <= Shown(rest, p);
        assert Agree(v, p, k - 1);
        assert false;
      }
      assert rest != [] && rest[0] == Kept(v[k - 1]);
    }
  }

  lemma PrefixIsRun(ps: seq<Piece>, v: string, p: string)
    requires p != "" && OverlapFree(v, p) && v <= Shown(ps, p)
    ensures RunAt(ps, 0, v)
  {
    PrefixIsKept(ps, v, p, |v|);
    assert v[..|v|] == v;
  }

  /** No occurrence of an overlap-free value starts inside a placeholder. */
  lemma {:induction false} SkipPlaceholder(v: string, p: string, i: nat, rest: string)
    requires v != "" && OverlapFree(v, p) && i <= |p|
    ensures ReplaceAll(p[i..] + rest, v, p) == p[i..] + ReplaceAll(rest, v, p)
    decreases |p| - i
  {
    if i == |p| {
      assert p[i..] + rest == rest;
    } else {
      var s := p[i..] + rest;
      if v <= s {
        assert Agree(v, p, 0 - i);
        assert false;
      }
      SkipPlaceholder(v, p, i + 1, rest);
      assert s[1..] == p[i + 1..] + rest;
      assert p[i..] == [p[i]] + p[i + 1..];
    }
  }

  lemma {:induction false} ReplaceOnPieces(ps: seq<Piece>, v: string, p: string)
    requires v != "" && p != "" && OverlapFree(v, p)
    ensures ReplaceAll(Shown(ps, p), v, p) == Shown(CutOut(ps, v), p)
    decreases |ps|
  {
    if ps != [] {
      if RunAt(ps, 0, v) {
        RunSplits(ps, v, p);
        ReplaceOnPieces(ps[|v|..], v, p);
        assert Shown(ps, p)[|v|..] == Shown(ps[|v|..], p);
      } else {
        ReplaceOnPieces(ps[1..], v, p);
        if v <= Shown(ps, p) {
          PrefixIsRun(ps, v, p);
          assert false;
        }
        if ps[0].Cut? {
          SkipPlaceholder(v, p, 0, Shown(ps[1..], p));
          assert p[0..] == p;
        }
      }
    }
  }

  lemma {:induction false} CutOutOriginal(ps: seq<Piece>, v: string)
    requires v != ""
    ensures Original(CutOut(ps, v)) == Original(ps)
    decreases |ps|
  {
    if ps != [] {
      if RunAt(ps, 0, v) {
        RunSplits(ps, v, "");
        CutOutOriginal(ps[|v|..], v);
      } else {
        CutOutOriginal(ps[1..], v);
      }
    }
  }

  // ---------------------------------------------------------------- what remains

  lemma {:induction false} KeptBefore(ps: seq<Piece>, w: string, v: string)
    requires w != "" && RunAt(CutOut(ps, w), 0, v)
    ensures RunAt(ps, 0, v)
    decreases |v|
  {
    if v != "" {
      var out := CutOut(ps, w);
      assert out[0] == Kept(v[0]);
      assert out[1..] == CutOut(ps[1..], w);
      forall k | 0 <= k < |v| - 1 ensures out[1..][0 + k] == Kept(v[1..][k]) {
        assert out[0 + (k + 1)] == Kept(v[k + 1]);
      }
      KeptBefore(ps[1..], w, v[1..]);
      forall k | 0 <= k < |v| ensures ps[0 + k] == Kept(v[k]) {
        if k > 0 {
          assert ps[1..][0 + (k - 1)] == Kept(v[1..][k - 1]);
        }
      }
    }
  }

  /** Cutting creates no kept run that was not there, and leaves none of its own value. */
  lemma {:induction false} RunsShrink(ps: seq<Piece>, w: string, i: nat, v: string)
    requires w != "" && v != "" && RunAt(CutOut(ps, w), i, v)
    ensures v != w && HasRun(ps, v)
    decreases |ps|
  {
    var out := CutOut(ps, w);
    if i == 0 {
      KeptBefore(ps, w, v);
      assert out[0] == Kept(v[0]);
    } else {
      var step := if RunAt(ps, 0, w) then |w| else 1;
      assert out[1..] == CutOut(ps[step..], w);
      forall k | 0 <= k < |v| ensures out[1..][(i - 1) + k] == Kept(v[k]) {
        assert out[i + k] == Kept(v[k]);
      }
      RunsShrink(ps[step..], w, i - 1, v);
      var j: nat :| RunAt(ps[step..], j, v);
      forall k | 0 <= k < |v| ensures ps[(step + j) + k] == Kept(v[k]) {
        assert ps[step..][j + k] == Kept(v[k]);
      }
      assert RunAt(ps, step + j, v);
    }
  }

  lemma {:induction false} OccurrenceIsRun(ps: seq<Piece>, v: string, p: string, i: nat)
    requires v != "" && p != "" && OverlapFree(v, p) && OccursAt(v, Shown(ps, p), i)
    ensures HasRun(ps, v)
    decreases |ps|
  {
    var s := Shown(ps, p);
    if i == 0 {
      assert v <= s;
      PrefixIsRun(ps, v, p);
    } else {
      var w := if ps[0].Kept? then 1 else |p|;
      if i < w {
        forall k | 0 <= k < |v| && 0 - i <= k < |p| - i ensures v[k] == p[k + i] {
          assert s[i..i + |v|][k] == s[i + k];
        }
        assert Agree(v, p, 0 - i);
        assert false;
      }
      assert s[w..] == Shown(ps[1..], p);
      assert s[w..][i - w..i - w + |v|] == s[i..i + |v|];
      OccurrenceIsRun(ps[1..], v, p, i - w);
      var j: nat :| RunAt(ps[1..], j, v);
      forall k | 0 <= k < |v| ensures ps[(1 + j) + k] == Kept(v[k]) {
        assert ps[1..][j + k] == Kept(v[k]);
      }
      assert RunAt(ps, 1 + j, v);
    }
  }

  // ---------------------------------------------------------------- coverage of the original

  /** Where piece k begins in the original text. */
  ghost function Start(ps: seq<Piece>, k: nat): nat
    requires k <= |ps|
  {
    |Original(ps[..k])|
  }

  ghost predicate CutOver(ps: seq<Piece>, k: nat, i: int, n: nat, len: nat)
    requires k < |ps|
  {
    ps[k].Cut? && |ps[k].v| >= len && Start(ps, k) < i + n && i < Start(ps, k) + |ps[k].v|
  }

  /** Some cut of at least `len` bytes overlaps the bytes i .. i+n of the original. */
  ghost predicate Covered(ps: seq<Piece>, i: int, n: nat, len: nat) {
    exists k | 0 <= k < |ps| :: CutOver(ps, k, i, n, len)
  }

  lemma {:induction false} OriginalConcat(a: seq<Piece>, b: seq<Piece>)
    ensures Original(a + b) == Original(a) + Original(b)
  {
    if a == [] {
      assert a + b == b;
    } else {
      assert (a + b)[1..] == a[1..] + b;
      OriginalConcat(a[1..], b);
    }
  }

  /** Coverage seen from behind a prefix of the pieces. */
  lemma CoveredBehind(front: seq<Piece>, ps: seq<Piece>, i: int, n: nat, len: nat)
    requires Covered(ps, i - |Original(front)|, n, len)
    ensures Covered(front + ps, i, n, len)
  {
    var k :| 0 <= k < |ps| && CutOver(ps, k, i - |Original(front)|, n, len);
    assert (front + ps)[..|front| + k] == front + ps[..k];
    OriginalConcat(front, ps[..k]);
    assert CutOver(front + ps, |front| + k, i, n, len);
  }

  lemma CoveredAhead(front: seq<Piece>, ps: seq<Piece>, k: nat, i: int, n: nat, len: nat)
    requires |front| <= k < |front + ps| && CutOver(front + ps, k, i, n, len)
    ensures Covered(ps, i - |Original(front)|, n, len)
  {
    assert (front + ps)[..k] == front + ps[..k - |front|];
    OriginalConcat(front, ps[..k - |front|]);
    assert CutOver(ps, k - |front|, i - |Original(front)|, n, len);
  }

  lemma RunBehind(front: seq<Piece>, ps: seq<Piece>, j: nat, v: string)
    requires RunAt(ps, j, v)
    ensures HasRun(front + ps, v)
  {
    forall k | 0 <= k < |v| ensures (front + ps)[(|front| + j) + k] == Kept(v[k]) {
      assert ps[j + k] == Kept(v[k]);
    }
    assert RunAt(front + ps, |front| + j, v);
  }

  lemma {:induction false} PrefixCoveredOrRun(ps: seq<Piece>, v: string)
    requires Proper(ps) && v <= Original(ps)
    ensures Covered(ps, 0, |v|, 0) || RunAt(ps, 0, v)
    decreases |v|
  {
    if v != "" {
      assert [ps[0]] + ps[1..] == ps;
      if ps[0].Cut? {
        assert CutOver(ps, 0, 0, |v|, 0);
      } else {
        assert Original([ps[0]]) == [ps[0].c];
        assert Original(ps)[1..] == Original(ps[1..]);
        PrefixCoveredOrRun(ps[1..], v[1..]);
        if Covered(ps[1..], 0, |v| - 1, 0) {
          var k :| 0 <= k < |ps[1..]| && CutOver(ps[1..], k, 0, |v| - 1, 0);
          assert CutOver(ps[1..], k, -1, |v|, 0);
          CoveredBehind([ps[0]], ps[1..], 0, |v|, 0);
        } else {
          forall k | 0 <= k < |v| ensures ps[0 + k] == Kept(v[k]) {
            if k > 0 {
              assert ps[1..][0 + (k - 1)] == Kept(v[1..][k - 1]);
            }
          }
        }
      }
    }
  }

  /** An occurrence in the original either overlaps a cut or still stands as a kept run. */
  lemma {:induction false} CoveredOrRun(ps: seq<Piece>, v: string, i: nat)
    requires Proper(ps) && v != "" && OccursAt(v, Original(ps), i)
    ensures Covered(ps, i, |v|, 0) || HasRun(ps, v)
    decreases |ps|
  {
    var s := Original(ps);
    var w := if ps[0].Kept? then 1 else |ps[0].v|;
    assert [ps[0]] + ps[1..] == ps;
    assert |Original([ps[0]])| == w;
    if i >= w {
      assert s[w..] == Original(ps[1..]);
      assert s[w..][i - w..i - w + |v|] == s[i..i + |v|];
      CoveredOrRun(ps[1..], v, i - w);
      if Covered(ps[1..], i - w, |v|, 0) {
        CoveredBehind([ps[0]], ps[1..], i, |v|, 0);
      } else {
        var j: nat :| RunAt(ps[1..], j, v);
        RunBehind([ps[0]], ps[1..], j, v);
      }
    } else if ps[0].Cut? {
      assert CutOver(ps, 0, i, |v|, 0);
    } else {
      PrefixCoveredOrRun(ps, v);
    }
  }

  lemma AheadOfRun(ps: seq<Piece>, w: string, k: nat, i: int, n: nat, len: nat)
    requires RunAt(ps, 0, w) && k < |ps| && CutOver(ps, k, i, n, len)
    ensures Covered(ps[|w|..], i - |w|, n, len)
  {
    var front, rest := ps[..|w|], ps[|w|..];
    assert ps == front + rest;
    RunSplits(ps, w, "");
    OriginalConcat(front, rest);
    forall j | 0 <= j < |w| ensures ps[j].Kept? {
      assert ps[0 + j] == Kept(w[j]);
    }
    CoveredAhead(front, rest, k, i, n, len);
  }

  lemma {:induction false} CutOutKeepsCover(ps: seq<Piece>, w: string, i: int, n: nat, len: nat)
    requires w != "" && Covered(ps, i, n, len)
    ensures Covered(CutOut(ps, w), i, n, len)
    decreases |ps|
  {
    var k :| 0 <= k < |ps| && CutOver(ps, k, i, n, len);
    if RunAt(ps, 0, w) {
      AheadOfRun(ps, w, k, i, n, len);
      CutOutKeepsCover(ps[|w|..], w, i - |w|, n, len);
      assert Original([Cut(w)]) == w;
      CoveredBehind([Cut(w)], CutOut(ps[|w|..], w), i, n, len);
    } else {
      assert ps == [ps[0]] + ps[1..];
      if k == 0 {
        assert CutOut(ps, w)[..0] == ps[..0];
        assert CutOver(CutOut(ps, w), 0, i, n, len);
      } else {
        CoveredAhead([ps[0]], ps[1..], k, i, n, len);
        CutOutKeepsCover(ps[1..], w, i - |Original([ps[0]])|, n, len);
        CoveredBehind([ps[0]], CutOut(ps[1..], w), i, n, len);
      }
    }
  }

  lemma {:induction false} CutOutPieces(ps: seq<Piece>, w: string)
    requires w != ""
    ensures forall q | q in CutOut(ps, w) :: q in ps || q == Cut(w)
    decreases |ps|
  {
    if ps != [] {
      CutOutPieces(if RunAt(ps, 0, w) then ps[|w|..] else ps[1..], w);
    }
  }

  // ---------------------------------------------------------------- all secrets in turn

  ghost function CutOne(ps: seq<Piece>, x: Secret): seq<Piece> {
    if x.value == "" then ps else CutOut(ps, x.value)
  }

  ghost function CutAll(ps: seq<Piece>, order: seq<Secret>): seq<Piece>
    decreases |order|
  {
    if order == [] then ps else CutAll(CutOne(ps, order[0]), order[1..])
  }

  ghost predicate IsSecretCut(q: Piece, order: seq<Secret>) {
    q.Cut? && q.v != "" && exists x :: x in order && x.value == q.v
  }

  lemma {:induction false} RedactOnPieces(ps: seq<Piece>, order: seq<Secret>, p: string)
    requires p != "" && AllOverlapFree(order, p)
    ensures RedactInOrder(Shown(ps, p), order, p) == Shown(CutAll(ps, order), p)
    decreases |order|
  {
    if order != [] {
      assert order[0] in order;
      if order[0].value != "" {
        ReplaceOnPieces(ps, order[0].value, p);
      }
      RedactOnPieces(CutOne(ps, order[0]), order[1..], p);
    }
  }

  lemma {:induction false} CutAllPieces(ps: seq<Piece>, order: seq<Secret>)
    ensures Original(CutAll(ps, order)) == Original(ps)
    ensures forall q | q in CutAll(ps, order) :: q in ps || IsSecretCut(q, order)
    decreases |order|
  {
    if order != [] {
      var x := order[0];
      if x.value != "" {
        CutOutOriginal(ps, x.value);
        CutOutPieces(ps, x.value);
      }
      CutAllPieces(CutOne(ps, x), order[1..]);
      assert x in order;
    }
  }

  lemma {:induction false} CutAllRuns(ps: seq<Piece>, order: seq<Secret>, v: string)
    requires v != "" && HasRun(CutAll(ps, order), v)
    ensures HasRun(ps, v) && forall x | x in order :: x.value != v
    decreases |order|
  {
    if order != [] {
      var x := order[0];
      CutAllRuns(CutOne(ps, x), order[1..], v);
      if x.value != "" {
        var i: nat :| RunAt(CutOut(ps, x.value), i, v);
        RunsShrink(ps, x.value, i, v);
      }
      assert order == [x] + order[1..];
    }
  }

  lemma {:induction false} CutAllKeepsCover(ps: seq<Piece>, order: seq<Secret>, i: int, n: nat, len: nat)
    requires Covered(ps, i, n, len)
    ensures Covered(CutAll(ps, order), i, n, len)
    decreases |order|
  {
    if order != [] {
      if order[0].value != "" {
        CutOutKeepsCover(ps, order[0].value, i, n, len);
      }
      CutAllKeepsCover(CutOne(ps, order[0]), order[1..], i, n, len);
    }
  }

  ghost predicate CutsAtLeast(ps: seq<Piece>, n: nat) {
    forall q | q in ps :: q.Cut? ==> q.v != "" && |q.v| >= n
  }

  /** Just after a value was cut out, each of its occurrences overlaps a cut that is at
      least as long, provided only such cuts were made before. */
  lemma JustCovered(ps: seq<Piece>, v: string, i: nat)
    requires v != "" && CutsAtLeast(ps, |v|) && OccursAt(v, Original(ps), i)
    ensures Covered(CutOut(ps, v), i, |v|, |v|)
  {
    var out := CutOut(ps, v);
    CutOutOriginal(ps, v);
    CutOutPieces(ps, v);
    assert forall k | 0 <= k < |out| :: out[k] in out;
    CoveredOrRun(out, v, i);
    if HasRun(out, v) {
      var j: nat :| RunAt(out, j, v);
      RunsShrink(ps, v, j, v);
      assert false;
    }
    var k :| 0 <= k < |out| && CutOver(out, k, i, |v|, 0);
    assert CutOver(out, k, i, |v|, |v|);
  }

  lemma {:induction false} CutAllCovers(ps: seq<Piece>, order: seq<Secret>, x: Secret, i: nat)
    requires Descending(order) && x in order && x.value != ""
    requires CutsAtLeast(ps, |order[0].value|) && OccursAt(x.value, Original(ps), i)
    ensures Covered(CutAll(ps, order), i, |x.value|, |x.value|)
    decreases |order|
  {
    var y := order[0];
    if y.value == x.value {
      JustCovered(ps, x.value, i);
      CutAllKeepsCover(CutOut(ps, x.value), order[1..], i, |x.value|, |x.value|);
    } else {
      assert order == [y] + order[1..];
      var k :| 0 <= k < |order| && order[k] == x;
      if y.value != "" {
        CutOutOriginal(ps, y.value);
        CutOutPieces(ps, y.value);
      }
      CutAllCovers(CutOne(ps, y), order[1..], x, i);
    }
  }

  // ---------------------------------------------------------------- main results

  ghost function AllKept(s: string): seq<Piece> {
    seq(|s|, k requires 0 <= k < |s| => Kept(s[k]))
  }

  lemma {:induction false} AllKeptIsText(s: string, p: string)
    ensures Original(AllKept(s)) == s && Shown(AllKept(s), p) == s
  {
    if s == "" {
      assert AllKept(s) == [];
    } else {
      AllKeptIsText(s[1..], p);
      assert AllKept(s)[1..] == AllKept(s[1..]);
      assert s == [s[0]] + s[1..];
    }
  }

  /** The pieces of a redacted output. */
  ghost function PiecesOf(output: string, secrets: seq<Secret>): seq<Piece> {
    if secrets == [] then AllKept(output) else CutAll(AllKept(output), LongestFirstOrder(secrets))
  }

  lemma OrderHasSameSecrets(secrets: seq<Secret>, x: Secret)
    ensures x in LongestFirstOrder(secrets) <==> x in secrets
  {
    OrderIsStable(secrets);
    StablePermutationIsPermutation(secrets, LongestFirstOrder(secrets));
    assert x in multiset(secrets) <==> x in secrets;
    assert x in multiset(LongestFirstOrder(secrets)) <==> x in LongestFirstOrder(secrets);
  }

  lemma {:induction false} NothingToRedact(order: seq<Secret>, p: string)
    ensures RedactInOrder("", order, p) == ""
    decreases |order|
  {
    if order != [] {
      NothingToRedact(order[1..], p);
    }
  }

  lemma RedactIsInOrder(output: string, secrets: seq<Secret>, p: string)
    ensures Redact(output, secrets, p) == RedactInOrder(output, LongestFirstOrder(secrets), p)
  {
    if output == "" {
      NothingToRedact(LongestFirstOrder(secrets), p);
    }
  }

  /** MAIN RESULT.  When no secret value can overlap the placeholder in agreement, the
      result is the original with some secret values cut out and the placeholder put in
      their place, nothing else is altered, and no secret value is left anywhere. */
  lemma RedactionIsExact(output: string, secrets: seq<Secret>, p: string)
    requires p != "" && AllOverlapFree(secrets, p)
    ensures Original(PiecesOf(output, secrets)) == output
    ensures Shown(PiecesOf(output, secrets), p) == Redact(output, secrets, p)
    ensures forall q | q in PiecesOf(output, secrets) :: q.Cut? ==> IsSecretCut(q, secrets)
    ensures Clean(Redact(output, secrets, p), secrets)
  {
    var order, ps := LongestFirstOrder(secrets), AllKept(output);
    AllKeptIsText(output, p);
    forall x | x in order && x.value != "" ensures OverlapFree(x.value, p) {
      OrderHasSameSecrets(secrets, x);
    }
    RedactIsInOrder(output, secrets, p);
    RedactOnPieces(ps, order, p);
    CutAllPieces(ps, order);
    forall q | q in CutAll(ps, order) && q.Cut? ensures IsSecretCut(q, secrets) {
      assert forall k | 0 <= k < |ps| :: ps[k].Kept?;
      var x :| x in order && x.value == q.v;
      OrderHasSameSecrets(secrets, x);
    }
    forall x | x in secrets && x.value != "" ensures !Occurs(x.value, Redact(output, secrets, p)) {
      OrderHasSameSecrets(secrets, x);
      if Occurs(x.value, Redact(output, secrets, p)) {
        var r := Redact(output, secrets, p);
        var i: nat :| i <= |r| && OccursAt(x.value, r, i);
        OccurrenceIsRun(CutAll(ps, order), x.value, p, i);
        CutAllRuns(ps, order, x.value);
        assert false;
      }
    }
  }

  /** MAIN RESULT.  Longest first is what makes it whole: every occurrence of a secret in the
      original overlaps a cut whose value is at least as long.  For overlap-free secrets
      these cuts are what redaction replaces. */
  lemma EveryOccurrenceIsCovered(output: string, secrets: seq<Secret>, p: string, x: Secret, i: nat)
    requires x in secrets && x.value != "" && OccursAt(x.value, output, i)
    ensures Covered(PiecesOf(output, secrets), i, |x.value|, |x.value|)
    ensures p != "" && AllOverlapFree(secrets, p) ==>
              && Original(PiecesOf(output, secrets)) == output
              && Shown(PiecesOf(output, secrets), p) == Redact(output, secrets, p)
  {
    if p != "" && AllOverlapFree(secrets, p) {
      RedactionIsExact(output, secrets, p);
    }
    AllKeptIsText(output, "");
    OrderIsStable(secrets);
    OrderHasSameSecrets(secrets, x);
    assert forall k | 0 <= k < |AllKept(output)| :: AllKept(output)[k].Kept?;
    CutAllCovers(AllKept(output), LongestFirstOrder(secrets), x, i);
  }

  lemma {:induction false} AbsentIsUntouched(s: string, v: string, p: string)
    requires v != "" && !Occurs(v, s)
    ensures ReplaceAll(s, v, p) == s
  {
    if s != "" {
      assert v <= s ==> OccursAt(v, s, 0);
      forall i: nat ensures !OccursAt(v, s[1..], i) {
        assert !OccursAt(v, s, i + 1);
        assert i + |v| <= |s[1..]| ==> s[1..][i..i + |v|] == s[i + 1..i + 1 + |v|];
      }
      AbsentIsUntouched(s[1..], v, p);
    }
  }

  lemma {:induction false} CleanInOrder(s: string, order: seq<Secret>, p: string)
    requires Clean(s, order)
    ensures RedactInOrder(s, order, p) == s
    decreases |order|
  {
    if order != [] {
      assert order[0] in order;
      if order[0].value != "" {
        AbsentIsUntouched(s, order[0].value, p);
      }
      CleanInOrder(s, order[1..], p);
    }
  }

  lemma CleanIsUntouched(s: string, secrets: seq<Secret>, p: string)
    requires Clean(s, secrets)
    ensures Redact(s, secrets, p) == s
  {
    forall x | x in LongestFirstOrder(secrets) && x.value != "" ensures !Occurs(x.value, s) {
      OrderHasSameSecrets(secrets, x);
    }
    CleanInOrder(s, LongestFirstOrder(secrets), p);
  }

  lemma RedactionIsIdempotent(output: string, secrets: seq<Secret>, p: string)
    requires p != "" && AllOverlapFree(secrets, p)
    ensures Redact(Redact(output, secrets, p), secrets, p) == Redact(output, secrets, p)
  {
    RedactionIsExact(output, secrets, p);
    CleanIsUntouched(Redact(output, secrets, p), secrets, p);
  }
}
