/** Where the promise "no secret value remains" ends: the exact condition for one value, the
    effect of a value that lies inside the placeholder, and the growth of the output. */
module RedactionLimits {
  import opened Strings
  import opened Redaction
  import opened RedactionProofs

  // ---------------------------------------------------------------- one value, exactly

  ghost predicate MatchesBefore(v: string, s: string, k: nat) {
    exists j: nat | j < k :: OccursAt(v, s, j)
  }

  /** A condition on the value and the placeholder alone.  The value never starts inside the
      placeholder; and wherever it would start k bytes before one, the text `v[..k] + v`
      that would put it there is one in which an earlier match gets in the way. */
  ghost predicate SafeAlone(v: string, p: string) {
    && (forall d | -|p| < d <= 0 :: !Agree(v, p, d))
    && (forall k | 0 < k < |v| && Agree(v, p, k) :: MatchesBefore(v, v[..k] + v, k))
  }

  /** How `v[k..]` can come to stand at the front of a replaced text: either it stood there,
      or the text goes on with part of it and then a match, whose placeholder supplies the
      next byte.  No match begins before that. */
  lemma {:induction false} FrontOfReplaced(t: string, v: string, p: string, k: nat) returns (m: nat)
    requires v != "" && p != "" && k <= |v| && v[k..] <= ReplaceAll(t, v, p)
    ensures k <= m <= |v| && v[k..m] <= t
    ensures forall j | 0 <= j < m - k :: !(v <= t[j..])
    ensures m == |v| ==> v[k..] <= t
    ensures m < |v| ==> v <= t[m - k..] && Agree(v, p, m)
    decreases |t|
  {
    if k == |v| {
      m := k;
    } else if v <= t {
      m := k;
      assert Agree(v, p, k);
    } else {
      m := FrontOfReplaced(t[1..], v, p, k + 1);
      assert t == [t[0]] + t[1..];
      assert v[k..m] == [v[k]] + v[k + 1..m];
      assert v[k..] == [v[k]] + v[k + 1..];
      forall j | 0 <= j < m - k ensures !(v <= t[j..]) {
        if j > 0 {
          assert t[j..] == t[1..][j - 1..];
        }
      }
    }
  }

  lemma OccursShift(v: string, front: string, s: string, i: nat)
    requires OccursAt(v, front + s, i) && i >= |front|
    ensures OccursAt(v, s, i - |front|)
  {
    assert s[i - |front|..i - |front| + |v|] == (front + s)[i..i + |v|];
  }

  lemma OccursInside(v: string, p: string, s: string, i: nat)
    requires OccursAt(v, p + s, i) && i < |p|
    ensures Agree(v, p, 0 - i)
  {
    forall k | 0 <= k < |v| && 0 - i <= k < |p| - i ensures v[k] == p[k + i] {
      assert (p + s)[i..i + |v|][k] == (p + s)[i + k];
    }
  }

  lemma NoEarlierMatch(s: string, v: string, m: nat)
    requires v != "" && m <= |v| && v[..m] <= s && v <= s[m..]
    requires forall j | 0 <= j < m :: !(v <= s[j..])
    ensures !MatchesBefore(v, v[..m] + v, m)
  {
    forall j: nat | j < m ensures !OccursAt(v, v[..m] + v, j) {
      assert v[..m] + v <= s;
      assert j + |v| <= |v[..m] + v|;
      assert (v[..m] + v)[j..j + |v|] == s[j..][..|v|];
    }
  }

  lemma FrontIsSafe(s: string, v: string, p: string)
    requires v != "" && p != "" && SafeAlone(v, p) && !(v <= s)
    ensures !(v <= ReplaceAll(s, v, p))
  {
    if v <= ReplaceAll(s, v, p) {
      assert v[0..] == v;
      var m := FrontOfReplaced(s, v, p, 0);
      assert s[m - 0..] == s[m..] && v[0..m] == v[..m];
      NoEarlierMatch(s, v, m);
      assert false;
    }
  }

  lemma {:induction false} SafeAloneSuffices(s: string, v: string, p: string, i: nat)
    requires v != "" && p != "" && SafeAlone(v, p) && OccursAt(v, ReplaceAll(s, v, p), i)
    ensures false
    decreases |s|
  {
    if s != "" {
      if v <= s {
        var r := ReplaceAll(s[|v|..], v, p);
        if i < |p| {
          OccursInside(v, p, r, i);
        } else {
          OccursShift(v, p, r, i);
          SafeAloneSuffices(s[|v|..], v, p, i - |p|);
        }
      } else if i > 0 {
        OccursShift(v, [s[0]], ReplaceAll(s[1..], v, p), i);
        SafeAloneSuffices(s[1..], v, p, i - 1);
      } else {
        FrontIsSafe(s, v, p);
      }
    }
  }

  /** A front in which no match begins passes unchanged. */
  lemma {:induction false} UnmatchedFront(a: string, b: string, v: string, p: string)
    requires v != "" && forall j | 0 <= j < |a| :: !(v <= (a + b)[j..])
    ensures ReplaceAll(a + b, v, p) == a + ReplaceAll(b, v, p)
  {
    if a == "" {
      assert a + b == b;
    } else {
      assert (a + b)[1..] == a[1..] + b;
      forall j | 0 <= j < |a[1..]| ensures !(v <= (a[1..] + b)[j..]) {
        assert (a + b)[j + 1..] == (a[1..] + b)[j..];
      }
      assert (a + b)[0..] == a + b;
      UnmatchedFront(a[1..], b, v, p);
      assert a == [a[0]] + a[1..];
    }
  }

  lemma ShorterIsUntouched(s: string, v: string, p: string)
    requires |s| < |v|
    ensures ReplaceAll(s, v, p) == s
  {
    AbsentIsUntouched(s, v, p);
  }

  lemma StartsInsideBreaks(v: string, p: string, d: nat) returns (s: string)
    requires v != "" && d < |p| && Agree(v, p, 0 - d)
    ensures Occurs(v, ReplaceAll(s, v, p))
  {
    var y := if d + |v| <= |p| then "" else v[|p| - d..];
    s := v + y;
    assert s[|v|..] == y;
    ShorterIsUntouched(y, v, p);
    assert ReplaceAll(s, v, p) == p + y;
    forall k | 0 <= k < |v| ensures (p + y)[d..d + |v|][k] == v[k] {
      if d + k < |p| {
        assert v[k] == p[k - (0 - d)];
      }
    }
    assert OccursAt(v, p + y, d);
  }

  lemma NoMatchBefore(v: string, k: nat, w: string)
    requires k < |v| && !MatchesBefore(v, v[..k] + v, k)
    ensures forall j | 0 <= j < k :: !(v <= (v[..k] + (v + w))[j..])
  {
    var short, s := v[..k] + v, v[..k] + (v + w);
    forall j: nat | j < k ensures !(v <= s[j..]) {
      assert !OccursAt(v, short, j);
      assert short[j..j + |v|] == s[j..][..|v|];
    }
  }

  /** The placeholder supplies the middle of the value. */
  lemma BrokenUpValue(v: string, p: string, k: nat)
    requires k < |v| && Agree(v, p, k)
    ensures v <= v[..k] + (p + if |v| - k <= |p| then "" else v[k + |p|..])
  {
    var w := if |v| - k <= |p| then "" else v[k + |p|..];
    var r := v[..k] + (p + w);
    forall i | 0 <= i < |v| ensures r[i] == v[i] {
    }
  }

  lemma StartsBeforeBreaks(v: string, p: string, k: nat) returns (s: string)
    requires 0 < k < |v| && Agree(v, p, k) && !MatchesBefore(v, v[..k] + v, k)
    ensures Occurs(v, ReplaceAll(s, v, p))
  {
    var w := if |v| - k <= |p| then "" else v[k + |p|..];
    s := v[..k] + (v + w);
    NoMatchBefore(v, k, w);
    UnmatchedFront(v[..k], v + w, v, p);
    assert (v + w)[|v|..] == w;
    ShorterIsUntouched(w, v, p);
    BrokenUpValue(v, p, k);
    assert OccursAt(v, ReplaceAll(s, v, p), 0);
  }

  ghost predicate RemainsIn(s: string, v: string, p: string)
    requires v != ""
  {
    Occurs(v, ReplaceAll(s, v, p))
  }

  lemma UnsafeBreaks(v: string, p: string) returns (s: string)
    requires v != "" && p != "" && !SafeAlone(v, p)
    ensures RemainsIn(s, v, p)
  {
    if forall d | -|p| < d <= 0 :: !Agree(v, p, d) {
      var k :| 0 < k < |v| && Agree(v, p, k) && !MatchesBefore(v, v[..k] + v, k);
      s := StartsBeforeBreaks(v, p, k);
    } else {
      var d :| -|p| < d <= 0 && Agree(v, p, d);
      assert Agree(v, p, 0 - -d);
      s := StartsInsideBreaks(v, p, -d);
    }
  }

  /** MAIN RESULT.  For one secret value, no output whatever keeps it if and only if the
      value is safe with the placeholder. */
  lemma OneValueRemovedIff(v: string, p: string)
    requires v != "" && p != ""
    ensures (forall s: string :: !RemainsIn(s, v, p)) <==> SafeAlone(v, p)
  {
    if SafeAlone(v, p) {
      forall s: string, i: nat ensures !OccursAt(v, ReplaceAll(s, v, p), i) {
        if OccursAt(v, ReplaceAll(s, v, p), i) {
          SafeAloneSuffices(s, v, p, i);
        }
      }
    } else {
      var s := UnsafeBreaks(v, p);
      assert RemainsIn(s, v, p);
    }
  }

  lemma OverlapFreeIsSafe(v: string, p: string)
    requires v != "" && OverlapFree(v, p)
    ensures SafeAlone(v, p)
  {
  }

  /** A condition easy to check: the value neither begins nor ends with a byte of the
      placeholder, and does not contain it. */
  lemma EndsOutsidePlaceholder(v: string, p: string)
    requires v != "" && v[0] !in p && v[|v| - 1] !in p && !Occurs(p, v)
    ensures OverlapFree(v, p)
  {
    forall d | -|p| < d < |v| ensures !Agree(v, p, d) {
      if d <= 0 {
        assert p[0 - d] in p && v[0] != p[0 - d];
      } else if d + |p| >= |v| {
        var k := |v| - 1;
        assert p[k - d] in p && v[k] != p[k - d];
      } else {
        assert !OccursAt(p, v, d);
        var k :| 0 <= k < |p| && v[d..d + |p|][k] != p[k];
        assert v[d + k] != p[d + k - d];
      }
    }
  }

  lemma CutAllOfTwo(ps: seq<Piece>, x: Secret, y: Secret)
    ensures CutAll(ps, [x, y]) == CutOne(CutOne(ps, x), y)
  {
    var order := [x, y];
    assert order[1..] == [y] && [y][1..] == [];
    assert CutAll(CutOne(ps, x), [y]) == CutAll(CutOne(CutOne(ps, x), y), []);
  }

  lemma ShownOfTwo(p: string)
    ensures Shown([Cut("ab"), Kept('c')], p) == p + "c" && Shown([Cut("abc")], p) == p
  {
    var ps := [Cut("ab"), Kept('c')];
    assert ps[1..] == [Kept('c')] && [Kept('c')][1..] == [] && [Cut("abc")][1..] == [];
    assert Shown([Kept('c')], p) == "c" && Shown([], p) == "";
  }

  lemma CutsByOrder(ab: Secret, abc: Secret)
    requires ab.value == "ab" && abc.value == "abc"
    ensures CutAll(AllKept("abc"), [ab, abc]) == [Cut("ab"), Kept('c')]
    ensures CutAll(AllKept("abc"), [abc, ab]) == [Cut("abc")]
    ensures !Covered([Cut("ab"), Kept('c')], 0, 3, 3)
  {
    var ps := AllKept("abc");
    assert ps == [Kept('a'), Kept('b'), Kept('c')];
    assert RunAt(ps, 0, "ab") && RunAt(ps, 0, "abc");
    assert CutOut(ps, "ab") == [Cut("ab"), Kept('c')];
    assert CutOut([Cut("ab"), Kept('c')], "abc") == [Cut("ab"), Kept('c')];
    assert CutOut(ps, "abc") == [Cut("abc")];
    assert CutOut([Cut("abc")], "ab") == [Cut("abc")];
    CutAllOfTwo(ps, ab, abc);
    CutAllOfTwo(ps, abc, ab);
  }

  /** In another order part of a secret can survive, covered by a shorter cut only. */
  lemma ShorterFirstLeavesRest(p: string)
    requires p != "" && OverlapFree("ab", p) && OverlapFree("abc", p)
    ensures var order := [Secret("A", "ab"), Secret("B", "abc")];
            && !Covered(CutAll(AllKept("abc"), order), 0, 3, 3)
            && RedactInOrder("abc", order, p) == p + "c"
            && Redact("abc", order, p) == p
  {
    var ab, abc, ps := Secret("A", "ab"), Secret("B", "abc"), AllKept("abc");
    CutsByOrder(ab, abc);
    AllKeptIsText("abc", p);
    RedactOnPieces(ps, [ab, abc], p);
    RedactOnPieces(ps, [abc, ab], p);
    ShownOfTwo(p);
    assert LongestFirstOrder([ab, abc]) == [abc, ab] by {
      assert [ab, abc][..1] == [ab] && [ab][..0] == [];
      assert LongestFirstOrder([ab]) == Insert([], ab) == [ab];
      assert Insert([ab], abc) == Insert([], abc) + [ab];
    }
  }

  // ---------------------------------------------------------------- a value inside the placeholder

  lemma {:induction false} ChangedShowsPlaceholder(s: string, v: string, p: string)
    requires v != ""
    ensures if Occurs(v, s) then Occurs(p, ReplaceAll(s, v, p)) else ReplaceAll(s, v, p) == s
  {
    if !Occurs(v, s) {
      AbsentIsUntouched(s, v, p);
    } else {
      var i: nat :| i <= |s| && OccursAt(v, s, i);
      if v <= s {
        assert OccursAt(p, ReplaceAll(s, v, p), 0);
      } else {
        assert s[1..][i - 1..i - 1 + |v|] == v;
        assert OccursAt(v, s[1..], i - 1);
        ChangedShowsPlaceholder(s[1..], v, p);
        var j: nat :| j <= |ReplaceAll(s[1..], v, p)| && OccursAt(p, ReplaceAll(s[1..], v, p), j);
        assert ReplaceAll(s, v, p)[j + 1..j + 1 + |p|] == p;
        assert OccursAt(p, ReplaceAll(s, v, p), j + 1);
      }
    }
  }

  lemma {:induction false} RedactedShowsPlaceholder(s: string, order: seq<Secret>, p: string)
    ensures Occurs(p, s) || !Clean(s, order) ==> Occurs(p, RedactInOrder(s, order, p))
    decreases |order|
  {
    if order != [] {
      var x := order[0];
      if x.value != "" {
        ChangedShowsPlaceholder(s, x.value, p);
      }
      RedactedShowsPlaceholder(RedactOne(s, x, p), order[1..], p);
    }
  }

  lemma OccursWithin(v: string, p: string, s: string)
    requires Occurs(v, p) && Occurs(p, s)
    ensures Occurs(v, s)
  {
    var i: nat :| i <= |p| && OccursAt(v, p, i);
    var j: nat :| j <= |s| && OccursAt(p, s, j);
    forall k | 0 <= k < |v| ensures s[j + i..j + i + |v|][k] == v[k] {
      assert s[j + i + k] == s[j..j + |p|][i + k];
      assert p[i..i + |v|][k] == p[i + k];
    }
    assert OccursAt(v, s, j + i);
  }

  /** MAIN RESULT.  If some secret value is a substring of the placeholder, then, whatever the
      other secrets are, the result is free of secrets if and only if the output already was. */
  lemma InsidePlaceholder(output: string, secrets: seq<Secret>, p: string, x: Secret)
    requires x in secrets && x.value != "" && Occurs(x.value, p)
    ensures Clean(Redact(output, secrets, p), secrets) <==> Clean(output, secrets)
  {
    var order := LongestFirstOrder(secrets);
    if Clean(output, secrets) {
      CleanIsUntouched(output, secrets, p);
    } else {
      var y :| y in secrets && y.value != "" && Occurs(y.value, output);
      OrderHasSameSecrets(secrets, y);
      assert !Clean(output, order);
      RedactIsInOrder(output, secrets, p);
      RedactedShowsPlaceholder(output, order, p);
      OccursWithin(x.value, p, Redact(output, secrets, p));
    }
  }

  /** So the claim fails for the placeholder the executor uses and a three-byte secret. */
  lemma ClaimNeedsItsHypothesis()
    ensures !Clean(Redact("RED", [Secret("TOKEN", "RED")], PLACEHOLDER), [Secret("TOKEN", "RED")])
  {
    var x := Secret("TOKEN", "RED");
    assert PLACEHOLDER[3..6] == "RED";
    assert OccursAt("RED", PLACEHOLDER, 3);
    assert OccursAt("RED", "RED", 0);
    assert x in [x];
    InsidePlaceholder("RED", [x], PLACEHOLDER, x);
  }

  // ---------------------------------------------------------------- size

  lemma Distribute(m: nat, a: nat, b: nat)
    ensures m * (a + b) == m * a + m * b
    ensures a >= 1 ==> m * a >= m
  {
  }

  lemma {:induction false} PiecesBound(ps: seq<Piece>, p: string)
    requires p != "" && Proper(ps)
    ensures |Shown(ps, p)| <= |p| * |Original(ps)|
  {
    if ps != [] {
      PiecesBound(ps[1..], p);
      assert Original([ps[0]]) + Original(ps[1..]) == Original(ps);
      Distribute(|p|, |Original([ps[0]])|, |Original(ps[1..])|);
    }
  }

  lemma RedactionSize(output: string, secrets: seq<Secret>, p: string)
    requires p != "" && AllOverlapFree(secrets, p)
    ensures |Redact(output, secrets, p)| <= |p| * |output|
  {
    RedactionIsExact(output, secrets, p);
    var ps := PiecesOf(output, secrets);
    assert forall k | 0 <= k < |ps| :: ps[k] in ps;
    PiecesBound(ps, p);
  }

  lemma {:induction false} ReplaceSize(s: string, v: string, p: string)
    requires v != "" && p != ""
    ensures |ReplaceAll(s, v, p)| <= |p| * |s|
    decreases |s|
  {
    if s != "" {
      var step := if v <= s then |v| else 1;
      ReplaceSize(s[step..], v, p);
      Distribute(|p|, step, |s| - step);
    }
  }

  function Power(b: nat, k: nat): nat {
    if k == 0 then 1 else b * Power(b, k - 1)
  }

  function NonEmpty(secrets: seq<Secret>): nat {
    if secrets == [] then 0 else (if secrets[0].value == "" then 0 else 1) + NonEmpty(secrets[1..])
  }

  lemma Scale(f: nat, a: nat, b: nat, c: nat)
    requires a <= b * c
    ensures f * a <= (b * f) * c
  {
    assert f * a <= f * (b * c);
    assert f * (b * c) == (b * f) * c;
  }

  lemma {:induction false} InOrderSize(s: string, order: seq<Secret>, p: string)
    requires p != ""
    ensures |RedactInOrder(s, order, p)| <= Power(|p|, NonEmpty(order)) * |s|
    decreases |order|
  {
    if order != [] {
      var x, k := order[0], NonEmpty(order[1..]);
      InOrderSize(RedactOne(s, x, p), order[1..], p);
      if x.value != "" {
        ReplaceSize(s, x.value, p);
        Scale(Power(|p|, k), |ReplaceAll(s, x.value, p)|, |p|, |s|);
      }
    }
  }

  lemma {:induction false} NonEmptyConcat(a: seq<Secret>, b: seq<Secret>)
    ensures NonEmpty(a + b) == NonEmpty(a) + NonEmpty(b)
  {
    if a == [] {
      assert a + b == b;
    } else {
      assert (a + b)[1..] == a[1..] + b;
      NonEmptyConcat(a[1..], b);
    }
  }

  lemma {:induction false} NonEmptyInsert(r: seq<Secret>, x: Secret)
    ensures NonEmpty(Insert(r, x)) == NonEmpty(r) + NonEmpty([x])
  {
    if r == [] || |r[|r| - 1].value| >= |x.value| {
      NonEmptyConcat(r, [x]);
    } else {
      var front, last := r[..|r| - 1], r[|r| - 1];
      NonEmptyInsert(front, x);
      NonEmptyConcat(Insert(front, x), [last]);
      NonEmptyConcat(front, [last]);
      assert r == front + [last];
    }
  }

  lemma {:induction false} NonEmptyOrder(s: seq<Secret>)
    ensures NonEmpty(LongestFirstOrder(s)) == NonEmpty(s)
  {
    if s != [] {
      var front, x := s[..|s| - 1], s[|s| - 1];
      NonEmptyOrder(front);
      NonEmptyInsert(LongestFirstOrder(front), x);
      NonEmptyConcat(front, [x]);
      assert s == front + [x];
    }
  }

  /** Without any hypothesis, each non-empty secret may multiply the size once more. */
  lemma RedactionSizeGeneral(output: string, secrets: seq<Secret>, p: string)
    requires p != ""
    ensures |Redact(output, secrets, p)| <= Power(|p|, NonEmpty(secrets)) * |output|
  {
    RedactIsInOrder(output, secrets, p);
    InOrderSize(output, LongestFirstOrder(secrets), p);
    NonEmptyOrder(secrets);
  }
}
