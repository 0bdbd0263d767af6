/** Secret redaction of captured output (pkg/executor/redaction.go).  Text is a sequence of
    bytes; one `char` stands for one byte, and only equality of bytes is ever used. */
module Redaction {

  datatype Secret = Secret(name: string, value: string)

  /** The placeholder the executor passes. */
  const PLACEHOLDER := "***REDACTED***"

  // ---------------------------------------------------------------- replacement

  /** strings.ReplaceAll for a non-empty `v`: leftmost first, never overlapping. */
  function ReplaceAll(s: string, v: string, p: string): string
    requires v != ""
    decreases |s|
  {
    if s == "" then ""
    else if v <= s then p + ReplaceAll(s[|v|..], v, p)
    else [s[0]] + ReplaceAll(s[1..], v, p)
  }

  // ---------------------------------------------------------------- sorting

  ghost predicate Descending(s: seq<Secret>) {
    forall i, j | 0 <= i < j < |s| :: |s[i].value| >= |s[j].value|
  }

  /** The secrets whose value has length n, in order. */
  ghost function OfLength(s: seq<Secret>, n: nat): seq<Secret> {
    if s == [] then []
    else (if |s[0].value| == n then [s[0]] else []) + OfLength(s[1..], n)
  }

  /** Same entries, and those of equal length in the same order. */
  ghost predicate StablyPermutes(s: seq<Secret>, r: seq<Secret>) {
    forall n: nat :: OfLength(r, n) == OfLength(s, n)
  }

  lemma {:induction false} OfLengthConcat(a: seq<Secret>, b: seq<Secret>, n: nat)
    ensures OfLength(a + b, n) == OfLength(a, n) + OfLength(b, n)
  {
    if a == [] {
      assert a + b == b;
    } else {
      var s, rest := a + b, a[1..];
      assert s[0] == a[0] && s[1..] == rest + b;
      OfLengthConcat(rest, b, n);
      var head := if |a[0].value| == n then [a[0]] else [];
      assert head + (OfLength(rest, n) + OfLength(b, n)) == (head + OfLength(rest, n)) + OfLength(b, n);
    }
  }

  /** Swapping two neighbours of different length keeps every length class in order. */
  lemma OfLengthSwapFront(x: Secret, y: Secret, back: seq<Secret>, n: nat)
    requires |x.value| != |y.value|
    ensures OfLength([x, y] + back, n) == OfLength([y, x] + back, n)
  {
    assert ([x, y] + back)[1..] == [y] + back && ([y, x] + back)[1..] == [x] + back;
    assert ([y] + back)[1..] == back && ([x] + back)[1..] == back;
  }

  lemma OfLengthSwap(s: seq<Secret>, j: nat, n: nat)
    requires 0 < j < |s| && |s[j].value| != |s[j - 1].value|
    ensures OfLength(s[j := s[j - 1]][j - 1 := s[j]], n) == OfLength(s, n)
  {
    var front, back := s[..j - 1], s[j + 1..];
    assert s == front + ([s[j - 1], s[j]] + back);
    assert s[j := s[j - 1]][j - 1 := s[j]] == front + ([s[j], s[j - 1]] + back);
    OfLengthConcat(front, [s[j - 1], s[j]] + back, n);
    OfLengthConcat(front, [s[j], s[j - 1]] + back, n);
    OfLengthSwapFront(s[j - 1], s[j], back, n);
  }

  lemma {:induction false} LongestFirst(s: seq<Secret>, n: nat)
    requires Descending(s) && OfLength(s, n) != []
    ensures n <= |s[0].value|
  {
    if |s| > 1 && |s[0].value| != n {
      LongestFirst(s[1..], n);
    }
  }

  /** There is only one stable descending arrangement, so the contract of the sort below
      determines its result completely. */
  lemma {:induction false} StableOrderUnique(s: seq<Secret>, r: seq<Secret>)
    requires Descending(s) && Descending(r) && StablyPermutes(s, r)
    ensures s == r
  {
    if s != [] {
      assert OfLength(r, |s[0].value|) == OfLength(s, |s[0].value|);
      LongestFirst(r, |s[0].value|);
    }
    if r != [] {
      assert OfLength(r, |r[0].value|) == OfLength(s, |r[0].value|);
      LongestFirst(s, |r[0].value|);
    }
    if s != [] {
      assert s[0] == OfLength(s, |s[0].value|)[0] == r[0];
      forall n: nat ensures OfLength(r[1..], n) == OfLength(s[1..], n) {
        assert OfLength(r, n) == OfLength(s, n);
        assert OfLength(s[1..], n) == if |s[0].value| == n then OfLength(s, n)[1..] else OfLength(s, n);
        assert OfLength(r[1..], n) == if |s[0].value| == n then OfLength(r, n)[1..] else OfLength(r, n);
      }
      StableOrderUnique(s[1..], r[1..]);
      assert s == [s[0]] + s[1..] && r == [r[0]] + r[1..];
    }
  }

  lemma {:induction false} LengthClassCounts(s: seq<Secret>, x: Secret)
    ensures multiset(s)[x] == multiset(OfLength(s, |x.value|))[x]
  {
    if s != [] {
      LengthClassCounts(s[1..], x);
      assert s == [s[0]] + s[1..];
    }
  }

  lemma StablePermutationIsPermutation(s: seq<Secret>, r: seq<Secret>)
    requires StablyPermutes(s, r)
    ensures multiset(s) == multiset(r)
  {
    forall x: Secret ensures multiset(s)[x] == multiset(r)[x] {
      LengthClassCounts(s, x);
      LengthClassCounts(r, x);
      assert OfLength(r, |x.value|) == OfLength(s, |x.value|);
    }
  }

  /** The specification of the sort: each secret in turn goes behind all that are at least
      as long. */
  function Insert(r: seq<Secret>, x: Secret): (r': seq<Secret>)
    ensures forall e | e in r' :: e in r || e == x
  {
    if r == [] || |r[|r| - 1].value| >= |x.value| then r + [x]
    else Insert(r[..|r| - 1], x) + [r[|r| - 1]]
  }

  function LongestFirstOrder(s: seq<Secret>): seq<Secret> {
    if s == [] then [] else Insert(LongestFirstOrder(s[..|s| - 1]), s[|s| - 1])
  }

  lemma {:induction false} InsertDescends(r: seq<Secret>, x: Secret)
    requires Descending(r)
    ensures Descending(Insert(r, x))
  {
    if r != [] && |r[|r| - 1].value| < |x.value| {
      InsertDescends(r[..|r| - 1], x);
      var front := Insert(r[..|r| - 1], x);
      forall k | 0 <= k < |front| ensures |front[k].value| >= |r[|r| - 1].value| {
        assert front[k] in front;
      }
    }
  }

  lemma {:induction false} InsertIsStable(r: seq<Secret>, x: Secret, n: nat)
    ensures OfLength(Insert(r, x), n) == OfLength(r, n) + OfLength([x], n)
  {
    if r == [] || |r[|r| - 1].value| >= |x.value| {
      OfLengthConcat(r, [x], n);
    } else {
      var front, last := r[..|r| - 1], r[|r| - 1];
      InsertIsStable(front, x, n);
      OfLengthConcat(Insert(front, x), [last], n);
      assert r == front + [last];
      OfLengthConcat(front, [last], n);
      assert OfLength([x], n) == [] || OfLength([last], n) == [];
    }
  }

  lemma {:induction false} OrderIsStable(s: seq<Secret>)
    ensures Descending(LongestFirstOrder(s)) && StablyPermutes(s, LongestFirstOrder(s))
  {
    if s != [] {
      var front, x := s[..|s| - 1], s[|s| - 1];
      OrderIsStable(front);
      forall n: nat ensures OfLength(LongestFirstOrder(s), n) == OfLength(s, n) {
        InsertIsStable(LongestFirstOrder(front), x, n);
        assert OfLength(LongestFirstOrder(front), n) == OfLength(front, n);
        OfLengthConcat(front, [x], n);
        assert s == front + [x];
      }
      InsertDescends(LongestFirstOrder(front), x);
    }
  }

  function Swapped(s: seq<Secret>, j: nat): seq<Secret>
    requires 0 < j < |s|
  {
    s[j := s[j - 1]][j - 1 := s[j]]
  }

  lemma SwapIsStable(secrets: seq<Secret>, s: seq<Secret>, j: nat)
    requires StablyPermutes(secrets, s)
    requires 0 < j < |s| && |s[j].value| != |s[j - 1].value|
    ensures StablyPermutes(secrets, Swapped(s, j))
  {
    forall n: nat ensures OfLength(Swapped(s, j), n) == OfLength(secrets, n) {
      OfLengthSwap(s, j, n);
      assert OfLength(s, n) == OfLength(secrets, n);
    }
  }

  lemma OrderIsTheOnlyOne(secrets: seq<Secret>, r: seq<Secret>)
    requires Descending(r) && StablyPermutes(secrets, r)
    ensures r == LongestFirstOrder(secrets)
  {
    OrderIsStable(secrets);
    forall n: nat ensures OfLength(LongestFirstOrder(secrets), n) == OfLength(r, n) {
      assert OfLength(r, n) == OfLength(secrets, n);
      assert OfLength(LongestFirstOrder(secrets), n) == OfLength(secrets, n);
    }
    StableOrderUnique(r, LongestFirstOrder(secrets));
  }

  /** The first `i + 1` entries descend, the one at `j` aside, which is still sinking. */
  ghost predicate DescendingBut(s: seq<Secret>, i: nat, j: nat)
    requires i < |s|
  {
    forall a, b | 0 <= a < b <= i && b != j :: |s[a].value| >= |s[b].value|
  }

  lemma SwapSinks(s: seq<Secret>, i: nat, j: nat)
    requires i < |s| && 0 < j <= i && DescendingBut(s, i, j) && |s[j].value| > |s[j - 1].value|
    ensures DescendingBut(Swapped(s, j), i, j - 1)
  {
  }

  /** The insertion sort by adjacent swaps on a copy. */
  method SortSecretsByValueLength(secrets: seq<Secret>) returns (result: seq<Secret>)
    ensures Descending(result) && StablyPermutes(secrets, result)
    ensures result == LongestFirstOrder(secrets)
  {
    var sorted := new Secret[|secrets|](k requires 0 <= k < |secrets| => secrets[k]);
    assert sorted[..] == secrets;
    var i := 1;
    while i < sorted.Length
      invariant 1 <= i && (i <= sorted.Length || sorted.Length == 0)
      invariant sorted.Length > 0 ==> Descending(sorted[..i])
      invariant StablyPermutes(secrets, sorted[..])
    {
      var j := i;
      while j > 0 && |sorted[j].value| > |sorted[j - 1].value|
        invariant 0 <= j <= i
        invariant DescendingBut(sorted[..], i, j)
        invariant StablyPermutes(secrets, sorted[..])
      {
        SwapIsStable(secrets, sorted[..], j);
        SwapSinks(sorted[..], i, j);
        ghost var swapped := Swapped(sorted[..], j);
        sorted[j], sorted[j - 1] := sorted[j - 1], sorted[j];
        assert sorted[..] == swapped;
        j := j - 1;
      }
      assert Descending(sorted[..i + 1]);
      i := i + 1;
    }
    result := sorted[..];
    OrderIsTheOnlyOne(secrets, result);
  }

  // ---------------------------------------------------------------- RedactSecrets

  function RedactOne(s: string, x: Secret, p: string): string {
    if x.value == "" then s else ReplaceAll(s, x.value, p)
  }

  function RedactInOrder(s: string, order: seq<Secret>, p: string): string
    decreases |order|
  {
    if order == [] then s else RedactInOrder(RedactOne(s, order[0], p), order[1..], p)
  }

  function Redact(output: string, secrets: seq<Secret>, p: string): string {
    if secrets == [] || output == "" then output
    else RedactInOrder(output, LongestFirstOrder(secrets), p)
  }

  method RedactSecrets(output: string, secrets: seq<Secret>, placeholder: string) returns (result: string)
    ensures result == Redact(output, secrets, placeholder)
  {
    if |secrets| == 0 || output == "" {
      return output;
    }
    var sorted := SortSecretsByValueLength(secrets);
    result := output;
    for k := 0 to |sorted|
      invariant RedactInOrder(result, sorted[k..], placeholder) == RedactInOrder(output, sorted, placeholder)
    {
      if sorted[k].value != "" {
        result := ReplaceAll(result, sorted[k].value, placeholder);
      }
    }
  }
}
