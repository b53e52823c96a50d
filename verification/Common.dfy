/** Small shared vocabulary: options, map lookup, and the string operations the
    repository takes from Go's standard library. */
module Common {

  datatype Option<+T> = None | Some(value: T)

  /** Always true.  A fact stated for all `ask` with `OnDemand(ask)` reaches only the proofs
      that mention it: a way to keep a run's history out of the proofs about one call. */
  ghost predicate OnDemand(ask: int) {
    true
  }

  /** The value a key holds, if any: Go's two-result map index. */
  function Lookup<K, V>(m: map<K, V>, k: K): Option<V> {
    if k in m then Some(m[k]) else None
  }

  /** Go's string order: the first difference decides, a proper prefix is smaller. */
  predicate StringLess(a: string, b: string)
    decreases |a|
  {
    if b == "" then false
    else if a == "" then true
    else a[0] < b[0] || (a[0] == b[0] && StringLess(a[1..], b[1..]))
  }

  lemma {:induction false} StringLessIrreflexive(a: string)
    ensures !StringLess(a, a)
    decreases |a|
  {
    if a != "" { StringLessIrreflexive(a[1..]); }
  }

  lemma {:induction false} StringLessTransitive(a: string, b: string, c: string)
    requires StringLess(a, b) && StringLess(b, c)
    ensures StringLess(a, c)
    decreases |a|
  {
    if a != "" && a[0] == b[0] && b[0] == c[0] { StringLessTransitive(a[1..], b[1..], c[1..]); }
  }

  lemma {:induction false} StringLessTotal(a: string, b: string)
    ensures a == b || StringLess(a, b) || StringLess(b, a)
    decreases |a|
  {
    if a != "" && b != "" && a[0] == b[0] {
      StringLessTotal(a[1..], b[1..]);
      if a[1..] == b[1..] {
        assert a == [a[0]] + a[1..] == [b[0]] + b[1..] == b;
      }
    }
  }

  /** The strings agree up to `k`, where the first ends or has the smaller character. */
  predicate LessAt(a: string, b: string, k: nat) {
    k <= |a| && k < |b| && a[..k] == b[..k] && (k == |a| || a[k] < b[k])
  }

  lemma {:induction false} StringLessExact(a: string, b: string)
    ensures StringLess(a, b) <==> exists k: nat :: LessAt(a, b, k)
    decreases |a|
  {
    if a != "" && b != "" && a[0] == b[0] {
      StringLessExact(a[1..], b[1..]);
      if k: nat :| LessAt(a[1..], b[1..], k) {
        assert a[..k + 1] == [a[0]] + a[1..][..k] && b[..k + 1] == [b[0]] + b[1..][..k];
        assert LessAt(a, b, k + 1);
      }
      if k: nat :| LessAt(a, b, k) {
        assert k > 0 && a[1..][..k - 1] == a[..k][1..] && b[1..][..k - 1] == b[..k][1..];
        assert LessAt(a[1..], b[1..], k - 1);
      }
    } else if b != "" && (a == "" || a[0] < b[0]) {
      assert LessAt(a, b, 0);
    } else {
      assert forall k :: 0 < k <= |a| && k < |b| ==> a[..k][0] == a[0] && b[..k][0] == b[0];
    }
  }

  /** Where the first `c` is, or the length when there is none. */
  function IndexOf(s: string, c: char): (i: nat)
    ensures i <= |s|
    ensures i < |s| ==> s[i] == c
    ensures forall j :: 0 <= j < i ==> s[j] != c
  {
    if s == "" then 0 else if s[0] == c then 0 else 1 + IndexOf(s[1..], c)
  }

  /** `strings.Cut` around a one-character separator. */
  datatype CutResult = CutResult(before: string, after: string, found: bool)

  function Cut(s: string, c: char): CutResult {
    var i := IndexOf(s, c);
    if i < |s| then CutResult(s[..i], s[i + 1..], true) else CutResult(s, "", false)
  }

  /** The first separator of `a + [c] + b` is the one shown when `a` has none. */
  lemma {:induction false} IndexOfConcat(a: string, c: char, b: string)
    requires c !in a
    ensures IndexOf(a + [c] + b, c) == |a|
  {
    var s := a + [c] + b;
    assert s[|a|] == c;
    assert forall j :: 0 <= j < |a| ==> s[j] == a[j];
  }

  lemma {:induction false} IndexOfNone(a: string, c: char)
    requires c !in a
    ensures IndexOf(a, c) == |a|
  {
    assert forall j :: 0 <= j < |a| ==> a[j] in a;
  }

  lemma {:induction false} CutConcat(a: string, c: char, b: string)
    requires c !in a
    ensures Cut(a + [c] + b, c) == CutResult(a, b, true)
  {
    IndexOfConcat(a, c, b);
    var s := a + [c] + b;
    assert s[..|a|] == a && s[|a| + 1..] == b;
  }

  /** Lower-casing, on ASCII letters. */
  function LowerChar(c: char): char {
    if 'A' <= c <= 'Z' then c - 'A' + 'a' else c
  }

  /** The same text but for the case of ASCII letters. */
  predicate EqualFold(a: string, b: string) {
    |a| == |b| && forall i :: 0 <= i < |a| ==> SameLetter(a[i], b[i])
  }

  predicate SameLetter(c: char, d: char) {
    c == d || (IsUpper(c) && d as int == c as int + 32) || (IsUpper(d) && c as int == d as int + 32)
  }

  predicate IsUpper(c: char) {
    65 <= c as int <= 90
  }

  lemma LowerCharFolds(c: char, d: char)
    ensures LowerChar(c) == LowerChar(d) <==> SameLetter(c, d)
  {
  }

  lemma {:induction false} LowerFolds(a: string, b: string)
    ensures Lower(a) == Lower(b) <==> EqualFold(a, b)
    decreases |a|
  {
    if a != "" && b != "" {
      LowerCharFolds(a[0], b[0]);
      LowerFolds(a[1..], b[1..]);
      assert EqualFold(a, b) <==> SameLetter(a[0], b[0]) && EqualFold(a[1..], b[1..]);
    }
  }

  function Lower(s: string): (r: string)
    ensures |r| == |s|
    ensures forall i :: 0 <= i < |s| ==> r[i] == LowerChar(s[i])
  {
    if s == "" then "" else [LowerChar(s[0])] + Lower(s[1..])
  }
}
