/** Shared by every part of the model: optional values and 64-bit arithmetic. */
module Common {
  datatype Option<+T> = None | Some(value: T)

  const U64_MAX: nat := 0xffff_ffff_ffff_ffff

  type U64 = x: nat | x <= U64_MAX

  function SatAdd(a: U64, b: U64): U64 {
    if a + b > U64_MAX then U64_MAX else a + b
  }

  function SatSub(a: U64, b: U64): U64 {
    if a < b then 0 else a - b
  }

  function Pow2(k: nat): (p: nat)
    ensures p > 0
  {
    if k == 0 then 1 else 2 * Pow2(k - 1)
  }

  // ----- sums ----------------------------------------------------------------

  ghost predicate Distinct<T>(s: seq<T>) {
    forall i, j | 0 <= i < j < |s| :: s[i] != s[j]
  }

  ghost function Sum<T>(s: seq<T>, f: T -> nat): nat {
    if s == [] then 0 else Sum(s[..|s| - 1], f) + f(s[|s| - 1])
  }

  lemma {:induction false} SumSplit<T>(s: seq<T>, t: seq<T>, f: T -> nat)
    ensures Sum(s + t, f) == Sum(s, f) + Sum(t, f)
  {
    if t == [] {
      assert s + t == s;
    } else {
      var n := |t| - 1;
      SumSplit(s, t[..n], f);
      assert (s + t)[..|s + t| - 1] == s + t[..n];
    }
  }

  lemma SumAppend<T>(s: seq<T>, x: T, f: T -> nat)
    ensures Sum(s + [x], f) == Sum(s, f) + f(x)
  {
    assert (s + [x])[..|s|] == s;
  }

  lemma SumWithout<T>(s: seq<T>, i: nat, f: T -> nat)
    requires i < |s|
    ensures Sum(s, f) == Sum(s[..i] + s[i + 1..], f) + f(s[i])
  {
    assert s == s[..i] + [s[i]] + s[i + 1..];
    SumSplit(s[..i] + [s[i]], s[i + 1..], f);
    SumSplit(s[..i], s[i + 1..], f);
    assert (s[..i] + [s[i]])[..i] == s[..i];
  }

  /** Distinct members of a list add up to at most the whole list. */
  lemma {:induction false} SumWithin<T>(sub: seq<T>, all: seq<T>, f: T -> nat)
    requires Distinct(sub) && forall x | x in sub :: x in all
    ensures Sum(sub, f) <= Sum(all, f)
    decreases |sub|
  {
    if sub != [] {
      var n := |sub| - 1;
      assert sub[n] in sub;
      var i :| 0 <= i < |all| && all[i] == sub[n];
      var rest := all[..i] + all[i + 1..];
      forall x | x in sub[..n] ensures x in rest {
        assert x in sub;
      }
      SumWithin(sub[..n], rest, f);
      SumWithout(all, i, f);
    }
  }
}
