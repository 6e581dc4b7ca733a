/** Small vocabulary shared by the models: optional values, int32, and sums over sequences. */
module Prelude {

  const MIN_INT32: int := -0x8000_0000
  const MAX_INT32: int := 0x7FFF_FFFF

  datatype Option<+T> = None | Some(value: T)

  function Min(a: int, b: int): int { if a <= b then a else b }

  function Max(a: int, b: int): int { if a >= b then a else b }

  /** The sum of a weight over a sequence. */
  function Sum<T>(f: T -> nat, s: seq<T>): nat
  {
    if s == [] then 0 else f(s[0]) + Sum(f, s[1..])
  }

  lemma {:induction false} SumConcat<T>(f: T -> nat, s: seq<T>, t: seq<T>)
    ensures Sum(f, s + t) == Sum(f, s) + Sum(f, t)
  {
    if s == [] {
      assert s + t == t;
    } else {
      SumConcat(f, s[1..], t);
      assert (s + t)[1..] == s[1..] + t;
    }
  }

  lemma SumOne<T>(f: T -> nat, x: T)
    ensures Sum(f, [x]) == f(x)
  {
    assert [x][1..] == [];
  }

  lemma SumAppend<T>(f: T -> nat, s: seq<T>, x: T)
    ensures Sum(f, s + [x]) == Sum(f, s) + f(x)
  {
    SumConcat(f, s, [x]);
    SumOne(f, x);
  }

  lemma SumSplit<T>(f: T -> nat, s: seq<T>, i: nat)
    requires i < |s|
    ensures Sum(f, s) == Sum(f, s[..i]) + f(s[i]) + Sum(f, s[i + 1..])
  {
    assert s == s[..i] + ([s[i]] + s[i + 1..]);
    SumConcat(f, s[..i], [s[i]] + s[i + 1..]);
    SumConcat(f, [s[i]], s[i + 1..]);
    SumOne(f, s[i]);
  }

  lemma SumUpdate<T>(f: T -> nat, s: seq<T>, i: nat, x: T)
    requires i < |s|
    ensures Sum(f, s[i := x]) + f(s[i]) == Sum(f, s) + f(x)
    ensures f(s[i]) <= Sum(f, s)
  {
    SumSplit(f, s, i);
    SumSplit(f, s[i := x], i);
    assert s[i := x][..i] == s[..i] && s[i := x][i + 1..] == s[i + 1..];
  }

  lemma SumRemove<T>(f: T -> nat, s: seq<T>, i: nat)
    requires i < |s|
    ensures Sum(f, s[..i] + s[i + 1..]) + f(s[i]) == Sum(f, s)
  {
    SumSplit(f, s, i);
    SumConcat(f, s[..i], s[i + 1..]);
  }
}
