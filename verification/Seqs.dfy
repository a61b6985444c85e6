/** Sums over tables. A table whose rows are only ever inserted or rewritten in
    place is a sequence, and a row's id is its position; a count is the sum of
    a zero-or-one weight. */
module Seqs {

  datatype Option<+T> = None | Some(value: T)

  function Elements(s: seq<nat>): set<nat> {
    set i | i in s
  }

  function Sum<T>(s: seq<T>, weight: T -> nat): nat {
    if s == [] then 0 else weight(s[0]) + Sum(s[1..], weight)
  }

  lemma {:induction false} SumConcat<T>(a: seq<T>, b: seq<T>, weight: T -> nat)
    ensures Sum(a + b, weight) == Sum(a, weight) + Sum(b, weight)
  {
    if a == [] {
      assert a + b == b;
    } else {
      assert (a + b)[1..] == a[1..] + b;
      SumConcat(a[1..], b, weight);
    }
  }

  lemma SumAppend<T>(s: seq<T>, x: T, weight: T -> nat)
    ensures Sum(s + [x], weight) == Sum(s, weight) + weight(x)
  {
    SumConcat(s, [x], weight);
    assert Sum([x], weight) == weight(x) + Sum([x][1..], weight);
  }

  /** Rewriting one row moves the total by that row's difference. */
  lemma {:induction false} SumUpdate<T>(s: seq<T>, i: nat, x: T, weight: T -> nat)
    requires i < |s|
    ensures Sum(s[i := x], weight) + weight(s[i]) == Sum(s, weight) + weight(x)
  {
    if i == 0 {
      assert s[0 := x][1..] == s[1..];
    } else {
      assert s[i := x][1..] == s[1..][i - 1 := x];
      SumUpdate(s[1..], i - 1, x, weight);
    }
  }

  lemma {:induction false} SumPointwise<T, U>(s: seq<T>, t: seq<U>, f: T -> nat, g: U -> nat)
    requires |s| == |t|
    requires forall i :: 0 <= i < |s| ==> f(s[i]) == g(t[i])
    ensures Sum(s, f) == Sum(t, g)
  {
    if s != [] {
      SumPointwise(s[1..], t[1..], f, g);
    }
  }

  lemma {:induction false} SumAtLeast<T>(s: seq<T>, i: nat, weight: T -> nat)
    requires i < |s|
    ensures Sum(s, weight) >= weight(s[i])
  {
    if i > 0 {
      SumAtLeast(s[1..], i - 1, weight);
    }
  }

  lemma {:induction false} SumZero<T>(s: seq<T>, weight: T -> nat)
    requires forall x :: x in s ==> weight(x) == 0
    ensures Sum(s, weight) == 0
  {
    if s != [] {
      SumZero(s[1..], weight);
    }
  }

  /** Two rows cannot both carry weight when the total is at most one. */
  lemma {:induction false} SumAtMostOne<T>(s: seq<T>, i: nat, j: nat, weight: T -> nat)
    requires i < j < |s| && weight(s[i]) >= 1 && weight(s[j]) >= 1
    ensures Sum(s, weight) >= 2
  {
    if i == 0 {
      SumAtLeast(s[1..], j - 1, weight);
    } else {
      SumAtMostOne(s[1..], i - 1, j - 1, weight);
    }
  }

  lemma ConcatAssociates<T>(a: seq<T>, b: seq<T>, c: seq<T>)
    ensures a + b + c == a + (b + c)
  {
  }
}
