/** Facts about sequences and multisets that every part of the model uses. */
module Secuencias {

  datatype Opcion<+T> = Nada | Algo(valor: T)

  lemma MultisetPartida<T>(s: seq<T>, i: nat)
    requires i < |s|
    ensures multiset(s) == multiset(s[..i]) + multiset{s[i]} + multiset(s[i + 1..])
    ensures multiset(s[..i] + s[i + 1..]) == multiset(s) - multiset{s[i]}
  {
    assert s == s[..i] + ([s[i]] + s[i + 1..]);
  }

  /** Where the head of a list sits in a permutation of it, and what is left of both. */
  lemma Permutada<T>(x: seq<T>, y: seq<T>) returns (k: nat)
    requires x != [] && multiset(x) == multiset(y)
    ensures k < |y| && y[k] == x[0]
    ensures multiset(x[1..]) == multiset(y[..k] + y[k + 1..])
  {
    assert x[0] in multiset(x);
    assert x[0] in multiset(y);
    k :| 0 <= k < |y| && y[k] == x[0];
    MultisetSinPrimero(x);
    MultisetSin(y, k);
  }

  lemma MultisetSinPrimero<T>(x: seq<T>)
    requires x != []
    ensures multiset(x[1..]) == multiset(x) - multiset{x[0]}
  {
    MultisetPartida(x, 0);
    assert x[..0] + x[0 + 1..] == x[1..];
  }

  lemma MultisetSin<T>(y: seq<T>, k: nat)
    requires k < |y|
    ensures multiset(y[..k] + y[k + 1..]) == multiset(y) - multiset{y[k]}
  {
    MultisetPartida(y, k);
  }

  lemma MismoLargo<T>(x: seq<T>, y: seq<T>)
    requires multiset(x) == multiset(y)
    ensures |x| == |y|
  {
    assert |multiset(x)| == |multiset(y)|;
  }
}
