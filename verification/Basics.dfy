// Small definitions that the models share.
module Basics {

  datatype Maybe<+T> = Nothing | Just(value: T)

  function Without<T>(s: seq<T>, i: nat): seq<T>
    requires i < |s|
  {
    s[..i] + s[i + 1..]
  }

  lemma Associative<T>(a: seq<T>, b: seq<T>, c: seq<T>)
    ensures a + (b + c) == (a + b) + c
  {}

  function Max(a: nat, b: nat): nat {
    if a >= b then a else b
  }
}
