/**
 Facts about sequences that several parts use.
 */
module Sequences {

  lemma Reassociate<T>(a: seq<T>, b: seq<T>, c: seq<T>)
    ensures (a + b) + c == a + (b + c)
  {
  }

  lemma Shift<T>(a: seq<T>, x: seq<T>, b: seq<T>, rest: seq<T>)
    ensures a + ((x + b) + rest) == (a + x) + (b + rest)
  {
  }

  lemma EmptyFront<T>(x: seq<T>, b: seq<T>, rest: seq<T>)
    ensures [] + ((x + b) + rest) == x + (b + rest)
  {
  }

  lemma Flatten<T>(a: seq<T>, b: seq<T>, c: seq<T>, d: seq<T>, e: seq<T>, f: seq<T>)
    ensures a + (b + (c + (d + (e + f)))) == a + b + c + d + e + f
  {
  }

  lemma FlattenStream<T>(a: seq<T>, b: seq<T>, c: seq<T>, d: seq<T>, e: seq<T>)
    ensures a + (b + ((c + d) + e)) == a + b + c + d + e
  {
  }
}
