/** Small facts about slicing, updating and concatenating sequences, proved once for every
    element type so that the proofs about fields and schema text need not re-derive them. */
module Sequences {

  /** `p` is a prefix of `s`. */
  predicate StartsWith<T(==)>(s: seq<T>, p: seq<T>) {
    |p| <= |s| && s[..|p|] == p
  }

  /** `q` is a suffix of `s`. */
  predicate EndsWith<T(==)>(s: seq<T>, q: seq<T>) {
    |q| <= |s| && s[|s| - |q|..] == q
  }

  lemma Affixes<T>(p: seq<T>, q: seq<T>)
    ensures StartsWith(p + q, p) && EndsWith(p + q, q)
  {
  }

  lemma TakeOneMore<T>(s: seq<T>, i: nat)
    requires i < |s|
    ensures s[..i + 1] == s[..i] + [s[i]]
  {
  }

  lemma SplitAround<T>(s: seq<T>, i: nat)
    requires i < |s|
    ensures s[..i] + [s[i]] + s[i + 1..] == s
  {
  }

  lemma UpdateAsSplice<T>(s: seq<T>, i: nat, x: T)
    requires i < |s|
    ensures s[i := x] == s[..i] + [x] + s[i + 1..]
  {
  }

  lemma AppendEmpty<T>(s: seq<T>)
    ensures s + [] == s
  {
  }

  lemma Assoc<T>(a: seq<T>, b: seq<T>, c: seq<T>)
    ensures a + b + c == a + (b + c)
  {
  }

  lemma AssocRight<T>(a: seq<T>, b: seq<T>, c: seq<T>, d: seq<T>)
    ensures a + b + c + d == a + (b + c + d)
  {
  }

  /** Regrouping the middle of a five-part concatenation. */
  lemma GroupThree<T>(p: seq<T>, a: seq<T>, b: seq<T>, c: seq<T>, q: seq<T>)
    ensures p + a + b + c + q == p + (a + b + c) + q
  {
  }

  /** Regrouping the middle of a six-part concatenation. */
  lemma GroupMiddle<T>(p: seq<T>, a: seq<T>, b: seq<T>, c: seq<T>, d: seq<T>, q: seq<T>)
    ensures p + a + b + c + d + q == p + (a + b + c + d) + q
  {
  }
}
