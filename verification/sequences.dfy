/**
 * Insertion-ordered, duplicate-free sequences: the model of a Python
 * `OrderedDict` used as a set (keys only, values always `None`).
 */
module Sequences {

  /** No element occurs twice. */
  predicate Distinct<T(==)>(s: seq<T>) {
    forall i, j :: 0 <= i < j < |s| ==> s[i] != s[j]
  }

  lemma DistinctCons<T>(x: T, s: seq<T>)
    requires x !in s && Distinct(s)
    ensures Distinct([x] + s)
  {
    forall i, j | 0 <= i < j < |[x] + s| ensures ([x] + s)[i] != ([x] + s)[j] {
      if i > 0 {
        assert ([x] + s)[i] == s[i - 1] && ([x] + s)[j] == s[j - 1];
      } else {
        assert ([x] + s)[j] == s[j - 1];
      }
    }
  }

  /** `d[x] = None` on an ordered dict: a new key goes to the end, a present key keeps its place. */
  function Insert<T(==,!new)>(s: seq<T>, x: T): (r: seq<T>)
    ensures s <= r
    ensures forall y :: y in r <==> y in s || y == x
    ensures Distinct(s) ==> Distinct(r)
    ensures x in s <==> r == s
  {
    if x in s then s else s + [x]
  }

  /** Inserting every element of `xs`, left to right. */
  function InsertAll<T(==,!new)>(s: seq<T>, xs: seq<T>): (r: seq<T>)
  {
    if xs == [] then s else Insert(InsertAll(s, xs[..|xs| - 1]), xs[|xs| - 1])
  }

  /** The ordered set only grows, gains exactly the inserted elements and stays duplicate-free. */
  lemma {:induction false} InsertAllProperties<T(!new)>(s: seq<T>, xs: seq<T>)
    ensures s <= InsertAll(s, xs)
    ensures forall y :: y in InsertAll(s, xs) <==> y in s || y in xs
    ensures Distinct(s) ==> Distinct(InsertAll(s, xs))
  {
    if xs != [] {
      var init := xs[..|xs| - 1];
      InsertAllProperties(s, init);
      assert xs == init + [xs[|xs| - 1]];
    }
  }

  /** Inserting elements that are all present already changes nothing. */
  lemma {:induction false} InsertAllPresent<T(!new)>(s: seq<T>, xs: seq<T>)
    requires forall y :: y in xs ==> y in s
    ensures InsertAll(s, xs) == s
  {
    if xs != [] {
      var init := xs[..|xs| - 1];
      assert forall y :: y in init ==> y in xs;
      InsertAllPresent(s, init);
    }
  }

  lemma InsertAllSnoc<T(!new)>(s: seq<T>, xs: seq<T>, x: T)
    ensures InsertAll(s, xs + [x]) == Insert(InsertAll(s, xs), x)
  {
    assert (xs + [x])[..|xs + [x]| - 1] == xs;
  }

  /** Inserting `a + b` is inserting `a`, then `b`. */
  lemma {:induction false} InsertAllAppend<T(!new)>(s: seq<T>, a: seq<T>, b: seq<T>)
    ensures InsertAll(s, a + b) == InsertAll(InsertAll(s, a), b)
  {
    if b != [] {
      var init := b[..|b| - 1];
      assert (a + b)[..|a + b| - 1] == a + init;
      InsertAllAppend(s, a, init);
    } else {
      assert a + b == a;
    }
  }
}
