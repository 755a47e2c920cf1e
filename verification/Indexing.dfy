/** Dictionaries of lists kept beside a main sequence, as the registry and the artifact store
    keep them: each list is the order-preserving filter of the sequence by its key.
 */
module Indexing {

  /** Order-preserving filter by an index key. */
  function Select<E(!new), K(==)>(keyOf: E -> K, key: K, es: seq<E>): (out: seq<E>)
    ensures forall e :: e in out <==> e in es && keyOf(e) == key
  {
    if es == [] then []
    else
      var last := es[|es| - 1];
      var front := Select(keyOf, key, es[..|es| - 1]);
      assert es == es[..|es| - 1] + [last];
      if keyOf(last) == key then front + [last] else front
  }

  ghost predicate IndexedAt<E(!new), K>(m: map<K, seq<E>>, keyOf: E -> K, key: K, es: seq<E>) {
    && (key in m <==> Select(keyOf, key, es) != [])
    && (key in m ==> m[key] == Select(keyOf, key, es))
  }

  /** The index is exactly the filter of the entries by each key, with no empty list. */
  ghost predicate Indexes<E(!new), K(!new)>(m: map<K, seq<E>>, keyOf: E -> K, es: seq<E>) {
    forall key :: IndexedAt(m, keyOf, key, es)
  }

  function Lookup<E, K(==)>(m: map<K, seq<E>>, key: K): seq<E> {
    if key in m then m[key] else []
  }

  /** `m.setdefault(key, []).append(e)`. */
  function Appended<E, K(==)>(m: map<K, seq<E>>, key: K, e: E): map<K, seq<E>> {
    m[key := Lookup(m, key) + [e]]
  }

  lemma {:induction false} SelectConcat<E(!new), K>(keyOf: E -> K, key: K, a: seq<E>, b: seq<E>)
    ensures Select(keyOf, key, a + b) == Select(keyOf, key, a) + Select(keyOf, key, b)
    decreases |b|
  {
    if b == [] {
      assert a + b == a;
    } else {
      SelectConcat(keyOf, key, a, b[..|b| - 1]);
      assert (a + b)[..|a + b| - 1] == a + b[..|b| - 1];
    }
  }

  lemma {:induction false} SelectAgrees<E(!new), K>(f: E -> K, g: E -> K, key: K, es: seq<E>)
    requires forall e :: e in es ==> f(e) == g(e)
    ensures Select(f, key, es) == Select(g, key, es)
  {
    if es != [] {
      var front := es[..|es| - 1];
      assert es == front + [es[|es| - 1]];
      SelectAgrees(f, g, key, front);
    }
  }

  /** A reading of the entries that agrees on them keeps the index right. */
  lemma IndexesAgree<E(!new), K(!new)>(m: map<K, seq<E>>, f: E -> K, g: E -> K, es: seq<E>)
    requires Indexes(m, f, es) && forall e :: e in es ==> f(e) == g(e)
    ensures Indexes(m, g, es)
  {
    forall key ensures IndexedAt(m, g, key, es) {
      assert IndexedAt(m, f, key, es);
      SelectAgrees(f, g, key, es);
    }
  }

  /** Appending to the list of an entry's key indexes the longer sequence. */
  lemma AppendedIndexes<E(!new), K(!new)>(m: map<K, seq<E>>, keyOf: E -> K, e: E, es: seq<E>)
    requires Indexes(m, keyOf, es)
    ensures Indexes(Appended(m, keyOf(e), e), keyOf, es + [e])
  {
    forall k ensures IndexedAt(Appended(m, keyOf(e), e), keyOf, k, es + [e]) {
      assert IndexedAt(m, keyOf, k, es);
      SelectConcat(keyOf, k, es, [e]);
      assert Select(keyOf, k, [e]) == if k == keyOf(e) then [e] else [];
    }
  }
}
