/** A Python `set` filled one element at a time and then turned into a list. The order
    of `list(some_set)` is not specified in Python; the model keeps first occurrences in
    input order, and every contract speaks only of the elements and their distinctness. */
module Seqs {

  /** `acc` with `x` added as a set would add it. */
  function AddDistinct<T(==)>(acc: seq<T>, x: T): seq<T>
  {
    if x in acc then acc else acc + [x]
  }

  /** The distinct elements of `s`, each once. */
  function Dedup<T(==)>(s: seq<T>): seq<T>
  {
    if s == [] then [] else AddDistinct(Dedup(s[..|s| - 1]), s[|s| - 1])
  }

  /** No element occurs twice. */
  predicate Distinct<T(==)>(s: seq<T>)
  {
    forall i, j :: 0 <= i < j < |s| ==> s[i] != s[j]
  }

  /** `Dedup` holds exactly the elements of its input, each once. */
  lemma {:induction false} DedupIsSet<T>(s: seq<T>)
    ensures Distinct(Dedup(s))
    ensures forall x :: x in Dedup(s) <==> x in s
    decreases |s|
  {
    if s != [] {
      var init := s[..|s| - 1];
      DedupIsSet(init);
      assert s == init + [s[|s| - 1]];
    }
  }

  /** Adding a new last element extends the deduplicated list by `AddDistinct`. */
  lemma DedupSnoc<T>(s: seq<T>, x: T)
    ensures Dedup(s + [x]) == AddDistinct(Dedup(s), x)
  {
    assert (s + [x])[..|s + [x]| - 1] == s;
  }

  /** A list without repetitions is its own deduplication. */
  lemma {:induction false} DedupDistinct<T>(s: seq<T>)
    requires Distinct(s)
    ensures Dedup(s) == s
    decreases |s|
  {
    if s != [] {
      var init, last := s[..|s| - 1], s[|s| - 1];
      assert Distinct(init) by {
        forall i, j | 0 <= i < j < |init| ensures init[i] != init[j] {
          assert init[i] == s[i] && init[j] == s[j];
        }
      }
      DedupDistinct(init);
      assert last !in init by {
        forall k | 0 <= k < |init| ensures init[k] != last {
          assert init[k] == s[k];
        }
      }
      assert init + [last] == s;
    }
  }

  /** Deduplication is empty only for the empty list. */
  lemma DedupEmpty<T>(s: seq<T>)
    ensures Dedup(s) == [] <==> s == []
  {
    if s != [] {
      DedupIsSet(s);
      assert s[0] in Dedup(s);
    }
  }
}
