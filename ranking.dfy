/** The ordering step of `Trial.locations_closest_to` (trial.py:208-214): Python's
    `list.sort(key=...)` on the distance, which is stable, then the optional truncation
    to `limit` entries. */
module Ranking {
  import opened Locations

  /** A site with its distance from the point asked about, the tuple the source sorts. */
  datatype Ranked = Ranked(loc: TrialLocation, distance: real)

  /** Non-decreasing distance. */
  predicate Sorted(s: seq<Ranked>)
  {
    forall i, j :: 0 <= i < j < |s| ==> s[i].distance <= s[j].distance
  }

  /** The entries at distance `d`, in their order in `s`. A stable sort keeps this
      subsequence unchanged for every `d`. */
  function WithKey(s: seq<Ranked>, d: real): seq<Ranked>
  {
    if s == [] then [] else (if s[0].distance == d then [s[0]] else []) + WithKey(s[1..], d)
  }

  /** `x` placed in front of the first entry that is not closer than it. */
  function Insert(r: seq<Ranked>, x: Ranked): seq<Ranked>
  {
    if r == [] || x.distance <= r[0].distance then [x] + r else [r[0]] + Insert(r[1..], x)
  }

  /** `Insert` adds `x` once and nothing else. */
  lemma {:induction false} InsertCount(r: seq<Ranked>, x: Ranked)
    ensures multiset(Insert(r, x)) == multiset(r) + multiset{x}
    ensures |Insert(r, x)| == |r| + 1
    decreases |r|
  {
    if r != [] && x.distance > r[0].distance {
      InsertCount(r[1..], x);
      assert r == [r[0]] + r[1..];
    }
  }

  /** `Insert` keeps a sorted list sorted. */
  lemma {:induction false} InsertSorted(r: seq<Ranked>, x: Ranked)
    requires Sorted(r)
    ensures Sorted(Insert(r, x))
    ensures Insert(r, x)[0] == x || (r != [] && Insert(r, x)[0] == r[0])
    decreases |r|
  {
    if r != [] && x.distance > r[0].distance {
      InsertSorted(r[1..], x);
      InsertCount(r[1..], x);
      var t := Insert(r[1..], x);
      assert forall k :: 0 <= k < |t| ==> r[0].distance <= t[k].distance by {
        InsertMembers(r[1..], x);
      }
    }
  }

  /** Every entry of `Insert(r, x)` is `x` or an entry of `r`. */
  lemma {:induction false} InsertMembers(r: seq<Ranked>, x: Ranked)
    ensures forall k :: 0 <= k < |Insert(r, x)| ==> Insert(r, x)[k] == x || Insert(r, x)[k] in r
    decreases |r|
  {
    if r != [] && x.distance > r[0].distance {
      InsertMembers(r[1..], x);
    }
  }

  /** `Insert` puts `x` ahead of every entry of equal distance. */
  lemma {:induction false} InsertWithKey(r: seq<Ranked>, x: Ranked, d: real)
    ensures WithKey(Insert(r, x), d) == (if x.distance == d then [x] else []) + WithKey(r, d)
    decreases |r|
  {
    if r == [] || x.distance <= r[0].distance {
      WithKeyFront(x, r, d);
    } else {
      var t := Insert(r[1..], x);
      InsertWithKey(r[1..], x, d);
      WithKeyFront(r[0], t, d);
      WithKeyFront(r[0], r[1..], d);
      assert [r[0]] + r[1..] == r;
    }
  }

  /** The entries at distance `d` of a list with `h` in front. */
  lemma WithKeyFront(h: Ranked, t: seq<Ranked>, d: real)
    ensures WithKey([h] + t, d) == (if h.distance == d then [h] else []) + WithKey(t, d)
  {
    assert ([h] + t)[1..] == t;
  }

  /** The list sorted by distance, entries of equal distance in input order. */
  function SortByDistance(s: seq<Ranked>): (r: seq<Ranked>)
    ensures Sorted(r)
    ensures multiset(r) == multiset(s)
    ensures |r| == |s|
    ensures forall d :: WithKey(r, d) == WithKey(s, d)
    decreases |s|
  {
    if s == [] then []
    else
      var rest := SortByDistance(s[1..]);
      InsertStep(s, rest);
      Insert(rest, s[0])
  }

  /** Inserting the first entry into the sorted rest sorts the whole list. */
  lemma InsertStep(s: seq<Ranked>, rest: seq<Ranked>)
    requires s != [] && Sorted(rest)
    requires multiset(rest) == multiset(s[1..]) && |rest| == |s| - 1
    requires forall d :: WithKey(rest, d) == WithKey(s[1..], d)
    ensures Sorted(Insert(rest, s[0]))
    ensures multiset(Insert(rest, s[0])) == multiset(s) && |Insert(rest, s[0])| == |s|
    ensures forall d :: WithKey(Insert(rest, s[0]), d) == WithKey(s, d)
  {
    InsertSorted(rest, s[0]);
    InsertCount(rest, s[0]);
    InsertWithKeyAll(rest, s[0]);
    WithKeyCons(s);
    assert s == [s[0]] + s[1..];
  }

  lemma InsertWithKeyAll(r: seq<Ranked>, x: Ranked)
    ensures forall d :: WithKey(Insert(r, x), d) == (if x.distance == d then [x] else []) + WithKey(r, d)
  {
    forall d ensures WithKey(Insert(r, x), d) == (if x.distance == d then [x] else []) + WithKey(r, d) {
      InsertWithKey(r, x, d);
    }
  }

  lemma WithKeyCons(s: seq<Ranked>)
    requires s != []
    ensures forall d :: WithKey(s, d) == (if s[0].distance == d then [s[0]] else []) + WithKey(s[1..], d)
  {
  }

  /** `closest[0:limit]` when `limit > 0` and the list is longer, else the whole list. */
  function Truncate(s: seq<Ranked>, limit: int): (r: seq<Ranked>)
    ensures limit > 0 ==> |r| <= limit
    ensures |r| <= |s| && r == s[..|r|]
    ensures limit <= 0 ==> r == s
    ensures |r| < |s| ==> |r| == limit
  {
    if limit > 0 && |s| > limit then s[..limit] else s
  }

  /** Truncation keeps the order: a prefix of a sorted list is sorted. */
  lemma TruncateSorted(s: seq<Ranked>, limit: int)
    requires Sorted(s)
    ensures Sorted(Truncate(s, limit))
  {
  }

  /** A stable sort is unique: any sorted list that keeps the entries of each distance in
      input order is the one `SortByDistance` gives. */
  lemma {:induction false} StableSortUnique(s: seq<Ranked>, r: seq<Ranked>)
    requires Sorted(r)
    requires forall d :: WithKey(r, d) == WithKey(s, d)
    ensures r == SortByDistance(s)
    decreases |r| + |s|
  {
    var t := SortByDistance(s);
    SortedSameKeysEqual(r, t);
  }

  /** Two sorted lists with the same entries at every distance are equal. */
  lemma {:induction false} SortedSameKeysEqual(r: seq<Ranked>, t: seq<Ranked>)
    requires Sorted(r) && Sorted(t)
    requires forall d :: WithKey(r, d) == WithKey(t, d)
    ensures r == t
    decreases |r| + |t|
  {
    if r == [] && t == [] {
    } else if r == [] {
      WithKeyHead(t);
      assert false;
    } else if t == [] {
      WithKeyHead(r);
      assert false;
    } else {
      var a, b := r[0], t[0];
      if a.distance < b.distance {
        WithKeyAllAbove(t, a.distance);
        WithKeyHead(r);
        assert false;
      } else if b.distance < a.distance {
        WithKeyAllAbove(r, b.distance);
        WithKeyHead(t);
        assert false;
      } else {
        assert WithKey(r, a.distance)[0] == a && WithKey(t, a.distance)[0] == b;
        assert a == b;
        WithKeyCons(r);
        WithKeyCons(t);
        forall d ensures WithKey(r[1..], d) == WithKey(t[1..], d) {
          var head := if a.distance == d then [a] else [];
          assert WithKey(r[1..], d) == (head + WithKey(r[1..], d))[|head|..];
          assert WithKey(t[1..], d) == (head + WithKey(t[1..], d))[|head|..];
        }
        SortedSameKeysEqual(r[1..], t[1..]);
        assert r == [a] + r[1..] && t == [b] + t[1..];
      }
    }
  }

  /** The first entry of a list is among the entries at its own distance. */
  lemma WithKeyHead(s: seq<Ranked>)
    requires s != []
    ensures WithKey(s, s[0].distance) != [] && WithKey(s, s[0].distance)[0] == s[0]
  {
  }

  /** In a sorted list whose first entry is farther than `d`, nothing is at distance `d`. */
  lemma {:induction false} WithKeyAllAbove(s: seq<Ranked>, d: real)
    requires Sorted(s) && s != [] && d < s[0].distance
    ensures WithKey(s, d) == []
    decreases |s|
  {
    if |s| > 1 {
      assert s[1..][0] == s[1];
      WithKeyAllAbove(s[1..], d);
    }
  }
}
