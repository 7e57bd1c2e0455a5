/**
 * The final step of `get_user_brain_dumps`: `results.sort(key=created_at, reverse=True)`.
 * Python's sort is stable, also with `reverse=True`, so records with equal timestamps
 * keep their collection order.  Stability is stated as "for every timestamp, the
 * subsequence of records carrying it is unchanged", which also makes the result a
 * permutation of the input.
 */
module NewestFirst {
  import opened StoreModel

  /** Ordered non-increasing by `created_at`. */
  predicate IsNewestFirst(s: seq<BrainDump>) {
    forall i, j :: 0 <= i < j < |s| ==> s[i].CreatedAt() >= s[j].CreatedAt()
  }

  /** The records of `s` whose `created_at` is `stamp`, in their order in `s`. */
  function WithCreatedAt(s: seq<BrainDump>, stamp: nat): seq<BrainDump> {
    if s == [] then []
    else (if s[0].CreatedAt() == stamp then [s[0]] else []) + WithCreatedAt(s[1..], stamp)
  }

  /** Records with equal timestamps appear in the same order in both. */
  ghost predicate SameTieOrder(a: seq<BrainDump>, b: seq<BrainDump>) {
    forall stamp :: WithCreatedAt(a, stamp) == WithCreatedAt(b, stamp)
  }

  lemma {:induction false} WithCreatedAtAppend(a: seq<BrainDump>, b: seq<BrainDump>, stamp: nat)
    ensures WithCreatedAt(a + b, stamp) == WithCreatedAt(a, stamp) + WithCreatedAt(b, stamp)
  {
    if a == [] {
      assert a + b == b;
    } else {
      assert (a + b)[1..] == a[1..] + b;
      WithCreatedAtAppend(a[1..], b, stamp);
    }
  }

  /** Swapping two neighbours with different timestamps keeps every tie order. */
  lemma SwapKeepsTieOrder(s: seq<BrainDump>, j: nat)
    requires 0 < j < |s|
    requires s[j - 1].CreatedAt() != s[j].CreatedAt()
    ensures SameTieOrder(s[j - 1 := s[j]][j := s[j - 1]], s)
  {
    var s' := s[j - 1 := s[j]][j := s[j - 1]];
    var front, back := s[..j - 1], s[j + 1..];
    assert s == front + [s[j - 1], s[j]] + back;
    assert s' == front + [s[j], s[j - 1]] + back;
    forall stamp ensures WithCreatedAt(s', stamp) == WithCreatedAt(s, stamp) {
      WithCreatedAtAppend(front + [s[j - 1], s[j]], back, stamp);
      WithCreatedAtAppend(front, [s[j - 1], s[j]], stamp);
      WithCreatedAtAppend(front + [s[j], s[j - 1]], back, stamp);
      WithCreatedAtAppend(front, [s[j], s[j - 1]], stamp);
      assert [s[j - 1], s[j]][1..] == [s[j]];
      assert [s[j], s[j - 1]][1..] == [s[j - 1]];
    }
  }

  /** A record occurs as often among the records with its timestamp as in the whole. */
  lemma {:induction false} CountWithinStamp(s: seq<BrainDump>, d: BrainDump)
    ensures multiset(WithCreatedAt(s, d.CreatedAt()))[d] == multiset(s)[d]
  {
    if s != [] {
      CountWithinStamp(s[1..], d);
      assert s == [s[0]] + s[1..];
    }
  }

  /** Keeping every tie order makes the two sequences permutations of each other. */
  lemma TieOrderGivesPermutation(a: seq<BrainDump>, b: seq<BrainDump>)
    requires SameTieOrder(a, b)
    ensures multiset(a) == multiset(b)
  {
    forall d ensures multiset(a)[d] == multiset(b)[d] {
      CountWithinStamp(a, d);
      CountWithinStamp(b, d);
      assert WithCreatedAt(a, d.CreatedAt()) == WithCreatedAt(b, d.CreatedAt());
    }
  }

  /** Newest-first order and the tie order together fix the sequence: there is only one
      stable newest-first arrangement of a collection. */
  lemma {:induction false} NewestFirstUnique(a: seq<BrainDump>, b: seq<BrainDump>)
    requires IsNewestFirst(a) && IsNewestFirst(b) && SameTieOrder(a, b)
    ensures a == b
    decreases |a|
  {
    TieOrderGivesPermutation(a, b);
    assert |a| == |multiset(a)| == |multiset(b)| == |b|;
    if a != [] {
      assert a[0] in multiset(a) && b[0] in multiset(b);
      var i :| 0 <= i < |b| && b[i] == a[0];
      var j :| 0 <= j < |a| && a[j] == b[0];
      var m := a[0].CreatedAt();
      assert b[0].CreatedAt() == m;
      assert WithCreatedAt(a, m)[0] == a[0];
      assert WithCreatedAt(b, m)[0] == b[0];
      assert a[0] == b[0];
      forall stamp ensures WithCreatedAt(a[1..], stamp) == WithCreatedAt(b[1..], stamp) {
        var head := if m == stamp then [a[0]] else [];
        assert WithCreatedAt(a, stamp) == head + WithCreatedAt(a[1..], stamp);
        assert WithCreatedAt(b, stamp) == head + WithCreatedAt(b[1..], stamp);
        assert WithCreatedAt(a[1..], stamp) == (head + WithCreatedAt(a[1..], stamp))[|head|..];
        assert WithCreatedAt(b[1..], stamp) == (head + WithCreatedAt(b[1..], stamp))[|head|..];
      }
      NewestFirstUnique(a[1..], b[1..]);
      assert a == [a[0]] + a[1..] && b == [b[0]] + b[1..];
    }
  }

  /** A stable sort, newest first, by insertion of each record into the sorted prefix. */
  method SortNewestFirst(s: seq<BrainDump>) returns (r: seq<BrainDump>)
    ensures IsNewestFirst(r)
    ensures SameTieOrder(r, s)
    ensures multiset(r) == multiset(s)
  {
    r := s;
    var i := 0;
    while i < |r|
      invariant 0 <= i <= |r| == |s|
      invariant forall a, b :: 0 <= a < b < i ==> r[a].CreatedAt() >= r[b].CreatedAt()
      invariant SameTieOrder(r, s)
    {
      var j := i;
      while 0 < j && r[j - 1].CreatedAt() < r[j].CreatedAt()
        invariant 0 <= j <= i < |r| == |s|
        invariant forall a, b :: 0 <= a < b <= i && a != j && b != j ==> r[a].CreatedAt() >= r[b].CreatedAt()
        invariant forall b :: j < b <= i ==> r[j].CreatedAt() > r[b].CreatedAt()
        invariant SameTieOrder(r, s)
      {
        SwapKeepsTieOrder(r, j);
        r := r[j - 1 := r[j]][j := r[j - 1]];
        j := j - 1;
      }
      i := i + 1;
    }
    TieOrderGivesPermutation(r, s);
  }
}
