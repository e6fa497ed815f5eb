/** Generic facts about sequences used by the store: filtering, reversal and
    properties that hold between every two rows of a table. */
module Seqs {

  /** The elements of `s` that satisfy `keep`, in their original order. */
  function Filter<T>(s: seq<T>, keep: T -> bool): (r: seq<T>)
    ensures |r| <= |s|
  {
    if s == [] then []
    else (if keep(s[0]) then [s[0]] else []) + Filter(s[1..], keep)
  }

  lemma {:induction false} FilterConcat<T>(a: seq<T>, b: seq<T>, keep: T -> bool)
    ensures Filter(a + b, keep) == Filter(a, keep) + Filter(b, keep)
  {
    if a != [] {
      assert (a + b)[1..] == a[1..] + b;
      FilterConcat(a[1..], b, keep);
    } else {
      assert a + b == b;
    }
  }

  /** Filtering with a predicate that holds everywhere on `s` changes nothing. */
  lemma {:induction false} FilterAll<T>(s: seq<T>, keep: T -> bool)
    requires forall k :: 0 <= k < |s| ==> keep(s[k])
    ensures Filter(s, keep) == s
  {
    if s != [] {
      FilterAll(s[1..], keep);
    }
  }

  /** Filtering with a predicate that holds nowhere on `s` leaves nothing. */
  lemma FilterNone<T>(s: seq<T>, keep: T -> bool)
    requires forall k :: 0 <= k < |s| ==> !keep(s[k])
    ensures Filter(s, keep) == []
  {
  }

  /** Filtering by a weaker predicate first changes nothing. */
  lemma {:induction false} FilterImplied<T>(s: seq<T>, weaker: T -> bool, keep: T -> bool)
    requires forall x :: keep(x) ==> weaker(x)
    ensures Filter(Filter(s, weaker), keep) == Filter(s, keep)
  {
    if s != [] {
      FilterImplied(s[1..], weaker, keep);
      var head := if weaker(s[0]) then [s[0]] else [];
      FilterConcat(head, Filter(s[1..], weaker), keep);
    }
  }

  /** Filtering a sequence whose only rejected element sits at position `i` removes
      just that element. */
  lemma {:induction false} FilterDropsOne<T>(s: seq<T>, i: int, keep: T -> bool)
    requires 0 <= i < |s|
    requires !keep(s[i])
    requires forall k :: 0 <= k < |s| && k != i ==> keep(s[k])
    ensures Filter(s, keep) == s[..i] + s[i + 1..]
  {
    if i == 0 {
      FilterAll(s[1..], keep);
    } else {
      var tail := s[1..];
      assert forall k :: 0 <= k < |tail| && k != i - 1 ==> keep(tail[k]) by {
        forall k | 0 <= k < |tail| && k != i - 1 ensures keep(tail[k]) {
          assert tail[k] == s[k + 1];
        }
      }
      FilterDropsOne(tail, i - 1, keep);
      assert s[..i] == [s[0]] + tail[..i - 1];
      assert s[i + 1..] == tail[i..];
    }
  }

  /** An element survives the filter exactly when it is in `s` and kept. */
  lemma {:induction false} FilterMembers<T>(s: seq<T>, keep: T -> bool)
    ensures forall x :: x in Filter(s, keep) <==> x in s && keep(x)
    ensures forall k :: 0 <= k < |Filter(s, keep)| ==> Filter(s, keep)[k] in s && keep(Filter(s, keep)[k])
  {
    if s != [] {
      FilterMembers(s[1..], keep);
      assert s == [s[0]] + s[1..];
      var r := Filter(s, keep);
      forall k | 0 <= k < |r| ensures r[k] in s && keep(r[k]) {
        assert r[k] in r;
      }
    }
  }

  /** Filtering by `keep` and then by `also` is filtering by `both` when `both` is
      their conjunction. */
  lemma {:induction false} FilterTwice<T>(s: seq<T>, keep: T -> bool, also: T -> bool, both: T -> bool)
    requires forall x :: both(x) == (keep(x) && also(x))
    ensures Filter(Filter(s, keep), also) == Filter(s, both)
  {
    if s != [] {
      FilterTwice(s[1..], keep, also, both);
      var head := if keep(s[0]) then [s[0]] else [];
      FilterConcat(head, Filter(s[1..], keep), also);
    }
  }

  /** Filtering by two predicates that agree on `s` gives the same elements. */
  lemma {:induction false} FilterAgree<T>(s: seq<T>, keep: T -> bool, same: T -> bool)
    requires forall k :: 0 <= k < |s| ==> keep(s[k]) == same(s[k])
    ensures Filter(s, keep) == Filter(s, same)
  {
    if s != [] {
      FilterAgree(s[1..], keep, same);
    }
  }

  /** `rel` holds of every element and every element after it. */
  ghost predicate Pairwise<T>(s: seq<T>, rel: (T, T) -> bool) {
    forall i, j :: 0 <= i < j < |s| ==> rel(s[i], s[j])
  }

  lemma {:induction false} FilterPairwise<T>(s: seq<T>, keep: T -> bool, rel: (T, T) -> bool)
    requires Pairwise(s, rel)
    ensures Pairwise(Filter(s, keep), rel)
  {
    if s != [] {
      var tail := Filter(s[1..], keep);
      assert Pairwise(s[1..], rel) by {
        forall i, j | 0 <= i < j < |s[1..]| ensures rel(s[1..][i], s[1..][j]) {
          assert s[1..][i] == s[i + 1] && s[1..][j] == s[j + 1];
        }
      }
      FilterPairwise(s[1..], keep, rel);
      FilterMembers(s[1..], keep);
      if keep(s[0]) {
        var r := [s[0]] + tail;
        forall i, j | 0 <= i < j < |r| ensures rel(r[i], r[j]) {
          if i == 0 {
            assert r[j] == tail[j - 1];
            assert r[j] in s[1..];
            var k :| 0 <= k < |s[1..]| && s[1..][k] == r[j];
            assert s[k + 1] == r[j];
          } else {
            assert r[i] == tail[i - 1] && r[j] == tail[j - 1];
          }
        }
      }
    }
  }

  lemma PairwiseAppend<T>(s: seq<T>, x: T, rel: (T, T) -> bool)
    requires Pairwise(s, rel)
    requires forall k :: 0 <= k < |s| ==> rel(s[k], x)
    ensures Pairwise(s + [x], rel)
  {
    var r := s + [x];
    forall i, j | 0 <= i < j < |r| ensures rel(r[i], r[j]) {
      if j == |s| {
        assert r[i] == s[i];
      } else {
        assert r[i] == s[i] && r[j] == s[j];
      }
    }
  }

  /** `s` from its last element to its first. */
  function Reverse<T>(s: seq<T>): (r: seq<T>)
    ensures |r| == |s|
    ensures forall k :: 0 <= k < |s| ==> r[k] == s[|s| - 1 - k]
  {
    if s == [] then [] else Reverse(s[1..]) + [s[0]]
  }
}
