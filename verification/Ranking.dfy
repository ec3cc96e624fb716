/** The ranking of candidates: best reward, then passed, then validity, then candidate id. */
module Ranking {
  import opened Text

  datatype Standing = Standing(reward: real, passed: real, validity: real, candidateId: string)

  /** The key tuples, whose numbers are negated, compared entry by entry. */
  predicate Before(a: Standing, b: Standing) {
    if a.reward != b.reward then b.reward < a.reward
    else if a.passed != b.passed then b.passed < a.passed
    else if a.validity != b.validity then b.validity < a.validity
    else Less(a.candidateId, b.candidateId)
  }

  /** sorted with that key, by stable insertion from the back. */
  function Ranked<T>(items: seq<T>, key: T -> Standing): seq<T> {
    if items == [] then []
    else
      var n := |items| - 1;
      Placed(Ranked(items[..n], key), items[n], key)
  }

  function Placed<T>(ranked: seq<T>, x: T, key: T -> Standing): seq<T> {
    if ranked == [] then [x]
    else
      var n := |ranked| - 1;
      if Before(key(x), key(ranked[n])) then Placed(ranked[..n], x, key) + [ranked[n]] else ranked + [x]
  }

  ghost predicate StrictlyRanked<T>(items: seq<T>, key: T -> Standing) {
    forall i, j :: 0 <= i < j < |items| ==> Before(key(items[i]), key(items[j]))
  }

  ghost predicate DistinctIds<T>(items: seq<T>, key: T -> Standing) {
    forall i, j :: 0 <= i < j < |items| ==> key(items[i]).candidateId != key(items[j]).candidateId
  }

  // ----- the key is a strict total order

  lemma {:induction false} LessIsTotal(a: string, b: string)
    ensures a == b || Less(a, b) || Less(b, a)
  {
    if a != [] && b != [] && a[0] == b[0] {
      LessIsTotal(a[1..], b[1..]);
      assert a == [a[0]] + a[1..] && b == [b[0]] + b[1..];
    }
  }

  lemma {:induction false} LessIsTransitive(a: string, b: string, c: string)
    requires Less(a, b) && Less(b, c)
    ensures Less(a, c)
  {
    if a != [] && a[0] == b[0] == c[0] {
      LessIsTransitive(a[1..], b[1..], c[1..]);
    }
  }

  lemma BeforeIsStrictTotalOrder(a: Standing, b: Standing, c: Standing)
    ensures !Before(a, a)
    ensures a == b || Before(a, b) || Before(b, a)
    ensures !(Before(a, b) && Before(b, a))
    ensures Before(a, b) && Before(b, c) ==> Before(a, c)
  {
    LessIrreflexive(a.candidateId);
    LessIsTotal(a.candidateId, b.candidateId);
    if Less(a.candidateId, b.candidateId) {
      if Less(b.candidateId, a.candidateId) {
        LessIsTransitive(a.candidateId, b.candidateId, a.candidateId);
      }
      if Less(b.candidateId, c.candidateId) {
        LessIsTransitive(a.candidateId, b.candidateId, c.candidateId);
      }
    }
  }

  // ----- the ranking is the only strictly ordered permutation

  lemma {:induction false} PlacedKeeps<T>(ranked: seq<T>, x: T, key: T -> Standing)
    ensures |Placed(ranked, x, key)| == |ranked| + 1
    ensures multiset(Placed(ranked, x, key)) == multiset(ranked) + multiset{x}
  {
    if ranked != [] {
      var n := |ranked| - 1;
      assert ranked == ranked[..n] + [ranked[n]];
      if Before(key(x), key(ranked[n])) {
        PlacedKeeps(ranked[..n], x, key);
      }
    }
  }

  lemma {:induction false} RankedKeeps<T>(items: seq<T>, key: T -> Standing)
    ensures |Ranked(items, key)| == |items|
    ensures multiset(Ranked(items, key)) == multiset(items)
  {
    if items != [] {
      var n := |items| - 1;
      assert items == items[..n] + [items[n]];
      RankedKeeps(items[..n], key);
      PlacedKeeps(Ranked(items[..n], key), items[n], key);
    }
  }

  lemma SharedMember<T>(a: seq<T>, b: seq<T>, x: T)
    requires multiset(a) == multiset(b) && x in a
    ensures x in b
  {
    assert x in multiset(a);
  }

  lemma {:induction false} PlacedIsRanked<T>(ranked: seq<T>, x: T, key: T -> Standing)
    requires StrictlyRanked(ranked, key)
    requires forall y :: y in ranked ==> key(y).candidateId != key(x).candidateId
    ensures StrictlyRanked(Placed(ranked, x, key), key)
  {
    hide Before;
    if ranked != [] {
      var n := |ranked| - 1;
      var last := ranked[n];
      if Before(key(x), key(last)) {
        PlacedIsRanked(ranked[..n], x, key);
        PlacedKeeps(ranked[..n], x, key);
        var front := Placed(ranked[..n], x, key);
        forall i | 0 <= i < |front|
          ensures Before(key(front[i]), key(last))
        {
          assert front[i] in multiset(front);
          if front[i] != x {
            assert front[i] in ranked[..n];
          }
        }
      } else {
        forall i | 0 <= i < |ranked|
          ensures Before(key(ranked[i]), key(x))
        {
          BeforeIsStrictTotalOrder(key(last), key(x), key(x));
          assert key(last) != key(x);
          if i < n {
            BeforeIsStrictTotalOrder(key(ranked[i]), key(last), key(x));
          }
        }
      }
    }
  }

  lemma {:induction false} RankedIsRanked<T>(items: seq<T>, key: T -> Standing)
    requires DistinctIds(items, key)
    ensures StrictlyRanked(Ranked(items, key), key)
  {
    if items != [] {
      var n := |items| - 1;
      RankedIsRanked(items[..n], key);
      RankedKeeps(items[..n], key);
      forall y | y in Ranked(items[..n], key)
        ensures key(y).candidateId != key(items[n]).candidateId
      {
        SharedMember(Ranked(items[..n], key), items[..n], y);
        var i :| 0 <= i < n && items[i] == y;
      }
      PlacedIsRanked(Ranked(items[..n], key), items[n], key);
    }
  }

  lemma {:induction false} PlacedKeepsIds<T>(ranked: seq<T>, x: T, key: T -> Standing)
    requires DistinctIds(ranked, key)
    requires forall y :: y in ranked ==> key(y).candidateId != key(x).candidateId
    ensures DistinctIds(Placed(ranked, x, key), key)
  {
    hide Before;
    var n := |ranked| - 1;
    if ranked != [] && Before(key(x), key(ranked[n])) {
      PlacedKeepsIds(ranked[..n], x, key);
      PlacedKeeps(ranked[..n], x, key);
      var front := Placed(ranked[..n], x, key);
      forall i | 0 <= i < |front|
        ensures key(front[i]).candidateId != key(ranked[n]).candidateId
      {
        assert front[i] in multiset(front);
        if front[i] != x {
          assert front[i] in ranked[..n];
        }
      }
    }
  }

  lemma {:induction false} RankedKeepsIds<T>(items: seq<T>, key: T -> Standing)
    requires DistinctIds(items, key)
    ensures DistinctIds(Ranked(items, key), key)
  {
    if items != [] {
      var n := |items| - 1;
      RankedKeepsIds(items[..n], key);
      RankedKeeps(items[..n], key);
      forall y | y in Ranked(items[..n], key)
        ensures key(y).candidateId != key(items[n]).candidateId
      {
        SharedMember(Ranked(items[..n], key), items[..n], y);
        var i :| 0 <= i < n && items[i] == y;
      }
      PlacedKeepsIds(Ranked(items[..n], key), items[n], key);
    }
  }

  lemma LastAgrees<T>(a: seq<T>, b: seq<T>, key: T -> Standing)
    requires StrictlyRanked(a, key) && StrictlyRanked(b, key)
    requires a != [] && |a| == |b| && multiset(a) == multiset(b)
    ensures a[|a| - 1] == b[|b| - 1]
  {
    hide Before;
    var n := |a| - 1;
    SharedMember(a, b, a[n]);
    SharedMember(b, a, b[n]);
    var i :| 0 <= i < |b| && b[i] == a[n];
    var j :| 0 <= j < |a| && a[j] == b[n];
    BeforeIsStrictTotalOrder(key(a[n]), key(b[n]), key(b[n]));
  }

  lemma FrontsAgree<T>(a: seq<T>, b: seq<T>, x: T)
    requires multiset(a + [x]) == multiset(b + [x])
    ensures multiset(a) == multiset(b)
  {
    assert multiset(a) == multiset(a + [x]) - multiset{x};
    assert multiset(b) == multiset(b + [x]) - multiset{x};
  }

  lemma {:induction false} OneStrictOrder<T>(a: seq<T>, b: seq<T>, key: T -> Standing)
    requires StrictlyRanked(a, key) && StrictlyRanked(b, key)
    requires multiset(a) == multiset(b)
    ensures a == b
  {
    hide Before;
    assert |a| == |multiset(a)| == |multiset(b)| == |b|;
    if a != [] {
      var n := |a| - 1;
      LastAgrees(a, b, key);
      assert a == a[..n] + [a[n]] && b == b[..n] + [a[n]];
      FrontsAgree(a[..n], b[..n], a[n]);
      OneStrictOrder(a[..n], b[..n], key);
    }
  }

  /** With distinct ids the ranking is a strictly ordered permutation of the items, and any
      other strictly ordered permutation of them is the ranking. */
  lemma RankedIsUnique<T>(items: seq<T>, key: T -> Standing, other: seq<T>)
    requires DistinctIds(items, key)
    ensures StrictlyRanked(Ranked(items, key), key) && multiset(Ranked(items, key)) == multiset(items)
    ensures StrictlyRanked(other, key) && multiset(other) == multiset(items) ==> other == Ranked(items, key)
  {
    RankedIsRanked(items, key);
    RankedKeeps(items, key);
    if StrictlyRanked(other, key) && multiset(other) == multiset(items) {
      OneStrictOrder(other, Ranked(items, key), key);
    }
  }
}
