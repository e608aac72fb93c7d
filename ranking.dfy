/** The control leaderboard: the history entries ordered by total control time including the
    open session, largest first, by a stable sort (ties keep the history's iteration order). */
module Ranking {
  import opened Wrappers
  import opened WarzoneData

  function Key(s: NationControlStats, now: int): int {
    TotalWithCurrentMs(s, now)
  }

  predicate SortedDescending(xs: seq<NationControlStats>, now: int) {
    forall i, j :: 0 <= i < j < |xs| ==> Key(xs[i], now) >= Key(xs[j], now)
  }

  /** The entries of `xs` whose key is `k`, in their order in `xs`. */
  function WithKey(xs: seq<NationControlStats>, k: int, now: int): seq<NationControlStats>
    decreases |xs|
  {
    if xs == [] then []
    else (if Key(xs[0], now) == k then [xs[0]] else []) + WithKey(xs[1..], k, now)
  }

  /** The tail of a descending list is descending. */
  lemma SortedTail(ys: seq<NationControlStats>, now: int)
    requires |ys| > 0 && SortedDescending(ys, now)
    ensures SortedDescending(ys[1..], now)
  {
    forall i, j | 0 <= i < j < |ys| - 1 ensures Key(ys[1..][i], now) >= Key(ys[1..][j], now) {
      assert ys[1..][i] == ys[i + 1] && ys[1..][j] == ys[j + 1];
    }
  }

  /** Putting an entry with at least the head's key in front keeps a list descending. */
  lemma SortedCons(h: NationControlStats, rest: seq<NationControlStats>, now: int)
    requires SortedDescending(rest, now) && (rest == [] || Key(rest[0], now) <= Key(h, now))
    ensures SortedDescending([h] + rest, now)
  {
    var r := [h] + rest;
    forall i, j | 0 <= i < j < |r| ensures Key(r[i], now) >= Key(r[j], now) {
      assert r[j] == rest[j - 1];
      if i > 0 {
        assert r[i] == rest[i - 1];
      } else if j > 1 {
        assert Key(rest[0], now) >= Key(rest[j - 1], now);
      }
    }
  }

  /** Places `x` in front of the first entry whose key does not exceed its own. */
  function Insert(x: NationControlStats, ys: seq<NationControlStats>, now: int): (r: seq<NationControlStats>)
    requires SortedDescending(ys, now)
    ensures SortedDescending(r, now)
    ensures multiset(r) == multiset(ys) + multiset{x}
    ensures |r| == |ys| + 1 && (r[0] == x || (|ys| > 0 && r[0] == ys[0]))
    decreases |ys|
  {
    if ys == [] then [x]
    else if Key(ys[0], now) <= Key(x, now) then
      SortedCons(x, ys, now);
      [x] + ys
    else
      SortedTail(ys, now);
      var rest := Insert(x, ys[1..], now);
      assert Key(rest[0], now) <= Key(ys[0], now);
      SortedCons(ys[0], rest, now);
      assert ys == [ys[0]] + ys[1..];
      [ys[0]] + rest
  }

  /** The ranked history: the result of `sortedByDescending` on the entries `xs`. */
  function Leaderboard(xs: seq<NationControlStats>, now: int): (r: seq<NationControlStats>)
    ensures SortedDescending(r, now)
    ensures multiset(r) == multiset(xs)
    decreases |xs|
  {
    if xs == [] then []
    else
      assert xs == [xs[0]] + xs[1..];
      Insert(xs[0], Leaderboard(xs[1..], now), now)
  }

  /** Unfolds the filter once: `WithKey` of a list with head `x`. */
  lemma WithKeyCons(x: NationControlStats, ys: seq<NationControlStats>, k: int, now: int)
    ensures WithKey([x] + ys, k, now) == (if Key(x, now) == k then [x] else []) + WithKey(ys, k, now)
  {
    assert ([x] + ys)[1..] == ys;
  }

  /** An entry with a larger key than `x` can move in front of `x` without changing any filter. */
  lemma FilterPastLarger(h: NationControlStats, x: NationControlStats, rest: seq<NationControlStats>,
                         tail: seq<NationControlStats>, k: int, now: int)
    requires Key(h, now) > Key(x, now)
    requires WithKey(rest, k, now) == (if Key(x, now) == k then [x] else []) + WithKey(tail, k, now)
    ensures WithKey([h] + rest, k, now) == (if Key(x, now) == k then [x] else []) + WithKey([h] + tail, k, now)
  {
    WithKeyCons(h, rest, k, now);
    WithKeyCons(h, tail, k, now);
    var headPart := if Key(h, now) == k then [h] else [];
    var xPart := if Key(x, now) == k then [x] else [];
    assert headPart == [] || xPart == [];
    assert headPart + (xPart + WithKey(tail, k, now)) == xPart + (headPart + WithKey(tail, k, now));
  }

  lemma {:induction false} InsertWithKey(x: NationControlStats, ys: seq<NationControlStats>, k: int, now: int)
    requires SortedDescending(ys, now)
    ensures WithKey(Insert(x, ys, now), k, now) == (if Key(x, now) == k then [x] else []) + WithKey(ys, k, now)
    decreases |ys|
  {
    if ys == [] {
      WithKeyCons(x, [], k, now);
    } else if Key(ys[0], now) <= Key(x, now) {
      assert Insert(x, ys, now) == [x] + ys;
      WithKeyCons(x, ys, k, now);
    } else {
      SortedTail(ys, now);
      InsertWithKey(x, ys[1..], k, now);
      assert Insert(x, ys, now) == [ys[0]] + Insert(x, ys[1..], now);
      FilterPastLarger(ys[0], x, Insert(x, ys[1..], now), ys[1..], k, now);
      assert [ys[0]] + ys[1..] == ys;
    }
  }

  /** Stability: among entries with equal keys the leaderboard keeps the input order. */
  lemma {:induction false} LeaderboardIsStable(xs: seq<NationControlStats>, k: int, now: int)
    ensures WithKey(Leaderboard(xs, now), k, now) == WithKey(xs, k, now)
    decreases |xs|
  {
    if xs != [] {
      LeaderboardIsStable(xs[1..], k, now);
      InsertWithKey(xs[0], Leaderboard(xs[1..], now), k, now);
    }
  }

  /** An entry whose key is at least that of the head goes to the front. */
  lemma InsertAtFront(x: NationControlStats, ys: seq<NationControlStats>, now: int)
    requires SortedDescending(ys, now) && (ys == [] || Key(ys[0], now) <= Key(x, now))
    ensures Insert(x, ys, now) == [x] + ys
  {
  }

  /** An entry whose key is below that of the head goes past it. */
  lemma InsertPastHead(x: NationControlStats, ys: seq<NationControlStats>, now: int)
    requires SortedDescending(ys, now) && ys != [] && Key(ys[0], now) > Key(x, now)
    ensures SortedDescending(ys[1..], now)
    ensures Insert(x, ys, now) == [ys[0]] + Insert(x, ys[1..], now)
  {
    SortedTail(ys, now);
  }

  /** Two entries already in descending order keep their order. */
  lemma LeaderboardOfTwo(b: NationControlStats, c: NationControlStats, now: int)
    requires Key(b, now) >= Key(c, now)
    ensures Leaderboard([b, c], now) == [b, c]
  {
    assert [c][1..] == [];
    InsertAtFront(c, [], now);
    assert Leaderboard([c], now) == [c];
    assert [b, c][1..] == [c];
    InsertAtFront(b, [c], now);
  }

  /** Three entries whose keys rank second, first, third come out in that order. */
  lemma LeaderboardOfThree(a: NationControlStats, b: NationControlStats, c: NationControlStats, now: int)
    requires Key(b, now) > Key(a, now) > Key(c, now)
    ensures Leaderboard([a, b, c], now) == [b, a, c]
  {
    LeaderboardOfTwo(b, c, now);
    assert [a, b, c][1..] == [b, c];
    InsertPastHead(a, [b, c], now);
    assert [b, c][1..] == [c];
    InsertAtFront(a, [c], now);
  }

  /** Three nations with 5, 12 and 3 hours of control rank as the second, the first, the third. */
  lemma LeaderboardExample(now: int)
    ensures
      var a := NationControlStats(1, 18000000, None, 0, 1);
      var b := NationControlStats(2, 43200000, None, 0, 1);
      var c := NationControlStats(3, 10800000, None, 0, 1);
      Leaderboard([a, b, c], now) == [b, a, c]
  {
    LeaderboardOfThree(NationControlStats(1, 18000000, None, 0, 1), NationControlStats(2, 43200000, None, 0, 1),
                       NationControlStats(3, 10800000, None, 0, 1), now);
  }
}
