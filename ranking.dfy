/**
 * Ranking the agents by wins: the stable sort with the largest first, and the
 * rule that decides how many of the best agents survive a generation.
 */
module Ranking {
  import opened Failures

  /** x comes before y in a stable sort by decreasing wins: more wins first, and
      among equal wins the entry that came first. */
  predicate Before(w: seq<int>, x: nat, y: nat)
    requires x < |w| && y < |w|
  {
    w[x] > w[y] || (w[x] == w[y] && x < y)
  }

  /** A list of entry indices in strictly increasing `Before` order. */
  predicate Ordered(w: seq<int>, o: seq<nat>) {
    && (forall i :: 0 <= i < |o| ==> o[i] < |w|)
    && (forall a, b :: 0 <= a < b < |o| ==> Before(w, o[a], o[b]))
  }

  /** Inserts entry x into an ordered list that does not hold it, after every
      entry that comes before it. */
  function Insert(w: seq<int>, o: seq<nat>, x: nat): (r: seq<nat>)
    requires Ordered(w, o) && x < |w| && x !in o
    ensures |r| == |o| + 1 && Ordered(w, r)
    ensures forall y :: y in r <==> y in o || y == x
  {
    if o == [] then [x]
    else if Before(w, o[0], x) then
      assert forall y :: y in o[1..] ==> y in o;
      var rest := Insert(w, o[1..], x);
      assert forall b :: 0 <= b < |rest| ==> Before(w, o[0], rest[b]) by {
        forall b | 0 <= b < |rest|
          ensures Before(w, o[0], rest[b])
        {
          assert rest[b] in rest;
          if rest[b] != x {
            var i :| 0 <= i < |o[1..]| && o[1..][i] == rest[b];
            assert o[i + 1] == rest[b];
          }
        }
      }
      [o[0]] + rest
    else
      [x] + o
  }

  /** The ranking of the first k entries. */
  function RankUpTo(w: seq<int>, k: nat): (o: seq<nat>)
    requires k <= |w|
    ensures |o| == k && Ordered(w, o)
    ensures forall y :: y in o <==> 0 <= y < k
  {
    if k == 0 then [] else Insert(w, RankUpTo(w, k - 1), k - 1)
  }

  /** `sort(key=wins, reverse=True)` on the entries: a permutation of the entry
      indices (RankOrder states the order). */
  function Rank(w: seq<int>): (o: seq<nat>)
    ensures |o| == |w|
    ensures forall y :: y in o <==> 0 <= y < |w|
    ensures forall a :: 0 <= a < |o| ==> o[a] < |w|
  {
    RankUpTo(w, |w|)
  }

  /** The ranking is in decreasing order of wins, and keeps the original order
      among entries with equal wins. */
  lemma RankOrder(w: seq<int>)
    ensures forall a, b :: 0 <= a < b < |Rank(w)| ==> w[Rank(w)[a]] >= w[Rank(w)[b]]
    ensures forall a, b :: 0 <= a < b < |Rank(w)| && w[Rank(w)[a]] == w[Rank(w)[b]] ==> Rank(w)[a] < Rank(w)[b]
  {
    var o := Rank(w);
    assert forall a, b :: 0 <= a < b < |o| ==> Before(w, o[a], o[b]);
  }

  /** The ranking lists each entry once. */
  lemma RankDistinct(w: seq<int>)
    ensures forall a, b :: 0 <= a < b < |Rank(w)| ==> Rank(w)[a] != Rank(w)[b]
  {
    RankOrder(w);
    var o := Rank(w);
    forall a, b | 0 <= a < b < |o|
      ensures o[a] != o[b]
    {
      if w[o[a]] == w[o[b]] {
        assert o[a] < o[b];
      }
    }
  }

  /** The wins in ranked order. */
  function RankedWins(w: seq<int>): (ws: seq<int>)
    ensures |ws| == |w| && forall a :: 0 <= a < |w| ==> ws[a] == w[Rank(w)[a]]
  {
    var o := Rank(w);
    seq(|w|, a requires 0 <= a < |w| => w[o[a]])
  }

  /** The ranked wins never increase. */
  lemma RankedWinsSorted(w: seq<int>)
    ensures forall a, b :: 0 <= a < b < |RankedWins(w)| ==> RankedWins(w)[a] >= RankedWins(w)[b]
  {
    RankOrder(w);
  }

  /** Whether `gather_top(n, nmax)` takes the k-th ranked agent (counting from 1),
      given that it took every earlier one: while fewer than nmax are taken, the
      first n are taken, and after them every agent whose wins equal the previous
      agent's. */
  predicate Keeps(ws: seq<int>, n: int, nmax: int, k: int)
    requires 1 <= k <= |ws|
  {
    k <= nmax && (k <= n || (k >= 2 && ws[k - 2] == ws[k - 1]))
  }

  /** The m agents taken are between n and nmax (fewer only when nmax is smaller),
      none of them has fewer wins than an agent left out, the agents taken beyond
      the n-th all tie with the n-th, and when the cap is not reached the first
      agent left out has strictly fewer wins than the last taken. */
  lemma {:induction false} GatherMeaning(ws: seq<int>, n: int, nmax: int, m: nat)
    requires forall a, b :: 0 <= a < b < |ws| ==> ws[a] >= ws[b]
    requires 1 <= n && m < |ws|
    requires forall k :: 1 <= k <= m ==> Keeps(ws, n, nmax, k)
    requires !Keeps(ws, n, nmax, m + 1)
    ensures m == 0 || m <= nmax
    ensures m >= n || m >= nmax
    ensures forall a, b :: 0 <= a < m <= b < |ws| ==> ws[a] >= ws[b]
    ensures forall a :: n <= a < m ==> ws[a] == ws[n - 1]
    ensures n <= m < nmax ==> ws[m] < ws[m - 1]
  {
    if m > 0 {
      assert Keeps(ws, n, nmax, m);
    }
    var a := n;
    while a < m
      invariant n <= a && (a <= m || m <= n)
      invariant forall a' :: n <= a' < a && a' < m ==> ws[a'] == ws[n - 1]
    {
      assert Keeps(ws, n, nmax, a + 1);
      a := a + 1;
    }
  }

  /** The loop of `gather_top(n, nmax)` over the entries' wins w: it walks the
      ranking and takes entries while `Keeps` allows. Fails with IndexError when
      n < 1 and nmax >= 1 (the tie test looks at an empty list), and with
      ExhaustedError when there is no entry or every entry would be taken (the
      iterator runs out). */
  method Gather(w: seq<int>, n: int, nmax: int) returns (r: Result<seq<nat>>)
    ensures var ws := RankedWins(w);
      r.Err? <==> |w| == 0 || (1 <= nmax && n < 1) || forall k :: 1 <= k <= |w| ==> Keeps(ws, n, nmax, k)
    ensures r.Err? ==> r.error == if |w| > 0 && 1 <= nmax && n < 1 then IndexError else ExhaustedError
    ensures var ws := RankedWins(w);
      r.Ok? ==> && |r.value| < |w|
                && (forall k :: 1 <= k <= |r.value| ==> Keeps(ws, n, nmax, k))
                && !Keeps(ws, n, nmax, |r.value| + 1)
    ensures r.Ok? ==> forall a :: 0 <= a < |r.value| ==> r.value[a] == Rank(w)[a]
  {
    var size := |w|;
    var ordered := Rank(w);
    ghost var ws := RankedWins(w);
    if size == 0 {
      return Err(ExhaustedError);
    }
    var top: seq<nat> := [];
    var index := 1;
    var indexed := ordered[0];
    while true
      invariant 1 <= index <= size && |top| == index - 1
      invariant indexed == ordered[index - 1]
      invariant forall a :: 0 <= a < |top| ==> top[a] == ordered[a]
      invariant forall k :: 1 <= k < index ==> Keeps(ws, n, nmax, k)
      invariant index > 1 ==> n >= 1
      decreases size - index
    {
      if index > nmax {
        break;
      }
      if index >= n + 1 {
        if |top| == 0 {
          assert index == 1 && 1 <= nmax && n < 1;
          return Err(IndexError);
        }
        if w[top[|top| - 1]] != w[indexed] {
          break;
        }
      }
      top := top + [indexed];
      if index == size {
        assert Keeps(ws, n, nmax, index);
        assert forall k :: 1 <= k <= |w| ==> Keeps(ws, n, nmax, k);
        return Err(ExhaustedError);
      }
      indexed := ordered[index];
      index := index + 1;
    }
    assert !Keeps(ws, n, nmax, index);
    assert index > 1 ==> Keeps(ws, n, nmax, 1);
    return Ok(top);
  }
}
