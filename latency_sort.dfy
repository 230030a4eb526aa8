/**
 * The latency ranking of live proxies: Python's `list.sort` keyed by latency,
 * which is a stable sort. A result is a stable sort of its input when it is in
 * non-decreasing latency order and, for every latency value, lists exactly the
 * input's measurements with that latency in their original relative order.
 */
module LatencySort {

  /** A live proxy together with the latency its liveness probe measured, in seconds. */
  datatype Measurement = Measurement(proxy: string, latency: real)

  /** Non-decreasing latency from left to right. */
  ghost predicate Sorted(s: seq<Measurement>)
  {
    forall i, j :: 0 <= i < j < |s| ==> s[i].latency <= s[j].latency
  }

  /** The measurements of `s` whose latency is exactly `k`, in the order of `s`. */
  function WithLatency(s: seq<Measurement>, k: real): (r: seq<Measurement>)
    ensures |r| <= |s|
  {
    if s == [] then []
    else (if s[0].latency == k then [s[0]] else []) + WithLatency(s[1..], k)
  }

  /** The tie group of `k` holds exactly the measurements of `s` whose latency is `k`. */
  lemma {:induction false} WithLatencyMembers(s: seq<Measurement>, k: real)
    ensures forall x :: x in WithLatency(s, k) <==> x in s && x.latency == k
  {
    if s != [] {
      WithLatencyMembers(s[1..], k);
      assert s == [s[0]] + s[1..];
    }
  }

  /** `s` and `t` hold the same measurements per latency value, in the same relative order. */
  ghost predicate SameTies(s: seq<Measurement>, t: seq<Measurement>)
  {
    forall k :: WithLatency(s, k) == WithLatency(t, k)
  }

  /** `t` is what a stable sort by latency makes of `s`. */
  ghost predicate StableSortOf(t: seq<Measurement>, s: seq<Measurement>)
  {
    Sorted(t) && SameTies(t, s)
  }

  lemma {:induction false} WithLatencyAppend(a: seq<Measurement>, b: seq<Measurement>, k: real)
    ensures WithLatency(a + b, k) == WithLatency(a, k) + WithLatency(b, k)
  {
    if a == [] {
      assert a + b == b;
    } else {
      var head := if a[0].latency == k then [a[0]] else [];
      assert (a + b)[0] == a[0];
      assert (a + b)[1..] == a[1..] + b;
      WithLatencyAppend(a[1..], b, k);
      calc {
        WithLatency(a + b, k);
        head + WithLatency(a[1..] + b, k);
        head + (WithLatency(a[1..], k) + WithLatency(b, k));
        (head + WithLatency(a[1..], k)) + WithLatency(b, k);
      }
    }
  }

  lemma WithLatencyPair(x: Measurement, y: Measurement, k: real)
    ensures WithLatency([x, y], k)
            == (if x.latency == k then [x] else []) + (if y.latency == k then [y] else [])
  {
    assert [x, y][1..] == [y];
    assert [y][1..] == [];
  }

  /** The two-element block swapped at positions `j - 1` and `j`. */
  function SwapAdjacent(s: seq<Measurement>, j: int): (r: seq<Measurement>)
    requires 0 < j < |s|
    ensures |r| == |s| && r[j - 1] == s[j] && r[j] == s[j - 1]
    ensures forall i :: 0 <= i < |s| && i != j - 1 && i != j ==> r[i] == s[i]
  {
    s[..j - 1] + [s[j], s[j - 1]] + s[j + 1..]
  }

  lemma SwapKeepsTiesAt(s: seq<Measurement>, j: int, k: real)
    requires 0 < j < |s|
    requires s[j - 1].latency != s[j].latency
    ensures WithLatency(SwapAdjacent(s, j), k) == WithLatency(s, k)
  {
    var pre, x, y, post := s[..j - 1], s[j - 1], s[j], s[j + 1..];
    assert s == (pre + [x, y]) + post;
    assert SwapAdjacent(s, j) == (pre + [y, x]) + post;
    WithLatencyAppend(pre + [y, x], post, k);
    WithLatencyAppend(pre, [y, x], k);
    WithLatencyAppend(pre + [x, y], post, k);
    WithLatencyAppend(pre, [x, y], k);
    WithLatencyPair(y, x, k);
    WithLatencyPair(x, y, k);
  }

  /** Swapping two neighbours of different latency keeps every tie group as it was. */
  lemma SwapKeepsTies(s: seq<Measurement>, j: int)
    requires 0 < j < |s|
    requires s[j - 1].latency != s[j].latency
    ensures SameTies(SwapAdjacent(s, j), s)
  {
    forall k ensures WithLatency(SwapAdjacent(s, j), k) == WithLatency(s, k) {
      SwapKeepsTiesAt(s, j, k);
    }
  }

  lemma {:induction false} CountThroughTies(s: seq<Measurement>, x: Measurement)
    ensures multiset(s)[x] == multiset(WithLatency(s, x.latency))[x]
  {
    if s != [] {
      assert s == [s[0]] + s[1..];
      CountThroughTies(s[1..], x);
    }
  }

  lemma TiesTransitive(r: seq<Measurement>, s: seq<Measurement>, t: seq<Measurement>)
    requires SameTies(r, s) && SameTies(s, t)
    ensures SameTies(r, t)
  {
  }

  /** Equal tie groups make a permutation. */
  lemma TiesArePermutation(t: seq<Measurement>, s: seq<Measurement>)
    requires SameTies(t, s)
    ensures multiset(t) == multiset(s)
  {
    forall x ensures multiset(t)[x] == multiset(s)[x] {
      CountThroughTies(t, x);
      CountThroughTies(s, x);
    }
  }

  lemma SortedTail(s: seq<Measurement>)
    requires Sorted(s) && s != []
    ensures Sorted(s[1..])
  {
    forall i, j | 0 <= i < j < |s| - 1 ensures s[1..][i].latency <= s[1..][j].latency {
      assert s[1..][i] == s[i + 1] && s[1..][j] == s[j + 1];
    }
  }

  /** A stable sort has only one possible outcome: two sorted sequences with the same tie groups are equal. */
  lemma {:induction false} TiesDetermineSorted(t1: seq<Measurement>, t2: seq<Measurement>)
    requires Sorted(t1) && Sorted(t2) && SameTies(t1, t2)
    ensures t1 == t2
    decreases |t1|
  {
    TiesArePermutation(t1, t2);
    assert |t1| == |multiset(t1)| == |multiset(t2)| == |t2|;
    if t1 != [] {
      var a, b := t1[0], t2[0];
      assert a in multiset(t2) && b in multiset(t1);
      assert a.latency == b.latency by {
        var i :| 0 <= i < |t2| && t2[i] == a;
        var j :| 0 <= j < |t1| && t1[j] == b;
        assert t2[0].latency <= t2[i].latency;
        assert t1[0].latency <= t1[j].latency;
      }
      var k := a.latency;
      assert WithLatency(t1, k) == [a] + WithLatency(t1[1..], k);
      assert WithLatency(t2, k) == [b] + WithLatency(t2[1..], k);
      assert a == WithLatency(t1, k)[0] == WithLatency(t2, k)[0] == b;
      forall k' ensures WithLatency(t1[1..], k') == WithLatency(t2[1..], k') {
        if k' == k {
          assert WithLatency(t1[1..], k') == WithLatency(t1, k)[1..];
          assert WithLatency(t2[1..], k') == WithLatency(t2, k)[1..];
        } else {
          assert WithLatency(t1, k') == WithLatency(t1[1..], k');
          assert WithLatency(t2, k') == WithLatency(t2[1..], k');
        }
      }
      SortedTail(t1);
      SortedTail(t2);
      TiesDetermineSorted(t1[1..], t2[1..]);
      assert t1 == [a] + t1[1..] && t2 == [b] + t2[1..];
    }
  }

  /** Inserts `m` before the first element whose latency is not smaller, so earlier equals stay ahead of it. */
  function Insert(m: Measurement, s: seq<Measurement>): (r: seq<Measurement>)
    ensures multiset(r) == multiset{m} + multiset(s)
  {
    if s == [] || m.latency <= s[0].latency then [m] + s
    else
      assert s == [s[0]] + s[1..];
      [s[0]] + Insert(m, s[1..])
  }

  /** The reference stable sort by latency: insertion from the back of the list. */
  function SortByLatency(s: seq<Measurement>): (r: seq<Measurement>)
    ensures multiset(r) == multiset(s)
  {
    if s == [] then []
    else
      assert s == [s[0]] + s[1..];
      Insert(s[0], SortByLatency(s[1..]))
  }

  lemma {:induction false} InsertSorted(m: Measurement, s: seq<Measurement>)
    requires Sorted(s)
    ensures Sorted(Insert(m, s))
  {
    if s != [] && s[0].latency < m.latency {
      SortedTail(s);
      InsertSorted(m, s[1..]);
      var r := Insert(m, s[1..]);
      forall x | x in r ensures s[0].latency <= x.latency {
        assert x in multiset(r);
        if x != m {
          assert x in s[1..];
        }
      }
      assert Insert(m, s) == [s[0]] + r;
      forall i, j | 0 <= i < j < |r| + 1
        ensures ([s[0]] + r)[i].latency <= ([s[0]] + r)[j].latency
      {
        assert ([s[0]] + r)[j] == r[j - 1];
        if i > 0 {
          assert ([s[0]] + r)[i] == r[i - 1];
        }
      }
    }
  }

  lemma WithLatencySingle(x: Measurement, k: real)
    ensures WithLatency([x], k) == if x.latency == k then [x] else []
  {
    assert [x][1..] == [];
  }

  /** Inserting keeps the tie groups of `[m] + s`, because every element `m` skips is strictly faster. */
  lemma {:induction false} InsertTies(m: Measurement, s: seq<Measurement>)
    ensures SameTies(Insert(m, s), [m] + s)
  {
    if s != [] && s[0].latency < m.latency {
      InsertTies(m, s[1..]);
      var r := Insert(m, s[1..]);
      assert Insert(m, s) == [s[0]] + r;
      assert s == [s[0]] + s[1..];
      forall k ensures WithLatency([s[0]] + r, k) == WithLatency([m] + s, k) {
        WithLatencyAppend([s[0]], r, k);
        WithLatencyAppend([m], s[1..], k);
        WithLatencyAppend([m], s, k);
        WithLatencyAppend([s[0]], s[1..], k);
        WithLatencySingle(s[0], k);
        WithLatencySingle(m, k);
      }
    }
  }

  /** The reference sort is a stable sort. */
  lemma {:induction false} SortByLatencyIsStable(s: seq<Measurement>)
    ensures StableSortOf(SortByLatency(s), s)
  {
    if s != [] {
      var rest := SortByLatency(s[1..]);
      SortByLatencyIsStable(s[1..]);
      InsertSorted(s[0], rest);
      InsertTies(s[0], rest);
      assert s == [s[0]] + s[1..];
      forall k ensures WithLatency(SortByLatency(s), k) == WithLatency(s, k) {
        WithLatencyAppend([s[0]], rest, k);
        WithLatencyAppend([s[0]], s[1..], k);
      }
    }
  }

  /** The positions `lo` to `hi - 1` of `s` are in non-decreasing latency order. */
  ghost predicate SortedRange(s: seq<Measurement>, lo: int, hi: int)
    requires 0 <= lo <= hi <= |s|
  {
    forall l, m :: lo <= l < m < hi ==> s[l].latency <= s[m].latency
  }

  /** No element left of `j` is slower than an element in positions `j + 1` to `i`. */
  ghost predicate LeftNotSlower(s: seq<Measurement>, j: int, i: int)
    requires 0 <= j <= i < |s|
  {
    forall l, m :: 0 <= l < j < m <= i ==> s[l].latency <= s[m].latency
  }

  /** One swap of the insertion step keeps the insertion step's invariant. */
  lemma SinkStep(s: seq<Measurement>, j: int, i: int)
    requires 0 < j <= i < |s|
    requires SortedRange(s, 0, j) && SortedRange(s, j, i + 1) && LeftNotSlower(s, j, i)
    requires s[j - 1].latency > s[j].latency
    ensures SortedRange(SwapAdjacent(s, j), 0, j - 1)
    ensures SortedRange(SwapAdjacent(s, j), j - 1, i + 1)
    ensures LeftNotSlower(SwapAdjacent(s, j), j - 1, i)
  {
    var r := SwapAdjacent(s, j);
    forall l, m | j - 1 <= l < m < i + 1 ensures r[l].latency <= r[m].latency {
      if l == j - 1 && m > j {
        assert s[j].latency <= s[m].latency;
      } else if l == j - 1 {
        assert r[l] == s[j] && r[m] == s[j - 1];
      } else if l == j {
        assert r[l] == s[j - 1] && r[m] == s[m];
      } else {
        assert r[l] == s[l] && r[m] == s[m];
      }
    }
    forall l, m | 0 <= l < j - 1 < m <= i ensures r[l].latency <= r[m].latency {
      assert r[l] == s[l];
      if m == j {
        assert s[l].latency <= s[j - 1].latency;
      } else {
        assert r[m] == s[m];
      }
    }
  }

  /** When the moving element has stopped, the whole prefix up to `i` is sorted. */
  lemma SinkDone(s: seq<Measurement>, j: int, i: int)
    requires 0 <= j <= i < |s|
    requires SortedRange(s, 0, j) && SortedRange(s, j, i + 1) && LeftNotSlower(s, j, i)
    requires j == 0 || s[j - 1].latency <= s[j].latency
    ensures SortedRange(s, 0, i + 1)
  {
    forall l, m | 0 <= l < m < i + 1 ensures s[l].latency <= s[m].latency {
      if l < j && m == j {
        assert s[l].latency <= s[j - 1].latency;
      }
    }
  }

  /** Sorts `a` in place by latency, as `list.sort` does: an insertion sort that moves each element left past strictly slower ones only, which is what keeps it stable. */
  method SortInPlace(a: array<Measurement>)
    modifies a
    ensures StableSortOf(a[..], old(a[..]))
    ensures a[..] == SortByLatency(old(a[..]))
  {
    var i := 0;
    while i < a.Length
      invariant 0 <= i <= a.Length
      invariant SortedRange(a[..], 0, i)
      invariant SameTies(a[..], old(a[..]))
    {
      SinkLeft(a, i);
      i := i + 1;
    }
    assert Sorted(a[..]) by {
      assert SortedRange(a[..], 0, a.Length);
    }
    SortByLatencyIsStable(old(a[..]));
    TiesDetermineSorted(a[..], SortByLatency(old(a[..])));
  }

  /** One insertion step: moves `a[i]` left until its left neighbour is not slower, extending the sorted prefix by one. */
  method SinkLeft(a: array<Measurement>, i: nat)
    requires i < a.Length
    requires SortedRange(a[..], 0, i)
    modifies a
    ensures SortedRange(a[..], 0, i + 1)
    ensures SameTies(a[..], old(a[..]))
    ensures a[i + 1..] == old(a[i + 1..])
  {
    var j := i;
    while j > 0 && a[j - 1].latency > a[j].latency
      invariant 0 <= j <= i
      invariant SortedRange(a[..], 0, j) && SortedRange(a[..], j, i + 1) && LeftNotSlower(a[..], j, i)
      invariant SameTies(a[..], old(a[..]))
      invariant a[i + 1..] == old(a[i + 1..])
    {
      ghost var before := a[..];
      SinkStep(before, j, i);
      SwapKeepsTies(before, j);
      TiesTransitive(SwapAdjacent(before, j), before, old(a[..]));
      a[j - 1], a[j] := a[j], a[j - 1];
      assert a[..] == SwapAdjacent(before, j);
      j := j - 1;
    }
    SinkDone(a[..], j, i);
  }
}
