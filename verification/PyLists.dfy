/** Shared vocabulary: options, and the Python list operations several files rely on. */
module PyLists {

  datatype Option<+T> = None | Some(value: T)

  /** No element occurs twice. */
  ghost predicate Distinct<T>(s: seq<T>) {
    forall x {:trigger multiset(s)[x]} :: x in s ==> multiset(s)[x] == 1
  }

  ghost function Elements<T>(s: seq<T>): set<T> {
    set x | x in s
  }

  lemma ElementsAppend<T>(s: seq<T>, x: T)
    ensures Elements(s + [x]) == Elements(s) + {x}
  {
  }

  /** The two parts of a list without repetitions have none either, and share no element. */
  lemma DistinctSplit<T>(a: seq<T>, b: seq<T>)
    requires Distinct(a + b)
    ensures Distinct(a) && Distinct(b)
    ensures forall x :: x in a ==> x !in b
  {
    assert forall x :: x in a + b ==> multiset(a + b)[x] == 1;
    assert forall x :: x in a ==> x in a + b;
    assert forall x :: x in b ==> x in a + b;
    assert forall x :: x in a ==> x in multiset(a);
    assert forall x :: x in b ==> x in multiset(b);
    assert multiset(a + b) == multiset(a) + multiset(b);
  }

  lemma DistinctPrefix<T>(s: seq<T>, i: nat)
    requires Distinct(s) && i < |s|
    ensures Distinct(s[..i]) && s[i] !in s[..i]
  {
    assert s == s[..i] + s[i..];
    DistinctSplit(s[..i], s[i..]);
    assert s[i] == s[i..][0];
  }

  lemma {:induction false} DistinctCount<T>(s: seq<T>)
    requires Distinct(s)
    ensures |Elements(s)| == |s|
  {
    if s != [] {
      var last := |s| - 1;
      DistinctPrefix(s, last);
      DistinctCount(s[..last]);
      assert Elements(s) == Elements(s[..last]) + {s[last]};
    }
  }

  lemma DistinctConcat<T>(s: seq<T>, t: seq<T>)
    requires Distinct(s) && Distinct(t) && forall x :: x in s ==> x !in t
    ensures Distinct(s + t)
  {
    assert multiset(s + t) == multiset(s) + multiset(t);
    forall x | x in s + t
      ensures multiset(s + t)[x] == 1
    {
      assert x in multiset(s) <==> x in s;
      assert x in multiset(t) <==> x in t;
      assert multiset(s + t)[x] == multiset(s)[x] + multiset(t)[x];
    }
  }

  lemma NoneLeft<T>(a: set<T>, b: set<T>)
    requires a - b == {}
    ensures a <= b
  {
    assert forall x :: x in a && x !in b ==> x in a - b;
  }

  lemma SubsetOfSameSize<T>(small: set<T>, large: set<T>)
    requires small <= large
    ensures |small| <= |large| && (|small| == |large| <==> small == large)
  {
    assert large == small + (large - small);
  }

  /** The sum of the lengths of the lists in `ls`. */
  function TotalLength<T>(ls: seq<seq<T>>): nat {
    if ls == [] then 0 else TotalLength(ls[..|ls| - 1]) + |ls[|ls| - 1]|
  }

  lemma DistinctAppend<T>(s: seq<T>, x: T)
    requires Distinct(s) && x !in s
    ensures Distinct(s + [x])
  {
  }

  /** More list positions than candidate values: some value sits at two positions. */
  lemma {:induction false} Pigeonhole<T>(s: seq<T>, values: set<T>)
    requires forall i :: 0 <= i < |s| ==> s[i] in values
    requires |s| > |values|
    ensures exists i, j :: 0 <= i < j < |s| && s[i] == s[j]
  {
    if s != [] {
      var last := |s| - 1;
      if i :| 0 <= i < last && s[i] == s[last] {
      } else {
        Pigeonhole(s[..last], values - {s[last]});
        var i, j :| 0 <= i < j < last && s[..last][i] == s[..last][j];
        assert s[i] == s[j];
      }
    }
  }

  /**
   Where the Python slice `s[-k:]` starts in a list of length `n`, for every integer `k`; note that `-0` starts at 0.
   */
  function TailStart(n: nat, k: int): (start: nat)
    ensures start <= n
  {
    if k > n then 0 else if k > 0 then n - k else if -k > n then n else -k
  }

  /** The Python slice `s[-k:]`: the last `k` elements, or everything when `k` is zero. */
  function Tail<T>(s: seq<T>, k: int): seq<T> {
    s[TailStart(|s|, k)..]
  }

  /** Cutting to the last `k`, appending, and cutting again is appending and cutting once. */
  lemma TailAppend<T>(s: seq<T>, more: seq<T>, k: nat)
    requires k > 0
    ensures Tail(Tail(s, k) + more, k) == Tail(s + more, k)
  {
    if |s| > k {
      assert Tail(s, k) + more == (s + more)[|s| - k..];
    }
  }

  function Min(a: int, b: int): int {
    if a < b then a else b
  }

  /** The first `n` elements, or all of them if there are fewer. */
  function Cut<T>(s: seq<T>, n: nat): (r: seq<T>)
    ensures r <= s && |r| == Min(|s|, n)
  {
    if |s| <= n then s else s[..n]
  }

  /** The elements that satisfy `keep`, in order. */
  function Filter<T>(s: seq<T>, keep: T -> bool): seq<T> {
    if s == [] then [] else (if keep(s[0]) then [s[0]] else []) + Filter(s[1..], keep)
  }

  lemma {:induction false} FilterAppend<T>(s: seq<T>, t: seq<T>, keep: T -> bool)
    ensures Filter(s + t, keep) == Filter(s, keep) + Filter(t, keep)
  {
    if s == [] {
      assert s + t == t;
    } else {
      var head := if keep(s[0]) then [s[0]] else [];
      FilterAppend(s[1..], t, keep);
      assert (s + t)[1..] == s[1..] + t;
      assert Filter(s + t, keep) == head + (Filter(s[1..], keep) + Filter(t, keep));
    }
  }

  lemma FilterLast<T>(s: seq<T>, keep: T -> bool)
    requires s != []
    ensures var last, earlier := s[|s| - 1], s[..|s| - 1];
      Filter(s, keep) == if keep(last) then Filter(earlier, keep) + [last] else Filter(earlier, keep)
  {
    var last, earlier := s[|s| - 1], s[..|s| - 1];
    assert s == earlier + [last];
    FilterAppend(earlier, [last], keep);
    assert Filter([last], keep) == (if keep(last) then [last] else []) + Filter([last][1..], keep);
  }

  lemma PrefixCounts<T>(s: seq<T>, n: nat, x: T)
    requires n < |s|
    ensures multiset(s[..n + 1])[x] == multiset(s[..n])[x] + if s[n] == x then 1 else 0
  {
    assert s[..n + 1] == s[..n] + [s[n]];
  }

  /** Filtering keeps or drops all copies of an element. */
  lemma {:induction false} FilterCounts<T>(s: seq<T>, keep: T -> bool, x: T)
    ensures multiset(Filter(s, keep))[x] == if keep(x) then multiset(s)[x] else 0
  {
    if s != [] {
      FilterCounts(s[1..], keep, x);
      assert s == [s[0]] + s[1..];
    }
  }

  ghost predicate Increasing(at: seq<nat>, below: nat) {
    && (forall j, k :: 0 <= j < k < |at| ==> at[j] < at[k])
    && (forall k :: 0 <= k < |at| ==> at[k] < below)
  }

  /** `picked` are the elements of `s` that satisfy `keep`, in order; `at` are their positions. */
  ghost predicate Picks<T>(s: seq<T>, keep: T -> bool, at: seq<nat>, picked: seq<T>) {
    && |at| == |picked| && Increasing(at, |s|)
    && (forall k :: 0 <= k < |at| ==> s[at[k]] == picked[k] && keep(picked[k]))
    && (forall i {:trigger s[i]} :: 0 <= i < |s| && keep(s[i]) ==> i in at)
  }

  lemma PicksStay<T>(s: seq<T>, n: nat, keep: T -> bool, at: seq<nat>, picked: seq<T>)
    requires |s| == n + 1 && Picks(s[..n], keep, at, picked) && !keep(s[n])
    ensures Picks(s, keep, at, picked)
  {
    forall k | 0 <= k < |at| ensures s[at[k]] == picked[k] {
      assert s[..n][at[k]] == s[at[k]];
    }
    forall i | 0 <= i < |s| && keep(s[i]) ensures i in at {
      assert s[..n][i] == s[i];
    }
  }

  lemma PicksGrow<T>(s: seq<T>, n: nat, keep: T -> bool, at: seq<nat>, picked: seq<T>)
    requires |s| == n + 1 && Picks(s[..n], keep, at, picked) && keep(s[n])
    ensures Picks(s, keep, at + [n], picked + [s[n]])
  {
    var more := at + [n];
    forall k | 0 <= k < |more| ensures s[more[k]] == (picked + [s[n]])[k] && keep(s[more[k]]) {
      if k < |at| {
        assert s[..n][at[k]] == s[at[k]];
      }
    }
    forall i | 0 <= i < |s| && keep(s[i]) ensures i in more {
      if i < n {
        assert s[..n][i] == s[i];
      } else {
        assert more[|at|] == n;
      }
    }
  }

  lemma {:induction false} FilterPicks<T>(s: seq<T>, keep: T -> bool) returns (at: seq<nat>)
    ensures Picks(s, keep, at, Filter(s, keep))
  {
    at := [];
    if s != [] {
      var n := |s| - 1;
      var earlier := FilterPicks(s[..n], keep);
      FilterLast(s, keep);
      if keep(s[n]) {
        PicksGrow(s, n, keep, earlier, Filter(s[..n], keep));
        at := earlier + [n];
      } else {
        PicksStay(s, n, keep, earlier, Filter(s[..n], keep));
        at := earlier;
      }
    }
  }
}
