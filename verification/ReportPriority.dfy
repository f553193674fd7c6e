/**
 Canonical enumeration order with the distinct summary-metric maxima first, and why every
 prefix of a prioritised sequence is itself prioritised.
 */
module ReportPriority {
  import opened Wrappers
  import opened Sorting
  import opened ReportText

  type Metric<!T> = T -> Option<F64>

  /** The last of the maxima, as the standard maximum of an iterator picks it. */
  function BestIndex<T>(xs: seq<T>, metric: Metric<T>): (best: Option<nat>)
    ensures best.Some? ==> best.value < |xs| && metric(xs[best.value]).Some?
  {
    if xs == [] then None
    else
      var n := |xs| - 1;
      var best := BestIndex(xs[..n], metric);
      match metric(xs[n])
      case None => best
      case Some(v) => if best.None? || F64Le(metric(xs[best.value]).value, v) then Some(n) else best
  }

  function Best<T>(xs: seq<T>, metric: Metric<T>): Option<T> {
    var best := BestIndex(xs, metric);
    if best.Some? then Some(xs[best.value]) else None
  }

  lemma {:induction false} BestIndexIsLastMaximum<T>(xs: seq<T>, metric: Metric<T>)
    ensures BestIndex(xs, metric).None? ==> forall j | 0 <= j < |xs| :: metric(xs[j]).None?
    ensures BestIndex(xs, metric).Some? ==>
              var i := BestIndex(xs, metric).value;
              forall j | 0 <= j < |xs| && metric(xs[j]).Some? ::
                && F64Le(metric(xs[j]).value, metric(xs[i]).value)
                && (j > i ==> !F64Le(metric(xs[i]).value, metric(xs[j]).value))
  {
    if xs != [] {
      BestIndexIsLastMaximum(xs[..|xs| - 1], metric);
    }
  }

  /** The greatest element by metric, and by order among equal metrics. */
  ghost predicate IsBest<T(!new)>(x: T, xs: seq<T>, metric: Metric<T>, le: (T, T) -> bool) {
    && x in xs
    && metric(x).Some?
    && forall y | y in xs && metric(y).Some? ::
         && F64Le(metric(y).value, metric(x).value)
         && (F64Le(metric(x).value, metric(y).value) ==> le(y, x))
  }

  lemma BestIsBest<T(!new)>(xs: seq<T>, metric: Metric<T>, le: (T, T) -> bool)
    requires TotalPreorder(le) && Sorted(xs, le)
    ensures Best(xs, metric).None? <==> forall x | x in xs :: metric(x).None?
    ensures Best(xs, metric).Some? ==> IsBest(Best(xs, metric).value, xs, metric, le)
  {
    BestIndexIsLastMaximum(xs, metric);
    var best := BestIndex(xs, metric);
    if best.Some? {
      var i := best.value;
      forall y | y in xs && metric(y).Some?
        ensures F64Le(metric(y).value, metric(xs[i]).value)
        ensures F64Le(metric(xs[i]).value, metric(y).value) ==> le(y, xs[i])
      {
        var j :| 0 <= j < |xs| && xs[j] == y;
        assert le(y, y);
      }
      assert xs[i] in xs;
    }
  }

  lemma BestUnique<T(!new)>(x: T, y: T, xs: seq<T>, metric: Metric<T>, le: (T, T) -> bool)
    requires Antisymmetric(le)
    requires IsBest(x, xs, metric, le) && IsBest(y, xs, metric, le)
    ensures x == y
  {
  }

  /** The best element of a whole is the best element of every part that contains it. */
  lemma BestOfPart<T(!new)>(part: seq<T>, whole: seq<T>, metric: Metric<T>, le: (T, T) -> bool)
    requires TotalOrder(le) && Sorted(part, le) && Sorted(whole, le)
    requires forall x | x in part :: x in whole
    ensures Best(whole, metric).None? ==> Best(part, metric).None?
    ensures Best(whole, metric).Some? && Best(whole, metric).value in part ==> Best(part, metric) == Best(whole, metric)
    ensures Best(part, metric).Some? ==> Best(part, metric).value in part
  {
    BestIsBest(part, metric, le);
    BestIsBest(whole, metric, le);
    if Best(whole, metric).Some? && Best(whole, metric).value in part {
      assert IsBest(Best(whole, metric).value, part, metric, le);
      BestUnique(Best(whole, metric).value, Best(part, metric).value, part, metric, le);
    }
  }

  /** The distinct maxima, in the order of the metrics. */
  function Anchors<T(==)>(sorted: seq<T>, metrics: seq<Metric<T>>): seq<T> {
    if metrics == [] then []
    else
      var head := Anchors(sorted, metrics[..|metrics| - 1]);
      var best := Best(sorted, metrics[|metrics| - 1]);
      if best.None? || best.value in head then head else head + [best.value]
  }

  predicate Distinct<T(==)>(xs: seq<T>) {
    forall i, j | 0 <= i < j < |xs| :: xs[i] != xs[j]
  }

  lemma {:induction false} AnchorsFacts<T(!new)>(sorted: seq<T>, metrics: seq<Metric<T>>)
    ensures Distinct(Anchors(sorted, metrics))
    ensures |Anchors(sorted, metrics)| <= |metrics|
    ensures forall a | a in Anchors(sorted, metrics) :: a in sorted
    ensures forall k | 0 <= k < |metrics| && Best(sorted, metrics[k]).Some? ::
              Best(sorted, metrics[k]).value in Anchors(sorted, metrics)
  {
    if metrics != [] {
      AnchorsFacts(sorted, metrics[..|metrics| - 1]);
    }
  }

  lemma {:induction false} AnchorsPrefix<T(!new)>(sorted: seq<T>, metrics: seq<Metric<T>>, k: nat)
    requires k <= |metrics|
    ensures Anchors(sorted, metrics[..k]) <= Anchors(sorted, metrics)
    decreases |metrics|
  {
    if k < |metrics| {
      AnchorsPrefix(sorted, metrics[..|metrics| - 1], k);
      assert metrics[..|metrics| - 1][..k] == metrics[..k];
    } else {
      assert metrics[..k] == metrics;
    }
  }

  /** Drop one occurrence of each removed element. */
  function Without<T(==)>(xs: seq<T>, removed: set<T>): seq<T> {
    if xs == [] then []
    else if xs[0] in removed then Without(xs[1..], removed - {xs[0]})
    else [xs[0]] + Without(xs[1..], removed)
  }

  function Elements<T(==)>(xs: seq<T>): set<T> {
    set x | x in xs
  }

  lemma {:induction false} WithoutSorted<T(!new)>(xs: seq<T>, removed: set<T>, le: (T, T) -> bool)
    requires Sorted(xs, le)
    ensures Sorted(Without(xs, removed), le)
    ensures forall x | x in Without(xs, removed) :: x in xs
    decreases |xs|
  {
    if xs != [] {
      WithoutSorted(xs[1..], removed - {xs[0]}, le);
      WithoutSorted(xs[1..], removed, le);
      forall x | x in xs[1..] ensures le(xs[0], x) {
        var i :| 0 <= i < |xs[1..]| && xs[1..][i] == x;
        assert xs[i + 1] == x;
      }
    }
  }

  lemma {:induction false} WithoutMultiset<T(!new)>(xs: seq<T>, removed: set<T>)
    requires forall x | x in removed :: x in xs
    ensures multiset(Without(xs, removed)) + multiset(removed) == multiset(xs)
    decreases |xs|
  {
    if xs != [] {
      assert xs == [xs[0]] + xs[1..];
      if xs[0] in removed {
        WithoutMultiset(xs[1..], removed - {xs[0]});
        assert multiset(removed) == multiset(removed - {xs[0]}) + multiset{xs[0]};
      } else {
        WithoutMultiset(xs[1..], removed);
      }
    }
  }

  lemma {:induction false} DistinctMultiset<T(!new)>(xs: seq<T>)
    requires Distinct(xs)
    ensures multiset(xs) == multiset(Elements(xs))
  {
    if xs != [] {
      var rest, last := xs[..|xs| - 1], xs[|xs| - 1];
      DistinctMultiset(rest);
      assert xs == rest + [last];
      assert last !in rest;
      assert Elements(xs) == Elements(rest) + {last};
    }
  }

  function Prioritized<T(==)>(xs: seq<T>, le: (T, T) -> bool, metrics: seq<Metric<T>>): seq<T> {
    var sorted := Sort(xs, le);
    var anchors := Anchors(sorted, metrics);
    anchors + Without(sorted, Elements(anchors))
  }

  function AnchorCount<T(==)>(xs: seq<T>, le: (T, T) -> bool, metrics: seq<Metric<T>>): nat {
    |Anchors(Sort(xs, le), metrics)|
  }

  lemma PrioritizedFacts<T(!new)>(xs: seq<T>, le: (T, T) -> bool, metrics: seq<Metric<T>>)
    requires TotalOrder(le)
    ensures multiset(Prioritized(xs, le, metrics)) == multiset(xs)
    ensures |Prioritized(xs, le, metrics)| == |xs|
    ensures forall x | x in Prioritized(xs, le, metrics) :: x in xs
    ensures Sorted(Prioritized(xs, le, metrics)[AnchorCount(xs, le, metrics)..], le)
  {
    var sorted := Sort(xs, le);
    var anchors := Anchors(sorted, metrics);
    SortSorts(xs, le);
    AnchorsFacts(sorted, metrics);
    WithoutSorted(sorted, Elements(anchors), le);
    WithoutMultiset(sorted, Elements(anchors));
    DistinctMultiset(anchors);
    var p := Prioritized(xs, le, metrics);
    assert multiset(p) == multiset(anchors) + multiset(Without(sorted, Elements(anchors)));
    assert |p| == |multiset(p)| == |multiset(xs)| == |xs|;
    forall x | x in p ensures x in xs {
      assert x in multiset(p);
      assert x in multiset(xs);
    }
    assert p[|anchors|..] == Without(sorted, Elements(anchors));
  }

  /** Any enumeration of the same elements gives the same sequence. */
  lemma PrioritizedPermutation<T(!new)>(xs: seq<T>, ys: seq<T>, le: (T, T) -> bool, metrics: seq<Metric<T>>)
    requires TotalOrder(le) && multiset(xs) == multiset(ys)
    ensures Prioritized(xs, le, metrics) == Prioritized(ys, le, metrics)
    ensures AnchorCount(xs, le, metrics) == AnchorCount(ys, le, metrics)
  {
    SortPermutation(xs, ys, le);
  }

  function Take<T>(xs: seq<T>, n: nat): seq<T> {
    if n <= |xs| then xs[..n] else xs
  }

  /** Every best element of the whole that is in the part is the part's best element too. */
  ghost predicate BestKept<T(!new)>(part: seq<T>, whole: seq<T>, metrics: seq<Metric<T>>) {
    forall metric | metric in metrics ::
      && (Best(whole, metric).None? ==> Best(part, metric).None?)
      && (Best(whole, metric).Some? && Best(whole, metric).value in part ==> Best(part, metric) == Best(whole, metric))
      && (Best(part, metric).Some? ==> Best(part, metric).value in part)
  }

  lemma PartKeepsBest<T(!new)>(part: seq<T>, whole: seq<T>, le: (T, T) -> bool, metrics: seq<Metric<T>>)
    requires TotalOrder(le) && Sorted(part, le) && Sorted(whole, le)
    requires forall x | x in part :: x in whole
    ensures BestKept(part, whole, metrics)
  {
    forall metric | metric in metrics
      ensures Best(whole, metric).None? ==> Best(part, metric).None?
      ensures Best(whole, metric).Some? && Best(whole, metric).value in part ==> Best(part, metric) == Best(whole, metric)
      ensures Best(part, metric).Some? ==> Best(part, metric).value in part
    {
      BestOfPart(part, whole, metric, le);
    }
  }

  lemma InTake<T(!new)>(xs: seq<T>, n: nat, p: nat)
    requires Distinct(xs) && p < |xs|
    ensures xs[p] in Take(xs, n) <==> p < n
  {
    if p < n {
      assert Take(xs, n)[p] == xs[p];
    }
  }

  /** Adding the next best element to the anchors kept so far. */
  lemma NextAnchor<T(!new)>(before: seq<T>, after: seq<T>, all: seq<T>, n: nat, x: T)
    requires before <= all && after <= all && Distinct(all) && x in all
    requires after == if x in before then before else before + [x]
    ensures x in Take(all, n) ==> Take(after, n) == if x in Take(before, n) then Take(before, n) else Take(before, n) + [x]
    ensures x !in Take(all, n) ==> Take(after, n) == Take(before, n) == Take(all, n)
  {
    var p :| 0 <= p < |all| && all[p] == x;
    InTake(all, n, p);
    if p < |before| {
      assert before[p] == x;
      InTake(before, n, p);
    } else {
      assert x !in before;
      assert all[|before|] == x;
    }
  }

  /** The anchors of a part that keeps the first `n` anchors are the first `n` anchors. */
  lemma {:induction false} AnchorsOfPart<T(!new)>(part: seq<T>, whole: seq<T>, n: nat, metrics: seq<Metric<T>>,
                                                  k: nat)
    requires BestKept(part, whole, metrics)
    requires k <= |metrics|
    requires forall a | a in Take(Anchors(whole, metrics), n) :: a in part
    requires n < |Anchors(whole, metrics)| ==> forall x | x in part :: x in Take(Anchors(whole, metrics), n)
    ensures Anchors(part, metrics[..k]) == Take(Anchors(whole, metrics[..k]), n)
    decreases k
  {
    if k > 0 {
      AnchorsOfPart(part, whole, n, metrics, k - 1);
      assert metrics[..k][..k - 1] == metrics[..k - 1];
      var metric := metrics[k - 1];
      assert metric in metrics;
      var best := Best(whole, metric);
      if best.Some? {
        var all := Anchors(whole, metrics);
        AnchorsPrefix(whole, metrics, k);
        AnchorsPrefix(whole, metrics, k - 1);
        AnchorsFacts(whole, metrics);
        NextAnchor(Anchors(whole, metrics[..k - 1]), Anchors(whole, metrics[..k]), all, n, best.value);
        if best.value !in Take(all, n) {
          AnchorBeyond(part, all, n, best.value, Best(part, metric));
        }
      }
    }
  }

  /** When an anchor is cut off, the part holds nothing but the anchors kept, so its own best is among them. */
  lemma AnchorBeyond<T(!new)>(part: seq<T>, all: seq<T>, n: nat, x: T, best: Option<T>)
    requires x in all && x !in Take(all, n)
    requires n < |all| ==> forall y | y in part :: y in Take(all, n)
    requires best.Some? ==> best.value in part
    ensures best.Some? ==> best.value in Take(all, n)
  {
  }

  lemma SameMembers<T>(xs: seq<T>, ys: seq<T>)
    requires multiset(xs) == multiset(ys)
    ensures forall x :: x in xs <==> x in ys
  {
    forall x ensures x in xs <==> x in ys {
      assert x in xs <==> x in multiset(xs);
      assert x in ys <==> x in multiset(ys);
    }
  }

  lemma Cancel<T>(a: multiset<T>, b: multiset<T>, common: multiset<T>)
    requires a + common == common + b
    ensures a == b
  {
    assert a == (a + common) - common;
  }

  /** The right anchors followed by a sorted rest: removing the anchors from the sorted whole leaves that rest. */
  lemma AnchorsThenSorted<T(!new)>(ys: seq<T>, part: seq<T>, kept: seq<T>, rest: seq<T>, le: (T, T) -> bool)
    requires Antisymmetric(le)
    requires Sorted(part, le) && Sorted(rest, le)
    requires multiset(part) == multiset(ys) && ys == kept + rest
    requires Distinct(kept)
    ensures kept + Without(part, Elements(kept)) == ys
  {
    SameMembers(ys, part);
    assert forall x | x in Elements(kept) :: x in ys;
    WithoutSorted(part, Elements(kept), le);
    WithoutMultiset(part, Elements(kept));
    DistinctMultiset(kept);
    Cancel(multiset(Without(part, Elements(kept))), multiset(rest), multiset(kept));
    SortedUnique(Without(part, Elements(kept)), rest, le);
  }

  lemma SplitPrefix<T(!new)>(p: seq<T>, all: seq<T>, n: nat, le: (T, T) -> bool)
    requires n <= |p| && all <= p && Sorted(p[|all|..], le)
    ensures var kept, ys := Take(all, n), p[..n];
            && ys == kept + ys[|kept|..]
            && Sorted(ys[|kept|..], le)
            && (n < |all| ==> ys == kept)
  {
    var kept, ys := Take(all, n), p[..n];
    assert kept == ys[..|kept|];
    if n > |all| {
      assert ys[|kept|..] == p[|all|..][..n - |all|];
    }
  }

  /** Every prefix of a prioritised sequence is itself prioritised. */
  lemma PrefixIsPrioritized<T(!new)>(xs: seq<T>, le: (T, T) -> bool, metrics: seq<Metric<T>>, n: nat)
    requires TotalOrder(le)
    requires n <= |xs|
    ensures |Prioritized(xs, le, metrics)| == |xs|
    ensures Prioritized(Prioritized(xs, le, metrics)[..n], le, metrics) == Prioritized(xs, le, metrics)[..n]
  {
    var whole := Sort(xs, le);
    var all := Anchors(whole, metrics);
    var p := Prioritized(xs, le, metrics);
    PrioritizedFacts(xs, le, metrics);
    SortSorts(xs, le);
    var ys := p[..n];
    var part := Sort(ys, le);
    SortSorts(ys, le);
    SameMembers(xs, whole);
    SameMembers(ys, part);
    SplitPrefix(p, all, n, le);
    var kept := Take(all, n);
    PartKeepsBest(part, whole, le, metrics);
    AnchorsOfPart(part, whole, n, metrics, |metrics|);
    assert metrics[..|metrics|] == metrics;
    AnchorsFacts(part, metrics);
    AnchorsThenSorted(ys, part, kept, ys[|kept|..], le);
  }

  /** As long as the anchors are kept, every summary maximum is still among the elements. */
  lemma MaximaSurvive<T(!new)>(xs: seq<T>, le: (T, T) -> bool, metrics: seq<Metric<T>>, n: nat, metric: Metric<T>, x: T)
    requires TotalOrder(le)
    requires AnchorCount(xs, le, metrics) <= n <= |xs|
    requires metric in metrics && x in xs && metric(x).Some?
    ensures |Prioritized(xs, le, metrics)| == |xs|
    ensures exists y | y in Prioritized(xs, le, metrics)[..n] ::
              metric(y).Some? && F64Le(metric(x).value, metric(y).value)
  {
    var sorted := Sort(xs, le);
    SortSorts(xs, le);
    PrioritizedFacts(xs, le, metrics);
    AnchorsFacts(sorted, metrics);
    var k :| 0 <= k < |metrics| && metrics[k] == metric;
    assert x in multiset(xs);
    assert x in multiset(sorted);
    BestIsBest(sorted, metric, le);
    var best := Best(sorted, metrics[k]).value;
    assert IsBest(best, sorted, metric, le);
    var i :| 0 <= i < |Anchors(sorted, metrics)| && Anchors(sorted, metrics)[i] == best;
    assert Prioritized(xs, le, metrics)[..n][i] == best;
  }

  // ----- The in-place algorithm -----

  function ValuesAt<T>(xs: seq<T>, indexes: seq<nat>): seq<T>
    requires forall i | 0 <= i < |indexes| :: indexes[i] < |xs|
  {
    seq(|indexes|, k requires 0 <= k < |indexes| => xs[indexes[k]])
  }

  /** No element equal to `xs[i]` comes after it. */
  predicate IsLastOccurrence<T(==)>(xs: seq<T>, i: nat) {
    i < |xs| && forall j | i < j < |xs| :: xs[j] != xs[i]
  }

  lemma F64LeReflexive(v: F64)
    ensures F64Le(v, v)
  {
  }

  lemma BestIndexIsLastOccurrence<T(!new)>(xs: seq<T>, metric: Metric<T>)
    ensures BestIndex(xs, metric).Some? ==> IsLastOccurrence(xs, BestIndex(xs, metric).value)
  {
    BestIndexIsLastMaximum(xs, metric);
    if BestIndex(xs, metric).Some? {
      var i := BestIndex(xs, metric).value;
      forall j | i < j < |xs| ensures xs[j] != xs[i] {
        F64LeReflexive(metric(xs[i]).value);
      }
    }
  }

  /** The first `n` elements less those whose index is excluded. */
  function Others<T>(xs: seq<T>, n: nat, excluded: seq<nat>): seq<T>
    requires n <= |xs|
  {
    if n == 0 then []
    else Others(xs, n - 1, excluded) + (if n - 1 in excluded then [] else [xs[n - 1]])
  }

  lemma SortedAppend<T>(xs: seq<T>, x: T, le: (T, T) -> bool)
    requires Sorted(xs, le) && forall y | y in xs :: le(y, x)
    ensures Sorted(xs + [x], le)
  {
  }

  lemma {:induction false} OthersSorted<T(!new)>(xs: seq<T>, n: nat, excluded: seq<nat>, le: (T, T) -> bool)
    requires n <= |xs| && Sorted(xs, le)
    ensures Sorted(Others(xs, n, excluded), le)
    ensures forall x | x in Others(xs, n, excluded) :: x in xs[..n]
  {
    if n > 0 {
      OthersSorted(xs, n - 1, excluded, le);
      forall x | x in Others(xs, n - 1, excluded) ensures x in xs[..n] && le(x, xs[n - 1]) {
        var i :| 0 <= i < n - 1 && xs[..n - 1][i] == x;
        assert xs[..n][i] == x;
      }
      assert xs[..n][n - 1] == xs[n - 1];
      if n - 1 !in excluded {
        SortedAppend(Others(xs, n - 1, excluded), xs[n - 1], le);
      } else {
        assert Others(xs, n, excluded) == Others(xs, n - 1, excluded);
      }
    }
  }

  lemma InAppended<T>(xs: seq<T>, last: T, x: T)
    ensures x in xs + [last] <==> x in xs || x == last
  {
  }

  lemma {:induction false} OthersBelow<T(!new)>(xs: seq<T>, n: nat, excluded: seq<nat>, index: nat)
    requires n <= |xs| && n <= index
    ensures Others(xs, n, excluded) == Others(xs, n, excluded + [index])
  {
    if n > 0 {
      OthersBelow(xs, n - 1, excluded, index);
      InAppended(excluded, index, n - 1);
    }
  }

  /** Excluding one more index takes that element out of the middle. */
  lemma {:induction false} OthersSplit<T(!new)>(xs: seq<T>, n: nat, excluded: seq<nat>, index: nat) returns (tail: seq<T>)
    requires index < n <= |xs| && index !in excluded
    ensures Others(xs, n, excluded) == Others(xs, index, excluded) + [xs[index]] + tail
    ensures Others(xs, n, excluded + [index]) == Others(xs, index, excluded) + tail
  {
    InAppended(excluded, index, n - 1);
    if n - 1 == index {
      OthersBelow(xs, index, excluded, index);
      tail := [];
    } else {
      tail := OthersSplit(xs, n - 1, excluded, index);
      if n - 1 !in excluded {
        tail := tail + [xs[n - 1]];
      }
    }
  }

  lemma OthersOfOneMore<T(!new)>(xs: seq<T>, excluded: seq<nat>, index: nat)
    requires index < |xs| && index !in excluded
    ensures multiset(Others(xs, |xs|, excluded)) == multiset(Others(xs, |xs|, excluded + [index])) + multiset{xs[index]}
  {
    var tail := OthersSplit(xs, |xs|, excluded, index);
    var head := Others(xs, index, excluded);
    assert multiset(head + [xs[index]] + tail) == multiset(head) + multiset{xs[index]} + multiset(tail);
    assert multiset(head + tail) == multiset(head) + multiset(tail);
  }

  lemma {:induction false} OthersMultiset<T(!new)>(xs: seq<T>, excluded: seq<nat>)
    requires forall i | 0 <= i < |excluded| :: excluded[i] < |xs|
    requires Distinct(excluded)
    ensures multiset(Others(xs, |xs|, excluded)) + multiset(ValuesAt(xs, excluded)) == multiset(xs)
  {
    if excluded == [] {
      OthersOfNone(xs, |xs|);
      assert xs[..|xs|] == xs;
    } else {
      var rest, last := excluded[..|excluded| - 1], excluded[|excluded| - 1];
      OthersMultiset(xs, rest);
      assert excluded == rest + [last];
      OthersOfOneMore(xs, rest, last);
      ValuesAtAppended(xs, rest, last);
    }
  }

  lemma ValuesAtAppended<T(!new)>(xs: seq<T>, indexes: seq<nat>, last: nat)
    requires last < |xs| && forall i | 0 <= i < |indexes| :: indexes[i] < |xs|
    ensures multiset(ValuesAt(xs, indexes + [last])) == multiset(ValuesAt(xs, indexes)) + multiset{xs[last]}
  {
    assert ValuesAt(xs, indexes + [last]) == ValuesAt(xs, indexes) + [xs[last]];
  }

  lemma {:induction false} OthersOfNone<T(!new)>(xs: seq<T>, n: nat)
    requires n <= |xs|
    ensures Others(xs, n, []) == xs[..n]
  {
    if n > 0 {
      OthersOfNone(xs, n - 1);
    }
  }

  /** Where the values at the excluded indexes are distinct, dropping by index is dropping by value. */
  lemma OthersAreWithout<T(!new)>(xs: seq<T>, excluded: seq<nat>, le: (T, T) -> bool)
    requires Antisymmetric(le) && Sorted(xs, le)
    requires forall i | 0 <= i < |excluded| :: excluded[i] < |xs|
    requires Distinct(excluded) && Distinct(ValuesAt(xs, excluded))
    ensures Others(xs, |xs|, excluded) == Without(xs, Elements(ValuesAt(xs, excluded)))
  {
    var kept := ValuesAt(xs, excluded);
    OthersSorted(xs, |xs|, excluded, le);
    WithoutSorted(xs, Elements(kept), le);
    forall x | x in Elements(kept) ensures x in xs {
      var i :| 0 <= i < |kept| && kept[i] == x;
      assert xs[excluded[i]] == x;
    }
    OthersMultiset(xs, excluded);
    WithoutMultiset(xs, Elements(kept));
    DistinctMultiset(kept);
    Cancel(multiset(Without(xs, Elements(kept))), multiset(Others(xs, |xs|, excluded)), multiset(kept));
    SortedUnique(Others(xs, |xs|, excluded), Without(xs, Elements(kept)), le);
  }

  /** The index of the last maximum of one metric. */
  method MaximumIndex<T>(values: seq<T>, metric: Metric<T>) returns (candidate: Option<nat>)
    ensures candidate == BestIndex(values, metric)
  {
    candidate := None;
    for index := 0 to |values|
      invariant candidate == BestIndex(values[..index], metric)
    {
      assert values[..index + 1][..index] == values[..index];
      match metric(values[index])
      case None =>
      case Some(v) =>
        if candidate.None? || F64Le(metric(values[candidate.value]).value, v) {
          candidate := Some(index);
        }
    }
    assert values[..|values|] == values;
  }

  lemma IndexedAnchor<T(!new)>(xs: seq<T>, anchors: seq<nat>, index: nat)
    requires forall i | 0 <= i < |anchors| :: anchors[i] < |xs| && IsLastOccurrence(xs, anchors[i])
    requires IsLastOccurrence(xs, index)
    ensures index in anchors <==> xs[index] in ValuesAt(xs, anchors)
  {
    var kept := ValuesAt(xs, anchors);
    if index in anchors {
      var i :| 0 <= i < |anchors| && anchors[i] == index;
      assert kept[i] == xs[index];
    }
    if xs[index] in kept {
      var i :| 0 <= i < |kept| && kept[i] == xs[index];
      assert xs[anchors[i]] == xs[index];
      assert anchors[i] == index;
    }
  }

  /** The index of each metric's maximum, once. */
  method AnchorIndexes<T(!new, ==)>(sorted: seq<T>, metrics: seq<Metric<T>>) returns (anchors: seq<nat>)
    ensures forall i | 0 <= i < |anchors| :: anchors[i] < |sorted|
    ensures Distinct(anchors)
    ensures ValuesAt(sorted, anchors) == Anchors(sorted, metrics)
  {
    anchors := [];
    for k := 0 to |metrics|
      invariant forall i | 0 <= i < |anchors| :: anchors[i] < |sorted| && IsLastOccurrence(sorted, anchors[i])
      invariant ValuesAt(sorted, anchors) == Anchors(sorted, metrics[..k])
      invariant Distinct(anchors)
    {
      var candidate := MaximumIndex(sorted, metrics[k]);
      assert metrics[..k + 1][..k] == metrics[..k];
      BestIndexIsLastOccurrence(sorted, metrics[k]);
      if candidate.Some? {
        IndexedAnchor(sorted, anchors, candidate.value);
        if candidate.value !in anchors {
          assert ValuesAt(sorted, anchors + [candidate.value]) == ValuesAt(sorted, anchors) + [sorted[candidate.value]];
          anchors := anchors + [candidate.value];
        }
      }
    }
    assert metrics[..|metrics|] == metrics;
  }

  lemma OrderedIsPrioritized<T(!new)>(values: seq<T>, key: T -> seq<Symbol>, metrics: seq<Metric<T>>, anchors: seq<nat>)
    requires Injective(key)
    requires forall i | 0 <= i < |anchors| :: anchors[i] < |Sort(values, ByKey(key))|
    requires Distinct(anchors)
    requires ValuesAt(Sort(values, ByKey(key)), anchors) == Anchors(Sort(values, ByKey(key)), metrics)
    ensures var sorted := Sort(values, ByKey(key));
            ValuesAt(sorted, anchors) + Others(sorted, |sorted|, anchors) == Prioritized(values, ByKey(key), metrics)
  {
    var sorted := Sort(values, ByKey(key));
    ByKeyOrders(key);
    SortSorts(values, ByKey(key));
    AnchorsFacts(sorted, metrics);
    OthersAreWithout(sorted, anchors, ByKey(key));
  }

  method MoveToFront<T>(values: seq<T>, anchors: seq<nat>) returns (ordered: seq<T>)
    requires forall i | 0 <= i < |anchors| :: anchors[i] < |values|
    ensures ordered == ValuesAt(values, anchors) + Others(values, |values|, anchors)
  {
    var rest := [];
    for index := 0 to |values|
      invariant rest == Others(values, index, anchors)
    {
      if index !in anchors {
        rest := rest + [values[index]];
      }
    }
    ordered := ValuesAt(values, anchors) + rest;
  }

  /** Sort, pick the anchors, and move them to the front. */
  method PrioritizeByMetrics<T(!new, ==)>(values: seq<T>, key: T -> seq<Symbol>, metrics: seq<Metric<T>>)
    returns (ordered: seq<T>, anchorCount: nat)
    requires Injective(key)
    ensures ordered == Prioritized(values, ByKey(key), metrics)
    ensures anchorCount == AnchorCount(values, ByKey(key), metrics)
  {
    var sorted := Sort(values, ByKey(key));
    var anchors := AnchorIndexes(sorted, metrics);
    ordered := MoveToFront(sorted, anchors);
    anchorCount := |anchors|;
    OrderedIsPrioritized(values, key, metrics, anchors);
  }
}
