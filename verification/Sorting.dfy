/** Stable sorting, adjacent deduplication and lexicographic keys over sequences. */
module Sorting {

  ghost predicate TotalPreorder<T(!new)>(le: (T, T) -> bool) {
    && (forall a, b :: le(a, b) || le(b, a))
    && (forall a, b, c :: le(a, b) && le(b, c) ==> le(a, c))
  }

  ghost predicate Antisymmetric<T(!new)>(le: (T, T) -> bool) {
    forall a, b :: le(a, b) && le(b, a) ==> a == b
  }

  ghost predicate TotalOrder<T(!new)>(le: (T, T) -> bool) {
    TotalPreorder(le) && Antisymmetric(le)
  }

  predicate Sorted<T>(xs: seq<T>, le: (T, T) -> bool) {
    forall i, j | 0 <= i < j < |xs| :: le(xs[i], xs[j])
  }

  /** Before the first element not below it: equal elements keep their order. */
  function Insert<T>(x: T, xs: seq<T>, le: (T, T) -> bool): seq<T> {
    if xs == [] || le(x, xs[0]) then [x] + xs else [xs[0]] + Insert(x, xs[1..], le)
  }

  function Sort<T>(xs: seq<T>, le: (T, T) -> bool): seq<T> {
    if xs == [] then [] else Insert(xs[0], Sort(xs[1..], le), le)
  }

  lemma {:induction false} InsertSorted<T(!new)>(x: T, xs: seq<T>, le: (T, T) -> bool)
    requires TotalPreorder(le) && Sorted(xs, le)
    ensures Sorted(Insert(x, xs, le), le)
    ensures multiset(Insert(x, xs, le)) == multiset{x} + multiset(xs)
  {
    if xs == [] {
    } else if le(x, xs[0]) {
      var r := [x] + xs;
      forall i, j | 0 <= i < j < |r| ensures le(r[i], r[j]) {
        if i == 0 && j > 1 {
          assert le(xs[0], xs[j - 1]);
        }
      }
    } else {
      InsertSorted(x, xs[1..], le);
      var tail := Insert(x, xs[1..], le);
      assert xs == [xs[0]] + xs[1..];
      forall k | 0 <= k < |tail| ensures le(xs[0], tail[k]) {
        assert tail[k] in multiset(tail);
        assert tail[k] in multiset{x} + multiset(xs[1..]);
      }
    }
  }

  lemma {:induction false} SortSorts<T(!new)>(xs: seq<T>, le: (T, T) -> bool)
    requires TotalPreorder(le)
    ensures Sorted(Sort(xs, le), le)
    ensures multiset(Sort(xs, le)) == multiset(xs)
    ensures |Sort(xs, le)| == |xs|
  {
    if xs != [] {
      SortSorts(xs[1..], le);
      InsertSorted(xs[0], Sort(xs[1..], le), le);
      assert xs == [xs[0]] + xs[1..];
      assert |multiset(Sort(xs, le))| == |multiset(xs)|;
    }
  }

  lemma {:induction false} SortOfSorted<T(!new)>(xs: seq<T>, le: (T, T) -> bool)
    requires Sorted(xs, le)
    ensures Sort(xs, le) == xs
  {
    if xs != [] {
      SortOfSorted(xs[1..], le);
      assert xs == [xs[0]] + xs[1..];
    }
  }

  lemma RemoveAt<T>(xs: seq<T>, i: nat)
    requires i < |xs|
    ensures multiset(xs[..i] + xs[i + 1..]) == multiset(xs) - multiset{xs[i]}
  {
    assert xs == xs[..i] + [xs[i]] + xs[i + 1..];
  }

  lemma TwiceCounts<T(!new)>(xs: seq<T>, i: nat, j: nat)
    requires i < j < |xs| && xs[i] == xs[j]
    ensures multiset(xs)[xs[i]] >= 2
  {
    assert xs == xs[..j] + [xs[j]] + xs[j + 1..];
    assert xs[..j][i] == xs[i];
    assert multiset(xs) == multiset(xs[..j]) + multiset{xs[j]} + multiset(xs[j + 1..]);
  }

  lemma SameHead<T(!new)>(xs: seq<T>, ys: seq<T>, le: (T, T) -> bool)
    requires Antisymmetric(le)
    requires Sorted(xs, le) && Sorted(ys, le)
    requires xs != [] && ys != [] && xs[0] in ys && ys[0] in xs
    ensures xs[0] == ys[0]
  {
    var i :| 0 <= i < |ys| && ys[i] == xs[0];
    var j :| 0 <= j < |xs| && xs[j] == ys[0];
  }

  lemma RemoveHead<T(!new)>(xs: seq<T>, le: (T, T) -> bool)
    requires xs != [] && Sorted(xs, le)
    ensures multiset(xs[1..]) == multiset(xs) - multiset{xs[0]}
    ensures Sorted(xs[1..], le)
    ensures xs == [xs[0]] + xs[1..]
  {
    assert xs == [xs[0]] + xs[1..];
  }

  lemma SameElements<T>(xs: seq<T>, ys: seq<T>)
    requires multiset(xs) == multiset(ys)
    ensures xs == [] <==> ys == []
    ensures xs != [] ==> xs[0] in ys && ys[0] in xs
  {
    assert |multiset(xs)| == |xs| && |multiset(ys)| == |ys|;
    if xs != [] {
      assert xs[0] in multiset(ys) && ys[0] in multiset(xs);
    }
  }

  /** A sorted sequence is determined by its elements. */
  lemma {:induction false} SortedUnique<T(!new)>(xs: seq<T>, ys: seq<T>, le: (T, T) -> bool)
    requires Antisymmetric(le)
    requires Sorted(xs, le) && Sorted(ys, le)
    requires multiset(xs) == multiset(ys)
    ensures xs == ys
    decreases |xs|
  {
    SameElements(xs, ys);
    if xs != [] {
      SameHead(xs, ys, le);
      RemoveHead(xs, le);
      RemoveHead(ys, le);
      SortedUnique(xs[1..], ys[1..], le);
    }
  }

  lemma SortPermutation<T(!new)>(xs: seq<T>, ys: seq<T>, le: (T, T) -> bool)
    requires TotalOrder(le) && multiset(xs) == multiset(ys)
    ensures Sort(xs, le) == Sort(ys, le)
  {
    SortSorts(xs, le);
    SortSorts(ys, le);
    SortedUnique(Sort(xs, le), Sort(ys, le), le);
  }

  lemma PlacedSorted<T(!new)>(xs: seq<T>, x: T, q: nat, le: (T, T) -> bool)
    requires Sorted(xs, le) && q <= |xs|
    requires forall i | 0 <= i < q :: le(xs[i], x)
    requires forall i | q <= i < |xs| :: le(x, xs[i])
    ensures Sorted(xs[..q] + [x] + xs[q..], le)
    ensures multiset(xs[..q] + [x] + xs[q..]) == multiset(xs + [x])
  {
    assert xs == xs[..q] + xs[q..];
  }

  /** Where an element belongs in a sorted sequence: before the first one not below it. */
  lemma PlaceIn<T(!new)>(xs: seq<T>, x: T, le: (T, T) -> bool) returns (q: nat)
    requires TotalPreorder(le) && Sorted(xs, le)
    ensures q <= |xs|
    ensures forall i | 0 <= i < q :: !le(x, xs[i]) && le(xs[i], x)
    ensures forall i | q <= i < |xs| :: le(x, xs[i])
  {
    q := 0;
    while q < |xs| && !le(x, xs[q])
      invariant q <= |xs|
      invariant forall i | 0 <= i < q :: !le(x, xs[i]) && le(xs[i], x)
    {
      q := q + 1;
    }
    forall i | q <= i < |xs| ensures le(x, xs[i]) {
      if i > q {
        assert le(xs[q], xs[i]);
      }
    }
  }

  /** Sorting a sorted sequence with one element appended puts that element in its place. */
  lemma SortAppended<T(!new)>(xs: seq<T>, x: T, le: (T, T) -> bool) returns (q: nat)
    requires TotalOrder(le) && Sorted(xs, le)
    ensures q <= |xs| && Sort(xs + [x], le) == xs[..q] + [x] + xs[q..]
    ensures forall i | 0 <= i < |xs| :: le(x, xs[i]) <==> i >= q
  {
    q := PlaceIn(xs, x, le);
    PlacedSorted(xs, x, q, le);
    SortSorts(xs + [x], le);
    SortedUnique(Sort(xs + [x], le), xs[..q] + [x] + xs[q..], le);
  }

  /** Keep the first of each run of elements with the same key. */
  function Dedup<T, K(==)>(xs: seq<T>, key: T -> K): seq<T> {
    if |xs| <= 1 then xs
    else
      var head := Dedup(xs[..|xs| - 1], key);
      if key(xs[|xs| - 1]) == key(xs[|xs| - 2]) then head else head + [xs[|xs| - 1]]
  }

  predicate UniqueKeys<T, K(==)>(xs: seq<T>, key: T -> K) {
    forall i, j | 0 <= i < j < |xs| :: key(xs[i]) != key(xs[j])
  }

  /** Keep the first of each key, wherever the later ones are. */
  function Retain<T, K(==)>(xs: seq<T>, key: T -> K): seq<T> {
    if xs == [] then []
    else
      var head := Retain(xs[..|xs| - 1], key);
      var last := xs[|xs| - 1];
      if exists i | 0 <= i < |head| :: key(head[i]) == key(last) then head else head + [last]
  }

  lemma {:induction false} RetainUnique<T, K>(xs: seq<T>, key: T -> K)
    ensures UniqueKeys(Retain(xs, key), key)
    ensures forall x | x in Retain(xs, key) :: x in xs
    ensures |Retain(xs, key)| <= |xs|
    ensures UniqueKeys(xs, key) ==> Retain(xs, key) == xs
  {
    if xs != [] {
      var rest := xs[..|xs| - 1];
      RetainUnique(rest, key);
      assert xs == rest + [xs[|xs| - 1]];
    }
  }

  lemma {:induction false} RetainLoses<T, K>(xs: seq<T>, key: T -> K)
    requires |Retain(xs, key)| == |xs|
    ensures UniqueKeys(xs, key)
  {
    if xs != [] {
      var rest := xs[..|xs| - 1];
      RetainUnique(rest, key);
      RetainLoses(rest, key);
      assert Retain(rest, key) == rest;
    }
  }

  /** On a sequence whose equal keys are adjacent, deduplicating leaves every key once. */
  predicate Grouped<T, K(==)>(xs: seq<T>, key: T -> K) {
    forall i, j, k | 0 <= i < j < k < |xs| :: key(xs[i]) == key(xs[k]) ==> key(xs[j]) == key(xs[k])
  }

  lemma {:induction false} RetainCovers<T, K>(xs: seq<T>, key: T -> K, i: nat) returns (j: nat)
    requires i < |xs|
    ensures j < |Retain(xs, key)| && key(Retain(xs, key)[j]) == key(xs[i])
  {
    var rest := xs[..|xs| - 1];
    if i < |rest| {
      j := RetainCovers(rest, key, i);
    } else {
      var head := Retain(rest, key);
      if exists k | 0 <= k < |head| :: key(head[k]) == key(xs[i]) {
        j :| 0 <= j < |head| && key(head[j]) == key(xs[i]);
      } else {
        j := |head|;
      }
    }
  }

  /** What is kept of a key is its first element. */
  lemma {:induction false} RetainKeepsFirst<T, K>(xs: seq<T>, key: T -> K, x: T, i: nat)
    requires x in Retain(xs, key) && i < |xs| && key(xs[i]) == key(x)
    ensures exists j | 0 <= j <= i :: xs[j] == x
  {
    var rest, last := xs[..|xs| - 1], xs[|xs| - 1];
    var head := Retain(rest, key);
    RetainUnique(rest, key);
    if x in head {
      if i < |rest| {
        RetainKeepsFirst(rest, key, x, i);
        var j :| 0 <= j <= i && rest[j] == x;
        assert xs[j] == x;
      } else {
        var j :| 0 <= j < |rest| && rest[j] == x;
        assert xs[j] == x;
      }
    } else {
      assert x == last;
      if i < |rest| {
        var j := RetainCovers(rest, key, i);
      }
      assert xs[|xs| - 1] == x;
    }
  }

  /** Elements that the order does not tell apart keep their order. */
  lemma {:induction false} SortIsStable<T(!new)>(xs: seq<T>, le: (T, T) -> bool, alike: T -> bool)
    requires forall x, y | alike(x) && alike(y) :: le(x, y)
    ensures Filter(Sort(xs, le), alike) == Filter(xs, alike)
  {
    if xs != [] {
      SortIsStable(xs[1..], le, alike);
      InsertIsStable(xs[0], Sort(xs[1..], le), le, alike);
    }
  }

  lemma FilterCons<T>(x: T, xs: seq<T>, keep: T -> bool)
    ensures Filter([x] + xs, keep) == (if keep(x) then [x] else []) + Filter(xs, keep)
  {
    assert ([x] + xs)[1..] == xs;
  }

  lemma {:induction false} InsertIsStable<T(!new)>(x: T, xs: seq<T>, le: (T, T) -> bool, alike: T -> bool)
    requires forall x, y | alike(x) && alike(y) :: le(x, y)
    ensures Filter(Insert(x, xs, le), alike) == (if alike(x) then [x] else []) + Filter(xs, alike)
  {
    if xs == [] || le(x, xs[0]) {
      FilterCons(x, xs, alike);
    } else {
      InsertIsStable(x, xs[1..], le, alike);
      FilterCons(xs[0], Insert(x, xs[1..], le), alike);
      assert !(alike(x) && alike(xs[0]));
    }
  }

  /** With equal keys adjacent, the last key occurs before exactly if the element before it has it. */
  lemma LastSeen<T, K>(xs: seq<T>, key: T -> K)
    requires |xs| > 1 && Grouped(xs, key)
    ensures var head, last := Retain(xs[..|xs| - 1], key), xs[|xs| - 1];
            (exists i | 0 <= i < |head| :: key(head[i]) == key(last)) <==> key(xs[|xs| - 2]) == key(last)
  {
    var rest, last := xs[..|xs| - 1], xs[|xs| - 1];
    var head := Retain(rest, key);
    RetainUnique(rest, key);
    var j := RetainCovers(rest, key, |rest| - 1);
    if exists k | 0 <= k < |head| :: key(head[k]) == key(last) {
      var k :| 0 <= k < |head| && key(head[k]) == key(last);
      assert head[k] in rest;
      var i :| 0 <= i < |rest| && rest[i] == head[k];
      assert key(xs[i]) == key(xs[|xs| - 1]);
    }
  }

  lemma GroupedPrefix<T, K>(xs: seq<T>, key: T -> K, n: nat)
    requires n <= |xs| && Grouped(xs, key)
    ensures Grouped(xs[..n], key)
  {
  }

  lemma UniquePrefix<T, K>(xs: seq<T>, key: T -> K, n: nat)
    requires n <= |xs| && UniqueKeys(xs, key)
    ensures UniqueKeys(xs[..n], key)
  {
  }

  lemma {:induction false} DedupIsRetain<T, K>(xs: seq<T>, key: T -> K)
    requires Grouped(xs, key)
    ensures Dedup(xs, key) == Retain(xs, key)
  {
    if |xs| == 1 {
      assert xs[..0] == [] && Retain(xs[..0], key) == [];
      assert xs == [xs[0]];
    } else if |xs| > 1 {
      GroupedPrefix(xs, key, |xs| - 1);
      DedupIsRetain(xs[..|xs| - 1], key);
      LastSeen(xs, key);
    }
  }

  lemma {:induction false} DedupHead<T, K>(xs: seq<T>, key: T -> K)
    requires xs != []
    ensures Dedup(xs, key) != [] && Dedup(xs, key)[0] == xs[0]
  {
    if |xs| > 1 {
      DedupHead(xs[..|xs| - 1], key);
    }
  }

  lemma {:induction false} DedupOfUnique<T, K>(xs: seq<T>, key: T -> K)
    requires UniqueKeys(xs, key)
    ensures Dedup(xs, key) == xs
  {
    if |xs| > 1 {
      DedupOfUnique(xs[..|xs| - 1], key);
      assert xs == xs[..|xs| - 1] + [xs[|xs| - 1]];
    }
  }

  lemma {:induction false} DedupSorted<T(!new), K>(xs: seq<T>, key: T -> K, le: (T, T) -> bool)
    requires Sorted(xs, le)
    ensures Sorted(Dedup(xs, key), le)
    ensures forall x | x in Dedup(xs, key) :: x in xs
  {
    if |xs| > 1 {
      var rest, last := xs[..|xs| - 1], xs[|xs| - 1];
      DedupSorted(rest, key, le);
      assert xs == rest + [last];
      forall d | d in Dedup(rest, key) ensures le(d, last) {
        var i :| 0 <= i < |rest| && rest[i] == d;
        assert le(xs[i], xs[|xs| - 1]);
      }
    }
  }

  function Truncate<T>(xs: seq<T>, maximum: nat): seq<T> {
    if |xs| <= maximum then xs else xs[..maximum]
  }

  function Map<S, T>(xs: seq<S>, f: S -> T): (ys: seq<T>)
    ensures |ys| == |xs|
    ensures forall i | 0 <= i < |xs| :: ys[i] == f(xs[i])
  {
    seq(|xs|, i requires 0 <= i < |xs| => f(xs[i]))
  }

  lemma MapRemoveAt<S, T>(xs: seq<S>, i: nat, f: S -> T)
    requires i < |xs|
    ensures multiset(Map(xs, f)) == multiset{f(xs[i])} + multiset(Map(xs[..i] + xs[i + 1..], f))
  {
    var ys := Map(xs, f);
    assert Map(xs[..i] + xs[i + 1..], f) == ys[..i] + ys[i + 1..];
    RemoveAt(ys, i);
  }

  lemma MapTakeOut<S, T>(xs: seq<S>, x: S, f: S -> T) returns (rest: seq<S>)
    requires x in multiset(xs)
    ensures |rest| < |xs| && multiset(rest) == multiset(xs) - multiset{x}
    ensures multiset(Map(xs, f)) == multiset{f(x)} + multiset(Map(rest, f))
  {
    var i :| 0 <= i < |xs| && xs[i] == x;
    rest := xs[..i] + xs[i + 1..];
    RemoveAt(xs, i);
    MapRemoveAt(xs, i, f);
  }

  /** Mapping commutes with permuting. */
  lemma {:induction false} MapPermutation<S, T>(xs: seq<S>, ys: seq<S>, f: S -> T)
    requires multiset(xs) == multiset(ys)
    ensures multiset(Map(xs, f)) == multiset(Map(ys, f))
    decreases |xs|
  {
    SameElements(xs, ys);
    if xs != [] {
      assert xs[0] in multiset(xs);
      var xr := MapTakeOut(xs, xs[0], f);
      var yr := MapTakeOut(ys, xs[0], f);
      MapPermutation(xr, yr, f);
    }
  }

  /** A symbol of a serialised document. Numbers are modelled as reals, so the symbols that write them are too. */
  type Symbol = real

  /** Lexicographic order: the order of byte strings and of code points. */
  predicate LexLe(a: seq<Symbol>, b: seq<Symbol>) {
    a == [] || (b != [] && (a[0] < b[0] || (a[0] == b[0] && LexLe(a[1..], b[1..]))))
  }

  lemma {:induction false} LexTotal(a: seq<Symbol>, b: seq<Symbol>)
    ensures LexLe(a, b) || LexLe(b, a)
    ensures LexLe(a, b) && LexLe(b, a) ==> a == b
  {
    if a != [] && b != [] && a[0] == b[0] {
      LexTotal(a[1..], b[1..]);
      assert a == [a[0]] + a[1..] && b == [b[0]] + b[1..];
    }
  }

  lemma {:induction false} LexTransitive(a: seq<Symbol>, b: seq<Symbol>, c: seq<Symbol>)
    requires LexLe(a, b) && LexLe(b, c)
    ensures LexLe(a, c)
  {
    if a != [] && a[0] == b[0] == c[0] {
      LexTransitive(a[1..], b[1..], c[1..]);
    }
  }

  function ByKey<T>(key: T -> seq<Symbol>): (T, T) -> bool {
    (a, b) => LexLe(key(a), key(b))
  }

  ghost predicate Injective<S(!new), T>(f: S -> T) {
    forall a, b :: f(a) == f(b) ==> a == b
  }

  lemma ByKeyOrders<T(!new)>(key: T -> seq<Symbol>)
    ensures TotalPreorder(ByKey(key))
    ensures Injective(key) ==> Antisymmetric(ByKey(key))
  {
    var le := ByKey(key);
    forall a, b ensures le(a, b) || le(b, a)
      ensures le(a, b) && le(b, a) ==> key(a) == key(b)
    {
      LexTotal(key(a), key(b));
    }
    forall a, b, c | le(a, b) && le(b, c) ensures le(a, c) {
      LexTransitive(key(a), key(b), key(c));
    }
  }

  /** Compare by `first`; where it does not decide, by `second`. */
  function Then<T>(first: (T, T) -> bool, second: (T, T) -> bool): (T, T) -> bool {
    (a, b) => first(a, b) && (!first(b, a) || second(a, b))
  }

  lemma ThenOrders<T(!new)>(first: (T, T) -> bool, second: (T, T) -> bool)
    requires TotalPreorder(first) && TotalPreorder(second)
    ensures TotalPreorder(Then(first, second))
    ensures Antisymmetric(second) ==> Antisymmetric(Then(first, second))
  {
    var le := Then(first, second);
    forall a, b, c | le(a, b) && le(b, c) ensures le(a, c) {
      assert first(a, c);
      if first(c, a) {
        assert first(b, a) && first(c, b);
      }
    }
  }

  function Filter<T>(xs: seq<T>, keep: T -> bool): seq<T> {
    if xs == [] then [] else (if keep(xs[0]) then [xs[0]] else []) + Filter(xs[1..], keep)
  }

  lemma {:induction false} FilterKeeps<T>(xs: seq<T>, keep: T -> bool)
    ensures forall x | x in Filter(xs, keep) :: x in xs && keep(x)
    ensures |Filter(xs, keep)| <= |xs|
    ensures (forall x | x in xs :: keep(x)) ==> Filter(xs, keep) == xs
  {
    if xs != [] {
      FilterKeeps(xs[1..], keep);
      assert xs == [xs[0]] + xs[1..];
    }
  }

  /** The elements at these places, in order, which are exactly those of `xs` to be kept. */
  ghost predicate Picks<T>(kept: seq<T>, xs: seq<T>, keep: T -> bool, at: seq<nat>) {
    && |at| == |kept|
    && (forall i, j | 0 <= i < j < |at| :: at[i] < at[j])
    && (forall i | 0 <= i < |at| :: at[i] < |xs| && kept[i] == xs[at[i]] && keep(xs[at[i]]))
    && (forall k | 0 <= k < |xs| && keep(xs[k]) :: k in at)
  }

  lemma PicksOneMore<T>(kept: seq<T>, xs: seq<T>, keep: T -> bool, at: seq<nat>, x: T)
    requires Picks(kept, xs, keep, at)
    ensures if keep(x) then Picks(kept + [x], xs + [x], keep, at + [|xs|]) else Picks(kept, xs + [x], keep, at)
  {
    forall k | 0 <= k < |xs| && keep(xs[k]) ensures k in at + [|xs|] {
      assert k in at;
    }
    assert (at + [|xs|])[|at|] == |xs|;
  }

  lemma {:induction false} FilterPicks<T>(xs: seq<T>, keep: T -> bool) returns (at: seq<nat>)
    ensures Picks(Filter(xs, keep), xs, keep, at)
  {
    if xs == [] {
      at := [];
    } else {
      var n := |xs| - 1;
      at := FilterPicks(xs[..n], keep);
      FilterLast(xs, keep);
      assert xs == xs[..n] + [xs[n]];
      PicksOneMore(Filter(xs[..n], keep), xs[..n], keep, at, xs[n]);
      if keep(xs[n]) {
        at := at + [n];
      }
    }
  }

  lemma {:induction false} FilterLast<T>(xs: seq<T>, keep: T -> bool)
    requires xs != []
    ensures Filter(xs, keep) == Filter(xs[..|xs| - 1], keep) + if keep(xs[|xs| - 1]) then [xs[|xs| - 1]] else []
  {
    if |xs| == 1 {
      assert xs[1..] == [] && xs[..0] == [];
    } else {
      FilterLast(xs[1..], keep);
      assert xs[1..][..|xs| - 2] == xs[..|xs| - 1][1..];
    }
  }

  lemma MapFixed<T>(xs: seq<T>, f: T -> T)
    requires forall x | x in xs :: f(x) == x
    ensures Map(xs, f) == xs
  {
  }

  /** Every element of a mapped sequence is an image. */
  lemma MapImages<S, T(!new)>(xs: seq<S>, f: S -> T, y: T)
    requires y in Map(xs, f)
    ensures exists x | x in xs :: f(x) == y
  {
    var i :| 0 <= i < |xs| && Map(xs, f)[i] == y;
    assert xs[i] in xs;
  }
}
