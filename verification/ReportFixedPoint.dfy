/**
 When bounding is a fixed point. It always is, except for reports that carry a capability whose name
 only becomes the truncation marker's by normalisation.
 */
module ReportFixedPoint {
  import opened Wrappers
  import opened Sorting
  import opened ReportText
  import opened ReportModel
  import opened ReportNormal
  import opened ReportHardware
  import opened ReportPriority
  import opened ReportContract
  import opened ReportFit

  // ----- The capability order -----

  lemma CapabilityOrderTotal(codec: Codec)
    requires Injective(codec.capability)
    ensures TotalOrder(CapabilityOrder(codec))
  {
    ByKeyOrders(MarkerRank);
    ByKeyOrders(NameCodes);
    ByKeyOrders(SourceCodes);
    ByKeyOrders(AvailableRank);
    ByKeyOrders(codec.capability);
    var available := Then(ByKey(AvailableRank), ByKey(codec.capability));
    ThenOrders(ByKey(AvailableRank), ByKey(codec.capability));
    ThenOrders(ByKey(SourceCodes), available);
    ThenOrders(ByKey(NameCodes), Then(ByKey(SourceCodes), available));
    ThenOrders(ByKey(MarkerRank), Then(ByKey(NameCodes), Then(ByKey(SourceCodes), available)));
  }

  /** Strictly smaller in the part of the order that the key decides. */
  predicate KeyBefore(a: Capability, b: Capability) {
    if IsMarker(a) != IsMarker(b) then IsMarker(a)
    else if a.name != b.name then LexLe(NameCodes(a), NameCodes(b))
    else a.source != b.source && LexLe(SourceCodes(a), SourceCodes(b))
  }

  lemma RankOrder(a: Capability, b: Capability)
    ensures ByKey(MarkerRank)(a, b) <==> (IsMarker(b) ==> IsMarker(a))
  {
    assert ByKey(MarkerRank)(a, b) == LexLe(MarkerRank(a), MarkerRank(b));
    assert LexLe(MarkerRank(a)[1..], MarkerRank(b)[1..]);
  }

  /** Different keys: the key alone decides. */
  lemma KeyDecides(codec: Codec, a: Capability, b: Capability)
    requires NameAndSource(a) != NameAndSource(b)
    ensures CapabilityOrder(codec)(a, b) <==> KeyBefore(a, b)
    ensures CapabilityOrder(codec)(b, a) <==> !KeyBefore(a, b)
  {
    RankOrder(a, b);
    RankOrder(b, a);
    LexTotal(NameCodes(a), NameCodes(b));
    LexTotal(SourceCodes(a), SourceCodes(b));
    CodesInjective(a.name, b.name);
    CodesInjective(a.source, b.source);
  }

  lemma KeyBeforeTransitive(a: Capability, b: Capability, c: Capability)
    requires KeyBefore(a, b) && KeyBefore(b, c)
    ensures NameAndSource(a) != NameAndSource(c)
  {
    LexTotal(NameCodes(a), NameCodes(b));
    LexTotal(SourceCodes(a), SourceCodes(b));
    CodesInjective(a.name, b.name);
    CodesInjective(a.source, b.source);
  }

  lemma CapabilityOrderGroups(codec: Codec, cs: seq<Capability>)
    requires Sorted(cs, CapabilityOrder(codec))
    ensures Grouped(cs, NameAndSource)
  {
    forall i, j, k | 0 <= i < j < k < |cs| && NameAndSource(cs[i]) == NameAndSource(cs[k])
      ensures NameAndSource(cs[j]) == NameAndSource(cs[k])
    {
      assert CapabilityOrder(codec)(cs[i], cs[j]) && CapabilityOrder(codec)(cs[j], cs[k]);
      if NameAndSource(cs[j]) != NameAndSource(cs[k]) {
        KeyDecides(codec, cs[i], cs[j]);
        KeyDecides(codec, cs[j], cs[k]);
        KeyBeforeTransitive(cs[i], cs[j], cs[k]);
      }
    }
  }

  lemma DeduplicatedFacts(codec: Codec, cs: seq<Capability>)
    requires Injective(codec.capability)
    ensures var d := Deduplicated(codec, cs);
            && Sorted(d, CapabilityOrder(codec)) && UniqueKeys(d, NameAndSource) && |d| <= |cs|
            && (forall c | c in d :: c in cs)
  {
    var le := CapabilityOrder(codec);
    var sorted := Sort(cs, le);
    CapabilityOrderTotal(codec);
    SortSorts(cs, le);
    CapabilityOrderGroups(codec, sorted);
    DedupIsRetain(sorted, NameAndSource);
    RetainUnique(sorted, NameAndSource);
    DedupSorted(sorted, NameAndSource, le);
    SameMembers(cs, sorted);
  }

  lemma DeduplicatedCovers(codec: Codec, cs: seq<Capability>, c: Capability) returns (j: nat)
    requires Injective(codec.capability) && c in cs
    ensures j < |Deduplicated(codec, cs)| && NameAndSource(Deduplicated(codec, cs)[j]) == NameAndSource(c)
  {
    var sorted := Sort(cs, CapabilityOrder(codec));
    CapabilitySort(codec, cs);
    var i :| 0 <= i < |sorted| && sorted[i] == c;
    CapabilityOrderGroups(codec, sorted);
    DedupIsRetain(sorted, NameAndSource);
    j := RetainCovers(sorted, NameAndSource, i);
  }

  /** On sorted capabilities, deduplicating is the identity exactly when the keys are unique. */
  lemma DeduplicatedSorted(codec: Codec, cs: seq<Capability>)
    requires Sorted(cs, CapabilityOrder(codec))
    ensures UniqueKeys(cs, NameAndSource) ==> Deduplicated(codec, cs) == cs
    ensures !UniqueKeys(cs, NameAndSource) ==> |Deduplicated(codec, cs)| < |cs|
  {
    SortOfSorted(cs, CapabilityOrder(codec));
    CapabilityOrderGroups(codec, cs);
    DedupIsRetain(cs, NameAndSource);
    RetainUnique(cs, NameAndSource);
    if |Retain(cs, NameAndSource)| == |cs| {
      RetainLoses(cs, NameAndSource);
    }
  }

  // ----- Where a second marker goes -----

  /** The sources, sorting before the marker's own, under which the marker name is already taken. */
  function EarlierMarkers(cs: seq<Capability>): set<string> {
    set c | c in cs && IsMarker(c) && KeyBefore(c, MARKER) :: c.source
  }

  predicate HoldsMarkerKey(cs: seq<Capability>) {
    exists i | 0 <= i < |cs| :: NameAndSource(cs[i]) == NameAndSource(MARKER)
  }

  function Sources(cs: seq<Capability>): seq<string> {
    Map(cs, (c: Capability) => c.source)
  }

  lemma {:induction false} DistinctCount<T(!new)>(xs: seq<T>)
    requires Distinct(xs)
    ensures |Elements(xs)| == |xs|
  {
    DistinctMultiset(xs);
    assert |multiset(xs)| == |multiset(Elements(xs))|;
  }

  /** In the deduplicated list, the entry with the marker's key is preceded by exactly the earlier markers. */
  lemma MarkerIndex(codec: Codec, cs: seq<Capability>, d: nat)
    requires Injective(codec.capability)
    requires d < |Deduplicated(codec, cs)|
    requires NameAndSource(Deduplicated(codec, cs)[d]) == NameAndSource(MARKER)
    ensures d == |EarlierMarkers(cs)|
  {
    var ds := Deduplicated(codec, cs);
    DeduplicatedFacts(codec, cs);
    var before := ds[..d];
    forall i | 0 <= i < |ds| && i != d
      ensures KeyBefore(ds[i], MARKER) <==> i < d
      ensures i < d ==> IsMarker(ds[i])
    {
      PlaceOf(codec, ds, d, i);
    }
    forall i, j | 0 <= i < j < d ensures Sources(before)[i] != Sources(before)[j] {
      assert NameAndSource(ds[i]) != NameAndSource(ds[j]);
    }
    DistinctCount(Sources(before));
    forall s | s in Elements(Sources(before)) ensures s in EarlierMarkers(cs) {
      var i :| 0 <= i < d && Sources(before)[i] == s;
      assert ds[i] in cs;
    }
    forall s | s in EarlierMarkers(cs) ensures s in Elements(Sources(before)) {
      var c :| c in cs && IsMarker(c) && KeyBefore(c, MARKER) && c.source == s;
      var i := DeduplicatedCovers(codec, cs, c);
      assert KeyBefore(ds[i], MARKER);
      assert Sources(before)[i] == s;
    }
    assert Elements(Sources(before)) == EarlierMarkers(cs);
  }

  lemma CapabilitySort(codec: Codec, cs: seq<Capability>)
    requires Injective(codec.capability)
    ensures Sorted(Sort(cs, CapabilityOrder(codec)), CapabilityOrder(codec))
    ensures |Sort(cs, CapabilityOrder(codec))| == |cs|
    ensures forall c :: c in Sort(cs, CapabilityOrder(codec)) <==> c in cs
  {
    CapabilityOrderTotal(codec);
    SortSorts(cs, CapabilityOrder(codec));
    SameMembers(Sort(cs, CapabilityOrder(codec)), cs);
  }

  lemma CapabilitySortAppended(codec: Codec, cs: seq<Capability>, c: Capability) returns (q: nat)
    requires Injective(codec.capability) && Sorted(cs, CapabilityOrder(codec))
    ensures q <= |cs| && Sort(cs + [c], CapabilityOrder(codec)) == cs[..q] + [c] + cs[q..]
    ensures forall i | 0 <= i < |cs| :: CapabilityOrder(codec)(c, cs[i]) <==> i >= q
  {
    CapabilityOrderTotal(codec);
    q := SortAppended(cs, c, CapabilityOrder(codec));
  }

  /** The marker lands directly before or after an entry with its own key. */
  lemma MarkerPosition(codec: Codec, cs: seq<Capability>, d: nat) returns (q: nat)
    requires Injective(codec.capability)
    requires Sorted(cs, CapabilityOrder(codec)) && UniqueKeys(cs, NameAndSource)
    requires d < |cs| && NameAndSource(cs[d]) == NameAndSource(MARKER)
    ensures q == d || q == d + 1
    ensures Sort(cs + [MARKER], CapabilityOrder(codec)) == cs[..q] + [MARKER] + cs[q..]
  {
    q := CapabilitySortAppended(codec, cs, MARKER);
    if q < d {
      PlaceOf(codec, cs, d, q);
    }
    if q > d + 1 {
      PlaceOf(codec, cs, d, d + 1);
    }
  }

  lemma PlaceOf(codec: Codec, cs: seq<Capability>, d: nat, i: nat)
    requires Sorted(cs, CapabilityOrder(codec)) && UniqueKeys(cs, NameAndSource)
    requires d < |cs| && NameAndSource(cs[d]) == NameAndSource(MARKER)
    requires i < |cs| && i != d
    ensures CapabilityOrder(codec)(MARKER, cs[i]) <==> i > d
    ensures KeyBefore(cs[i], MARKER) <==> i < d
    ensures i < d ==> IsMarker(cs[i])
  {
    assert NameAndSource(cs[i]) != NameAndSource(cs[d]);
    if i < d {
      assert CapabilityOrder(codec)(cs[i], cs[d]);
    } else {
      assert CapabilityOrder(codec)(cs[d], cs[i]);
    }
    KeyDecides(codec, cs[i], cs[d]);
    KeyDecides(codec, cs[i], MARKER);
  }

  /** Inserting a duplicate beside position `d` of a list with unique keys. */
  lemma AdjacentDuplicate<T, K>(cs: seq<T>, key: T -> K, d: nat, q: nat, c: T, m: nat)
    requires UniqueKeys(cs, key) && d < |cs| && key(cs[d]) == key(c)
    requires q == d || q == d + 1
    requires m <= |cs| + 1
    ensures UniqueKeys((cs[..q] + [c] + cs[q..])[..m], key) <==> m < d + 2
  {
    var x := cs[..q] + [c] + cs[q..];
    assert key(x[d]) == key(x[d + 1]) == key(c);
    forall i, j | 0 <= i < j < |x| && !(i == d && j == d + 1) ensures key(x[i]) != key(x[j]) {
      var i0, j0 := if i <= d then i else i - 1, if j <= d then j else j - 1;
      assert key(x[i]) == key(cs[i0]) && key(x[j]) == key(cs[j0]);
      assert i0 < j0;
    }
    if m >= d + 2 {
      assert x[..m][d] == x[d] && x[..m][d + 1] == x[d + 1];
    }
  }

  /** The marker joins an entry with its own key: a prefix has unique keys unless it holds both. */
  lemma MarkerBesideDuplicate(codec: Codec, cs: seq<Capability>, d: nat, m: nat)
    requires Injective(codec.capability)
    requires Sorted(cs, CapabilityOrder(codec)) && UniqueKeys(cs, NameAndSource)
    requires d < |cs| && NameAndSource(cs[d]) == NameAndSource(MARKER)
    requires m <= |cs| + 1
    ensures |Sort(cs + [MARKER], CapabilityOrder(codec))| == |cs| + 1
    ensures UniqueKeys(Sort(cs + [MARKER], CapabilityOrder(codec))[..m], NameAndSource) <==> m < d + 2
  {
    var q := MarkerPosition(codec, cs, d);
    AdjacentDuplicate(cs, NameAndSource, d, q, MARKER, m);
  }

  lemma UniqueInsert<T, K>(cs: seq<T>, key: T -> K, q: nat, c: T)
    requires UniqueKeys(cs, key) && q <= |cs| && forall i | 0 <= i < |cs| :: key(cs[i]) != key(c)
    ensures UniqueKeys(cs[..q] + [c] + cs[q..], key)
  {
  }

  lemma MarkerAlone(codec: Codec, cs: seq<Capability>)
    requires Injective(codec.capability)
    requires Sorted(cs, CapabilityOrder(codec)) && UniqueKeys(cs, NameAndSource) && !HoldsMarkerKey(cs)
    ensures UniqueKeys(Sort(cs + [MARKER], CapabilityOrder(codec)), NameAndSource)
  {
    var q := CapabilitySortAppended(codec, cs, MARKER);
    UniqueInsert(cs, NameAndSource, q, MARKER);
  }

  /** A marker always ends up first. */
  lemma MarkerFirst(codec: Codec, cs: seq<Capability>)
    requires Injective(codec.capability)
    requires Sorted(cs, CapabilityOrder(codec)) && Marked(cs)
    ensures IsMarker(cs[0])
  {
    var i :| 0 <= i < |cs| && IsMarker(cs[i]);
    if i > 0 && !IsMarker(cs[0]) {
      assert CapabilityOrder(codec)(cs[0], cs[i]);
      KeyDecides(codec, cs[0], cs[i]);
    }
  }

  // ----- The unfitted report -----

  lemma PrintableIsNormal(c: Capability)
    requires Printable(c.name) && 0 < |c.name| <= CLIENT_REPORT_MAX_CAPABILITY_NAME_BYTES && c.name[0] != ' '
    requires Printable(c.source) && 0 < |c.source| <= CLIENT_REPORT_MAX_CAPABILITY_SOURCE_BYTES && c.source[0] != ' '
    requires c.message.Some? && Printable(c.message.value) && 0 < |c.message.value|
    requires |c.message.value| <= CLIENT_REPORT_MAX_CAPABILITY_MESSAGE_BYTES && c.message.value[0] != ' '
    ensures NormCapability(c) == c
  {
    PrintableIsClean(c.name, CLIENT_REPORT_MAX_CAPABILITY_NAME_BYTES);
    PrintableIsClean(c.source, CLIENT_REPORT_MAX_CAPABILITY_SOURCE_BYTES);
    PrintableIsClean(c.message.value, CLIENT_REPORT_MAX_CAPABILITY_MESSAGE_BYTES);
    RequiredTextIsStable(c.name, CLIENT_REPORT_MAX_CAPABILITY_NAME_BYTES, "unknown.capability");
    RequiredTextIsStable(c.source, CLIENT_REPORT_MAX_CAPABILITY_SOURCE_BYTES, "unknown");
    OptionalNonemptyIsStable(c.message, CLIENT_REPORT_MAX_CAPABILITY_MESSAGE_BYTES);
  }

  lemma MarkerNameIsPrintable()
    ensures Printable(TRUNCATED_CAPABILITY) && Printable(TRUNCATED_SOURCE)
  {
  }

  lemma MarkerMessageIsPrintable()
    ensures Printable(TRUNCATED_MESSAGE) && TRUNCATED_MESSAGE[0] == 'o'
  {
    var a, b, c := "one or more collected values", " were bounded to the current", " report contract";
    assert Printable(a) && Printable(b) && Printable(c);
    assert TRUNCATED_MESSAGE == a + b + c;
  }

  lemma MarkerIsNormal()
    ensures NormCapability(MARKER) == MARKER
  {
    MarkerNameIsPrintable();
    MarkerMessageIsPrintable();
    PrintableIsNormal(MARKER);
  }

  /** Whether the marker was added to a list that already held its key. */
  predicate DuplicatesMarker(raw: seq<Capability>, normalised: seq<Capability>, kept: nat) {
    !Marked(raw) && HoldsMarkerKey(normalised) && kept >= |EarlierMarkers(normalised)| + 2
  }

  predicate MarkerDuplicated(r: Report, kept: nat) {
    DuplicatesMarker(r.capabilities, Map(r.capabilities, NormCapability), kept)
  }

  lemma UnmarkedRename(r: Report, now: Time, clampFuture: bool)
    requires !Marked(r.capabilities) && HoldsMarkerKey(Map(r.capabilities, NormCapability))
    ensures Normalized(r, now, clampFuture) != r
  {
    var n := Map(r.capabilities, NormCapability);
    var i :| 0 <= i < |n| && NameAndSource(n[i]) == NameAndSource(MARKER);
    assert !IsMarker(r.capabilities[i]);
    assert n[i] != r.capabilities[i];
  }

  lemma SortedPrefix<T>(xs: seq<T>, m: nat, le: (T, T) -> bool)
    requires m <= |xs| && Sorted(xs, le)
    ensures Sorted(xs[..m], le)
  {
  }

  lemma PrefixHolds(ds: seq<Capability>, cs: seq<Capability>, d: nat)
    requires cs <= ds && d < |ds| && NameAndSource(ds[d]) == NameAndSource(MARKER)
    ensures !HoldsMarkerKey(cs) ==> d >= |cs|
  {
    if d < |cs| {
      assert cs[d] == ds[d];
    }
  }

  lemma MarkedPrefix(codec: Codec, n: seq<Capability>, m: nat)
    requires Injective(codec.capability)
    requires m <= |Truncate(Deduplicated(codec, n), CLIENT_REPORT_MAX_CAPABILITIES)| + 1
    requires m <= CLIENT_REPORT_MAX_CAPABILITIES
    ensures var cs := Truncate(Deduplicated(codec, n), CLIENT_REPORT_MAX_CAPABILITIES);
            && |Sort(cs + [MARKER], CapabilityOrder(codec))| == |cs| + 1
            && (UniqueKeys(Sort(cs + [MARKER], CapabilityOrder(codec))[..m], NameAndSource)
                <==> !(HoldsMarkerKey(n) && m >= |EarlierMarkers(n)| + 2))
  {
    var ds := Deduplicated(codec, n);
    var cs := Truncate(ds, CLIENT_REPORT_MAX_CAPABILITIES);
    DeduplicatedFacts(codec, n);
    SortedPrefix(ds, |cs|, CapabilityOrder(codec));
    CapabilitySort(codec, cs + [MARKER]);
    if HoldsMarkerKey(cs) {
      var d :| 0 <= d < |cs| && NameAndSource(cs[d]) == NameAndSource(MARKER);
      MarkerBesideDuplicate(codec, cs, d, m);
      MarkerIndex(codec, n, d);
      assert cs[d] in n;
      assert HoldsMarkerKey(n);
    } else {
      MarkerAlone(codec, cs);
      if HoldsMarkerKey(n) {
        var i :| 0 <= i < |n| && NameAndSource(n[i]) == NameAndSource(MARKER);
        var d := DeduplicatedCovers(codec, n, n[i]);
        MarkerIndex(codec, n, d);
        PrefixHolds(ds, cs, d);
      }
    }
  }

  lemma WithMarkerFacts(codec: Codec, cs: seq<Capability>)
    requires Injective(codec.capability)
    ensures Sorted(WithMarker(codec, cs), CapabilityOrder(codec))
    ensures |WithMarker(codec, cs)| <= CLIENT_REPORT_MAX_CAPABILITIES
    ensures forall c | c in WithMarker(codec, cs) :: c in cs || c == MARKER
    ensures WithMarker(codec, cs) != [] && IsMarker(WithMarker(codec, cs)[0])
  {
    var x := Sort(cs + [MARKER], CapabilityOrder(codec));
    var u := WithMarker(codec, cs);
    CapabilitySort(codec, cs + [MARKER]);
    SortedPrefix(x, |u|, CapabilityOrder(codec));
    assert u == x[..|u|];
    forall c | c in u ensures c in cs || c == MARKER {
      assert c in x;
    }
    assert (cs + [MARKER])[|cs|] == MARKER;
    assert MARKER in cs + [MARKER];
    var i :| 0 <= i < |x| && x[i] == MARKER;
    assert IsMarker(x[i]);
    MarkerFirst(codec, x);
  }

  function CanonicalCapabilities(codec: Codec, r: Report): seq<Capability> {
    Truncate(Deduplicated(codec, Map(r.capabilities, NormCapability)), CLIENT_REPORT_MAX_CAPABILITIES)
  }

  lemma CanonicalCapabilitiesFacts(codec: Codec, r: Report)
    requires Injective(codec.capability)
    ensures var cs := CanonicalCapabilities(codec, r);
            && Sorted(cs, CapabilityOrder(codec)) && UniqueKeys(cs, NameAndSource)
            && |cs| <= CLIENT_REPORT_MAX_CAPABILITIES && AllNormal(cs)
  {
    var n := Map(r.capabilities, NormCapability);
    var ds := Deduplicated(codec, n);
    var cs := CanonicalCapabilities(codec, r);
    DeduplicatedFacts(codec, n);
    SortedPrefix(ds, |cs|, CapabilityOrder(codec));
    assert cs == ds[..|cs|];
    forall c | c in cs ensures NormCapability(c) == c {
      assert c in ds;
      MapImages(r.capabilities, NormCapability, c);
      var o :| o in r.capabilities && NormCapability(o) == c;
      CapabilityStable(o);
    }
  }

  /** The capabilities of the unfitted report: with the marker or without it. */
  lemma UnfittedCases(codec: Codec, r: Report, now: Time, clampFuture: bool)
    ensures var cs, u := CanonicalCapabilities(codec, r), Unfitted(codec, r, now, clampFuture).capabilities;
            && (Changed(codec, r, now, clampFuture) && !Marked(r.capabilities) ==> u == WithMarker(codec, cs))
            && (!(Changed(codec, r, now, clampFuture) && !Marked(r.capabilities)) ==> u == cs)
            && (!Marked(r.capabilities) && HoldsMarkerKey(Map(r.capabilities, NormCapability)) ==> u == WithMarker(codec, cs))
  {
    var n := Map(r.capabilities, NormCapability);
    assert n == Normalized(r, now, clampFuture).capabilities;
    if HoldsMarkerKey(n) && !Marked(r.capabilities) {
      UnmarkedRename(r, now, clampFuture);
    }
  }

  ghost predicate AllNormal(cs: seq<Capability>) {
    forall c | c in cs :: NormCapability(c) == c
  }

  lemma WithMarkerNormal(codec: Codec, cs: seq<Capability>)
    requires Injective(codec.capability) && AllNormal(cs)
    ensures AllNormal(WithMarker(codec, cs))
  {
    WithMarkerFacts(codec, cs);
    MarkerIsNormal();
  }

  lemma MarkedList(codec: Codec, n: seq<Capability>, cs: seq<Capability>, m: nat)
    requires Injective(codec.capability)
    requires cs == Truncate(Deduplicated(codec, n), CLIENT_REPORT_MAX_CAPABILITIES)
    requires m <= |WithMarker(codec, cs)|
    ensures UniqueKeys(WithMarker(codec, cs)[..m], NameAndSource)
            <==> !(HoldsMarkerKey(n) && m >= |EarlierMarkers(n)| + 2)
  {
    var x := Sort(cs + [MARKER], CapabilityOrder(codec));
    WithMarkerFacts(codec, cs);
    CapabilitySort(codec, cs + [MARKER]);
    MarkedPrefix(codec, n, m);
    assert WithMarker(codec, cs)[..m] == x[..m];
  }

  lemma MarkedCapabilities(codec: Codec, r: Report, m: nat)
    requires Injective(codec.capability) && !Marked(r.capabilities)
    requires m <= |WithMarker(codec, CanonicalCapabilities(codec, r))|
    ensures UniqueKeys(WithMarker(codec, CanonicalCapabilities(codec, r))[..m], NameAndSource) <==> !MarkerDuplicated(r, m)
  {
    MarkedList(codec, Map(r.capabilities, NormCapability), CanonicalCapabilities(codec, r), m);
  }

  lemma UnmarkedCapabilities(codec: Codec, r: Report, m: nat)
    requires Injective(codec.capability) && m <= |CanonicalCapabilities(codec, r)|
    ensures UniqueKeys(CanonicalCapabilities(codec, r)[..m], NameAndSource)
  {
    CanonicalCapabilitiesFacts(codec, r);
    UniquePrefix(CanonicalCapabilities(codec, r), NameAndSource, m);
  }

  /** They are sorted, within the limit, normal, and their prefixes unique up to a duplicated marker. */
  lemma UnfittedCapabilities(codec: Codec, r: Report, now: Time, clampFuture: bool, m: nat)
    requires Lawful(codec)
    requires m <= |Unfitted(codec, r, now, clampFuture).capabilities|
    ensures var cs := Unfitted(codec, r, now, clampFuture).capabilities;
            && Sorted(cs, CapabilityOrder(codec)) && |cs| <= CLIENT_REPORT_MAX_CAPABILITIES && AllNormal(cs)
            && (UniqueKeys(cs[..m], NameAndSource) <==> !MarkerDuplicated(r, m))
  {
    UnfittedCases(codec, r, now, clampFuture);
    CanonicalCapabilitiesFacts(codec, r);
    var cs := CanonicalCapabilities(codec, r);
    if Changed(codec, r, now, clampFuture) && !Marked(r.capabilities) {
      WithMarkerFacts(codec, cs);
      WithMarkerNormal(codec, cs);
      MarkedCapabilities(codec, r, m);
    } else if Marked(r.capabilities) || !HoldsMarkerKey(Map(r.capabilities, NormCapability)) {
      UnmarkedCapabilities(codec, r, m);
    } else {
      UnmarkedRename(r, now, clampFuture);
    }
  }

  // ----- The second pass -----

  lemma KeyedPrefix<T(!new)>(xs: seq<T>, key: T -> seq<Symbol>, metrics: seq<Metric<T>>, n: nat)
    requires Injective(key) && n <= |Prioritized(xs, ByKey(key), metrics)|
    ensures forall x | x in Prioritized(xs, ByKey(key), metrics) :: x in xs
    ensures Prioritized(Prioritized(xs, ByKey(key), metrics)[..n], ByKey(key), metrics)
            == Prioritized(xs, ByKey(key), metrics)[..n]
  {
    ByKeyOrders(key);
    PrioritizedFacts(xs, ByKey(key), metrics);
    PrefixIsPrioritized(xs, ByKey(key), metrics, n);
  }

  /** A prefix of a truncated prioritised list is prioritised and within its limit. */
  lemma KeptListIsFixed<T(!new)>(xs: seq<T>, key: T -> seq<Symbol>, metrics: seq<Metric<T>>, maximum: nat, kept: seq<T>)
    requires Injective(key)
    requires kept <= Truncate(Prioritized(xs, ByKey(key), metrics), maximum)
    ensures Truncate(Prioritized(kept, ByKey(key), metrics), maximum) == kept && |kept| <= maximum
    ensures forall x | x in kept :: x in xs
  {
    var p := Prioritized(xs, ByKey(key), metrics);
    KeyedPrefix(xs, key, metrics, |kept|);
    assert kept == p[..|kept|];
    forall x | x in kept ensures x in xs {
      assert x in p;
    }
  }

  ghost predicate ListsSettled(codec: Codec, b: Report) {
    && Truncate(Prioritized(b.networks, ByKey(codec.network), NetworkMetrics()), CLIENT_REPORT_MAX_NETWORKS) == b.networks
    && Truncate(Prioritized(b.disks, ByKey(codec.disk), DiskMetrics()), CLIENT_REPORT_MAX_DISKS) == b.disks
    && Truncate(Prioritized(b.temperatures, ByKey(codec.temperature), TemperatureMetrics()), CLIENT_REPORT_MAX_TEMPERATURES)
       == b.temperatures
    && Truncate(Prioritized(b.gpus, ByKey(codec.gpu), GpuMetrics()), CLIENT_REPORT_MAX_GPUS) == b.gpus
    && |b.networks| <= CLIENT_REPORT_MAX_NETWORKS && |b.disks| <= CLIENT_REPORT_MAX_DISKS
    && |b.temperatures| <= CLIENT_REPORT_MAX_TEMPERATURES && |b.gpus| <= CLIENT_REPORT_MAX_GPUS
  }

  predicate PartsSettled(b: Report) {
    && BoundCpu(b.cpu) == b.cpu
    && (b.hardware.Some? ==> BoundHardware(b.hardware.value, b.collectedAt) == (b.hardware.value, false))
  }

  lemma CutLists(codec: Codec, r: Report, now: Time, clampFuture: bool, b: Report)
    requires Lawful(codec) && Cut(b, Unfitted(codec, r, now, clampFuture))
    ensures ListsSettled(codec, b)
    ensures var n := Normalized(r, now, clampFuture);
            && (forall x | x in b.networks :: x in n.networks) && (forall x | x in b.disks :: x in n.disks)
            && (forall x | x in b.temperatures :: x in n.temperatures) && (forall x | x in b.gpus :: x in n.gpus)
  {
    var n := Normalized(r, now, clampFuture);
    KeptListIsFixed(n.networks, codec.network, NetworkMetrics(), CLIENT_REPORT_MAX_NETWORKS, b.networks);
    KeptListIsFixed(n.disks, codec.disk, DiskMetrics(), CLIENT_REPORT_MAX_DISKS, b.disks);
    KeptListIsFixed(n.temperatures, codec.temperature, TemperatureMetrics(), CLIENT_REPORT_MAX_TEMPERATURES, b.temperatures);
    KeptListIsFixed(n.gpus, codec.gpu, GpuMetrics(), CLIENT_REPORT_MAX_GPUS, b.gpus);
  }

  lemma CutParts(codec: Codec, r: Report, now: Time, clampFuture: bool, b: Report)
    requires Cut(b, Unfitted(codec, r, now, clampFuture))
    ensures PartsSettled(b)
    ensures var n := Normalized(r, now, clampFuture);
            && b.collectedAt == n.collectedAt && b.intervalSeconds == n.intervalSeconds && b.host == n.host
            && b.memory == n.memory && b.cpu == BoundCpu(n.cpu)
  {
    var n := Normalized(r, now, clampFuture);
    BoundCpuStable(n.cpu);
    if n.hardware.Some? {
      HardwareStable(n.hardware.value, n.collectedAt);
    }
  }

  lemma CutCapabilities(codec: Codec, r: Report, now: Time, clampFuture: bool, b: Report)
    requires Lawful(codec) && Cut(b, Unfitted(codec, r, now, clampFuture))
    ensures Sorted(b.capabilities, CapabilityOrder(codec)) && |b.capabilities| <= CLIENT_REPORT_MAX_CAPABILITIES
    ensures AllNormal(b.capabilities)
    ensures UniqueKeys(b.capabilities, NameAndSource) <==> !MarkerDuplicated(r, |b.capabilities|)
  {
    var u := Unfitted(codec, r, now, clampFuture).capabilities;
    UnfittedCapabilities(codec, r, now, clampFuture, |b.capabilities|);
    assert b.capabilities == u[..|b.capabilities|];
    SortedPrefix(u, |b.capabilities|, CapabilityOrder(codec));
  }

  lemma CutNormal(codec: Codec, r: Report, now: Time, clampFuture: bool, b: Report)
    requires Lawful(codec) && Cut(b, Unfitted(codec, r, now, clampFuture))
    ensures Normal(b)
  {
    NormalizedIsNormal(r, now, clampFuture);
    CutLists(codec, r, now, clampFuture, b);
    CutParts(codec, r, now, clampFuture, b);
    CutCapabilities(codec, r, now, clampFuture, b);
  }

  lemma SettledStructure(codec: Codec, b: Report)
    requires ListsSettled(codec, b) && PartsSettled(b)
    requires Sorted(b.capabilities, CapabilityOrder(codec)) && |b.capabilities| <= CLIENT_REPORT_MAX_CAPABILITIES
    ensures |Deduplicated(codec, b.capabilities)| <= |b.capabilities|
    ensures Structured(codec, b) == b.(capabilities := Deduplicated(codec, b.capabilities))
    ensures StructureChanged(codec, b) <==> |Deduplicated(codec, b.capabilities)| != |b.capabilities|
  {
    DeduplicatedSorted(codec, b.capabilities);
    var s := Structured(codec, b);
    assert s.hardware == b.hardware && s.cpu == b.cpu;
    assert s.capabilities == Deduplicated(codec, b.capabilities);
    assert s.networks == b.networks && s.disks == b.disks && s.temperatures == b.temperatures && s.gpus == b.gpus;
  }

  /** What the second pass finds: every list but the capabilities in order, every element normal. */
  lemma SecondCanonical(codec: Codec, b: Report, later: Time, clampLater: bool)
    requires Normal(b) && ListsSettled(codec, b) && PartsSettled(b)
    requires Sorted(b.capabilities, CapabilityOrder(codec)) && |b.capabilities| <= CLIENT_REPORT_MAX_CAPABILITIES
    requires NormTime(b.collectedAt, later, clampLater) == b.collectedAt
    ensures Normalized(b, later, clampLater) == b
    ensures |Deduplicated(codec, b.capabilities)| <= |b.capabilities|
    ensures Canonical(codec, b, later, clampLater) ==
              (b.(capabilities := Deduplicated(codec, b.capabilities)),
               |Deduplicated(codec, b.capabilities)| != |b.capabilities|)
  {
    NormalIsFixed(b, later, clampLater);
    SettledStructure(codec, b);
  }

  /** A bounded report whose capability keys are unique and that fits is bounded to itself. */
  lemma FixedWhenUnique(codec: Codec, b: Report, later: Time, clampLater: bool)
    requires Fits(codec, b) && Canonical(codec, b, later, clampLater) == (b, false)
    ensures Bounded(codec, b, later, clampLater) == (b, false)
  {
    var n := Normalized(b, later, clampLater);
    assert Unfitted(codec, b, later, clampLater) == b;
    var m := MinimaOf(codec, b, n);
    FitResult(codec, b, m.network, m.disk, m.temperature, m.gpu);
  }

  lemma BoundedCut(codec: Codec, r: Report, now: Time, clampFuture: bool)
    ensures Cut(Bounded(codec, r, now, clampFuture).0, Unfitted(codec, r, now, clampFuture))
  {
    var u := Unfitted(codec, r, now, clampFuture);
    var m := MinimaOf(codec, u, Normalized(r, now, clampFuture));
    FitResult(codec, u, m.network, m.disk, m.temperature, m.gpu);
  }

  lemma DuplicateIsMarked(codec: Codec, r: Report, now: Time, clampFuture: bool, b: Report)
    requires Lawful(codec) && Cut(b, Unfitted(codec, r, now, clampFuture))
    requires MarkerDuplicated(r, |b.capabilities|)
    ensures Marked(b.capabilities)
  {
    UnfittedCases(codec, r, now, clampFuture);
    WithMarkerFacts(codec, CanonicalCapabilities(codec, r));
    assert IsMarker(b.capabilities[0]);
  }

  /** Whether a second pass leaves the time of the bounded report alone. */
  predicate TimeSettled(codec: Codec, r: Report, now: Time, clampFuture: bool, later: Time, clampLater: bool) {
    var b := Bounded(codec, r, now, clampFuture).0;
    NormTime(b.collectedAt, later, clampLater) == b.collectedAt
  }

  /** It does whenever it does not clamp, and whenever both passes clamp and the clock has not gone back. */
  lemma LaterIsSettled(codec: Codec, r: Report, now: Time, clampFuture: bool, later: Time, clampLater: bool)
    requires clampLater ==> clampFuture && now <= later
    ensures TimeSettled(codec, r, now, clampFuture, later, clampLater)
  {
    BoundedCut(codec, r, now, clampFuture);
    assert Bounded(codec, r, now, clampFuture).0.collectedAt == NormTime(r.collectedAt, now, clampFuture);
  }

  lemma UnsettledTime(codec: Codec, b: Report, later: Time, clampLater: bool)
    requires NormTime(b.collectedAt, later, clampLater) != b.collectedAt
    ensures Bounded(codec, b, later, clampLater).0 != b && Bounded(codec, b, later, clampLater).1
  {
    BoundedCut(codec, b, later, clampLater);
    assert Normalized(b, later, clampLater).collectedAt != b.collectedAt;
    assert Bounded(codec, b, later, clampLater).0.collectedAt == NormTime(b.collectedAt, later, clampLater);
  }

  lemma SettledFixedPoint(codec: Codec, r: Report, now: Time, clampFuture: bool, later: Time, clampLater: bool)
    requires Lawful(codec) && TimeSettled(codec, r, now, clampFuture, later, clampLater)
    requires Fits(codec, Bounded(codec, r, now, clampFuture).0)
    ensures var b := Bounded(codec, r, now, clampFuture).0;
            && (!MarkerDuplicated(r, |b.capabilities|) <==> Bounded(codec, b, later, clampLater).0 == b)
            && (!MarkerDuplicated(r, |b.capabilities|) <==> Bounded(codec, b, later, clampLater).1 == false)
  {
    var b := Bounded(codec, r, now, clampFuture).0;
    BoundedCut(codec, r, now, clampFuture);
    CutNormal(codec, r, now, clampFuture, b);
    CutLists(codec, r, now, clampFuture, b);
    CutParts(codec, r, now, clampFuture, b);
    CutCapabilities(codec, r, now, clampFuture, b);
    SecondCanonical(codec, b, later, clampLater);
    DeduplicatedSorted(codec, b.capabilities);
    if MarkerDuplicated(r, |b.capabilities|) {
      DuplicateIsMarked(codec, r, now, clampFuture, b);
      BoundedCut(codec, b, later, clampLater);
      assert |Bounded(codec, b, later, clampLater).0.capabilities| <= |Deduplicated(codec, b.capabilities)|;
    } else {
      assert Canonical(codec, b, later, clampLater) == (b, false);
      FixedWhenUnique(codec, b, later, clampLater);
    }
  }

  /**
   Bounding a bounded report again, at any clock and under any pair of time policies, changes nothing
   and reports nothing, if and only if its time is settled and the marker was not added next to an
   entry with its own key.
   */
  lemma FixedPoint(codec: Codec, r: Report, now: Time, clampFuture: bool, later: Time, clampLater: bool)
    requires Lawful(codec)
    requires Fits(codec, Bounded(codec, r, now, clampFuture).0)
    ensures var b := Bounded(codec, r, now, clampFuture).0;
            var fixed := TimeSettled(codec, r, now, clampFuture, later, clampLater) && !MarkerDuplicated(r, |b.capabilities|);
            && (fixed <==> Bounded(codec, b, later, clampLater).0 == b)
            && (fixed <==> Bounded(codec, b, later, clampLater).1 == false)
  {
    if TimeSettled(codec, r, now, clampFuture, later, clampLater) {
      SettledFixedPoint(codec, r, now, clampFuture, later, clampLater);
    } else {
      UnsettledTime(codec, Bounded(codec, r, now, clampFuture).0, later, clampLater);
    }
  }

  /** How many capabilities a marked report holds when the byte limit takes none of them. */
  function Retained(codec: Codec, r: Report): nat {
    AtMost(|Deduplicated(codec, Map(r.capabilities, NormCapability))| + 1, CLIENT_REPORT_MAX_CAPABILITIES)
  }

  lemma RetainedCount(codec: Codec, r: Report, now: Time, clampFuture: bool)
    requires Lawful(codec) && !Marked(r.capabilities) && HoldsMarkerKey(Map(r.capabilities, NormCapability))
    ensures |Unfitted(codec, r, now, clampFuture).capabilities| == Retained(codec, r)
  {
    DuplicatedIsMarkedNow(codec, r, now, clampFuture);
    CapabilitySort(codec, CanonicalCapabilities(codec, r) + [MARKER]);
  }

  lemma DuplicatedWhenRetained(codec: Codec, r: Report, now: Time, clampFuture: bool)
    requires Lawful(codec)
    ensures MarkerDuplicated(r, |Bounded(codec, r, now, clampFuture).0.capabilities|) ==>
              MarkerDuplicated(r, Retained(codec, r))
  {
    BoundedCut(codec, r, now, clampFuture);
    if !Marked(r.capabilities) && HoldsMarkerKey(Map(r.capabilities, NormCapability)) {
      RetainedCount(codec, r, now, clampFuture);
    }
  }

  /** A condition on the raw report alone under which bounding is a fixed point, whatever the byte limit takes. */
  lemma FixedPointRaw(codec: Codec, r: Report, now: Time, clampFuture: bool, later: Time, clampLater: bool)
    requires Lawful(codec) && !MarkerDuplicated(r, Retained(codec, r))
    requires TimeSettled(codec, r, now, clampFuture, later, clampLater)
    requires Fits(codec, Bounded(codec, r, now, clampFuture).0)
    ensures var b := Bounded(codec, r, now, clampFuture).0;
            Bounded(codec, b, later, clampLater) == (b, false)
  {
    DuplicatedWhenRetained(codec, r, now, clampFuture);
    FixedPoint(codec, r, now, clampFuture, later, clampLater);
  }

  /** When the byte limit takes nothing, that condition is exact. */
  lemma FixedPointUncut(codec: Codec, r: Report, now: Time, clampFuture: bool, later: Time, clampLater: bool)
    requires Lawful(codec)
    requires Fits(codec, Unfitted(codec, r, now, clampFuture))
    ensures var b := Bounded(codec, r, now, clampFuture).0;
            Bounded(codec, b, later, clampLater).0 == b <==>
              TimeSettled(codec, r, now, clampFuture, later, clampLater) && !MarkerDuplicated(r, Retained(codec, r))
  {
    UncutWhenFitting(codec, r, now, clampFuture);
    FixedPoint(codec, r, now, clampFuture, later, clampLater);
    if !Marked(r.capabilities) && HoldsMarkerKey(Map(r.capabilities, NormCapability)) {
      RetainedCount(codec, r, now, clampFuture);
    }
  }

  predicate NoneHidden(raw: seq<Capability>, normalised: seq<Capability>)
    requires |raw| == |normalised|
  {
    forall i | 0 <= i < |raw| :: IsMarker(normalised[i]) ==> IsMarker(raw[i])
  }

  /** No capability only becomes the marker by normalisation. */
  predicate NoHiddenMarker(r: Report) {
    NoneHidden(r.capabilities, Map(r.capabilities, NormCapability))
  }

  lemma NothingHidden(raw: seq<Capability>, normalised: seq<Capability>, kept: nat)
    requires |raw| == |normalised| && NoneHidden(raw, normalised)
    ensures !DuplicatesMarker(raw, normalised, kept)
  {
    if HoldsMarkerKey(normalised) {
      var i :| 0 <= i < |normalised| && NameAndSource(normalised[i]) == NameAndSource(MARKER);
      assert IsMarker(raw[i]);
    }
  }

  lemma FixedWithoutHiddenMarker(codec: Codec, r: Report, now: Time, clampFuture: bool, later: Time, clampLater: bool)
    requires Lawful(codec) && NoHiddenMarker(r)
    requires TimeSettled(codec, r, now, clampFuture, later, clampLater)
    requires Fits(codec, Bounded(codec, r, now, clampFuture).0)
    ensures var b := Bounded(codec, r, now, clampFuture).0;
            Bounded(codec, b, later, clampLater) == (b, false)
  {
    NothingHidden(r.capabilities, Map(r.capabilities, NormCapability), |Bounded(codec, r, now, clampFuture).0.capabilities|);
    FixedPoint(codec, r, now, clampFuture, later, clampLater);
  }

  const HIDDEN_MARKER := Capability(TRUNCATED_CAPABILITY + "\n", true, TRUNCATED_SOURCE, None, None)

  lemma LineFeedIsDropped(s: string, maximum: nat, fallback: string)
    requires Printable(s) && 0 < |s| <= maximum && s[0] != ' '
    ensures RequiredText(s + "\n", maximum, fallback) == s == RequiredText(s, maximum, fallback)
  {
    PrintableIsClean(s, maximum);
    StripControlsConcat(s, "\n");
    StripControlsStrips(s);
    assert StripControls("\n") == "";
    StripAndTruncateCleans(s, maximum);
    assert StripControls(s + "\n") == StripControls(s);
  }

  lemma HiddenMarkerNormalises(c: Capability, marker: Capability)
    requires c.name == marker.name + "\n" && c.source == marker.source
    requires Printable(marker.name) && 0 < |marker.name| <= CLIENT_REPORT_MAX_CAPABILITY_NAME_BYTES && marker.name[0] != ' '
    requires NormCapability(marker) == marker
    ensures c.name != marker.name && NameAndSource(NormCapability(c)) == NameAndSource(marker)
  {
    LineFeedIsDropped(marker.name, CLIENT_REPORT_MAX_CAPABILITY_NAME_BYTES, "unknown.capability");
    assert |c.name| == |marker.name| + 1;
  }

  lemma NothingEarlier(c: Capability)
    requires NameAndSource(c) == NameAndSource(MARKER)
    ensures EarlierMarkers([c]) == {} && HoldsMarkerKey([c])
  {
    assert !KeyBefore(c, MARKER);
    assert [c][0] == c;
  }

  lemma LoneDuplicate(raw: Capability, c: Capability)
    requires !IsMarker(raw) && NameAndSource(c) == NameAndSource(MARKER)
    ensures DuplicatesMarker([raw], [c], 2)
  {
    NothingEarlier(c);
  }

  lemma LoneKept(codec: Codec, r: Report, c: Capability)
    requires Injective(codec.capability) && CLIENT_REPORT_MAX_CAPABILITIES >= 2
    requires Map(r.capabilities, NormCapability) == [c]
    ensures |WithMarker(codec, CanonicalCapabilities(codec, r))| == 2
  {
    SortOfSorted([c], CapabilityOrder(codec));
    assert CanonicalCapabilities(codec, r) == [c];
    CapabilitySort(codec, [c] + [MARKER]);
  }

  lemma SingleMap(c: Capability)
    ensures Map([c], NormCapability) == [NormCapability(c)]
  {
  }

  lemma DuplicatedIsMarkedNow(codec: Codec, r: Report, now: Time, clampFuture: bool)
    requires !Marked(r.capabilities) && HoldsMarkerKey(Map(r.capabilities, NormCapability))
    ensures Unfitted(codec, r, now, clampFuture).capabilities == WithMarker(codec, CanonicalCapabilities(codec, r))
  {
    UnfittedCases(codec, r, now, clampFuture);
  }

  lemma UncutWhenFitting(codec: Codec, r: Report, now: Time, clampFuture: bool)
    requires Fits(codec, Unfitted(codec, r, now, clampFuture))
    ensures Bounded(codec, r, now, clampFuture).0 == Unfitted(codec, r, now, clampFuture)
  {
    var u := Unfitted(codec, r, now, clampFuture);
    var m := MinimaOf(codec, u, Normalized(r, now, clampFuture));
    FitResult(codec, u, m.network, m.disk, m.temperature, m.gpu);
  }

  /** A report with one capability named like the marker but for a line feed is not bounded to a fixed point. */
  lemma HiddenMarkerIsNotFixed(codec: Codec, r: Report, now: Time, later: Time, clampLater: bool)
    requires Lawful(codec) && CLIENT_REPORT_MAX_CAPABILITIES >= 2 && now <= later
    requires r.capabilities == [HIDDEN_MARKER]
    requires Fits(codec, Unfitted(codec, r, now, true))
    ensures var b := Bounded(codec, r, now, true).0;
            Fits(codec, b) && Bounded(codec, b, later, clampLater).0 != b
  {
    HiddenMarkerIsHidden();
    SingleMap(HIDDEN_MARKER);
    LoneDuplicate(HIDDEN_MARKER, NormCapability(HIDDEN_MARKER));
    LoneKept(codec, r, NormCapability(HIDDEN_MARKER));
    DuplicatedIsMarkedNow(codec, r, now, true);
    UncutWhenFitting(codec, r, now, true);
    LaterIsSettled(codec, r, now, true, later, clampLater);
    FixedPoint(codec, r, now, true, later, clampLater);
  }

  lemma HiddenMarkerIsHidden()
    ensures !IsMarker(HIDDEN_MARKER) && NameAndSource(NormCapability(HIDDEN_MARKER)) == NameAndSource(MARKER)
  {
    MarkerIsNormal();
    MarkerNameIsPrintable();
    HiddenMarkerNormalises(HIDDEN_MARKER, MARKER);
  }
}
