/** Merging generic Windows adapter readings into NVML readings without counting a device twice. */
module GpuMerge {
  import opened Wrappers
  import opened Sorting
  import opened ReportText
  import opened ReportModel
  import NvidiaIdentity

  /** One reading beyond the wire limit is kept so that the report contract can see the overflow. */
  const LIMIT: nat := CLIENT_REPORT_MAX_GPUS + 1

  predicate IsHexDigit(c: char) {
    '0' <= c <= '9' || 'a' <= c <= 'f' || 'A' <= c <= 'F'
  }

  predicate HexPart(s: string) {
    |s| == 8 && forall i | 0 <= i < |s| :: IsHexDigit(s[i])
  }

  /** The text before and after the first underscore. */
  function SplitOnce(s: string): Option<(string, string)> {
    if s == [] then None
    else if s[0] == '_' then Some(([], s[1..]))
    else
      match SplitOnce(s[1..])
      case None => None
      case Some(parts) => Some(([s[0]] + parts.0, parts.1))
  }

  predicate IsLuid(id: string) {
    var rest := NvidiaIdentity.StripPrefix(id, "luid_");
    rest.Some?
    && var parts := SplitOnce(rest.value);
       parts.Some? && HexPart(parts.value.0) && HexPart(parts.value.1)
  }

  lemma {:induction false} SplitOnceAt(a: string, b: string)
    requires '_' !in a
    ensures SplitOnce(a + "_" + b) == Some((a, b))
  {
    if a == [] {
      assert (a + "_" + b)[1..] == b;
    } else {
      assert (a + "_" + b)[1..] == a[1..] + "_" + b;
      SplitOnceAt(a[1..], b);
      assert a == [a[0]] + a[1..];
    }
  }

  lemma {:induction false} HexIsHex(n: nat, width: nat)
    ensures forall i | 0 <= i < width :: IsHexDigit(NvidiaIdentity.Hex(n, width)[i])
  {
    if width > 0 {
      HexIsHex(n / 16, width - 1);
    }
  }

  lemma LuidText(id: string, a: string, b: string)
    requires HexPart(a) && HexPart(b) && '_' !in a
    requires NvidiaIdentity.StripPrefix(id, "luid_") == Some(a + "_" + b)
    ensures IsLuid(id)
  {
    SplitOnceAt(a, b);
  }

  lemma StripAdded(prefix: string, rest: string)
    ensures NvidiaIdentity.StripPrefix(prefix + rest, prefix) == Some(rest)
  {
    assert (prefix + rest)[|prefix|..] == rest;
  }

  /** Every proven identity is in the form the merge recognises. */
  lemma RenderedIsLuid(luid: NvidiaIdentity.Luid)
    ensures IsLuid(NvidiaIdentity.Render(luid))
  {
    var high, low := NvidiaIdentity.LittleEndian(luid[4..]), NvidiaIdentity.LittleEndian(luid[..4]);
    var a, b := NvidiaIdentity.Hex(high, 8), NvidiaIdentity.Hex(low, 8);
    HexIsHex(high, 8);
    HexIsHex(low, 8);
    assert NvidiaIdentity.Render(luid) == "luid_" + (a + "_" + b);
    StripAdded("luid_", a + "_" + b);
    LuidText(NvidiaIdentity.Render(luid), a, b);
  }

  lemma {:induction false} SplitOnceIsWhole(s: string)
    requires SplitOnce(s).Some?
    ensures var (a, b) := SplitOnce(s).value; s == a + "_" + b && '_' !in a
  {
    if s[0] == '_' {
      assert s == [] + "_" + s[1..];
    } else {
      SplitOnceIsWhole(s[1..]);
      assert s == [s[0]] + s[1..];
    }
  }

  predicate HexAt(id: string, from: nat)
    requires from + 8 <= |id|
  {
    forall k | from <= k < from + 8 :: '0' <= id[k] <= '9' || 'a' <= id[k] <= 'f' || 'A' <= id[k] <= 'F'
  }

  /** The form of an adapter LUID: two halves of eight hexadecimal digits each. */
  lemma LuidExactly(id: string)
    ensures IsLuid(id) <==> |id| == 22 && id[..5] == "luid_" && id[13] == '_' && HexAt(id, 5) && HexAt(id, 14)
  {
    if IsLuid(id) {
      SplitOnceIsWhole(id[5..]);
      var (a, b) := SplitOnce(id[5..]).value;
      assert id == "luid_" + (a + "_" + b);
      forall k | 0 <= k < 8 ensures id[5 + k] == a[k] && id[14 + k] == b[k] {
      }
      assert HexAt(id, 5) by { assert forall k | 5 <= k < 13 :: id[k] == a[k - 5]; }
      assert HexAt(id, 14) by { assert forall k | 14 <= k < 22 :: id[k] == b[k - 14]; }
    }
    if |id| == 22 && id[..5] == "luid_" && id[13] == '_' && HexAt(id, 5) && HexAt(id, 14) {
      var a, b := id[5..13], id[14..];
      assert id[5..] == a + "_" + b;
      LuidText(id, a, b);
    }
  }

  // ----- One supplement -----

  function OrElse<T>(a: Option<T>, b: Option<T>): Option<T> {
    if a.Some? then a else b
  }

  /** The primary with its missing memory numbers filled, and whether the two readings were compatible. */
  function SupplementMemory(primary: Gpu, fallback: Gpu): (Gpu, bool) {
    var fillsUsed := primary.memoryUsedBytes.None? && fallback.memoryUsedBytes.Some?;
    var fillsTotal := primary.memoryTotalBytes.None? && fallback.memoryTotalBytes.Some?;
    if !fillsUsed && !fillsTotal then (primary, true)
    else
      var total := OrElse(primary.memoryTotalBytes, fallback.memoryTotalBytes);
      var used := OrElse(primary.memoryUsedBytes, fallback.memoryUsedBytes);
      var differentCapacity := && fillsUsed && primary.memoryTotalBytes.Some?
                               && primary.memoryTotalBytes != fallback.memoryTotalBytes;
      if differentCapacity || (used.Some? && total.Some? && used.value > total.value) then (primary, false)
      else (primary.(memoryTotalBytes := total, memoryUsedBytes := used), true)
  }

  const MERGED_SOURCE := "nvml+windows-dxgi-pdh"

  function Supplement(primary: Gpu, fallback: Gpu): Gpu {
    var p := SupplementMemory(primary, fallback).0;
    p.(utilizationPercent := OrElse(p.utilizationPercent, fallback.utilizationPercent),
       temperatureCelsius := OrElse(p.temperatureCelsius, fallback.temperatureCelsius),
       powerWatts := OrElse(p.powerWatts, fallback.powerWatts),
       coreClockMhz := OrElse(p.coreClockMhz, fallback.coreClockMhz),
       memoryClockMhz := OrElse(p.memoryClockMhz, fallback.memoryClockMhz),
       pcieRxBytesPerSecond := OrElse(p.pcieRxBytesPerSecond, fallback.pcieRxBytesPerSecond),
       pcieTxBytesPerSecond := OrElse(p.pcieTxBytesPerSecond, fallback.pcieTxBytesPerSecond),
       source := MERGED_SOURCE)
  }

  predicate Keeps<T(==)>(after: Option<T>, before: Option<T>) {
    before.Some? ==> after == before
  }

  /** The same device: identity, name and every value already present unchanged. */
  predicate SameDevice(after: Gpu, before: Gpu) {
    && after.id == before.id && after.vendor == before.vendor && after.name == before.name
    && Keeps(after.utilizationPercent, before.utilizationPercent)
    && Keeps(after.memoryTotalBytes, before.memoryTotalBytes)
    && Keeps(after.memoryUsedBytes, before.memoryUsedBytes)
    && Keeps(after.temperatureCelsius, before.temperatureCelsius)
    && Keeps(after.powerWatts, before.powerWatts)
    && Keeps(after.coreClockMhz, before.coreClockMhz)
    && Keeps(after.memoryClockMhz, before.memoryClockMhz)
    && Keeps(after.pcieRxBytesPerSecond, before.pcieRxBytesPerSecond)
    && Keeps(after.pcieTxBytesPerSecond, before.pcieTxBytesPerSecond)
  }

  predicate WithinCapacity(g: Gpu) {
    g.memoryUsedBytes.Some? && g.memoryTotalBytes.Some? ==> g.memoryUsedBytes.value <= g.memoryTotalBytes.value
  }

  lemma SupplementKeeps(primary: Gpu, fallback: Gpu)
    ensures SameDevice(Supplement(primary, fallback), primary)
    ensures WithinCapacity(primary) ==> WithinCapacity(Supplement(primary, fallback))
    ensures primary.memoryTotalBytes.Some? && Supplement(primary, fallback).memoryUsedBytes != primary.memoryUsedBytes ==>
              fallback.memoryTotalBytes == primary.memoryTotalBytes
  {
  }

  /** The value that was there, or else the reading's own. */
  predicate Filled<T(==)>(after: Option<T>, before: Option<T>, reading: Option<T>) {
    after == if before.Some? then before else reading
  }

  /** The memory numbers that filling would give are of one device: same capacity, and used within it. */
  predicate OneMemory(primary: Gpu, fallback: Gpu) {
    && (primary.memoryTotalBytes.Some? && primary.memoryUsedBytes.None? && fallback.memoryUsedBytes.Some? ==>
          && fallback.memoryTotalBytes == primary.memoryTotalBytes
          && fallback.memoryUsedBytes.value <= primary.memoryTotalBytes.value)
    && (primary.memoryTotalBytes.None? && fallback.memoryTotalBytes.Some? ==>
          && (primary.memoryUsedBytes.Some? ==> primary.memoryUsedBytes.value <= fallback.memoryTotalBytes.value)
          && (primary.memoryUsedBytes.None? && fallback.memoryUsedBytes.Some? ==>
                fallback.memoryUsedBytes.value <= fallback.memoryTotalBytes.value))
  }

  lemma OnlyMemory(primary: Gpu, fallback: Gpu)
    ensures var s := SupplementMemory(primary, fallback).0;
            s == primary.(memoryTotalBytes := s.memoryTotalBytes, memoryUsedBytes := s.memoryUsedBytes)
  {
  }

  /** Every gap takes the reading's own value. */
  lemma SupplementFills(primary: Gpu, fallback: Gpu)
    ensures var s := Supplement(primary, fallback);
            && Filled(s.utilizationPercent, primary.utilizationPercent, fallback.utilizationPercent)
            && Filled(s.temperatureCelsius, primary.temperatureCelsius, fallback.temperatureCelsius)
            && Filled(s.powerWatts, primary.powerWatts, fallback.powerWatts)
            && Filled(s.coreClockMhz, primary.coreClockMhz, fallback.coreClockMhz)
            && Filled(s.memoryClockMhz, primary.memoryClockMhz, fallback.memoryClockMhz)
            && Filled(s.pcieRxBytesPerSecond, primary.pcieRxBytesPerSecond, fallback.pcieRxBytesPerSecond)
            && Filled(s.pcieTxBytesPerSecond, primary.pcieTxBytesPerSecond, fallback.pcieTxBytesPerSecond)
            && s.id == primary.id && s.vendor == primary.vendor && s.name == primary.name
            && s.source == "nvml+windows-dxgi-pdh"
  {
    OnlyMemory(primary, fallback);
  }

  /** The memory numbers are filled only together, and only if they are of one device. */
  lemma MemoryFills(primary: Gpu, fallback: Gpu)
    ensures SupplementMemory(primary, fallback).1 <==> OneMemory(primary, fallback)
    ensures var s := SupplementMemory(primary, fallback).0;
            if OneMemory(primary, fallback) then
              && Filled(s.memoryUsedBytes, primary.memoryUsedBytes, fallback.memoryUsedBytes)
              && Filled(s.memoryTotalBytes, primary.memoryTotalBytes, fallback.memoryTotalBytes)
            else
              s.memoryUsedBytes == primary.memoryUsedBytes && s.memoryTotalBytes == primary.memoryTotalBytes
    ensures Supplement(primary, fallback).memoryUsedBytes == SupplementMemory(primary, fallback).0.memoryUsedBytes
    ensures Supplement(primary, fallback).memoryTotalBytes == SupplementMemory(primary, fallback).0.memoryTotalBytes
  {
  }

  // ----- Where a generic reading goes -----

  datatype Fate = Appended | Absorbed(index: nat) | Withheld

  function MatchesAmong(luids: seq<Option<string>>, n: nat, id: string): seq<nat> {
    if n == 0 then []
    else MatchesAmong(luids, n - 1, id) + (if n <= |luids| && luids[n - 1] == Some(id) then [n - 1] else [])
  }

  predicate Nvidia(g: Gpu) {
    g.vendor == "nvidia"
  }

  function SameIdentity(generic: seq<Gpu>, id: string): seq<Gpu> {
    Filter(generic, (g: Gpu) => Nvidia(g) && g.id == id)
  }

  predicate AllIdentified(luids: seq<Option<string>>, n: nat) {
    && |luids| == n
    && forall i | 0 <= i < |luids| ::
         && luids[i].Some? && IsLuid(luids[i].value)
         && |MatchesAmong(luids, |luids|, luids[i].value)| == 1
  }

  function FateOf(g: Gpu, generic: seq<Gpu>, luids: seq<Option<string>>, n: nat): Fate {
    if !Nvidia(g) || n == 0 then Appended
    else
      var matches := MatchesAmong(luids, n, g.id);
      var unique := |SameIdentity(generic, g.id)| == 1;
      if IsLuid(g.id) && |matches| == 1 && unique then Absorbed(matches[0])
      else if AllIdentified(luids, n) && IsLuid(g.id) && matches == [] && unique then Appended
      else Withheld
  }

  lemma {:induction false} MatchesFacts(luids: seq<Option<string>>, n: nat, id: string)
    ensures forall m | m in MatchesAmong(luids, n, id) :: m < n && m < |luids| && luids[m] == Some(id)
    ensures forall i | 0 <= i < n && i < |luids| && luids[i] == Some(id) :: i in MatchesAmong(luids, n, id)
  {
    if n > 0 {
      MatchesFacts(luids, n - 1, id);
    }
  }

  lemma {:induction false} FilterCountsTwo<T>(xs: seq<T>, keep: T -> bool, i: nat, j: nat)
    requires i < j < |xs| && keep(xs[i]) && keep(xs[j])
    ensures |Filter(xs, keep)| >= 2
  {
    if i == 0 {
      FilterCountsOne(xs[1..], keep, j - 1);
    } else {
      FilterCountsTwo(xs[1..], keep, i - 1, j - 1);
    }
  }

  lemma {:induction false} FilterCountsOne<T>(xs: seq<T>, keep: T -> bool, i: nat)
    requires i < |xs| && keep(xs[i])
    ensures |Filter(xs, keep)| >= 1
  {
    if i > 0 {
      FilterCountsOne(xs[1..], keep, i - 1);
    }
  }

  /** A unique NVIDIA reading is at one place in the enumeration. */
  lemma UniqueReading(generic: seq<Gpu>, k: nat, l: nat)
    requires k < |generic| && l < |generic| && Nvidia(generic[k]) && Nvidia(generic[l])
    requires generic[k].id == generic[l].id && |SameIdentity(generic, generic[k].id)| == 1
    ensures k == l
  {
    var keep := (g: Gpu) => Nvidia(g) && g.id == generic[k].id;
    if k < l {
      FilterCountsTwo(generic, keep, k, l);
    } else if l < k {
      FilterCountsTwo(generic, keep, l, k);
    }
  }

  lemma AbsorbedBy(g: Gpu, generic: seq<Gpu>, luids: seq<Option<string>>, n: nat)
    requires FateOf(g, generic, luids, n).Absorbed?
    ensures var i := FateOf(g, generic, luids, n).index;
            && i < n && i < |luids| && luids[i] == Some(g.id)
            && (forall j | 0 <= j < n && j < |luids| && j != i :: luids[j] != Some(g.id))
    ensures IsLuid(g.id) && Nvidia(g) && |SameIdentity(generic, g.id)| == 1
  {
    var matches := MatchesAmong(luids, n, g.id);
    MatchesFacts(luids, n, g.id);
    assert matches[0] in matches;
  }

  /** Each NVML device absorbs at most one generic reading. */
  lemma AbsorbsAtMostOne(generic: seq<Gpu>, luids: seq<Option<string>>, n: nat, k: nat, l: nat)
    requires k < |generic| && l < |generic|
    requires FateOf(generic[k], generic, luids, n).Absorbed?
    requires FateOf(generic[k], generic, luids, n) == FateOf(generic[l], generic, luids, n)
    ensures k == l
    ensures FateOf(generic[k], generic, luids, n).index < n
    ensures FateOf(generic[k], generic, luids, n).index < |luids|
    ensures luids[FateOf(generic[k], generic, luids, n).index] == Some(generic[k].id)
  {
    AbsorbedBy(generic[k], generic, luids, n);
    AbsorbedBy(generic[l], generic, luids, n);
    UniqueReading(generic, k, l);
  }

  lemma IdentifiedApart(luids: seq<Option<string>>, n: nat)
    requires AllIdentified(luids, n)
    ensures forall i, j | 0 <= i < j < n :: luids[i] != luids[j]
  {
    forall i, j | 0 <= i < j < n ensures luids[i] != luids[j] {
      if luids[i] == luids[j] {
        var matches := MatchesAmong(luids, n, luids[i].value);
        MatchesFacts(luids, n, luids[i].value);
      }
    }
  }

  /** With NVML devices present, an appended NVIDIA reading is a proven other adapter, seen once. */
  lemma AppendedIsAnother(generic: seq<Gpu>, luids: seq<Option<string>>, n: nat, k: nat)
    requires 0 < n && k < |generic| && Nvidia(generic[k])
    requires FateOf(generic[k], generic, luids, n) == Appended
    ensures |luids| == n && IsLuid(generic[k].id)
    ensures forall i | 0 <= i < n :: luids[i].Some? && IsLuid(luids[i].value) && luids[i] != Some(generic[k].id)
    ensures forall i, j | 0 <= i < j < n :: luids[i] != luids[j]
    ensures forall l | 0 <= l < |generic| && l != k && Nvidia(generic[l]) :: generic[l].id != generic[k].id
  {
    MatchesFacts(luids, n, generic[k].id);
    IdentifiedApart(luids, n);
    forall l | 0 <= l < |generic| && l != k && Nvidia(generic[l]) ensures generic[l].id != generic[k].id {
      if generic[l].id == generic[k].id {
        UniqueReading(generic, k, l);
      }
    }
  }

  // ----- When each fate is due -----

  /** Exactly the device at `i`, and no other, was associated with this identity. */
  predicate AloneAt(luids: seq<Option<string>>, n: nat, i: nat, id: string) {
    && i < n && i < |luids| && luids[i] == Some(id)
    && forall j | 0 <= j < n && j < |luids| && j != i :: luids[j] != Some(id)
  }

  predicate Unassociated(luids: seq<Option<string>>, n: nat, id: string) {
    forall j | 0 <= j < n && j < |luids| :: luids[j] != Some(id)
  }

  /** No other NVIDIA reading has the identity of the one at `k`. */
  predicate SeenOnce(generic: seq<Gpu>, k: nat)
    requires k < |generic|
  {
    forall l | 0 <= l < |generic| && l != k && Nvidia(generic[l]) :: generic[l].id != generic[k].id
  }

  /** Every device is associated with an adapter of its own. */
  predicate AllAssociated(luids: seq<Option<string>>, n: nat) {
    && |luids| == n
    && (forall i | 0 <= i < n :: luids[i].Some? && IsLuid(luids[i].value))
    && (forall i, j | 0 <= i < j < n :: luids[i] != luids[j])
  }

  lemma {:induction false} FilterOfOne<T>(xs: seq<T>, keep: T -> bool, k: nat)
    requires k < |xs| && keep(xs[k]) && forall l | 0 <= l < |xs| && l != k :: !keep(xs[l])
    ensures |Filter(xs, keep)| == 1
  {
    if k == 0 {
      FilterOfNone(xs[1..], keep);
    } else {
      FilterOfOne(xs[1..], keep, k - 1);
    }
  }

  lemma {:induction false} FilterOfNone<T>(xs: seq<T>, keep: T -> bool)
    requires forall l | 0 <= l < |xs| :: !keep(xs[l])
    ensures Filter(xs, keep) == []
  {
    if xs != [] {
      FilterOfNone(xs[1..], keep);
    }
  }

  lemma SeenOnceCounts(generic: seq<Gpu>, k: nat)
    requires k < |generic| && Nvidia(generic[k])
    ensures |SameIdentity(generic, generic[k].id)| == 1 <==> SeenOnce(generic, k)
  {
    var keep := (g: Gpu) => Nvidia(g) && g.id == generic[k].id;
    if SeenOnce(generic, k) {
      FilterOfOne(generic, keep, k);
    } else {
      var l :| 0 <= l < |generic| && l != k && Nvidia(generic[l]) && generic[l].id == generic[k].id;
      if l < k {
        FilterCountsTwo(generic, keep, l, k);
      } else {
        FilterCountsTwo(generic, keep, k, l);
      }
    }
  }

  lemma {:induction false} NoMatches(luids: seq<Option<string>>, n: nat, id: string)
    ensures MatchesAmong(luids, n, id) == [] <==> Unassociated(luids, n, id)
  {
    if n > 0 {
      NoMatches(luids, n - 1, id);
    }
  }

  lemma AppendedSingle(before: seq<nat>, last: nat, i: nat)
    ensures before + [last] == [i] <==> before == [] && last == i
  {
    if before + [last] == [i] {
      assert |before + [last]| == 1;
      assert (before + [last])[|before|] == last;
    }
  }

  lemma {:induction false} OneMatch(luids: seq<Option<string>>, n: nat, id: string, i: nat)
    ensures MatchesAmong(luids, n, id) == [i] <==> AloneAt(luids, n, i, id)
  {
    if n > 0 {
      NoMatches(luids, n - 1, id);
      OneMatch(luids, n - 1, id, i);
      AppendedSingle(MatchesAmong(luids, n - 1, id), n - 1, i);
      AloneAmongOneMore(luids, n, i, id);
      assert MatchesAmong(luids, n - 1, id) + [] == MatchesAmong(luids, n - 1, id);
    }
  }

  lemma AloneAmongOneMore(luids: seq<Option<string>>, n: nat, i: nat, id: string)
    requires n > 0
    ensures AloneAt(luids, n, i, id) <==>
              if n <= |luids| && luids[n - 1] == Some(id) then i == n - 1 && Unassociated(luids, n - 1, id)
              else AloneAt(luids, n - 1, i, id)
  {
  }

  lemma AllAssociatedExactly(luids: seq<Option<string>>, n: nat)
    ensures AllIdentified(luids, n) <==> AllAssociated(luids, n)
  {
    if AllIdentified(luids, n) {
      IdentifiedApart(luids, n);
    }
    if AllAssociated(luids, n) {
      forall i | 0 <= i < n ensures |MatchesAmong(luids, n, luids[i].value)| == 1 {
        OneMatch(luids, n, luids[i].value, i);
      }
    }
  }

  /**
   What becomes of every reading. One of another vendor, or with no NVML device present, is appended. An NVIDIA one
   seen once is absorbed by the one device associated with it, and appended if every device is associated with some
   other adapter; anything else might be one of the devices already there and is withheld.
   */
  lemma FateExactly(generic: seq<Gpu>, luids: seq<Option<string>>, n: nat, k: nat)
    requires k < |generic|
    ensures var g, fate := generic[k], FateOf(generic[k], generic, luids, n);
            if g.vendor != "nvidia" || n == 0 then fate == Appended
            else
              && (forall i :: fate == Absorbed(i) <==> IsLuid(g.id) && SeenOnce(generic, k) && AloneAt(luids, n, i, g.id))
              && (fate == Appended <==>
                    IsLuid(g.id) && SeenOnce(generic, k) && AllAssociated(luids, n) && Unassociated(luids, n, g.id))
  {
    var g := generic[k];
    if Nvidia(g) && n > 0 {
      SeenOnceCounts(generic, k);
      AllAssociatedExactly(luids, n);
      NoMatches(luids, n, g.id);
      var matches := MatchesAmong(luids, n, g.id);
      forall i: nat ensures matches == [i] <==> AloneAt(luids, n, i, g.id) {
        OneMatch(luids, n, g.id, i);
      }
      if |matches| == 1 {
        assert matches == [matches[0]];
      }
    }
  }

  // ----- The merge -----

  function Fates(generic: seq<Gpu>, luids: seq<Option<string>>, n: nat): seq<Fate> {
    seq(|generic|, k requires 0 <= k < |generic| => FateOf(generic[k], generic, luids, n))
  }

  /** The readings appended among the first `k`. */
  function Additions(generic: seq<Gpu>, fates: seq<Fate>, k: nat): seq<Gpu>
    requires k <= |generic| == |fates|
  {
    if k == 0 then []
    else Additions(generic, fates, k - 1) + if fates[k - 1] == Appended then [generic[k - 1]] else []
  }

  /** An NVML device after the first `k` readings: supplemented by the one absorbed into it, if any. */
  function DeviceAfter(device: Gpu, generic: seq<Gpu>, fates: seq<Fate>, k: nat, i: nat): Gpu
    requires k <= |generic| == |fates|
  {
    if k == 0 then device
    else
      var before := DeviceAfter(device, generic, fates, k - 1, i);
      if fates[k - 1] == Absorbed(i) then Supplement(before, generic[k - 1]) else before
  }

  function WithheldAmong(fates: seq<Fate>, k: nat): nat
    requires k <= |fates|
  {
    if k == 0 then 0 else WithheldAmong(fates, k - 1) + if fates[k - 1].Withheld? then 1 else 0
  }

  /** The absorbed readings whose memory did not fit the device's. */
  function IncompatibleAmong(gpus: seq<Gpu>, generic: seq<Gpu>, fates: seq<Fate>, k: nat): nat
    requires k <= |generic| == |fates|
  {
    if k == 0 then 0
    else
      var fate := fates[k - 1];
      IncompatibleAmong(gpus, generic, fates, k - 1)
      + if fate.Absorbed? && fate.index < |gpus|
           && !SupplementMemory(DeviceAfter(gpus[fate.index], generic, fates, k - 1, fate.index), generic[k - 1]).1
        then 1 else 0
  }

  function Devices(gpus: seq<Gpu>, generic: seq<Gpu>, fates: seq<Fate>, k: nat): seq<Gpu>
    requires k <= |generic| == |fates|
  {
    seq(|gpus|, i requires 0 <= i < |gpus| => DeviceAfter(gpus[i], generic, fates, k, i))
  }

  function Room(n: nat): nat {
    if n >= LIMIT then 0 else LIMIT - n
  }

  function Merged(gpus: seq<Gpu>, generic: seq<Gpu>, fates: seq<Fate>, k: nat): seq<Gpu>
    requires k <= |generic| == |fates|
  {
    Devices(gpus, generic, fates, k) + Truncate(Additions(generic, fates, k), Room(|gpus|))
  }

  predicate AbsorbOnce(fates: seq<Fate>, n: nat) {
    && (forall k | 0 <= k < |fates| && fates[k].Absorbed? :: fates[k].index < n)
    && (forall k, l | 0 <= k < l < |fates| && fates[k].Absorbed? :: fates[k] != fates[l])
  }

  lemma FatesAbsorbOnce(generic: seq<Gpu>, luids: seq<Option<string>>, n: nat)
    ensures AbsorbOnce(Fates(generic, luids, n), n)
  {
    var fates := Fates(generic, luids, n);
    forall k | 0 <= k < |fates| && fates[k].Absorbed?
      ensures fates[k].index < n && forall l | k < l < |fates| :: fates[k] != fates[l]
    {
      AbsorbsAtMostOne(generic, luids, n, k, k);
      forall l | k < l < |fates| ensures fates[k] != fates[l] {
        if fates[k] == fates[l] {
          AbsorbsAtMostOne(generic, luids, n, k, l);
        }
      }
    }
  }

  lemma {:induction false} DeviceAfterKeeps(device: Gpu, generic: seq<Gpu>, fates: seq<Fate>, k: nat, i: nat)
    requires k <= |generic| == |fates|
    ensures SameDevice(DeviceAfter(device, generic, fates, k, i), device)
    ensures WithinCapacity(device) ==> WithinCapacity(DeviceAfter(device, generic, fates, k, i))
  {
    if k > 0 {
      DeviceAfterKeeps(device, generic, fates, k - 1, i);
      SupplementKeeps(DeviceAfter(device, generic, fates, k - 1, i), generic[k - 1]);
    }
  }

  /** A device is what it was, or what it was supplemented by the one reading absorbed into it. */
  lemma {:induction false} DeviceAfterExactly(device: Gpu, generic: seq<Gpu>, fates: seq<Fate>, n: nat, k: nat, i: nat)
    requires k <= |generic| == |fates| && AbsorbOnce(fates, n)
    ensures (forall l | 0 <= l < k :: fates[l] != Absorbed(i)) ==> DeviceAfter(device, generic, fates, k, i) == device
    ensures forall l | 0 <= l < k && fates[l] == Absorbed(i) ::
              DeviceAfter(device, generic, fates, k, i) == Supplement(device, generic[l])
  {
    if k > 0 {
      DeviceAfterExactly(device, generic, fates, n, k - 1, i);
    }
  }

  function AppendedAt(fates: seq<Fate>, k: nat): seq<nat>
    requires k <= |fates|
  {
    if k == 0 then [] else AppendedAt(fates, k - 1) + if fates[k - 1] == Appended then [k - 1] else []
  }

  lemma {:induction false} AppendedAtFacts(fates: seq<Fate>, k: nat)
    requires k <= |fates|
    ensures forall a | 0 <= a < |AppendedAt(fates, k)| :: AppendedAt(fates, k)[a] < k
    ensures forall a | 0 <= a < |AppendedAt(fates, k)| :: fates[AppendedAt(fates, k)[a]] == Appended
    ensures forall a, b | 0 <= a < b < |AppendedAt(fates, k)| :: AppendedAt(fates, k)[a] < AppendedAt(fates, k)[b]
  {
    if k > 0 {
      AppendedAtFacts(fates, k - 1);
    }
  }

  lemma {:induction false} AdditionsAt(generic: seq<Gpu>, fates: seq<Fate>, k: nat)
    requires k <= |generic| == |fates|
    ensures |AppendedAt(fates, k)| == |Additions(generic, fates, k)|
    ensures forall a | 0 <= a < |AppendedAt(fates, k)| ::
              AppendedAt(fates, k)[a] < k && Additions(generic, fates, k)[a] == generic[AppendedAt(fates, k)[a]]
  {
    if k > 0 {
      AdditionsAt(generic, fates, k - 1);
    }
  }

  /** Every appended reading is among the additions, in order. */
  lemma {:induction false} AppendedAtAll(fates: seq<Fate>, k: nat, l: nat)
    requires l < k <= |fates| && fates[l] == Appended
    ensures l in AppendedAt(fates, k)
  {
    if l < k - 1 {
      AppendedAtAll(fates, k - 1, l);
    }
  }

  lemma TailOf(gpus: seq<Gpu>, generic: seq<Gpu>, fates: seq<Fate>)
    requires |generic| == |fates|
    ensures var merged, added := Merged(gpus, generic, fates, |generic|), Additions(generic, fates, |generic|);
            && |merged| <= |gpus| + |added|
            && (|merged| == |gpus| + |added| || |merged| == if |gpus| >= LIMIT then |gpus| else LIMIT)
            && (forall a | |gpus| <= a < |merged| :: merged[a] == added[a - |gpus|])
  {
  }

  /**
   Behind the devices stand the appended readings, in their order, all of them or as many as the producer's limit
   of one more than the wire limit leaves room for.
   */
  lemma AdditionsExactly(gpus: seq<Gpu>, generic: seq<Gpu>, luids: seq<Option<string>>)
    ensures var fates := Fates(generic, luids, |gpus|);
            var at, merged := AppendedAt(fates, |generic|), Merged(gpus, generic, fates, |generic|);
            && (forall l | 0 <= l < |generic| :: l in at <==> fates[l] == Appended)
            && (forall a, b | 0 <= a < b < |at| :: at[a] < at[b])
            && |merged| <= |gpus| + |at|
            && (|| |merged| == |gpus| + |at|
                || |merged| == if |gpus| > CLIENT_REPORT_MAX_GPUS then |gpus| else CLIENT_REPORT_MAX_GPUS + 1)
            && (forall a | |gpus| <= a < |merged| :: at[a - |gpus|] < |generic| && merged[a] == generic[at[a - |gpus|]])
  {
    var fates := Fates(generic, luids, |gpus|);
    AppendedAtFacts(fates, |generic|);
    AdditionsAt(generic, fates, |generic|);
    TailOf(gpus, generic, fates);
    forall l | 0 <= l < |generic| && fates[l] == Appended ensures l in AppendedAt(fates, |generic|) {
      AppendedAtAll(fates, |generic|, l);
    }
  }

  // ----- What is disclosed -----

  /** The reading was absorbed by a device whose memory numbers it does not fit. */
  predicate Refused(gpus: seq<Gpu>, generic: seq<Gpu>, fates: seq<Fate>, l: nat)
    requires l < |generic| == |fates|
  {
    fates[l].Absorbed? && fates[l].index < |gpus| && !SupplementMemory(gpus[fates[l].index], generic[l]).1
  }

  function WithheldOnes(fates: seq<Fate>, k: nat): set<nat>
    requires k <= |fates|
  {
    set l: nat | l < k && fates[l].Withheld?
  }

  function RefusedOnes(gpus: seq<Gpu>, generic: seq<Gpu>, fates: seq<Fate>, k: nat): set<nat>
    requires k <= |generic| == |fates|
  {
    set l: nat | l < k && Refused(gpus, generic, fates, l)
  }

  lemma {:induction false} WithheldExactly(fates: seq<Fate>, k: nat)
    requires k <= |fates|
    ensures WithheldAmong(fates, k) == |WithheldOnes(fates, k)|
  {
    if k > 0 {
      WithheldExactly(fates, k - 1);
      assert WithheldOnes(fates, k) == WithheldOnes(fates, k - 1) + if fates[k - 1].Withheld? then {k - 1} else {};
    }
  }

  lemma RefusedOnesNext(gpus: seq<Gpu>, generic: seq<Gpu>, fates: seq<Fate>, k: nat)
    requires k < |generic| == |fates|
    ensures |RefusedOnes(gpus, generic, fates, k + 1)| ==
              |RefusedOnes(gpus, generic, fates, k)| + if Refused(gpus, generic, fates, k) then 1 else 0
  {
    assert RefusedOnes(gpus, generic, fates, k + 1) ==
      RefusedOnes(gpus, generic, fates, k) + if Refused(gpus, generic, fates, k) then {k} else {};
  }

  /** The device that absorbs a reading absorbed none before it. */
  lemma IncompatibleNext(gpus: seq<Gpu>, generic: seq<Gpu>, fates: seq<Fate>, n: nat, k: nat)
    requires k < |generic| == |fates| && AbsorbOnce(fates, n)
    ensures IncompatibleAmong(gpus, generic, fates, k + 1) ==
              IncompatibleAmong(gpus, generic, fates, k) + if Refused(gpus, generic, fates, k) then 1 else 0
  {
    var fate := fates[k];
    if fate.Absorbed? && fate.index < |gpus| {
      DeviceAfterExactly(gpus[fate.index], generic, fates, n, k, fate.index);
      assert forall l | 0 <= l < k :: fates[l] != fate;
      assert DeviceAfter(gpus[fate.index], generic, fates, k, fate.index) == gpus[fate.index];
    }
  }

  lemma {:induction false} RefusedExactly(gpus: seq<Gpu>, generic: seq<Gpu>, fates: seq<Fate>, n: nat, k: nat)
    requires k <= |generic| == |fates| && AbsorbOnce(fates, n)
    ensures IncompatibleAmong(gpus, generic, fates, k) == |RefusedOnes(gpus, generic, fates, k)|
  {
    if k > 0 {
      RefusedExactly(gpus, generic, fates, n, k - 1);
      RefusedOnesNext(gpus, generic, fates, k - 1);
      IncompatibleNext(gpus, generic, fates, n, k - 1);
    }
  }

  function Decimal(n: nat): string {
    (if n < 10 then "" else Decimal(n / 10)) + ["0123456789"[n % 10]]
  }

  function Message(prefix: string, between: string, rest: string, withheld: nat, incompatible: nat): string {
    prefix + Decimal(withheld) + " " + between + Decimal(incompatible) + " " + rest
  }

  const UNCERTAIN_IDENTITY := "gpu.nvidia.identity"
  const INCOMPATIBLE_MEMORY := "gpu.nvidia.memory"

  /** The capability that reports what the merge left out, with both numbers in its message. */
  function Disclosure(withheld: nat, incompatible: nat): Option<Capability> {
    if withheld == 0 && incompatible == 0 then None
    else
      Some(Capability(
             if withheld > 0 then UNCERTAIN_IDENTITY else INCOMPATIBLE_MEMORY, false, "cuda-driver/dxgi", Some(Transient),
             Some(Message("Skipped ", "DXGI NVIDIA readings with uncertain identity and ",
                          "incompatible memory supplements; NVML readings and proven compatible fields are retained",
                          withheld, incompatible))))
  }

  /** What a merge discloses. */
  function Disclosed(gpus: seq<Gpu>, generic: seq<Gpu>, fates: seq<Fate>): Option<Capability>
    requires |generic| == |fates|
  {
    Disclosure(WithheldAmong(fates, |generic|), IncompatibleAmong(gpus, generic, fates, |generic|))
  }

  lemma DisclosureCases(withheld: nat, incompatible: nat)
    ensures Disclosure(withheld, incompatible).None? <==> withheld == 0 && incompatible == 0
    ensures Disclosure(withheld, incompatible).Some? ==>
              var name := Disclosure(withheld, incompatible).value.name;
              name == if withheld > 0 then UNCERTAIN_IDENTITY else INCOMPATIBLE_MEMORY
  {
  }

  lemma DisclosureIsTransient(withheld: nat, incompatible: nat)
    requires Disclosure(withheld, incompatible).Some?
    ensures var disclosed := Disclosure(withheld, incompatible).value;
            !disclosed.available && disclosed.errorKind == Some(Transient)
  {
  }

  /**
   Something is disclosed exactly when a reading was withheld or the memory of an absorbed one was refused:
   as an identity problem if any was withheld, as a memory problem otherwise, with both numbers.
   */
  lemma DisclosedExactly(gpus: seq<Gpu>, generic: seq<Gpu>, luids: seq<Option<string>>)
    ensures var fates := Fates(generic, luids, |gpus|);
            var disclosed := Disclosed(gpus, generic, fates);
            var withheld, refused := WithheldOnes(fates, |generic|), RefusedOnes(gpus, generic, fates, |generic|);
            && (disclosed.None? <==> withheld == {} && refused == {})
            && (disclosed.Some? ==>
                  disclosed.value.name == if withheld != {} then UNCERTAIN_IDENTITY else INCOMPATIBLE_MEMORY)
            && disclosed == Disclosure(|withheld|, |refused|)
  {
    var fates := Fates(generic, luids, |gpus|);
    FatesAbsorbOnce(generic, luids, |gpus|);
    WithheldExactly(fates, |generic|);
    RefusedExactly(gpus, generic, fates, |gpus|, |generic|);
    DisclosureCases(WithheldAmong(fates, |generic|), IncompatibleAmong(gpus, generic, fates, |generic|));
  }

  lemma {:induction false} DecimalIsOneWord(n: nat)
    ensures Decimal(n) != "" && ' ' !in Decimal(n)
  {
    if n >= 10 {
      DecimalIsOneWord(n / 10);
    }
  }

  lemma {:induction false} DecimalInjective(a: nat, b: nat)
    requires Decimal(a) == Decimal(b)
    ensures a == b
  {
    var x, y := Decimal(a), Decimal(b);
    assert "0123456789"[a % 10] == x[|x| - 1] == y[|y| - 1] == "0123456789"[b % 10];
    DecimalIsOneWord(a / 10);
    DecimalIsOneWord(b / 10);
    if a >= 10 {
      assert x[..|x| - 1] == Decimal(a / 10);
      assert b >= 10 ==> y[..|y| - 1] == Decimal(b / 10);
      if b >= 10 {
        DecimalInjective(a / 10, b / 10);
      }
    }
  }

  lemma SpaceWithin(a: string, x: string, b: string, y: string)
    requires |a| < |b| && a + " " + x == b + " " + y
    ensures ' ' in b
  {
    assert (a + " " + x)[|a|] == ' ';
    assert (b + " " + y)[|a|] == b[|a|];
  }

  /** Two equal texts agree in their first word and behind it. */
  lemma FirstWord(a: string, x: string, b: string, y: string)
    requires ' ' !in a && ' ' !in b && a + " " + x == b + " " + y
    ensures a == b && x == y
  {
    if |a| < |b| {
      SpaceWithin(a, x, b, y);
    } else if |b| < |a| {
      SpaceWithin(b, y, a, x);
    } else {
      var s, t := a + " " + x, b + " " + y;
      assert s[..|a|] == a && t[..|b|] == b && s[|a| + 1..] == x && t[|b| + 1..] == y;
    }
  }

  lemma Behind(prefix: string, x: string, y: string)
    requires prefix + x == prefix + y
    ensures x == y
  {
    assert (prefix + x)[|prefix|..] == x && (prefix + y)[|prefix|..] == y;
  }

  lemma SameWords(prefix: string, a: string, between: string, b: string, rest: string, c: string, d: string)
    requires ' ' !in a && ' ' !in b && ' ' !in c && ' ' !in d
    requires prefix + a + " " + between + b + " " + rest == prefix + c + " " + between + d + " " + rest
    ensures a == c && b == d
  {
    var x, y := between + (b + " " + rest), between + (d + " " + rest);
    assert prefix + a + " " + between + b + " " + rest == prefix + (a + " " + x);
    assert prefix + c + " " + between + d + " " + rest == prefix + (c + " " + y);
    Behind(prefix, a + " " + x, c + " " + y);
    FirstWord(a, x, c, y);
    Behind(between, b + " " + rest, d + " " + rest);
    FirstWord(b, rest, d, rest);
  }

  lemma MessageTells(prefix: string, between: string, rest: string, a: nat, b: nat, c: nat, d: nat)
    requires Message(prefix, between, rest, a, b) == Message(prefix, between, rest, c, d)
    ensures a == c && b == d
  {
    DecimalIsOneWord(a);
    DecimalIsOneWord(b);
    DecimalIsOneWord(c);
    DecimalIsOneWord(d);
    SameWords(prefix, Decimal(a), between, Decimal(b), rest, Decimal(c), Decimal(d));
    DecimalInjective(a, c);
    DecimalInjective(b, d);
  }

  /** Different numbers of withheld and refused readings are disclosed differently. */
  lemma DisclosureTellsCounts(withheld: nat, incompatible: nat, withheld': nat, incompatible': nat)
    requires Disclosure(withheld, incompatible) == Disclosure(withheld', incompatible')
    ensures withheld == withheld' && incompatible == incompatible'
  {
    if Disclosure(withheld, incompatible).Some? {
      MessageTells("Skipped ", "DXGI NVIDIA readings with uncertain identity and ",
                   "incompatible memory supplements; NVML readings and proven compatible fields are retained",
                   withheld, incompatible, withheld', incompatible');
    }
  }

  // ----- Nothing is counted twice -----

  /** What is known of the part of a merge behind the NVML devices. */
  predicate ProvenAdditions(merged: seq<Gpu>, generic: seq<Gpu>, luids: seq<Option<string>>, n: nat) {
    && n <= |merged| <= (if n > LIMIT then n else LIMIT)
    && (forall a | n <= a < |merged| :: merged[a] in generic)
    && (forall a | n <= a < |merged| && n > 0 && Nvidia(merged[a]) ::
          && IsLuid(merged[a].id)
          && |luids| == n
          && (forall i | 0 <= i < n :: luids[i].Some? && IsLuid(luids[i].value) && luids[i] != Some(merged[a].id))
          && (forall i, j | 0 <= i < j < n :: luids[i] != luids[j]))
    && (forall a, b | n <= a < b < |merged| && n > 0 && Nvidia(merged[a]) && Nvidia(merged[b]) ::
          merged[a].id != merged[b].id)
  }

  lemma AdditionsProven(gpus: seq<Gpu>, generic: seq<Gpu>, luids: seq<Option<string>>)
    ensures ProvenAdditions(Merged(gpus, generic, Fates(generic, luids, |gpus|), |generic|), generic, luids, |gpus|)
  {
    var n, fates := |gpus|, Fates(generic, luids, |gpus|);
    var merged := Merged(gpus, generic, fates, |generic|);
    var indexes := AppendedAt(fates, |generic|);
    AppendedAtFacts(fates, |generic|);
    AdditionsAt(generic, fates, |generic|);
    var additions := Additions(generic, fates, |generic|);
    forall a | n <= a < |merged| ensures merged[a] == additions[a - n] == generic[indexes[a - n]] {
    }
    forall a | n <= a < |merged| && n > 0 && Nvidia(merged[a])
      ensures IsLuid(merged[a].id) && |luids| == n
      ensures forall i | 0 <= i < n :: luids[i].Some? && IsLuid(luids[i].value) && luids[i] != Some(merged[a].id)
      ensures forall i, j | 0 <= i < j < n :: luids[i] != luids[j]
      ensures forall b | a < b < |merged| && Nvidia(merged[b]) :: merged[a].id != merged[b].id
    {
      AppendedIsAnother(generic, luids, n, indexes[a - n]);
      forall b | a < b < |merged| && Nvidia(merged[b]) ensures merged[a].id != merged[b].id {
        assert indexes[a - n] < indexes[b - n];
        assert merged[b] == generic[indexes[b - n]];
      }
    }
  }

  /**
   Nothing is counted twice. The NVML devices stay in front, in order, each the same device, never beyond its
   capacity and with at most one generic reading absorbed; what follows are generic readings, and an NVIDIA
   one among them carries a LUID that no NVML device and no other addition has.
   */
  lemma NothingCountedTwice(gpus: seq<Gpu>, generic: seq<Gpu>, luids: seq<Option<string>>)
    ensures var fates := Fates(generic, luids, |gpus|);
            var merged := Merged(gpus, generic, fates, |generic|);
            && ProvenAdditions(merged, generic, luids, |gpus|)
            && (forall i | 0 <= i < |gpus| ::
                  && SameDevice(merged[i], gpus[i]) && (WithinCapacity(gpus[i]) ==> WithinCapacity(merged[i]))
                  && (forall l | 0 <= l < |generic| && fates[l] == Absorbed(i) ::
                        && i < |luids| && luids[i] == Some(generic[l].id) && merged[i] == Supplement(gpus[i], generic[l])
                        && (forall j | 0 <= j < |gpus| && j < |luids| && j != i :: luids[j] != luids[i]))
                  && ((forall l | 0 <= l < |generic| :: fates[l] != Absorbed(i)) ==> merged[i] == gpus[i]))
            && AbsorbOnce(fates, |gpus|)
  {
    var fates := Fates(generic, luids, |gpus|);
    var merged := Merged(gpus, generic, fates, |generic|);
    AdditionsProven(gpus, generic, luids);
    FatesAbsorbOnce(generic, luids, |gpus|);
    forall i | 0 <= i < |gpus|
      ensures SameDevice(merged[i], gpus[i]) && (WithinCapacity(gpus[i]) ==> WithinCapacity(merged[i]))
      ensures forall l | 0 <= l < |generic| && fates[l] == Absorbed(i) ::
                && i < |luids| && merged[i] == Supplement(gpus[i], generic[l]) && luids[i] == Some(generic[l].id)
                && (forall j | 0 <= j < |gpus| && j < |luids| && j != i :: luids[j] != luids[i])
      ensures (forall l | 0 <= l < |generic| :: fates[l] != Absorbed(i)) ==> merged[i] == gpus[i]
    {
      assert merged[i] == DeviceAfter(gpus[i], generic, fates, |generic|, i);
      DeviceAfterKeeps(gpus[i], generic, fates, |generic|, i);
      DeviceAfterExactly(gpus[i], generic, fates, |gpus|, |generic|, i);
      forall l | 0 <= l < |generic| && fates[l] == Absorbed(i) ensures i < |luids| && luids[i] == Some(generic[l].id)
        ensures forall j | 0 <= j < |gpus| && j < |luids| && j != i :: luids[j] != luids[i]
      {
        AbsorbedBy(generic[l], generic, luids, |gpus|);
      }
    }
  }

  // ----- The loops -----

  method PushBounded(values: seq<Gpu>, value: Gpu) returns (pushed: seq<Gpu>)
    ensures pushed == if |values| >= LIMIT then values else values + [value]
  {
    if |values| >= LIMIT {
      return values;
    }
    return values + [value];
  }

  method MatchesOf(luids: seq<Option<string>>, n: nat, id: string) returns (matches: seq<nat>)
    ensures matches == MatchesAmong(luids, n, id)
  {
    matches := [];
    for index := 0 to n
      invariant matches == MatchesAmong(luids, index, id)
    {
      if index < |luids| && luids[index] == Some(id) {
        matches := matches + [index];
      }
    }
  }

  method Identified(luids: seq<Option<string>>, n: nat) returns (all: bool)
    ensures all <==> AllIdentified(luids, n)
  {
    all := |luids| == n;
    for i := 0 to |luids|
      invariant all <==> && |luids| == n
                         && forall j | 0 <= j < i :: && luids[j].Some? && IsLuid(luids[j].value)
                                                     && |MatchesAmong(luids, |luids|, luids[j].value)| == 1
    {
      if luids[i].None? || !IsLuid(luids[i].value) {
        all := false;
      } else {
        var same := MatchesOf(luids, |luids|, luids[i].value);
        all := all && |same| == 1;
      }
    }
  }

  method Fated(gpu: Gpu, generic: seq<Gpu>, luids: seq<Option<string>>, n: nat, allIdentified: bool) returns (fate: Fate)
    requires allIdentified <==> AllIdentified(luids, n)
    ensures fate == FateOf(gpu, generic, luids, n)
  {
    if !Nvidia(gpu) || n == 0 {
      return Appended;
    }
    var matches := MatchesOf(luids, n, gpu.id);
    var uniqueGeneric := |SameIdentity(generic, gpu.id)| == 1;
    if IsLuid(gpu.id) && |matches| == 1 && uniqueGeneric {
      return Absorbed(matches[0]);
    } else if allIdentified && IsLuid(gpu.id) && matches == [] && uniqueGeneric {
      return Appended;
    }
    return Withheld;
  }

  lemma AppendNext(gpus: seq<Gpu>, generic: seq<Gpu>, fates: seq<Fate>, k: nat)
    requires k < |generic| == |fates| && fates[k] == Appended
    ensures var before := Merged(gpus, generic, fates, k);
            Merged(gpus, generic, fates, k + 1) == if |before| >= LIMIT then before else before + [generic[k]]
  {
    assert Devices(gpus, generic, fates, k + 1) == Devices(gpus, generic, fates, k);
    var less := Additions(generic, fates, k);
    assert Additions(generic, fates, k + 1) == less + [generic[k]];
  }

  lemma AbsorbNext(gpus: seq<Gpu>, generic: seq<Gpu>, fates: seq<Fate>, k: nat)
    requires k < |generic| == |fates| && fates[k].Absorbed? && fates[k].index < |gpus|
    ensures var before, i := Merged(gpus, generic, fates, k), fates[k].index;
            && i < |before| && before[i] == DeviceAfter(gpus[i], generic, fates, k, i)
            && Merged(gpus, generic, fates, k + 1) == before[i := Supplement(before[i], generic[k])]
  {
    var before, i := Devices(gpus, generic, fates, k), fates[k].index;
    assert Devices(gpus, generic, fates, k + 1) == before[i := Supplement(before[i], generic[k])];
    assert Additions(generic, fates, k + 1) == Additions(generic, fates, k);
  }

  lemma WithholdNext(gpus: seq<Gpu>, generic: seq<Gpu>, fates: seq<Fate>, k: nat)
    requires k < |generic| == |fates| && fates[k] == Withheld
    ensures Merged(gpus, generic, fates, k + 1) == Merged(gpus, generic, fates, k)
  {
    assert Devices(gpus, generic, fates, k + 1) == Devices(gpus, generic, fates, k);
  }

  /** The loop over the generic readings, with its two counters. */
  method MergeCounted(gpus: seq<Gpu>, generic: seq<Gpu>, luids: seq<Option<string>>)
    returns (merged: seq<Gpu>, withheld: nat, incompatible: nat)
    ensures var fates := Fates(generic, luids, |gpus|);
            && merged == Merged(gpus, generic, fates, |generic|)
            && withheld == WithheldAmong(fates, |generic|)
            && incompatible == IncompatibleAmong(gpus, generic, fates, |generic|)
  {
    ghost var fates := Fates(generic, luids, |gpus|);
    FatesAbsorbOnce(generic, luids, |gpus|);
    var count := |gpus|;
    var allIdentified := Identified(luids, count);
    merged, withheld, incompatible := gpus, 0, 0;
    assert merged == Merged(gpus, generic, fates, 0);
    for k := 0 to |generic|
      invariant merged == Merged(gpus, generic, fates, k)
      invariant withheld == WithheldAmong(fates, k)
      invariant incompatible == IncompatibleAmong(gpus, generic, fates, k)
    {
      var fate := Fated(generic[k], generic, luids, count, allIdentified);
      assert fate == fates[k];
      match fate {
        case Appended =>
          AppendNext(gpus, generic, fates, k);
          merged := PushBounded(merged, generic[k]);
        case Absorbed(index) =>
          AbsorbNext(gpus, generic, fates, k);
          var primary := merged[index];
          if !SupplementMemory(primary, generic[k]).1 {
            incompatible := incompatible + 1;
          }
          merged := merged[index := Supplement(primary, generic[k])];
        case Withheld =>
          WithholdNext(gpus, generic, fates, k);
          withheld := withheld + 1;
      }
    }
  }

  /** The merge and what it discloses. */
  method MergeWindows(gpus: seq<Gpu>, generic: seq<Gpu>, luids: seq<Option<string>>)
    returns (merged: seq<Gpu>, disclosed: Option<Capability>)
    ensures merged == Merged(gpus, generic, Fates(generic, luids, |gpus|), |generic|)
    ensures disclosed == Disclosed(gpus, generic, Fates(generic, luids, |gpus|))
  {
    var withheld, incompatible;
    merged, withheld, incompatible := MergeCounted(gpus, generic, luids);
    disclosed := Disclosure(withheld, incompatible);
  }
}
