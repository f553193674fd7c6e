/** The driver's UUID and LUID readings as a proven association, one to one in both directions. */
module NvidiaIdentity {
  import opened Wrappers
  import opened Sorting

  type Byte = n: nat | n < 256
  type Uuid = nat

  /** Eight bytes, least significant first in each half. */
  type Luid = s: seq<Byte> | |s| == 8 witness [0, 0, 0, 0, 0, 0, 0, 0]

  datatype Reading = Reading(uuid: Uuid, luid: Luid)

  /** The UUID a text denotes, for the parser of the platform. */
  const ParseUuid: string -> Option<Uuid>

  // ----- Rendering a LUID -----

  function HexDigit(n: nat): char
    requires n < 16
  {
    "0123456789abcdef"[n]
  }

  /** The low `width` hexadecimal digits. */
  function Hex(n: nat, width: nat): (s: string)
    ensures |s| == width
  {
    if width == 0 then "" else Hex(n / 16, width - 1) + [HexDigit(n % 16)]
  }

  function LittleEndian(bytes: seq<Byte>): nat {
    if bytes == [] then 0 else bytes[0] + 256 * LittleEndian(bytes[1..])
  }

  function Render(luid: Luid): string {
    "luid_" + Hex(LittleEndian(luid[4..]), 8) + "_" + Hex(LittleEndian(luid[..4]), 8)
  }

  predicate FitsIn(n: nat, width: nat) {
    if width == 0 then n == 0 else FitsIn(n / 16, width - 1)
  }

  lemma HexDigitInjective(a: nat, b: nat)
    requires a < 16 && b < 16 && HexDigit(a) == HexDigit(b)
    ensures a == b
  {
  }

  lemma {:induction false} HexInjective(a: nat, b: nat, width: nat)
    requires FitsIn(a, width) && FitsIn(b, width) && Hex(a, width) == Hex(b, width)
    ensures a == b
  {
    if width > 0 {
      var x, y := Hex(a / 16, width - 1), Hex(b / 16, width - 1);
      assert Hex(a, width)[..width - 1] == x && Hex(b, width)[..width - 1] == y;
      assert Hex(a, width)[width - 1] == HexDigit(a % 16) && Hex(b, width)[width - 1] == HexDigit(b % 16);
      HexInjective(a / 16, b / 16, width - 1);
      HexDigitInjective(a % 16, b % 16);
    }
  }

  lemma {:induction false} BytesFit(bytes: seq<Byte>)
    ensures FitsIn(LittleEndian(bytes), 2 * |bytes|)
  {
    if bytes != [] {
      BytesFit(bytes[1..]);
      var rest := LittleEndian(bytes[1..]);
      assert (bytes[0] + 256 * rest) / 16 / 16 == rest;
    }
  }

  lemma {:induction false} LittleEndianInjective(a: seq<Byte>, b: seq<Byte>)
    requires |a| == |b| && LittleEndian(a) == LittleEndian(b)
    ensures a == b
  {
    if a != [] {
      assert a[0] == LittleEndian(a) % 256 && b[0] == LittleEndian(b) % 256;
      LittleEndianInjective(a[1..], b[1..]);
      assert a == [a[0]] + a[1..] && b == [b[0]] + b[1..];
    }
  }

  lemma HalfInjective(a: seq<Byte>, b: seq<Byte>, width: nat)
    requires |a| == |b| && width == 2 * |a| && Hex(LittleEndian(a), width) == Hex(LittleEndian(b), width)
    ensures a == b
  {
    BytesFit(a);
    BytesFit(b);
    HexInjective(LittleEndian(a), LittleEndian(b), width);
    LittleEndianInjective(a, b);
  }

  lemma SameHalves(prefix: string, separator: string, a: string, b: string, c: string, d: string)
    requires |a| == |c| && prefix + a + separator + b == prefix + c + separator + d
    ensures a == c && b == d
  {
    var x, y, n := prefix + a + separator + b, prefix + c + separator + d, |prefix| + |a|;
    assert x[|prefix|..n] == a && y[|prefix|..n] == c;
    assert x[n + |separator|..] == b && y[n + |separator|..] == d;
  }

  /** Different LUIDs are rendered differently. */
  lemma RenderInjective(a: Luid, b: Luid)
    requires Render(a) == Render(b)
    ensures a == b
  {
    SameHalves("luid_", "_", Hex(LittleEndian(a[4..]), 8), Hex(LittleEndian(a[..4]), 8),
               Hex(LittleEndian(b[4..]), 8), Hex(LittleEndian(b[..4]), 8));
    HalfInjective(a[4..], b[4..], 8);
    HalfInjective(a[..4], b[..4], 8);
    assert a == a[..4] + a[4..] && b == b[..4] + b[4..];
  }

  predicate ShowsByte(s: string, at: nat, b: Byte)
    requires at + 1 < |s|
  {
    s[at] == HexDigit(b / 16) && s[at + 1] == HexDigit(b % 16)
  }

  /** The two digits of the byte `i`, which is the `i`-th from the right. */
  lemma {:induction false} HexShows(bytes: seq<Byte>, i: nat)
    requires i < |bytes|
    ensures ShowsByte(Hex(LittleEndian(bytes), 2 * |bytes|), 2 * (|bytes| - 1 - i), bytes[i])
  {
    var n, rest := LittleEndian(bytes), LittleEndian(bytes[1..]);
    assert n / 16 / 16 == rest && n / 16 % 16 == bytes[0] / 16 && n % 16 == bytes[0] % 16;
    var width := 2 * |bytes|;
    assert Hex(n, width) == Hex(n / 16, width - 1) + [HexDigit(n % 16)];
    assert Hex(n / 16, width - 1) == Hex(n / 16 / 16, width - 2) + [HexDigit(n / 16 % 16)];
    if i > 0 {
      HexShows(bytes[1..], i - 1);
    }
  }

  /** The rendered form: the high half, then the low half, each from its most significant byte. */
  lemma RenderShows(luid: Luid, i: nat)
    requires i < 4
    ensures |Render(luid)| == 22 && Render(luid)[..5] == "luid_" && Render(luid)[13] == '_'
    ensures ShowsByte(Render(luid), 5 + 2 * (3 - i), luid[4 + i])
    ensures ShowsByte(Render(luid), 14 + 2 * (3 - i), luid[i])
  {
    HexShows(luid[4..], i);
    HexShows(luid[..4], i);
  }

  // ----- Which readings are identities -----

  const ZERO_LUID: Luid := [0, 0, 0, 0, 0, 0, 0, 0]

  predicate Usable(r: Reading) {
    r.uuid != 0 && r.luid != ZERO_LUID
  }

  function Uuids(rs: seq<Reading>): seq<Uuid> {
    Map(rs, (r: Reading) => r.uuid)
  }

  function Luids(rs: seq<Reading>): seq<Luid> {
    Map(rs, (r: Reading) => r.luid)
  }

  /** Neither its UUID nor its LUID was read more than once. */
  predicate Proven(rs: seq<Reading>, r: Reading) {
    r in rs && multiset(Uuids(rs))[r.uuid] == 1 && multiset(Luids(rs))[r.luid] == 1
  }

  lemma OnceIsOneIndex<T(!new)>(xs: seq<T>, i: nat, j: nat)
    requires i < |xs| && j < |xs| && xs[i] == xs[j] && multiset(xs)[xs[i]] == 1
    ensures i == j
  {
    if i < j {
      TwiceCounts(xs, i, j);
    } else if j < i {
      TwiceCounts(xs, j, i);
    }
  }

  /** Proven readings with the same UUID, or with the same LUID, are the same reading. */
  lemma ProvenIsOneToOne(rs: seq<Reading>, a: Reading, b: Reading)
    requires Proven(rs, a) && Proven(rs, b)
    ensures a.uuid == b.uuid || a.luid == b.luid ==> a == b
  {
    var i :| 0 <= i < |rs| && rs[i] == a;
    var j :| 0 <= j < |rs| && rs[j] == b;
    if a.uuid == b.uuid {
      OnceIsOneIndex(Uuids(rs), i, j);
    } else if a.luid == b.luid {
      OnceIsOneIndex(Luids(rs), i, j);
    }
  }

  // ----- The two count maps and the filter -----

  method CountEach<T(==)>(keys: seq<T>) returns (counts: map<T, nat>)
    ensures forall k :: (if k in counts then counts[k] else 0) == multiset(keys)[k]
  {
    counts := map[];
    for i := 0 to |keys|
      invariant forall k :: (if k in counts then counts[k] else 0) == multiset(keys[..i])[k]
    {
      assert keys[..i + 1] == keys[..i] + [keys[i]];
      counts := counts[keys[i] := (if keys[i] in counts then counts[keys[i]] else 0) + 1];
    }
    assert keys[..|keys|] == keys;
  }

  /** Being proven among the readings, as a predicate of one of them. */
  function ProvenIn(rs: seq<Reading>): Reading -> bool {
    (r: Reading) => Proven(rs, r)
  }

  /** Every key is the UUID of one of the first `n` readings that are proven. */
  ghost predicate OnlyProven(identities: map<Uuid, string>, rs: seq<Reading>, n: nat, proven: Reading -> bool)
    requires n <= |rs|
  {
    forall u | u in identities :: exists k | 0 <= k < n :: proven(rs[k]) && rs[k].uuid == u
  }

  /** Every proven one of the first `n` readings is mapped to its rendered LUID. */
  ghost predicate AllProven(identities: map<Uuid, string>, rs: seq<Reading>, n: nat, proven: Reading -> bool,
                            render: Luid -> string)
    requires n <= |rs|
  {
    forall k | 0 <= k < n && proven(rs[k]) ::
      rs[k].uuid in identities && identities[rs[k].uuid] == render(rs[k].luid)
  }

  /** The proven among the first `n` readings, and nothing else, are mapped to their rendered LUIDs. */
  ghost predicate Associates(identities: map<Uuid, string>, rs: seq<Reading>, n: nat, render: Luid -> string)
    requires n <= |rs|
  {
    OnlyProven(identities, rs, n, ProvenIn(rs)) && AllProven(identities, rs, n, ProvenIn(rs), render)
  }

  lemma OnlyProvenNext(identities: map<Uuid, string>, rs: seq<Reading>, n: nat, proven: Reading -> bool, value: string)
    requires n < |rs| && OnlyProven(identities, rs, n, proven) && proven(rs[n])
    ensures OnlyProven(identities[rs[n].uuid := value], rs, n + 1, proven)
  {
    var next := identities[rs[n].uuid := value];
    forall u | u in next
      ensures exists k | 0 <= k < n + 1 :: proven(rs[k]) && rs[k].uuid == u
    {
      if u != rs[n].uuid {
        var k :| 0 <= k < n && proven(rs[k]) && rs[k].uuid == u;
      }
    }
  }

  lemma AllProvenNext(identities: map<Uuid, string>, rs: seq<Reading>, n: nat, proven: Reading -> bool,
                      render: Luid -> string)
    requires n < |rs| && AllProven(identities, rs, n, proven, render)
    requires forall k | 0 <= k < n && proven(rs[k]) && rs[k].uuid == rs[n].uuid :: rs[k] == rs[n]
    ensures AllProven(identities[rs[n].uuid := render(rs[n].luid)], rs, n + 1, proven, render)
  {
  }

  lemma AssociateProven(identities: map<Uuid, string>, rs: seq<Reading>, n: nat, render: Luid -> string)
    requires n < |rs| && Associates(identities, rs, n, render) && ProvenIn(rs)(rs[n])
    ensures Associates(identities[rs[n].uuid := render(rs[n].luid)], rs, n + 1, render)
  {
    forall k | 0 <= k < n && ProvenIn(rs)(rs[k]) && rs[k].uuid == rs[n].uuid ensures rs[k] == rs[n] {
      ProvenIsOneToOne(rs, rs[k], rs[n]);
    }
    OnlyProvenNext(identities, rs, n, ProvenIn(rs), render(rs[n].luid));
    AllProvenNext(identities, rs, n, ProvenIn(rs), render);
  }

  lemma OnlyProvenSame(identities: map<Uuid, string>, rs: seq<Reading>, n: nat, proven: Reading -> bool)
    requires n < |rs| && OnlyProven(identities, rs, n, proven)
    ensures OnlyProven(identities, rs, n + 1, proven)
  {
    forall u | u in identities ensures exists k | 0 <= k < n + 1 :: proven(rs[k]) && rs[k].uuid == u {
      var k :| 0 <= k < n && proven(rs[k]) && rs[k].uuid == u;
    }
  }

  lemma AssociateUnproven(identities: map<Uuid, string>, rs: seq<Reading>, n: nat, render: Luid -> string)
    requires n < |rs| && Associates(identities, rs, n, render) && !ProvenIn(rs)(rs[n])
    ensures Associates(identities, rs, n + 1, render)
  {
    OnlyProvenSame(identities, rs, n, ProvenIn(rs));
  }

  /** Each UUID proven to be one device is mapped to the rendered LUID of that device, and nothing else is. */
  method Identities(readings: seq<Reading>) returns (identities: map<Uuid, string>)
    ensures Associates(identities, Filter(readings, Usable), |Filter(readings, Usable)|, Render)
  {
    var rs := Filter(readings, Usable);
    var uuidCounts := CountEach(Uuids(rs));
    var luidCounts := CountEach(Luids(rs));
    identities := map[];
    for i := 0 to |rs|
      invariant Associates(identities, rs, i, Render)
    {
      var r := rs[i];
      assert Uuids(rs)[i] == r.uuid && Luids(rs)[i] == r.luid;
      if uuidCounts[r.uuid] == 1 && luidCounts[r.luid] == 1 {
        AssociateProven(identities, rs, i, Render);
        identities := identities[r.uuid := Render(r.luid)];
      } else {
        AssociateUnproven(identities, rs, i, Render);
      }
    }
  }

  lemma OneToOneBy(rs: seq<Reading>, identities: map<Uuid, string>, render: Luid -> string)
    requires Associates(identities, rs, |rs|, render)
    requires forall a, b :: render(a) == render(b) ==> a == b
    ensures forall u, v | u in identities && v in identities && identities[u] == identities[v] :: u == v
  {
    forall u, v | u in identities && v in identities && identities[u] == identities[v] ensures u == v {
      var i :| 0 <= i < |rs| && ProvenIn(rs)(rs[i]) && rs[i].uuid == u;
      var j :| 0 <= j < |rs| && ProvenIn(rs)(rs[j]) && rs[j].uuid == v;
      ProvenIsOneToOne(rs, rs[i], rs[j]);
    }
  }

  /** No two devices share an identity, and the nil UUID has none: the association is injective both ways. */
  lemma AssociationIsOneToOne(readings: seq<Reading>, identities: map<Uuid, string>)
    requires Associates(identities, Filter(readings, Usable), |Filter(readings, Usable)|, Render)
    ensures forall u, v | u in identities && v in identities && identities[u] == identities[v] :: u == v
    ensures 0 !in identities
  {
    forall a: Luid, b: Luid | Render(a) == Render(b) ensures a == b {
      RenderInjective(a, b);
    }
    OneToOneBy(Filter(readings, Usable), identities, Render);
    FilterKeeps(readings, Usable);
  }

  /** A reading that names a device: neither nil. */
  predicate Names(r: Reading) {
    r.uuid != 0 && exists k | 0 <= k < 8 :: r.luid[k] != 0
  }

  /** The reading names a device, and no other reading that does has its UUID or its LUID. */
  predicate ReadOnce(readings: seq<Reading>, i: nat)
    requires i < |readings|
  {
    && Names(readings[i])
    && forall j | 0 <= j < |readings| && j != i && Names(readings[j]) ::
         readings[j].uuid != readings[i].uuid && readings[j].luid != readings[i].luid
  }

  lemma NamesExactly(r: Reading)
    ensures Usable(r) <==> Names(r)
  {
    if forall k | 0 <= k < 8 :: r.luid[k] == 0 {
      assert r.luid == ZERO_LUID;
    }
  }

  lemma OnlyIndexCountsOnce<T>(xs: seq<T>, i: nat)
    requires i < |xs| && forall j | 0 <= j < |xs| && j != i :: xs[j] != xs[i]
    ensures multiset(xs)[xs[i]] == 1
  {
    assert xs == xs[..i] + [xs[i]] + xs[i + 1..];
    assert xs[i] !in xs[..i] && xs[i] !in xs[i + 1..];
  }

  lemma ProvenIndex(rs: seq<Reading>, k: nat)
    requires k < |rs|
    ensures Proven(rs, rs[k]) <==>
              forall l | 0 <= l < |rs| && l != k :: rs[l].uuid != rs[k].uuid && rs[l].luid != rs[k].luid
  {
    var uuids, luids := Uuids(rs), Luids(rs);
    if Proven(rs, rs[k]) {
      forall l | 0 <= l < |rs| && l != k ensures rs[l].uuid != rs[k].uuid && rs[l].luid != rs[k].luid {
        if uuids[l] == uuids[k] {
          OnceIsOneIndex(uuids, k, l);
        }
        if luids[l] == luids[k] {
          OnceIsOneIndex(luids, k, l);
        }
      }
    }
    if forall l | 0 <= l < |rs| && l != k :: rs[l].uuid != rs[k].uuid && rs[l].luid != rs[k].luid {
      assert forall l | 0 <= l < |uuids| && l != k :: uuids[l] != uuids[k] by {
        assert forall l | 0 <= l < |uuids| :: uuids[l] == rs[l].uuid;
      }
      assert forall l | 0 <= l < |luids| && l != k :: luids[l] != luids[k] by {
        assert forall l | 0 <= l < |luids| :: luids[l] == rs[l].luid;
      }
      OnlyIndexCountsOnce(uuids, k);
      OnlyIndexCountsOnce(luids, k);
    }
  }

  /** Being proven among the usable readings, said of all of them. */
  lemma ProvenIsReadOnce(readings: seq<Reading>, rs: seq<Reading>, at: seq<nat>, k: nat)
    requires Picks(rs, readings, Usable, at) && k < |rs|
    ensures Proven(rs, rs[k]) <==> ReadOnce(readings, at[k])
  {
    ProvenIndex(rs, k);
    forall r ensures Usable(r) <==> Names(r) { NamesExactly(r); }
    if Proven(rs, rs[k]) {
      forall j | 0 <= j < |readings| && j != at[k] && Names(readings[j])
        ensures readings[j].uuid != readings[at[k]].uuid && readings[j].luid != readings[at[k]].luid
      {
        var l :| 0 <= l < |at| && at[l] == j;
        assert rs[l] == readings[j];
      }
    }
    if ReadOnce(readings, at[k]) {
      forall l | 0 <= l < |rs| && l != k ensures rs[l].uuid != rs[k].uuid && rs[l].luid != rs[k].luid {
        assert at[l] != at[k];
      }
    }
  }

  /** Among all readings of the driver, those that name a device once are associated, and nothing else is. */
  lemma AssociationExactly(readings: seq<Reading>, identities: map<Uuid, string>)
    requires Associates(identities, Filter(readings, Usable), |Filter(readings, Usable)|, Render)
    ensures forall i | 0 <= i < |readings| && ReadOnce(readings, i) ::
              readings[i].uuid in identities && identities[readings[i].uuid] == Render(readings[i].luid)
    ensures forall u | u in identities :: exists i | 0 <= i < |readings| :: readings[i].uuid == u && ReadOnce(readings, i)
  {
    var rs := Filter(readings, Usable);
    var at := FilterPicks(readings, Usable);
    forall i | 0 <= i < |readings| && ReadOnce(readings, i)
      ensures readings[i].uuid in identities && identities[readings[i].uuid] == Render(readings[i].luid)
    {
      NamesExactly(readings[i]);
      var k :| 0 <= k < |at| && at[k] == i;
      ProvenIsReadOnce(readings, rs, at, k);
      assert ProvenIn(rs)(rs[k]);
    }
    forall u | u in identities ensures exists i | 0 <= i < |readings| :: readings[i].uuid == u && ReadOnce(readings, i) {
      var k :| 0 <= k < |rs| && ProvenIn(rs)(rs[k]) && rs[k].uuid == u;
      ProvenIsReadOnce(readings, rs, at, k);
      assert readings[at[k]].uuid == u;
    }
  }

  function StripPrefix(s: string, prefix: string): Option<string> {
    if prefix <= s then Some(s[|prefix|..]) else None
  }

  function Lookup(identities: map<Uuid, string>, nvmlId: string): Option<string> {
    match StripPrefix(nvmlId, "GPU-")
    case None => None
    case Some(text) =>
      match ParseUuid(text)
      case None => None
      case Some(id) => if id in identities then Some(identities[id]) else None
  }

  /** A device is looked up by the UUID behind its prefix, and found exactly if that UUID is associated. */
  lemma LookupExactly(identities: map<Uuid, string>, nvmlId: string, found: string)
    ensures Lookup(identities, nvmlId) == Some(found) <==>
              exists text, id :: nvmlId == "GPU-" + text && ParseUuid(text) == Some(id) && id in identities
                                 && identities[id] == found
  {
    forall text ensures nvmlId == "GPU-" + text <==> StripPrefix(nvmlId, "GPU-") == Some(text) {
      if StripPrefix(nvmlId, "GPU-") == Some(text) {
        assert nvmlId == nvmlId[..4] + text;
      }
    }
  }

  /** Devices with different UUIDs are never looked up as the same adapter. */
  lemma LookupSeparates(readings: seq<Reading>, identities: map<Uuid, string>, a: string, b: string)
    requires Associates(identities, Filter(readings, Usable), |Filter(readings, Usable)|, Render)
    requires Lookup(identities, a).Some? && Lookup(identities, a) == Lookup(identities, b)
    ensures StripPrefix(a, "GPU-").Some? && StripPrefix(b, "GPU-").Some?
    ensures ParseUuid(StripPrefix(a, "GPU-").value) == ParseUuid(StripPrefix(b, "GPU-").value)
  {
    AssociationIsOneToOne(readings, identities);
  }
}
