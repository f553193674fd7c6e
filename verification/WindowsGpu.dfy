/** Engine utilisation from per-process counters: one total per physical engine, the busiest one reported. */
module WindowsGpu {
  import opened Wrappers
  import opened Sorting
  import opened ReportText

  // ----- Text -----

  /** The text before and after the first occurrence of a separator. */
  function SplitOnce(s: string, separator: string): Option<(string, string)> {
    if separator <= s then Some(([], s[|separator|..]))
    else if s == [] then None
    else
      match SplitOnce(s[1..], separator)
      case None => None
      case Some(parts) => Some(([s[0]] + parts.0, parts.1))
  }

  function StripPrefix(s: string, prefix: string): Option<string> {
    if prefix <= s then Some(s[|prefix|..]) else None
  }

  function LowerChar(c: char): char {
    if 'A' <= c <= 'Z' then (c as int + 32) as char else c
  }

  function Lower(s: string): (t: string)
    ensures |t| == |s|
  {
    seq(|s|, i requires 0 <= i < |s| => LowerChar(s[i]))
  }

  predicate IsDigit(c: char) { '0' <= c <= '9' }

  predicate IsHexDigit(c: char) { IsDigit(c) || 'a' <= c <= 'f' || 'A' <= c <= 'F' }

  predicate IsAlphanumeric(c: char) { IsDigit(c) || 'a' <= c <= 'z' || 'A' <= c <= 'Z' }

  function DecimalValue(s: string): nat
    requires forall i | 0 <= i < |s| :: IsDigit(s[i])
  {
    if s == [] then 0
    else
      assert IsDigit(s[|s| - 1]);
      10 * DecimalValue(s[..|s| - 1]) + (s[|s| - 1] as int - '0' as int)
  }

  predicate ValidHex(s: string) {
    var digits := StripPrefix(s, "0x");
    digits.Some? && 0 < |digits.value| <= 16 && forall i | 0 <= i < |digits.value| :: IsHexDigit(digits.value[i])
  }

  /** A number of at most ten digits that fits 32 bits. */
  predicate ValidDecimal(s: string) {
    0 < |s| <= 10 && (forall i | 0 <= i < |s| :: IsDigit(s[i])) && DecimalValue(s) < 0x1_0000_0000
  }

  predicate ValidEngineType(s: string) {
    0 < |s| <= 64 && forall i | 0 <= i < |s| :: IsAlphanumeric(s[i]) || s[i] == '-' || s[i] == '_'
  }

  // ----- Counter instance names -----

  datatype Engine = Engine(luidHigh: string, luidLow: string, physical: string, engine: string, engineType: string)

  predicate ValidEngine(e: Engine) {
    && ValidHex(e.luidHigh) && ValidHex(e.luidLow) && ValidDecimal(e.physical) && ValidDecimal(e.engine)
    && ValidEngineType(e.engineType)
  }

  /** Everything after the process id and the LUID separator. */
  function ParseEngine(text: string): Option<Engine> {
    match SplitOnce(text, "_phys_")
    case None => None
    case Some((luid, afterPhysical)) =>
      match SplitOnce(afterPhysical, "_eng_")
      case None => None
      case Some((physical, afterEngine)) =>
        match SplitOnce(afterEngine, "_engtype_")
        case None => None
        case Some((engine, engineType)) =>
          match SplitOnce(luid, "_")
          case None => None
          case Some((high, low)) =>
            var e := Engine(high, low, physical, engine, engineType);
            if '_' !in low && ValidEngine(e) then Some(e) else None
  }

  /** The process id and the engine of a well-formed instance name. */
  function ParseInstance(name: string): Option<(string, Engine)> {
    match StripPrefix(name, "pid_")
    case None => None
    case Some(afterPid) =>
      match SplitOnce(afterPid, "_luid_")
      case None => None
      case Some((pid, rest)) =>
        match ParseEngine(rest)
        case None => None
        case Some(e) => if ValidDecimal(pid) then Some((pid, e)) else None
  }

  function EngineText(e: Engine): string {
    "engine:luid_" + (Lower(e.luidHigh) + "_" + (Lower(e.luidLow) + "_" + ("phys_" + (e.physical + "_" +
    ("eng_" + (e.engine + "_" + ("engtype_" + Lower(e.engineType))))))))
  }

  function PhysicalEngineKey(name: string): string {
    match ParseInstance(name)
    case None => "instance:" + name
    case Some((_, e)) => EngineText(e)
  }

  lemma {:induction false} SplitAfterPlain(a: string, separator: string, b: string)
    requires separator != [] && separator[0] !in a
    ensures SplitOnce(a + separator + b, separator) == Some((a, b))
  {
    var s := a + separator + b;
    if a == [] {
      assert s[..|separator|] == separator;
      assert s[|separator|..] == b;
    } else {
      assert s[0] == a[0] && a[0] != separator[0];
      assert s[1..] == a[1..] + separator + b;
      SplitAfterPlain(a[1..], separator, b);
      assert a == [a[0]] + a[1..];
    }
  }

  lemma PlainDecimal(s: string)
    requires ValidDecimal(s)
    ensures '_' !in s
  {
  }

  function InstanceName(pid: string, rest: string): string {
    "pid_" + (pid + "_luid_" + rest)
  }

  lemma ParsedInstance(pid: string, rest: string)
    requires ValidDecimal(pid)
    ensures ParseInstance(InstanceName(pid, rest)) ==
              match ParseEngine(rest)
              case None => None
              case Some(e) => Some((pid, e))
  {
    PlainDecimal(pid);
    SplitAfterPlain(pid, "_luid_", rest);
    assert InstanceName(pid, rest)[4..] == pid + "_luid_" + rest;
  }

  /** Two processes using the same engine are counted under the same key. */
  lemma PidIsIrrelevant(pid: string, other: string, rest: string)
    requires ValidDecimal(pid) && ValidDecimal(other)
    ensures ParseInstance(InstanceName(pid, rest)).Some? <==> ParseEngine(rest).Some?
    ensures ParseEngine(rest).Some? ==>
              PhysicalEngineKey(InstanceName(pid, rest)) == PhysicalEngineKey(InstanceName(other, rest))
  {
    ParsedInstance(pid, rest);
    ParsedInstance(other, rest);
  }

  lemma CutUnique(a: string, x: string, b: string, y: string)
    requires '_' !in a && '_' !in b && a + "_" + x == b + "_" + y
    ensures a == b && x == y
  {
    SplitAfterPlain(a, "_", x);
    SplitAfterPlain(b, "_", y);
  }

  lemma LowerPlain(s: string)
    requires '_' !in s
    ensures '_' !in Lower(s)
  {
    forall i | 0 <= i < |s| ensures Lower(s)[i] != '_' {
      assert s[i] in s;
    }
  }

  lemma PlainHex(s: string)
    requires ValidHex(s)
    ensures '_' !in s
  {
    assert s[..2] == "0x";
    forall i | 0 <= i < |s| ensures s[i] != '_' {
      if i < 2 {
        assert s[i] == s[..2][i];
      } else {
        assert s[i] == s[2..][i - 2];
      }
    }
  }

  lemma SamePrefix(prefix: string, x: string, y: string)
    requires prefix + x == prefix + y
    ensures x == y
  {
    assert (prefix + x)[|prefix|..] == x && (prefix + y)[|prefix|..] == y;
  }

  lemma PlainParts(e: Engine)
    requires ValidEngine(e)
    ensures '_' !in Lower(e.luidHigh) && '_' !in Lower(e.luidLow) && '_' !in e.physical && '_' !in e.engine
  {
    PlainHex(e.luidHigh);
    PlainHex(e.luidLow);
    LowerPlain(e.luidHigh);
    LowerPlain(e.luidLow);
    PlainDecimal(e.physical);
    PlainDecimal(e.engine);
  }

  /** Different engines have different keys: the key determines every part, letter case aside. */
  lemma EngineTextInjective(a: Engine, b: Engine)
    requires ValidEngine(a) && ValidEngine(b) && EngineText(a) == EngineText(b)
    ensures Lower(a.luidHigh) == Lower(b.luidHigh) && Lower(a.luidLow) == Lower(b.luidLow)
    ensures a.physical == b.physical && a.engine == b.engine && Lower(a.engineType) == Lower(b.engineType)
  {
    PlainParts(a);
    PlainParts(b);
    var a4, b4 := "engtype_" + Lower(a.engineType), "engtype_" + Lower(b.engineType);
    var a3, b3 := "eng_" + (a.engine + "_" + a4), "eng_" + (b.engine + "_" + b4);
    var a2, b2 := "phys_" + (a.physical + "_" + a3), "phys_" + (b.physical + "_" + b3);
    var a1, b1 := Lower(a.luidLow) + "_" + a2, Lower(b.luidLow) + "_" + b2;
    SamePrefix("engine:luid_", Lower(a.luidHigh) + "_" + a1, Lower(b.luidHigh) + "_" + b1);
    CutUnique(Lower(a.luidHigh), a1, Lower(b.luidHigh), b1);
    CutUnique(Lower(a.luidLow), a2, Lower(b.luidLow), b2);
    SamePrefix("phys_", a.physical + "_" + a3, b.physical + "_" + b3);
    CutUnique(a.physical, a3, b.physical, b3);
    SamePrefix("eng_", a.engine + "_" + a4, b.engine + "_" + b4);
    CutUnique(a.engine, a4, b.engine, b4);
    SamePrefix("engtype_", Lower(a.engineType), Lower(b.engineType));
  }

  // ----- Reading a name back -----

  /** How Windows writes an engine. */
  function Written(e: Engine): string {
    e.luidHigh + "_" + e.luidLow + "_phys_" + (e.physical + "_eng_" + (e.engine + "_engtype_" + e.engineType))
  }

  lemma Regroup(head: string, a: string, separator: string, b: string)
    ensures head + (a + separator + b) == (head + a) + separator + b
  {
  }

  lemma {:induction false} SplitIsWhole(s: string, separator: string)
    requires SplitOnce(s, separator).Some?
    ensures s == SplitOnce(s, separator).value.0 + separator + SplitOnce(s, separator).value.1
  {
    if separator <= s {
      assert s == [] + separator + s[|separator|..];
    } else {
      SplitIsWhole(s[1..], separator);
      var rest := SplitOnce(s[1..], separator).value;
      Regroup([s[0]], rest.0, separator, rest.1);
      assert s == [s[0]] + s[1..];
    }
  }

  /** The first separator is found where nothing before it looks like its first two characters. */
  lemma {:induction false} SplitAfter(a: string, separator: string, b: string)
    requires |separator| > 1
    requires forall k | 0 <= k < |a| && a[k] == separator[0] :: k + 1 < |a| && a[k + 1] != separator[1]
    ensures SplitOnce(a + separator + b, separator) == Some((a, b))
  {
    var s := a + separator + b;
    if a == [] {
      assert s[..|separator|] == separator;
      assert s[|separator|..] == b;
    } else {
      assert s[0] == a[0] && (|a| > 1 ==> s[1] == a[1]);
      assert s[1..] == a[1..] + separator + b;
      SplitAfter(a[1..], separator, b);
      assert a == [a[0]] + a[1..];
    }
  }

  lemma LuidBeforePhysical(high: string, low: string)
    requires ValidHex(high) && ValidHex(low)
    ensures forall k | 0 <= k < |high + "_" + low| && (high + "_" + low)[k] == '_' ::
              k + 1 < |high + "_" + low| && (high + "_" + low)[k + 1] == '0'
  {
    PlainHex(high);
    PlainHex(low);
    var luid := high + "_" + low;
    assert low[..2] == "0x" && luid[|high| + 1] == low[0] == low[..2][0];
    forall k | 0 <= k < |luid| ensures luid[k] == '_' ==> k == |high| {
      assert k < |high| ==> luid[k] == high[k] && high[k] in high;
      assert k > |high| ==> luid[k] == low[k - |high| - 1] && low[k - |high| - 1] in low;
    }
  }

  /** Every valid engine is read back as it was written. */
  lemma WrittenIsParsed(e: Engine)
    requires ValidEngine(e)
    ensures ParseEngine(Written(e)) == Some(e)
  {
    var luid := e.luidHigh + "_" + e.luidLow;
    var afterEngine := e.engine + "_engtype_" + e.engineType;
    var afterPhysical := e.physical + "_eng_" + afterEngine;
    LuidBeforePhysical(e.luidHigh, e.luidLow);
    SplitAfter(luid, "_phys_", afterPhysical);
    PlainDecimal(e.physical);
    SplitAfterPlain(e.physical, "_eng_", afterEngine);
    PlainDecimal(e.engine);
    SplitAfterPlain(e.engine, "_engtype_", e.engineType);
    PlainHex(e.luidHigh);
    PlainHex(e.luidLow);
    SplitAfterPlain(e.luidHigh, "_", e.luidLow);
  }

  /** Only what some valid engine is written as is read as one. */
  lemma ParsedIsWritten(text: string)
    requires ParseEngine(text).Some?
    ensures ValidEngine(ParseEngine(text).value) && text == Written(ParseEngine(text).value)
  {
    SplitIsWhole(text, "_phys_");
    var (luid, afterPhysical) := SplitOnce(text, "_phys_").value;
    SplitIsWhole(afterPhysical, "_eng_");
    var (physical, afterEngine) := SplitOnce(afterPhysical, "_eng_").value;
    SplitIsWhole(afterEngine, "_engtype_");
    SplitIsWhole(luid, "_");
  }

  /** A name is read as a process id and an engine exactly if it is what Windows writes for them. */
  lemma InstanceExactly(name: string, pid: string, e: Engine)
    ensures ParseInstance(name) == Some((pid, e)) <==>
              ValidDecimal(pid) && ValidEngine(e) && name == "pid_" + (pid + "_luid_" + Written(e))
  {
    if ParseInstance(name) == Some((pid, e)) {
      var afterPid := StripPrefix(name, "pid_").value;
      SplitIsWhole(afterPid, "_luid_");
      ParsedIsWritten(SplitOnce(afterPid, "_luid_").value.1);
      assert name == "pid_" + afterPid;
    }
    if ValidDecimal(pid) && ValidEngine(e) {
      WrittenIsParsed(e);
      ParsedInstance(pid, Written(e));
    }
  }

  predicate SameLetter(c: char, d: char) {
    c == d || ('a' <= c <= 'z' && d as int == c as int - 32) || ('a' <= d <= 'z' && c as int == d as int - 32)
  }

  /** The same text but for the case of its ASCII letters. */
  predicate SameText(a: string, b: string) {
    |a| == |b| && forall i | 0 <= i < |a| :: SameLetter(a[i], b[i])
  }

  lemma LowerExactly(a: string, b: string)
    ensures Lower(a) == Lower(b) <==> SameText(a, b)
  {
    forall c: char, d: char ensures LowerChar(c) == LowerChar(d) <==> SameLetter(c, d) {
    }
    if Lower(a) == Lower(b) {
      forall i | 0 <= i < |a| ensures SameLetter(a[i], b[i]) {
        assert Lower(a)[i] == Lower(b)[i];
      }
    }
  }

  predicate SameEngine(a: Engine, b: Engine) {
    && SameText(a.luidHigh, b.luidHigh) && SameText(a.luidLow, b.luidLow)
    && a.physical == b.physical && a.engine == b.engine && SameText(a.engineType, b.engineType)
  }

  lemma SameEngineExactly(a: Engine, b: Engine)
    ensures SameEngine(a, b) <==>
              && Lower(a.luidHigh) == Lower(b.luidHigh) && Lower(a.luidLow) == Lower(b.luidLow)
              && a.physical == b.physical && a.engine == b.engine && Lower(a.engineType) == Lower(b.engineType)
  {
    LowerExactly(a.luidHigh, b.luidHigh);
    LowerExactly(a.luidLow, b.luidLow);
    LowerExactly(a.engineType, b.engineType);
  }

  lemma ParsedEngineIsValid(name: string)
    requires ParseInstance(name).Some?
    ensures ValidEngine(ParseInstance(name).value.1)
  {
    ParsedIsWritten(SplitOnce(StripPrefix(name, "pid_").value, "_luid_").value.1);
  }

  /** Two names are counted together exactly if they are of one engine, or are the same unreadable name. */
  lemma KeysAgreeExactly(a: string, b: string)
    ensures PhysicalEngineKey(a) == PhysicalEngineKey(b) <==>
              || (&& ParseInstance(a).Some? && ParseInstance(b).Some?
                  && SameEngine(ParseInstance(a).value.1, ParseInstance(b).value.1))
              || (ParseInstance(a).None? && ParseInstance(b).None? && a == b)
  {
    if ParseInstance(a).Some? && ParseInstance(b).Some? {
      ParsedEngineIsValid(a);
      ParsedEngineIsValid(b);
      SameEngineExactly(ParseInstance(a).value.1, ParseInstance(b).value.1);
      if PhysicalEngineKey(a) == PhysicalEngineKey(b) {
        EngineTextInjective(ParseInstance(a).value.1, ParseInstance(b).value.1);
      }
    } else if ParseInstance(a).None? && ParseInstance(b).None? {
      if PhysicalEngineKey(a) == PhysicalEngineKey(b) {
        SamePrefix("instance:", a, b);
      }
    } else {
      assert "instance:"[0] == 'i' && "engine:luid_"[0] == 'e';
      assert ParseInstance(a).None? ==> PhysicalEngineKey(a)[0] == 'i';
      assert ParseInstance(b).None? ==> PhysicalEngineKey(b)[0] == 'i';
      assert ParseInstance(a).Some? ==> PhysicalEngineKey(a)[0] == 'e';
      assert ParseInstance(b).Some? ==> PhysicalEngineKey(b)[0] == 'e';
    }
  }

  // ----- Aggregation -----

  datatype Sample = Sample(name: string, utilization: F64)

  function Share(s: Sample): real {
    if s.utilization.Fin? then Clamp(s.utilization.value, 0.0, 100.0) else 0.0
  }

  /** The clamped use of one engine, summed over all finite samples. */
  function Load(samples: seq<Sample>, key: string -> string, engine: string): real {
    if samples == [] then 0.0
    else
      var last := samples[|samples| - 1];
      Load(samples[..|samples| - 1], key, engine)
      + if last.utilization.Fin? && key(last.name) == engine then Share(last) else 0.0
  }

  function AtMost(value: real, limit: real): real {
    if value <= limit then value else limit
  }

  predicate Sampled(samples: seq<Sample>, key: string -> string, engine: string) {
    exists i | 0 <= i < |samples| :: samples[i].utilization.Fin? && key(samples[i].name) == engine
  }

  /** The greatest capped load of any engine, or nothing when no sample is finite. */
  ghost predicate IsPeak(peak: Option<real>, samples: seq<Sample>, key: string -> string) {
    match peak
    case None => forall i | 0 <= i < |samples| :: !samples[i].utilization.Fin?
    case Some(p) =>
      && (exists engine :: Sampled(samples, key, engine) && p == AtMost(Load(samples, key, engine), 100.0))
      && (forall engine | Sampled(samples, key, engine) :: AtMost(Load(samples, key, engine), 100.0) <= p)
  }

  lemma {:induction false} LoadIsNonNegative(samples: seq<Sample>, key: string -> string, engine: string)
    ensures Load(samples, key, engine) >= 0.0
  {
    if samples != [] {
      LoadIsNonNegative(samples[..|samples| - 1], key, engine);
    }
  }

  lemma PeakInRange(p: real, samples: seq<Sample>, key: string -> string)
    requires IsPeak(Some(p), samples, key)
    ensures 0.0 <= p <= 100.0
  {
    var engine :| Sampled(samples, key, engine) && p == AtMost(Load(samples, key, engine), 100.0);
    LoadIsNonNegative(samples, key, engine);
  }

  lemma PeakIsUnique(p: Option<real>, q: Option<real>, samples: seq<Sample>, key: string -> string)
    requires IsPeak(p, samples, key) && IsPeak(q, samples, key)
    ensures p == q
  {
    if p.Some? {
      var engine :| Sampled(samples, key, engine) && p.value == AtMost(Load(samples, key, engine), 100.0);
      var i :| 0 <= i < |samples| && samples[i].utilization.Fin? && key(samples[i].name) == engine;
    }
    if q.Some? {
      var engine :| Sampled(samples, key, engine) && q.value == AtMost(Load(samples, key, engine), 100.0);
      var i :| 0 <= i < |samples| && samples[i].utilization.Fin? && key(samples[i].name) == engine;
    }
  }

  lemma {:induction false} LoadConcat(a: seq<Sample>, b: seq<Sample>, key: string -> string, engine: string)
    ensures Load(a + b, key, engine) == Load(a, key, engine) + Load(b, key, engine)
  {
    if b == [] {
      assert a + b == a;
    } else {
      assert (a + b)[..|a + b| - 1] == a + b[..|b| - 1];
      LoadConcat(a, b[..|b| - 1], key, engine);
    }
  }

  lemma LoadTakeOut(a: seq<Sample>, i: nat, key: string -> string, engine: string)
    requires i < |a|
    ensures Load(a, key, engine) == Load([a[i]], key, engine) + Load(a[..i] + a[i + 1..], key, engine)
  {
    assert a == a[..i] + ([a[i]] + a[i + 1..]);
    LoadConcat(a[..i], [a[i]] + a[i + 1..], key, engine);
    LoadConcat([a[i]], a[i + 1..], key, engine);
    LoadConcat(a[..i], a[i + 1..], key, engine);
  }

  lemma TakeOut(a: seq<Sample>, x: Sample, key: string -> string, engine: string) returns (rest: seq<Sample>)
    requires x in multiset(a)
    ensures |rest| < |a| && multiset(rest) == multiset(a) - multiset{x}
    ensures Load(a, key, engine) == Load([x], key, engine) + Load(rest, key, engine)
  {
    var i :| 0 <= i < |a| && a[i] == x;
    rest := a[..i] + a[i + 1..];
    RemoveAt(a, i);
    LoadTakeOut(a, i, key, engine);
  }

  lemma {:induction false} LoadPermutation(a: seq<Sample>, b: seq<Sample>, key: string -> string, engine: string)
    requires multiset(a) == multiset(b)
    ensures Load(a, key, engine) == Load(b, key, engine)
    decreases |a|
  {
    SameElements(a, b);
    if a != [] {
      assert a[0] in multiset(a);
      var restA := TakeOut(a, a[0], key, engine);
      var restB := TakeOut(b, a[0], key, engine);
      LoadPermutation(restA, restB, key, engine);
    }
  }

  lemma SampledPermutation(a: seq<Sample>, b: seq<Sample>, key: string -> string, engine: string)
    requires multiset(a) == multiset(b) && Sampled(a, key, engine)
    ensures Sampled(b, key, engine)
  {
    var i :| 0 <= i < |a| && a[i].utilization.Fin? && key(a[i].name) == engine;
    assert a[i] in multiset(b);
    var j :| 0 <= j < |b| && b[j] == a[i];
  }

  /** What one sample adds to an engine's load: its own finite use, brought into 0 to 100. */
  lemma LoadOfOne(s: Sample, key: string -> string, engine: string)
    ensures var load := Load([s], key, engine);
            && (!s.utilization.Fin? || key(s.name) != engine ==> load == 0.0)
            && (s.utilization.Fin? && key(s.name) == engine ==>
                  load == if s.utilization.value > 100.0 then 100.0
                          else if s.utilization.value < 0.0 then 0.0 else s.utilization.value)
  {
    assert [s][..0] == [] && Load([], key, engine) == 0.0;
  }

  /** The order in which the counters are enumerated does not matter. */
  lemma PeakPermutation(p: Option<real>, a: seq<Sample>, b: seq<Sample>, key: string -> string)
    requires multiset(a) == multiset(b) && IsPeak(p, a, key)
    ensures IsPeak(p, b, key)
  {
    forall engine ensures Load(a, key, engine) == Load(b, key, engine)
      ensures Sampled(a, key, engine) <==> Sampled(b, key, engine)
    {
      LoadPermutation(a, b, key, engine);
      if Sampled(a, key, engine) { SampledPermutation(a, b, key, engine); }
      if Sampled(b, key, engine) { SampledPermutation(b, a, key, engine); }
    }
    if p.None? {
      forall i | 0 <= i < |b| ensures !b[i].utilization.Fin? {
        assert b[i] in multiset(a);
      }
    }
  }

  /** The same use under names with the same keys. */
  predicate Renamed(a: seq<Sample>, b: seq<Sample>, key: string -> string) {
    && |a| == |b|
    && forall i | 0 <= i < |a| :: key(a[i].name) == key(b[i].name) && a[i].utilization == b[i].utilization
  }

  lemma {:induction false} LoadRenamed(a: seq<Sample>, b: seq<Sample>, key: string -> string, engine: string)
    requires Renamed(a, b, key)
    ensures Load(a, key, engine) == Load(b, key, engine)
  {
    if a != [] {
      LoadRenamed(a[..|a| - 1], b[..|b| - 1], key, engine);
    }
  }

  /** Which process used an engine does not matter. */
  lemma PeakRenamed(p: Option<real>, a: seq<Sample>, b: seq<Sample>, key: string -> string)
    requires Renamed(a, b, key) && IsPeak(p, a, key)
    ensures IsPeak(p, b, key)
  {
    forall engine ensures Load(a, key, engine) == Load(b, key, engine)
      ensures Sampled(a, key, engine) <==> Sampled(b, key, engine)
    {
      LoadRenamed(a, b, key, engine);
    }
  }

  /** The same engine used by what may be another process. */
  ghost predicate SameButPid(a: string, b: string) {
    || a == b
    || exists pid, other, rest ::
         && ValidDecimal(pid) && ValidDecimal(other) && ParseEngine(rest).Some?
         && a == InstanceName(pid, rest) && b == InstanceName(other, rest)
  }

  lemma SameButPidSameKey(a: string, b: string)
    requires SameButPid(a, b)
    ensures PhysicalEngineKey(a) == PhysicalEngineKey(b)
  {
    if a != b {
      var pid, other, rest :| ValidDecimal(pid) && ValidDecimal(other) && ParseEngine(rest).Some?
                              && a == InstanceName(pid, rest) && b == InstanceName(other, rest);
      PidIsIrrelevant(pid, other, rest);
    }
  }

  ghost predicate PidsReplaced(a: seq<Sample>, b: seq<Sample>) {
    && |a| == |b|
    && forall i | 0 <= i < |a| :: SameButPid(a[i].name, b[i].name) && a[i].utilization == b[i].utilization
  }

  /** Replacing process ids in well-formed names leaves the utilisation as it was. */
  lemma PidsDoNotMatter(p: Option<real>, a: seq<Sample>, b: seq<Sample>)
    requires PidsReplaced(a, b) && IsPeak(p, a, PhysicalEngineKey)
    ensures IsPeak(p, b, PhysicalEngineKey)
    ensures forall q | IsPeak(q, b, PhysicalEngineKey) :: q == p
  {
    forall i | 0 <= i < |a| ensures PhysicalEngineKey(a[i].name) == PhysicalEngineKey(b[i].name) {
      SameButPidSameKey(a[i].name, b[i].name);
    }
    PeakRenamed(p, a, b, PhysicalEngineKey);
    forall q | IsPeak(q, b, PhysicalEngineKey) ensures q == p {
      PeakIsUnique(q, p, b, PhysicalEngineKey);
    }
  }

  lemma SampledNext(samples: seq<Sample>, key: string -> string, engine: string)
    requires samples != []
    ensures Sampled(samples, key, engine) <==>
              || Sampled(samples[..|samples| - 1], key, engine)
              || (samples[|samples| - 1].utilization.Fin? && key(samples[|samples| - 1].name) == engine)
  {
    var rest, last := samples[..|samples| - 1], samples[|samples| - 1];
    if Sampled(rest, key, engine) {
      var i :| 0 <= i < |rest| && rest[i].utilization.Fin? && key(rest[i].name) == engine;
      assert samples[i] == rest[i];
    }
    if Sampled(samples, key, engine) {
      var i :| 0 <= i < |samples| && samples[i].utilization.Fin? && key(samples[i].name) == engine;
      assert i < |rest| ==> rest[i] == samples[i];
    }
  }

  ghost predicate Totals(totals: map<string, real>, samples: seq<Sample>, key: string -> string) {
    && (forall engine :: engine in totals <==> Sampled(samples, key, engine))
    && (forall engine | engine in totals :: totals[engine] == AtMost(Load(samples, key, engine), 100.0))
  }

  lemma {:induction false} UnsampledLoad(samples: seq<Sample>, key: string -> string, engine: string)
    requires !Sampled(samples, key, engine)
    ensures Load(samples, key, engine) == 0.0
  {
    if samples != [] {
      SampledNext(samples, key, engine);
      UnsampledLoad(samples[..|samples| - 1], key, engine);
    }
  }

  lemma TotalsNext(totals: map<string, real>, samples: seq<Sample>, key: string -> string)
    requires samples != [] && Totals(totals, samples[..|samples| - 1], key)
    ensures var last := samples[|samples| - 1];
            var engine := key(last.name);
            Totals(if last.utilization.Fin?
                   then totals[engine := AtMost((if engine in totals then totals[engine] else 0.0) + Share(last), 100.0)]
                   else totals, samples, key)
  {
    var last := samples[|samples| - 1];
    forall engine ensures Sampled(samples, key, engine) <==>
        || Sampled(samples[..|samples| - 1], key, engine) || (last.utilization.Fin? && key(last.name) == engine)
    {
      SampledNext(samples, key, engine);
    }
    if !Sampled(samples[..|samples| - 1], key, key(last.name)) {
      UnsampledLoad(samples[..|samples| - 1], key, key(last.name));
    }
  }

  /** Add each finite sample to its engine, saturating, and take the greatest total. */
  method AggregateBy(samples: seq<Sample>, key: string -> string) returns (peak: Option<real>)
    ensures IsPeak(peak, samples, key)
  {
    var totals: map<string, real> := map[];
    for i := 0 to |samples|
      invariant Totals(totals, samples[..i], key)
    {
      assert samples[..i + 1][..i] == samples[..i];
      TotalsNext(totals, samples[..i + 1], key);
      if samples[i].utilization.Fin? {
        var engine := key(samples[i].name);
        var total := if engine in totals then totals[engine] else 0.0;
        totals := totals[engine := AtMost(total + Clamp(samples[i].utilization.value, 0.0, 100.0), 100.0)];
      }
    }
    assert samples[..|samples|] == samples;
    peak := None;
    var left := totals.Keys;
    while left != {}
      invariant left <= totals.Keys
      invariant peak.None? <==> left == totals.Keys
      invariant peak.Some? ==> exists engine | engine in totals.Keys :: peak.value == totals[engine]
      invariant peak.Some? ==> forall engine | engine in totals.Keys - left :: totals[engine] <= peak.value
      decreases |left|
    {
      var engine :| engine in left;
      left := left - {engine};
      if peak.None? || totals[engine] >= peak.value {
        peak := Some(totals[engine]);
      }
    }
    if peak.None? {
      forall i | 0 <= i < |samples| ensures !samples[i].utilization.Fin? {
        if samples[i].utilization.Fin? {
          assert Sampled(samples, key, key(samples[i].name));
        }
      }
    } else {
      var engine :| engine in totals.Keys && peak.value == totals[engine];
      assert Sampled(samples, key, engine) && peak.value == AtMost(Load(samples, key, engine), 100.0);
    }
  }

  method AggregateEngineUtilization(samples: seq<Sample>) returns (utilization: Option<real>)
    ensures IsPeak(utilization, samples, PhysicalEngineKey)
    ensures utilization.Some? ==> 0.0 <= utilization.value <= 100.0
    ensures utilization.None? <==> forall i | 0 <= i < |samples| :: !samples[i].utilization.Fin?
  {
    var peak := AggregateBy(samples, PhysicalEngineKey);
    if peak.Some? {
      PeakInRange(peak.value, samples, PhysicalEngineKey);
      PeakIsUnique(peak, peak, samples, PhysicalEngineKey);
    }
    utilization := if peak.Some? then Some(Clamp(peak.value, 0.0, 100.0)) else None;
  }
}
