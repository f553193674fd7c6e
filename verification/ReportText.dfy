/** The scalar and text rules of the report contract. */
module ReportText {
  import opened Wrappers

  // ----- Floating point -----

  /** A 64-bit float without rounding; signed zeros coincide. */
  datatype F64 = NaN | PosInf | NegInf | Fin(value: real)

  const F64_MAX: PositiveReal
  const F64_MIN_POSITIVE: PositiveReal
  type PositiveReal = r: real | r > 0.0 witness 1.0

  function Clamp(value: real, low: real, high: real): real {
    if value < low then low else if value > high then high else value
  }

  function Percent(v: F64): F64 {
    if v.Fin? then Fin(Clamp(v.value, 0.0, 100.0)) else Fin(0.0)
  }

  function NonNegative(v: F64): F64 {
    if v.Fin? && v.value >= 0.0 then v else Fin(0.0)
  }

  predicate InRange(v: F64, low: real, high: real) {
    v.Fin? && low <= v.value <= high
  }

  /** Values outside the range are dropped, never clamped. */
  function Ranged(v: Option<F64>, low: real, high: real): Option<F64> {
    if v.Some? && !InRange(v.value, low, high) then None else v
  }

  /** The order of `f64::total_cmp` on these values. */
  predicate F64Le(a: F64, b: F64) {
    match (a, b)
    case (NegInf, _) => true
    case (_, NaN) => true
    case (PosInf, PosInf) => true
    case (Fin(x), Fin(y)) => x <= y
    case (Fin(_), PosInf) => true
    case _ => false
  }

  // ----- UTF-8 text -----

  function Utf8Len(c: char): (n: nat)
    ensures 1 <= n <= 4
  {
    var code := c as int;
    if code < 0x80 then 1 else if code < 0x800 then 2 else if code < 0x1_0000 then 3 else 4
  }

  function ByteLen(s: string): nat {
    if s == [] then 0 else Utf8Len(s[0]) + ByteLen(s[1..])
  }

  /** The control characters: U+0000 to U+001F and U+007F to U+009F. */
  predicate IsControl(c: char) {
    c as int < 0x20 || 0x7f <= c as int < 0xa0
  }

  /** The White_Space characters. */
  predicate IsWhitespace(c: char) {
    var code := c as int;
    || 0x9 <= code <= 0xd || code == 0x20 || code == 0x85 || code == 0xa0 || code == 0x1680
    || 0x2000 <= code <= 0x200a || code == 0x2028 || code == 0x2029 || code == 0x202f || code == 0x205f
    || code == 0x3000
  }

  predicate IsBlank(s: string) {
    forall i | 0 <= i < |s| :: IsWhitespace(s[i])
  }

  predicate ControlFree(s: string) {
    forall i | 0 <= i < |s| :: !IsControl(s[i])
  }

  /** A string the wire contract admits. */
  predicate CleanText(s: string, maximum: nat) {
    ControlFree(s) && ByteLen(s) <= maximum
  }

  function StripControls(s: string): string {
    if s == [] then [] else (if IsControl(s[0]) then [] else [s[0]]) + StripControls(s[1..])
  }

  /** As many whole code points as fit. */
  function TakeBytes(s: string, maximum: nat): string {
    if s == [] || Utf8Len(s[0]) > maximum then [] else [s[0]] + TakeBytes(s[1..], maximum - Utf8Len(s[0]))
  }

  function StripAndTruncate(s: string, maximum: nat): string {
    TakeBytes(StripControls(s), maximum)
  }

  function RequiredText(s: string, maximum: nat, fallback: string): string {
    var text := StripAndTruncate(s, maximum);
    if IsBlank(text) then TakeBytes(fallback, maximum) else text
  }

  function OptionalText(s: Option<string>, maximum: nat): Option<string> {
    if s.Some? then Some(StripAndTruncate(s.value, maximum)) else None
  }

  function OptionalNonempty(s: Option<string>, maximum: nat): Option<string> {
    if s.Some? && !IsBlank(StripAndTruncate(s.value, maximum)) then Some(StripAndTruncate(s.value, maximum)) else None
  }

  lemma {:induction false} ByteLenConcat(a: string, b: string)
    ensures ByteLen(a + b) == ByteLen(a) + ByteLen(b)
  {
    if a == [] {
      assert a + b == b;
    } else {
      assert (a + b)[1..] == a[1..] + b;
      ByteLenConcat(a[1..], b);
    }
  }

  /** `TakeBytes` is the longest prefix of whole code points within the byte limit. */
  lemma {:induction false} TakeBytesIsLongestPrefix(s: string, maximum: nat)
    ensures TakeBytes(s, maximum) <= s
    ensures ByteLen(TakeBytes(s, maximum)) <= maximum
    ensures forall k | |TakeBytes(s, maximum)| < k <= |s| :: ByteLen(s[..k]) > maximum
  {
    if s != [] && Utf8Len(s[0]) <= maximum {
      var left := maximum - Utf8Len(s[0]);
      TakeBytesIsLongestPrefix(s[1..], left);
      forall k | |TakeBytes(s, maximum)| < k <= |s| ensures ByteLen(s[..k]) > maximum {
        assert s[..k][1..] == s[1..][..k - 1];
      }
    } else if s != [] {
      forall k | 0 < k <= |s| ensures ByteLen(s[..k]) > maximum {
        assert s[..k][0] == s[0];
      }
    }
  }

  lemma {:induction false} TakeBytesFits(s: string, maximum: nat)
    requires ByteLen(s) <= maximum
    ensures TakeBytes(s, maximum) == s
  {
    if s != [] {
      TakeBytesFits(s[1..], maximum - Utf8Len(s[0]));
    }
  }

  lemma {:induction false} StripControlsStrips(s: string)
    ensures ControlFree(StripControls(s))
    ensures ControlFree(s) ==> StripControls(s) == s
  {
    if s != [] {
      StripControlsStrips(s[1..]);
      assert s == [s[0]] + s[1..];
    }
  }

  lemma {:induction false} StripControlsConcat(a: string, b: string)
    ensures StripControls(a + b) == StripControls(a) + StripControls(b)
  {
    if a == [] {
      assert a + b == b;
    } else {
      assert (a + b)[1..] == a[1..] + b;
      StripControlsConcat(a[1..], b);
    }
  }

  lemma {:induction false} AsciiLength(s: string)
    requires forall i | 0 <= i < |s| :: s[i] as int < 0x80
    ensures ByteLen(s) == |s|
  {
    if s != [] {
      AsciiLength(s[1..]);
    }
  }

  predicate Printable(s: string) {
    forall i | 0 <= i < |s| :: 0x20 <= s[i] as int < 0x7f
  }

  lemma PrintableIsClean(s: string, maximum: nat)
    requires Printable(s) && 0 < |s| <= maximum && s[0] != ' '
    ensures CleanText(s, maximum) && !IsBlank(s)
  {
    AsciiLength(s);
    assert !IsWhitespace(s[0]);
  }

  lemma StripAndTruncateCleans(s: string, maximum: nat)
    ensures CleanText(StripAndTruncate(s, maximum), maximum)
    ensures CleanText(s, maximum) ==> StripAndTruncate(s, maximum) == s
  {
    StripControlsStrips(s);
    TakeBytesIsLongestPrefix(StripControls(s), maximum);
    if CleanText(s, maximum) {
      TakeBytesFits(s, maximum);
    }
  }

  /** A fallback the code uses: printable, starting with a visible ASCII character. */
  predicate Fallback(s: string) {
    ControlFree(s) && s != [] && s[0] as int < 0x80 && !IsWhitespace(s[0])
  }

  lemma RequiredTextIsStable(s: string, maximum: nat, fallback: string)
    requires Fallback(fallback)
    ensures CleanText(RequiredText(s, maximum, fallback), maximum)
    ensures IsBlank(RequiredText(s, maximum, fallback)) ==> maximum == 0
    ensures RequiredText(RequiredText(s, maximum, fallback), maximum, fallback) == RequiredText(s, maximum, fallback)
    ensures CleanText(s, maximum) && !IsBlank(s) ==> RequiredText(s, maximum, fallback) == s
  {
    StripAndTruncateCleans(s, maximum);
    TakeBytesIsLongestPrefix(fallback, maximum);
    var text := RequiredText(s, maximum, fallback);
    StripAndTruncateCleans(text, maximum);
  }

  lemma OptionalTextIsStable(s: Option<string>, maximum: nat)
    ensures OptionalText(s, maximum).Some? ==> CleanText(OptionalText(s, maximum).value, maximum)
    ensures OptionalText(OptionalText(s, maximum), maximum) == OptionalText(s, maximum)
    ensures s.Some? && CleanText(s.value, maximum) ==> OptionalText(s, maximum) == s
  {
    if s.Some? {
      StripAndTruncateCleans(s.value, maximum);
      StripAndTruncateCleans(StripAndTruncate(s.value, maximum), maximum);
    }
  }

  lemma OptionalNonemptyIsStable(s: Option<string>, maximum: nat)
    ensures OptionalNonempty(s, maximum).Some? ==>
              CleanText(OptionalNonempty(s, maximum).value, maximum) && !IsBlank(OptionalNonempty(s, maximum).value)
    ensures OptionalNonempty(OptionalNonempty(s, maximum), maximum) == OptionalNonempty(s, maximum)
    ensures s.Some? && CleanText(s.value, maximum) && !IsBlank(s.value) ==> OptionalNonempty(s, maximum) == s
  {
    if s.Some? {
      StripAndTruncateCleans(s.value, maximum);
      StripAndTruncateCleans(StripAndTruncate(s.value, maximum), maximum);
    }
  }

  lemma DescriptiveTextIsStable(s: string, maximum: nat)
    ensures CleanText(StripAndTruncate(s, maximum), maximum)
    ensures StripAndTruncate(StripAndTruncate(s, maximum), maximum) == StripAndTruncate(s, maximum)
    ensures CleanText(s, maximum) ==> StripAndTruncate(s, maximum) == s
  {
    StripAndTruncateCleans(s, maximum);
    StripAndTruncateCleans(StripAndTruncate(s, maximum), maximum);
  }

  // ----- The in-place text operations -----

  /** Whether a byte offset falls between two code points. */
  predicate IsCharBoundary(s: string, offset: nat) {
    exists k | 0 <= k <= |s| :: ByteLen(s[..k]) == offset
  }

  /** Walk back from the byte limit to the nearest code point boundary and cut there. */
  method TruncateUtf8(value: string, maximum: nat) returns (cut: string)
    ensures cut == TakeBytes(value, maximum)
  {
    if ByteLen(value) <= maximum {
      TakeBytesFits(value, maximum);
      return value;
    }
    var end := maximum;
    assert IsCharBoundary(value, 0) by {
      assert ByteLen(value[..0]) == 0;
    }
    while !IsCharBoundary(value, end)
      invariant 0 <= end <= maximum
      invariant forall e | end < e <= maximum :: !IsCharBoundary(value, e)
      decreases end
    {
      end := end - 1;
    }
    var k :| 0 <= k <= |value| && ByteLen(value[..k]) == end;
    cut := value[..k];
    TakeBytesIsLongestPrefix(value, maximum);
    var longest := |TakeBytes(value, maximum)|;
    assert value[..longest] == TakeBytes(value, maximum);
    if k < longest {
      assert value[..longest] == value[..k] + value[k..longest];
      ByteLenConcat(value[..k], value[k..longest]);
      assert ByteLen(value[k..longest]) >= 1;
      assert IsCharBoundary(value, ByteLen(value[..longest]));
      assert false;
    }
    assert k == longest;
  }

  method StripControlsInPlace(value: string) returns (kept: string)
    ensures kept == StripControls(value)
  {
    kept := [];
    for i := 0 to |value|
      invariant kept == StripControls(value[..i])
    {
      assert value[..i + 1] == value[..i] + [value[i]];
      StripControlsConcat(value[..i], [value[i]]);
      if !IsControl(value[i]) {
        kept := kept + [value[i]];
      }
    }
    assert value[..|value|] == value;
  }

  method BoundRequiredText(value: string, maximum: nat, fallback: string) returns (bounded: string, changed: bool)
    ensures bounded == RequiredText(value, maximum, fallback)
    ensures changed <==> bounded != value
  {
    var kept := StripControlsInPlace(value);
    bounded := TruncateUtf8(kept, maximum);
    if IsBlank(bounded) {
      bounded := TruncateUtf8(fallback, maximum);
    }
    changed := bounded != value;
  }

  method BoundDescriptiveText(value: string, maximum: nat) returns (bounded: string, changed: bool)
    ensures bounded == StripAndTruncate(value, maximum)
    ensures changed <==> bounded != value
  {
    var kept := StripControlsInPlace(value);
    bounded := TruncateUtf8(kept, maximum);
    changed := bounded != value;
  }

  method BoundOptionalText(value: Option<string>, maximum: nat) returns (bounded: Option<string>, changed: bool)
    ensures bounded == OptionalText(value, maximum)
    ensures changed <==> bounded != value
  {
    match value
    case None => return None, false;
    case Some(text) =>
      var kept, c := BoundDescriptiveText(text, maximum);
      return Some(kept), c;
  }

  method BoundOptionalNonemptyText(value: Option<string>, maximum: nat)
    returns (bounded: Option<string>, changed: bool)
    ensures bounded == OptionalNonempty(value, maximum)
    ensures changed <==> bounded != value
  {
    bounded := value;
    if value.Some? {
      var kept, _ := BoundDescriptiveText(value.value, maximum);
      bounded := if IsBlank(kept) then None else Some(kept);
    }
    changed := bounded != value;
  }
}
