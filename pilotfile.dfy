/** The pilot-file reader's constants and its clamp-with-warning helper.

    A pilot file (`.plr`) or campaign save (`.csg`) starts with a 32-bit
    identifier written little-endian, followed by a one-byte version.  While
    a file is read, out-of-range settings are forced into range and a
    human-readable line is appended to `clamped_range_warnings` for each one. */
module PilotFile {

  /** `PLR_FILE_ID`: the tag "PLR_" read as a little-endian 32-bit value. */
  const PlrFileId: bv32 := 0x5f52_4c50
  /** `CSG_FILE_ID`: the tag "CSG_" read as a little-endian 32-bit value. */
  const CsgFileId: bv32 := 0x5f47_5343

  /** Current format versions (one byte each). */
  const PlrVersion: bv8 := 4
  const CsgVersion: bv8 := 8
  /** Version value while no file is loaded. */
  const PlrVersionInvalid: bv8 := 0xFF

  // ---------------------------------------------------------------------
  // Little-endian layout of the file identifiers
  // ---------------------------------------------------------------------

  /** The four bytes of `x` in file order, least significant first. */
  function LittleEndian(x: bv32): (b: seq<bv8>)
    ensures |b| == 4
  {
    [ (x & 0xFF) as bv8, ((x >> 8) & 0xFF) as bv8,
      ((x >> 16) & 0xFF) as bv8, ((x >> 24) & 0xFF) as bv8 ]
  }

  /** The 32-bit value whose little-endian bytes are `b`. */
  function FromLittleEndian(b: seq<bv8>): (x: bv32)
    requires |b| == 4
  {
    (b[0] as bv32) | ((b[1] as bv32) << 8) | ((b[2] as bv32) << 16) | ((b[3] as bv32) << 24)
  }

  lemma LittleEndianRoundTrip(x: bv32)
    ensures FromLittleEndian(LittleEndian(x)) == x
  {
  }

  lemma FromLittleEndianRoundTrip(b: seq<bv8>)
    requires |b| == 4
    ensures LittleEndian(FromLittleEndian(b)) == b
  {
  }

  /** Bytes read as 8-bit characters. */
  function AsText(b: seq<bv8>): (s: string)
    ensures |s| == |b|
    ensures forall i :: 0 <= i < |b| ==> s[i] as int == b[i] as int
  {
    if b == [] then [] else [(b[0] as int) as char] + AsText(b[1..])
  }

  /** On disk the identifiers spell their tags. */
  lemma FileIdsSpellTags()
    ensures AsText(LittleEndian(PlrFileId)) == "PLR_"
    ensures AsText(LittleEndian(CsgFileId)) == "CSG_"
  {
  }

  /** The "not loaded" version can never be mistaken for a current one. */
  lemma InvalidVersionIsDistinct()
    ensures PlrVersionInvalid != PlrVersion && PlrVersionInvalid != CsgVersion
  {
  }

  // ---------------------------------------------------------------------
  // Decimal rendering of integers (std::to_string on an int)
  // ---------------------------------------------------------------------

  predicate IsDigit(c: char) { '0' <= c <= '9' }

  function DigitChar(d: int): (c: char)
    requires 0 <= d < 10
    ensures IsDigit(c) && c as int - '0' as int == d
  {
    ('0' as int + d) as char
  }

  /** Decimal digits of `n`, most significant first, without leading zeros. */
  function NatToString(n: nat): (s: string)
    ensures |s| >= 1 && (forall i :: 0 <= i < |s| ==> IsDigit(s[i]))
    ensures |s| > 1 ==> s[0] != '0'
  {
    if n < 10 then [DigitChar(n)] else NatToString(n / 10) + [DigitChar(n % 10)]
  }

  /** `std::to_string` of an integer: a minus sign for negative values. */
  function IntToString(n: int): (s: string)
    ensures |s| >= 1 && (forall i :: 0 <= i < |s| ==> IsDigit(s[i]) || s[i] == '-')
    ensures '\n' !in s
  {
    if n < 0 then "-" + NatToString(-n) else NatToString(n)
  }

  /** The value written by a string of decimal digits. */
  function ParseNat(s: string): nat
    requires forall i :: 0 <= i < |s| ==> IsDigit(s[i])
  {
    if s == [] then 0
    else
      assert IsDigit(s[|s| - 1]);
      ParseNat(s[..|s| - 1]) * 10 + (s[|s| - 1] as int - '0' as int)
  }

  /** The value written by an optional minus sign and decimal digits. */
  function ParseInt(s: string): int
    requires |s| >= 1
    requires forall i :: 1 <= i < |s| ==> IsDigit(s[i])
    requires IsDigit(s[0]) || s[0] == '-'
  {
    if s[0] == '-' then -(ParseNat(s[1..]) as int) else ParseNat(s)
  }

  lemma {:induction false} NatToStringRoundTrip(n: nat)
    ensures ParseNat(NatToString(n)) == n
  {
    if n >= 10 {
      var s := NatToString(n);
      assert s[..|s| - 1] == NatToString(n / 10);
      NatToStringRoundTrip(n / 10);
    }
  }

  /** The numbers in a warning line can be read back exactly. */
  lemma IntToStringRoundTrip(n: int)
    ensures ParseInt(IntToString(n)) == n
  {
    var s := IntToString(n);
    if n < 0 {
      assert s[1..] == NatToString(-n);
      NatToStringRoundTrip(-n);
    } else {
      NatToStringRoundTrip(n);
    }
  }

  // ---------------------------------------------------------------------
  // clamp_value_with_warn
  // ---------------------------------------------------------------------

  /** The value `clamp_value_with_warn` leaves behind: below `min` becomes
      `min`, otherwise above `max` becomes `max`, otherwise unchanged. */
  function Clamped(value: int, min: int, max: int): (r: int)
    ensures min <= max ==> min <= r <= max
    ensures min <= value <= max ==> r == value
    ensures r == value || r == min || r == max
    ensures value < min ==> r == min
    ensures min <= value && value > max ==> r == max
  {
    if value < min then min else if value > max then max else value
  }

  lemma NewlineFreeConcat(a: string, b: string)
    requires '\n' !in a && '\n' !in b
    ensures '\n' !in a + b
  {
  }

  /** The start of a warning after the setting's name: `: too <how> (`. */
  function WarningHead(how: string): (h: string)
    ensures '\n' !in how ==> '\n' !in h
    ensures |h| == |how| + 8 && h[6..6 + |how|] == how
  {
    assert '\n' !in how ==> '\n' !in ": too " + how + " (" by {
      if '\n' !in how {
        NewlineFreeConcat(": too ", how);
        NewlineFreeConcat(": too " + how, " (");
      }
    }
    ": too " + how + " ("
  }

  /** The rest of a warning: `<value>). Will reset to <boundName> (<bound>)`,
      which starts with the offending value. */
  function WarningTail(value: int, boundName: string, bound: int): (t: string)
    ensures IntToString(value) <= t
    ensures '\n' !in boundName ==> '\n' !in t
  {
    var v, bd := IntToString(value), IntToString(bound);
    TailHasNoNewline(v, boundName, bd);
    assert (v + "). Will reset to " + boundName + " (" + bd + ")")[..|v|] == v;
    v + "). Will reset to " + boundName + " (" + bd + ")"
  }

  lemma TailHasNoNewline(v: string, boundName: string, bd: string)
    requires '\n' !in v && '\n' !in bd
    ensures '\n' !in boundName ==> '\n' !in v + "). Will reset to " + boundName + " (" + bd + ")"
  {
    if '\n' !in boundName {
      var w := v;
      NewlineFreeConcat(w, "). Will reset to ");
      w := w + "). Will reset to ";
      NewlineFreeConcat(w, boundName);
      w := w + boundName;
      NewlineFreeConcat(w, " (");
      w := w + " (";
      NewlineFreeConcat(w, bd);
      w := w + bd;
      NewlineFreeConcat(w, ")");
    }
  }

  /** One warning line: the setting's name, the head, the tail and a newline. */
  function WarningLine(name: string, how: string, value: int, boundName: string, bound: int): (w: string)
    requires '\n' !in how && '\n' !in boundName
    ensures |w| > |name| && name + WarningHead(how) <= w && w[|w| - 1] == '\n'
    ensures '\n' !in name ==> multiset(w)['\n'] == 1
  {
    var head, tail := WarningHead(how), WarningTail(value, boundName, bound);
    LineShape(name, head, tail);
    name + head + tail + "\n"
  }

  /** A name followed by a newline-free head and tail and a newline make
      exactly one line, which starts with the name and the head. */
  lemma LineShape(name: string, head: string, tail: string)
    requires '\n' !in head && '\n' !in tail
    ensures var w := name + head + tail + "\n";
            |w| > |name| && name + head <= w && w[|w| - 1] == '\n'
    ensures '\n' !in name ==> multiset(name + head + tail + "\n")['\n'] == 1
  {
    var w := name + head + tail + "\n";
    assert w[..|name + head|] == name + head;
    assert multiset(head)['\n'] == 0 && multiset(tail)['\n'] == 0;
    assert multiset(w) == multiset(name) + multiset(head) + multiset(tail) + multiset("\n");
  }

  /** The text `clamp_value_with_warn` appends to the warnings: empty when
      the value is in range, otherwise one line naming the setting, the
      offending value and the bound it was reset to. */
  function ClampWarning(value: int, min: int, max: int, name: string): (w: string)
    ensures w == [] <==> min <= value <= max
    ensures w != [] ==> |w| > |name| && name <= w && w[|w| - 1] == '\n'
    ensures value < min ==> name + WarningHead("low") <= w
    ensures min <= value && value > max ==> name + WarningHead("high") <= w
    ensures '\n' !in name ==> multiset(w)['\n'] == (if w == [] then 0 else 1)
  {
    if value < min then WarningLine(name, "low", value, "minimum", min)
    else if value > max then WarningLine(name, "high", value, "maximum", max)
    else []
  }

  /** With consistent bounds a clamped value is left alone by a second clamp,
      which also adds no warning. */
  lemma ClampIdempotent(value: int, min: int, max: int, name: string)
    requires min <= max
    ensures Clamped(Clamped(value, min, max), min, max) == Clamped(value, min, max)
    ensures ClampWarning(Clamped(value, min, max), min, max, name) == []
  {
  }

  /** With `min > max` the bounds fight: a value below `min` is reset to `min`,
      which is above `max`, so clamping again moves it to `max`. */
  lemma InvertedBoundsAreNotIdempotent(value: int, min: int, max: int)
    requires max < min && value < min
    ensures Clamped(value, min, max) == min
    ensures Clamped(Clamped(value, min, max), min, max) == max != min
  {
  }

  /** The part of the pilot-file reader that `clamp_value_with_warn` touches. */
  class Pilotfile {
    var clampedRangeWarnings: string

    constructor ()
      ensures clampedRangeWarnings == []
    {
      clampedRangeWarnings := [];
    }

    /** `clamp_value_with_warn(&value, min, max, name)`: the value written
        back through the pointer is returned as `newValue`. */
    method ClampValueWithWarn(value: int, min: int, max: int, name: string) returns (newValue: int)
      modifies this
      ensures newValue == Clamped(value, min, max)
      ensures min <= max ==> min <= newValue <= max
      ensures clampedRangeWarnings == old(clampedRangeWarnings) + ClampWarning(value, min, max, name)
      ensures old(clampedRangeWarnings) <= clampedRangeWarnings
      ensures min <= value <= max ==> newValue == value && clampedRangeWarnings == old(clampedRangeWarnings)
    {
      newValue := value;
      if value < min {
        clampedRangeWarnings := clampedRangeWarnings + WarningLine(name, "low", value, "minimum", min);
        newValue := min;
      } else if value > max {
        clampedRangeWarnings := clampedRangeWarnings + WarningLine(name, "high", value, "maximum", max);
        newValue := max;
      }
    }
  }
}
