/** The cell-level helpers that both pet converters, convert_pets.js and
    backend/src/convert/convert_pets.js, apply to a parsed CSV row: safe trimmed access,
    JavaScript's parseInt and the `|| default` fallback, the `/\d+/g` digit runs of the price
    text with their minimum and maximum, the slug rule `.replace(/\s+/g, '_')`, and the
    record both of them build. */
module PetFields {
  import opened Text

  datatype Option<T> = None | Some(value: T)

  // ---------------------------------------------------------------------------
  // Cells

  /** `(row[idx] || '').trim()`: a cell past the end of the row reads as the empty text. */
  function Get(row: seq<string>, idx: nat): (r: string)
    ensures r == [] || (!IsSpace(r[0]) && !IsSpace(r[|r| - 1]))
    ensures idx >= |row| ==> r == ""
    ensures idx < |row| ==> exists a, b :: AllSpace(a) && AllSpace(b) && row[idx] == a + r + b
  {
    if idx < |row| then Strip(row[idx]) else ""
  }

  // ---------------------------------------------------------------------------
  // parseInt

  predicate IsHexDigit(c: char) {
    IsDigit(c) || ('a' <= c <= 'f') || ('A' <= c <= 'F')
  }

  predicate IsRadixDigit(c: char, hex: bool) {
    if hex then IsHexDigit(c) else IsDigit(c)
  }

  function HexDigitValue(c: char): (d: nat)
    requires IsHexDigit(c)
    ensures d < 16
  {
    if IsDigit(c) then DigitValue(c)
    else if 'a' <= c <= 'f' then c as int - 'a' as int + 10
    else c as int - 'A' as int + 10
  }

  /** The value of a digit of the radix (only ever asked of digits). */
  function RadixValue(c: char, hex: bool): (d: nat)
    ensures d < (if hex then 16 else 10)
  {
    if !IsRadixDigit(c, hex) then 0 else if hex then HexDigitValue(c) else DigitValue(c)
  }

  /** The number the digits of the radix at positions `i` to `j - 1` denote. */
  function ValueAt(s: string, i: nat, j: nat, hex: bool): nat
    requires i <= j <= |s|
    decreases j - i
  {
    if j == i then 0 else ValueAt(s, i, j - 1, hex) * (if hex then 16 else 10) + RadixValue(s[j - 1], hex)
  }

  /** How many digits of the radix follow position `i`. */
  function DigitsFrom(s: string, i: nat, hex: bool): (n: nat)
    requires i <= |s|
    ensures i + n <= |s|
    ensures i + n < |s| ==> !IsRadixDigit(s[i + n], hex)
    decreases |s| - i
  {
    if i < |s| && IsRadixDigit(s[i], hex) then 1 + DigitsFrom(s, i + 1, hex) else 0
  }

  /** Every character of the run is a digit of the radix. */
  lemma {:induction false} DigitsFromDigits(s: string, i: nat, hex: bool)
    requires i <= |s|
    ensures forall j :: i <= j < i + DigitsFrom(s, i, hex) ==> IsRadixDigit(s[j], hex)
    decreases |s| - i
  {
    if i < |s| && IsRadixDigit(s[i], hex) {
      DigitsFromDigits(s, i + 1, hex);
    }
  }

  /** The run of digits of the radix at position `i`, read as a number; None when there is
      none. */
  function ReadDigitsAt(s: string, i: nat, hex: bool): (r: Option<int>)
    requires i <= |s|
    ensures r.Some? <==> DigitsFrom(s, i, hex) > 0
    ensures r.Some? ==> r.value >= 0
  {
    var n := DigitsFrom(s, i, hex);
    if n == 0 then None else Some(ValueAt(s, i, i + n, hex))
  }

  /** The unsigned part from position `i`: a `0x`/`0X` prefix selects base 16, anything
      else base 10. */
  function ReadUnsignedAt(s: string, i: nat): (r: Option<int>)
    requires i <= |s|
    ensures r.Some? ==> r.value >= 0
    ensures r.Some? ==> i < |s| && IsDigit(s[i])
  {
    if i + 2 <= |s| && s[i] == '0' && (s[i + 1] == 'x' || s[i + 1] == 'X') then ReadDigitsAt(s, i + 2, true)
    else ReadDigitsAt(s, i, false)
  }

  function Negate(p: Option<int>): Option<int> {
    if p.None? then None else Some(-p.value)
  }

  /** JavaScript's parseInt(s) with no radix: leading whitespace skipped, an optional sign,
      an optional `0x`/`0X` prefix selecting base 16, then the longest run of digits; no
      digits at all gives NaN, written None. A number is only ever read from text that
      holds a decimal digit, and it is negative only behind a '-' after the whitespace. */
  function ParseInt(s: string): (r: Option<int>)
    ensures r.Some? ==> exists i :: 0 <= i < |s| && IsDigit(s[i])
    ensures r.Some? && r.value < 0 ==> LeadingSpaces(s) < |s| && s[LeadingSpaces(s)] == '-'
  {
    var k := LeadingSpaces(s);
    if k < |s| && s[k] == '-' then Negate(ReadUnsignedAt(s, k + 1))
    else if k < |s| && s[k] == '+' then ReadUnsignedAt(s, k + 1)
    else ReadUnsignedAt(s, k)
  }

  /** A run of digits of the radix followed by a non-digit is read to its end. */
  lemma {:induction false} DigitsFromExtend(x: string, y: string, i: nat, hex: bool)
    requires i <= |x|
    requires i + DigitsFrom(x, i, hex) < |x| || y == [] || !IsRadixDigit(y[0], hex)
    ensures DigitsFrom(x + y, i, hex) == DigitsFrom(x, i, hex)
    decreases |x| - i
  {
    var s := x + y;
    if i == |x| {
      if y != [] {
        assert s[i] == y[0];
      }
    } else {
      assert s[i] == x[i];
      if IsRadixDigit(x[i], hex) {
        DigitsFromExtend(x, y, i + 1, hex);
      }
    }
  }

  /** A stretch made only of digits of the radix is counted to its end. */
  lemma {:induction false} DigitsFromAll(s: string, i: nat, hex: bool)
    requires i <= |s| && forall j :: i <= j < |s| ==> IsRadixDigit(s[j], hex)
    ensures DigitsFrom(s, i, hex) == |s| - i
    decreases |s| - i
  {
    if i < |s| {
      DigitsFromAll(s, i + 1, hex);
    }
  }

  /** A whole run of digits, after any text and before a non-digit, reads as the run's
      value. */
  lemma {:induction false} ReadDigitsRun(a: string, ds: string, suffix: string, hex: bool)
    requires ds != [] && forall i :: 0 <= i < |ds| ==> IsRadixDigit(ds[i], hex)
    requires suffix == [] || !IsRadixDigit(suffix[0], hex)
    ensures ReadDigitsAt(a + ds + suffix, |a|, hex) == Some(ValueAt(ds, 0, |ds|, hex))
  {
    var s := a + ds + suffix;
    RunInContext(a, ds, suffix, hex);
    ValueInContext(a, ds, suffix, hex, |ds|);
    assert ReadDigitsAt(s, |a|, hex) == Some(ValueAt(s, |a|, |a| + |ds|, hex));
  }

  lemma {:induction false} RunInContext(a: string, ds: string, suffix: string, hex: bool)
    requires forall i :: 0 <= i < |ds| ==> IsRadixDigit(ds[i], hex)
    requires suffix == [] || !IsRadixDigit(suffix[0], hex)
    ensures DigitsFrom(a + ds + suffix, |a|, hex) == |ds|
  {
    var x := a + ds;
    DigitsFromAll(x, |a|, hex);
    DigitsFromExtend(x, suffix, |a|, hex);
  }

  lemma {:induction false} ValueInContext(a: string, ds: string, suffix: string, hex: bool, k: nat)
    requires k <= |ds|
    ensures ValueAt(a + ds + suffix, |a|, |a| + k, hex) == ValueAt(ds, 0, k, hex)
    decreases k
  {
    if k > 0 {
      assert (a + ds + suffix)[|a| + k - 1] == ds[k - 1];
      ValueInContext(a, ds, suffix, hex, k - 1);
    }
  }

  /** Decimal digits read from position 0 have the value DecValue gives them. */
  lemma {:induction false} ValueDecimal(ds: string, k: nat)
    requires k <= |ds| && AllDigits(ds)
    ensures ValueAt(ds, 0, k, false) == DecValue(ds[..k])
    decreases k
  {
    if k > 0 {
      ValueDecimal(ds, k - 1);
      assert ds[..k][..k - 1] == ds[..k - 1];
    }
  }

  /** No whitespace at the front: parseInt starts reading at position 0. */
  lemma {:induction false} NoLeadingSpace(s: string)
    requires s != [] && !IsSpace(s[0])
    ensures LeadingSpaces(s) == 0
  {
  }

  lemma {:induction false} ReadUnsignedDecimal(a: string, m: nat, suffix: string)
    requires suffix == [] || (!IsDigit(suffix[0]) && suffix[0] != 'x' && suffix[0] != 'X')
    ensures ReadUnsignedAt(a + Decimal(m) + suffix, |a|) == Some(m)
  {
    var d := Decimal(m);
    var s := a + d + suffix;
    assert s[|a|] == d[0];
    if |a| + 2 <= |s| && d[0] == '0' {
      assert |d| == 1;
      assert s[|a| + 1] == suffix[0];
    }
    ReadDigitsRun(a, d, suffix, false);
    ValueDecimal(d, |d|);
    assert d[..|d|] == d;
    DecimalValue(m);
  }

  /** parseInt reads back what String() writes, whatever non-digit text follows (other than
      an `x` right after a lone zero, which would start a hexadecimal literal). */
  lemma {:induction false} ParseIntDecimal(n: int, suffix: string)
    requires suffix == [] || (!IsDigit(suffix[0]) && suffix[0] != 'x' && suffix[0] != 'X')
    ensures ParseInt(IntString(n) + suffix) == Some(n)
  {
    if n < 0 {
      ParseIntNegative(n, suffix);
    } else {
      ParseIntNatural(n, suffix);
    }
  }

  lemma {:induction false} ParseIntNatural(m: nat, suffix: string)
    requires suffix == [] || (!IsDigit(suffix[0]) && suffix[0] != 'x' && suffix[0] != 'X')
    ensures ParseInt(Decimal(m) + suffix) == Some(m)
  {
    var s := Decimal(m) + suffix;
    assert s[0] == Decimal(m)[0];
    NoLeadingSpace(s);
    ReadUnsignedDecimal([], m, suffix);
    assert [] + Decimal(m) + suffix == s;
  }

  lemma {:induction false} ParseIntNegative(n: int, suffix: string)
    requires n < 0
    requires suffix == [] || (!IsDigit(suffix[0]) && suffix[0] != 'x' && suffix[0] != 'X')
    ensures ParseInt(IntString(n) + suffix) == Some(n)
  {
    var s := "-" + Decimal(-n) + suffix;
    ReadUnsignedDecimal("-", -n, suffix);
    assert ReadUnsignedAt(s, 1) == Some(-n);
    MinusFirst(s);
    assert IntString(n) + suffix == s;
  }

  /** A minus sign at the very front negates what follows it. */
  lemma {:induction false} MinusFirst(s: string)
    requires s != [] && s[0] == '-'
    ensures ParseInt(s) == Negate(ReadUnsignedAt(s, 1))
  {
    NoLeadingSpace(s);
  }

  /** Leading whitespace does not change what parseInt reads. */
  lemma {:induction false} ParseIntSkipsSpaces(a: string, s: string)
    requires AllSpace(a)
    ensures ParseInt(a + s) == ParseInt(s)
  {
    LeadingSpacesRun(a, s);
    var k := LeadingSpaces(s);
    SignShift(a, s, k);
    ReadShift(a, s, k);
    ReadShift(a, s, k + 1);
  }

  lemma {:induction false} SignShift(a: string, s: string, k: nat)
    ensures k < |s| ==> (a + s)[|a| + k] == s[k]
  {
  }

  /** Reading from a position is unchanged by text put in front, shifted by its length. */
  lemma {:induction false} ReadShift(a: string, s: string, i: nat)
    ensures i <= |s| ==> ReadUnsignedAt(a + s, |a| + i) == ReadUnsignedAt(s, i)
  {
    if i <= |s| {
      ReadDigitsShift(a, s, i, false);
      if i + 2 <= |s| {
        var t := a + s;
        assert t[|a| + i] == s[i] && t[|a| + i + 1] == s[i + 1];
        ReadDigitsShift(a, s, i + 2, true);
      }
    }
  }

  lemma {:induction false} ReadDigitsShift(a: string, s: string, i: nat, hex: bool)
    requires i <= |s|
    ensures ReadDigitsAt(a + s, |a| + i, hex) == ReadDigitsAt(s, i, hex)
  {
    DigitsShift(a, s, i, hex);
    ValueShift(a, s, i, i + DigitsFrom(s, i, hex), hex);
  }

  lemma {:induction false} ValueShift(a: string, s: string, i: nat, j: nat, hex: bool)
    requires i <= j <= |s|
    ensures ValueAt(a + s, |a| + i, |a| + j, hex) == ValueAt(s, i, j, hex)
    decreases j - i
  {
    if j > i {
      assert (a + s)[|a| + j - 1] == s[j - 1];
      ValueShift(a, s, i, j - 1, hex);
    }
  }

  lemma {:induction false} DigitsShift(a: string, s: string, i: nat, hex: bool)
    requires i <= |s|
    ensures DigitsFrom(a + s, |a| + i, hex) == DigitsFrom(s, i, hex)
    decreases |s| - i
  {
    if i < |s| {
      assert (a + s)[|a| + i] == s[i];
      DigitsShift(a, s, i + 1, hex);
    }
  }

  /** Text that starts with neither whitespace, a sign nor a digit is NaN. */
  lemma {:induction false} ParseIntNaN(s: string)
    requires s == [] || (!IsSpace(s[0]) && !IsDigit(s[0]) && s[0] != '-' && s[0] != '+')
    ensures ParseInt(s) == None
  {
    if s != [] {
      NoLeadingSpace(s);
    }
  }

  /** A hexadecimal literal. */
  lemma {:induction false} ParseIntHex()
    ensures ParseInt("0x1F") == Some(31)
  {
    var s := "0x1F";
    NoLeadingSpace(s);
    assert s == "0x" + "1F" + "";
    ReadDigitsRun("0x", "1F", "", true);
    assert "1F"[..1] == "1" && "1"[..0] == "";
  }

  /** The sign comes before the hexadecimal prefix. */
  lemma {:induction false} ParseIntSignedHex()
    ensures ParseInt("-0Xa") == Some(-10)
  {
    var s := "-0Xa";
    MinusFirst(s);
    assert s == "-0X" + "a" + "";
    ReadDigitsRun("-0X", "a", "", true);
    assert ValueAt("a", 0, 1, true) == 10;
    assert ReadUnsignedAt(s, 1) == ReadDigitsAt(s, 3, true);
  }

  /** A prefix with no digits after it is NaN. */
  lemma {:induction false} ParseIntBarePrefix()
    ensures ParseInt("0x") == None
  {
    var s := "0x";
    NoLeadingSpace(s);
  }

  /** The whitespace run at the front of `a + s`, all of `a` being whitespace. */
  lemma {:induction false} LeadingSpacesRun(a: string, s: string)
    requires AllSpace(a)
    ensures LeadingSpaces(a + s) == |a| + LeadingSpaces(s)
    decreases |a|
  {
    if a == [] {
      assert a + s == s;
    } else {
      assert (a + s)[1..] == a[1..] + s;
      LeadingSpacesRun(a[1..], s);
    }
  }

  /** `parseInt(x) || default`: NaN and 0 are both falsy. */
  function OrDefault(p: Option<int>, default: int): (r: int)
    ensures (p == None || p == Some(0)) ==> r == default
    ensures p.Some? && p.value != 0 ==> r == p.value
    ensures default != 0 ==> r != 0
  {
    if p.None? || p.value == 0 then default else p.value
  }

  /** A score cell holding a written non-zero number gives that number; a blank one the
      default. */
  lemma {:induction false} WrittenScore(k: int, default: int)
    requires k != 0
    ensures OrDefault(ParseInt(IntString(k)), default) == k
    ensures OrDefault(ParseInt(""), default) == default
  {
    ParseIntDecimal(k, "");
    assert IntString(k) + "" == IntString(k);
    ParseIntNaN("");
  }

  // ---------------------------------------------------------------------------
  // Digit runs and the price range

  /** `text.match(/\d+/g)` with every match read as a decimal number (parseInt or Number);
      no match gives the empty sequence, and that happens exactly when the text holds no
      digit. */
  function DigitRuns(s: string): (r: seq<nat>)
    ensures |r| <= |s|
    ensures r == [] <==> forall i :: 0 <= i < |s| ==> !IsDigit(s[i])
  {
    assert (forall i :: 0 <= i < |s| ==> !IsDigit(s[i])) ==> RunsFrom(s, 0) == [] by {
      if forall i :: 0 <= i < |s| ==> !IsDigit(s[i]) {
        RunsNone(s, 0);
      }
    }
    assert (exists j :: 0 <= j < |s| && IsDigit(s[j])) ==> RunsFrom(s, 0) != [] by {
      if exists j :: 0 <= j < |s| && IsDigit(s[j]) {
        var j :| 0 <= j < |s| && IsDigit(s[j]);
        RunsSome(s, 0, j);
      }
    }
    RunsFrom(s, 0)
  }

  /** The runs of decimal digits from position `i` on. */
  function RunsFrom(s: string, i: nat): (r: seq<nat>)
    requires i <= |s|
    ensures |r| <= |s| - i
    decreases |s| - i
  {
    if i == |s| then []
    else if !IsDigit(s[i]) then RunsFrom(s, i + 1)
    else [ReadDigitsAt(s, i, false).value as nat] + RunsFrom(s, i + DigitsFrom(s, i, false))
  }

  /** The runs of `a + s` from inside `s` are those of `s`. */
  lemma {:induction false} RunsShift(a: string, s: string, i: nat)
    requires i <= |s|
    ensures RunsFrom(a + s, |a| + i) == RunsFrom(s, i)
    decreases |s| - i
  {
    if i < |s| {
      assert (a + s)[|a| + i] == s[i];
      if IsDigit(s[i]) {
        DigitsShift(a, s, i, false);
        ReadDigitsShift(a, s, i, false);
        RunsShift(a, s, i + DigitsFrom(s, i, false));
      } else {
        RunsShift(a, s, i + 1);
      }
    }
  }

  /** Runs read inside `x` are unchanged by text after it that starts with a non-digit. */
  lemma {:induction false} ReadDigitsExtend(x: string, y: string, i: nat, hex: bool)
    requires i <= |x|
    requires i + DigitsFrom(x, i, hex) < |x| || y == [] || !IsRadixDigit(y[0], hex)
    ensures ReadDigitsAt(x + y, i, hex) == ReadDigitsAt(x, i, hex)
  {
    DigitsFromExtend(x, y, i, hex);
    ValueExtend(x, y, i, i + DigitsFrom(x, i, hex), hex);
  }

  lemma {:induction false} ValueExtend(x: string, y: string, i: nat, j: nat, hex: bool)
    requires i <= j <= |x|
    ensures ValueAt(x + y, i, j, hex) == ValueAt(x, i, j, hex)
    decreases j - i
  {
    if j > i {
      assert (x + y)[j - 1] == x[j - 1];
      ValueExtend(x, y, i, j - 1, hex);
    }
  }

  lemma {:induction false} RunsSeparated(a: string, c: char, b: string, i: nat)
    requires !IsDigit(c) && i <= |a|
    ensures RunsFrom(a + [c] + b, i) == RunsFrom(a, i) + RunsFrom(b, 0)
    decreases |a| - i
  {
    if i == |a| {
      RunsAtSeparator(a, c, b);
    } else if IsDigit(a[i]) {
      var n := DigitsFrom(a, i, false);
      RunStepDigit(a, c, b, i);
      RunsSeparated(a, c, b, i + n);
      RunsRegroup([ReadDigitsAt(a, i, false).value as nat], RunsFrom(a, i + n), RunsFrom(b, 0));
    } else {
      assert (a + [c] + b)[i] == a[i];
      RunsSeparated(a, c, b, i + 1);
    }
  }

  lemma {:induction false} RunsRegroup(x: seq<nat>, y: seq<nat>, z: seq<nat>)
    ensures x + y + z == x + (y + z)
  {
  }

  lemma {:induction false} RunsAtSeparator(a: string, c: char, b: string)
    requires !IsDigit(c)
    ensures RunsFrom(a + [c] + b, |a|) == RunsFrom(b, 0)
  {
    var x := a + [c];
    assert (x + b)[|a|] == c;
    RunsShift(x, b, 0);
  }

  lemma {:induction false} RunStepDigit(a: string, c: char, b: string, i: nat)
    requires !IsDigit(c) && i < |a| && IsDigit(a[i])
    ensures var s := a + [c] + b; var n := DigitsFrom(a, i, false);
      && s[i] == a[i] && DigitsFrom(s, i, false) == n
      && ReadDigitsAt(s, i, false) == ReadDigitsAt(a, i, false)
  {
    var y := [c] + b;
    assert a + [c] + b == a + y;
    assert (a + y)[i] == a[i];
    DigitsFromExtend(a, y, i, false);
    ReadDigitsExtend(a, y, i, false);
  }

  /** A non-digit separator splits the runs: the runs of `a + [c] + b` are those of `a`
      followed by those of `b`, which is what joining the price cells with a space relies on. */
  lemma {:induction false} DigitRunsSeparated(a: string, c: char, b: string)
    requires !IsDigit(c)
    ensures DigitRuns(a + [c] + b) == DigitRuns(a) + DigitRuns(b)
  {
    RunsSeparated(a, c, b, 0);
  }

  /** The runs of `a b c`, the three price cells joined by spaces. */
  lemma {:induction false} PriceTextRuns(a: string, b: string, c: string)
    ensures DigitRuns(a + " " + b + " " + c) == DigitRuns(a) + DigitRuns(b) + DigitRuns(c)
  {
    DigitRunsSeparated(a, ' ', b);
    DigitRunsSeparated(a + " " + b, ' ', c);
  }

  /** A written number is one run with its own value. */
  lemma {:induction false} DigitRunsOfDecimal(n: nat)
    ensures DigitRuns(Decimal(n)) == [n]
  {
    var d := Decimal(n);
    ReadDigitsRun([], d, [], false);
    assert [] + d + [] == d;
    RunInContext([], d, [], false);
    ValueDecimal(d, |d|);
    assert d[..|d|] == d;
    DecimalValue(n);
  }

  lemma {:induction false} RunsNone(s: string, i: nat)
    requires i <= |s| && forall j :: i <= j < |s| ==> !IsDigit(s[j])
    ensures RunsFrom(s, i) == []
    decreases |s| - i
  {
    if i < |s| {
      RunsNone(s, i + 1);
    }
  }

  /** A digit at or after position `i` starts a run. */
  lemma {:induction false} RunsSome(s: string, i: nat, j: nat)
    requires i <= j < |s| && IsDigit(s[j])
    ensures RunsFrom(s, i) != []
    decreases j - i
  {
    if !IsDigit(s[i]) {
      RunsSome(s, i + 1, j);
    }
  }

  /** Text without digits has no runs. */
  lemma {:induction false} DigitRunsNone(s: string)
    requires forall i :: 0 <= i < |s| ==> !IsDigit(s[i])
    ensures DigitRuns(s) == []
  {
    RunsNone(s, 0);
  }

  /** `Math.min(...nums)` of a non-empty list. */
  function SeqMin(xs: seq<int>): (m: int)
    requires |xs| >= 1
    ensures m in xs
    ensures forall i :: 0 <= i < |xs| ==> m <= xs[i]
    decreases |xs|
  {
    if |xs| == 1 then xs[0]
    else
      var m := SeqMin(xs[1..]);
      if xs[0] <= m then xs[0] else m
  }

  /** `Math.max(...nums)` of a non-empty list. */
  function SeqMax(xs: seq<int>): (m: int)
    requires |xs| >= 1
    ensures m in xs
    ensures forall i :: 0 <= i < |xs| ==> xs[i] <= m
    decreases |xs|
  {
    if |xs| == 1 then xs[0]
    else
      var m := SeqMax(xs[1..]);
      if xs[0] >= m then xs[0] else m
  }

  /** The (priceMin, priceMax) pair: the least and greatest number found, or the fallback
      pair when the price text holds no digits. */
  function PriceRange(nums: seq<nat>, emptyMin: int, emptyMax: int): (r: (int, int))
    ensures nums == [] ==> r == (emptyMin, emptyMax)
    ensures nums != [] ==> r.0 in nums && r.1 in nums
    ensures forall i :: 0 <= i < |nums| ==> r.0 <= nums[i] <= r.1
    ensures emptyMin <= emptyMax ==> r.0 <= r.1
  {
    if nums == [] then (emptyMin, emptyMax) else (SeqMin(nums), SeqMax(nums))
  }

  /** The price range over the three price cells joined by spaces: every number written in
      any of them lies in the range and both ends are such numbers; the fallback pair when no
      cell holds a digit. */
  function PriceBounds(paper: string, noPaper: string, international: string, emptyMin: int, emptyMax: int): (r: (int, int))
    ensures var runs := DigitRuns(paper) + DigitRuns(noPaper) + DigitRuns(international);
      && (runs == [] ==> r == (emptyMin, emptyMax))
      && (runs != [] ==> r.0 in runs && r.1 in runs)
      && (forall i :: 0 <= i < |runs| ==> r.0 <= runs[i] <= r.1)
    ensures emptyMin <= emptyMax ==> r.0 <= r.1
  {
    PriceTextRuns(paper, noPaper, international);
    PriceRange(DigitRuns(paper + " " + noPaper + " " + international), emptyMin, emptyMax)
  }

  /** No price cell holds a digit: the fallback pair. */
  lemma {:induction false} PriceBoundsNone(paper: string, noPaper: string, international: string, emptyMin: int, emptyMax: int)
    requires forall i :: 0 <= i < |paper| ==> !IsDigit(paper[i])
    requires forall i :: 0 <= i < |noPaper| ==> !IsDigit(noPaper[i])
    requires forall i :: 0 <= i < |international| ==> !IsDigit(international[i])
    ensures PriceBounds(paper, noPaper, international, emptyMin, emptyMax) == (emptyMin, emptyMax)
  {
    DigitRunsNone(paper);
    DigitRunsNone(noPaper);
    DigitRunsNone(international);
  }

  // ---------------------------------------------------------------------------
  // Slugs

  /** `.replace(/\s+/g, '_')`: every maximal whitespace run becomes one underscore. */
  function CollapseSpaces(s: string): (r: string)
    ensures NoSpace(r)
    ensures |r| <= |s|
    decreases |s|
  {
    if s == [] then []
    else if IsSpace(s[0]) then "_" + CollapseSpaces(s[LeadingSpaces(s)..])
    else [s[0]] + CollapseSpaces(s[1..])
  }

  /** Text without whitespace is left as it is. */
  lemma {:induction false} CollapseNoSpace(s: string)
    requires NoSpace(s)
    ensures CollapseSpaces(s) == s
    decreases |s|
  {
    if s != [] {
      CollapseNoSpace(s[1..]);
    }
  }

  /** One whitespace run between a space-free word and the rest becomes exactly one `_`. */
  lemma {:induction false} CollapseRun(a: string, w: string, b: string)
    requires NoSpace(a) && w != [] && AllSpace(w)
    requires b == [] || !IsSpace(b[0])
    ensures CollapseSpaces(a + w + b) == a + "_" + CollapseSpaces(b)
    decreases |a|
  {
    var s := a + w + b;
    if a == [] {
      assert s == w + b;
      LeadingSpacesRun(w, b);
      assert LeadingSpaces(b) == 0;
      assert s[|w|..] == b;
    } else {
      assert s[0] == a[0] && s[1..] == a[1..] + w + b;
      CollapseRun(a[1..], w, b);
    }
  }

  // ---------------------------------------------------------------------------
  // The record

  datatype Prices = Prices(paper: string, noPaper: string, international: string)

  datatype Scores = Scores(energy: int, space: int, grooming: int, kidFriendly: int)

  /** One entry of pets_data.json. */
  datatype Pet = Pet(
    id: string,
    name: string,
    kind: string,
    lifespan: string,
    careInstruction: string,
    price: Prices,
    priceMin: int,
    priceMax: int,
    size: string,
    scores: Scores,
    imagePath: string)

  const SMALL: string := "Nhỏ"
  const MEDIUM: string := "Trung bình"
  const LARGE: string := "Lớn"

  /** `rows.slice(n)` */
  function Drop<T>(xs: seq<T>, n: nat): (r: seq<T>)
    ensures |xs| <= n ==> r == []
    ensures |xs| > n ==> |r| == |xs| - n && forall i :: 0 <= i < |r| ==> r[i] == xs[i + n]
  {
    if |xs| <= n then [] else xs[n..]
  }

  /** `rows.map(build).filter(p => p !== null)`: the records of the rows that give one, in
      row order. */
  function Collect(build: seq<string> -> Option<Pet>, rows: seq<seq<string>>): (r: seq<Pet>)
    ensures |r| <= |rows|
    ensures forall i :: 0 <= i < |rows| && build(rows[i]).Some? ==> build(rows[i]).value in r
    ensures forall p :: p in r ==> exists i :: 0 <= i < |rows| && build(rows[i]) == Some(p)
    decreases |rows|
  {
    if rows == [] then []
    else
      var tail := Collect(build, rows[1..]);
      assert forall i :: 1 <= i < |rows| ==> rows[i] == rows[1..][i - 1];
      match build(rows[0])
      case None => tail
      case Some(p) => [p] + tail
  }

  /** Rows that give no record add nothing; the others add theirs in order. */
  lemma {:induction false} CollectAppend(build: seq<string> -> Option<Pet>, rows: seq<seq<string>>, more: seq<seq<string>>)
    ensures Collect(build, rows + more) == Collect(build, rows) + Collect(build, more)
    decreases |rows|
  {
    if rows == [] {
      assert rows + more == more;
    } else {
      assert (rows + more)[0] == rows[0];
      assert (rows + more)[1..] == rows[1..] + more;
      CollectAppend(build, rows[1..], more);
    }
  }
}
