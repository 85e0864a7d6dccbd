/** The few Python string operations the work-item code relies on:
    `str.split("/")` with `"/".join(...)`, negative indexing into the split,
    `str(i)` for an int, and `int(s)` for a str in base 10. */
module PyText {
  import opened Base

  // ---------------------------------------------------------------------------
  // str.split("/") and "/".join(parts)
  // ---------------------------------------------------------------------------

  /** The position of the last slash of `s`, if it has one. */
  function LastSlash(s: string): (k: Option<nat>)
    ensures k.None? <==> '/' !in s
    ensures k.Some? ==> k.value < |s| && s[k.value] == '/' && '/' !in s[k.value + 1..]
    decreases |s|
  {
    if s == [] then None
    else if s[|s| - 1] == '/' then Some(|s| - 1)
    else
      var p := s[..|s| - 1];
      assert s == p + [s[|s| - 1]];
      var k := LastSlash(p);
      assert k.Some? ==> s[k.value + 1..] == p[k.value + 1..] + [s[|s| - 1]];
      k
  }

  /** `s.split("/")`: the pieces between slashes, in order; never empty.
      The last piece follows the last slash, the others are the split of
      what precedes it. */
  function Split(s: string): (parts: seq<string>)
    ensures |parts| >= 1
    decreases |s|
  {
    match LastSlash(s)
    case None => [s]
    case Some(k) => Split(s[..k]) + [s[k + 1..]]
  }

  /** `"/".join(parts)`. */
  function Join(parts: seq<string>): string
    requires |parts| >= 1
    decreases |parts|
  {
    if |parts| == 1 then parts[0] else Join(parts[..|parts| - 1]) + "/" + parts[|parts| - 1]
  }

  /** Joining the pieces of a split gives the original string back. */
  lemma {:induction false} JoinSplit(s: string)
    ensures Join(Split(s)) == s
    decreases |s|
  {
    match LastSlash(s)
    case None =>
    case Some(k) =>
      JoinSplit(s[..k]);
      var parts := Split(s);
      assert parts[..|parts| - 1] == Split(s[..k]);
      assert s == s[..k] + "/" + s[k + 1..];
  }

  /** No piece of a split holds a slash, and there are two or more pieces
      exactly when the string has a slash. */
  lemma {:induction false} SplitPieces(s: string)
    ensures forall i :: 0 <= i < |Split(s)| ==> '/' !in Split(s)[i]
    ensures |Split(s)| >= 2 <==> '/' in s
    decreases |s|
  {
    match LastSlash(s)
    case None =>
    case Some(k) =>
      SplitPieces(s[..k]);
      var init := Split(s[..k]);
      assert forall i :: 0 <= i < |init| ==> Split(s)[i] == init[i];
  }

  /** `t` is the last path segment of `s`: a suffix of `s` that is either all
      of `s` or preceded by a slash. */
  predicate EndsWithSegment(s: string, t: string)
  {
    |t| <= |s| && s[|s| - |t|..] == t && (|t| == |s| || s[|s| - |t| - 1] == '/')
  }

  /** A final segment of `p` followed by a slash and `t` is a final segment
      of `p + "/" + t`. */
  lemma SegmentExtends(p: string, r: string, t: string)
    requires EndsWithSegment(p, r)
    ensures EndsWithSegment(p + "/" + t, r + "/" + t)
  {
    var s := p + "/" + t;
    var u := r + "/" + t;
    assert s[|s| - |u|..] == p[|p| - |r|..] + "/" + t;
    if |u| < |s| {
      assert s[|s| - |u| - 1] == p[|p| - |r| - 1];
    }
  }

  /** `s.split("/")[-1]`: the last path segment (the whole string when it
      has no slash). */
  function LastSegment(s: string): (r: string)
    ensures '/' !in r
    ensures EndsWithSegment(s, r)
  {
    var parts := Split(s);
    parts[|parts| - 1]
  }

  /** The last segment of `prefix + "/" + t` is `t` when `t` has no slash. */
  lemma LastSegmentAfterSlash(prefix: string, t: string)
    requires '/' !in t
    ensures LastSegment(prefix + "/" + t) == t
  {
    var s := prefix + "/" + t;
    var k := LastSlash(s);
    assert s[|prefix|] == '/';
    assert s[|prefix| + 1..] == t;
  }

  /** `s.split("/")[-2]`: None where Python raises IndexError, that is when
      `s` has no slash; otherwise the segment just before the last one. */
  function PenultimateSegment(s: string): (r: Option<string>)
    ensures r.Some? <==> '/' in s
    ensures r.Some? ==> '/' !in r.value && EndsWithSegment(s, r.value + "/" + LastSegment(s))
  {
    var parts := Split(s);
    SplitPieces(s);
    if |parts| < 2 then None
    else
      var k := LastSlash(s).value;
      assert parts[|parts| - 2] == LastSegment(s[..k]);
      assert s == s[..k] + "/" + s[k + 1..];
      SegmentExtends(s[..k], LastSegment(s[..k]), s[k + 1..]);
      Some(parts[|parts| - 2])
  }

  // ---------------------------------------------------------------------------
  // str(i) and int(s)
  // ---------------------------------------------------------------------------

  predicate IsDigit(c: char) { '0' <= c <= '9' }

  function DigitValue(c: char): nat
    requires IsDigit(c)
  {
    c as int - '0' as int
  }

  function DigitChar(d: nat): (c: char)
    requires d < 10
    ensures IsDigit(c) && DigitValue(c) == d
  {
    ('0' as int + d) as char
  }

  /** `str(n)` for a non-negative int: decimal digits without leading zeros. */
  function NatDecimal(n: nat): (r: string)
    ensures |r| >= 1
    ensures forall i :: 0 <= i < |r| ==> IsDigit(r[i])
    decreases n
  {
    if n < 10 then [DigitChar(n)] else NatDecimal(n / 10) + [DigitChar(n % 10)]
  }

  /** `str(i)` (and `"%s" % i`) for a Python int. */
  function Decimal(i: int): (r: string)
    ensures '/' !in r
    ensures |r| >= 1 && (IsDigit(r[0]) || r[0] == '-')
  {
    if i < 0 then "-" + NatDecimal(-i) else NatDecimal(i)
  }

  /** The characters `int()` strips from both ends: ASCII tab to carriage
      return and space, and every non-ASCII character `str.isspace` accepts.
      The ASCII separators U+001C to U+001F are whitespace to `str.isspace`
      but not to `int()`, which refuses them. */
  predicate IsSpace(c: char)
  {
    || c == ' ' || 9 <= c as int <= 13
    || c as int == 0x85 || c as int == 0xA0 || c as int == 0x1680
    || 0x2000 <= c as int <= 0x200A || c as int == 0x2028 || c as int == 0x2029
    || c as int == 0x202F || c as int == 0x205F || c as int == 0x3000
  }

  function StripLeft(s: string): (r: string)
    ensures |r| <= |s| && r == s[|s| - |r|..]
    ensures r == [] || !IsSpace(r[0])
    decreases |s|
  {
    if s != [] && IsSpace(s[0]) then StripLeft(s[1..]) else s
  }

  function StripRight(s: string): (r: string)
    ensures |r| <= |s| && r == s[..|r|]
    ensures r == [] || !IsSpace(r[|r| - 1])
    decreases |s|
  {
    if s != [] && IsSpace(s[|s| - 1]) then StripRight(s[..|s| - 1]) else s
  }

  /** The text `int()` reads: `s` without the leading and trailing
      whitespace of `IsSpace`. */
  function Strip(s: string): string
  {
    StripRight(StripLeft(s))
  }

  /** The digits of an integer literal as `int()` takes them: decimal digits,
      with single underscores allowed between two digits. */
  predicate IsDigitGroup(t: string)
  {
    && |t| >= 1 && IsDigit(t[0]) && IsDigit(t[|t| - 1])
    && (forall i :: 0 <= i < |t| ==> IsDigit(t[i]) || t[i] == '_')
    && (forall i :: 0 <= i < |t| - 1 && t[i] == '_' ==> t[i + 1] != '_')
  }

  /** The value of a digit group; underscores carry no value. */
  function DigitsValue(t: string): nat
    requires forall i :: 0 <= i < |t| ==> IsDigit(t[i]) || t[i] == '_'
    decreases |t|
  {
    if t == [] then 0
    else if t[|t| - 1] == '_' then DigitsValue(t[..|t| - 1])
    else 10 * DigitsValue(t[..|t| - 1]) + DigitValue(t[|t| - 1])
  }

  /** `int(s)` for a str in base 10: None where Python raises ValueError.
      Surrounding whitespace is ignored, one leading sign is allowed. */
  function ParseInt(s: string): (r: Option<int>)
    ensures r.Some? ==> exists k :: 0 <= k < |Strip(s)| && IsDigit(Strip(s)[k])
    ensures r.Some? && r.value < 0 ==> Strip(s)[0] == '-'
  {
    var t := Strip(s);
    if |t| >= 1 && (t[0] == '+' || t[0] == '-') then
      if IsDigitGroup(t[1..]) then
        var v: int := DigitsValue(t[1..]);
        Some(if t[0] == '-' then -v else v)
      else None
    else if IsDigitGroup(t) then Some(DigitsValue(t))
    else None
  }

  lemma {:induction false} NatDecimalValue(n: nat)
    ensures DigitsValue(NatDecimal(n)) == n
    decreases n
  {
    if n >= 10 {
      var r := NatDecimal(n);
      NatDecimalValue(n / 10);
      assert r[..|r| - 1] == NatDecimal(n / 10);
    }
  }

  /** The digits of `str(n)` form a digit group worth `n`. */
  lemma NatDecimalParses(n: nat)
    ensures IsDigitGroup(NatDecimal(n)) && DigitsValue(NatDecimal(n)) == n
  {
    NatDecimalValue(n);
  }

  /** Stripping leaves a string alone when neither end is whitespace. */
  lemma StripKeeps(r: string)
    requires |r| >= 1 && !IsSpace(r[0]) && !IsSpace(r[|r| - 1])
    ensures Strip(r) == r
  {
    assert StripLeft(r) == r;
  }

  /** `int(str(i)) == i`: the decimal rendering of every int parses back. */
  lemma DecimalRoundTrip(i: int)
    ensures ParseInt(Decimal(i)) == Some(i)
  {
    var r := Decimal(i);
    if i < 0 {
      var d := NatDecimal(-i);
      assert r == "-" + d;
      assert IsDigit(r[|r| - 1]) by { assert r[|r| - 1] == d[|d| - 1]; }
      StripKeeps(r);
      NatDecimalParses(-i);
      assert r[1..] == d;
    } else {
      StripKeeps(r);
      NatDecimalParses(i);
    }
  }

  /** `int(s)` raises ValueError for every string without a decimal digit. */
  lemma ParseIntNeedsDigit(s: string)
    requires forall i :: 0 <= i < |s| ==> !IsDigit(s[i])
    ensures ParseInt(s) == None
  {
    var l := StripLeft(s);
    var t := StripRight(l);
    assert t == l[..|t|];
    assert forall j :: 0 <= j < |t| ==> t[j] == s[|s| - |l| + j];
    assert forall j :: 0 <= j < |t| ==> !IsDigit(t[j]);
    assert !IsDigitGroup(t);
    if |t| >= 1 {
      assert !IsDigitGroup(t[1..]) by {
        if |t| >= 2 {
          assert t[1..][0] == t[1];
        }
      }
    }
  }

  /** Stripping the right end never removes a first character that is not
      whitespace. */
  lemma {:induction false} StripRightKeepsFirst(s: string)
    requires |s| >= 1 && !IsSpace(s[0])
    ensures |StripRight(s)| >= 1 && StripRight(s)[0] == s[0]
    decreases |s|
  {
    if IsSpace(s[|s| - 1]) {
      StripRightKeepsFirst(s[..|s| - 1]);
    }
  }

  /** `int(s)` raises ValueError for a string that starts with one of the
      ASCII separators U+001C to U+001F: they are not stripped, and they are
      neither a sign nor a digit. */
  lemma ParseIntRefusesSeparator(s: string)
    requires |s| >= 1 && 28 <= s[0] as int <= 31
    ensures ParseInt(s) == None
  {
    assert StripLeft(s) == s;
    StripRightKeepsFirst(s);
    var t := Strip(s);
    assert !IsDigit(t[0]) && t[0] != '+' && t[0] != '-';
    assert !IsDigitGroup(t);
  }
}
