/**
  String operations the backend (Python) and the frontend (JavaScript) rely on:
  whitespace classes, strip/trim, ASCII lower-casing, Python's `x or d`, the `|`-joined fields of an f-string,
  and the decimal and hexadecimal conversions done by `str(int)`, `int(str)` and
  `int(str, 16)`.
*/
module Text {
  import opened Wrappers

  predicate StartsWith(s: string, prefix: string) {
    |prefix| <= |s| && s[..|prefix|] == prefix
  }

  predicate EndsWith(s: string, suffix: string) {
    |suffix| <= |s| && s[|s| - |suffix|..] == suffix
  }

  /**
    Whitespace as Python's `str.isspace()` classifies it; `str.strip()` removes these. No
    character of an integer literal (a digit, a sign or '_') is whitespace.
  */
  function IsPySpace(c: char): (b: bool)
    ensures b ==> !IsDigit(c) && c != '-' && c != '+' && c != '_'
  {
    ('\t' <= c <= '\r') || ('\U{1C}' <= c <= ' ') || c == '\U{85}' || c == '\U{A0}'
    || c == '\U{1680}' || ('\U{2000}' <= c <= '\U{200A}') || c == '\U{2028}' || c == '\U{2029}'
    || c == '\U{202F}' || c == '\U{205F}' || c == '\U{3000}'
  }

  /**
    The whitespace `int(str)` skips around a literal: `str.isspace()` characters except the
    four ASCII separators U+001C..U+001F, which the conversion treats as garbage.
  */
  function IsIntSpace(c: char): (b: bool)
    ensures b ==> IsPySpace(c)
    ensures IsPySpace(c) && !b <==> '\U{1C}' <= c <= '\U{1F}'
  {
    IsPySpace(c) && !('\U{1C}' <= c <= '\U{1F}')
  }

  /**
    Whitespace as JavaScript's `String.prototype.trim` and the regular-expression class `\s`
    see it. The underscore that replaces a whitespace run is not whitespace.
  */
  function IsJsSpace(c: char): (b: bool)
    ensures b ==> c != '_'
  {
    ('\t' <= c <= '\r') || c == ' ' || c == '\U{A0}' || c == '\U{1680}'
    || ('\U{2000}' <= c <= '\U{200A}') || c == '\U{2028}' || c == '\U{2029}'
    || c == '\U{202F}' || c == '\U{205F}' || c == '\U{3000}' || c == '\U{FEFF}'
  }

  /**
    Where the two languages disagree: only JavaScript counts U+FEFF as whitespace, and only
    Python counts the separators U+001C..U+001F and U+0085.
  */
  lemma SpaceClassesDiffer(c: char)
    ensures IsJsSpace(c) && !IsPySpace(c) <==> c == '\U{FEFF}'
    ensures IsPySpace(c) && !IsJsSpace(c) <==> '\U{1C}' <= c <= '\U{1F}' || c == '\U{85}'
  {
  }

  predicate AllSpace(s: string, isSpace: char -> bool) {
    forall k :: 0 <= k < |s| ==> isSpace(s[k])
  }

  /** Neither end of `s` is an `isSpace` character. */
  predicate Trimmed(s: string, isSpace: char -> bool) {
    s == [] || (!isSpace(s[0]) && !isSpace(s[|s| - 1]))
  }

  /** The first `n` characters of `s` are `isSpace` characters. */
  predicate SpacePrefix(s: string, n: int, isSpace: char -> bool)
    requires n <= |s|
  {
    forall k :: 0 <= k < n ==> isSpace(s[k])
  }

  /** Drops the leading run of `isSpace` characters: what remains is a suffix of `s`. */
  function StripLeft(s: string, isSpace: char -> bool): (r: string)
    ensures |r| <= |s| && r == s[|s| - |r|..]
    ensures SpacePrefix(s, |s| - |r|, isSpace)
    ensures r == [] || !isSpace(r[0])
  {
    if |s| > 0 && isSpace(s[0]) then
      var r := StripLeft(s[1..], isSpace);
      assert s[|s| - |r|..] == s[1..][|s| - 1 - |r|..];
      assert forall k :: 1 <= k < |s| ==> s[k] == s[1..][k - 1];
      r
    else s
  }

  /** Drops the trailing run of `isSpace` characters: what remains is a prefix of `s`. */
  function StripRight(s: string, isSpace: char -> bool): (r: string)
    ensures |r| <= |s| && r == s[..|r|]
    ensures AllSpace(s[|r|..], isSpace)
    ensures r == [] || !isSpace(r[|r| - 1])
  {
    if |s| > 0 && isSpace(s[|s| - 1]) then StripRight(s[..|s| - 1], isSpace) else s
  }

  /**
    Python's `str.strip()` (with `IsPySpace`) and JavaScript's `trim()` (with `IsJsSpace`):
    the result is `s` with its whitespace ends removed and is empty exactly when `s` is all whitespace.
  */
  function Strip(s: string, isSpace: char -> bool): (r: string)
    ensures |r| <= |s|
    ensures Trimmed(r, isSpace)
    ensures (r == []) <==> AllSpace(s, isSpace)
  {
    var left := StripLeft(s, isSpace);
    var r := StripRight(left, isSpace);
    r
  }

  /** A string that does not start with whitespace keeps its first character when stripped. */
  lemma StripKeepsFirst(s: string, isSpace: char -> bool)
    requires s != [] && !isSpace(s[0])
    ensures Strip(s, isSpace) != [] && Strip(s, isSpace)[0] == s[0]
  {
    assert StripLeft(s, isSpace) == s;
  }

  /** A string whose two ends are not whitespace is its own strip. */
  lemma StripKeepsTrimmed(s: string, isSpace: char -> bool)
    requires Trimmed(s, isSpace)
    ensures Strip(s, isSpace) == s
  {
    assert StripLeft(s, isSpace) == s;
  }

  lemma {:induction false} StripLeftSkipsSpaces(spaces: string, rest: string, isSpace: char -> bool)
    requires AllSpace(spaces, isSpace)
    requires rest == [] || !isSpace(rest[0])
    ensures StripLeft(spaces + rest, isSpace) == rest
    decreases |spaces|
  {
    if spaces != [] {
      assert (spaces + rest)[1..] == spaces[1..] + rest;
      StripLeftSkipsSpaces(spaces[1..], rest, isSpace);
    } else {
      assert spaces + rest == rest;
    }
  }

  lemma {:induction false} StripRightSkipsSpaces(rest: string, spaces: string, isSpace: char -> bool)
    requires AllSpace(spaces, isSpace)
    requires rest == [] || !isSpace(rest[|rest| - 1])
    ensures StripRight(rest + spaces, isSpace) == rest
    decreases |spaces|
  {
    if spaces != [] {
      var whole := rest + spaces;
      assert whole[..|whole| - 1] == rest + spaces[..|spaces| - 1];
      assert whole[|whole| - 1] == spaces[|spaces| - 1];
      StripRightSkipsSpaces(rest, spaces[..|spaces| - 1], isSpace);
    } else {
      assert rest + spaces == rest;
    }
  }

  /** Strip removes exactly the whitespace around a text whose own ends are not whitespace. */
  lemma StripPadded(left: string, s: string, right: string, isSpace: char -> bool)
    requires AllSpace(left, isSpace) && AllSpace(right, isSpace)
    requires s != [] && Trimmed(s, isSpace)
    ensures Strip(left + s + right, isSpace) == s
  {
    assert left + s + right == left + (s + right);
    StripLeftSkipsSpaces(left, s + right, isSpace);
    StripRightSkipsSpaces(s, right, isSpace);
  }

  /** Stripping twice is stripping once. */
  lemma StripIdempotent(s: string, isSpace: char -> bool)
    ensures Strip(Strip(s, isSpace), isSpace) == Strip(s, isSpace)
  {
    var t := Strip(s, isSpace);
    StripKeepsTrimmed(t, isSpace);
  }

  /** `s` holds no `isSpace` character. */
  predicate NoSpace(s: string, isSpace: char -> bool) {
    forall k :: 0 <= k < |s| ==> !isSpace(s[k])
  }

  /**
    JavaScript's `s.replace(/\s+/g, '_')` (with `IsJsSpace`): every maximal run of
    `isSpace` characters becomes a single underscore.
  */
  function ReplaceSpaceRuns(s: string, isSpace: char -> bool): (r: string)
    requires !isSpace('_')
    ensures NoSpace(r, isSpace)
    ensures |r| <= |s|
    ensures r == [] <==> s == []
    decreases |s|
  {
    if s == [] then []
    else if isSpace(s[0]) then
      if |s| > 1 && isSpace(s[1]) then ReplaceSpaceRuns(s[1..], isSpace)
      else "_" + ReplaceSpaceRuns(s[1..], isSpace)
    else [s[0]] + ReplaceSpaceRuns(s[1..], isSpace)
  }

  /** A run of whitespace, however long, turns into one underscore. */
  lemma SpaceRunIsOneUnderscore(a: string, spaces: string, b: string, isSpace: char -> bool)
    requires !isSpace('_')
    requires NoSpace(a, isSpace) && NoSpace(b, isSpace)
    requires spaces != [] && AllSpace(spaces, isSpace)
    ensures ReplaceSpaceRuns(a + spaces + b, isSpace) == a + "_" + b
  {
    var s := spaces + b;
    assert a + spaces + b == a + s;
    KeepsPlainPrefix(a, s, isSpace);
    SpaceRunStep(spaces, b, isSpace);
    ReplaceKeepsPlainText(b, isSpace);
  }

  /** A run at the front becomes one underscore before the rest. */
  lemma {:induction false} SpaceRunStep(spaces: string, b: string, isSpace: char -> bool)
    requires !isSpace('_')
    requires b == [] || !isSpace(b[0])
    requires spaces != [] && AllSpace(spaces, isSpace)
    ensures ReplaceSpaceRuns(spaces + b, isSpace) == "_" + ReplaceSpaceRuns(b, isSpace)
    decreases |spaces|
  {
    var s := spaces + b;
    assert s[0] == spaces[0];
    assert s[1..] == spaces[1..] + b;
    if |spaces| > 1 {
      assert s[1] == spaces[1];
      SpaceRunStep(spaces[1..], b, isSpace);
    } else {
      assert s[1..] == b;
    }
  }

  /** A prefix without whitespace passes through unchanged. */
  lemma {:induction false} KeepsPlainPrefix(a: string, s: string, isSpace: char -> bool)
    requires !isSpace('_')
    requires NoSpace(a, isSpace)
    ensures ReplaceSpaceRuns(a + s, isSpace) == a + ReplaceSpaceRuns(s, isSpace)
    decreases |a|
  {
    if a != [] {
      assert !isSpace(a[0]);
      assert NoSpace(a[1..], isSpace) by {
        forall k | 0 <= k < |a[1..]| ensures !isSpace(a[1..][k]) {
          assert a[1..][k] == a[k + 1];
        }
      }
      KeepsPlainChar(a, s, isSpace);
      KeepsPlainPrefix(a[1..], s, isSpace);
      assert [a[0]] + (a[1..] + ReplaceSpaceRuns(s, isSpace)) == a + ReplaceSpaceRuns(s, isSpace) by {
        assert a == [a[0]] + a[1..];
      }
    } else {
      assert a + s == s;
    }
  }

  lemma KeepsPlainChar(a: string, s: string, isSpace: char -> bool)
    requires !isSpace('_')
    requires a != [] && !isSpace(a[0])
    ensures ReplaceSpaceRuns(a + s, isSpace) == [a[0]] + ReplaceSpaceRuns(a[1..] + s, isSpace)
  {
    var whole := a + s;
    assert whole[0] == a[0];
    assert whole[1..] == a[1..] + s;
  }

  /** Text without whitespace is left as it is. */
  lemma ReplaceKeepsPlainText(s: string, isSpace: char -> bool)
    requires !isSpace('_')
    requires NoSpace(s, isSpace)
    ensures ReplaceSpaceRuns(s, isSpace) == s
  {
    KeepsPlainPrefix(s, [], isSpace);
    assert s + [] == s;
  }

  /** Replacing the whitespace runs a second time changes nothing. */
  lemma ReplaceSpaceRunsIdempotent(s: string, isSpace: char -> bool)
    requires !isSpace('_')
    ensures ReplaceSpaceRuns(ReplaceSpaceRuns(s, isSpace), isSpace) == ReplaceSpaceRuns(s, isSpace)
  {
    ReplaceKeepsPlainText(ReplaceSpaceRuns(s, isSpace), isSpace);
  }


  /** `str.lower()` on one character; only ASCII letters are mapped. */
  function LowerChar(c: char): (r: char)
    ensures !('A' <= r <= 'Z')
    ensures !('A' <= c <= 'Z') ==> r == c
  {
    if 'A' <= c <= 'Z' then (c as int + 32) as char else c
  }

  /** `s` holds no upper-case ASCII letter. */
  predicate NoUpper(s: string) {
    forall i :: 0 <= i < |s| ==> !('A' <= s[i] <= 'Z')
  }

  /** `str.lower()`, for the ASCII letters in the string: same length, no upper-case letter left. */
  function Lower(s: string): (r: string)
    ensures |r| == |s|
    ensures NoUpper(r)
  {
    if s == [] then [] else [LowerChar(s[0])] + Lower(s[1..])
  }

  /** Lower-casing works character by character. */
  lemma {:induction false} LowerAt(s: string, i: int)
    requires 0 <= i < |s|
    ensures Lower(s)[i] == LowerChar(s[i])
    decreases |s|
  {
    if i > 0 {
      LowerAt(s[1..], i - 1);
    }
  }

  /** A string without upper-case ASCII letters is its own lower-case form. */
  lemma {:induction false} LowerKeepsLowercase(s: string)
    requires NoUpper(s)
    ensures Lower(s) == s
    decreases |s|
  {
    if s != [] {
      LowerKeepsLowercase(s[1..]);
      assert s == [s[0]] + s[1..];
    }
  }

  /** Lower-casing is a projection: applying it again changes nothing. */
  lemma LowerIdempotent(s: string)
    ensures Lower(Lower(s)) == Lower(s)
  {
    LowerKeepsLowercase(Lower(s));
  }

  /** `min` and `max` on two integers, as Python's builtins and JavaScript's `Math` compute them. */
  function Min(a: int, b: int): int {
    if a <= b then a else b
  }

  function Max(a: int, b: int): int {
    if a >= b then a else b
  }

  /** Python's `x or d` for an argument that is a `str` or `None`: both `None` and `""` give `d`. */
  function OrDefault(x: Option<string>, d: string): (r: string)
    ensures x.Some? && x.value != "" ==> r == x.value
    ensures x.None? || x.value == "" ==> r == d
  {
    if x.Some? && x.value != "" then x.value else d
  }

  /** How an f-string renders an argument that is a `str` or `None`. */
  function Render(x: Option<string>): (r: string)
    ensures x.None? ==> r == "None"
    ensures x.Some? ==> r == x.value
  {
    match x
    case None => "None"
    case Some(s) => s
  }

  /** `parts` written one after another with `sep` between them, as the seed text's f-string writes its fields. */
  function Join(parts: seq<string>, sep: string): string {
    if |parts| == 0 then ""
    else if |parts| == 1 then parts[0]
    else parts[0] + sep + Join(parts[1..], sep)
  }

  /** The first part opens a join and the last part closes it. */
  lemma {:induction false} JoinEnds(parts: seq<string>, sep: string)
    requires |parts| > 0
    ensures StartsWith(Join(parts, sep), parts[0])
    ensures EndsWith(Join(parts, sep), parts[|parts| - 1])
    decreases |parts|
  {
    if |parts| > 1 {
      var tail := Join(parts[1..], sep);
      var r := parts[0] + sep + tail;
      var last := parts[|parts| - 1];
      JoinEnds(parts[1..], sep);
      assert r[..|parts[0]|] == parts[0];
      assert r[|r| - |last|..] == tail[|tail| - |last|..];
    }
  }

  /** Two pieces free of the separator `c`, each followed by `c`, can be told apart. */
  lemma SplitAtSeparator(x: string, y: string, xs: string, ys: string, c: char)
    requires c !in x && c !in y
    requires x + [c] + xs == y + [c] + ys
    ensures x == y && xs == ys
  {
    var lhs := x + [c] + xs;
    assert lhs[|x|] == c;
    assert lhs[|y|] == c;
    assert |x| == |y|;
    assert x == lhs[..|x|] == y;
    assert xs == lhs[|x| + 1..] == ys;
  }

  /**
    Joining equally many fields with a one-character separator that none of them contains
    loses nothing: equal joined strings come from equal fields.
  */
  lemma {:induction false} JoinInjective(a: seq<string>, b: seq<string>, c: char)
    requires |a| == |b|
    requires forall i :: 0 <= i < |a| ==> c !in a[i]
    requires forall i :: 0 <= i < |b| ==> c !in b[i]
    requires Join(a, [c]) == Join(b, [c])
    ensures a == b
  {
    if |a| >= 2 {
      SplitAtSeparator(a[0], b[0], Join(a[1..], [c]), Join(b[1..], [c]), c);
      JoinInjective(a[1..], b[1..], c);
      assert a == [a[0]] + a[1..];
      assert b == [b[0]] + b[1..];
    }
  }

  predicate IsDigit(c: char) {
    '0' <= c <= '9'
  }

  function DigitValue(c: char): (v: nat)
    requires IsDigit(c)
    ensures v < 10
  {
    c as int - '0' as int
  }

  function DigitChar(d: nat): (c: char)
    requires d < 10
    ensures IsDigit(c) && DigitValue(c) == d
  {
    ('0' as int + d) as char
  }

  /** Decimal digits of `n`, most significant first, with no leading zero. */
  function NatToDecimal(n: nat): (r: string)
    ensures |r| > 0 && forall i :: 0 <= i < |r| ==> IsDigit(r[i])
    ensures n > 0 ==> r[0] != '0'
    decreases n
  {
    if n < 10 then [DigitChar(n)] else NatToDecimal(n / 10) + [DigitChar(n % 10)]
  }

  /** Python's `str()` of an `int`. */
  function IntToDecimal(n: int): (r: string)
    ensures |r| > 0 && '|' !in r
  {
    if n < 0 then "-" + NatToDecimal(-n) else NatToDecimal(n)
  }

  predicate DigitsOrUnderscores(b: string) {
    forall i :: 0 <= i < |b| ==> IsDigit(b[i]) || b[i] == '_'
  }

  /** The digits of a base-10 literal as `int()` accepts them: single underscores only between digits. */
  predicate IsDigitBody(b: string) {
    |b| > 0 && IsDigit(b[0]) && IsDigit(b[|b| - 1]) && DigitsOrUnderscores(b)
    && (forall i :: 0 <= i < |b| - 1 ==> b[i] != '_' || b[i + 1] != '_')
  }

  /** The value of a decimal digit string, underscores ignored. */
  function DecValue(b: string): nat
    requires DigitsOrUnderscores(b)
  {
    if b == [] then 0
    else if b[|b| - 1] == '_' then DecValue(b[..|b| - 1])
    else DecValue(b[..|b| - 1]) * 10 + DigitValue(b[|b| - 1])
  }

  /**
    Python's `int(s)` on a `str`, base 10: surrounding whitespace, an optional sign, then the
    digit body. `None` stands for the `ValueError` the conversion raises.
  */
  function ParseInt(s: string): (r: Option<int>)
    ensures r.Some? ==> Strip(s, IsIntSpace) != []
  {
    ParseLiteral(Strip(s, IsIntSpace))
  }

  /** The stripped literal: an optional sign, then the digit body. */
  function ParseLiteral(t: string): (r: Option<int>)
    ensures r.Some? ==> t != []
  {
    if |t| > 0 && (t[0] == '-' || t[0] == '+') then
      var body := t[1..];
      var magnitude: int := if IsDigitBody(body) then DecValue(body) else 0;
      if IsDigitBody(body) then Some(if t[0] == '-' then -magnitude else magnitude) else None
    else if IsDigitBody(t) then Some(DecValue(t))
    else None
  }

  /** `int()` ignores whitespace around the literal: padding never changes the conversion. */
  lemma ParseIntIgnoresPadding(left: string, s: string, right: string)
    requires AllSpace(left, IsIntSpace) && AllSpace(right, IsIntSpace)
    requires s != [] && Trimmed(s, IsIntSpace)
    ensures ParseInt(left + s + right) == ParseInt(s)
  {
    StripPadded(left, s, right, IsIntSpace);
    StripKeepsTrimmed(s, IsIntSpace);
  }

  /** A leading ASCII separator U+001C..U+001F is not skipped, so the conversion fails. */
  lemma SeparatorDefeatsParseInt(s: string)
    requires s != [] && '\U{1C}' <= s[0] <= '\U{1F}'
    ensures ParseInt(s) == None
  {
    assert !IsIntSpace(s[0]);
    StripKeepsFirst(s, IsIntSpace);
    NotALiteral(Strip(s, IsIntSpace));
  }

  /** Text that starts with neither a sign nor a digit is not an integer literal. */
  lemma NotALiteral(t: string)
    requires t != [] && !IsDigit(t[0]) && t[0] != '-' && t[0] != '+'
    ensures ParseLiteral(t) == None
  {
  }

  lemma {:induction false} DecValueOfDecimal(n: nat)
    ensures DecValue(NatToDecimal(n)) == n
    decreases n
  {
    if n >= 10 {
      var prefix := NatToDecimal(n / 10);
      var s := prefix + [DigitChar(n % 10)];
      assert s[..|s| - 1] == prefix;
      DecValueOfDecimal(n / 10);
    }
  }

  lemma DecimalIsDigitBody(n: nat)
    ensures IsDigitBody(NatToDecimal(n))
  {
    var s := NatToDecimal(n);
    assert forall i :: 0 <= i < |s| - 1 ==> s[i] != '_';
  }

  /** A decimal rendering starts with a sign or a digit and ends with a digit, so `int()` skips nothing. */
  lemma DecimalIsTrimmed(n: int)
    ensures Trimmed(IntToDecimal(n), IsIntSpace)
  {
    var s := IntToDecimal(n);
    var m: nat := if n < 0 then -n else n;
    var digits := NatToDecimal(m);
    DecimalIsDigitBody(m);
    if n < 0 {
      assert s == "-" + digits;
    }
    assert s[0] == '-' || IsDigit(s[0]);
    assert IsDigit(s[|s| - 1]);
  }

  /** `int(str(n)) == n`: the decimal rendering used in the seed text reads back as the same integer. */
  lemma DecimalRoundTrip(n: int)
    ensures ParseInt(IntToDecimal(n)) == Some(n)
  {
    DecimalIsTrimmed(n);
    StripKeepsTrimmed(IntToDecimal(n), IsIntSpace);
    DecimalLiteral(n);
  }

  /** The decimal rendering, once stripped, is read back as the integer it renders. */
  lemma DecimalLiteral(n: int)
    ensures ParseLiteral(IntToDecimal(n)) == Some(n)
  {
    var s := IntToDecimal(n);
    var m: nat := if n < 0 then -n else n;
    var digits := NatToDecimal(m);
    DecimalIsDigitBody(m);
    DecValueOfDecimal(m);
    if n < 0 {
      assert s == "-" + digits;
      assert s[1..] == digits;
    } else {
      assert s == digits;
      assert s[0] != '-' && s[0] != '+';
    }
  }

  /** Distinct integers render as distinct decimal strings. */
  lemma DecimalInjective(m: int, n: int)
    requires IntToDecimal(m) == IntToDecimal(n)
    ensures m == n
  {
    DecimalRoundTrip(m);
    DecimalRoundTrip(n);
  }

  /** A digit of a lower-case hexadecimal string, as `hexdigest()` produces them. */
  predicate IsHexDigit(c: char) {
    ('0' <= c <= '9') || ('a' <= c <= 'f')
  }

  predicate IsHex(s: string) {
    forall i :: 0 <= i < |s| ==> IsHexDigit(s[i])
  }

  function HexDigitValue(c: char): (v: nat)
    requires IsHexDigit(c)
    ensures v < 16
  {
    if '0' <= c <= '9' then c as int - '0' as int else c as int - 'a' as int + 10
  }

  function Pow(b: nat, e: nat): nat {
    if e == 0 then 1 else b * Pow(b, e - 1)
  }

  /** Python's `int(s, 16)` on a string of hexadecimal digits. */
  function HexValue(s: string): (v: nat)
    requires IsHex(s)
    ensures v < Pow(16, |s|)
  {
    if s == [] then 0
    else
      var prefix := s[..|s| - 1];
      var high := HexValue(prefix);
      var low := HexDigitValue(s[|s| - 1]);
      assert high * 16 + low < Pow(16, |s|) by {
        assert high + 1 <= Pow(16, |prefix|);
        assert (high + 1) * 16 <= Pow(16, |prefix|) * 16;
      }
      high * 16 + low
  }

  lemma ShiftStep(high: nat, shift: nat, rest: nat, last: nat)
    ensures (high * shift + rest) * 16 + last == high * (16 * shift) + (rest * 16 + last)
  {
  }

  /** Reading `a + b` is reading `a`, shifted by the digits of `b`, plus reading `b`. */
  lemma {:induction false} HexValueAppend(a: string, b: string)
    requires IsHex(a) && IsHex(b)
    ensures IsHex(a + b)
    ensures HexValue(a + b) == HexValue(a) * Pow(16, |b|) + HexValue(b)
    decreases |b|
  {
    var ab := a + b;
    assert IsHex(ab);
    if b == [] {
      assert ab == a;
    } else {
      var b' := b[..|b| - 1];
      var last := HexDigitValue(b[|b| - 1]);
      assert ab[..|ab| - 1] == a + b';
      assert ab[|ab| - 1] == b[|b| - 1];
      assert IsHex(b');
      HexValueAppend(a, b');
      assert HexValue(ab) == HexValue(a + b') * 16 + last;
      assert HexValue(b) == HexValue(b') * 16 + last;
      ShiftStep(HexValue(a), Pow(16, |b'|), HexValue(b'), last);
    }
  }
}
