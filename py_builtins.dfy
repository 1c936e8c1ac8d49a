/** The Python built-ins whose behaviour the pipeline's logic depends on, stated over exact
    values: int() of a float (truncation toward zero), int() and float() of text, str() of an
    integer, and the string operations strip, split, lower, replace and the `in` test.
    Whitespace is the set str.isspace() accepts; only ASCII letters are lower-cased, and
    only plain decimal notation is read. */
module PyBuiltins {
  import opened Common

  // ---------------------------------------------------------------- int(x) for a float x

  /** int(x) for a float x truncates toward zero (it does not floor). */
  function Trunc(x: real): (r: int)
    ensures 0.0 <= x ==> r as real <= x < r as real + 1.0
    ensures x < 0.0 ==> r as real - 1.0 < x <= r as real
  {
    if x >= 0.0 then x.Floor else -((-x).Floor)
  }

  /** Truncation and flooring agree exactly on the non-negative numbers and the integers. */
  lemma TruncIsFloorUnlessNegativeFraction(x: real)
    ensures Trunc(x) == x.Floor <==> (0.0 <= x || x == x.Floor as real)
    ensures Trunc(x) != x.Floor ==> Trunc(x) == x.Floor + 1
  {
  }

  // ---------------------------------------------------------------- decimal digits

  predicate IsDigit(c: char) {
    '0' <= c <= '9'
  }

  predicate AllDigits(s: string) {
    forall i :: 0 <= i < |s| ==> IsDigit(s[i])
  }

  function DigitValue(c: char): nat
    requires IsDigit(c)
  {
    c as int - '0' as int
  }

  function DigitChar(d: nat): (c: char)
    requires d < 10
    ensures IsDigit(c) && DigitValue(c) == d
  {
    ('0' as int + d) as char
  }

  function Pow10(k: nat): (p: nat)
    ensures p >= 1
  {
    if k == 0 then 1 else 10 * Pow10(k - 1)
  }

  /** The number a string of decimal digits denotes; leading zeros are allowed, as in int(). */
  function DigitsValue(s: string): nat
    requires AllDigits(s)
  {
    if |s| == 0 then 0 else 10 * DigitsValue(s[..|s| - 1]) + DigitValue(s[|s| - 1])
  }

  /** str(n) for a non-negative integer: its shortest decimal text. */
  function NatToString(n: nat): (s: string)
    ensures |s| >= 1 && AllDigits(s)
    ensures DigitsValue(s) == n
    ensures n < Pow10(|s|)
    ensures |s| > 1 ==> s[0] != '0'
  {
    if n < 10 then
      [DigitChar(n)]
    else
      var s := NatToString(n / 10) + [DigitChar(n % 10)];
      assert s[..|s| - 1] == NatToString(n / 10);
      s
  }

  /** str(n) for an integer. */
  function IntToString(n: int): string {
    if n < 0 then "-" + NatToString(-n) else NatToString(n)
  }

  /** The value of the digits x followed by the digits y. */
  lemma {:induction false} DigitsValueConcat(x: string, y: string)
    requires AllDigits(x) && AllDigits(y)
    ensures AllDigits(x + y)
    ensures DigitsValue(x + y) == DigitsValue(x) * Pow10(|y|) + DigitsValue(y)
  {
    var xy := x + y;
    assert AllDigits(xy) by {
      forall i | 0 <= i < |xy| ensures IsDigit(xy[i]) {
        if i < |x| { assert xy[i] == x[i]; } else { assert xy[i] == y[i - |x|]; }
      }
    }
    if |y| == 0 {
      assert xy == x;
    } else {
      var y' := y[..|y| - 1];
      assert xy[..|xy| - 1] == x + y';
      assert xy[|xy| - 1] == y[|y| - 1];
      DigitsValueConcat(x, y');
      var a, p, b, c := DigitsValue(x), Pow10(|y'|), DigitsValue(y'), DigitValue(y[|y| - 1]);
      assert DigitsValue(xy) == 10 * (a * p + b) + c;
      ShiftDigit(a, p, b, c);
    }
  }

  /** Appending a digit c to a number a * p + b. */
  lemma ShiftDigit(a: int, p: int, b: int, c: int)
    ensures 10 * (a * p + b) + c == a * (10 * p) + (10 * b + c)
  {
  }

  // ---------------------------------------------------------------- whitespace and strip()

  /** The whitespace characters str.strip() and int() skip: those str.isspace() accepts,
      the separators \x1c to \x1f and the Unicode spaces included. */
  predicate IsSpace(c: char) {
    || ('\t' <= c <= '\r') || ('\U{001C}' <= c <= ' ') || c == '\U{0085}' || c == '\U{00A0}'
    || c == '\U{1680}' || ('\U{2000}' <= c <= '\U{200A}') || c == '\U{2028}' || c == '\U{2029}'
    || c == '\U{202F}' || c == '\U{205F}' || c == '\U{3000}'
  }

  predicate NoSpace(s: string) {
    forall i :: 0 <= i < |s| ==> !IsSpace(s[i])
  }

  function StripLeft(s: string): (r: string)
    ensures |r| <= |s| && r == s[|s| - |r|..]
    ensures |r| > 0 ==> !IsSpace(r[0])
    ensures forall i :: 0 <= i < |s| - |r| ==> IsSpace(s[i])
  {
    if |s| > 0 && IsSpace(s[0]) then StripLeft(s[1..]) else s
  }

  function StripRight(s: string): (r: string)
    ensures |r| <= |s| && r == s[..|r|]
    ensures |r| > 0 ==> !IsSpace(r[|r| - 1])
    ensures forall i :: |r| <= i < |s| ==> IsSpace(s[i])
  {
    if |s| > 0 && IsSpace(s[|s| - 1]) then StripRight(s[..|s| - 1]) else s
  }

  /** str.strip(): the text without its leading and trailing whitespace. */
  function Strip(s: string): (r: string)
    ensures |r| == 0 || (!IsSpace(r[0]) && !IsSpace(r[|r| - 1]))
    ensures NoSpace(s) ==> r == s
  {
    var l := StripLeft(s);
    assert NoSpace(s) ==> l == s;
    StripRight(l)
  }

  /** strip() removes whitespace only, and only at the two ends: the result is a slice of
      the text, and everything outside the slice is whitespace. */
  lemma StripTrims(s: string)
    ensures exists i, j ::
      (&& 0 <= i <= j <= |s| && Strip(s) == s[i..j]
       && (forall k :: 0 <= k < i ==> IsSpace(s[k])) && (forall k :: j <= k < |s| ==> IsSpace(s[k])))
  {
    var l := StripLeft(s);
    var r := StripRight(l);
    var i, j := |s| - |l|, |s| - |l| + |r|;
    assert Strip(s) == r == s[i..j];
    assert forall k :: j <= k < |s| ==> IsSpace(s[k]) by {
      forall k | j <= k < |s| ensures IsSpace(s[k]) { assert s[k] == l[k - i]; }
    }
  }

  // ---------------------------------------------------------------- int() and float() of text

  /** int(s) for a text s: optional surrounding whitespace, an optional sign and decimal
      digits. None where Python raises ValueError. */
  function ParseInt(s: string): Option<int> {
    var t := Strip(s);
    if |t| >= 2 && (t[0] == '-' || t[0] == '+') && AllDigits(t[1..]) then
      var v: int := DigitsValue(t[1..]);
      Some(if t[0] == '-' then -v else v)
    else if |t| >= 1 && AllDigits(t) then
      Some(DigitsValue(t))
    else
      None
  }

  /** int() of a non-empty run of digits. */
  lemma ParseIntOfDigits(d: string)
    requires |d| >= 1 && AllDigits(d)
    ensures ParseInt(d) == Some(DigitsValue(d) as int)
  {
    assert NoSpace(d) by {
      forall i | 0 <= i < |d| ensures !IsSpace(d[i]) { assert IsDigit(d[i]); }
    }
    assert Strip(d) == d;
    assert IsDigit(d[0]);
  }

  /** int() of a stripped text made of a minus sign and a non-empty run of digits. */
  lemma ParseIntOfNegatedDigits(t: string, d: string)
    requires |d| >= 1 && AllDigits(d) && |t| >= 1 && t[0] == '-' && t[1..] == d && Strip(t) == t
    ensures ParseInt(t) == Some(-(DigitsValue(d) as int))
  {
  }

  /** Text whose first and last characters are not whitespace is its own strip(). */
  lemma StripUnchanged(s: string)
    requires |s| > 0 && !IsSpace(s[0]) && !IsSpace(s[|s| - 1])
    ensures Strip(s) == s
  {
  }

  /** int() rejects a text whose second character, after stripping, is no digit. */
  lemma ParseIntRejects(s: string)
    requires |s| >= 2 && !IsSpace(s[0]) && !IsSpace(s[|s| - 1]) && !IsDigit(s[1])
    ensures ParseInt(s) == None
  {
    StripUnchanged(s);
    assert s[1..][0] == s[1];
  }

  /** str(n) is a '-' or digits, then digits only. */
  lemma IntToStringChars(n: int)
    ensures |IntToString(n)| >= 1
    ensures forall i :: 0 <= i < |IntToString(n)| ==> IntToString(n)[i] == '-' || IsDigit(IntToString(n)[i])
  {
    if n < 0 {
      var d := NatToString(-n);
      assert IntToString(n) == "-" + d;
      assert forall i :: 1 <= i < |IntToString(n)| ==> IntToString(n)[i] == d[i - 1];
    }
  }

  /** str(n) is its own strip(): the digits of |n|, after a '-' when n is negative. */
  lemma IntToStringShape(n: int)
    ensures var t := IntToString(n);
      && Strip(t) == t
      && (n < 0 ==> |t| >= 2 && t[0] == '-' && t[1..] == NatToString(-n))
      && (n >= 0 ==> t == NatToString(n))
  {
    var t := IntToString(n);
    var d := NatToString(if n < 0 then -n else n);
    assert IsDigit(d[|d| - 1]);
    if n < 0 {
      assert t[1..] == d;
      assert t[|t| - 1] == d[|d| - 1];
    } else {
      assert IsDigit(d[0]);
    }
    StripUnchanged(t);
  }

  /** Digits appended to a text that is its own strip() keep it so, and keep its head. */
  lemma AppendDigitsShape(s: string, a: string)
    requires |s| >= 1 && Strip(s) == s && |a| >= 1 && AllDigits(a)
    ensures var t := s + a;
      && Strip(t) == t && t[0] == s[0] && t[1..] == s[1..] + a
  {
    var t := s + a;
    assert t[|t| - 1] == a[|a| - 1] && IsDigit(a[|a| - 1]);
    assert t[0] == s[0] && !IsSpace(s[0]);
    assert t[1..] == s[1..] + a;
    StripUnchanged(t);
  }

  /** int(str(n)) == n */
  lemma ParseIntOfString(n: int)
    ensures ParseInt(IntToString(n)) == Some(n)
  {
    IntToStringShape(n);
    if n < 0 {
      ParseIntOfNegatedDigits(IntToString(n), NatToString(-n));
    } else {
      ParseIntOfDigits(NatToString(n));
    }
  }

  function IndexOfDot(s: string): (k: nat)
    ensures k <= |s|
    ensures forall i :: 0 <= i < k ==> s[i] != '.'
    ensures k < |s| ==> s[k] == '.'
  {
    if |s| == 0 || s[0] == '.' then 0 else 1 + IndexOfDot(s[1..])
  }

  /** The value of the digits after a decimal point: the first is tenths, and so on. */
  function Fraction(frac: string): (r: real)
    requires AllDigits(frac)
    ensures 0.0 <= r < 1.0
  {
    if |frac| == 0 then 0.0 else (DigitValue(frac[0]) as real + Fraction(frac[1..])) / 10.0
  }

  /** Digits, optionally a '.', optionally more digits; at least one digit in all. */
  function ParseUnsignedDecimal(t: string): Option<real> {
    var k := IndexOfDot(t);
    if k == |t| then
      if |t| >= 1 && AllDigits(t) then Some(DigitsValue(t) as real) else None
    else
      var whole, frac := t[..k], t[k + 1..];
      if |whole| + |frac| >= 1 && AllDigits(whole) && AllDigits(frac) then
        Some(DigitsValue(whole) as real + Fraction(frac))
      else
        None
  }

  /** float(s) for a text s in plain decimal notation, with optional surrounding whitespace
      and an optional sign. None where Python raises ValueError. */
  function ParseFloat(s: string): Option<real> {
    var t := Strip(s);
    if |t| >= 1 && (t[0] == '-' || t[0] == '+') then
      match ParseUnsignedDecimal(t[1..])
      case Some(v) => Some(if t[0] == '-' then -v else v)
      case None => None
    else
      ParseUnsignedDecimal(t)
  }

  /** A run of digits without a '.' reads as its integer value. */
  lemma ParseUnsignedDecimalOfDigits(d: string)
    requires |d| >= 1 && AllDigits(d)
    ensures ParseUnsignedDecimal(d) == Some(DigitsValue(d) as real)
  {
    assert forall i :: 0 <= i < |d| ==> d[i] != '.' by {
      forall i | 0 <= i < |d| ensures d[i] != '.' { assert IsDigit(d[i]); }
    }
    assert IndexOfDot(d) == |d|;
  }

  /** float() of a non-empty run of digits. */
  lemma ParseFloatOfDigits(d: string)
    requires |d| >= 1 && AllDigits(d)
    ensures ParseFloat(d) == Some(DigitsValue(d) as real)
  {
    ParseUnsignedDecimalOfDigits(d);
    assert NoSpace(d) by {
      forall i | 0 <= i < |d| ensures !IsSpace(d[i]) { assert IsDigit(d[i]); }
    }
    assert Strip(d) == d;
    assert IsDigit(d[0]);
  }

  /** float() of a stripped text made of a minus sign and a non-empty run of digits. */
  lemma ParseFloatOfNegatedDigits(t: string, d: string)
    requires |d| >= 1 && AllDigits(d) && |t| >= 1 && t[0] == '-' && t[1..] == d && Strip(t) == t
    ensures ParseFloat(t) == Some(-(DigitsValue(d) as real))
  {
    ParseUnsignedDecimalOfDigits(d);
  }

  /** float(str(n)) == n */
  lemma ParseFloatOfString(n: int)
    ensures ParseFloat(IntToString(n)) == Some(n as real)
  {
    IntToStringShape(n);
    if n < 0 {
      ParseFloatOfNegatedDigits(IntToString(n), NatToString(-n));
    } else {
      ParseFloatOfDigits(NatToString(n));
    }
  }

  // ---------------------------------------------------------------- split() and its inverse

  /** s.split(sep) for a one-character separator: at least one part, none holding sep. */
  function Split(s: string, sep: char): (parts: seq<string>)
    ensures |parts| >= 1
    ensures forall k :: 0 <= k < |parts| ==> sep !in parts[k]
  {
    if |s| == 0 then
      [""]
    else
      var rest := Split(s[1..], sep);
      if s[0] == sep then [""] + rest else [[s[0]] + rest[0]] + rest[1..]
  }

  /** sep.join(parts) */
  function Join(parts: seq<string>, sep: char): string {
    if |parts| == 0 then ""
    else if |parts| == 1 then parts[0]
    else parts[0] + [sep] + Join(parts[1..], sep)
  }

  /** Joining the parts of a split gives back the text. */
  lemma {:induction false} JoinSplit(s: string, sep: char)
    ensures Join(Split(s, sep), sep) == s
  {
    if |s| > 0 {
      var rest := Split(s[1..], sep);
      JoinSplit(s[1..], sep);
      if s[0] == sep {
        assert s == [sep] + s[1..];
      } else if |rest| == 1 {
        assert s == [s[0]] + s[1..];
      } else {
        var parts := Split(s, sep);
        assert parts[0] == [s[0]] + rest[0] && parts[1..] == rest[1..];
        assert Join(parts, sep) == parts[0] + [sep] + Join(parts[1..], sep);
        assert Join(rest, sep) == rest[0] + [sep] + Join(rest[1..], sep);
        assert s == [s[0]] + s[1..];
      }
    }
  }

  lemma {:induction false} SplitPrefix(x: string, y: string, sep: char)
    requires sep !in x
    ensures Split(x + y, sep) == [x + Split(y, sep)[0]] + Split(y, sep)[1..]
  {
    if |x| > 0 {
      assert (x + y)[1..] == x[1..] + y;
      SplitPrefix(x[1..], y, sep);
      assert [x[0]] + (x[1..] + Split(y, sep)[0]) == x + Split(y, sep)[0];
    } else {
      assert x + y == y;
      var p := Split(y, sep);
      assert p == [p[0]] + p[1..];
      assert x + p[0] == p[0];
    }
  }

  /** Joining with one more part appends the separator and that part. */
  lemma {:induction false} JoinSnoc(parts: seq<string>, p: string, sep: char)
    requires |parts| >= 1
    ensures Join(parts + [p], sep) == Join(parts, sep) + [sep] + p
    decreases |parts|
  {
    if |parts| > 1 {
      JoinSnoc(parts[1..], p, sep);
      assert (parts + [p])[1..] == parts[1..] + [p];
    } else {
      assert (parts + [p])[1..] == [p];
    }
  }

  /** Splitting the join of separator-free parts gives back the parts. */
  lemma {:induction false} SplitJoin(parts: seq<string>, sep: char)
    requires |parts| >= 1
    requires forall k :: 0 <= k < |parts| ==> sep !in parts[k]
    ensures Split(Join(parts, sep), sep) == parts
  {
    if |parts| == 1 {
      SplitPrefix(parts[0], "", sep);
      assert Split("", sep) == [""];
      assert parts[0] + "" == parts[0];
      assert Join(parts, sep) == parts[0];
    } else {
      var tail := Join(parts[1..], sep);
      SplitJoin(parts[1..], sep);
      assert Join(parts, sep) == parts[0] + ([sep] + tail);
      SplitPrefix(parts[0], [sep] + tail, sep);
      assert ([sep] + tail)[1..] == tail;
      assert Split([sep] + tail, sep) == [""] + Split(tail, sep);
      assert parts[0] + "" == parts[0];
      assert parts == [parts[0]] + parts[1..];
    }
  }

  // ---------------------------------------------------------------- the `in` test on strings

  /** Python's `sub in s` for two strings. */
  predicate Contains(s: string, sub: string)
    decreases |s|
  {
    |sub| <= |s| && (s[..|sub|] == sub || (|s| > 0 && Contains(s[1..], sub)))
  }

  /** sub occurs in s starting at position i. */
  predicate OccursAt(s: string, sub: string, i: int) {
    0 <= i <= |s| - |sub| && s[i..i + |sub|] == sub
  }

  /** `sub in s` holds exactly when sub occurs at some position of s. */
  lemma {:induction false} ContainsAt(s: string, sub: string)
    ensures Contains(s, sub) <==> exists i :: OccursAt(s, sub, i)
  {
    if |sub| <= |s| && s[..|sub|] != sub && |s| > 0 {
      ContainsAt(s[1..], sub);
      if exists i :: OccursAt(s, sub, i) {
        var i :| OccursAt(s, sub, i);
        assert i != 0;
        assert OccursAt(s[1..], sub, i - 1);
      }
      if exists i :: OccursAt(s[1..], sub, i) {
        var i :| OccursAt(s[1..], sub, i);
        assert s[1..][i..i + |sub|] == s[i + 1..i + 1 + |sub|];
        assert OccursAt(s, sub, i + 1);
      }
    } else if |sub| <= |s| && s[..|sub|] == sub {
      assert OccursAt(s, sub, 0);
    }
  }

  /** For a one-character needle, `[c] in s` is membership of c. */
  lemma {:induction false} ContainsChar(s: string, c: char)
    ensures Contains(s, [c]) <==> c in s
  {
    if |s| > 0 {
      ContainsChar(s[1..], c);
      assert c in s <==> s[0] == c || c in s[1..];
      assert s[..1] == [s[0]];
    }
  }

  /** A text holding a non-empty needle holds the needle's first character. */
  lemma ContainsFirstChar(s: string, sub: string)
    requires |sub| > 0 && Contains(s, sub)
    ensures sub[0] in s
  {
    ContainsAt(s, sub);
    var i :| OccursAt(s, sub, i);
    assert s[i] == s[i..i + |sub|][0];
  }

  // ---------------------------------------------------------------- lower()

  function LowerChar(c: char): char {
    if 'A' <= c <= 'Z' then (c as int + 32) as char else c
  }

  /** str.lower() for ASCII letters. */
  function Lower(s: string): (r: string)
    ensures |r| == |s|
    ensures forall i :: 0 <= i < |s| ==> r[i] == LowerChar(s[i])
  {
    if |s| == 0 then "" else [LowerChar(s[0])] + Lower(s[1..])
  }

  // ---------------------------------------------------------------- replace()

  /** s.replace(pat, rep): every occurrence of pat, scanning from the left, becomes rep. */
  function ReplaceAll(s: string, pat: string, rep: string): string
    requires |pat| > 0
    decreases |s|
  {
    if |s| < |pat| then s
    else if s[..|pat|] == pat then rep + ReplaceAll(s[|pat|..], pat, rep)
    else [s[0]] + ReplaceAll(s[1..], pat, rep)
  }

  /** A text without the pattern is left alone. */
  lemma {:induction false} ReplaceAbsent(s: string, pat: string, rep: string)
    requires |pat| > 0 && !Contains(s, pat)
    ensures ReplaceAll(s, pat, rep) == s
  {
    if |s| >= |pat| {
      ReplaceAbsent(s[1..], pat, rep);
      assert s == [s[0]] + s[1..];
    }
  }

  /** A pattern whose first character does not recur in it, appended once to a text that does
      not hold it, is the only occurrence: only that suffix is replaced. */
  lemma {:induction false} ReplaceSuffix(x: string, pat: string, rep: string)
    requires |pat| > 0 && pat[0] !in pat[1..]
    requires !Contains(x, pat)
    ensures ReplaceAll(x + pat, pat, rep) == x + rep
  {
    var s := x + pat;
    if |x| == 0 {
      assert s == pat && s[..|pat|] == pat && s[|pat|..] == "";
    } else {
      // pat can neither match inside x nor start again inside itself
      if |x| >= |pat| {
        assert s[..|pat|] == x[..|pat|];
      } else {
        assert pat[1..][|x| - 1] == pat[|x|];
        assert s[..|pat|][|x|] == pat[0];
      }
      assert s[..|pat|] != pat;
      assert s[1..] == x[1..] + pat;
      assert !Contains(x[1..], pat);
      ReplaceSuffix(x[1..], pat, rep);
      assert [x[0]] + (x[1..] + rep) == x + rep;
    }
  }

  // ---------------------------------------------------------------- os.path.join()

  /** os.path.join(a, b) for POSIX paths: an absolute b replaces a; otherwise b is appended,
      with a '/' between unless a is empty or already ends with one. */
  function PathJoin(a: string, b: string): string {
    if |b| > 0 && b[0] == '/' then b
    else if |a| == 0 || a[|a| - 1] == '/' then a + b
    else a + "/" + b
  }

  /** The joined path ends with b, preceded by a or by a + "/", unless b is absolute. */
  lemma PathJoinEndsWith(a: string, b: string)
    ensures var r := PathJoin(a, b);
      && |r| >= |b| && r[|r| - |b|..] == b
      && ((|b| > 0 && b[0] == '/') || r[..|r| - |b|] == a || r[..|r| - |b|] == a + "/")
  {
  }

  // ---------------------------------------------------------------- next() and filtering comprehensions

  /** The position of the first true entry, or None. */
  function FirstTrue(bs: seq<bool>): (r: Option<nat>)
    ensures r.Some? ==> r.value < |bs| && bs[r.value] && forall j :: 0 <= j < r.value ==> !bs[j]
    ensures r.None? ==> forall j :: 0 <= j < |bs| ==> !bs[j]
    decreases |bs|
  {
    if |bs| == 0 then None
    else if bs[0] then Some(0)
    else
      match FirstTrue(bs[1..])
      case None => None
      case Some(i) => Some(i + 1)
  }

  /** The positions of the true entries, in order. */
  function TrueIndices(bs: seq<bool>): (r: seq<nat>)
    ensures forall k :: 0 <= k < |r| ==> r[k] < |bs| && bs[r[k]]
    ensures forall j :: 0 <= j < |bs| && bs[j] ==> j in r
    ensures forall k, l :: 0 <= k < l < |r| ==> r[k] < r[l]
    decreases |bs|
  {
    if |bs| == 0 then []
    else
      var rest := TrueIndices(bs[..|bs| - 1]);
      if bs[|bs| - 1] then rest + [|bs| - 1] else rest
  }

  /** Without a true entry there are no positions. */
  lemma {:induction false} TrueIndicesNone(bs: seq<bool>)
    requires forall j :: 0 <= j < |bs| ==> !bs[j]
    ensures TrueIndices(bs) == []
    decreases |bs|
  {
    if |bs| > 0 {
      TrueIndicesNone(bs[..|bs| - 1]);
    }
  }
}
