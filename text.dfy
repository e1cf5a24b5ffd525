/** Character classes, decimal numerals and the string splitting the record code relies on. */
module Text {

  predicate IsDigit(c: char) { '0' <= c <= '9' }

  predicate IsUpper(c: char) { 'A' <= c <= 'Z' }

  /** The ASCII characters Python's `str.split()` treats as white space. */
  predicate IsSpace(c: char)
  {
    c == ' ' || c == '\t' || c == '\n' || c == '\r' || c == '\U{0B}' || c == '\U{0C}'
  }

  predicate AllDigits(s: string) { forall i :: 0 <= i < |s| ==> IsDigit(s[i]) }

  /** ASCII upper-casing, as `str.upper()` does on ASCII letters. */
  function Upper(c: char): char
  {
    if 'a' <= c <= 'z' then (c as int - 32) as char else c
  }

  function DigitChar(d: nat): (c: char)
    requires d < 10
    ensures IsDigit(c)
  {
    ('0' as int + d) as char
  }

  function DigitValue(c: char): (d: nat)
    requires IsDigit(c)
    ensures d < 10
  {
    c as int - '0' as int
  }

  /** `str(n)` for a natural number: decimal digits without leading zeros. */
  function NatToString(n: nat): (s: string)
    ensures |s| > 0 && AllDigits(s)
    ensures |s| > 1 ==> s[0] != '0'
    ensures n < 10 <==> |s| == 1
  {
    if n < 10 then [DigitChar(n)] else NatToString(n / 10) + [DigitChar(n % 10)]
  }

  /** `int(s)` for a string of decimal digits. */
  function ParseNat(s: string): nat
    requires AllDigits(s)
  {
    if s == [] then 0 else ParseNat(s[..|s| - 1]) * 10 + DigitValue(s[|s| - 1])
  }

  lemma {:induction false} ParseNatToString(n: nat)
    ensures ParseNat(NatToString(n)) == n
  {
    if n >= 10 {
      var s := NatToString(n);
      assert s[..|s| - 1] == NatToString(n / 10);
      ParseNatToString(n / 10);
    }
  }

  /** Python's `int()` on a string with an optional sign: the integer it denotes, if any. */
  function ParseInt(s: string): (r: Option<int>)
    ensures r.Some? ==> |s| > 0
    ensures AllDigits(s) && |s| > 0 ==> r == Some(ParseNat(s))
  {
    if |s| > 0 && AllDigits(s) then Some(ParseNat(s))
    else if |s| > 1 && s[0] == '-' && AllDigits(s[1..]) then Some(-(ParseNat(s[1..]) as int))
    else if |s| > 1 && s[0] == '+' && AllDigits(s[1..]) then Some(ParseNat(s[1..]))
    else None
  }

  /**
   * `int()` reads back the decimal numeral of every natural number, bare or
   * with a sign, and a numeral with anything but a sign in front is rejected.
   */
  lemma ParseIntOfNumeral(n: nat, c: char)
    ensures ParseInt(NatToString(n)) == Some(n)
    ensures ParseInt("-" + NatToString(n)) == Some(-(n as int))
    ensures ParseInt("+" + NatToString(n)) == Some(n)
    ensures !IsDigit(c) && c != '-' && c != '+' ==> ParseInt([c] + NatToString(n)) == None
  {
    var s := NatToString(n);
    ParseNatToString(n);
    assert ("-" + s)[1..] == s && !AllDigits("-" + s) by { assert !IsDigit(("-" + s)[0]); }
    assert ("+" + s)[1..] == s && !AllDigits("+" + s) by { assert !IsDigit(("+" + s)[0]); }
    assert ([c] + s)[0] == c;
  }

  datatype Option<T> = None | Some(value: T)

  predicate StartsWith(s: string, p: string) { |p| <= |s| && s[..|p|] == p }

  /** Python's `t in s` for strings. */
  function HasSubstring(s: string, t: string): bool
    decreases |s|
  {
    if |s| < |t| then false
    else s[..|t|] == t || HasSubstring(s[1..], t)
  }

  // ---------------------------------------------------------------------
  // Whitespace splitting after blanking a character class: the effect of
  // `re.sub('[0-9]', " ", s).split()` and `re.sub('[A-Z]', " ", s).split()`.
  // ---------------------------------------------------------------------

  datatype CharClass = Digits | Uppers

  /** True when `c` separates fields once the characters of `cls` are blanked. */
  predicate IsBlank(c: char, cls: CharClass)
  {
    IsSpace(c) || (if cls == Digits then IsDigit(c) else IsUpper(c))
  }

  /** Length of the longest prefix of `s` free of blanks. */
  function FieldLength(s: string, cls: CharClass): (k: nat)
    ensures k <= |s|
    ensures |s| > 0 && !IsBlank(s[0], cls) ==> k > 0
  {
    if s == [] || IsBlank(s[0], cls) then 0 else 1 + FieldLength(s[1..], cls)
  }

  /** The maximal blank-free pieces of `s`, in order. */
  function Fields(s: string, cls: CharClass): seq<string>
    decreases |s|
  {
    if s == [] then []
    else if IsBlank(s[0], cls) then Fields(s[1..], cls)
    else
      var k := FieldLength(s, cls);
      [s[..k]] + Fields(s[k..], cls)
  }

  lemma {:induction false} FieldLengthOf(a: string, b: string, cls: CharClass)
    requires forall i :: 0 <= i < |a| ==> !IsBlank(a[i], cls)
    requires b == [] || IsBlank(b[0], cls)
    ensures FieldLength(a + b, cls) == |a|
  {
    if a != [] {
      assert (a + b)[1..] == a[1..] + b;
      FieldLengthOf(a[1..], b, cls);
    }
  }

  /** Blanks in front of the rest are skipped. */
  lemma {:induction false} FieldsSkip(a: string, b: string, cls: CharClass)
    requires forall i :: 0 <= i < |a| ==> IsBlank(a[i], cls)
    ensures Fields(a + b, cls) == Fields(b, cls)
  {
    if a != [] {
      var s := a + b;
      assert s[0] == a[0] && IsBlank(s[0], cls);
      assert s[1..] == a[1..] + b;
      assert Fields(s, cls) == Fields(s[1..], cls);
      FieldsSkip(a[1..], b, cls);
    } else {
      assert a + b == b;
    }
  }

  /** A blank-free piece followed by a blank (or the end) is one field. */
  lemma FieldsToken(a: string, b: string, cls: CharClass)
    requires |a| > 0 && forall i :: 0 <= i < |a| ==> !IsBlank(a[i], cls)
    requires b == [] || IsBlank(b[0], cls)
    ensures Fields(a + b, cls) == [a] + Fields(b, cls)
  {
    FieldLengthOf(a, b, cls);
    assert (a + b)[..|a|] == a;
    assert (a + b)[|a|..] == b;
  }

  // ---------------------------------------------------------------------
  // Grouping by digit-ness: the effect of
  // `["".join(x) for _, x in itertools.groupby(s, key=str.isdigit)]`.
  // ---------------------------------------------------------------------

  predicate Homogeneous(s: string, digit: bool)
  {
    forall i :: 0 <= i < |s| ==> IsDigit(s[i]) == digit
  }

  /** Length of the longest prefix of `s` whose characters all have digit-ness `digit`. */
  function SameClassLength(s: string, digit: bool): (k: nat)
    ensures k <= |s|
    ensures |s| > 0 && IsDigit(s[0]) == digit ==> k > 0
  {
    if s == [] || IsDigit(s[0]) != digit then 0 else 1 + SameClassLength(s[1..], digit)
  }

  function Groups(s: string): seq<string>
    decreases |s|
  {
    if s == [] then []
    else
      var k := SameClassLength(s, IsDigit(s[0]));
      [s[..k]] + Groups(s[k..])
  }

  lemma {:induction false} SameClassLengthOf(a: string, b: string, digit: bool)
    requires Homogeneous(a, digit)
    requires b == [] || IsDigit(b[0]) != digit
    ensures SameClassLength(a + b, digit) == |a|
  {
    if a != [] {
      assert (a + b)[1..] == a[1..] + b;
      SameClassLengthOf(a[1..], b, digit);
    }
  }

  /** A homogeneous piece followed by a change of class (or the end) is one group. */
  lemma GroupsToken(a: string, b: string)
    requires |a| > 0 && Homogeneous(a, IsDigit(a[0]))
    requires b == [] || IsDigit(b[0]) != IsDigit(a[0])
    ensures Groups(a + b) == [a] + Groups(b)
  {
    SameClassLengthOf(a, b, IsDigit(a[0]));
    assert (a + b)[..|a|] == a;
    assert (a + b)[|a|..] == b;
  }

  // ---------------------------------------------------------------------
  // `str.split(c)` and `c.join(parts)`.
  // ---------------------------------------------------------------------

  function SplitOn(s: string, c: char): (r: seq<string>)
    ensures |r| >= 1
  {
    if s == [] then [""]
    else
      var rest := SplitOn(s[1..], c);
      if s[0] == c then [""] + rest else [[s[0]] + rest[0]] + rest[1..]
  }

  lemma {:induction false} SplitOnNone(s: string, c: char)
    requires c !in s
    ensures SplitOn(s, c) == [s]
  {
    if s != [] {
      assert s[1..] + [] == s[1..];
      SplitOnNone(s[1..], c);
      assert [s[0]] + s[1..] == s;
    }
  }

  lemma {:induction false} SplitOnAfter(a: string, b: string, c: char)
    requires c !in a
    ensures SplitOn(a + [c] + b, c) == [a] + SplitOn(b, c)
  {
    if a == [] {
      assert a + [c] + b == [c] + b;
      assert ([c] + b)[1..] == b;
    } else {
      assert (a + [c] + b)[1..] == a[1..] + [c] + b;
      SplitOnAfter(a[1..], b, c);
      assert [a[0]] + a[1..] == a;
    }
  }

  function Join(parts: seq<string>, sep: string): string
  {
    if parts == [] then ""
    else if |parts| == 1 then parts[0]
    else parts[0] + sep + Join(parts[1..], sep)
  }

  /** Splitting a join again at its separator gives back the parts that do not contain it. */
  lemma {:induction false} SplitOnJoin(parts: seq<string>, c: char)
    requires |parts| >= 1 && forall k :: 0 <= k < |parts| ==> c !in parts[k]
    ensures SplitOn(Join(parts, [c]), c) == parts
    decreases |parts|
  {
    if |parts| == 1 {
      SplitOnNone(parts[0], c);
    } else {
      SplitOnJoin(parts[1..], c);
      SplitOnAfter(parts[0], Join(parts[1..], [c]), c);
      assert parts == [parts[0]] + parts[1..];
    }
  }

  function Concat(parts: seq<string>): string
  {
    if parts == [] then "" else parts[0] + Concat(parts[1..])
  }
}
