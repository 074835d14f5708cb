/**
  * The handful of Python string operations the service relies on, restricted to ASCII:
  * `str.strip`, `str.upper`, `str.lower`, `str.capitalize`, `str.startswith`, `in`,
  * `str.split(sep)`, `sep.join(parts)`, `str(int)`, `int(str)` and the `{n:,}` format.
  */
module Text {
  import opened Wrappers

  /** `str.isspace()` on the ASCII range: space, \t, \n, \v, \f, \r and \x1c..\x1f. */
  predicate IsSpace(c: char) {
    c == ' ' || ('\t' <= c <= '\r') || ('\U{1C}' <= c <= '\U{1F}')
  }

  predicate AllSpace(s: string) {
    forall i :: 0 <= i < |s| ==> IsSpace(s[i])
  }

  predicate IsDigit(c: char) {
    '0' <= c <= '9'
  }

  function UpperChar(c: char): char {
    if 'a' <= c <= 'z' then (c as int - 32) as char else c
  }

  function LowerChar(c: char): char {
    if 'A' <= c <= 'Z' then (c as int + 32) as char else c
  }

  /** `str.upper()` */
  function Upper(s: string): (r: string)
    ensures |r| == |s|
  {
    seq(|s|, i requires 0 <= i < |s| => UpperChar(s[i]))
  }

  /** Upper-casing twice changes nothing more. */
  lemma {:induction false} UpperTwice(s: string)
    ensures Upper(Upper(s)) == Upper(s)
  {
    forall i | 0 <= i < |s|
      ensures Upper(Upper(s))[i] == Upper(s)[i]
    {
    }
  }

  /** `str.lower()` */
  function Lower(s: string): (r: string)
    ensures |r| == |s|
  {
    seq(|s|, i requires 0 <= i < |s| => LowerChar(s[i]))
  }

  /** `str.capitalize()`: the first character upper-cased, every other one lower-cased. */
  function Capitalize(s: string): (r: string)
    ensures |r| == |s|
  {
    if s == [] then [] else [UpperChar(s[0])] + Lower(s[1..])
  }

  /** The end of the run of whitespace that starts at `i`. */
  function SpacesFrom(s: string, i: nat): (j: nat)
    requires i <= |s|
    ensures i <= j <= |s|
    ensures forall k :: i <= k < j ==> IsSpace(s[k])
    ensures j == |s| || !IsSpace(s[j])
    decreases |s| - i
  {
    if i < |s| && IsSpace(s[i]) then SpacesFrom(s, i + 1) else i
  }

  /** The start of the run of whitespace that ends at `j`. */
  function SpacesBefore(s: string, j: nat): (i: nat)
    requires j <= |s|
    ensures i <= j
    ensures forall k :: i <= k < j ==> IsSpace(s[k])
    ensures i == 0 || !IsSpace(s[i - 1])
  {
    if j > 0 && IsSpace(s[j - 1]) then SpacesBefore(s, j - 1) else j
  }

  /** `str.lstrip()` */
  function LStrip(s: string): (r: string)
    ensures |r| <= |s| && r == s[|s| - |r|..]
    ensures AllSpace(s[..|s| - |r|])
    ensures r == [] || !IsSpace(r[0])
  {
    var n := SpacesFrom(s, 0);
    assert forall k :: 0 <= k < n ==> s[..n][k] == s[k];
    s[n..]
  }

  /** `str.rstrip()` */
  function RStrip(s: string): (r: string)
    ensures |r| <= |s| && r == s[..|r|]
    ensures AllSpace(s[|r|..])
    ensures r == [] || !IsSpace(r[|r| - 1])
  {
    var n := SpacesBefore(s, |s|);
    assert forall k :: 0 <= k < |s| - n ==> s[n..][k] == s[n + k];
    s[..n]
  }

  /** Neither end of `s` is whitespace. */
  predicate IsStripped(s: string) {
    s == [] || (!IsSpace(s[0]) && !IsSpace(s[|s| - 1]))
  }

  /** `str.strip()` */
  function Strip(s: string): string {
    RStrip(LStrip(s))
  }

  /** Stripping leaves no whitespace at either end. */
  lemma {:induction false} StripIsStripped(s: string)
    ensures IsStripped(Strip(s))
  {
    var t := LStrip(s);
    var r := RStrip(t);
    assert r != [] ==> r[0] == t[0];
  }

  /** Stripping leaves an already stripped string alone. */
  lemma {:induction false} StripFixed(s: string)
    requires IsStripped(s)
    ensures Strip(s) == s
  {
  }

  /** `[p.strip() for p in parts]` */
  function StripEach(parts: seq<string>): (r: seq<string>)
    ensures |r| == |parts|
    ensures forall k :: 0 <= k < |r| ==> r[k] == Strip(parts[k])
  {
    seq(|parts|, k requires 0 <= k < |parts| => Strip(parts[k]))
  }

  /** `str.startswith(prefix)` */
  predicate StartsWith(s: string, prefix: string) {
    |prefix| <= |s| && s[..|prefix|] == prefix
  }

  /** `str.endswith(suffix)` */
  predicate EndsWith(s: string, suffix: string) {
    |suffix| <= |s| && s[|s| - |suffix|..] == suffix
  }

  /** `sub in s` */
  predicate Contains(s: string, sub: string) {
    exists i :: 0 <= i <= |s| - |sub| && OccursAt(s, sub, i)
  }

  predicate OccursAt(s: string, sub: string, i: int) {
    0 <= i <= |s| - |sub| && s[i..i + |sub|] == sub
  }

  /** `sep.join(parts)` */
  function Join(parts: seq<string>, sep: string): string {
    if parts == [] then ""
    else if |parts| == 1 then parts[0]
    else parts[0] + sep + Join(parts[1..], sep)
  }

  /** The index of the first `c` in `s`. */
  function IndexOf(s: string, c: char): (i: nat)
    requires c in s
    ensures i < |s| && s[i] == c && c !in s[..i]
  {
    if s[0] == c then 0 else 1 + IndexOf(s[1..], c)
  }

  /** `s.split(sep)` for a one-character separator: never empty, and the parts joined back give `s`. */
  function Split(s: string, sep: char): (parts: seq<string>)
    ensures |parts| >= 1
    ensures forall k :: 0 <= k < |parts| ==> sep !in parts[k]
    ensures Join(parts, [sep]) == s
    decreases |s|
  {
    if sep !in s then [s]
    else
      var i := IndexOf(s, sep);
      assert s == s[..i] + [sep] + s[i + 1..];
      [s[..i]] + Split(s[i + 1..], sep)
  }

  /** Splitting a join undoes it when no part holds the separator. */
  lemma {:induction false} SplitJoin(parts: seq<string>, sep: char)
    requires |parts| >= 1
    requires forall k :: 0 <= k < |parts| ==> sep !in parts[k]
    ensures Split(Join(parts, [sep]), sep) == parts
  {
    if |parts| > 1 {
      var s := Join(parts, [sep]);
      assert s == parts[0] + [sep] + Join(parts[1..], [sep]);
      assert s[|parts[0]|] == sep;
      assert s[..|parts[0]|] == parts[0];
      assert sep in s;
      assert IndexOf(s, sep) == |parts[0]|;
      assert s[|parts[0]| + 1..] == Join(parts[1..], [sep]);
      SplitJoin(parts[1..], sep);
    }
  }

  /** `[s] * n` */
  function Repeat(s: string, n: int): (r: seq<string>)
    ensures |r| == if n < 0 then 0 else n
    ensures forall k :: 0 <= k < |r| ==> r[k] == s
  {
    if n <= 0 then [] else [s] + Repeat(s, n - 1)
  }

  /** `c * n` for a one-character string */
  function RepeatChar(c: char, n: int): (r: string)
    ensures |r| == if n < 0 then 0 else n
    ensures forall k :: 0 <= k < |r| ==> r[k] == c
  {
    if n <= 0 then [] else [c] + RepeatChar(c, n - 1)
  }

  function DigitChar(d: nat): char
    requires d < 10
  {
    ('0' as int + d) as char
  }

  function DigitValue(c: char): nat
    requires IsDigit(c)
  {
    c as int - '0' as int
  }

  /** The decimal digits of `n`, without leading zeros. */
  function NatToString(n: nat): (r: string)
    ensures |r| >= 1
    ensures forall k :: 0 <= k < |r| ==> IsDigit(r[k])
    ensures n >= 10 ==> r[0] != '0'
  {
    if n < 10 then [DigitChar(n)] else NatToString(n / 10) + [DigitChar(n % 10)]
  }

  /** `str(n)` */
  function IntToString(n: int): string {
    if n < 0 then "-" + NatToString(-n) else NatToString(n)
  }

  /** The value of a string of decimal digits. */
  function DigitsValue(s: string): nat
    requires forall k :: 0 <= k < |s| ==> IsDigit(s[k])
  {
    if s == [] then 0 else DigitsValue(s[..|s| - 1]) * 10 + DigitValue(s[|s| - 1])
  }

  predicate AllDigits(s: string) {
    forall k :: 0 <= k < |s| ==> IsDigit(s[k])
  }

  /**
    * `int(s)` in base 10: surrounding whitespace, an optional sign, then at least one
    * decimal digit; `None` where Python raises `ValueError`.
    */
  function ParseInt(s: string): Option<int> {
    ParseStripped(Strip(s))
  }

  /** `int` of a text with no surrounding whitespace. */
  function ParseStripped(t: string): Option<int> {
    if t != [] && (t[0] == '-' || t[0] == '+') && |t| > 1 && AllDigits(t[1..]) then
      Some(if t[0] == '-' then -(DigitsValue(t[1..]) as int) else DigitsValue(t[1..]))
    else if t != [] && AllDigits(t) then Some(DigitsValue(t))
    else None
  }

  lemma {:induction false} ParseMinus(d: string)
    requires d != [] && AllDigits(d)
    ensures ParseStripped("-" + d) == Some(-(DigitsValue(d) as int))
  {
    assert ("-" + d)[1..] == d;
  }

  lemma {:induction false} DigitsValueOfNatToString(n: nat)
    ensures DigitsValue(NatToString(n)) == n
  {
    if n >= 10 {
      DigitsValueOfNatToString(n / 10);
      var s := NatToString(n);
      assert s[..|s| - 1] == NatToString(n / 10);
    }
  }

  lemma {:induction false} StripOfNatToString(n: nat)
    ensures Strip(NatToString(n)) == NatToString(n)
  {
    var s := NatToString(n);
    assert !IsSpace(s[0]) && !IsSpace(s[|s| - 1]);
    StripFixed(s);
  }

  lemma {:induction false} ParseIntOfDigits(d: string, v: nat)
    requires d != [] && AllDigits(d) && DigitsValue(d) == v
    ensures ParseInt(d) == Some(v as int)
  {
    assert IsDigit(d[0]) && IsDigit(d[|d| - 1]);
    StripFixed(d);
  }

  lemma {:induction false} ParseIntOfMinusDigits(d: string, v: nat)
    requires d != [] && AllDigits(d) && DigitsValue(d) == v
    ensures ParseInt("-" + d) == Some(-(v as int))
  {
    var t := "-" + d;
    assert t[0] == '-' && t[|t| - 1] == d[|d| - 1];
    StripFixed(t);
    ParseMinus(d);
  }

  lemma {:induction false} ParseIntOfNat(n: int)
    requires n >= 0
    ensures ParseInt(IntToString(n)) == Some(n)
  {
    var d := NatToString(n);
    DigitsValueOfNatToString(n);
    ParseIntOfDigits(d, n);
  }

  lemma {:induction false} ParseIntOfNegative(n: int)
    requires n < 0
    ensures ParseInt(IntToString(n)) == Some(n)
  {
    var d := NatToString(-n);
    DigitsValueOfNatToString(-n);
    ParseIntOfMinusDigits(d, -n);
  }

  /** `int(str(n)) == n`: the decimal rendering reads back as the same integer. */
  lemma {:induction false} ParseIntToString(n: int)
    ensures ParseInt(IntToString(n)) == Some(n)
  {
    if n < 0 {
      ParseIntOfNegative(n);
    } else {
      ParseIntOfNat(n);
    }
  }

  /** Three digits, zero-padded: one group of the `{n:,}` format. */
  function Pad3(k: nat): (r: string)
    requires k < 1000
    ensures |r| == 3
  {
    [DigitChar(k / 100), DigitChar(k / 10 % 10), DigitChar(k % 10)]
  }

  function GroupedNat(n: nat): string {
    if n < 1000 then NatToString(n) else GroupedNat(n / 1000) + "," + Pad3(n % 1000)
  }

  /** `f"{n:,}"`: decimal digits with a comma between groups of three. */
  function Thousands(n: int): string {
    if n < 0 then "-" + GroupedNat(-n) else GroupedNat(n)
  }

  /** `s` with every `c` removed. */
  function Without(s: string, c: char): (r: string)
  {
    if s == [] then [] else (if s[0] == c then [] else [s[0]]) + Without(s[1..], c)
  }

  lemma {:induction false} WithoutAppend(a: string, b: string, c: char)
    ensures Without(a + b, c) == Without(a, c) + Without(b, c)
  {
    if a != [] {
      assert (a + b)[1..] == a[1..] + b;
      WithoutAppend(a[1..], b, c);
    } else {
      assert a + b == b;
    }
  }

  lemma {:induction false} WithoutDigits(s: string)
    requires AllDigits(s)
    ensures Without(s, ',') == s
  {
    if s != [] {
      WithoutDigits(s[1..]);
    }
  }

  lemma {:induction false} NatToStringLastThree(n: nat)
    requires n >= 1000
    ensures NatToString(n) == NatToString(n / 1000) + Pad3(n % 1000)
  {
    var a, b := n / 10, n / 100;
    LastThreeDigits(n);
    assert NatToString(n) == NatToString(a) + [DigitChar(n % 10)];
    assert NatToString(a) == NatToString(b) + [DigitChar(a % 10)];
    assert NatToString(b) == NatToString(n / 1000) + [DigitChar(b % 10)];
  }

  /** The digits of `n % 1000` are the last three digits of `n`. */
  lemma {:induction false} LastThreeDigits(n: nat)
    ensures n / 10 / 10 == n / 100 && n / 100 / 10 == n / 1000
    ensures n % 1000 / 100 == n / 100 % 10 && n % 1000 / 10 % 10 == n / 10 % 10 && n % 1000 % 10 == n % 10
  {
    var z, a := n % 10, n / 10;
    var y, b := a % 10, a / 10;
    var x, c := b % 10, b / 10;
    var low := 100 * x + 10 * y + z;
    DivModUnique(n, 100, 10 * c + x, 10 * y + z);
    DivModUnique(n, 1000, c, low);
    DivModUnique(low, 100, x, 10 * y + z);
    DivModUnique(low, 10, 10 * x + y, z);
    DivModUnique(10 * x + y, 10, x, y);
  }

  /** Quotient and remainder by 10, 100 or 1000 are the only pair that rebuilds `n`. */
  lemma {:induction false} DivModUnique(n: nat, d: nat, q: nat, r: nat)
    requires d == 10 || d == 100 || d == 1000
    requires 0 <= r < d && n == q * d + r
    ensures n / d == q && n % d == r
  {
    if d == 10 {
      assert n == q * 10 + r;
    } else if d == 100 {
      assert n == q * 100 + r;
    } else {
      assert n == q * 1000 + r;
    }
  }

  lemma {:induction false} GroupedNatDigits(n: nat)
    ensures Without(GroupedNat(n), ',') == NatToString(n)
  {
    if n < 1000 {
      WithoutDigits(NatToString(n));
    } else {
      GroupedNatDigits(n / 1000);
      assert GroupedNat(n) == GroupedNat(n / 1000) + ("," + Pad3(n % 1000));
      WithoutAppend(GroupedNat(n / 1000), "," + Pad3(n % 1000), ',');
      assert Without(",", ',') == [];
      WithoutAppend(",", Pad3(n % 1000), ',');
      WithoutDigits(Pad3(n % 1000));
      NatToStringLastThree(n);
    }
  }

  /** Dropping the group separators from `{n:,}` gives back `str(n)`. */
  lemma {:induction false} ThousandsDigits(n: int)
    ensures Without(Thousands(n), ',') == IntToString(n)
  {
    if n < 0 {
      WithoutAppend("-", GroupedNat(-n), ',');
      GroupedNatDigits(-n);
    } else {
      GroupedNatDigits(n);
    }
  }

  /** Digits and group commas, starting and ending with a digit. */
  predicate IsGroupedNumeral(g: string) {
    g != [] && IsDigit(g[0]) && IsDigit(g[|g| - 1]) &&
    forall k :: 0 <= k < |g| ==> IsDigit(g[k]) || g[k] == ','
  }

  lemma {:induction false} GroupedNatShape(n: nat)
    ensures IsGroupedNumeral(GroupedNat(n))
  {
    if n >= 1000 {
      GroupedNatShape(n / 1000);
      var g := GroupedNat(n / 1000);
      var p := Pad3(n % 1000);
      assert forall k :: 0 <= k < 3 ==> IsDigit(p[k]);
      assert GroupedNat(n) == g + "," + p;
      assert (g + "," + p)[0] == g[0];
    }
  }

  /** `{n:,}` starts with a digit or a minus sign, ends with a digit, and holds nothing else but commas. */
  lemma {:induction false} ThousandsChars(n: int)
    ensures var t := Thousands(n);
      t != [] && (IsDigit(t[0]) || t[0] == '-') && IsDigit(t[|t| - 1]) &&
      forall k :: 0 <= k < |t| ==> IsDigit(t[k]) || t[k] == ',' || t[k] == '-'
  {
    if n < 0 {
      GroupedNatShape(-n);
      var g := GroupedNat(-n);
      assert forall k :: 1 <= k < |"-" + g| ==> ("-" + g)[k] == g[k - 1];
    } else {
      GroupedNatShape(n);
    }
  }

  /**
    * Every fourth character counted from the right is a comma and every other one a digit, and
    * the text does not start with a comma: one to three leading digits, then groups of `,ddd`.
    */
  predicate InGroupsOfThree(g: string) {
    |g| % 4 != 0 &&
    forall k :: 0 <= k < |g| ==> if (|g| - k) % 4 == 0 then g[k] == ',' else IsDigit(g[k])
  }

  lemma {:induction false} ShortNatToString(n: nat)
    requires n < 1000
    ensures |NatToString(n)| <= 3
  {
    if n >= 10 {
      assert NatToString(n) == NatToString(n / 10) + [DigitChar(n % 10)];
      if n >= 100 {
        assert NatToString(n / 10) == NatToString(n / 100) + [DigitChar(n / 10 % 10)];
      }
    }
  }

  /** Appending `,ddd` to a grouped numeral gives a grouped numeral. */
  lemma {:induction false} GroupsAppend(g: string, p: string)
    requires InGroupsOfThree(g) && |p| == 3 && AllDigits(p)
    ensures InGroupsOfThree(g + "," + p)
  {
    var r := g + "," + p;
    forall k | 0 <= k < |r|
      ensures if (|r| - k) % 4 == 0 then r[k] == ',' else IsDigit(r[k])
    {
      if k < |g| {
        var d := |g| - k;
        assert r[k] == g[k] && |r| - k == d + 4;
        assert (d + 4) % 4 == d % 4;
      } else if k > |g| {
        assert r[k] == p[k - |g| - 1];
      }
    }
  }

  lemma {:induction false} GroupedNatGroups(n: nat)
    ensures InGroupsOfThree(GroupedNat(n))
    ensures n != 0 ==> GroupedNat(n)[0] != '0'
  {
    if n < 1000 {
      ShortNatToString(n);
      if 0 < n < 10 {
        assert NatToString(n) == [DigitChar(n)];
      }
    } else {
      GroupedNatGroups(n / 1000);
      var g, p := GroupedNat(n / 1000), Pad3(n % 1000);
      assert forall k :: 0 <= k < 3 ==> IsDigit(p[k]);
      GroupsAppend(g, p);
      assert GroupedNat(n) == g + "," + p;
      assert (g + "," + p)[0] == g[0];
    }
  }

  /**
    * `{n:,}` is a minus sign exactly for a negative `n`, then the digits of `|n|` in groups of
    * three with a comma before each group after the first, and no leading zero.
    */
  lemma {:induction false} ThousandsShape(n: int)
    ensures var t := Thousands(n);
      var s := if n < 0 then 1 else 0;
      |t| > s && (t[0] == '-' <==> n < 0) && InGroupsOfThree(t[s..]) && (n != 0 ==> t[s] != '0')
  {
    if n < 0 {
      GroupedNatGroups(-n);
      assert Thousands(n)[1..] == GroupedNat(-n);
    } else {
      GroupedNatGroups(n);
      assert Thousands(n)[0..] == GroupedNat(n);
    }
  }
}
