/**
  * The regular expressions of the query tools, written out as predicates over ASCII text.
  * Python's `re.match(r"^...$", s)` accepts `s` when the pattern matches all of `s`, or all
  * of `s` but one final "\n" (that is where `$` may also match); the `...Matches` predicates
  * below add that case explicitly.
  */
module Patterns {
  import opened Text

  /** `[a-zA-Z_]` */
  predicate IsIdentStart(c: char) {
    'a' <= c <= 'z' || 'A' <= c <= 'Z' || c == '_'
  }

  /** `[a-zA-Z0-9_]`, also the ASCII word characters of `\b`. */
  predicate IsWordChar(c: char) {
    IsIdentStart(c) || IsDigit(c)
  }

  /** `[a-zA-Z_][a-zA-Z0-9_]*` over the whole string. */
  predicate IsIdentifier(s: string) {
    |s| >= 1 && IsIdentStart(s[0]) && forall i :: 1 <= i < |s| ==> IsWordChar(s[i])
  }

  predicate EndsWithNewline(s: string) {
    s != [] && s[|s| - 1] == '\n'
  }

  /** `[a-zA-Z_][a-zA-Z0-9_]*(\.[a-zA-Z_][a-zA-Z0-9_]*)?` over the whole string. */
  predicate IsTableNameShape(s: string) {
    IsIdentifier(s) ||
    exists k :: 0 < k < |s| && s[k] == '.' && IsIdentifier(s[..k]) && IsIdentifier(s[k + 1..])
  }

  /** `re.match(r"^[a-zA-Z_][a-zA-Z0-9_]*(\.[a-zA-Z_][a-zA-Z0-9_]*)?$", s)` */
  predicate TableNameMatches(s: string) {
    IsTableNameShape(s) || (EndsWithNewline(s) && IsTableNameShape(s[..|s| - 1]))
  }

  /** `[c.strip() for c in columns.split(",")]` */
  function ColumnTokens(columns: string): (tokens: seq<string>)
    ensures |tokens| == |Split(columns, ',')|
    ensures forall k :: 0 <= k < |tokens| ==> tokens[k] == Strip(Split(columns, ',')[k])
  {
    StripEach(Split(columns, ','))
  }

  /**
    * The position of the first token that is not an identifier (`|tokens|` when there is none),
    * which is the column the error message names.
    */
  function FirstBadToken(tokens: seq<string>): (i: nat)
    ensures i <= |tokens|
    ensures forall k :: 0 <= k < i ==> IsIdentifier(tokens[k])
    ensures i < |tokens| ==> !IsIdentifier(tokens[i])
  {
    if tokens == [] then 0
    else if !IsIdentifier(tokens[0]) then 0
    else 1 + FirstBadToken(tokens[1..])
  }

  /**
    * The column check shared by the builder and its input model: `"*"`, or every stripped
    * comma-separated token matches `^[a-zA-Z_][a-zA-Z0-9_]*$` (a stripped token never ends in
    * "\n", so the `$` case adds nothing here).
    */
  predicate ColumnsAccepted(columns: string) {
    columns == "*" || FirstBadToken(ColumnTokens(columns)) == |ColumnTokens(columns)|
  }

  /** A single identifier is an accepted column list. */
  lemma {:induction false} SingleColumnAccepted(c: string)
    requires IsIdentifier(c)
    ensures ColumnsAccepted(c)
  {
    assert ',' !in c by {
      forall i | 0 <= i < |c|
        ensures c[i] != ','
      {
        assert IsWordChar(c[i]) || i == 0;
      }
    }
    assert IsStripped(c) by {
      assert !IsSpace(c[0]) && (|c| == 1 || IsWordChar(c[|c| - 1]));
    }
    StripFixed(c);
    assert ColumnTokens(c) == [c];
  }

  // `re.search(r";|--|/\*|\*/", where)`: a statement separator or a comment marker.
  predicate HasForbiddenWhereToken(w: string) {
    Contains(w, ";") || Contains(w, "--") || Contains(w, "/*") || Contains(w, "*/")
  }

  /** `(ASC|DESC)` under `re.IGNORECASE` */
  predicate IsDirection(s: string) {
    Upper(s) == "ASC" || Upper(s) == "DESC"
  }

  /** `s[..i]` is an identifier, `s[i..j]` is whitespace, `s[j..]` is a direction. */
  predicate IsDirectedAt(s: string, i: int, j: int) {
    0 < i < j < |s| && IsIdentifier(s[..i]) && AllSpace(s[i..j]) && IsDirection(s[j..])
  }

  /** `[a-zA-Z_][a-zA-Z0-9_]*(\s+(ASC|DESC))?` over the whole string. */
  predicate IsOrderItem(s: string) {
    IsIdentifier(s) || exists i, j | 0 < i < j < |s| :: IsDirectedAt(s, i, j)
  }

  /**
    * `item(,\s*item)*` over the whole string. Neither an item nor `\s` holds a comma, so the
    * commas of the string are exactly the separators: the first part is an item and every
    * later part is an item after leading whitespace.
    */
  predicate IsOrderByShape(s: string) {
    var parts := Split(s, ',');
    IsOrderItem(parts[0]) && forall k :: 1 <= k < |parts| ==> IsOrderItem(LStrip(parts[k]))
  }

  /** `re.match(ORDER_BY_PATTERN + "$", s, re.IGNORECASE)` */
  predicate OrderByMatches(s: string) {
    IsOrderByShape(s) || (EndsWithNewline(s) && IsOrderByShape(s[..|s| - 1]))
  }

  /**
    * `\bW\b` matches at `i` (case-insensitively) for a keyword `W` made of upper-case word
    * characters: the text there is `W` and no word character touches it on either side.
    */
  predicate WordAt(s: string, w: string, i: int) {
    OccursAt(Upper(s), w, i) &&
    (i == 0 || !IsWordChar(s[i - 1])) &&
    (i + |w| == |s| || !IsWordChar(s[i + |w|]))
  }

  /** `re.search(rf"\b{w}\b", s, re.IGNORECASE)` */
  predicate ContainsWord(s: string, w: string) {
    exists i :: 0 <= i <= |s| - |w| && WordAt(s, w, i)
  }

  /** A keyword of the denylists: a non-empty run of upper-case word characters. */
  predicate IsKeyword(w: string) {
    |w| > 0 && forall k :: 0 <= k < |w| ==> IsWordChar(w[k]) && UpperChar(w[k]) == w[k]
  }

  /** The search ignores case: `s` and its upper-cased form hold the same words. */
  lemma {:induction false} ContainsWordUpper(s: string, w: string)
    ensures ContainsWord(Upper(s), w) <==> ContainsWord(s, w)
  {
    UpperTwice(s);
    forall i | 0 <= i <= |s| - |w|
      ensures WordAt(Upper(s), w, i) <==> WordAt(s, w, i)
    {
      if i > 0 {
        assert IsWordChar(Upper(s)[i - 1]) == IsWordChar(s[i - 1]);
      }
      if i + |w| < |s| {
        assert IsWordChar(Upper(s)[i + |w|]) == IsWordChar(s[i + |w|]);
      }
    }
  }

  /** A character that upper-cases to a word character is not whitespace. */
  lemma {:induction false} WordCharNotSpace(c: char)
    requires IsWordChar(UpperChar(c))
    ensures !IsSpace(c)
  {
  }

  lemma {:induction false} LStripDropsSpaces(s: string)
    ensures forall k :: 0 <= k < |s| - |LStrip(s)| ==> IsSpace(s[k])
  {
    var d := |s| - |LStrip(s)|;
    forall k | 0 <= k < d
      ensures IsSpace(s[k])
    {
      assert s[..d][k] == s[k];
    }
  }

  lemma {:induction false} RStripDropsSpaces(s: string)
    ensures forall k :: |RStrip(s)| <= k < |s| ==> IsSpace(s[k])
  {
    var m := |RStrip(s)|;
    forall k | m <= k < |s|
      ensures IsSpace(s[k])
    {
      assert s[m..][k - m] == s[k];
    }
  }

  /** `s.strip()` is the slice `s[d..d + m]` with only whitespace around it. */
  lemma {:induction false} UpperSlice(s: string, a: int, b: int)
    requires 0 <= a <= b <= |s|
    ensures Upper(s)[a..b] == Upper(s[a..b])
  {
  }

  /** A slice of a slice is a slice of the whole, shown element by element. */
  lemma {:induction false} SliceOfSlice<T>(s: seq<T>, d: int, e: int, j: int, n: int)
    requires 0 <= d <= e <= |s| && 0 <= j && 0 <= n && j + n <= e - d
    ensures s[d..e][j..j + n] == s[d + j..d + j + n]
  {
    var u, v := s[d..e][j..j + n], s[d + j..d + j + n];
    forall k | 0 <= k < n
      ensures u[k] == v[k]
    {
      assert u[k] == s[d..e][j + k] == s[d + j + k];
    }
  }

  /** A word of the slice `s[d..e]` is a word of `s` when the slice is cut next to non-word characters. */
  lemma {:induction false} WordOfSlice(s: string, d: int, e: int, w: string, j: int)
    requires 0 <= d <= e <= |s| && 0 <= j <= e - d - |w| && WordAt(s[d..e], w, j)
    requires j == 0 && d > 0 ==> !IsWordChar(s[d - 1])
    requires j + |w| == e - d && e < |s| ==> !IsWordChar(s[e])
    ensures WordAt(s, w, d + j)
  {
    var t := s[d..e];
    UpperSlice(s, d, e);
    UpperSlice(s, d + j, d + j + |w|);
    UpperSlice(t, j, j + |w|);
    SliceOfSlice(s, d, e, j, |w|);
    assert j > 0 ==> t[j - 1] == s[d + j - 1];
    assert j + |w| < e - d ==> t[j + |w|] == s[d + j + |w|];
  }

  /** A word of `s` that lies inside the slice `s[d..e]` is a word of the slice. */
  lemma {:induction false} WordInSlice(s: string, d: int, e: int, w: string, i: int)
    requires 0 <= d <= i && i + |w| <= e <= |s| && WordAt(s, w, i)
    ensures WordAt(s[d..e], w, i - d)
  {
    var t := s[d..e];
    UpperSlice(s, d, e);
    UpperSlice(s, i, i + |w|);
    UpperSlice(t, i - d, i - d + |w|);
    var u, v := t[i - d..i - d + |w|], s[i..i + |w|];
    assert forall k :: 0 <= k < |w| ==> u[k] == v[k];
    assert i > d ==> t[i - d - 1] == s[i - 1];
    assert i + |w| < e ==> t[i - d + |w|] == s[i + |w|];
  }

  /** Cutting whitespace off both ends of `s` keeps every keyword of `s`. */
  lemma {:induction false} WordSurvivesTrim(s: string, d: int, e: int, w: string)
    requires 0 <= d <= e <= |s| && IsKeyword(w) && ContainsWord(s, w)
    requires forall k :: 0 <= k < d ==> IsSpace(s[k])
    requires forall k :: e <= k < |s| ==> IsSpace(s[k])
    ensures ContainsWord(s[d..e], w)
  {
    var i :| 0 <= i <= |s| - |w| && WordAt(s, w, i);
    assert Upper(s)[i] == w[0] && Upper(s)[i + |w| - 1] == w[|w| - 1];
    WordCharNotSpace(s[i]);
    WordCharNotSpace(s[i + |w| - 1]);
    WordInSlice(s, d, e, w, i);
  }

  /** A keyword of `s` with only whitespace cut off its ends is a keyword of `s`. */
  lemma {:induction false} WordBeforeTrim(s: string, d: int, e: int, w: string)
    requires 0 <= d <= e <= |s| && ContainsWord(s[d..e], w)
    requires forall k :: 0 <= k < d ==> IsSpace(s[k])
    requires forall k :: e <= k < |s| ==> IsSpace(s[k])
    ensures ContainsWord(s, w)
  {
    var j :| 0 <= j <= e - d - |w| && WordAt(s[d..e], w, j);
    WordOfSlice(s, d, e, w, j);
  }

  /** `s.lstrip()` holds the same keywords as `s`. */
  lemma {:induction false} LStripWords(s: string, w: string)
    requires IsKeyword(w)
    ensures ContainsWord(LStrip(s), w) <==> ContainsWord(s, w)
  {
    var d := |s| - |LStrip(s)|;
    LStripDropsSpaces(s);
    assert LStrip(s) == s[d..|s|];
    if ContainsWord(s, w) {
      WordSurvivesTrim(s, d, |s|, w);
    }
    if ContainsWord(s[d..|s|], w) {
      WordBeforeTrim(s, d, |s|, w);
    }
  }

  /** `s.rstrip()` holds the same keywords as `s`. */
  lemma {:induction false} RStripWords(s: string, w: string)
    requires IsKeyword(w)
    ensures ContainsWord(RStrip(s), w) <==> ContainsWord(s, w)
  {
    var m := |RStrip(s)|;
    RStripDropsSpaces(s);
    assert RStrip(s) == s[0..m];
    if ContainsWord(s, w) {
      WordSurvivesTrim(s, 0, m, w);
    }
    if ContainsWord(s[0..m], w) {
      WordBeforeTrim(s, 0, m, w);
    }
  }

  /**
    * Stripping never cuts through a keyword, nor makes one: `s` and `s.strip()` hold the same
    * keywords.
    */
  lemma {:induction false} ContainsWordStrip(s: string, w: string)
    requires IsKeyword(w)
    ensures ContainsWord(Strip(s), w) <==> ContainsWord(s, w)
  {
    LStripWords(s, w);
    RStripWords(LStrip(s), w);
  }

  /** A keyword between single quotes stands on word boundaries: a quote is no word character. */
  lemma {:induction false} QuotedIsWord(s: string, w: string, i: int)
    requires OccursAt(Upper(s), "'" + w + "'", i)
    ensures WordAt(s, w, i + 1)
  {
    var quoted := Upper(s)[i..i + |w| + 2];
    assert Upper(s)[i] == quoted[0] && Upper(s)[i + |w| + 1] == quoted[|w| + 1];
    assert Upper(s)[i + 1..i + 1 + |w|] == quoted[1..|w| + 1];
  }
}
