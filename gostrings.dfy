/** The pieces of Go's strconv, strings and path/filepath packages that the
    automation helpers call, stated over Dafny strings (Go works on UTF-8
    bytes; every character these helpers look for is ASCII, so character
    positions and byte positions agree on the outcome). */
module GoStrings {
  import opened Wrappers

  // ---------------------------------------------------------------------
  // strconv: base-10 rendering of integers

  predicate IsDigit(c: char) {
    '0' <= c <= '9'
  }

  predicate AllDigits(s: string) {
    forall i :: 0 <= i < |s| ==> IsDigit(s[i])
  }

  function DigitValue(c: char): nat
    requires IsDigit(c)
  {
    c as int - '0' as int
  }

  function DigitChar(d: nat): (c: char)
    requires d < 10
    ensures IsDigit(c) && DigitValue(c) == d
  {
    ('0' as int + d) as char
  }

  /** The base-10 digits of n, most significant first, with no leading zero. */
  function Digits(n: nat): (r: string)
    ensures |r| >= 1 && AllDigits(r)
    ensures r[0] == '0' ==> n == 0
  {
    if n < 10 then [DigitChar(n)] else Digits(n / 10) + [DigitChar(n % 10)]
  }

  /** strconv.Itoa, strconv.FormatInt(n, 10) and strconv.FormatUint(n, 10). */
  function Decimal(n: int): string {
    if n < 0 then "-" + Digits(-n) else Digits(n)
  }

  /** The value of a string of digits, read most significant first. */
  function ParseDigits(s: string): nat
    requires AllDigits(s)
  {
    if |s| == 0 then 0 else 10 * ParseDigits(s[..|s| - 1]) + DigitValue(s[|s| - 1])
  }

  /** A canonical base-10 numeral: an optional '-', then digits without a
      leading zero, and never "-0". */
  predicate IsDecimal(s: string) {
    if |s| > 0 && s[0] == '-' then
      |s| >= 2 && AllDigits(s[1..]) && s[1] != '0'
    else
      |s| >= 1 && AllDigits(s) && (s[0] == '0' ==> |s| == 1)
  }

  function ParseDecimal(s: string): int
    requires IsDecimal(s)
  {
    if s[0] == '-' then -(ParseDigits(s[1..]) as int) else ParseDigits(s)
  }

  lemma {:induction false} DigitsRoundTrip(n: nat)
    ensures ParseDigits(Digits(n)) == n
  {
    if n >= 10 {
      DigitsRoundTrip(n / 10);
      var d := Digits(n);
      assert d[..|d| - 1] == Digits(n / 10);
    }
  }

  /** Decimal renders a canonical numeral that reads back as n, with a
      leading '-' exactly when n is negative. */
  lemma DecimalRoundTrip(n: int)
    ensures IsDecimal(Decimal(n))
    ensures ParseDecimal(Decimal(n)) == n
    ensures Decimal(n)[0] == '-' <==> n < 0
  {
    if n < 0 {
      DigitsRoundTrip(-n);
      assert Decimal(n)[1..] == Digits(-n);
    } else {
      DigitsRoundTrip(n);
    }
  }

  lemma DecimalInjective(a: int, b: int)
    requires Decimal(a) == Decimal(b)
    ensures a == b
  {
    DecimalRoundTrip(a);
    DecimalRoundTrip(b);
  }

  // ---------------------------------------------------------------------
  // strings: Split, Join, HasSuffix, Index, Replace, ToLower

  /** The position of the first sep in s. */
  function IndexOf(s: string, sep: char): (i: nat)
    requires sep in s
    ensures i < |s| && s[i] == sep && sep !in s[..i]
  {
    if s[0] == sep then 0 else 1 + IndexOf(s[1..], sep)
  }

  /** strings.Split with a one-character separator: the pieces between
      successive separators, empty pieces included, nothing trimmed. */
  function Split(s: string, sep: char): (r: seq<string>)
    ensures |r| >= 1
    ensures forall k :: 0 <= k < |r| ==> sep !in r[k]
    ensures sep in s <==> |r| >= 2
  {
    if sep !in s then [s]
    else
      var i := IndexOf(s, sep);
      [s[..i]] + Split(s[i + 1..], sep)
  }

  /** strings.Join. */
  function Join(items: seq<string>, sep: string): string {
    if |items| == 0 then ""
    else if |items| == 1 then items[0]
    else items[0] + sep + Join(items[1..], sep)
  }

  /** Joining the pieces of Split with the separator gives back the input. */
  lemma {:induction false} SplitJoin(s: string, sep: char)
    ensures Join(Split(s, sep), [sep]) == s
  {
    if sep in s {
      var i := IndexOf(s, sep);
      var rest := Split(s[i + 1..], sep);
      SplitJoin(s[i + 1..], sep);
      assert Split(s, sep) == [s[..i]] + rest;
      assert ([s[..i]] + rest)[1..] == rest;
      assert s == s[..i] + [sep] + s[i + 1..];
    }
  }

  predicate HasSuffix(s: string, suffix: string) {
    |suffix| <= |s| && s[|s| - |suffix|..] == suffix
  }

  predicate OccursAt(s: string, sub: string, i: nat) {
    i + |sub| <= |s| && s[i..i + |sub|] == sub
  }

  function IndexFrom(s: string, sub: string, k: nat): (r: Option<nat>)
    decreases |s| - k
    ensures r.Some? ==> k <= r.value && OccursAt(s, sub, r.value)
    ensures r.Some? ==> forall j :: k <= j < r.value ==> !OccursAt(s, sub, j)
    ensures r.None? ==> forall j :: k <= j ==> !OccursAt(s, sub, j)
  {
    if k + |sub| > |s| then None
    else if s[k..k + |sub|] == sub then Some(k)
    else IndexFrom(s, sub, k + 1)
  }

  /** strings.Index: the first position at which sub occurs in s. */
  function Index(s: string, sub: string): (r: Option<nat>)
    ensures r.Some? ==> OccursAt(s, sub, r.value)
    ensures r.Some? ==> forall j :: 0 <= j < r.value ==> !OccursAt(s, sub, j)
    ensures r.None? ==> forall j :: 0 <= j ==> !OccursAt(s, sub, j)
  {
    IndexFrom(s, sub, 0)
  }

  /** strings.Replace(s, pattern, replacement, 1): the first occurrence of
      pattern is replaced; an empty pattern matches at the very beginning. */
  function ReplaceFirst(s: string, pattern: string, replacement: string): string {
    if pattern == "" then replacement + s
    else
      match Index(s, pattern)
      case None => s
      case Some(i) => s[..i] + replacement + s[i + |pattern|..]
  }

  /** unicode.ToLower restricted to ASCII letters. */
  function LowerChar(c: char): char {
    if 'A' <= c <= 'Z' then (c as int + 32) as char else c
  }

  /** strings.ToLower. */
  function ToLower(s: string): (r: string)
    ensures |r| == |s|
  {
    seq(|s|, i requires 0 <= i < |s| => LowerChar(s[i]))
  }

  lemma ToLowerIdempotent(s: string)
    ensures ToLower(ToLower(s)) == ToLower(s)
  {
  }

  // ---------------------------------------------------------------------
  // path/filepath on Windows: Ext

  predicate IsPathSeparator(c: char) {
    c == '\\' || c == '/'
  }

  /** The final path element of p contains no '.'. */
  predicate NoDotInLastElement(p: string) {
    forall i :: 0 <= i < |p| && p[i] == '.' ==> exists j :: i < j < |p| && IsPathSeparator(p[j])
  }

  /** filepath.Ext: the suffix of path from the last '.' in its final
      element, or "" when that element has no '.'. */
  function Ext(path: string): (e: string)
    ensures e != [] ==> e[0] == '.' && HasSuffix(path, e)
    ensures forall i :: 1 <= i < |e| ==> e[i] != '.' && !IsPathSeparator(e[i])
    ensures e == [] <==> NoDotInLastElement(path)
  {
    if |path| == 0 then ""
    else
      var c := path[|path| - 1];
      var front := path[..|path| - 1];
      if IsPathSeparator(c) then
        assert IsPathSeparator(path[|path| - 1]);
        ""
      else if c == '.' then
        assert !NoDotInLastElement(path) by {
          assert path[|path| - 1] == '.';
        }
        "."
      else
        var e := Ext(front);
        assert path == front + [c];
        if e == "" then
          assert NoDotInLastElement(path) by {
            forall i | 0 <= i < |path| && path[i] == '.'
              ensures exists j :: i < j < |path| && IsPathSeparator(path[j])
            {
              assert path[i] == front[i];
              var j :| i < j < |front| && IsPathSeparator(front[j]);
              assert path[j] == front[j];
            }
          }
          ""
        else
          assert path[|path| - |e| - 1..] == front[|front| - |e|..] + [c];
          assert !NoDotInLastElement(path) by {
            var i := |front| - |e|;
            assert path[i] == '.';
            forall j | i < j < |path|
              ensures !IsPathSeparator(path[j])
            {
              if j < |front| {
                assert front[j] == e[j - i];
              }
            }
          }
          e + [c]
  }

  /** A '.' followed by characters that are neither '.' nor a separator is
      the extension of any path it ends. */
  lemma {:induction false} ExtOfDotted(q: string, e: string)
    requires |e| >= 1 && e[0] == '.'
    requires forall i :: 1 <= i < |e| ==> e[i] != '.' && !IsPathSeparator(e[i])
    ensures Ext(q + e) == e
    decreases |e|
  {
    var p := q + e;
    if |e| == 1 {
      assert p[|p| - 1] == '.';
    } else {
      var front := e[..|e| - 1];
      ExtOfDotted(q, front);
      assert p[..|p| - 1] == q + front;
      assert p[|p| - 1] == e[|e| - 1];
      assert front + [e[|e| - 1]] == e;
    }
  }

  /** Appending characters other than '.' to a path without an extension
      leaves it without one. */
  lemma {:induction false} ExtStaysEmpty(q: string, y: string)
    requires Ext(q) == ""
    requires '.' !in y
    ensures Ext(q + y) == ""
    decreases |y|
  {
    if |y| > 0 {
      var p := q + y;
      ExtStaysEmpty(q, y[..|y| - 1]);
      assert p[..|p| - 1] == q + y[..|y| - 1];
      assert p[|p| - 1] == y[|y| - 1];
    } else {
      assert q + y == q;
    }
  }
}
