/**
 * The JavaScript string operations the editor relies on: number formatting
 * in template literals, `parseInt`, `split('__')[0]`, `replace(pat, '')`,
 * `trim()` and the two digit regular expressions `/\d+/g` and `/\b\d+\b/g`.
 */
module JsText {
  import opened Wrappers

  predicate IsDigit(c: char) { '0' <= c <= '9' }

  /** The `\w` class of JavaScript regular expressions. */
  predicate IsWordChar(c: char) { IsDigit(c) || 'a' <= c <= 'z' || 'A' <= c <= 'Z' || c == '_' }

  /** The white space removed by `trim()` and skipped by `parseInt` (ASCII part and NBSP/BOM). */
  predicate IsSpace(c: char)
  {
    c == ' ' || c == '\t' || c == '\n' || c == '\r' || c == '\U{B}' || c == '\U{C}'
    || c == '\U{A0}' || c == '\U{FEFF}'
  }

  predicate AllDigits(s: string) { forall i :: 0 <= i < |s| ==> IsDigit(s[i]) }

  function DigitValue(c: char): nat
    requires IsDigit(c)
  {
    (c as int) - ('0' as int)
  }

  function DigitChar(d: nat): (c: char)
    requires d < 10
    ensures IsDigit(c) && DigitValue(c) == d
  {
    ('0' as int + d) as char
  }

  /** Decimal text of a natural number, as a template literal prints it. */
  function NatToString(n: nat): (s: string)
    ensures |s| > 0 && AllDigits(s)
    ensures s[0] != '0' || n == 0
    decreases n
  {
    if n < 10 then [DigitChar(n)] else NatToString(n / 10) + [DigitChar(n % 10)]
  }

  /** `String(n)` for an integer. */
  function IntToString(n: int): (s: string)
    ensures |s| > 0 && (s[0] == '-' <==> n < 0)
  {
    if n < 0 then "-" + NatToString(-n) else NatToString(n)
  }

  /** Value of a run of decimal digits, most significant first. */
  function DigitsValue(s: string): nat
    requires AllDigits(s)
  {
    if s == [] then 0 else DigitsValue(s[..|s| - 1]) * 10 + DigitValue(s[|s| - 1])
  }

  lemma {:induction false} DigitsValueOfNatToString(n: nat)
    ensures DigitsValue(NatToString(n)) == n
    decreases n
  {
    if n >= 10 {
      var s := NatToString(n);
      assert s[..|s| - 1] == NatToString(n / 10);
      DigitsValueOfNatToString(n / 10);
    }
  }

  /** Length of the longest prefix of `s` whose characters satisfy `p`. */
  function PrefixLen(s: string, p: char -> bool): (k: nat)
    ensures k <= |s|
    ensures forall i :: 0 <= i < k ==> p(s[i])
    ensures k < |s| ==> !p(s[k])
  {
    if s == [] || !p(s[0]) then 0 else 1 + PrefixLen(s[1..], p)
  }

  function SkipSpaces(s: string): (t: string)
    ensures |t| <= |s| && t == s[|s| - |t|..]
    ensures forall i :: 0 <= i < |s| - |t| ==> IsSpace(s[i])
    ensures t == [] || !IsSpace(t[0])
  {
    if s != [] && IsSpace(s[0]) then SkipSpaces(s[1..]) else s
  }

  /**
   * `parseInt(s)` without a radix: leading white space, an optional sign and
   * the longest run of decimal digits; `None` stands for NaN.
   */
  function ParseInt(s: string): (r: Option<int>)
    ensures r.Some? ==> exists c :: c in s && IsDigit(c)
  {
    var t := SkipSpaces(s);
    var signed := |t| > 0 && (t[0] == '-' || t[0] == '+');
    var body := if signed then t[1..] else t;
    var k := PrefixLen(body, IsDigit);
    assert k > 0 ==> body[0] in s by {
      if k > 0 { assert body[0] == s[|s| - |body|]; }
    }
    if k == 0 then None
    else if signed && t[0] == '-' then Some(-(DigitsValue(body[..k]) as int))
    else Some(DigitsValue(body[..k]))
  }

  /** `parseInt` reads back every integer that `String` prints. */
  lemma ParseIntOfIntToString(n: int)
    ensures ParseInt(IntToString(n)) == Some(n)
  {
    var s := IntToString(n);
    var d := NatToString(if n < 0 then -n else n);
    assert SkipSpaces(s) == s by { assert !IsSpace(s[0]); }
    var body := if n < 0 then s[1..] else s;
    assert body == d;
    assert PrefixLen(body, IsDigit) == |d|;
    assert d[..|d|] == d;
    DigitsValueOfNatToString(if n < 0 then -n else n);
  }

  /** A string whose first character is neither white space, a sign nor a digit parses to NaN. */
  lemma ParseIntOfNonNumeric(s: string)
    requires |s| > 0 && !IsSpace(s[0]) && !IsDigit(s[0]) && s[0] != '-' && s[0] != '+'
    ensures ParseInt(s) == None
  {
    assert SkipSpaces(s) == s;
  }

  /** `s.split('__')[0]`: the text before the first double underscore. */
  function BeforeSeparator(s: string): (r: string)
    ensures |r| <= |s| && r == s[..|r|]
  {
    if |s| < 2 then s
    else if s[0] == '_' && s[1] == '_' then []
    else [s[0]] + BeforeSeparator(s[1..])
  }

  lemma {:induction false} BeforeSeparatorOf(a: string, b: string)
    requires forall i :: 0 <= i < |a| ==> a[i] != '_'
    ensures BeforeSeparator(a + "__" + b) == a
  {
    if a != [] {
      assert (a + "__" + b)[1..] == a[1..] + "__" + b;
      BeforeSeparatorOf(a[1..], b);
    }
  }

  /** `s.replace(pat, '')`: removes the first occurrence of `pat`, if any. */
  function RemoveFirst(s: string, pat: string): (r: string)
    requires |pat| > 0
    ensures |r| <= |s|
    ensures forall c :: c in r ==> c in s
    ensures |s| > 0 && |r| > 0 && (|s| < |pat| || s[..|pat|] != pat) ==> r[0] == s[0]
    decreases |s|
  {
    if |s| < |pat| then s
    else if s[..|pat|] == pat then s[|pat|..]
    else [s[0]] + RemoveFirst(s[1..], pat)
  }

  /**
   * `s.trim()`: `s` with its leading and trailing white space removed, so
   * that `s` is that white space around `r`.
   */
  function Trim(s: string): (r: string)
    ensures r == [] || (!IsSpace(r[0]) && !IsSpace(r[|r| - 1]))
    ensures exists i :: SpaceAround(s, i, r)
  {
    var t := SkipSpaces(s);
    var r := TrimEnd(t);
    var i := |s| - |t|;
    assert SpaceAround(s, i, r) by {
      forall j | i + |r| <= j < |s| ensures IsSpace(s[j]) { assert s[j] == t[j - i]; }
    }
    r
  }

  /** `s` is `r`, starting at index `i`, with only white space around it. */
  predicate SpaceAround(s: string, i: int, r: string)
  {
    && 0 <= i <= |s| - |r| && s[i..i + |r|] == r
    && (forall j :: 0 <= j < i ==> IsSpace(s[j]))
    && (forall j :: i + |r| <= j < |s| ==> IsSpace(s[j]))
  }

  function TrimEnd(s: string): (r: string)
    ensures |r| <= |s| && r == s[..|r|]
    ensures forall j :: |r| <= j < |s| ==> IsSpace(s[j])
    ensures r == [] || !IsSpace(r[|r| - 1])
  {
    if s != [] && IsSpace(s[|s| - 1]) then TrimEnd(s[..|s| - 1]) else s
  }

  /** The maximal runs of characters satisfying `p`, left to right. */
  function Runs(s: string, p: char -> bool): (r: seq<string>)
    ensures forall i :: 0 <= i < |r| ==> |r[i]| > 0 && forall j :: 0 <= j < |r[i]| ==> p(r[i][j])
    decreases |s|
  {
    if s == [] then []
    else if !p(s[0]) then Runs(s[1..], p)
    else
      var k := PrefixLen(s, p);
      [s[..k]] + Runs(s[k..], p)
  }

  function KeepDigitRuns(words: seq<string>): (r: seq<string>)
    ensures forall w :: w in r <==> w in words && AllDigits(w)
  {
    if words == [] then []
    else if AllDigits(words[0]) then [words[0]] + KeepDigitRuns(words[1..])
    else KeepDigitRuns(words[1..])
  }

  /** `s.match(/\d+/g) || []`: every maximal run of digits. */
  function DigitRuns(s: string): (r: seq<string>)
    ensures forall i :: 0 <= i < |r| ==> |r[i]| > 0 && AllDigits(r[i])
  {
    Runs(s, IsDigit)
  }

  /**
   * `s.match(/\b\d+\b/g) || []`: a match starts and ends at a word boundary and
   * holds only digits, which are word characters, so it is exactly a maximal
   * run of word characters made of digits alone.
   */
  function DigitWords(s: string): (r: seq<string>)
    ensures forall w :: w in r ==> |w| > 0 && AllDigits(w)
  {
    KeepDigitRuns(Runs(s, IsWordChar))
  }
}
