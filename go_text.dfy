/**
 * The pieces of Go's standard library that main.go relies on for text:
 * strings.Split with a one-character separator, strings.Fields,
 * strings.TrimSuffix, the byte length of a string (len), and strconv.Atoi
 * on a 64-bit platform.  Each is stated as a function, next to a partner
 * (an inverse or a characterisation) and the lemma that connects the two.
 */
module GoText {

  // ---------------------------------------------------------------------
  // strings.Split(s, sep) for a one-character separator
  // ---------------------------------------------------------------------

  /** Position of the first `sep` in `s`, or |s| when `s` has none. */
  function IndexOf(s: string, sep: char): (k: nat)
    ensures k <= |s|
    ensures k < |s| ==> s[k] == sep
    ensures forall j :: 0 <= j < k ==> s[j] != sep
  {
    if s == [] || s[0] == sep then 0 else 1 + IndexOf(s[1..], sep)
  }

  /** The pieces of `s` between occurrences of `sep`: n separators give n + 1 pieces, "" gives [""]. */
  function Split(s: string, sep: char): (parts: seq<string>)
    ensures |parts| >= 1
    ensures forall i :: 0 <= i < |parts| ==> sep !in parts[i]
    decreases |s|
  {
    var k := IndexOf(s, sep);
    if k == |s| then [s] else [s[..k]] + Split(s[k + 1..], sep)
  }

  /** strings.Join(parts, string(sep)): the partner of Split. */
  function Join(parts: seq<string>, sep: char): string
    requires |parts| >= 1
  {
    if |parts| == 1 then parts[0] else parts[0] + [sep] + Join(parts[1..], sep)
  }

  /** Joining the pieces of a split gives the original text back. */
  lemma {:induction false} JoinSplit(s: string, sep: char)
    ensures Join(Split(s, sep), sep) == s
    decreases |s|
  {
    var k := IndexOf(s, sep);
    if k < |s| {
      var parts := Split(s, sep);
      assert parts == [s[..k]] + Split(s[k + 1..], sep);
      assert parts[1..] == Split(s[k + 1..], sep);
      JoinSplit(s[k + 1..], sep);
      assert Join(parts, sep) == s[..k] + [sep] + s[k + 1..];
      assert s == s[..k] + [sep] + s[k + 1..];
    }
  }

  /** The first separator of `a + [sep] + b` is the one right after `a` when `a` has none. */
  lemma {:induction false} IndexOfAfter(a: string, sep: char, b: string)
    requires sep !in a
    ensures IndexOf(a + [sep] + b, sep) == |a|
    decreases |a|
  {
    if a != [] {
      assert (a + [sep] + b)[1..] == a[1..] + [sep] + b;
      IndexOfAfter(a[1..], sep, b);
    }
  }

  /** Splitting pieces that hold no separator, once joined, gives those pieces back. */
  lemma {:induction false} SplitJoin(parts: seq<string>, sep: char)
    requires |parts| >= 1
    requires forall i :: 0 <= i < |parts| ==> sep !in parts[i]
    ensures Split(Join(parts, sep), sep) == parts
    decreases |parts|
  {
    if |parts| == 1 {
      var s := parts[0];
      assert IndexOf(s, sep) == |s|;
    } else {
      var rest := Join(parts[1..], sep);
      var s := parts[0] + [sep] + rest;
      IndexOfAfter(parts[0], sep, rest);
      assert s[..|parts[0]|] == parts[0];
      assert s[|parts[0]| + 1..] == rest;
      SplitJoin(parts[1..], sep);
      assert parts == [parts[0]] + parts[1..];
    }
  }

  /** Regrouping a concatenation, as a fact to hand to the solver where it would search for it. */
  lemma ConcatAssoc<T>(a: seq<T>, b: seq<T>, c: seq<T>)
    ensures (a + b) + c == a + (b + c)
  {
  }

  // ---------------------------------------------------------------------
  // strings.Fields and unicode.IsSpace
  // ---------------------------------------------------------------------

  /** unicode.IsSpace: the Latin-1 spaces plus the Unicode White_Space characters above U+00FF. */
  predicate IsSpace(c: char) {
    || c == '\t' || c == '\n' || c == '\U{0B}' || c == '\U{0C}' || c == '\r' || c == ' '
    || c == '\U{85}' || c == '\U{A0}' || c == '\U{1680}' || ('\U{2000}' <= c <= '\U{200A}')
    || c == '\U{2028}' || c == '\U{2029}' || c == '\U{202F}' || c == '\U{205F}' || c == '\U{3000}'
  }

  /** A token strings.Fields can yield: non-empty and free of spaces. */
  predicate IsWord(t: string) {
    t != [] && forall j :: 0 <= j < |t| ==> !IsSpace(t[j])
  }

  /** Length of the run of non-space characters at the front of `s`. */
  function WordLen(s: string): (k: nat)
    ensures k <= |s|
    ensures forall j :: 0 <= j < k ==> !IsSpace(s[j])
    ensures k < |s| ==> IsSpace(s[k])
  {
    if s == [] || IsSpace(s[0]) then 0 else 1 + WordLen(s[1..])
  }

  /** strings.Fields: the maximal runs of non-space characters, in order. */
  function Fields(s: string): (ts: seq<string>)
    ensures forall i :: 0 <= i < |ts| ==> IsWord(ts[i])
    decreases |s|
  {
    if s == [] then []
    else if IsSpace(s[0]) then Fields(s[1..])
    else
      var k := WordLen(s);
      [s[..k]] + Fields(s[k..])
  }

  /** Each token followed by one space: the shape of the text main.go builds for exec. */
  function Spaced(ts: seq<string>): string {
    if ts == [] then "" else ts[0] + " " + Spaced(ts[1..])
  }

  lemma {:induction false} SpacedAppend(a: seq<string>, b: seq<string>)
    ensures Spaced(a + b) == Spaced(a) + Spaced(b)
    decreases |a|
  {
    if a != [] {
      assert (a + b)[1..] == a[1..] + b;
      SpacedAppend(a[1..], b);
    } else {
      assert a + b == b;
    }
  }

  lemma {:induction false} WordLenOf(w: string, rest: string)
    requires IsWord(w)
    requires rest != [] && IsSpace(rest[0])
    ensures WordLen(w + rest) == |w|
    decreases |w|
  {
    if |w| > 1 {
      assert (w + rest)[1..] == w[1..] + rest;
      WordLenOf(w[1..], rest);
    } else {
      assert (w + rest)[1..] == rest;
    }
  }

  /** Fields undoes Spaced: space-joined words split back into exactly those words. */
  lemma {:induction false} FieldsSpaced(ts: seq<string>)
    requires forall i :: 0 <= i < |ts| ==> IsWord(ts[i])
    ensures Fields(Spaced(ts)) == ts
    decreases |ts|
  {
    if ts != [] {
      var w, rest := ts[0], Spaced(ts[1..]);
      var s := w + " " + rest;
      WordLenOf(w, " " + rest);
      assert s == w + (" " + rest);
      assert s[..|w|] == w;
      assert s[|w|..] == " " + rest;
      assert s[|w|..][1..] == rest;
      FieldsSpaced(ts[1..]);
      assert ts == [w] + ts[1..];
    }
  }

  // ---------------------------------------------------------------------
  // strings.TrimSuffix
  // ---------------------------------------------------------------------

  function TrimSuffix(s: string, suffix: string): (r: string)
    ensures r == s || r + suffix == s
    ensures |suffix| <= |s| && s[|s| - |suffix|..] == suffix ==> r + suffix == s
  {
    if |suffix| <= |s| && s[|s| - |suffix|..] == suffix then s[..|s| - |suffix|] else s
  }

  // ---------------------------------------------------------------------
  // len(s): the number of bytes of the UTF-8 encoding
  // ---------------------------------------------------------------------

  function RuneLen(c: char): nat {
    if c as int < 0x80 then 1
    else if c as int < 0x800 then 2
    else if c as int < 0x1_0000 then 3
    else 4
  }

  /** Go's len of a string: its UTF-8 byte count, between one and four bytes per character. */
  function Utf8Len(s: string): (n: nat)
    ensures |s| <= n <= 4 * |s|
    ensures (forall j :: 0 <= j < |s| ==> s[j] as int < 0x80) ==> n == |s|
  {
    if s == [] then 0 else RuneLen(s[0]) + Utf8Len(s[1..])
  }

  // ---------------------------------------------------------------------
  // strconv.Atoi with a 64-bit int, its error ignored
  // ---------------------------------------------------------------------

  const MaxInt64: int := 0x7fff_ffff_ffff_ffff
  const MinInt64: int := -0x8000_0000_0000_0000

  predicate IsDigit(c: char) { '0' <= c <= '9' }

  predicate IsDecimal(s: string) {
    |s| > 0 && forall j :: 0 <= j < |s| ==> IsDigit(s[j])
  }

  function DigitValue(c: char): nat
    requires IsDigit(c)
  {
    c as int - '0' as int
  }

  /** The value of a run of decimal digits, most significant first. */
  function DigitsValue(s: string): nat
    requires forall j :: 0 <= j < |s| ==> IsDigit(s[j])
  {
    if s == [] then 0 else 10 * DigitsValue(s[..|s| - 1]) + DigitValue(s[|s| - 1])
  }

  /** ParseInt's range error keeps the bound nearest to the value. */
  function Clamp64(v: int): int {
    if v > MaxInt64 then MaxInt64 else if v < MinInt64 then MinInt64 else v
  }

  /** The largest value ParseUint accepts with a 64-bit size. */
  const MaxUint64: int := 0xffff_ffff_ffff_ffff

  /** The length of the run of decimal digits that starts s. */
  function DigitRun(s: string): (k: nat)
    ensures k <= |s|
    ensures forall j :: 0 <= j < k ==> IsDigit(s[j])
    ensures k < |s| ==> !IsDigit(s[k])
  {
    if s == [] || !IsDigit(s[0]) then 0 else 1 + DigitRun(s[1..])
  }

  /**
   * strconv.Atoi(s) as main.go uses it, with the error dropped.  A leading
   * '+' or '-' is taken off, and ParseUint reads the rest one byte at a time
   * from the left: a byte that is not a decimal digit is a syntax error
   * (value 0), and a digit that takes the running value past 2^64-1 is a
   * range error at once, before any later byte is looked at.  So the result
   * is the signed value of the digits, held to the int64 range, when the
   * text after the sign is all digits (at least one) or when its leading
   * digits alone already pass 2^64-1; any other text gives 0.
   */
  function Atoi(s: string): (n: int)
    ensures MinInt64 <= n <= MaxInt64
  {
    if |s| > 0 && (s[0] == '+' || s[0] == '-') then AfterSign(s[1..], s[0] == '-')
    else AfterSign(s, false)
  }

  /** ParseInt on the text after its sign, negated when neg holds. */
  function AfterSign(body: string, neg: bool): (n: int)
    ensures MinInt64 <= n <= MaxInt64
  {
    var k := DigitRun(body);
    var v: int := DigitsValue(body[..k]);
    if (0 < k == |body|) || v > MaxUint64 then Clamp64(if neg then -v else v)
    else 0
  }


  /** strconv.Itoa for a natural number: the partner of Atoi. */
  function Decimal(n: nat): (s: string)
    ensures IsDecimal(s)
  {
    if n < 10 then [('0' as int + n) as char]
    else Decimal(n / 10) + [('0' as int + n % 10) as char]
  }

  lemma {:induction false} DigitsValueDecimal(n: nat)
    ensures DigitsValue(Decimal(n)) == n
  {
    if n >= 10 {
      var s := Decimal(n);
      assert s[..|s| - 1] == Decimal(n / 10);
      DigitsValueDecimal(n / 10);
    }
  }

  /**
   * Atoi reads back what Itoa writes, with or without a sign, and holds
   * values past the int64 range to its bounds.
   */
  lemma AtoiDecimal(n: nat)
    ensures Atoi(Decimal(n)) == if n <= MaxInt64 then n else MaxInt64
    ensures Atoi("+" + Decimal(n)) == if n <= MaxInt64 then n else MaxInt64
    ensures Atoi("-" + Decimal(n)) == if n <= -MinInt64 then -(n as int) else MinInt64
  {
    DigitsValueDecimal(n);
    assert Decimal(n) + [] == Decimal(n);
    AtoiDigitsThen(Decimal(n), []);
    AtoiSignDigitsThen('+', Decimal(n), []);
    AtoiSignDigitsThen('-', Decimal(n), []);
  }

  /**
   * Text whose first character after an optional sign is not a digit, such
   * as "", "-", "n/a", "x1", "-v2" or "+-5", reads as 0: ParseUint stops
   * with a syntax error at that character, before any digit after it.
   */
  lemma AtoiNoLeadingDigit(s: string)
    requires s == [] || !IsDigit(s[0])
    requires |s| > 1 && (s[0] == '+' || s[0] == '-') ==> !IsDigit(s[1])
    ensures Atoi(s) == 0
  {
    if |s| > 0 && (s[0] == '+' || s[0] == '-') {
      assert DigitRun(s[1..]) == 0 by {
        if |s| > 1 { assert s[1..][0] == s[1]; }
      }
    } else {
      assert DigitRun(s) == 0;
    }
  }

  /** The digit run of d + rest is d when rest does not go on with a digit. */
  lemma DigitRunOf(d: string, rest: string)
    requires forall j :: 0 <= j < |d| ==> IsDigit(d[j])
    requires rest == [] || !IsDigit(rest[0])
    ensures DigitRun(d + rest) == |d|
    ensures (d + rest)[..|d|] == d
  {
    assert forall j :: 0 <= j < |d| ==> (d + rest)[j] == d[j];
    if rest != [] {
      assert (d + rest)[|d|] == rest[0];
    }
  }

  /**
   * Digits followed by other text: the text after the digits makes Atoi
   * give 0 unless the digits alone pass 2^64-1, in which case the range
   * error comes first and the result is the int64 bound of the sign.  With
   * nothing after the digits the value is read back, held to int64.
   */
  lemma AtoiDigitsThen(d: string, rest: string)
    requires |d| > 0 && forall j :: 0 <= j < |d| ==> IsDigit(d[j])
    requires rest == [] || !IsDigit(rest[0])
    ensures var v: int := DigitsValue(d);
      Atoi(d + rest) == if v > MaxUint64 || rest == [] then Clamp64(v) else 0
  {
    AfterSignOf(d, rest, false);
    assert (d + rest)[0] == d[0];
  }

  /** The same with a leading '+' or '-'. */
  lemma AtoiSignDigitsThen(sign: char, d: string, rest: string)
    requires sign == '+' || sign == '-'
    requires |d| > 0 && forall j :: 0 <= j < |d| ==> IsDigit(d[j])
    requires rest == [] || !IsDigit(rest[0])
    ensures var v: int := DigitsValue(d);
      Atoi([sign] + (d + rest)) ==
        if v > MaxUint64 || rest == [] then Clamp64(if sign == '-' then -v else v) else 0
  {
    AfterSignOf(d, rest, sign == '-');
    var t := [sign] + (d + rest);
    assert t[0] == sign;
    assert t[1..] == d + rest;
  }

  lemma AfterSignOf(d: string, rest: string, neg: bool)
    requires |d| > 0 && forall j :: 0 <= j < |d| ==> IsDigit(d[j])
    requires rest == [] || !IsDigit(rest[0])
    ensures var v: int := DigitsValue(d);
      AfterSign(d + rest, neg) ==
        if v > MaxUint64 || rest == [] then Clamp64(if neg then -v else v) else 0
  {
    DigitRunOf(d, rest);
  }


  /**
   * Leading digits worth more than 2^64-1 decide the result whatever text
   * follows them, as in "99999999999999999999x": the range error comes
   * before the syntax error, and the result is the int64 bound of the sign.
   */
  lemma AtoiOverflowFirst(d: string, rest: string)
    requires |d| > 0 && forall j :: 0 <= j < |d| ==> IsDigit(d[j])
    requires DigitsValue(d) > MaxUint64
    requires rest == [] || !IsDigit(rest[0])
    ensures Atoi(d + rest) == MaxInt64
    ensures Atoi("+" + (d + rest)) == MaxInt64
    ensures Atoi("-" + (d + rest)) == MinInt64
  {
    var s := d + rest;
    AfterSignOf(d, rest, false);
    AfterSignOf(d, rest, true);
    assert s[0] == d[0];
    var plus, minus := "+" + s, "-" + s;
    assert plus[0] == '+' && plus[1..] == s;
    assert minus[0] == '-' && minus[1..] == s;
  }
}
