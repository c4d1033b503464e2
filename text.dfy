/**
 * The parts of Go's `strconv` and `strings` packages that the core relies on:
 * decimal formatting (`%d`), base-10 integer parsing (`ParseInt`, `Atoi`),
 * `strings.Split` with its inverse `Join`, `TrimPrefix`/`HasPrefix`, and the
 * byte length `len(s)` of a string, which Go measures in UTF-8 bytes.
 */
module Text {
  import opened Wrappers

  const Int32Min: int := -0x8000_0000
  const Int32Max: int := 0x7fff_ffff
  const Int64Min: int := -0x8000_0000_0000_0000
  const Int64Max: int := 0x7fff_ffff_ffff_ffff

  // ---------------------------------------------------------------------------
  // Decimal digits
  // ---------------------------------------------------------------------------

  predicate IsDigit(c: char) { '0' <= c <= '9' }

  predicate AllDigits(s: string) { forall i :: 0 <= i < |s| ==> IsDigit(s[i]) }

  function DigitChar(d: nat): char
    requires d < 10
  {
    ('0' as int + d) as char
  }

  /** The value of a run of decimal digits, most significant first. */
  function DigitsValue(s: string): nat
    requires AllDigits(s)
    decreases |s|
  {
    if s == [] then 0 else 10 * DigitsValue(s[..|s| - 1]) + (s[|s| - 1] as int - '0' as int)
  }

  /** The shortest decimal digits of n, as `%d` prints a non-negative number. */
  function NatDigits(n: nat): (s: string)
    ensures s != [] && AllDigits(s)
    ensures DigitsValue(s) == n
    ensures s[0] == '0' ==> n == 0
    decreases n
  {
    if n < 10 then [DigitChar(n)]
    else
      var front := NatDigits(n / 10);
      var s := front + [DigitChar(n % 10)];
      assert s[..|s| - 1] == front;
      s
  }

  /** `%d` (and `strconv.Itoa`) of any integer: a '-' sign, then the digits. */
  function FormatInt(n: int): (s: string)
    ensures s != [] && (s[0] == '-' <==> n < 0)
    ensures forall i :: 0 <= i < |s| ==> IsDigit(s[i]) || (i == 0 && s[i] == '-')
  {
    if n < 0 then "-" + NatDigits(-n) else NatDigits(n)
  }

  // ---------------------------------------------------------------------------
  // Base-10 integer parsing
  // ---------------------------------------------------------------------------

  /**
   * The syntax `strconv.ParseInt(s, 10, _)` accepts: an optional '+' or '-'
   * followed by at least one decimal digit, nothing else (no spaces, no
   * underscores, no base prefix). Gives the value before the range check.
   */
  function DecimalValue(s: string): Option<int>
  {
    if s == [] then None
    else if s[0] == '+' || s[0] == '-' then
      var digits := s[1..];
      if digits != [] && AllDigits(digits) then
        var magnitude: int := DigitsValue(digits);
        Some(if s[0] == '-' then -magnitude else magnitude)
      else None
    else if AllDigits(s) then Some(DigitsValue(s))
    else None
  }

  predicate InBitRange(v: int, bitSize: nat)
    requires bitSize == 32 || bitSize == 64
  {
    if bitSize == 32 then Int32Min <= v <= Int32Max else Int64Min <= v <= Int64Max
  }

  /** `strconv.ParseInt(s, 10, bitSize)`; None stands for its syntax and range errors. */
  function ParseInt(s: string, bitSize: nat): (r: Option<int>)
    requires bitSize == 32 || bitSize == 64
    ensures r.Some? ==> InBitRange(r.value, bitSize)
    ensures r.Some? ==> forall i :: 0 <= i < |s| ==> IsDigit(s[i]) || (i == 0 && (s[i] == '+' || s[i] == '-'))
  {
    match DecimalValue(s)
    case None => None
    case Some(v) => if InBitRange(v, bitSize) then Some(v) else None
  }

  /** `strconv.Atoi` on a 64-bit platform: `ParseInt(s, 10, 64)`. */
  function Atoi(s: string): (r: Option<int>)
    ensures r.Some? ==> InBitRange(r.value, 64)
    ensures r.Some? ==> s != [] && forall i :: 0 <= i < |s| ==> IsDigit(s[i]) || (i == 0 && (s[i] == '+' || s[i] == '-'))
  {
    ParseInt(s, 64)
  }

  /** Parsing undoes formatting for every value of the requested width, and rejects every other value. */
  lemma ParseFormat(n: int, bitSize: nat)
    requires bitSize == 32 || bitSize == 64
    ensures ParseInt(FormatInt(n), bitSize) == (if InBitRange(n, bitSize) then Some(n) else None)
  {
    var s := FormatInt(n);
    if n < 0 {
      assert s[1..] == NatDigits(-n);
    }
  }

  // ---------------------------------------------------------------------------
  // Base-0 integer parsing
  // ---------------------------------------------------------------------------

  /** The value strconv gives a digit or a letter of either case (up to base 36); 36 for any other character. */
  function DigitWeight(c: char): nat
  {
    if '0' <= c <= '9' then c as int - '0' as int
    else if 'a' <= c <= 'z' then c as int - 'a' as int + 10
    else if 'A' <= c <= 'Z' then c as int - 'A' as int + 10
    else 36
  }

  predicate AllBelow(s: string, base: nat)
  {
    forall i :: 0 <= i < |s| ==> DigitWeight(s[i]) < base
  }

  /** The value of a run of digits in the given base, most significant first. */
  function BaseValue(s: string, base: nat): nat
    requires AllBelow(s, base)
    decreases |s|
  {
    if s == [] then 0 else base * BaseValue(s[..|s| - 1], base) + DigitWeight(s[|s| - 1])
  }

  /** Decimal digits read in base 10 have their decimal value. */
  lemma {:induction false} BaseTenValue(s: string)
    requires AllDigits(s)
    ensures AllBelow(s, 10) && BaseValue(s, 10) == DigitsValue(s)
    decreases |s|
  {
    if s != [] {
      BaseTenValue(s[..|s| - 1]);
    }
  }

  /**
   * The unsigned part of `strconv.ParseInt(s, 0, _)`, before the range check:
   * `0b`, `0o` or `0x` (either case) followed by at least one digit of base
   * 2, 8 or 16; otherwise a leading `0` makes the rest octal (so `0` alone is
   * zero); otherwise decimal. Digit-separating underscores are not accepted.
   */
  function Base0Magnitude(s: string): Option<nat>
  {
    if s == [] then None
    else
      var prefixed := |s| >= 3 && s[0] == '0' && s[1] in "bBoOxX";
      var base: nat :=
        if prefixed then (if s[1] in "bB" then 2 else if s[1] in "oO" then 8 else 16)
        else if s[0] == '0' then 8
        else 10;
      var digits := if prefixed then s[2..] else if s[0] == '0' then s[1..] else s;
      if AllBelow(digits, base) then Some(BaseValue(digits, base)) else None
  }

  /** `strconv.ParseInt(s, 0, 64)`: an optional sign, then Base0Magnitude, then the 64-bit range check. */
  function ParseIntBase0(s: string): (r: Option<int>)
    ensures r.Some? ==> InBitRange(r.value, 64)
    ensures r.Some? && r.value < 0 ==> s != [] && s[0] == '-'
  {
    if s == [] then None
    else
      var body := if s[0] == '+' || s[0] == '-' then s[1..] else s;
      match Base0Magnitude(body)
      case None => None
      case Some(m) =>
        var magnitude: int := m;
        var v := if s[0] == '-' then -magnitude else magnitude;
        if InBitRange(v, 64) then Some(v) else None
  }

  /** Base-0 parsing reads `%d` output as decimal: parsing undoes formatting for every 64-bit value. */
  lemma ParseBase0Format(n: int)
    ensures ParseIntBase0(FormatInt(n)) == (if InBitRange(n, 64) then Some(n) else None)
  {
    var s := FormatInt(n);
    var digits := NatDigits(if n < 0 then -n else n);
    if n < 0 {
      assert s[1..] == digits;
    }
    BaseTenValue(digits);
    if digits == "0" {
      assert AllBelow(digits[1..], 8);
    }
  }

  // ---------------------------------------------------------------------------
  // Go string literals
  // ---------------------------------------------------------------------------

  /** Text that `strconv.Quote` copies unchanged: printable ASCII other than the double quote and the backslash. */
  predicate QuotesVerbatim(s: string)
  {
    forall i :: 0 <= i < |s| ==> ' ' <= s[i] <= '~' && s[i] != '"' && s[i] != '\\'
  }

  /** `strconv.Quote` on text that needs no escape sequence. */
  function Quote(s: string): (r: string)
    requires QuotesVerbatim(s)
    ensures |r| == |s| + 2 && r[0] == '"' && r[|r| - 1] == '"' && r[1..|r| - 1] == s
  {
    "\"" + s + "\""
  }

  /**
   * `strconv.Unquote` on double-quoted literals without escape sequences:
   * the text between the quotes, provided it holds no '"' and no newline.
   * Literals with a backslash escape, and back-quoted or single-quoted ones,
   * are refused (None).
   */
  function Unquote(s: string): (r: Option<string>)
    ensures r.Some? ==> s == "\"" + r.value + "\""
    ensures r.Some? ==> '"' !in r.value && '\n' !in r.value && '\\' !in r.value
  {
    if |s| >= 2 && s[0] == '"' && s[|s| - 1] == '"' then
      var body := s[1..|s| - 1];
      if '"' in body || '\n' in body || '\\' in body then None else Some(body)
    else None
  }

  /** Unquoting undoes quoting. */
  lemma UnquoteQuote(s: string)
    requires QuotesVerbatim(s)
    ensures Unquote(Quote(s)) == Some(s)
  {
    var q := Quote(s);
    assert q[1..|q| - 1] == s;
  }

  // ---------------------------------------------------------------------------
  // strings.Split and its inverse
  // ---------------------------------------------------------------------------

  /** The parts laid end to end with one separator between neighbours (`strings.Join`). */
  function Join(parts: seq<string>, sep: char): string
    decreases |parts|
  {
    if parts == [] then ""
    else if |parts| == 1 then parts[0]
    else parts[0] + [sep] + Join(parts[1..], sep)
  }

  /**
   * `strings.Split(s, sep)` for a one-character separator: the maximal
   * separator-free pieces between separators; the empty string gives `[""]`.
   */
  function Split(s: string, sep: char): (parts: seq<string>)
    ensures |parts| >= 1
    ensures Join(parts, sep) == s
    ensures forall i :: 0 <= i < |parts| ==> sep !in parts[i]
    decreases |s|
  {
    if s == [] then [""]
    else
      var rest := Split(s[1..], sep);
      if s[0] == sep then
        assert ([""] + rest)[1..] == rest;
        [""] + rest
      else
        var parts := [[s[0]] + rest[0]] + rest[1..];
        assert parts[1..] == rest[1..];
        assert s == [s[0]] + s[1..];
        parts
  }

  lemma {:induction false} SplitThroughSeparator(front: string, sep: char, back: string)
    requires sep !in front
    ensures Split(front + [sep] + back, sep) == [front] + Split(back, sep)
    decreases |front|
  {
    var s := front + [sep] + back;
    if front == [] {
      assert s[1..] == back;
    } else {
      assert s[1..] == front[1..] + [sep] + back;
      SplitThroughSeparator(front[1..], sep, back);
      assert [front[0]] + front[1..] == front;
    }
  }

  lemma {:induction false} SplitWithoutSeparator(s: string, sep: char)
    requires sep !in s
    ensures Split(s, sep) == [s]
    decreases |s|
  {
    if s != [] {
      SplitWithoutSeparator(s[1..], sep);
      assert [s[0]] + s[1..] == s;
    }
  }

  /** Splitting undoes joining, so Split's ensures pin its result down uniquely. */
  lemma {:induction false} SplitJoin(parts: seq<string>, sep: char)
    requires |parts| >= 1
    requires forall i :: 0 <= i < |parts| ==> sep !in parts[i]
    ensures Split(Join(parts, sep), sep) == parts
    decreases |parts|
  {
    if |parts| == 1 {
      SplitWithoutSeparator(parts[0], sep);
    } else {
      SplitJoin(parts[1..], sep);
      SplitThroughSeparator(parts[0], sep, Join(parts[1..], sep));
      assert [parts[0]] + parts[1..] == parts;
    }
  }

  // ---------------------------------------------------------------------------
  // Prefixes
  // ---------------------------------------------------------------------------

  /** `strings.HasPrefix`: s starts with prefix, character by character. */
  function HasPrefix(s: string, prefix: string): (b: bool)
    ensures b <==> |prefix| <= |s| && forall i :: 0 <= i < |prefix| ==> s[i] == prefix[i]
  {
    |prefix| <= |s| && s[..|prefix|] == prefix
  }

  /** `strings.TrimPrefix`: s without the leading prefix, once, or s when it does not start with it. */
  function TrimPrefix(s: string, prefix: string): (r: string)
    ensures HasPrefix(s, prefix) ==> s == prefix + r
    ensures !HasPrefix(s, prefix) ==> r == s
  {
    if HasPrefix(s, prefix) then s[|prefix|..] else s
  }

  // ---------------------------------------------------------------------------
  // Byte length
  // ---------------------------------------------------------------------------

  /** Bytes in the UTF-8 encoding of one code point. */
  function Utf8Width(c: char): nat
  {
    if c as int < 0x80 then 1
    else if c as int < 0x800 then 2
    else if c as int < 0x1_0000 then 3
    else 4
  }

  /** Go's `len(s)`: the number of bytes in the UTF-8 encoding of s. */
  function Utf8Length(s: string): (n: nat)
    ensures |s| <= n <= 4 * |s|
    ensures n == 0 <==> s == []
    decreases |s|
  {
    if s == [] then 0 else Utf8Width(s[0]) + Utf8Length(s[1..])
  }
}
