/**
 * The parts of Rust's `str` and `char` behaviour that the reminder engine and
 * the tagging commands rely on: `to_lowercase`, `trim`, `ends_with`,
 * `trim_end_matches`, `split(',')`, `parse::<i64>()` and `len()` (a UTF-8
 * byte count).
 */
module Text {
  import opened Wrappers

  /** `char::is_whitespace`: the characters with the Unicode White_Space property. */
  predicate IsWhitespace(c: char) {
    || ('\U{9}' <= c <= '\U{D}')
    || c == ' '
    || c == '\U{85}'
    || c == '\U{A0}'
    || c == '\U{1680}'
    || ('\U{2000}' <= c <= '\U{200A}')
    || c == '\U{2028}'
    || c == '\U{2029}'
    || c == '\U{202F}'
    || c == '\U{205F}'
    || c == '\U{3000}'
  }

  predicate IsDigit(c: char) {
    48 <= c as int <= 57
  }

  predicate AllDigits(s: string) {
    forall i :: 0 <= i < |s| ==> IsDigit(s[i])
  }

  predicate IsBlank(s: string) {
    forall i :: 0 <= i < |s| ==> IsWhitespace(s[i])
  }

  // ---------------------------------------------------------------------------
  // Case folding

  /** Lower-casing of one character (the ASCII letters; every other character maps to itself). */
  function LowerChar(c: char): (d: char)
    ensures IsWhitespace(d) <==> IsWhitespace(c)
    ensures IsDigit(d) <==> IsDigit(c)
    ensures (d == 's') <==> (c == 's' || c == 'S')
  {
    if 'A' <= c <= 'Z' then (c as int + 32) as char else c
  }

  /** `str::to_lowercase`, character by character. */
  function Lower(s: string): (r: string)
    ensures |r| == |s|
    ensures forall i :: 0 <= i < |s| ==> r[i] == LowerChar(s[i])
  {
    seq(|s|, i requires 0 <= i < |s| => LowerChar(s[i]))
  }

  lemma LowerAppend(a: string, b: string)
    ensures Lower(a + b) == Lower(a) + Lower(b)
  {
    assert forall i :: 0 <= i < |a + b| ==> Lower(a + b)[i] == (Lower(a) + Lower(b))[i];
  }

  lemma LowerSlices(s: string, i: nat, j: nat)
    requires i <= j <= |s|
    ensures Lower(s[i..j]) == Lower(s)[i..j]
  {
  }

  // ---------------------------------------------------------------------------
  // Suffixes

  predicate EndsWith(s: string, suffix: string) {
    |suffix| <= |s| && s[|s| - |suffix|..] == suffix
  }

  /** `str::trim_end_matches(pattern)`: strip `pattern` from the end as long as it is a suffix. */
  function TrimEndMatches(s: string, pattern: string): (r: string)
    requires pattern != []
    ensures |r| <= |s| && r == s[..|r|]
    ensures !EndsWith(r, pattern)
    decreases |s|
  {
    if EndsWith(s, pattern) then TrimEndMatches(s[..|s| - |pattern|], pattern) else s
  }

  /**
   * Lower-casing commutes with stripping a lower-case pattern unless
   * lower-casing exposes one more copy of it at the end.
   */
  lemma {:induction false} LowerTrimEndMatches(s: string, pattern: string)
    requires pattern != [] && Lower(pattern) == pattern
    requires !EndsWith(Lower(TrimEndMatches(s, pattern)), pattern)
    ensures TrimEndMatches(Lower(s), pattern) == Lower(TrimEndMatches(s, pattern))
    decreases |s|
  {
    if EndsWith(s, pattern) {
      var k := |s| - |pattern|;
      LowerSlices(s, k, |s|);
      LowerSlices(s, 0, k);
      assert EndsWith(Lower(s), pattern);
      LowerTrimEndMatches(s[..k], pattern);
    }
  }

  // ---------------------------------------------------------------------------
  // Trimming

  /** `str::trim_start`: drop leading whitespace. */
  function TrimStart(s: string): (r: string)
    ensures |r| <= |s| && r == s[|s| - |r|..]
    ensures r == [] || !IsWhitespace(r[0])
    ensures forall i :: 0 <= i < |s| - |r| ==> IsWhitespace(s[i])
    decreases |s|
  {
    if |s| > 0 && IsWhitespace(s[0]) then TrimStart(s[1..]) else s
  }

  /** `str::trim_end`: drop trailing whitespace. */
  function TrimEnd(s: string): (r: string)
    ensures |r| <= |s| && r == s[..|r|]
    ensures r == [] || !IsWhitespace(r[|r| - 1])
    ensures forall i :: |r| <= i < |s| ==> IsWhitespace(s[i])
    decreases |s|
  {
    if |s| > 0 && IsWhitespace(s[|s| - 1]) then TrimEnd(s[..|s| - 1]) else s
  }

  /** `r` is the slice of `s` at `i`, with nothing but whitespace before and after it. */
  predicate InnerSlice(s: string, r: string, i: nat) {
    i + |r| <= |s| && r == s[i..i + |r|] && IsBlank(s[..i]) && IsBlank(s[i + |r|..])
  }

  /** `str::trim`: drop whitespace at both ends. */
  function Trim(s: string): (r: string)
    ensures |r| <= |s|
    ensures r == [] <==> IsBlank(s)
    ensures r != [] ==> !IsWhitespace(r[0]) && !IsWhitespace(r[|r| - 1])
    ensures exists i :: InnerSlice(s, r, i)
  {
    var e := TrimEnd(s);
    var r := TrimStart(e);
    assert r != [] ==> r[|r| - 1] == e[|e| - 1];
    assert r == [] ==> e == [];
    assert r != [] ==> r[0] == s[|e| - |r|];
    TrimmedEnds(s, e, r);
    var i := |e| - |r|;
    assert i + |r| == |e|;
    assert InnerSlice(s, r, i);
    r
  }

  /** What `trim` keeps is the slice of `s` between what it cuts off at each end, and both cuts are blank. */
  lemma TrimmedEnds(s: string, e: string, r: string)
    requires e == TrimEnd(s) && r == TrimStart(e)
    ensures var i := |e| - |r|; r == s[i..|e|] && IsBlank(s[..i]) && IsBlank(s[|e|..])
  {
    var i := |e| - |r|;
    assert s[i..|e|] == e[i..];
    TrimmedStartBlank(s, e, i);
    TrimmedEndBlank(s, e);
  }

  lemma TrimmedStartBlank(s: string, e: string, i: nat)
    requires |e| <= |s| && e == s[..|e|]
    requires i <= |e| && forall j :: 0 <= j < i ==> IsWhitespace(e[j])
    ensures IsBlank(s[..i])
  {
    forall j | 0 <= j < i ensures IsWhitespace(s[..i][j]) {
      assert s[..i][j] == e[j];
    }
  }

  lemma TrimmedEndBlank(s: string, e: string)
    requires |e| <= |s| && forall j :: |e| <= j < |s| ==> IsWhitespace(s[j])
    ensures IsBlank(s[|e|..])
  {
    forall j | 0 <= j < |s| - |e| ensures IsWhitespace(s[|e|..][j]) {
      assert s[|e|..][j] == s[|e| + j];
    }
  }

  /** One trailing blank after a non-blank end is all `trim_end` removes. */
  lemma TrimEndOneSpace(s: string)
    requires s != [] && !IsWhitespace(s[|s| - 1])
    ensures TrimEnd(s + " ") == s
  {
    assert (s + " ")[..|s|] == s;
    assert TrimEnd(s) == s;
  }

  /** One trailing blank is all `trim` removes from a string with non-blank ends. */
  lemma TrimOneSpace(s: string)
    requires s != [] && !IsWhitespace(s[0]) && !IsWhitespace(s[|s| - 1])
    ensures Trim(s + " ") == s
  {
    TrimEndOneSpace(s);
    assert TrimStart(s) == s;
  }

  /** Trimming keeps only characters of the input. */
  lemma TrimSubstring(s: string)
    ensures forall c :: c in Trim(s) ==> c in s
  {
    var e := TrimEnd(s);
    var r := TrimStart(e);
    forall c | c in r ensures c in s {
      var i :| 0 <= i < |r| && r[i] == c;
      assert e[|e| - |r| + i] == c;
      assert s[|e| - |r| + i] == c;
    }
  }

  /** Trimming a string whose last character is not whitespace keeps that character last. */
  lemma TrimKeepsLast(s: string)
    requires s != [] && !IsWhitespace(s[|s| - 1])
    ensures Trim(s) != [] && Trim(s)[|Trim(s)| - 1] == s[|s| - 1]
  {
    assert TrimEnd(s) == s;
    assert !IsBlank(s);
  }

  lemma {:induction false} TrimStartLower(s: string)
    ensures TrimStart(Lower(s)) == Lower(TrimStart(s))
    decreases |s|
  {
    if |s| > 0 && IsWhitespace(s[0]) {
      assert Lower(s)[1..] == Lower(s[1..]);
      TrimStartLower(s[1..]);
    }
  }

  lemma {:induction false} TrimEndLower(s: string)
    ensures TrimEnd(Lower(s)) == Lower(TrimEnd(s))
    decreases |s|
  {
    if |s| > 0 && IsWhitespace(s[|s| - 1]) {
      assert Lower(s)[..|s| - 1] == Lower(s[..|s| - 1]);
      TrimEndLower(s[..|s| - 1]);
    }
  }

  /** Lower-casing and trimming commute, because lower-casing maps whitespace to whitespace. */
  lemma TrimLower(s: string)
    ensures Trim(Lower(s)) == Lower(Trim(s))
  {
    TrimEndLower(s);
    TrimStartLower(TrimEnd(s));
  }

  lemma {:induction false} TrimStartIdempotent(s: string)
    ensures TrimStart(TrimStart(s)) == TrimStart(s)
  {
  }

  /** Trimming an already trimmed string changes nothing. */
  lemma TrimIdempotent(s: string)
    ensures Trim(Trim(s)) == Trim(s)
  {
    var t := Trim(s);
    if t != [] {
      assert TrimEnd(t) == t;
      assert TrimStart(t) == t;
    }
  }

  // ---------------------------------------------------------------------------
  // Integers

  const I64Min: int := -0x8000_0000_0000_0000
  const I64Max: int := 0x7FFF_FFFF_FFFF_FFFF

  function DigitValue(c: char): nat
    requires IsDigit(c)
  {
    c as int - 48
  }

  /** The value of a string of decimal digits. */
  function DigitsValue(ds: string): nat
    requires AllDigits(ds)
    decreases |ds|
  {
    if ds == [] then 0 else DigitsValue(ds[..|ds| - 1]) * 10 + DigitValue(ds[|ds| - 1])
  }

  /**
   * `str::parse::<i64>()`: an optional single `+` or `-`, then one or more ASCII
   * digits, and a value within the 64-bit signed range; anything else (the empty
   * string, a lone sign, whitespace, any other character, overflow) is an error.
   */
  function ParseI64(s: string): (r: Option<int>)
    ensures r.Some? ==> I64Min <= r.value <= I64Max
    ensures r.Some? ==> s != [] && IsDigit(s[|s| - 1])
    ensures r.Some? ==> forall i :: 0 <= i < |s| ==> IsDigit(s[i]) || (i == 0 && (s[0] == '+' || s[0] == '-'))
  {
    if s == [] || s == "+" || s == "-" then None
    else
      var signed := s[0] == '+' || s[0] == '-';
      var digits := if signed then s[1..] else s;
      if !AllDigits(digits) then None
      else
        assert signed ==> forall i :: 1 <= i < |s| ==> s[i] == digits[i - 1];
        var v: int := if s[0] == '-' then -(DigitsValue(digits) as int) else DigitsValue(digits) as int;
        if I64Min <= v <= I64Max then Some(v) else None
  }

  /**
   * The other direction of `ParseI64`'s shape clauses: every string made of an
   * optional sign and one or more digits parses, to its signed decimal value,
   * exactly when that value is within the 64-bit range.
   */
  lemma ParseI64Total(s: string)
    ensures s != [] && AllDigits(s) ==>
              ParseI64(s) == if DigitsValue(s) <= I64Max then Some(DigitsValue(s)) else None
    ensures |s| >= 2 && s[0] == '+' && AllDigits(s[1..]) ==>
              ParseI64(s) == if DigitsValue(s[1..]) <= I64Max then Some(DigitsValue(s[1..])) else None
    ensures |s| >= 2 && s[0] == '-' && AllDigits(s[1..]) ==>
              ParseI64(s) == if I64Min <= -(DigitsValue(s[1..]) as int) then Some(-(DigitsValue(s[1..]) as int)) else None
  {
    if s != [] && AllDigits(s) {
      ParseUnsigned(s);
    } else if |s| >= 2 && AllDigits(s[1..]) {
      ParseSigned(s);
    }
  }

  lemma ParseUnsigned(s: string)
    requires s != [] && AllDigits(s)
    ensures ParseI64(s) == if DigitsValue(s) <= I64Max then Some(DigitsValue(s)) else None
  {
    assert s != "+" && s != "-" by { assert IsDigit(s[0]); }
  }

  lemma ParseSigned(s: string)
    requires |s| >= 2 && AllDigits(s[1..])
    ensures s[0] == '+' ==>
              ParseI64(s) == if DigitsValue(s[1..]) <= I64Max then Some(DigitsValue(s[1..])) else None
    ensures s[0] == '-' ==>
              ParseI64(s) == if I64Min <= -(DigitsValue(s[1..]) as int) then Some(-(DigitsValue(s[1..]) as int)) else None
  {
    assert s != "+" && s != "-";
  }

  /** Whatever parses as an integer is unchanged by lower-casing. */
  lemma ParsedIsLowerFixed(s: string)
    requires ParseI64(s).Some?
    ensures Lower(s) == s
  {
    assert forall i :: 0 <= i < |s| ==> Lower(s)[i] == s[i];
  }

  // ---------------------------------------------------------------------------
  // Splitting

  /** `str::split(sep)`: the pieces between separators; an empty string gives one empty piece. */
  function Split(s: string, sep: char): (parts: seq<string>)
    ensures |parts| >= 1
    ensures forall p :: p in parts ==> sep !in p
    decreases |s|
  {
    if s == [] then [[]]
    else
      var rest := Split(s[1..], sep);
      if s[0] == sep then [[]] + rest
      else
        assert forall p :: p in rest[1..] ==> p in rest;
        [[s[0]] + rest[0]] + rest[1..]
  }

  /** `join(sep)`, the inverse of Split. */
  function Join(parts: seq<string>, sep: char): string
    requires |parts| >= 1
    decreases |parts|
  {
    if |parts| == 1 then parts[0] else parts[0] + [sep] + Join(parts[1..], sep)
  }

  /** Joining the pieces of a split gives back the input. */
  lemma {:induction false} JoinSplit(s: string, sep: char)
    ensures Join(Split(s, sep), sep) == s
    decreases |s|
  {
    if s != [] {
      var rest := Split(s[1..], sep);
      JoinSplit(s[1..], sep);
      if s[0] == sep {
        assert ([[]] + rest)[1..] == rest;
      } else {
        var parts := [[s[0]] + rest[0]] + rest[1..];
        if |rest| > 1 {
          assert parts[1..] == rest[1..];
          assert Join(rest, sep) == rest[0] + [sep] + Join(rest[1..], sep);
        }
      }
    }
  }

  lemma {:induction false} SplitNoSeparator(a: string, sep: char)
    requires sep !in a
    ensures Split(a, sep) == [a]
    decreases |a|
  {
    if a != [] {
      SplitNoSeparator(a[1..], sep);
      assert [a[0]] + a[1..] == a;
    }
  }

  lemma {:induction false} SplitAtSeparator(a: string, b: string, sep: char)
    requires sep !in a
    ensures Split(a + [sep] + b, sep) == [a] + Split(b, sep)
    decreases |a|
  {
    var s := a + [sep] + b;
    if a == [] {
      assert s[0] == sep && s[1..] == b;
    } else {
      assert s[0] == a[0];
      assert s[1..] == a[1..] + [sep] + b;
      SplitAtSeparator(a[1..], b, sep);
      assert [a[0]] + a[1..] == a;
    }
  }

  /** Splitting a join of separator-free pieces gives back the pieces. */
  lemma {:induction false} SplitJoin(parts: seq<string>, sep: char)
    requires |parts| >= 1
    requires forall p :: p in parts ==> sep !in p
    ensures Split(Join(parts, sep), sep) == parts
    decreases |parts|
  {
    if |parts| == 1 {
      SplitNoSeparator(parts[0], sep);
    } else {
      assert forall p :: p in parts[1..] ==> p in parts;
      SplitJoin(parts[1..], sep);
      SplitAtSeparator(parts[0], Join(parts[1..], sep), sep);
      assert [parts[0]] + parts[1..] == parts;
    }
  }

  // ---------------------------------------------------------------------------
  // Byte length

  /** The number of bytes of a character in UTF-8. */
  function Utf8Width(c: char): nat {
    if c as int < 0x80 then 1
    else if c as int < 0x800 then 2
    else if c as int < 0x1_0000 then 3
    else 4
  }

  /** `str::len()`: the UTF-8 byte count, between one and four bytes per character. */
  function Utf8Length(s: string): (n: nat)
    ensures |s| <= n <= 4 * |s|
    decreases |s|
  {
    if s == [] then 0 else Utf8Width(s[0]) + Utf8Length(s[1..])
  }
}
