/**
Text as C strings: a string is its characters before the terminating NUL, and a pointer into it is an index, where the
index past the last character is the NUL. The functions of the C library that the codec uses are here, and the
conversions of sip/Parser.c between text and field.
*/
module CodecText {
  import opened Common

  const SPACE := ' '
  /** No separator: as an end separator the NUL itself. */
  const EMPTY := '\0'
  const ANY: char := '\U{7F}'

  /** A C string. */
  predicate Plain(s: string) { EMPTY !in s }

  function At(s: string, i: nat): char
    requires i <= |s|
  {
    if i < |s| then s[i] else EMPTY
  }

  /** The first index from `i` on that is not a space. */
  function SkipSpaces(s: string, i: nat): (r: nat)
    requires i <= |s|
    ensures i <= r <= |s| && (forall j | i <= j < r :: s[j] == SPACE) && (r < |s| ==> s[r] != SPACE)
    decreases |s| - i
  {
    if i < |s| && s[i] == SPACE then SkipSpaces(s, i + 1) else i
  }

  /** strchr: the first index from `i` on that holds `c`; the NUL is found past the last character. */
  function FindChar(s: string, i: nat, c: char): (r: Option<nat>)
    requires i <= |s|
    ensures r.Some? ==> i <= r.value <= |s| && At(s, r.value) == c && c !in s[i..r.value]
    ensures r.None? ==> c != EMPTY && c !in s[i..]
    decreases |s| - i
  {
    if At(s, i) == c then Some(i) else if i == |s| then None else FindChar(s, i + 1, c)
  }

  predicate IsSeparator(c: char) { c in {' ', ';', ':', '@', '?', '"'} }

  /** NextSeparator: the first separator from `i` on, or the end. */
  function NextSeparator(s: string, i: nat): (r: nat)
    requires i <= |s|
    ensures i <= r <= |s| && (forall j | i <= j < r :: !IsSeparator(s[j])) && (r < |s| ==> IsSeparator(s[r]))
    decreases |s| - i
  {
    if i < |s| && !IsSeparator(s[i]) then NextSeparator(s, i + 1) else i
  }

  /** Neither the first nor the last character is a space. */
  predicate Bare(s: string) { s != "" ==> s[0] != SPACE && s[|s| - 1] != SPACE }

  /** `s` without its trailing spaces. */
  function TrimEnd(s: string): (r: string)
    ensures r <= s && (r != "" ==> r[|r| - 1] != SPACE) && (forall j | |r| <= j < |s| :: s[j] == SPACE)
  {
    if s != "" && s[|s| - 1] == SPACE then TrimEnd(s[..|s| - 1]) else s
  }

  /** `s` without the spaces at either end. */
  function Trim(s: string): string { TrimEnd(s[SkipSpaces(s, 0)..]) }

  /**
  ParseString: what it stores. The length is kept in a char: of 128 characters and more nothing is defined. When leading
  spaces are followed by at most one character, the result is empty.
  */
  function ParsedString(s: string): Option<string> {
    if |s| >= 128 then None
    else
      var start := SkipSpaces(s, 0);
      if start > 0 && start >= |s| - 1 then Some("") else Some(TrimEnd(s[start..]))
  }

  /**
  Theorem: ParseString is defined up to 127 characters, and trims unless a single character ends a string that starts with
  a space.
  */
  lemma ParseStringTrims(s: string)
    ensures ParsedString(s).None? <==> |s| >= 128
    ensures ParsedString(s) == Some(Trim(s)) <==> |s| < 128 && !(|s| > 1 && SkipSpaces(s, 0) == |s| - 1)
  {
    var start := SkipSpaces(s, 0);
    if start == |s| {
      assert s[start..] == "";
    } else if start == |s| - 1 {
      assert s[start..] == [s[start]];
    }
  }

  lemma BareIsKept(s: string)
    requires Bare(s) && |s| < 128
    ensures ParsedString(s) == Some(s) && Trim(s) == s
  {
    assert s[0..] == s;
  }

  /** What ParseString stores has no spaces at its ends, so that storing it again changes nothing. */
  lemma ParsedIsBare(s: string)
    requires |s| < 128
    ensures Bare(ParsedString(s).value) && |ParsedString(s).value| <= |s|
    ensures Plain(s) ==> Plain(ParsedString(s).value)
  {
    var start := SkipSpaces(s, 0);
    var rest := s[start..];
    var r := TrimEnd(rest);
    if r != "" {
      assert r[0] == rest[0] == s[start];
    }
  }

  // ---------- Numbers ----------

  predicate IsDigit(c: char) { '0' <= c <= '9' }

  /** The decimal digits of a number. */
  function Digits(n: nat): (r: string)
    ensures r != "" && forall j | 0 <= j < |r| :: IsDigit(r[j])
  {
    var d := [(n % 10 + '0' as int) as char];
    if n < 10 then d else Digits(n / 10) + d
  }

  /** The conversion %d of sprintf. */
  function Decimal(n: int): string { if n < 0 then "-" + Digits(-n) else Digits(n) }

  predicate IsBlank(c: char) { c == ' ' || 9 <= c as int <= 13 }

  function SkipBlanks(s: string): string {
    if s != "" && IsBlank(s[0]) then SkipBlanks(s[1..]) else s
  }

  /** The number that the leading digits of `s` denote, after `acc`. */
  function ReadDigits(s: string, acc: nat): nat {
    if s != "" && IsDigit(s[0]) then ReadDigits(s[1..], 10 * acc + (s[0] as int - '0' as int)) else acc
  }

  function ReadSigned(s: string): int {
    if s != "" && s[0] == '-' then -(ReadDigits(s[1..], 0) as int)
    else if s != "" && s[0] == '+' then ReadDigits(s[1..], 0)
    else ReadDigits(s, 0)
  }

  predicate IsInt32(n: int) { -0x8000_0000 <= n < 0x8000_0000 }

  /** atoi, which is not defined when the number does not fit an int. */
  function Atoi(s: string): Option<int> {
    var n := ReadSigned(SkipBlanks(s));
    if IsInt32(n) then Some(n) else None
  }

  lemma {:induction false} ReadMore(s: string, c: char, acc: nat)
    requires IsDigit(c) && forall j | 0 <= j < |s| :: IsDigit(s[j])
    ensures ReadDigits(s + [c], acc) == 10 * ReadDigits(s, acc) + (c as int - '0' as int)
  {
    if s == "" {
      assert (s + [c])[1..] == "";
    } else {
      assert (s + [c])[1..] == s[1..] + [c];
      ReadMore(s[1..], c, 10 * acc + (s[0] as int - '0' as int));
    }
  }

  lemma {:induction false} DigitsRead(n: nat)
    ensures ReadDigits(Digits(n), 0) == n
  {
    var c := (n % 10 + '0' as int) as char;
    if n < 10 {
      assert [c][1..] == "";
    } else {
      DigitsRead(n / 10);
      ReadMore(Digits(n / 10), c, 0);
    }
  }

  /** Theorem: reading a number after printing it gives it back. */
  lemma DecimalRead(n: int)
    requires IsInt32(n)
    ensures Atoi(Decimal(n)) == Some(n)
  {
    if n < 0 {
      DigitsRead(-n);
      assert Decimal(n)[1..] == Digits(-n);
    } else {
      DigitsRead(n);
    }
  }

  lemma {:induction false} BlanksSkipped(before: string, s: string)
    requires (forall c | c in before :: c in [' ', '\t', '\n', '\U{0B}', '\U{0C}', '\r']) && s != "" && !IsBlank(s[0])
    ensures SkipBlanks(before + s) == s
  {
    if before == "" {
      assert before + s == s;
    } else {
      assert before[0] in before && (before + s)[0] == before[0] && (before + s)[1..] == before[1..] + s;
      BlanksSkipped(before[1..], s);
    }
  }

  lemma {:induction false} DigitsEnd(s: string, after: string, acc: nat)
    requires (forall c | c in s :: IsDigit(c)) && (after == "" || !IsDigit(after[0]))
    ensures ReadDigits(s + after, acc) == ReadDigits(s, acc)
  {
    if s == "" {
      assert s + after == after;
    } else {
      assert s[0] in s && (s + after)[0] == s[0] && (s + after)[1..] == s[1..] + after;
      DigitsEnd(s[1..], after, 10 * acc + (s[0] as int - '0' as int));
    }
  }

  /** Theorem: a number is read between white space and anything that is not a digit. */
  lemma NumberRead(before: string, n: int, after: string)
    requires IsInt32(n) && (after == "" || !IsDigit(after[0]))
    requires forall c | c in before :: c in [' ', '\t', '\n', '\U{0B}', '\U{0C}', '\r']
    ensures Atoi(before + (Decimal(n) + after)) == Some(n)
  {
    SignedRead(n, after);
    BlanksSkipped(before, Decimal(n) + after);
  }

  lemma SignedRead(n: int, after: string)
    requires after == "" || !IsDigit(after[0])
    ensures ReadSigned(Decimal(n) + after) == n && Decimal(n) + after != "" && !IsBlank((Decimal(n) + after)[0])
  {
    var d := Digits(if n < 0 then -n else n);
    DigitsRead(if n < 0 then -n else n);
    DigitsEnd(d, after, 0);
    if n < 0 {
      assert (Decimal(n) + after)[0] == '-' && (Decimal(n) + after)[1..] == d + after;
    } else {
      assert (Decimal(n) + after)[0] == d[0];
    }
  }

  lemma {:induction false} DigitsLength(n: nat, k: nat)
    requires n < Ten(k) && k > 0
    ensures |Digits(n)| <= k
  {
    if n >= 10 {
      DigitsLength(n / 10, k - 1);
    }
  }

  function Ten(k: nat): nat { if k == 0 then 1 else 10 * Ten(k - 1) }

  lemma DecimalShape(n: int)
    requires IsInt32(n)
    ensures 0 < |Decimal(n)| <= 11
    ensures forall c | c in Decimal(n) :: c == '-' || IsDigit(c)
  {
    assert Ten(10) == 10_000_000_000;
    DigitsLength(if n < 0 then -n else n, 10);
  }
}
