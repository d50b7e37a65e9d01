// Go string helpers the panel relies on. A string is a sequence of Unicode
// scalar values; Go compares strings bytewise, which on UTF-8 is the order of
// the scalar values used here.

module Wrappers {
  datatype Option<+T> = None | Some(value: T)

  datatype Result<+T> = Ok(value: T) | Err(error: string)
}

module Text {
  import opened Wrappers

  // ---- white space and case -------------------------------------------------

  /** unicode.IsSpace: the Latin-1 blanks and the White_Space property above them. */
  predicate IsSpace(c: char) {
    var k := c as int;
    9 <= k <= 13 || k == 32 || k == 0x85 || k == 0xA0 || k == 0x1680 || 0x2000 <= k <= 0x200A ||
    k == 0x2028 || k == 0x2029 || k == 0x202F || k == 0x205F || k == 0x3000
  }

  /** One by one: tabulator to carriage return, space, next line, no-break space, and the space separators of Unicode. */
  lemma BlanksAre(c: char)
    ensures IsSpace(c) <==> c as int in {
      9, 10, 11, 12, 13, 32, 133, 160, 5760, 8192, 8193, 8194, 8195, 8196, 8197, 8198, 8199, 8200, 8201, 8202, 8232, 8233, 8239, 8287, 12288}
  {
  }

  function TrimLeft(s: string): string {
    if s != "" && IsSpace(s[0]) then TrimLeft(s[1..]) else s
  }

  function TrimRight(s: string): string {
    if s != "" && IsSpace(s[|s| - 1]) then TrimRight(s[..|s| - 1]) else s
  }

  /** strings.TrimSpace */
  function TrimSpace(s: string): string {
    TrimRight(TrimLeft(s))
  }

  predicate Trimmed(s: string) {
    s != "" ==> !IsSpace(s[0]) && !IsSpace(s[|s| - 1])
  }

  lemma {:induction false} TrimLeftShape(s: string)
    ensures var t := TrimLeft(s); t != "" ==> !IsSpace(t[0]) && t[|t| - 1] == s[|s| - 1]
    ensures s != "" && !IsSpace(s[0]) ==> TrimLeft(s) == s
  {
    if s != "" && IsSpace(s[0]) {
      TrimLeftShape(s[1..]);
    }
  }

  lemma {:induction false} TrimRightShape(s: string)
    ensures var t := TrimRight(s); t <= s && (t != "" ==> !IsSpace(t[|t| - 1]))
    ensures s != "" && !IsSpace(s[|s| - 1]) ==> TrimRight(s) == s
  {
    if s != "" && IsSpace(s[|s| - 1]) {
      TrimRightShape(s[..|s| - 1]);
    }
  }

  /** TrimSpace returns a trimmed string, and leaves exactly the trimmed strings alone. */
  lemma TrimSpaceIsTrimmed(s: string)
    ensures Trimmed(TrimSpace(s))
    ensures TrimSpace(s) == s <==> Trimmed(s)
  {
    TrimLeftShape(s);
    TrimRightShape(TrimLeft(s));
  }

  predicate AllBlank(s: string) { forall c | c in s :: IsSpace(c) }

  lemma {:induction false} TrimLeftDrops(pad: string, s: string)
    requires AllBlank(pad) && (s != "" ==> !IsSpace(s[0]))
    ensures TrimLeft(pad + s) == s
  {
    if pad == "" {
      assert pad + s == s;
    } else {
      assert pad[0] in pad && (pad + s)[1..] == pad[1..] + s && forall c | c in pad[1..] :: c in pad;
      TrimLeftDrops(pad[1..], s);
    }
  }

  lemma {:induction false} TrimRightDrops(s: string, pad: string)
    requires AllBlank(pad) && (s != "" ==> !IsSpace(s[|s| - 1]))
    ensures TrimRight(s + pad) == s
  {
    if pad == "" {
      assert s + pad == s;
    } else {
      var init := pad[..|pad| - 1];
      assert pad[|pad| - 1] in pad && (s + pad)[..|s + pad| - 1] == s + init && forall c | c in init :: c in pad;
      TrimRightDrops(s, init);
    }
  }

  /** What TrimSpace takes away are the blanks at both ends. */
  lemma TrimSpaceDrops(before: string, s: string, after: string)
    requires AllBlank(before) && AllBlank(after) && Trimmed(s) && s != ""
    ensures TrimSpace(before + s + after) == s
  {
    assert before + s + after == before + (s + after);
    TrimLeftDrops(before, s + after);
    TrimRightDrops(s, after);
  }

  lemma {:induction false} TrimLeftSplits(s: string) returns (before: string)
    ensures AllBlank(before) && s == before + TrimLeft(s)
  {
    if s != "" && IsSpace(s[0]) {
      var rest := TrimLeftSplits(s[1..]);
      before := [s[0]] + rest;
      assert s == [s[0]] + s[1..] && [s[0]] + (rest + TrimLeft(s)) == before + TrimLeft(s);
    } else {
      before := "";
    }
  }

  lemma {:induction false} TrimRightSplits(s: string) returns (after: string)
    ensures AllBlank(after) && s == TrimRight(s) + after
  {
    if s != "" && IsSpace(s[|s| - 1]) {
      var rest := TrimRightSplits(s[..|s| - 1]);
      after := rest + [s[|s| - 1]];
      assert s == s[..|s| - 1] + [s[|s| - 1]] && TrimRight(s) + rest + [s[|s| - 1]] == TrimRight(s) + after;
    } else {
      after := "";
    }
  }

  /** Any text is its trimmed middle between blanks. */
  lemma TrimSpaceSplits(s: string) returns (before: string, after: string)
    ensures AllBlank(before) && AllBlank(after) && s == before + TrimSpace(s) + after
  {
    before := TrimLeftSplits(s);
    after := TrimRightSplits(TrimLeft(s));
  }

  /** strings.ToLower on ASCII letters. */
  function ToLower(s: string): (r: string)
    ensures |r| == |s|
  {
    seq(|s|, i requires 0 <= i < |s| => if 'A' <= s[i] <= 'Z' then (s[i] as int + 32) as char else s[i])
  }

  /** strings.Trim(s, "x") for a cutset of one character. */
  function Trim(s: string, c: char): string { TrimEnd(TrimStart(s, c), c) }

  function TrimStart(s: string, c: char): string { if s != "" && s[0] == c then TrimStart(s[1..], c) else s }

  function TrimEnd(s: string, c: char): string { if s != "" && s[|s| - 1] == c then TrimEnd(s[..|s| - 1], c) else s }

  const UPPER := "ABCDEFGHIJKLMNOPQRSTUVWXYZ"
  const LOWER := "abcdefghijklmnopqrstuvwxyz"

  /** Every capital becomes the small letter of its place in the alphabet, and nothing else changes. */
  lemma ToLowerByAlphabet(s: string, i: nat, k: nat)
    requires i < |s| && k < 26
    ensures s[i] == UPPER[k] ==> ToLower(s)[i] == LOWER[k]
    ensures s[i] !in UPPER ==> ToLower(s)[i] == s[i]
  {
    AlphabetHasCapitals(s[i]);
    AlphabetAt(k);
  }

  lemma AlphabetAt(k: nat)
    requires k < 26
    ensures UPPER[k] as int == 'A' as int + k && LOWER[k] as int == 'a' as int + k
  {
  }

  lemma AlphabetHasCapitals(c: char)
    ensures 'A' <= c <= 'Z' ==> c in UPPER
  {
    if 'A' <= c <= 'Z' {
      AlphabetAt(c as int - 'A' as int);
      assert UPPER[c as int - 'A' as int] == c;
    }
  }

  function Repeat(c: char, n: nat): (s: string)
    ensures |s| == n && forall i | 0 <= i < n :: s[i] == c
  {
    seq(n, _ => c)
  }

  lemma {:induction false} TrimStartDrops(c: char, n: nat, s: string)
    requires s != "" ==> s[0] != c
    ensures TrimStart(Repeat(c, n) + s, c) == s
  {
    if n == 0 {
      assert Repeat(c, 0) + s == s;
    } else {
      assert (Repeat(c, n) + s)[1..] == Repeat(c, n - 1) + s;
      TrimStartDrops(c, n - 1, s);
    }
  }

  lemma {:induction false} TrimEndDrops(s: string, c: char, n: nat)
    requires s != "" ==> s[|s| - 1] != c
    ensures TrimEnd(s + Repeat(c, n), c) == s
  {
    if n == 0 {
      assert s + Repeat(c, 0) == s;
    } else {
      assert (s + Repeat(c, n))[..|s| + n - 1] == s + Repeat(c, n - 1);
      TrimEndDrops(s, c, n - 1);
    }
  }

  /** What Trim takes away are the given characters at both ends. */
  lemma TrimDrops(c: char, m: nat, s: string, n: nat)
    requires s != "" && s[0] != c && s[|s| - 1] != c
    ensures Trim(Repeat(c, m) + s + Repeat(c, n), c) == s
  {
    assert Repeat(c, m) + s + Repeat(c, n) == Repeat(c, m) + (s + Repeat(c, n));
    TrimStartDrops(c, m, s + Repeat(c, n));
    TrimEndDrops(s, c, n);
  }

  function OrDefault(v: string, fallback: string): string { if v != "" then v else fallback }

  // ---- lexicographic order --------------------------------------------------

  /** The Go operator < on strings. */
  predicate Less(a: string, b: string) {
    b != "" && (a == "" || a[0] < b[0] || (a[0] == b[0] && Less(a[1..], b[1..])))
  }

  lemma {:induction false} LessTotal(a: string, b: string)
    ensures Less(a, b) || Less(b, a) || a == b
    ensures !(Less(a, b) && Less(b, a))
    ensures !Less(a, a)
  {
    if a != "" {
      LessTotal(a[1..], a[1..]);
      if b != "" {
        LessTotal(a[1..], b[1..]);
        assert a == [a[0]] + a[1..] && b == [b[0]] + b[1..];
      }
    }
  }

  lemma {:induction false} LessTransitive(a: string, b: string, c: string)
    requires Less(a, b) && Less(b, c)
    ensures Less(a, c)
  {
    if a != "" && a[0] == b[0] == c[0] {
      LessTransitive(a[1..], b[1..], c[1..]);
    }
  }

  // ---- splitting ------------------------------------------------------------

  /** strings.Split(s, sep) for a one-character separator. */
  function Split(s: string, sep: char): (parts: seq<string>)
    ensures |parts| >= 1
  {
    if s == "" then [""]
    else
      var rest := Split(s[1..], sep);
      if s[0] == sep then [""] + rest else [[s[0]] + rest[0]] + rest[1..]
  }

  function Join(parts: seq<string>, sep: string): string {
    if |parts| == 0 then "" else if |parts| == 1 then parts[0] else parts[0] + sep + Join(parts[1..], sep)
  }

  /** Splitting loses nothing, and no part holds the separator. */
  lemma {:induction false} JoinSplit(s: string, sep: char)
    ensures Join(Split(s, sep), [sep]) == s
    ensures forall p | p in Split(s, sep) :: sep !in p
  {
    if s != "" {
      JoinSplit(s[1..], sep);
      var rest := Split(s[1..], sep);
      if s[0] == sep {
        assert ([""] + rest)[1..] == rest;
      } else {
        var whole := [[s[0]] + rest[0]] + rest[1..];
        assert whole[1..] == rest[1..];
        forall p | p in whole ensures sep !in p {
          if p != whole[0] { assert p in rest; }
        }
      }
    }
  }

  // ---- decimal numbers ------------------------------------------------------

  const MAX_INT64 := 0x7FFF_FFFF_FFFF_FFFF
  const MIN_INT64 := -0x8000_0000_0000_0000
  type int64 = x: int | MIN_INT64 <= x <= MAX_INT64

  /** Two's complement result of a Go int64 operation whose exact value is x. */
  function Wrap64(x: int): (r: int64)
    ensures MIN_INT64 <= x <= MAX_INT64 ==> r == x
  {
    (x + 0x8000_0000_0000_0000) % 0x1_0000_0000_0000_0000 - 0x8000_0000_0000_0000
  }

  predicate IsDigit(c: char) { '0' <= c <= '9' }

  predicate AllDigits(s: string) { forall c | c in s :: IsDigit(c) }

  function DigitChar(d: nat): (c: char)
    requires d < 10
    ensures IsDigit(c) && DigitValue(c) == d
  {
    ('0' as int + d) as char
  }

  function DigitValue(c: char): (d: nat)
    requires IsDigit(c)
    ensures d < 10
  {
    c as int - '0' as int
  }

  /** strconv.Itoa on a natural number. */
  function Itoa(n: nat): (s: string)
    ensures s != "" && AllDigits(s)
  {
    if n < 10 then [DigitChar(n)] else Itoa(n / 10) + [DigitChar(n % 10)]
  }

  function DecimalValue(s: string): nat
    requires AllDigits(s)
  {
    if s == "" then 0 else 10 * DecimalValue(s[..|s| - 1]) + DigitValue(s[|s| - 1])
  }

  lemma {:induction false} DecimalRoundTrip(n: nat)
    ensures DecimalValue(Itoa(n)) == n
  {
    if n >= 10 {
      DecimalRoundTrip(n / 10);
      assert Itoa(n)[..|Itoa(n)| - 1] == Itoa(n / 10);
    }
  }

  lemma ItoaInjective(m: nat, n: nat)
    requires Itoa(m) == Itoa(n)
    ensures m == n
  {
    DecimalRoundTrip(m);
    DecimalRoundTrip(n);
  }

  /** strconv.Atoi / ParseInt(s, 10, 64): an optional sign, then digits, within int64. */
  function Atoi(s: string): Option<int64> {
    var neg := s != "" && s[0] == '-';
    var digits := if s != "" && (s[0] == '-' || s[0] == '+') then s[1..] else s;
    if digits == "" || !AllDigits(digits) then None
    else
      var magnitude: int := DecimalValue(digits);
      var v := if neg then -magnitude else magnitude;
      if MIN_INT64 <= v <= MAX_INT64 then Some(v) else None
  }

  lemma AtoiOfPlus(n: nat)
    requires n <= MAX_INT64
    ensures Atoi("+" + Itoa(n)) == Some(n)
  {
    DecimalRoundTrip(n);
    assert ("+" + Itoa(n))[1..] == Itoa(n);
  }

  /** A numeral with a minus sign is negative, and nothing outside int64 is a number. */
  lemma AtoiOfSigned(n: nat)
    ensures n <= MAX_INT64 + 1 ==> Atoi("-" + Itoa(n)).Some? && Atoi("-" + Itoa(n)).value + n == 0
    ensures n > MAX_INT64 + 1 ==> Atoi("-" + Itoa(n)) == None
    ensures n > MAX_INT64 ==> Atoi(Itoa(n)) == None
  {
    DecimalRoundTrip(n);
    assert ("-" + Itoa(n))[1..] == Itoa(n) && Itoa(n)[0] in Itoa(n);
  }

  /** Nor is a text with any other character, or without digits. */
  lemma AtoiOfText(s: string, i: nat)
    requires i < |s| && !IsDigit(s[i]) && (i > 0 || (s[0] != '-' && s[0] != '+') || |s| == 1)
    ensures Atoi(s) == None
  {
    assert s[i] in s;
    if i > 0 && (s[0] == '-' || s[0] == '+') {
      assert s[1..][i - 1] == s[i] && s[i] in s[1..];
    }
  }

  lemma AtoiItoa(n: nat)
    requires n <= MAX_INT64
    ensures Atoi(Itoa(n)) == Some(n)
  {
    DecimalRoundTrip(n);
    assert Itoa(n)[0] in Itoa(n);
  }
}
