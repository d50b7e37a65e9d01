// Quoting for the upgrade scripts (backend/internal/api/updates.go:300-318) and percent-encoding
// of link credentials (backend/internal/api/subscription.go:418-434).

module Shell {
  import opened Wrappers
  import opened Text

  // ---- what a POSIX shell reads ---------------------------------------------------

  predicate IsBlank(c: char) { c == ' ' || c == '\t' }

  /** Characters that mean something to the shell outside quotes (section 2.2). */
  predicate IsSpecial(c: char) { c in "|&;<>()$`\"\n*?[#~=%" }

  function Word(current: Option<string>): string { if current.Some? then current.value else "" }

  /**
   The words of a command line made of literals: quoting ends at the next single quote (section
   2.2.2), a backslash keeps the next character (section 2.2.1), blanks separate words. None
   stands for everything that is not a list of literal words.
   */
  function Words(text: string, current: Option<string>, quoted: bool): Option<seq<string>>
    decreases |text|
  {
    if text == "" then
      if quoted then None else Some(if current.Some? then [current.value] else [])
    else if quoted then
      if text[0] == '\'' then Words(text[1..], Some(Word(current)), false)
      else Words(text[1..], Some(Word(current) + [text[0]]), true)
    else if text[0] == '\'' then Words(text[1..], Some(Word(current)), true)
    else if text[0] == '\\' then
      if |text| == 1 then None
      else if text[1] == '\n' then Words(text[2..], current, false)
      else Words(text[2..], Some(Word(current) + [text[1]]), false)
    else if IsBlank(text[0]) then
      var rest := Words(text[1..], None, false);
      if rest.None? || current.None? then rest else Some([current.value] + rest.value)
    else if IsSpecial(text[0]) then None
    else Words(text[1..], Some(Word(current) + [text[0]]), false)
  }

  // ---- the encoder ---------------------------------------------------------------

  predicate Forbidden(s: string) { '\n' in s || '\r' in s || '\0' in s }

  /** strings.ReplaceAll(s, "'", "'\\''") */
  function QuoteMarks(s: string): string {
    if s == "" then "" else (if s[0] == '\'' then "'\\''" else [s[0]]) + QuoteMarks(s[1..])
  }

  function Escaped(s: string): string { "'" + QuoteMarks(s) + "'" }

  method ShellEscape(s: string) returns (r: Result<string>)
    ensures r.Ok? <==> !Forbidden(s)
    ensures r.Ok? <==> forall c | c in s :: c !in "\n\r\0"
    ensures r.Ok? ==> r.value == Escaped(s) && Words(r.value, None, false) == Some([s])
  {
    if '\n' in s || '\r' in s || '\0' in s {
      return Err("shell literal contains a forbidden control character");
    }
    EscapedIsOneWord(s);
    r := Ok("'" + QuoteMarks(s) + "'");
  }

  method ShellEscapeValues(values: seq<string>) returns (r: Result<seq<string>>)
    ensures r.Ok? <==> forall v | v in values :: !Forbidden(v)
    ensures r.Ok? ==> r.value == EscapedAll(values)
  {
    var escaped: seq<string> := [];
    for i := 0 to |values|
      invariant forall j | 0 <= j < i :: !Forbidden(values[j])
      invariant escaped == EscapedAll(values)[..i]
    {
      var enc := ShellEscape(values[i]);
      if enc.Err? {
        return Err("unsafe manifest field");
      }
      escaped := escaped + [enc.value];
    }
    r := Ok(escaped);
  }

  function EscapedAll(values: seq<string>): (r: seq<string>)
    ensures |r| == |values|
  {
    seq(|values|, i requires 0 <= i < |values| => Escaped(values[i]))
  }

  // ---- round trip ---------------------------------------------------------------

  lemma Regroup(a: string, b: string, c: string, d: string)
    ensures a + b + c + d == a + (b + c + d)
  {
  }

  /** Inside quotes, reading the encoded text appends the value and leaves the quotes. */
  lemma {:induction false} ReadQuoted(s: string, w: string, rest: string)
    ensures Words(QuoteMarks(s) + "'" + rest, Some(w), true) == Words(rest, Some(w + s), false)
  {
    if s == "" {
      assert QuoteMarks(s) + "'" + rest == ['\''] + rest;
      assert (['\''] + rest)[1..] == rest && w + s == w;
    } else {
      var tail := QuoteMarks(s[1..]) + "'" + rest;
      ReadQuoted(s[1..], w + [s[0]], rest);
      Regroup(if s[0] == '\'' then "'\\''" else [s[0]], QuoteMarks(s[1..]), "'", rest);
      assert w + [s[0]] + s[1..] == w + s;
      if s[0] == '\'' {
        ReadMark(QuoteMarks(s) + "'" + rest, w, tail);
      } else {
        ReadPlain(QuoteMarks(s) + "'" + rest, s[0], w, tail);
      }
    }
  }

  lemma ReadPlain(text: string, c: char, w: string, tail: string)
    requires text == [c] + tail && c != '\''
    ensures Words(text, Some(w), true) == Words(tail, Some(w + [c]), true)
  {
  }

  /** An encoded quotation mark: out of the quotes, an escaped mark, and back in. */
  lemma ReadMark(text: string, w: string, tail: string)
    requires text == "'\\''" + tail
    ensures Words(text, Some(w), true) == Words(tail, Some(w + "'"), true)
  {
    var a, b, c := text[1..], text[3..], text[4..];
    assert a[0] == '\\' && a[1] == '\'' && a[2..] == b && b[0] == '\'' && b[1..] == c == tail;
    assert Words(text, Some(w), true) == Words(a, Some(w), false);
    assert Words(a, Some(w), false) == Words(b, Some(w + ['\'']), false);
    assert Words(b, Some(w + ['\'']), false) == Words(c, Some(w + ['\'']), true);
  }

  lemma ReadEscaped(s: string, rest: string)
    ensures Words(Escaped(s) + rest, None, false) == Words(rest, Some(s), false)
  {
    var body := QuoteMarks(s) + "'" + rest;
    assert Escaped(s) + rest == ['\''] + body;
    assert (['\''] + body)[1..] == body;
    ReadQuoted(s, "", rest);
    assert "" + s == s;
  }

  /** Every value comes back as exactly one word. */
  lemma EscapedIsOneWord(s: string)
    ensures Words(Escaped(s), None, false) == Some([s])
  {
    ReadEscaped(s, "");
    assert Escaped(s) + "" == Escaped(s);
  }

  /** And a whole argument list comes back as itself: no value can end or start another. */
  lemma {:induction false} ArgumentsComeBack(values: seq<string>)
    ensures Words(Join(EscapedAll(values), " "), None, false) == Some(values)
  {
    if |values| == 0 {
    } else if |values| == 1 {
      EscapedIsOneWord(values[0]);
      assert values == [values[0]];
    } else {
      var rest := Join(EscapedAll(values[1..]), " ");
      assert EscapedAll(values)[1..] == EscapedAll(values[1..]);
      assert Join(EscapedAll(values), " ") == Escaped(values[0]) + (" " + rest);
      ReadEscaped(values[0], " " + rest);
      assert (" " + rest)[1..] == rest;
      ArgumentsComeBack(values[1..]);
      assert values == [values[0]] + values[1..];
    }
  }
}

module UserInfo {
  import opened Wrappers
  import opened Text

  type byte = b: int | 0 <= b < 256

  // ---- RFC 3986 -------------------------------------------------------------------

  /** Section 2.3. */
  predicate Unreserved(c: char) {
    'a' <= c <= 'z' || 'A' <= c <= 'Z' || '0' <= c <= '9' || c in "-_.~"
  }

  predicate HexDigit(c: char) { '0' <= c <= '9' || 'A' <= c <= 'F' || 'a' <= c <= 'f' }

  function HexValue(c: char): (v: nat)
    requires HexDigit(c)
    ensures v < 16
  {
    if c <= '9' then c as int - '0' as int
    else if c <= 'F' then c as int - 'A' as int + 10
    else c as int - 'a' as int + 10
  }

  /** Section 2.1: a percent sign and two hexadecimal digits, of either case, are one byte. */
  function Decode(text: string): Option<seq<byte>> {
    if text == "" then Some([])
    else if text[0] == '%' then
      if |text| < 3 || !HexDigit(text[1]) || !HexDigit(text[2]) then None
      else
        var rest := Decode(text[3..]);
        if rest.None? then None else Some([16 * HexValue(text[1]) + HexValue(text[2])] + rest.value)
    else if text[0] as int >= 256 then None
    else
      var rest := Decode(text[1..]);
      if rest.None? then None else Some([text[0] as int] + rest.value)
  }

  // ---- the encoder ---------------------------------------------------------------

  const HEX := "0123456789ABCDEF"

  function EncodeByte(b: byte): string {
    if Unreserved(b as char) then [b as char] else ['%', HEX[b / 16], HEX[b % 16]]
  }

  function Encode(user: seq<byte>): string {
    if user == [] then "" else EncodeByte(user[0]) + Encode(user[1..])
  }

  lemma {:induction false} EncodeAppend(a: seq<byte>, b: byte)
    ensures Encode(a + [b]) == Encode(a) + EncodeByte(b)
  {
    if a != [] {
      EncodeAppend(a[1..], b);
      assert (a + [b])[1..] == a[1..] + [b];
    } else {
      assert a + [b] == [b] && Encode([b][1..]) == "";
    }
  }

  /** strings.Replace(s, old, fresh, 1): the first occurrence only. */
  function ReplaceFirst(s: string, target: string, replacement: string): string {
    if target <= s then replacement + s[|target|..]
    else if s == "" then ""
    else [s[0]] + ReplaceFirst(s[1..], target, replacement)
  }

  method BuildUserInfoLink(scheme: string, user: seq<byte>, base: string) returns (link: string)
    ensures link == ReplaceFirst(base, scheme + "://", scheme + "://" + Encode(user) + "@")
  {
    var encoded := "";
    for i := 0 to |user|
      invariant encoded == Encode(user[..i])
    {
      var b := user[i];
      assert user[..i + 1] == user[..i] + [b];
      EncodeAppend(user[..i], b);
      if Unreserved(b as char) {
        encoded := encoded + [b as char];
      } else {
        encoded := encoded + ['%', HEX[b / 16], HEX[b % 16]];
      }
    }
    assert user[..|user|] == user;
    link := ReplaceFirst(base, scheme + "://", scheme + "://" + encoded + "@");
  }

  // ---- round trip ---------------------------------------------------------------

  lemma HexOf(d: nat)
    requires d < 16
    ensures HexDigit(HEX[d]) && HexValue(HEX[d]) == d && Unreserved(HEX[d])
  {
  }

  lemma DecodeEscaped(h: char, l: char, text: string)
    requires HexDigit(h) && HexDigit(l) && Decode(text).Some?
    ensures Decode(['%', h, l] + text) == Some([16 * HexValue(h) + HexValue(l)] + Decode(text).value)
  {
    var s := ['%', h, l] + text;
    assert s[0] == '%' && s[1] == h && s[2] == l && s[3..] == text;
  }

  lemma DecodeByte(b: byte, text: string)
    requires Decode(text).Some?
    ensures Decode(EncodeByte(b) + text) == Some([b] + Decode(text).value)
    ensures forall c | c in EncodeByte(b) :: Unreserved(c) || c == '%'
  {
    var s := EncodeByte(b) + text;
    if Unreserved(b as char) {
      assert s[0] == b as char && s[1..] == text;
    } else {
      HexOf(b / 16);
      HexOf(b % 16);
      DecodeEscaped(HEX[b / 16], HEX[b % 16], text);
    }
  }

  predicate UpperHex(c: char) { '0' <= c <= '9' || 'A' <= c <= 'F' }

  const DIGITS := "0123456789"

  lemma CapitalsAre(c: char)
    ensures c in UPPER <==> 'A' <= c <= 'Z'
  {
    forall i | 0 <= i < 26 ensures 'A' <= UPPER[i] <= 'Z' {
      AlphabetAt(i);
    }
    AlphabetHasCapitals(c);
  }

  lemma SmallLettersAre(c: char)
    ensures c in LOWER <==> 'a' <= c <= 'z'
  {
    forall i | 0 <= i < 26 ensures 'a' <= LOWER[i] <= 'z' {
      AlphabetAt(i);
    }
    if 'a' <= c <= 'z' {
      AlphabetAt(c as int - 'a' as int);
      assert LOWER[c as int - 'a' as int] == c;
    }
  }

  lemma DigitsAre(c: char)
    ensures c in DIGITS <==> '0' <= c <= '9'
  {
    if '0' <= c <= '9' {
      assert DIGITS[c as int - '0' as int] == c;
    }
  }

  /** Letters, digits and "-._~" stand for themselves, any other byte is a percent sign and two capital hexadecimal digits. */
  lemma EncodeByteSays(b: byte)
    ensures var s, c := EncodeByte(b), b as char;
      if c in UPPER || c in LOWER || c in DIGITS || c in "-._~" then s == [c]
      else |s| == 3 && s[0] == '%' && UpperHex(s[1]) && UpperHex(s[2]) && 16 * HexValue(s[1]) + HexValue(s[2]) == b
  {
    CapitalsAre(b as char);
    SmallLettersAre(b as char);
    DigitsAre(b as char);
    HexOf(b / 16);
    HexOf(b % 16);
  }

  /** Decoding gives every byte string back, and only unreserved characters and "%" are written. */
  lemma {:induction false} EncodeRoundTrip(user: seq<byte>)
    ensures Decode(Encode(user)) == Some(user)
    ensures forall c | c in Encode(user) :: Unreserved(c) || c == '%'
  {
    if user != [] {
      EncodeRoundTrip(user[1..]);
      DecodeByte(user[0], Encode(user[1..]));
      assert user == [user[0]] + user[1..];
    }
  }

  /** The text before the first "@" of the authority, and what follows it (section 3.2.1). */
  function CutAt(s: string): Option<(string, string)> {
    if s == "" || s[0] in "/?#" then None
    else if s[0] == '@' then Some(("", s[1..]))
    else
      var rest := CutAt(s[1..]);
      if rest.None? then None else Some(([s[0]] + rest.value.0, rest.value.1))
  }

  lemma {:induction false} CutAtFirst(info: string, rest: string)
    requires forall c | c in info :: Unreserved(c) || c == '%'
    ensures CutAt(info + "@" + rest) == Some((info, rest))
  {
    var s := info + "@" + rest;
    if info == "" {
      assert s[0] == '@' && s[1..] == rest;
    } else {
      assert info[0] in info;
      CutAtFirst(info[1..], rest);
      assert s[1..] == info[1..] + "@" + rest;
      assert info == [info[0]] + info[1..];
    }
  }

  lemma ReplaceAtStart(prefix: string, info: string, rest: string)
    ensures var link := ReplaceFirst(prefix + rest, prefix, prefix + info + "@");
      prefix <= link && link[|prefix|..] == info + "@" + rest
  {
  }

  /** The user comes back from the link, whatever bytes it holds, and the rest is the base link. */
  lemma LinkRoundTrip(scheme: string, user: seq<byte>, rest: string)
    ensures var prefix := scheme + "://";
      var link := ReplaceFirst(prefix + rest, prefix, prefix + Encode(user) + "@");
      && prefix <= link && CutAt(link[|prefix|..]) == Some((Encode(user), rest))
      && Decode(Encode(user)) == Some(user)
  {
    EncodeRoundTrip(user);
    CutAtFirst(Encode(user), rest);
    ReplaceAtStart(scheme + "://", Encode(user), rest);
  }
}
