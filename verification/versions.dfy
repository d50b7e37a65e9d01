// Version strings and their order
// (backend/internal/api/upgrade_tasks.go:279-376, updates.go:229-298).

module Versions {
  import opened Wrappers
  import opened Text

  datatype Version = Version(major: int64, minor: int64, patch: int64, pre: string)

  // ---- parsing ------------------------------------------------------------------

  /** strings.SplitN(s, sep, 2): what stands before the first separator, and what after it. */
  function Cut(s: string, sep: char): (parts: (string, Option<string>)) {
    if s == "" then ("", None)
    else if s[0] == sep then ("", Some(s[1..]))
    else
      var (head, tail) := Cut(s[1..], sep);
      ([s[0]] + head, tail)
  }

  lemma {:induction false} CutShape(s: string, sep: char)
    ensures var (head, tail) := Cut(s, sep);
      sep !in head && s == head + match tail case None => "" case Some(t) => [sep] + t
  {
    if s != "" && s[0] != sep {
      CutShape(s[1..], sep);
    }
  }

  lemma {:induction false} CutAppend(head: string, sep: char, tail: string)
    requires sep !in head
    ensures Cut(head, sep) == (head, None) && Cut(head + [sep] + tail, sep) == (head, Some(tail))
  {
    var s := head + [sep] + tail;
    if head == "" {
      assert s[1..] == tail;
    } else {
      CutAppend(head[1..], sep, tail);
      assert head == [head[0]] + head[1..];
      assert s[1..] == head[1..] + [sep] + tail && s[0] == head[0];
    }
  }

  function TrimV(s: string): string { if s != "" && s[0] == 'v' then s[1..] else s }

  /** A decimal numeral without sign that fits an int64. */
  function Number(n: string): (r: Option<int64>)
    ensures r.Some? ==> r.value >= 0
  {
    if n == "" || !AllDigits(n) then None
    else
      assert n[0] in n;
      Atoi(n)
  }

  function PartAt(nums: seq<string>, i: nat): (r: int64)
    ensures r >= 0
  {
    if i < |nums| && Number(nums[i]).Some? then Number(nums[i]).value else 0
  }

  predicate AllNumbers(nums: seq<string>) { forall i | 0 <= i < |nums| :: Number(nums[i]).Some? }

  /** The version a string denotes, if any. */
  function Parse(raw: string): Option<Version> {
    var s := TrimV(TrimSpace(raw));
    var (core, tail) := Cut(s, '-');
    var nums := Split(core, '.');
    if s == "" || |nums| > 3 || !AllNumbers(nums) || tail == Some("") then None
    else Some(Version(PartAt(nums, 0), PartAt(nums, 1), PartAt(nums, 2),
                      if tail.None? || tail.value == "stable" then "" else tail.value))
  }

  /** The loop over the dotted numbers. */
  method ParseNumbers(nums: seq<string>) returns (major: int64, minor: int64, patch: int64, ok: bool)
    requires |nums| <= 3
    ensures ok == AllNumbers(nums)
    ensures ok ==> major == PartAt(nums, 0) && minor == PartAt(nums, 1) && patch == PartAt(nums, 2)
  {
    major, minor, patch, ok := 0, 0, 0, false;
    for i := 0 to |nums|
      invariant forall j | 0 <= j < i :: Number(nums[j]).Some?
      invariant major == PartAt(nums[..i], 0) && minor == PartAt(nums[..i], 1) && patch == PartAt(nums[..i], 2)
    {
      if nums[i] == "" || !AllDigits(nums[i]) {
        assert Number(nums[i]).None?;
        return;
      }
      var value := Atoi(nums[i]);
      if value.None? || value.value < 0 {
        assert Number(nums[i]).None?;
        return;
      }
      match i
      case 0 => major := value.value;
      case 1 => minor := value.value;
      case _ => patch := value.value;
    }
    assert nums[..|nums|] == nums;
    ok := true;
  }

  method ParseSemanticVersion(raw: string) returns (v: Version, ok: bool)
    ensures ok == Parse(raw).Some?
    ensures ok ==> Parse(raw) == Some(v)
  {
    v, ok := Version(0, 0, 0, ""), false;
    var s := TrimV(TrimSpace(raw));
    if s == "" {
      return;
    }
    var (core, tail) := Cut(s, '-');
    var nums := Split(core, '.');
    if |nums| < 1 || |nums| > 3 {
      return;
    }
    var major, minor, patch, numeric := ParseNumbers(nums);
    if !numeric {
      return;
    }
    var pre := "";
    if tail.Some? {
      pre := tail.value;
      if pre == "stable" {
        pre := "";
      }
      if pre == "" && tail.value != "stable" {
        return;
      }
    }
    v, ok := Version(major, minor, patch, pre), true;
  }

  /** The canonical spelling of a version. */
  function Show(v: Version): string
    requires v.major >= 0 && v.minor >= 0 && v.patch >= 0
  {
    Itoa(v.major) + "." + Itoa(v.minor) + "." + Itoa(v.patch) + if v.pre == "" then "" else "-" + v.pre
  }

  lemma {:induction false} SplitAppend(head: string, sep: char, tail: string)
    requires sep !in head
    ensures Split(head, sep) == [head] && Split(head + [sep] + tail, sep) == [head] + Split(tail, sep)
  {
    var s := head + [sep] + tail;
    if head == "" {
      assert s[1..] == tail;
    } else {
      SplitAppend(head[1..], sep, tail);
      assert s[1..] == head[1..] + [sep] + tail && s[0] == head[0];
      assert head == [head[0]] + head[1..];
    }
  }

  lemma NumberOfItoa(n: nat)
    requires n <= MAX_INT64
    ensures Number(Itoa(n)) == Some(n) && '.' !in Itoa(n) && '-' !in Itoa(n) && Itoa(n)[0] != 'v'
    ensures !IsSpace(Itoa(n)[0]) && !IsSpace(Itoa(n)[|Itoa(n)| - 1])
  {
    AtoiItoa(n);
    assert Itoa(n)[0] in Itoa(n) && Itoa(n)[|Itoa(n)| - 1] in Itoa(n);
  }

  function Core(v: Version): string
    requires v.major >= 0 && v.minor >= 0 && v.patch >= 0
  {
    Itoa(v.major) + "." + Itoa(v.minor) + "." + Itoa(v.patch)
  }

  lemma SplitThree(a: string, b: string, c: string)
    requires '.' !in a && '.' !in b && '.' !in c
    ensures Split(a + "." + b + "." + c, '.') == [a, b, c]
  {
    var rest := b + ['.'] + c;
    SplitAppend(a, '.', rest);
    SplitAppend(b, '.', c);
    SplitAppend(c, '.', "");
    assert a + "." + b + "." + c == a + ['.'] + rest;
  }

  lemma CoreSplits(v: Version)
    requires v.major >= 0 && v.minor >= 0 && v.patch >= 0
    ensures Split(Core(v), '.') == [Itoa(v.major), Itoa(v.minor), Itoa(v.patch)] && '-' !in Core(v)
    ensures Core(v) != "" && Core(v)[0] != 'v' && !IsSpace(Core(v)[0]) && !IsSpace(Core(v)[|Core(v)| - 1])
  {
    var a, b, c := Itoa(v.major), Itoa(v.minor), Itoa(v.patch);
    NumberOfItoa(v.major);
    NumberOfItoa(v.minor);
    NumberOfItoa(v.patch);
    SplitThree(a, b, c);
    assert Core(v)[0] == a[0] && Core(v)[|Core(v)| - 1] == c[|c| - 1];
  }

  /** Whether a prerelease survives being written out and read back. */
  predicate Writable(pre: string) { pre == "" || (pre != "stable" && !IsSpace(pre[|pre| - 1])) }

  lemma ShowIsTrimmed(v: Version)
    requires v.major >= 0 && v.minor >= 0 && v.patch >= 0 && Writable(v.pre)
    ensures TrimV(TrimSpace(Show(v))) == Show(v) != ""
  {
    var s := Show(v);
    CoreSplits(v);
    assert s[0] == Core(v)[0] && s[|s| - 1] == if v.pre == "" then Core(v)[|Core(v)| - 1] else v.pre[|v.pre| - 1];
    TrimSpaceIsTrimmed(s);
  }

  lemma ShowIsCut(v: Version)
    requires v.major >= 0 && v.minor >= 0 && v.patch >= 0
    ensures Cut(Show(v), '-') == (Core(v), if v.pre == "" then None else Some(v.pre))
  {
    CoreSplits(v);
    CutAppend(Core(v), '-', v.pre);
    assert Show(v) == if v.pre == "" then Core(v) else Core(v) + ['-'] + v.pre;
  }

  lemma CoreIsNumbers(v: Version)
    requires v.major >= 0 && v.minor >= 0 && v.patch >= 0
    ensures var nums := Split(Core(v), '.');
      |nums| == 3 && AllNumbers(nums) && PartAt(nums, 0) == v.major && PartAt(nums, 1) == v.minor && PartAt(nums, 2) == v.patch
  {
    CoreSplits(v);
    NumberOfItoa(v.major);
    NumberOfItoa(v.minor);
    NumberOfItoa(v.patch);
  }

  lemma ParseShow(v: Version)
    requires v.major >= 0 && v.minor >= 0 && v.patch >= 0 && Writable(v.pre)
    ensures Parse(Show(v)) == Some(v)
  {
    ShowIsTrimmed(v);
    ShowIsCut(v);
    CoreIsNumbers(v);
  }

  lemma ParsedIsWritable(raw: string)
    requires Parse(raw).Some?
    ensures var v := Parse(raw).value; v.major >= 0 && v.minor >= 0 && v.patch >= 0 && Writable(v.pre)
  {
    var t := TrimSpace(raw);
    TrimSpaceIsTrimmed(raw);
    var s := TrimV(t);
    assert s[|s| - 1] == t[|t| - 1];
    CutShape(s, '-');
    var pre := Parse(raw).value.pre;
    if pre != "" {
      assert s[|s| - 1] == pre[|pre| - 1];
    }
  }

  /**
   Reading a version and writing it out canonically is a normal form: it reads back to itself.
   And only a prerelease that is "stable" or ends in a blank does not survive.
   */
  lemma ShowIsNormalForm(raw: string)
    requires Parse(raw).Some?
    ensures var v := Parse(raw).value; v.major >= 0 && v.minor >= 0 && v.patch >= 0 && Parse(Show(v)) == Some(v)
  {
    ParsedIsWritable(raw);
    ParseShow(Parse(raw).value);
  }

  lemma ReadsBackExactly(v: Version)
    requires v.major >= 0 && v.minor >= 0 && v.patch >= 0
    ensures Parse(Show(v)) == Some(v) <==> Writable(v.pre)
  {
    if Writable(v.pre) {
      ParseShow(v);
    } else if Parse(Show(v)) == Some(v) {
      ParsedIsWritable(Show(v));
    }
  }

  // ---- every spelling of a version -----------------------------------------------------

  /** Blanks, perhaps the "v" of a release tag, one to three numerals, perhaps a prerelease, blanks. */
  datatype Spelling = Spelling(before: string, tagged: bool, numerals: seq<string>, pre: Option<string>, after: string)

  function BareText(s: Spelling): string {
    (if s.tagged then "v" else "") + (Join(s.numerals, ".") + match s.pre case None => "" case Some(p) => "-" + p)
  }

  function SpeltText(s: Spelling): string { s.before + BareText(s) + s.after }

  predicate IsNumeral(n: string) { n != "" && AllDigits(n) && DecimalValue(n) <= MAX_INT64 }

  predicate Spelt(s: Spelling) {
    && AllBlank(s.before) && AllBlank(s.after)
    && 1 <= |s.numerals| <= 3 && (forall i | 0 <= i < |s.numerals| :: IsNumeral(s.numerals[i]))
    && (s.pre.Some? ==> s.pre.value != "" && !IsSpace(s.pre.value[|s.pre.value| - 1]))
  }

  /** Numbers left out are zero, and "stable" is no prerelease. */
  function Denoted(s: Spelling): Version
    requires Spelt(s)
  {
    Version(DecimalValue(s.numerals[0]),
            if |s.numerals| > 1 then DecimalValue(s.numerals[1]) else 0,
            if |s.numerals| > 2 then DecimalValue(s.numerals[2]) else 0,
            match s.pre case None => "" case Some(p) => if p == "stable" then "" else p)
  }

  lemma NumeralShape(n: string)
    requires IsNumeral(n)
    ensures Number(n) == Some(DecimalValue(n)) && '.' !in n && '-' !in n
    ensures IsDigit(n[0]) && IsDigit(n[|n| - 1])
  {
    assert n[0] in n && n[|n| - 1] in n;
  }

  lemma NumberShape(n: string)
    requires Number(n).Some?
    ensures IsNumeral(n)
  {
    assert n[0] in n;
  }

  lemma {:induction false} SplitOfJoin(parts: seq<string>)
    requires parts != [] && forall i | 0 <= i < |parts| :: IsNumeral(parts[i])
    ensures var s := Join(parts, "."); Split(s, '.') == parts && '-' !in s && s != "" && IsDigit(s[0]) && IsDigit(s[|s| - 1])
  {
    NumeralShape(parts[0]);
    if |parts| == 1 {
      SplitAppend(parts[0], '.', "");
    } else {
      SplitOfJoin(parts[1..]);
      SplitAppend(parts[0], '.', Join(parts[1..], "."));
      assert Join(parts, ".") == parts[0] + ['.'] + Join(parts[1..], ".");
      assert parts == [parts[0]] + parts[1..];
    }
  }

  lemma BareEnds(s: Spelling)
    requires Spelt(s)
    ensures var t := BareText(s); t != "" && Trimmed(t) && TrimV(t) == t[if s.tagged then 1 else 0..]
    ensures TrimV(BareText(s)) == Join(s.numerals, ".") + match s.pre case None => "" case Some(p) => "-" + p
  {
    SplitOfJoin(s.numerals);
    var core, t := Join(s.numerals, "."), BareText(s);
    assert s.pre.Some? ==> t[|t| - 1] == s.pre.value[|s.pre.value| - 1];
    assert s.pre.None? ==> t[|t| - 1] == core[|core| - 1];
    assert t[0] == if s.tagged then 'v' else core[0];
  }

  /** Where a prerelease begins. */
  lemma CoreIsCut(core: string, pre: Option<string>)
    requires '-' !in core
    ensures Cut(core + match pre { case None => "" case Some(p) => "-" + p }, '-') == (core, pre)
  {
    match pre
    case None =>
      CutAppend(core, '-', "");
      assert core + "" == core;
    case Some(p) =>
      CutAppend(core, '-', p);
      assert core + ("-" + p) == core + ['-'] + p;
  }

  lemma SpeltTrimmed(s: Spelling)
    requires Spelt(s)
    ensures TrimSpace(SpeltText(s)) == BareText(s)
  {
    BareEnds(s);
    TrimSpaceDrops(s.before, BareText(s), s.after);
  }

  /** How the parser takes a spelling apart. */
  lemma SpeltCut(s: Spelling)
    requires Spelt(s)
    ensures TrimV(TrimSpace(SpeltText(s))) != ""
    ensures Cut(TrimV(TrimSpace(SpeltText(s))), '-') == (Join(s.numerals, "."), s.pre)
  {
    SpeltTrimmed(s);
    BareEnds(s);
    SplitOfJoin(s.numerals);
    CoreIsCut(Join(s.numerals, "."), s.pre);
  }

  lemma SpeltParses(s: Spelling)
    requires Spelt(s)
    ensures Parse(SpeltText(s)) == Some(Denoted(s))
  {
    SpeltCut(s);
    SplitOfJoin(s.numerals);
    forall i | 0 <= i < |s.numerals| ensures Number(s.numerals[i]) == Some(DecimalValue(s.numerals[i])) {
      NumeralShape(s.numerals[i]);
    }
  }

  lemma LastOf(head: string, tail: string)
    requires tail != ""
    ensures (head + tail)[|head + tail| - 1] == tail[|tail| - 1]
  {
  }

  lemma NumeralsOf(raw: string)
    requires Parse(raw).Some?
    ensures var (core, tail) := Cut(TrimV(TrimSpace(raw)), '-');
      && 1 <= |Split(core, '.')| <= 3 && tail != Some("")
      && forall i | 0 <= i < |Split(core, '.')| :: IsNumeral(Split(core, '.')[i])
  {
    var nums := Split(Cut(TrimV(TrimSpace(raw)), '-').0, '.');
    forall i | 0 <= i < |nums| ensures IsNumeral(nums[i]) {
      NumberShape(nums[i]);
    }
  }

  /** The spelling read off a trimmed text. */
  function SpellingOf(before: string, t: string, after: string): (s: Spelling) {
    var (core, tail) := Cut(TrimV(t), '-');
    Spelling(before, TrimV(t) != t, Split(core, '.'), tail, after)
  }

  lemma SpellingOfText(before: string, t: string, after: string)
    ensures BareText(SpellingOf(before, t, after)) == t
  {
    var (core, tail) := Cut(TrimV(t), '-');
    CutShape(TrimV(t), '-');
    JoinSplit(core, '.');
  }

  lemma SpellingEnds(before: string, t: string, after: string)
    requires Trimmed(t) && SpellingOf(before, t, after).pre.Some? && SpellingOf(before, t, after).pre.value != ""
    ensures var p := SpellingOf(before, t, after).pre.value; !IsSpace(p[|p| - 1])
  {
    var (core, tail) := Cut(TrimV(t), '-');
    CutShape(TrimV(t), '-');
    LastOf(core + ['-'], tail.value);
    assert t[|t| - 1] == TrimV(t)[|TrimV(t)| - 1];
  }

  /** What is read can be spelt so. */
  lemma ParsedIsSpelt(raw: string) returns (s: Spelling)
    requires Parse(raw).Some?
    ensures Spelt(s) && SpeltText(s) == raw && Parse(raw) == Some(Denoted(s))
  {
    var before, after := TrimSpaceSplits(raw);
    var t := TrimSpace(raw);
    s := SpellingOf(before, t, after);
    TrimSpaceIsTrimmed(raw);
    NumeralsOf(raw);
    if s.pre.Some? {
      SpellingEnds(before, t, after);
    }
    SpellingOfText(before, t, after);
    SpeltParses(s);
  }

  /** A text is read as a version exactly when it is one of its spellings. */
  lemma ParsesExactly(raw: string, v: Version)
    ensures Parse(raw) == Some(v) <==> exists s :: Spelt(s) && SpeltText(s) == raw && Denoted(s) == v
  {
    if Parse(raw) == Some(v) {
      var s := ParsedIsSpelt(raw);
    }
    if s :| Spelt(s) && SpeltText(s) == raw && Denoted(s) == v {
      SpeltParses(s);
    }
  }

  lemma ItoaIsNumeral(n: nat)
    requires n <= MAX_INT64
    ensures IsNumeral(Itoa(n)) && DecimalValue(Itoa(n)) == n
  {
    DecimalRoundTrip(n);
  }

  /** A release tag, with its "v" and any blanks around it, is the version it names. */
  lemma TagParses(before: string, v: Version, after: string)
    requires AllBlank(before) && AllBlank(after) && v.major >= 0 && v.minor >= 0 && v.patch >= 0 && Writable(v.pre)
    ensures Parse(before + "v" + Show(v) + after) == Some(v)
  {
    ItoaIsNumeral(v.major);
    ItoaIsNumeral(v.minor);
    ItoaIsNumeral(v.patch);
    var s := Spelling(before, true, [Itoa(v.major), Itoa(v.minor), Itoa(v.patch)], if v.pre == "" then None else Some(v.pre), after);
    JoinThree(Itoa(v.major), Itoa(v.minor), Itoa(v.patch));
    SpeltParses(s);
    ShownIsBare(v, s);
  }

  lemma JoinThree(a: string, b: string, c: string)
    ensures Join([a, b, c], ".") == a + "." + b + "." + c
  {
    assert [b, c][1..] == [c] && Join([b, c], ".") == b + "." + c;
    assert [a, b, c][1..] == [b, c];
  }

  lemma ShownIsBare(v: Version, s: Spelling)
    requires v.major >= 0 && v.minor >= 0 && v.patch >= 0
    requires s == Spelling(s.before, true, [Itoa(v.major), Itoa(v.minor), Itoa(v.patch)], if v.pre == "" then None else Some(v.pre), s.after)
    ensures SpeltText(s) == s.before + "v" + Show(v) + s.after
  {
    JoinThree(Itoa(v.major), Itoa(v.minor), Itoa(v.patch));
    assert BareText(s) == "v" + Show(v);
  }

}

// compareSemanticVersion, measured against the precedence rules of section 11 of
// Semantic Versioning 2.0.0.
module Precedence {
  import opened Wrappers
  import opened Text
  import opened Versions

  function Sign(a: int, b: int): int { if a < b then -1 else if a > b then 1 else 0 }

  /** The comparison of two different identifiers. */
  function CompareIdentifiers(x: string, y: string): (r: int)
    ensures r == -1 || r == 1 || (r == 0 && x == y)
  {
    match (Atoi(x), Atoi(y))
    case (Some(m), Some(n)) => if m < n then -1 else 1
    case (Some(_), None) => -1
    case (None, Some(_)) => 1
    case (None, None) => LessTotal(x, y); if Less(x, y) then -1 else if x == y then 0 else 1
  }

  /** The comparison of two different prereleases, as lists of identifiers. */
  function CompareFields(a: seq<string>, b: seq<string>): (r: int)
    ensures r == -1 || r == 1
  {
    if a == [] || b == [] then (if |a| < |b| then -1 else 1)
    else if a[0] == b[0] then CompareFields(a[1..], b[1..])
    else CompareIdentifiers(a[0], b[0])
  }

  function CompareNumbers(a: Version, b: Version): int {
    if a.major != b.major then Sign(a.major, b.major)
    else if a.minor != b.minor then Sign(a.minor, b.minor)
    else Sign(a.patch, b.patch)
  }

  function Fields(v: Version): (r: seq<string>)
    ensures |r| >= 1
  {
    Split(v.pre, '.')
  }

  function Compare(a: Version, b: Version): (r: int)
    ensures -1 <= r <= 1 && (r == 0 <==> a == b)
  {
    if CompareNumbers(a, b) != 0 then CompareNumbers(a, b)
    else if a.pre == b.pre then 0
    else if a.pre == "" then 1
    else if b.pre == "" then -1
    else CompareFields(Fields(a), Fields(b))
  }

  method CompareSemanticVersion(a: Version, b: Version) returns (r: int)
    ensures r == Compare(a, b)
  {
    var pairs: seq<(int, int)> := [(a.major, b.major), (a.minor, b.minor), (a.patch, b.patch)];
    for i := 0 to 3
      invariant forall j | 0 <= j < i :: pairs[j].0 == pairs[j].1
    {
      assert i > 0 ==> pairs[0].0 == pairs[0].1;
      assert i > 1 ==> pairs[1].0 == pairs[1].1;
      if pairs[i].0 < pairs[i].1 {
        return -1;
      }
      if pairs[i].0 > pairs[i].1 {
        return 1;
      }
    }
    assert pairs[0].0 == pairs[0].1 && pairs[1].0 == pairs[1].1 && pairs[2].0 == pairs[2].1;
    if a.pre == b.pre {
      return 0;
    }
    if a.pre == "" {
      return 1;
    }
    if b.pre == "" {
      return -1;
    }
    r := CompareSplit(Fields(a), Fields(b));
  }

  method CompareSplit(ap: seq<string>, bp: seq<string>) returns (r: int)
    ensures r == CompareFields(ap, bp)
  {
    var i := 0;
    while i < |ap| && i < |bp|
      invariant 0 <= i <= |ap| && i <= |bp|
      invariant CompareFields(ap, bp) == CompareFields(ap[i..], bp[i..])
    {
      if ap[i] != bp[i] {
        var an, bn := Atoi(ap[i]), Atoi(bp[i]);
        if an.Some? && bn.Some? {
          return if an.value < bn.value then -1 else 1;
        }
        if an.Some? {
          return -1;
        }
        if bn.Some? {
          return 1;
        }
        return CompareIdentifiers(ap[i], bp[i]);
      }
      i := i + 1;
    }
    r := if |ap| < |bp| then -1 else 1;
  }

  /** Both texts are spellings of one version. */
  predicate Matches(current: string, target: string) { Parse(current).Some? && Parse(current) == Parse(target) }

  /** An installed version matches the release tag it came from. */
  lemma TagMatches(before: string, v: Version, after: string)
    requires AllBlank(before) && AllBlank(after) && v.major >= 0 && v.minor >= 0 && v.patch >= 0 && Writable(v.pre)
    ensures Matches(before + "v" + Show(v) + after, Show(v)) && Matches(Show(v), before + "v" + Show(v) + after)
  {
    TagParses(before, v, after);
    ParseShow(v);
  }

  /** And no other version's spelling. */
  lemma MatchesExactly(current: string, target: string)
    ensures Matches(current, target) <==>
      exists s, t :: Spelt(s) && Spelt(t) && SpeltText(s) == current && SpeltText(t) == target && Denoted(s) == Denoted(t)
  {
    if Matches(current, target) {
      var s := ParsedIsSpelt(current);
      var t := ParsedIsSpelt(target);
      assert Spelt(s) && Spelt(t) && SpeltText(s) == current && SpeltText(t) == target && Denoted(s) == Denoted(t);
    }
    if s, t :| Spelt(s) && Spelt(t) && SpeltText(s) == current && SpeltText(t) == target && Denoted(s) == Denoted(t) {
      SpeltParses(s);
      SpeltParses(t);
    }
  }

  /** Two texts match only when they denote the same version. */
  method VersionMatchesTarget(current: string, target: string) returns (matches: bool)
    ensures matches <==> Matches(current, target)
  {
    var cur, okCur := ParseSemanticVersion(current);
    var tgt, okTgt := ParseSemanticVersion(target);
    var order := CompareSemanticVersion(cur, tgt);
    matches := okCur && okTgt && order == 0;
  }

  // ---- antisymmetry ------------------------------------------------------------

  /** The first identifiers that differ are both numbers, and the same number. */
  predicate SameNumberSpeltTwice(a: seq<string>, b: seq<string>) {
    a != [] && b != [] &&
    if a[0] == b[0] then SameNumberSpeltTwice(a[1..], b[1..])
    else Atoi(a[0]).Some? && Atoi(a[0]) == Atoi(b[0])
  }

  predicate Ambiguous(a: Version, b: Version) {
    CompareNumbers(a, b) == 0 && a.pre != "" && b.pre != "" && SameNumberSpeltTwice(Fields(a), Fields(b))
  }

  lemma {:induction false} FieldsAntisymmetricExactly(a: seq<string>, b: seq<string>)
    requires a != b
    ensures CompareFields(a, b) == -CompareFields(b, a) <==> !SameNumberSpeltTwice(a, b)
  {
    if a != [] && b != [] {
      if a[0] == b[0] {
        assert a == [a[0]] + a[1..] && b == [b[0]] + b[1..];
        FieldsAntisymmetricExactly(a[1..], b[1..]);
      } else {
        LessTotal(a[0], b[0]);
      }
    }
  }

  lemma FieldsDiffer(a: Version, b: Version)
    requires a.pre != b.pre
    ensures Fields(a) != Fields(b)
  {
    JoinSplit(a.pre, '.');
    JoinSplit(b.pre, '.');
  }

  /** Swapping the versions negates the answer, except where one number is spelt in two ways. */
  lemma AntisymmetricExactly(a: Version, b: Version)
    ensures Compare(a, b) == -Compare(b, a) <==> !Ambiguous(a, b)
    ensures Ambiguous(a, b) ==> Compare(a, b) == 1 && Compare(b, a) == 1
  {
    if a.pre != b.pre {
      FieldsDiffer(a, b);
      FieldsAntisymmetricExactly(Fields(a), Fields(b));
      if Ambiguous(a, b) {
        AmbiguousIsGreater(Fields(a), Fields(b));
      }
    } else {
      SameFieldsAreClear(Fields(a));
    }
  }

  lemma {:induction false} SameFieldsAreClear(a: seq<string>)
    ensures !SameNumberSpeltTwice(a, a)
  {
    if a != [] {
      SameFieldsAreClear(a[1..]);
    }
  }

  lemma {:induction false} AmbiguousIsGreater(a: seq<string>, b: seq<string>)
    requires SameNumberSpeltTwice(a, b)
    ensures CompareFields(a, b) == 1 && CompareFields(b, a) == 1
  {
    if a[0] == b[0] {
      AmbiguousIsGreater(a[1..], b[1..]);
    }
  }

  lemma LeadingZeroBreaksAntisymmetry()
    ensures var a, b := Version(1, 0, 0, "1"), Version(1, 0, 0, "01");
      Compare(a, b) == 1 && Compare(b, a) == 1
  {
    assert Atoi("1") == Some(1) && Atoi("01") == Some(1) by {
      assert "01"[..1] == "0" && "0"[..0] == "" && "1"[..0] == "";
      assert DecimalValue("0") == 0;
    }
    SplitAppend("1", '.', "");
    SplitAppend("01", '.', "");
  }

  // ---- transitivity -------------------------------------------------------------

  lemma IdentifiersTransitive(x: string, y: string, z: string)
    requires x != y && y != z && CompareIdentifiers(x, y) == -1 && CompareIdentifiers(y, z) == -1
    ensures x != z && CompareIdentifiers(x, z) == -1
  {
    LessTotal(x, z);
    if Less(x, y) && Less(y, z) {
      LessTransitive(x, y, z);
    }
  }

  lemma {:induction false} FieldsTransitive(a: seq<string>, b: seq<string>, c: seq<string>)
    requires a != b && b != c && CompareFields(a, b) == -1 && CompareFields(b, c) == -1
    ensures a != c && CompareFields(a, c) == -1
  {
    if a != [] && b != [] && c != [] {
      if a[0] == b[0] == c[0] {
        assert a == [a[0]] + a[1..] && b == [b[0]] + b[1..] && c == [c[0]] + c[1..];
        FieldsTransitive(a[1..], b[1..], c[1..]);
      } else if a[0] != b[0] && b[0] != c[0] {
        IdentifiersTransitive(a[0], b[0], c[0]);
      }
    }
  }

  /** The comparison is transitive on all versions, ambiguous ones included. */
  lemma CompareTransitive(a: Version, b: Version, c: Version)
    requires Compare(a, b) <= 0 && Compare(b, c) <= 0
    ensures Compare(a, c) <= 0
  {
    if Compare(a, b) == -1 && Compare(b, c) == -1 && CompareNumbers(a, b) == 0 && CompareNumbers(b, c) == 0 &&
       a.pre != "" && b.pre != "" && c.pre != "" {
      FieldsDiffer(a, b);
      FieldsDiffer(b, c);
      FieldsTransitive(Fields(a), Fields(b), Fields(c));
    }
  }

  /** At the first difference a has one more field, the greater or equal number, or the later text. */
  ghost predicate OutranksAt(a: seq<string>, b: seq<string>, k: nat) {
    && k < |a| && k <= |b| && a[..k] == b[..k]
    && (k == |b| || (a[k] != b[k] &&
          match (Atoi(a[k]), Atoi(b[k]))
          case (Some(m), Some(n)) => m >= n
          case (None, None) => Less(b[k], a[k])
          case (x, _) => x.None?))
  }

  ghost predicate Outranks(a: seq<string>, b: seq<string>) { exists k: nat :: OutranksAt(a, b, k) }

  lemma OutranksLater(a: seq<string>, b: seq<string>, k: nat)
    requires a != [] && b != [] && a[0] == b[0]
    ensures OutranksAt(a, b, k + 1) <==> OutranksAt(a[1..], b[1..], k)
    ensures !OutranksAt(a, b, 0)
  {
    var s, t := a[1..], b[1..];
    if k <= |s| && k <= |t| {
      assert a[..k + 1] == [a[0]] + s[..k] && b[..k + 1] == [b[0]] + t[..k];
      assert s[..k] == a[..k + 1][1..] && t[..k] == b[..k + 1][1..];
    }
  }

  /** A prerelease is the greater one exactly when it outranks the other at the first difference. */
  lemma {:induction false} OutranksExactly(a: seq<string>, b: seq<string>)
    requires a != b
    ensures CompareFields(a, b) == 1 <==> Outranks(a, b)
  {
    if b == [] {
      assert OutranksAt(a, b, 0);
    } else if a != [] {
      if a[0] == b[0] {
        assert a == [a[0]] + a[1..] && b == [b[0]] + b[1..];
        OutranksExactly(a[1..], b[1..]);
        if k: nat :| OutranksAt(a, b, k) {
          OutranksLater(a, b, if k > 0 then k - 1 else 0);
        }
        if k: nat :| OutranksAt(a[1..], b[1..], k) {
          OutranksLater(a, b, k);
        }
      } else {
        LessTotal(a[0], b[0]);
        assert CompareIdentifiers(a[0], b[0]) == 1 <==> OutranksAt(a, b, 0);
        assert forall k: nat | 0 < k <= |a| && k <= |b| :: a[..k][0] != b[..k][0];
      }
    }
  }

  /** What makes a the greater of two versions with the same numbers: its prerelease. */
  ghost predicate OutranksByPrerelease(a: Version, b: Version) {
    a.pre != b.pre && (a.pre == "" || (b.pre != "" && Outranks(Fields(a), Fields(b))))
  }

  lemma GreaterByPrerelease(a: Version, b: Version)
    requires CompareNumbers(a, b) == 0
    ensures Compare(a, b) == 1 <==> OutranksByPrerelease(a, b)
  {
    if a.pre != b.pre {
      FieldsDiffer(a, b);
      OutranksExactly(Fields(a), Fields(b));
    }
  }

  // ---- a total order on canonical identifiers ----------------------------------

  /** Leading zeros and signs aside, nothing reads as a number. */
  predicate Canonical(id: string) {
    match Atoi(id)
    case Some(n) => n >= 0 && id == Itoa(n)
    case None => true
  }

  predicate CanonicalVersion(v: Version) { forall id | id in Fields(v) :: Canonical(id) }

  lemma {:induction false} FieldsAreClear(a: seq<string>, b: seq<string>)
    requires forall id | id in a + b :: Canonical(id)
    ensures !SameNumberSpeltTwice(a, b)
  {
    if a != [] && b != [] {
      assert a[0] in a + b && b[0] in a + b;
      if a[0] == b[0] {
        forall id | id in a[1..] + b[1..] ensures id in a + b {
          assert id in a || id in b;
        }
        FieldsAreClear(a[1..], b[1..]);
      }
    }
  }

  /** On canonical versions the comparison is a total order, and 0 means equal. */
  lemma TotalOrder(a: Version, b: Version, c: Version)
    requires CanonicalVersion(a) && CanonicalVersion(b) && CanonicalVersion(c)
    ensures Compare(a, b) == -Compare(b, a)
    ensures Compare(a, b) == 0 <==> a == b
    ensures Compare(a, b) <= 0 && Compare(b, c) <= 0 ==> Compare(a, c) <= 0
  {
    FieldsAreClear(Fields(a), Fields(b));
    AntisymmetricExactly(a, b);
    if Compare(a, b) <= 0 && Compare(b, c) <= 0 {
      CompareTransitive(a, b, c);
    }
  }

  // ---- section 11 -------------------------------------------------------------

  /** Rules 11.4.1 to 11.4.3. */
  ghost predicate IdentifierPrecedes(x: string, y: string) {
    if AllDigits(x) && AllDigits(y) then DecimalValue(x) < DecimalValue(y)
    else if AllDigits(x) || AllDigits(y) then AllDigits(x)
    else Less(x, y)
  }

  /** Rule 11.4: the first difference decides; rule 11.4.4: more fields win over fewer. */
  ghost predicate DecidedAt(a: seq<string>, b: seq<string>, k: nat) {
    && k <= |a| && k < |b| && a[..k] == b[..k]
    && (k == |a| || (a[k] != b[k] && IdentifierPrecedes(a[k], b[k])))
  }

  ghost predicate FieldsPrecede(a: seq<string>, b: seq<string>) { exists k: nat :: DecidedAt(a, b, k) }

  /** Rules 11.2 to 11.4. */
  ghost predicate Precedes(a: Version, b: Version) {
    a.major < b.major ||
    (a.major == b.major && (a.minor < b.minor ||
    (a.minor == b.minor && (a.patch < b.patch ||
    (a.patch == b.patch && a.pre != "" && (b.pre == "" || FieldsPrecede(Fields(a), Fields(b))))))))
  }

  predicate IdentifierChar(c: char) { IsDigit(c) || 'a' <= c <= 'z' || 'A' <= c <= 'Z' || c == '-' }

  /** An identifier as section 9 allows it. */
  predicate Allowed(id: string) {
    id != "" && (forall c | c in id :: IdentifierChar(c)) && (AllDigits(id) ==> id == "0" || id[0] != '0')
  }

  predicate AllowedVersion(v: Version) { v.pre != "" ==> forall id | id in Fields(v) :: Allowed(id) }

  /** A numeral an int64 holds, a longer one, a hyphen before a numeral an int64 holds, or any other text. */
  datatype Kind = Numeral | Oversize | Hyphened | Word

  function KindOf(id: string): Kind
    requires id != ""
  {
    if AllDigits(id) then (if DecimalValue(id) <= MAX_INT64 then Numeral else Oversize)
    else if id[0] == '-' && |id| > 1 && AllDigits(id[1..]) && DecimalValue(id[1..]) <= -MIN_INT64 then Hyphened
    else Word
  }

  /** The code takes a hyphen for a sign, and an oversize numeral for a text. */
  lemma ReadAsNumber(id: string)
    requires Allowed(id)
    ensures match KindOf(id)
      case Numeral => Atoi(id) == Some(DecimalValue(id))
      case Hyphened => Atoi(id).Some? && Atoi(id).value + DecimalValue(id[1..]) == 0
      case _ => Atoi(id) == None
  {
    assert id[0] in id;
  }

  /** A numeral without leading zeros is the one Itoa writes. */
  lemma {:induction false} ItoaOfValue(id: string)
    requires id != "" && AllDigits(id) && (id == "0" || id[0] != '0')
    ensures Itoa(DecimalValue(id)) == id && (id != "0" ==> DecimalValue(id) > 0)
  {
    var init, last := id[..|id| - 1], id[|id| - 1];
    assert last in id && id == init + [last];
    if init != "" {
      assert init[0] == id[0];
      ItoaOfValue(init);
      assert DecimalValue(id) / 10 == DecimalValue(init);
    } else {
      assert DecimalValue(init) == 0;
    }
  }

  function Pow10(n: nat): (p: nat)
    ensures p > 0
  {
    if n == 0 then 1 else 10 * Pow10(n - 1)
  }

  /** The length of a numeral without leading zeros bounds its value. */
  lemma {:induction false} LengthBounds(id: string)
    requires id != "" && AllDigits(id)
    ensures DecimalValue(id) < Pow10(|id|)
    ensures id[0] != '0' ==> DecimalValue(id) >= Pow10(|id| - 1)
  {
    var init := id[..|id| - 1];
    assert id[|id| - 1] in id && id[0] in id;
    if init != "" {
      assert forall c | c in init :: c in id;
      LengthBounds(init);
    } else {
      assert DecimalValue(init) == 0;
    }
  }

  lemma {:induction false} Pow10Grows(m: nat, n: nat)
    requires m <= n
    ensures Pow10(m) <= Pow10(n)
  {
    if m < n {
      Pow10Grows(m, n - 1);
    }
  }

  lemma {:induction false} LessByLast(x: string, y: string)
    requires |x| == |y| > 0
    ensures var i, j := x[..|x| - 1], y[..|y| - 1];
      Less(x, y) <==> Less(i, j) || (i == j && x[|x| - 1] < y[|y| - 1])
  {
    if |x| > 1 {
      LessByLast(x[1..], y[1..]);
      var i, j := x[..|x| - 1], y[..|y| - 1];
      assert x[1..][..|x| - 2] == i[1..] && y[1..][..|y| - 2] == j[1..];
      assert i == [x[0]] + i[1..] && j == [y[0]] + j[1..];
    }
  }

  /** Numerals of one length are ordered as texts. */
  lemma {:induction false} SameLengthOrder(x: string, y: string)
    requires |x| == |y| && AllDigits(x) && AllDigits(y)
    ensures DecimalValue(x) < DecimalValue(y) <==> Less(x, y)
    ensures DecimalValue(x) == DecimalValue(y) <==> x == y
  {
    if x != "" {
      var i, j := x[..|x| - 1], y[..|y| - 1];
      assert x == i + [x[|x| - 1]] && y == j + [y[|y| - 1]];
      assert (forall c | c in i :: c in x) && (forall c | c in j :: c in y) && x[|x| - 1] in x && y[|y| - 1] in y;
      SameLengthOrder(i, j);
      LessByLast(x, y);
    }
  }

  /** The longer of two numerals without leading zeros is the greater one. */
  lemma LongerIsGreater(x: string, y: string)
    requires Allowed(x) && Allowed(y) && AllDigits(x) && AllDigits(y) && |x| < |y|
    ensures DecimalValue(x) < DecimalValue(y)
  {
    LengthBounds(x);
    LengthBounds(y);
    Pow10Grows(|x|, |y| - 1);
  }

  /**
   Where the code misreads two different identifiers: hyphened numerals, which are texts for section
   11, and oversize numerals, which are numbers.
   */
  predicate Misread(x: string, y: string)
    requires x != "" && y != ""
  {
    match (KindOf(x), KindOf(y))
    case (Numeral, Hyphened) => true
    case (Hyphened, Numeral) => DecimalValue(x[1..]) != 0 || y != "0"
    case (Oversize, Hyphened) => true
    case (Hyphened, Oversize) => true
    case (Hyphened, Hyphened) => Less(x, y) <==> DecimalValue(x[1..]) <= DecimalValue(y[1..])
    case (Oversize, Oversize) => |x| != |y| && (Less(x, y) <==> |x| > |y|)
    case (Hyphened, Word) => Less(y, x)
    case (Word, Hyphened) => Less(x, y)
    case (Oversize, Word) => Less(y, x)
    case (Word, Oversize) => Less(x, y)
    case _ => false
  }

  /** Different numerals have different values, ordered by length and then as texts. */
  lemma NumeralOrder(x: string, y: string)
    requires Allowed(x) && Allowed(y) && AllDigits(x) && AllDigits(y) && x != y
    ensures DecimalValue(x) < DecimalValue(y) <==> |x| < |y| || (|x| == |y| && Less(x, y))
    ensures DecimalValue(x) != DecimalValue(y)
  {
    if |x| < |y| {
      LongerIsGreater(x, y);
    } else if |y| < |x| {
      LongerIsGreater(y, x);
    } else {
      SameLengthOrder(x, y);
    }
  }

  lemma MisreadExactly(x: string, y: string)
    requires Allowed(x) && Allowed(y) && x != y
    ensures (CompareIdentifiers(x, y) == -1 <==> IdentifierPrecedes(x, y)) <==> !Misread(x, y)
  {
    ReadAsNumber(x);
    ReadAsNumber(y);
    LessTotal(x, y);
    if AllDigits(x) && AllDigits(y) {
      NumeralOrder(x, y);
    }
    if KindOf(x) == Hyphened && KindOf(y) == Numeral {
      ValueZero(y);
    }
  }

  lemma ValueZero(id: string)
    requires Allowed(id) && AllDigits(id)
    ensures DecimalValue(id) == 0 <==> id == "0"
  {
    ItoaOfValue(id);
  }

  lemma IdentifiersDecided(x: string, y: string)
    requires Allowed(x) && Allowed(y) && x != y
    ensures IdentifierPrecedes(x, y) <==> !IdentifierPrecedes(y, x)
  {
    LessTotal(x, y);
    if AllDigits(x) && AllDigits(y) {
      NumeralOrder(x, y);
    }
  }

  lemma DecidedLater(a: seq<string>, b: seq<string>, k: nat)
    requires a != [] && b != [] && a[0] == b[0]
    ensures DecidedAt(a, b, k + 1) <==> DecidedAt(a[1..], b[1..], k)
    ensures !DecidedAt(a, b, 0)
  {
  }

  /** Rule 11.4 read from the front. */
  lemma FirstDecides(a: seq<string>, b: seq<string>)
    ensures a == [] ==> (FieldsPrecede(a, b) <==> b != [])
    ensures b == [] ==> !FieldsPrecede(a, b)
    ensures a != [] && b != [] && a[0] == b[0] ==> (FieldsPrecede(a, b) <==> FieldsPrecede(a[1..], b[1..]))
    ensures a != [] && b != [] && a[0] != b[0] ==> (FieldsPrecede(a, b) <==> IdentifierPrecedes(a[0], b[0]))
  {
    if a == [] {
      assert DecidedAt(a, b, 0) <==> b != [];
    } else if b != [] {
      if a[0] == b[0] {
        if k: nat :| DecidedAt(a, b, k) {
          DecidedLater(a, b, if k > 0 then k - 1 else 0);
        }
        if k: nat :| DecidedAt(a[1..], b[1..], k) {
          DecidedLater(a, b, k);
        }
      } else {
        assert DecidedAt(a, b, 0) <==> IdentifierPrecedes(a[0], b[0]);
        assert forall k: nat | 0 < k <= |a| && k < |b| :: a[..k][0] != b[..k][0];
      }
    }
  }

  predicate AllAllowed(ids: seq<string>) { forall id | id in ids :: Allowed(id) }

  /** The first identifiers that differ are misread. */
  predicate FirstMisread(a: seq<string>, b: seq<string>) {
    a != [] && b != [] &&
    if a[0] == b[0] then FirstMisread(a[1..], b[1..]) else a[0] != "" && b[0] != "" && Misread(a[0], b[0])
  }

  /** Section 11 orders different prereleases one way, and the code the same way exactly without a misreading. */
  lemma {:induction false} FieldsAgreeExactly(a: seq<string>, b: seq<string>)
    requires AllAllowed(a) && AllAllowed(b) && a != b
    ensures FieldsPrecede(a, b) <==> !FieldsPrecede(b, a)
    ensures (CompareFields(a, b) == -1 <==> FieldsPrecede(a, b)) <==> !FirstMisread(a, b)
  {
    FirstDecides(a, b);
    FirstDecides(b, a);
    if a != [] && b != [] {
      if a[0] == b[0] {
        assert a == [a[0]] + a[1..] && b == [b[0]] + b[1..];
        FieldsAgreeExactly(a[1..], b[1..]);
      } else {
        MisreadExactly(a[0], b[0]);
        IdentifiersDecided(a[0], b[0]);
      }
    }
  }

  predicate MisreadVersions(a: Version, b: Version) {
    CompareNumbers(a, b) == 0 && a.pre != "" && b.pre != "" && FirstMisread(Fields(a), Fields(b))
  }

  /** The answer section 11 asks for. */
  ghost function SectionOrder(a: Version, b: Version): int { if Precedes(a, b) then -1 else if Precedes(b, a) then 1 else 0 }

  /** Section 11 orders any two different versions in one of the two ways. */
  lemma OneOrderHolds(a: Version, b: Version)
    requires AllowedVersion(a) && AllowedVersion(b)
    ensures SectionOrder(a, b) == 0 <==> a == b
    ensures !(Precedes(a, b) && Precedes(b, a))
  {
    if a.pre != "" && b.pre != "" {
      if a.pre != b.pre {
        FieldsDiffer(a, b);
        FieldsAgreeExactly(Fields(a), Fields(b));
      } else {
        SelfDoesNotPrecede(Fields(a));
      }
    }
  }

  /** The code orders two versions as section 11 does exactly when it does not misread their first different identifiers. */
  lemma MatchesSection11Exactly(a: Version, b: Version)
    requires AllowedVersion(a) && AllowedVersion(b)
    ensures Compare(a, b) == SectionOrder(a, b) <==> !MisreadVersions(a, b)
  {
    if a.pre != "" && b.pre != "" {
      if a.pre != b.pre {
        FieldsDiffer(a, b);
        FieldsAgreeExactly(Fields(a), Fields(b));
      } else {
        SelfDoesNotPrecede(Fields(a));
        SelfIsNotMisread(Fields(a));
      }
    }
  }

  /** And so the answer "not greater" is right exactly then. */
  lemma NotGreaterBySection11(a: Version, b: Version)
    requires AllowedVersion(a) && AllowedVersion(b)
    ensures (Compare(a, b) <= 0 <==> !Precedes(b, a)) <==> !MisreadVersions(a, b)
  {
    MatchesSection11Exactly(a, b);
    OneOrderHolds(a, b);
  }

  lemma SelfDoesNotPrecede(a: seq<string>)
    ensures !FieldsPrecede(a, a)
  {
  }

  lemma {:induction false} SelfIsNotMisread(a: seq<string>)
    ensures !FirstMisread(a, a)
  {
    if a != [] {
      SelfIsNotMisread(a[1..]);
    }
  }

  lemma HyphenedOrder(x: string, y: string)
    requires x != "" && |x| == |y| && AllDigits(x) && AllDigits(y) && DecimalValue(x) < DecimalValue(y) <= MAX_INT64
    ensures Allowed("-" + x) && Allowed("-" + y) && '.' !in "-" + x && '.' !in "-" + y
    ensures IdentifierPrecedes("-" + x, "-" + y) && CompareIdentifiers("-" + x, "-" + y) == 1
  {
    assert '-' in "-" + x && '-' in "-" + y && ("-" + x)[1..] == x && ("-" + y)[1..] == y;
    SameLengthOrder(x, y);
    ReadAsNumber("-" + x);
    ReadAsNumber("-" + y);
  }

  /** Texts for section 11, numbers with a sign for the code. */
  lemma HyphenBreaksSection11()
    ensures var a, b := Version(1, 0, 0, "-" + "1"), Version(1, 0, 0, "-" + "2");
      AllowedVersion(a) && AllowedVersion(b) && Precedes(a, b) && Compare(a, b) == 1
  {
    assert DecimalValue("1") == 1 && DecimalValue("2") == 2 by {
      assert "1"[..0] == "" && "2"[..0] == "";
    }
    HyphenedOrder("1", "2");
    SplitAppend("-" + "1", '.', "");
    SplitAppend("-" + "2", '.', "");
    FirstDecides(["-" + "1"], ["-" + "2"]);
  }

  function Zeros(n: nat): (s: string)
    ensures |s| == n && AllDigits(s)
  {
    if n == 0 then "" else Zeros(n - 1) + "0"
  }

  /** Numbers for section 11, texts for the code: the shorter one is the later text. */
  lemma OversizeBreaksSection11(n: nat, m: nat)
    requires 19 <= n < m
    ensures var a, b := Version(1, 0, 0, "2" + Zeros(n)), Version(1, 0, 0, "1" + Zeros(m));
      AllowedVersion(a) && AllowedVersion(b) && Precedes(a, b) && Compare(a, b) == 1
  {
    var x, y := "2" + Zeros(n), "1" + Zeros(m);
    SplitAppend(x, '.', "");
    SplitAppend(y, '.', "");
    RoundIsOversize(x);
    RoundIsOversize(y);
    LongerIsGreater(x, y);
    FirstDecides([x], [y]);
    ReadAsNumber(x);
    ReadAsNumber(y);
    LessTotal(x, y);
  }

  lemma RoundIsOversize(x: string)
    requires |x| >= 20 && AllDigits(x) && x[0] != '0'
    ensures Allowed(x) && KindOf(x) == Oversize && '.' !in x
  {
    LengthBounds(x);
    Pow10Grows(19, |x| - 1);
    assert Pow10(3) == 1000;
    assert Pow10(6) == 1_000_000;
    assert Pow10(9) == 1_000_000_000;
    assert Pow10(12) == 1_000_000_000_000;
    assert Pow10(15) == 1_000_000_000_000_000;
    assert Pow10(18) == 1_000_000_000_000_000_000;
  }
}

// comparePanelVersions: semantic versions, and the older four- and five-part release IDs.
module PanelVersions {
  import opened Wrappers
  import opened Text
  import opened Versions
  import opened Precedence

  // ---- the numbers in a release ID ---------------------------------------------

  predicate NumericChar(c: char) { IsDigit(c) || c == '.' }

  function FromDigit(s: string): (r: string)
    ensures r != "" ==> IsDigit(r[0])
  {
    if s == "" || IsDigit(s[0]) then s else FromDigit(s[1..])
  }

  function NumericRun(s: string): (r: string)
  {
    if s == "" || !NumericChar(s[0]) then "" else [s[0]] + NumericRun(s[1..])
  }

  function PartValue(part: string): int64 {
    if part != "" && Atoi(part).Some? then Atoi(part).value else 0
  }

  function Values(parts: seq<string>): (r: seq<int64>)
    ensures |r| == |parts|
  {
    seq(|parts|, i requires 0 <= i < |parts| => PartValue(parts[i]))
  }

  function Numbers(s: string): seq<int64> {
    var t := FromDigit(TrimSpace(s));
    if t == "" then [] else Values(Split(Trim(NumericRun(t), '.'), '.'))
  }

  lemma {:induction false} FromDigitAt(s: string, i: nat)
    requires i <= |s| && (forall j | 0 <= j < i :: !IsDigit(s[j])) && (i < |s| ==> IsDigit(s[i]))
    ensures FromDigit(s) == s[i..]
  {
    if i > 0 {
      FromDigitAt(s[1..], i - 1);
    }
  }

  lemma {:induction false} NumericRunTo(s: string, k: nat)
    requires k <= |s| && (forall j | 0 <= j < k :: NumericChar(s[j])) && (k < |s| ==> !NumericChar(s[k]))
    ensures NumericRun(s) == s[..k]
  {
    if k > 0 {
      NumericRunTo(s[1..], k - 1);
    }
  }

  /** The run of digits and dots from the first digit on. */
  method FindRun(s: string) returns (start: nat, end: nat)
    ensures start <= end <= |s| && FromDigit(s) == s[start..] && NumericRun(FromDigit(s)) == s[start..end]
  {
    start := 0;
    while start < |s| && !IsDigit(s[start])
      invariant 0 <= start <= |s| && forall j | 0 <= j < start :: !IsDigit(s[j])
    {
      start := start + 1;
    }
    FromDigitAt(s, start);
    end := start;
    while end < |s| && NumericChar(s[end])
      invariant start <= end <= |s| && forall j | start <= j < end :: NumericChar(s[j])
    {
      end := end + 1;
    }
    NumericRunTo(s[start..], end - start);
    assert s[start..][..end - start] == s[start..end];
  }

  method NumericVersionParts(raw: string) returns (out: seq<int64>)
    ensures out == Numbers(raw)
  {
    var s := TrimSpace(raw);
    var start, end := FindRun(s);
    if start == |s| {
      return [];
    }
    var parts := Split(Trim(s[start..end], '.'), '.');
    out := [];
    for i := 0 to |parts|
      invariant out == Values(parts)[..i]
    {
      out := out + [PartValue(parts[i])];
    }
  }

  // ---- their order ------------------------------------------------------------

  function At(p: seq<int64>, i: nat): int64 { if i < |p| then p[i] else 0 }

  function Longer(p: seq<int64>, q: seq<int64>): nat { if |q| > |p| then |q| else |p| }

  function CompareFrom(p: seq<int64>, q: seq<int64>, i: nat): (r: int)
    requires i <= Longer(p, q)
    ensures -1 <= r <= 1
    decreases Longer(p, q) - i
  {
    if i == Longer(p, q) then 0
    else if At(p, i) > At(q, i) then 1
    else if At(p, i) < At(q, i) then -1
    else CompareFrom(p, q, i + 1)
  }

  function CompareParts(p: seq<int64>, q: seq<int64>): int { CompareFrom(p, q, 0) }

  /** The parts, padded with zeros, first differ at k, where p is smaller. */
  ghost predicate SmallerAt(p: seq<int64>, q: seq<int64>, k: nat) {
    At(p, k) < At(q, k) && forall j: nat | j < k :: At(p, j) == At(q, j)
  }

  lemma {:induction false} CompareFromMeaning(p: seq<int64>, q: seq<int64>, i: nat) returns (k: nat)
    requires i <= Longer(p, q) && forall j: nat | j < i :: At(p, j) == At(q, j)
    ensures CompareFrom(p, q, i) == 0 ==> forall j: nat :: At(p, j) == At(q, j)
    ensures CompareFrom(p, q, i) == -1 ==> SmallerAt(p, q, k)
    ensures CompareFrom(p, q, i) == 1 ==> SmallerAt(q, p, k)
    decreases Longer(p, q) - i
  {
    k := i;
    if i < Longer(p, q) && At(p, i) == At(q, i) {
      k := CompareFromMeaning(p, q, i + 1);
    }
  }

  /** The comparison is the lexicographic one on the zero-padded parts. */
  lemma PartsMeaning(p: seq<int64>, q: seq<int64>)
    ensures CompareParts(p, q) == 0 <==> forall j: nat :: At(p, j) == At(q, j)
    ensures CompareParts(p, q) == -1 <==> exists k: nat :: SmallerAt(p, q, k)
    ensures CompareParts(p, q) == 1 <==> exists k: nat :: SmallerAt(q, p, k)
  {
    var k := CompareFromMeaning(p, q, 0);
    forall i: nat, j: nat ensures !(SmallerAt(p, q, i) && SmallerAt(q, p, j)) {
      if SmallerAt(p, q, i) && i < j {
        assert At(p, i) != At(q, i);
      }
    }
  }

  /** It is a total preorder, and zeros at the end change nothing. */
  lemma PartsPreorder(p: seq<int64>, q: seq<int64>, r: seq<int64>)
    ensures CompareParts(p, q) == -CompareParts(q, p)
    ensures CompareParts(p, q) <= 0 && CompareParts(q, r) <= 0 ==> CompareParts(p, r) <= 0
    ensures CompareParts(p, q) <= 0 && CompareParts(q, r) <= 0 && CompareParts(p, r) == 0 ==> CompareParts(p, q) == 0
    ensures CompareParts(p + [0], q) == CompareParts(p, q)
  {
    PartsMeaning(p, q);
    PartsMeaning(q, p);
    PartsMeaning(q, r);
    PartsMeaning(p, r);
    PartsMeaning(p + [0], q);
    assert forall j: nat :: At(p + [0], j) == At(p, j);
    if i: nat :| SmallerAt(p, q, i) {
      if j: nat :| SmallerAt(q, r, j) {
        assert SmallerAt(p, r, if i < j then i else j);
      } else {
        assert CompareParts(q, r) == 0 ==> SmallerAt(p, r, i);
      }
    } else if j: nat :| SmallerAt(q, r, j) {
      assert CompareParts(p, q) == 0 ==> SmallerAt(p, r, j);
    }
  }

  // ---- the two orders together --------------------------------------------------

  function ComparePanel(a: string, b: string): int {
    if Parse(a).Some? && Parse(b).Some? then Compare(Parse(a).value, Parse(b).value)
    else CompareParts(Numbers(a), Numbers(b))
  }

  method CompareReleaseIDs(ap: seq<int64>, bp: seq<int64>) returns (r: int)
    ensures r == CompareParts(ap, bp)
  {
    var max := |ap|;
    if |bp| > max {
      max := |bp|;
    }
    for i := 0 to max
      invariant CompareParts(ap, bp) == CompareFrom(ap, bp, i)
    {
      var ai, bi := 0, 0;
      if i < |ap| {
        ai := ap[i];
      }
      if i < |bp| {
        bi := bp[i];
      }
      if ai > bi {
        return 1;
      }
      if ai < bi {
        return -1;
      }
    }
    r := 0;
  }

  method ComparePanelVersions(a: string, b: string) returns (r: int)
    ensures r == ComparePanel(a, b)
  {
    var av, aok := ParseSemanticVersion(a);
    var bv, bok := ParseSemanticVersion(b);
    if aok && bok {
      r := CompareSemanticVersion(av, bv);
      return;
    }
    var ap := NumericVersionParts(a);
    var bp := NumericVersionParts(b);
    r := CompareReleaseIDs(ap, bp);
  }

  predicate IsNewer(remote: string, current: string) { ComparePanel(remote, current) > 0 }

  /**
   Two versions are never newer than each other, in either branch - except exactly where both
   parse and their prereleases first differ in one number spelt in two ways.
   */
  lemma NeverBothNewerExactly(a: string, b: string)
    ensures IsNewer(a, b) && IsNewer(b, a) <==>
            Parse(a).Some? && Parse(b).Some? && Ambiguous(Parse(a).value, Parse(b).value)
  {
    if Parse(a).Some? && Parse(b).Some? {
      AntisymmetricExactly(Parse(a).value, Parse(b).value);
    } else {
      PartsPreorder(Numbers(a), Numbers(b), []);
    }
  }

  // ---- how the branches fit -----------------------------------------------------

  predicate Numerals(parts: seq<string>) { forall i | 0 <= i < |parts| :: parts[i] != "" && AllDigits(parts[i]) }

  lemma {:induction false} NumeralsMakeNumericText(s: string)
    requires Numerals(Split(s, '.'))
    ensures s != "" && (forall c | c in s :: NumericChar(c)) && IsDigit(s[0]) && IsDigit(s[|s| - 1])
  {
    var parts := Split(s, '.');
    assert parts[0] != "";
    if s != "" && s[0] != '.' {
      var rest := Split(s[1..], '.');
      assert parts[0] == [s[0]] + rest[0] && parts[0][0] in parts[0];
      if |s| > 1 {
        if s[1] == '.' {
          var later := Split(s[2..], '.');
          assert s[1..][1..] == s[2..] && rest == [""] + later;
          forall i | 0 <= i < |later| ensures later[i] != "" && AllDigits(later[i]) {
            assert later[i] == parts[i + 1];
          }
          NumeralsMakeNumericText(s[2..]);
        } else {
          forall i | 0 <= i < |rest| ensures rest[i] != "" && AllDigits(rest[i]) {
            assert i > 0 ==> rest[i] == parts[i];
            assert forall c | c in rest[0] :: c in parts[0];
          }
          NumeralsMakeNumericText(s[1..]);
        }
      }
    }
  }

  lemma TrimDotsKeeps(s: string)
    requires s != "" && IsDigit(s[0]) && IsDigit(s[|s| - 1])
    ensures Trim(s, '.') == s
  {
  }

  lemma RunStopsAt(s: string, core: string)
    requires core <= s && (forall c | c in core :: NumericChar(c)) && (|core| < |s| ==> s[|core|] == '-')
    ensures NumericRun(s) == core
  {
    assert forall j | 0 <= j < |core| :: s[j] == core[j] && core[j] in core;
    NumericRunTo(s, |core|);
  }

  /** The numeric run of a string that starts with dotted numerals is what stands before the hyphen. */
  lemma RunOfNumerals(s: string)
    requires Numerals(Split(Cut(s, '-').0, '.'))
    ensures s != "" && IsDigit(s[0]) && Trim(NumericRun(s), '.') == Cut(s, '-').0
  {
    var core := Cut(s, '-').0;
    CutShape(s, '-');
    NumeralsMakeNumericText(core);
    RunStopsAt(s, core);
    TrimDotsKeeps(core);
  }

  lemma RunOfText(raw: string)
    requires Numerals(Split(Cut(TrimV(TrimSpace(raw)), '-').0, '.'))
    ensures Numbers(raw) == Values(Split(Cut(TrimV(TrimSpace(raw)), '-').0, '.'))
  {
    var t := TrimSpace(raw);
    var s := TrimV(t);
    RunOfNumerals(s);
    if s == t {
      FromDigitAt(t, 0);
    } else {
      assert t[1] == s[0];
      FromDigitAt(t, 1);
    }
  }

  /** So both branches read the same numbers out of it. */
  lemma NumbersOfParsed(raw: string)
    requires Parse(raw).Some?
    ensures var v, p := Parse(raw).value, Numbers(raw);
      At(p, 0) == v.major && At(p, 1) == v.minor && At(p, 2) == v.patch && |p| <= 3
  {
    var nums := Split(Cut(TrimV(TrimSpace(raw)), '-').0, '.');
    assert forall i | 0 <= i < |nums| :: Number(nums[i]).Some?;
    RunOfText(raw);
    assert forall i | 0 <= i < |nums| :: Number(nums[i]).Some? && PartValue(nums[i]) == Number(nums[i]).value;
  }

  function CompareAt(p: seq<int64>, q: seq<int64>, i: nat, later: int): int {
    if At(p, i) != At(q, i) then Sign(At(p, i), At(q, i)) else later
  }

  lemma CompareStep(p: seq<int64>, q: seq<int64>, i: nat)
    requires i <= Longer(p, q)
    ensures CompareFrom(p, q, i) == if i == Longer(p, q) then 0 else CompareAt(p, q, i, CompareFrom(p, q, i + 1))
  {
  }

  /** Three parts are compared one after the other. */
  lemma FirstThree(p: seq<int64>, q: seq<int64>)
    requires |p| <= 3 && |q| <= 3
    ensures CompareParts(p, q) == CompareAt(p, q, 0, CompareAt(p, q, 1, CompareAt(p, q, 2, 0)))
  {
    var n := Longer(p, q);
    CompareStep(p, q, n);
    if n >= 1 {
      CompareStep(p, q, n - 1);
    }
    if n >= 2 {
      CompareStep(p, q, n - 2);
    }
    if n == 3 {
      CompareStep(p, q, 0);
    }
  }

  /** The semantic comparison only refines the numeric one: it breaks its ties. */
  lemma SemanticRefinesNumeric(a: string, b: string)
    requires Parse(a).Some? && Parse(b).Some?
    ensures CompareParts(Numbers(a), Numbers(b)) == CompareNumbers(Parse(a).value, Parse(b).value)
    ensures CompareParts(Numbers(a), Numbers(b)) != 0 ==> ComparePanel(a, b) == CompareParts(Numbers(a), Numbers(b))
  {
    NumbersOfParsed(a);
    NumbersOfParsed(b);
    FirstThree(Numbers(a), Numbers(b));
  }

  /** A release ID that only the numeric branch reads, between two versions that both branches read. */
  ghost predicate BridgesBranches(a: string, b: string, c: string) {
    Parse(a).Some? && Parse(b).None? && Parse(c).Some?
  }

  /**
   The panel comparison is transitive along a <= b <= c for all texts, except exactly where a and c
   parse, b does not, and a has the numbers of c and the greater prerelease.
   */
  lemma TransitiveExactly(a: string, b: string, c: string)
    requires ComparePanel(a, b) <= 0 && ComparePanel(b, c) <= 0
    ensures ComparePanel(a, c) <= 0 <==>
            !(BridgesBranches(a, b, c) && CompareNumbers(Parse(a).value, Parse(c).value) == 0 &&
              OutranksByPrerelease(Parse(a).value, Parse(c).value))
  {
    PartsPreorder(Numbers(a), Numbers(b), Numbers(c));
    if Parse(a).Some? && Parse(b).Some? {
      SemanticRefinesNumeric(a, b);
    }
    if Parse(b).Some? && Parse(c).Some? {
      SemanticRefinesNumeric(b, c);
    }
    if Parse(a).Some? && Parse(c).Some? {
      SemanticRefinesNumeric(a, c);
      if Parse(b).Some? {
        CompareTransitive(Parse(a).value, Parse(b).value, Parse(c).value);
      }
      if CompareNumbers(Parse(a).value, Parse(c).value) == 0 {
        GreaterByPrerelease(Parse(a).value, Parse(c).value);
      }
    }
  }

  /**
   With identifiers that section 9 allows, that is the case where c precedes a by section 11, unless
   the code misreads the first of their identifiers that differ.
   */
  lemma TransitiveBySection11(a: string, b: string, c: string)
    requires ComparePanel(a, b) <= 0 && ComparePanel(b, c) <= 0 && BridgesBranches(a, b, c)
    requires AllowedVersion(Parse(a).value) && AllowedVersion(Parse(c).value)
    ensures (ComparePanel(a, c) <= 0 <==> !Precedes(Parse(c).value, Parse(a).value)) <==> !MisreadVersions(Parse(a).value, Parse(c).value)
  {
    NotGreaterBySection11(Parse(a).value, Parse(c).value);
  }

  // ---- what a release ID says -----------------------------------------------------

  /** Runs of digits, some of them perhaps empty, but neither the first nor the last. */
  predicate DottedDigits(parts: seq<string>) {
    parts != [] && parts[0] != "" && parts[|parts| - 1] != "" && forall i | 0 <= i < |parts| :: AllDigits(parts[i])
  }

  lemma {:induction false} SplitOfDigits(parts: seq<string>)
    requires parts != [] && parts[|parts| - 1] != "" && forall i | 0 <= i < |parts| :: AllDigits(parts[i])
    ensures var s := Join(parts, ".");
      && Split(s, '.') == parts && (forall c | c in s :: NumericChar(c))
      && s != "" && IsDigit(s[|s| - 1]) && (parts[0] != "" ==> IsDigit(s[0]))
  {
    var first := parts[0];
    assert first != "" ==> first[0] in first && first[|first| - 1] in first;
    if |parts| == 1 {
      SplitAppend(first, '.', "");
    } else {
      SplitOfDigits(parts[1..]);
      SplitAppend(first, '.', Join(parts[1..], "."));
      assert Join(parts, ".") == first + ['.'] + Join(parts[1..], ".");
      assert parts == [first] + parts[1..];
    }
  }

  /** The first digit of a text starts its run, which ends before the first character that is no digit and no dot. */
  lemma RunIsFound(head: string, run: string, tail: string)
    requires run != "" && IsDigit(run[0]) && (forall c | c in run :: NumericChar(c))
    requires (forall c | c in head :: !IsDigit(c)) && (tail != "" ==> !NumericChar(tail[0]))
    ensures FromDigit(head + run + tail) == run + tail && NumericRun(run + tail) == run
  {
    var s := head + run + tail;
    assert forall j | 0 <= j < |head| :: s[j] == head[j] && head[j] in head;
    FromDigitAt(s, |head|);
    assert s[|head|..] == run + tail;
    assert forall j | 0 <= j < |run| :: (run + tail)[j] == run[j] && run[j] in run;
    NumericRunTo(run + tail, |run|);
  }

  lemma PartSays(part: string)
    requires AllDigits(part)
    ensures PartValue(part) == if DecimalValue(part) <= MAX_INT64 then DecimalValue(part) else 0
  {
    assert part != "" ==> part[0] in part;
  }

  lemma RunIsTrimmed(parts: seq<string>, dots: nat)
    requires DottedDigits(parts)
    ensures var run := Join(parts, ".") + Repeat('.', dots);
      && run != "" && IsDigit(run[0]) && (forall c | c in run :: NumericChar(c))
      && Split(Trim(run, '.'), '.') == parts
  {
    var core := Join(parts, ".");
    SplitOfDigits(parts);
    TrimDrops('.', 0, core, dots);
    assert Repeat('.', 0) + core + Repeat('.', dots) == core + Repeat('.', dots);
    assert forall c | c in core + Repeat('.', dots) :: c in core || c == '.';
  }

  /**
   The numbers of a release ID, with any blanks around it, any text without digits before them and
   any suffix after them: each run of digits is its decimal value, an empty one or one beyond an int64 zero.
   */
  lemma ReleaseIDSays(before: string, head: string, parts: seq<string>, dots: nat, tail: string, after: string)
    requires AllBlank(before) && AllBlank(after) && DottedDigits(parts)
    requires (forall c | c in head :: !IsDigit(c)) && (tail != "" ==> !NumericChar(tail[0]))
    requires Trimmed(head + (Join(parts, ".") + Repeat('.', dots)) + tail)
    ensures var out := Numbers(before + (head + (Join(parts, ".") + Repeat('.', dots)) + tail) + after);
      |out| == |parts| && forall i | 0 <= i < |parts| ::
        out[i] == if DecimalValue(parts[i]) <= MAX_INT64 then DecimalValue(parts[i]) else 0
  {
    var run := Join(parts, ".") + Repeat('.', dots);
    RunIsTrimmed(parts, dots);
    TrimSpaceDrops(before, head + run + tail, after);
    RunIsFound(head, run, tail);
    forall i | 0 <= i < |parts| ensures PartValue(parts[i]) == if DecimalValue(parts[i]) <= MAX_INT64 then DecimalValue(parts[i]) else 0 {
      PartSays(parts[i]);
    }
  }

  /** A release, spelt as its tag, is newer than each of its prereleases and older than none. */
  lemma TagBeatsPrerelease(before: string, v: Version, after: string, pre: string)
    requires AllBlank(before) && AllBlank(after) && v.major >= 0 && v.minor >= 0 && v.patch >= 0 && v.pre == ""
    requires Writable(pre) && pre != ""
    ensures ComparePanel(before + "v" + Show(v) + after, Show(v.(pre := pre))) == 1
    ensures ComparePanel(Show(v.(pre := pre)), before + "v" + Show(v) + after) == -1
  {
    TagParses(before, v, after);
    ParseShow(v.(pre := pre));
  }

  /** Numbers decide before any prerelease does, tagged or not. */
  lemma TagsByNumbers(a: Version, b: Version)
    requires a.major >= 0 && a.minor >= 0 && a.patch >= 0 && Writable(a.pre)
    requires b.major >= 0 && b.minor >= 0 && b.patch >= 0 && Writable(b.pre)
    requires a.major > b.major || (a.major == b.major && (a.minor > b.minor || (a.minor == b.minor && a.patch > b.patch)))
    ensures ComparePanel("v" + Show(a), Show(b)) == 1 && ComparePanel(Show(b), "v" + Show(a)) == -1
  {
    TagParses("", a, "");
    assert "" + "v" + Show(a) + "" == "v" + Show(a);
    ParseShow(b);
  }

  lemma FourNumerals(s: string)
    requires |Split(s, '.')| == 4 && Numerals(Split(s, '.'))
    requires Trimmed(s) && TrimV(s) == s && '-' !in s
    ensures Parse(s).None? && Numbers(s) == Values(Split(s, '.'))
  {
    TrimSpaceIsTrimmed(s);
    CutAppend(s, '-', "");
    RunOfText(s);
  }

  lemma FourParts(s: string)
    requires s == "1" + ['.'] + ("0" + "." + "0" + "." + "0")
    ensures Parse(s).None? && Numbers(s) == [1, 0, 0, 0]
  {
    SplitThree("0", "0", "0");
    SplitAppend("1", '.', "0" + "." + "0" + "." + "0");
    assert Split(s, '.') == ["1", "0", "0", "0"];
    FourNumerals(s);
    AtoiItoa(0);
    AtoiItoa(1);
    assert Itoa(1) == "1" && Itoa(0) == "0";
  }

  lemma SamePaddedParts(p: seq<int64>)
    requires |p| <= 3 && At(p, 0) == 1 && At(p, 1) == 0 && At(p, 2) == 0
    ensures CompareParts(p, [1, 0, 0, 0]) == 0 && CompareParts([1, 0, 0, 0], p) == 0
  {
    var q: seq<int64> := [1, 0, 0, 0];
    assert forall j: nat | j >= 3 :: At(p, j) == At(q, j) == 0;
    PartsMeaning(p, q);
    PartsMeaning(q, p);
  }

  lemma WithoutPatchOnly(v: Version)
    requires v.major == 1 && v.minor == 0 && v.patch == 0 && Writable(v.pre)
    ensures Parse(Show(v)) == Some(v)
    ensures CompareParts(Numbers(Show(v)), [1, 0, 0, 0]) == 0 && CompareParts([1, 0, 0, 0], Numbers(Show(v))) == 0
  {
    ParseShow(v);
    NumbersOfParsed(Show(v));
    SamePaddedParts(Numbers(Show(v)));
  }

  /** The case above happens: 1.0.0 <= 1.0.0.0 <= 1.0.0-rc, and yet 1.0.0 > 1.0.0-rc. */
  lemma NotTransitive() returns (a: string, b: string, c: string)
    ensures ComparePanel(a, b) == 0 && ComparePanel(b, c) == 0 && ComparePanel(a, c) == 1
  {
    a := Show(Version(1, 0, 0, ""));
    b := "1" + ['.'] + ("0" + "." + "0" + "." + "0");
    c := Show(Version(1, 0, 0, "rc"));
    WithoutPatchOnly(Version(1, 0, 0, ""));
    WithoutPatchOnly(Version(1, 0, 0, "rc"));
    FourParts(b);
  }
}
