// The agent's reading of Xray's per-client counters (agent/cmd/agent/traffic.go:43-101).

module Counters {
  import opened Wrappers
  import opened Text

  /** One counter as the StatsService reports it; a value left out is the empty text. */
  datatype Stat = Stat(name: string, value: string)

  datatype Direction = Up | Down

  datatype Traffic = Traffic(uplink: int64, downlink: int64)

  // ---- names --------------------------------------------------------------------

  /** strings.Split(s, ">>>") */
  function SplitArrows(s: string): (parts: seq<string>)
    ensures |parts| >= 1
  {
    if |s| < 3 then [s]
    else if s[..3] == ">>>" then [""] + SplitArrows(s[3..])
    else
      var rest := SplitArrows(s[1..]);
      [[s[0]] + rest[0]] + rest[1..]
  }

  lemma JoinAfter(head: string, rest: seq<string>, sep: string)
    requires |rest| >= 1
    ensures Join([head] + rest, sep) == head + sep + Join(rest, sep)
  {
  }

  lemma JoinPrefixed(c: string, rest: seq<string>, sep: string)
    requires |rest| >= 1
    ensures Join([c + rest[0]] + rest[1..], sep) == c + Join(rest, sep)
  {
  }

  lemma {:induction false} JoinArrows(s: string)
    ensures Join(SplitArrows(s), ">>>") == s
  {
    if |s| >= 3 {
      if s[..3] == ">>>" {
        JoinArrows(s[3..]);
        JoinAfter("", SplitArrows(s[3..]), ">>>");
      } else {
        JoinArrows(s[1..]);
        JoinPrefixed([s[0]], SplitArrows(s[1..]), ">>>");
      }
    }
  }

  function DirectionName(d: Direction): string { if d == Up then "uplink" else "downlink" }

  /** The client and direction a counter is about; None for counters the agent skips. */
  function Counter(name: string): Option<(string, Direction)> {
    var parts := SplitArrows(name);
    if |parts| != 4 || parts[0] != "user" || !("client_" <= parts[1]) || parts[2] != "traffic" || parts[1] == "client_" then None
    else if parts[3] == "uplink" then Some((parts[1][7..], Up))
    else if parts[3] == "downlink" then Some((parts[1][7..], Down))
    else None
  }

  function CounterName(id: string, d: Direction): string {
    Join(["user", "client_" + id, "traffic", DirectionName(d)], ">>>")
  }

  /** A counter is about one client and direction only if it has that one's name. */
  lemma CounterDeterminesName(name: string)
    requires Counter(name).Some?
    ensures var (id, d) := Counter(name).value; name == CounterName(id, d) && id != ""
  {
    JoinArrows(name);
    var parts := SplitArrows(name);
    var (id, d) := Counter(name).value;
    assert parts[1] == "client_" + id;
    assert parts == ["user", "client_" + id, "traffic", DirectionName(d)];
  }

  lemma {:induction false} SplitHead(head: string, tail: string)
    requires '>' !in head
    ensures SplitArrows(head) == [head] && SplitArrows(head + ">>>" + tail) == [head] + SplitArrows(tail)
  {
    var s := head + ">>>" + tail;
    if head == "" {
      assert s[..3] == ">>>" && s[3..] == tail;
    } else {
      SplitHead(head[1..], tail);
      assert s[0] == head[0] && s[..3][0] == head[0] && s[1..] == head[1..] + ">>>" + tail;
      assert head == [head[0]] + head[1..];
      assert |head| >= 3 ==> head[..3][0] == head[0];
    }
  }

  lemma {:induction false} SplitJoin(parts: seq<string>)
    requires parts != [] && forall p | p in parts :: '>' !in p
    ensures SplitArrows(Join(parts, ">>>")) == parts
  {
    assert parts == [parts[0]] + parts[1..] && parts[0] in parts;
    if |parts| == 1 {
      SplitHead(parts[0], "");
    } else {
      assert forall p | p in parts[1..] :: p in parts;
      SplitHead(parts[0], Join(parts[1..], ">>>"));
      SplitJoin(parts[1..]);
    }
  }

  /** The label the config generator gives a client comes back as that client. */
  lemma LabelIsReadBack(id: string, d: Direction)
    requires id != "" && '>' !in id
    ensures Counter(CounterName(id, d)) == Some((id, d))
  {
    var client := "client_" + id;
    SplitJoin(["user", client, "traffic", DirectionName(d)]);
    assert client[..7] == "client_" && client[7..] == id;
  }

  // ---- values -------------------------------------------------------------------

  /** The counter a raw value stands for; protobuf leaves out a zero. */
  function Value(raw: string): (r: Option<int64>)
    ensures r.Some? ==> r.value >= 0
  {
    if raw == "" then Some(0)
    else
      var v := Atoi(Trim(raw, '"'));
      if v.None? || v.value < 0 then None else v
  }

  /** The spellings of a natural number in a response: a JSON number, a JSON string, or left out when zero. */
  predicate Spells(raw: string, n: nat) {
    raw == Itoa(n) || raw == "\"" + Itoa(n) + "\"" || (raw == "" && n == 0)
  }

  lemma UnquotedIsKept(s: string)
    requires s != "" && s[0] != '"' && s[|s| - 1] != '"'
    ensures Trim(s, '"') == s && Trim("\"" + s + "\"", '"') == s
  {
    TrimDrops('"', 0, s, 0);
    TrimDrops('"', 1, s, 1);
    assert Repeat('"', 0) + s + Repeat('"', 0) == s && Repeat('"', 1) + s + Repeat('"', 1) == "\"" + s + "\"";
  }

  lemma NumeralEnds(n: nat)
    ensures var s := Itoa(n); IsDigit(s[0]) && IsDigit(s[|s| - 1])
  {
    var s := Itoa(n);
    assert s[0] in s && s[|s| - 1] in s;
  }

  /** Every natural number within int64 is read as itself, however it is spelt. */
  lemma ValueOfNumber(raw: string, n: nat)
    requires n <= MAX_INT64 && Spells(raw, n)
    ensures Value(raw) == Some(n)
  {
    NumeralEnds(n);
    UnquotedIsKept(Itoa(n));
    AtoiItoa(n);
  }

  /** Negative numbers, numbers beyond int64 and texts that are no numbers are refused. */
  lemma ValueRefused(n: nat, text: string, i: nat)
    ensures n > 0 ==> Value("-" + Itoa(n)) == None && Value("\"-" + Itoa(n) + "\"") == None
    ensures n > MAX_INT64 ==> Value(Itoa(n)) == None && Value("\"" + Itoa(n) + "\"") == None
    ensures i < |text| && text[0] != '"' && text[|text| - 1] != '"' && !IsDigit(text[i]) && text[i] !in "+-" ==>
      Value(text) == None && Value("\"" + text + "\"") == None
  {
    NumeralEnds(n);
    UnquotedIsKept(Itoa(n));
    UnquotedIsKept("-" + Itoa(n));
    assert "\"" + ("-" + Itoa(n)) + "\"" == "\"-" + Itoa(n) + "\"";
    AtoiOfSigned(n);
    if i < |text| && text[0] != '"' && text[|text| - 1] != '"' && !IsDigit(text[i]) && text[i] !in "+-" {
      UnquotedIsKept(text);
      AtoiOfText(text, i);
    }
  }

  // ---- what a response says -------------------------------------------------------

  predicate Counts(s: Stat) { Counter(s.name).Some? }

  /** The value reported for one client and direction. */
  ghost function ReportedValue(stats: seq<Stat>, id: string, d: Direction): (r: Option<int64>)
    ensures r.Some? ==> r.value >= 0
  {
    if stats == [] then None
    else
      var last := stats[|stats| - 1];
      if Counter(last.name) == Some((id, d)) then Value(last.value) else ReportedValue(stats[..|stats| - 1], id, d)
  }

  ghost predicate NoneTwice(stats: seq<Stat>) {
    forall i, j | 0 <= i < j < |stats| && Counts(stats[i]) :: stats[i].name != stats[j].name
  }

  ghost predicate Readable(stats: seq<Stat>) { forall s | s in stats && Counts(s) :: Value(s.value).Some? }

  ghost predicate TotalFits(stats: seq<Stat>, id: string) {
    ReportedValue(stats, id, Up).Some? && ReportedValue(stats, id, Down).Some? ==>
    ReportedValue(stats, id, Up).value + ReportedValue(stats, id, Down).value <= MAX_INT64
  }

  ghost predicate WellFormed(stats: seq<Stat>) {
    NoneTwice(stats) && Readable(stats) && forall id :: TotalFits(stats, id)
  }

  ghost predicate TabulatesOne(stats: seq<Stat>, id: string, table: map<string, Traffic>) {
    (id in table <==> ReportedValue(stats, id, Up).Some? && ReportedValue(stats, id, Down).Some?) &&
    (id in table ==> Some(table[id].uplink) == ReportedValue(stats, id, Up) && Some(table[id].downlink) == ReportedValue(stats, id, Down))
  }

  /** The table of exactly the clients with both directions, at the values reported. */
  ghost predicate Tabulates(stats: seq<Stat>, table: map<string, Traffic>) { forall id :: TabulatesOne(stats, id, table) }

  ghost predicate Reports(stats: seq<Stat>, id: string, d: Direction, v: int64) {
    exists s | s in stats :: Counter(s.name) == Some((id, d)) && Value(s.value) == Some(v)
  }

  /** Without repeats, a counter that is last is the only one of its client and direction. */
  lemma LastIsOnly(stats: seq<Stat>, s: Stat)
    requires stats != [] && NoneTwice(stats) && s in stats && Counts(s)
    requires Counter(s.name) == Counter(stats[|stats| - 1].name)
    ensures s == stats[|stats| - 1]
  {
    CounterDeterminesName(s.name);
    CounterDeterminesName(stats[|stats| - 1].name);
    var i :| 0 <= i < |stats| && stats[i] == s;
    assert i == |stats| - 1;
  }

  /** Among acceptable counters the reading is the one value reported, wherever it stands. */
  lemma {:induction false} ReadingIsReported(stats: seq<Stat>, id: string, d: Direction, v: int64)
    requires NoneTwice(stats) && Readable(stats)
    ensures ReportedValue(stats, id, d) == Some(v) <==> Reports(stats, id, d, v)
  {
    if stats != [] {
      var init, last := stats[..|stats| - 1], stats[|stats| - 1];
      assert stats == init + [last];
      if Counter(last.name) == Some((id, d)) {
        if s :| s in stats && Counter(s.name) == Some((id, d)) && Value(s.value) == Some(v) {
          LastIsOnly(stats, s);
        }
      } else {
        ReadingIsReported(init, id, d, v);
        assert Reports(init, id, d, v) <==> Reports(stats, id, d, v);
      }
    }
  }

  // ---- the parser -----------------------------------------------------------------

  function OrZero(v: Option<int64>): int64 { if v.Some? then v.value else 0 }

  function Bits(up: bool, down: bool): bv2 { (if up then 1 else 0) | (if down then 2 else 0) }

  function BitOf(d: Direction): bv2 { if d == Up then 1 else 2 }

  function Put(c: Traffic, d: Direction, v: int64): Traffic {
    if d == Up then c.(uplink := v) else c.(downlink := v)
  }

  /** What the tables hold for one client. */
  ghost predicate Entry(stats: seq<Stat>, id: string, out: map<string, Traffic>, directions: map<string, bv2>) {
    var up, down := ReportedValue(stats, id, Up), ReportedValue(stats, id, Down);
    (id in out <==> up.Some? || down.Some?) && (id in directions <==> id in out) &&
    (id in out ==> out[id] == Traffic(OrZero(up), OrZero(down)) && id in directions && directions[id] == Bits(up.Some?, down.Some?))
  }

  ghost predicate Seen(stats: seq<Stat>, seen: set<string>) {
    forall n :: n in seen <==> Counter(n).Some? && exists i | 0 <= i < |stats| :: stats[i].name == n
  }

  /** What the three tables hold after some counters. */
  ghost predicate Tally(stats: seq<Stat>, seen: set<string>, out: map<string, Traffic>, directions: map<string, bv2>) {
    Seen(stats, seen) && forall id :: Entry(stats, id, out, directions)
  }

  lemma ReadingOfNext(stats: seq<Stat>, s: Stat, id: string, d: Direction)
    ensures ReportedValue(stats + [s], id, d) == if Counter(s.name) == Some((id, d)) then Value(s.value) else ReportedValue(stats, id, d)
  {
  }

  lemma SkipTally(stats: seq<Stat>, s: Stat, seen: set<string>, out: map<string, Traffic>, directions: map<string, bv2>)
    requires Tally(stats, seen, out, directions) && WellFormed(stats) && !Counts(s)
    ensures Tally(stats + [s], seen, out, directions) && WellFormed(stats + [s])
  {
    forall id, d ensures ReportedValue(stats + [s], id, d) == ReportedValue(stats, id, d) {
      ReadingOfNext(stats, s, id, d);
    }
    forall id ensures TotalFits(stats + [s], id) && Entry(stats + [s], id, out, directions) {
      assert TotalFits(stats, id) && Entry(stats, id, out, directions);
    }
    forall n | Counter(n).Some? && exists i | 0 <= i < |stats| :: stats[i].name == n
      ensures exists i | 0 <= i < |stats + [s]| :: (stats + [s])[i].name == n
    {
      var i :| 0 <= i < |stats| && stats[i].name == n;
      assert (stats + [s])[i].name == n;
    }
  }

  lemma ReadingsAfter(stats: seq<Stat>, s: Stat)
    requires Counts(s)
    ensures forall x, e :: ReportedValue(stats + [s], x, e) == if Counter(s.name) == Some((x, e)) then Value(s.value) else ReportedValue(stats, x, e)
  {
  }

  /** A counter that is new and readable enters the tables. */
  lemma CountTally(stats: seq<Stat>, s: Stat, seen: set<string>, out: map<string, Traffic>, directions: map<string, bv2>)
    requires Tally(stats, seen, out, directions) && NoneTwice(stats)
    requires Counts(s) && s.name !in seen && Value(s.value).Some?
    ensures var (id, d) := Counter(s.name).value;
      var c := Put(if id in out then out[id] else Traffic(0, 0), d, Value(s.value).value);
      var marks := (if id in directions then directions[id] else 0) | BitOf(d);
      Tally(stats + [s], seen + {s.name}, out[id := c], directions[id := marks])
  {
    NewName(stats, s, seen);
    ReadingsAfter(stats, s);
    var (id, d) := Counter(s.name).value;
    var c := Put(if id in out then out[id] else Traffic(0, 0), d, Value(s.value).value);
    var marks := (if id in directions then directions[id] else 0) | BitOf(d);
    var out', directions' := out[id := c], directions[id := marks];
    assert Entry(stats, id, out, directions);
    forall x ensures Entry(stats + [s], x, out', directions') {
      assert Entry(stats, x, out, directions);
    }
  }

  /** Whether the counters stay acceptable with it is then up to its client's total. */
  lemma CountDecides(stats: seq<Stat>, s: Stat)
    requires WellFormed(stats) && NoneTwice(stats + [s])
    requires Counts(s) && Value(s.value).Some?
    ensures var (id, d) := Counter(s.name).value;
      WellFormed(stats + [s]) <==>
      OrZero(ReportedValue(stats + [s], id, Up)) <= MAX_INT64 - OrZero(ReportedValue(stats + [s], id, Down))
  {
    var (id, d) := Counter(s.name).value;
    var all := stats + [s];
    ReadingsAfter(stats, s);
    forall x ensures x != id ==> TotalFits(all, x) {
      assert TotalFits(stats, x);
    }
    assert TotalFits(all, id) <==> OrZero(ReportedValue(all, id, Up)) <= MAX_INT64 - OrZero(ReportedValue(all, id, Down));
  }

  lemma NewName(stats: seq<Stat>, s: Stat, seen: set<string>)
    requires Seen(stats, seen)
    requires Counts(s) && s.name !in seen
    requires NoneTwice(stats)
    ensures NoneTwice(stats + [s])
    ensures Seen(stats + [s], seen + {s.name})
  {
    var all := stats + [s];
    assert all[|stats|] == s;
    forall i, j | 0 <= i < j < |all| && Counts(all[i]) ensures all[i].name != all[j].name {
      assert all[i] == stats[i];
    }
    forall n ensures n in seen + {s.name} <==> Counter(n).Some? && exists i | 0 <= i < |all| :: all[i].name == n {
      if n in seen {
        var i :| 0 <= i < |stats| && stats[i].name == n;
        assert all[i].name == n;
      }
    }
  }

  /** A prefix of acceptable counters is acceptable. */
  lemma {:induction false} PrefixWellFormed(stats: seq<Stat>, k: nat)
    requires k <= |stats| && WellFormed(stats)
    ensures WellFormed(stats[..k])
    decreases |stats|
  {
    if k < |stats| {
      var init, last := stats[..|stats| - 1], stats[|stats| - 1];
      assert init + [last] == stats;
      forall id ensures TotalFits(init, id) {
        assert TotalFits(stats, id);
        ReadingOfNext(init, last, id, Up);
        ReadingOfNext(init, last, id, Down);
        if Counts(last) && Counter(last.name).value.0 == id {
          NotYetRead(init, last);
        }
      }
      PrefixWellFormed(init, k);
      assert init[..k] == stats[..k];
    } else {
      assert stats[..k] == stats;
    }
  }

  lemma {:induction false} NotYetRead(init: seq<Stat>, last: Stat)
    requires Counts(last) && NoneTwice(init + [last])
    ensures var (id, d) := Counter(last.name).value; ReportedValue(init, id, d).None?
  {
    if init != [] {
      var (id, d) := Counter(last.name).value;
      var front, previous := init[..|init| - 1], init[|init| - 1];
      var all := init + [last];
      assert all[|init| - 1] == previous && all[|init|] == last;
      if Counter(previous.name) == Some((id, d)) {
        CounterDeterminesName(previous.name);
        CounterDeterminesName(last.name);
      }
      forall i, j | 0 <= i < j < |front + [last]| && Counts((front + [last])[i])
        ensures (front + [last])[i].name != (front + [last])[j].name
      {
        assert all[i] == (front + [last])[i];
        assert (front + [last])[j] == all[if j < |front| then j else |init|];
      }
      NotYetRead(front, last);
    }
  }

  function BothDirections(table: map<string, Traffic>, directions: map<string, bv2>): map<string, Traffic> {
    map id | id in table && id in directions && directions[id] == 3 :: table[id]
  }

  /** Forget the clients of whom one direction is missing. */
  method DropPartial(table: map<string, Traffic>, directions: map<string, bv2>) returns (out: map<string, Traffic>)
    requires table.Keys == directions.Keys
    ensures out == BothDirections(table, directions)
  {
    out := table;
    var todo := table.Keys;
    while todo != {}
      invariant todo <= table.Keys
      invariant out == map id | id in table && (id in todo || directions[id] == 3) :: table[id]
      decreases todo
    {
      var id :| id in todo;
      todo := todo - {id};
      if directions[id] != 3 {
        out := out - {id};
      }
    }
  }

  lemma DroppedTabulates(stats: seq<Stat>, seen: set<string>, out: map<string, Traffic>, directions: map<string, bv2>)
    requires Tally(stats, seen, out, directions)
    ensures out.Keys == directions.Keys
    ensures Tabulates(stats, BothDirections(out, directions))
  {
    var table := BothDirections(out, directions);
    forall id ensures id in out <==> id in directions {
      assert Entry(stats, id, out, directions);
    }
    forall id ensures TabulatesOne(stats, id, table) {
      assert Entry(stats, id, out, directions);
    }
  }

  lemma RefusedBefore(stats: seq<Stat>, k: nat)
    requires k <= |stats| && !WellFormed(stats[..k])
    ensures !WellFormed(stats)
  {
    if WellFormed(stats) {
      PrefixWellFormed(stats, k);
    }
  }

  lemma RepeatRefused(stats: seq<Stat>, i: nat, seen: set<string>)
    requires i < |stats| && Seen(stats[..i], seen) && stats[i].name in seen
    ensures !WellFormed(stats)
  {
  }

  /** One counting step of the parser, at position i. */
  lemma CountStep(stats: seq<Stat>, i: nat, seen: set<string>, out: map<string, Traffic>, directions: map<string, bv2>)
    requires i < |stats| && Tally(stats[..i], seen, out, directions) && WellFormed(stats[..i])
    requires Counts(stats[i]) && stats[i].name !in seen && Value(stats[i].value).Some?
    ensures var (id, d) := Counter(stats[i].name).value;
      var c := Put(if id in out then out[id] else Traffic(0, 0), d, Value(stats[i].value).value);
      var marks := (if id in directions then directions[id] else 0) | BitOf(d);
      if c.uplink > MAX_INT64 - c.downlink then !WellFormed(stats)
      else WellFormed(stats[..i + 1]) && Tally(stats[..i + 1], seen + {stats[i].name}, out[id := c], directions[id := marks])
  {
    var s := stats[i];
    var (id, d) := Counter(s.name).value;
    var c := Put(if id in out then out[id] else Traffic(0, 0), d, Value(s.value).value);
    var marks := (if id in directions then directions[id] else 0) | BitOf(d);
    assert stats[..i + 1] == stats[..i] + [s];
    NewName(stats[..i], s, seen);
    CountTally(stats[..i], s, seen, out, directions);
    CountDecides(stats[..i], s);
    assert Entry(stats[..i + 1], id, out[id := c], directions[id := marks]);
    if !WellFormed(stats[..i + 1]) {
      RefusedBefore(stats, i + 1);
    }
  }

  /**
   The parser accepts exactly the acceptable responses - no counter twice, every value a natural
   int64, no client's total beyond int64 - and then lists exactly the clients with both directions.
   */
  method ParseTraffic(stats: seq<Stat>) returns (r: Result<map<string, Traffic>>)
    ensures r.Ok? <==> WellFormed(stats)
    ensures r.Ok? ==> Tabulates(stats, r.value)
  {
    var out: map<string, Traffic> := map[];
    var seen: set<string> := {};
    var directions: map<string, bv2> := map[];
    for i := 0 to |stats|
      invariant Tally(stats[..i], seen, out, directions) && WellFormed(stats[..i])
    {
      var stat := stats[i];
      var counter := Counter(stat.name);
      if counter.None? {
        assert stats[..i + 1] == stats[..i] + [stat];
        SkipTally(stats[..i], stat, seen, out, directions);
        continue;
      }
      var (id, d) := counter.value;
      if stat.name in seen {
        RepeatRefused(stats, i, seen);
        return Err("duplicate stats counter");
      }
      var value := Value(stat.value);
      if value.None? {
        assert stat in stats;
        return Err("invalid stats counter");
      }
      CountStep(stats, i, seen, out, directions);
      seen := seen + {stat.name};
      var c := Put(if id in out then out[id] else Traffic(0, 0), d, value.value);
      directions := directions[id := (if id in directions then directions[id] else 0) | BitOf(d)];
      if c.uplink > MAX_INT64 - c.downlink {
        return Err("stats total overflow");
      }
      out := out[id := c];
    }
    assert stats[..|stats|] == stats;
    DroppedTabulates(stats, seen, out, directions);
    out := DropPartial(out, directions);
    r := Ok(out);
  }

  // ---- order does not matter -----------------------------------------------------

  lemma {:induction false} TwiceInside(stats: seq<Stat>, s: Stat) returns (i: nat, j: nat)
    requires multiset(stats)[s] >= 2
    ensures i < j < |stats| && stats[i] == stats[j] == s
  {
    var init, last := stats[..|stats| - 1], stats[|stats| - 1];
    assert stats == init + [last];
    if last == s {
      assert s in multiset(init);
      i :| 0 <= i < |init| && init[i] == s;
      j := |init|;
    } else {
      i, j := TwiceInside(init, s);
    }
  }

  lemma RepeatsMove(a: seq<Stat>, b: seq<Stat>)
    requires multiset(a) == multiset(b) && NoneTwice(a)
    ensures NoneTwice(b)
  {
    forall i, j | 0 <= i < j < |b| && Counts(b[i]) ensures b[i].name != b[j].name {
      if b[i].name == b[j].name {
        assert b[i] in multiset(b) && b[j] in multiset(b);
        if b[i] == b[j] {
          assert b == b[..i] + [b[i]] + b[i + 1..j] + [b[j]] + b[j + 1..];
          assert multiset(b)[b[i]] >= 2;
          var m, n := TwiceInside(a, b[i]);
        }
      }
    }
  }

  lemma ReadingsMove(a: seq<Stat>, b: seq<Stat>, id: string, d: Direction)
    requires multiset(a) == multiset(b) && NoneTwice(a) && Readable(a) && NoneTwice(b) && Readable(b)
    ensures ReportedValue(a, id, d) == ReportedValue(b, id, d)
  {
    assert forall s :: s in a <==> s in multiset(a);
    assert forall s :: s in b <==> s in multiset(b);
    if v :| ReportedValue(a, id, d) == Some(v) {
      ReadingIsReported(a, id, d, v);
      ReadingIsReported(b, id, d, v);
    } else if v :| ReportedValue(b, id, d) == Some(v) {
      ReadingIsReported(a, id, d, v);
      ReadingIsReported(b, id, d, v);
    }
  }

  /** Reordering a response changes neither whether it is accepted nor the table read from it. */
  lemma OrderIndependent(a: seq<Stat>, b: seq<Stat>)
    requires multiset(a) == multiset(b) && WellFormed(a)
    ensures WellFormed(b)
    ensures forall table :: Tabulates(a, table) <==> Tabulates(b, table)
  {
    RepeatsMove(a, b);
    assert forall s | s in b :: s in multiset(b);
    forall id, d ensures ReportedValue(a, id, d) == ReportedValue(b, id, d) {
      ReadingsMove(a, b, id, d);
    }
    forall id ensures TotalFits(b, id) {
      assert TotalFits(a, id);
    }
    forall table: map<string, Traffic> ensures Tabulates(a, table) <==> Tabulates(b, table) {
      forall id ensures TabulatesOne(a, id, table) <==> TabulatesOne(b, id, table) {
      }
    }
  }

  /** The table is determined, and every client's total in it fits an int64. */
  lemma TableIsDetermined(stats: seq<Stat>, m: map<string, Traffic>, n: map<string, Traffic>)
    requires WellFormed(stats) && Tabulates(stats, m) && Tabulates(stats, n)
    ensures m == n
    ensures forall id | id in m :: 0 <= m[id].uplink && 0 <= m[id].downlink && m[id].uplink + m[id].downlink <= MAX_INT64
  {
    forall id ensures (id in m <==> id in n) && (id in m ==> m[id] == n[id]) {
      assert TabulatesOne(stats, id, m) && TabulatesOne(stats, id, n);
    }
    forall id | id in m ensures 0 <= m[id].uplink && 0 <= m[id].downlink && m[id].uplink + m[id].downlink <= MAX_INT64 {
      assert TotalFits(stats, id) && TabulatesOne(stats, id, m);
    }
  }

  // ---- round trip -------------------------------------------------------------------

  /** The names Xray gives the two counters of the user with the label client_<id>. */
  function UplinkName(id: string): string { "user>>>client_" + id + ">>>traffic>>>uplink" }

  function DownlinkName(id: string): string { "user>>>client_" + id + ">>>traffic>>>downlink" }

  lemma JoinFour(a: string, b: string, c: string, d: string, sep: string)
    ensures Join([a, b, c, d], sep) == a + sep + (b + sep + (c + sep + d))
  {
    assert [c, d][1..] == [d] && Join([c, d], sep) == c + sep + d;
    assert [b, c, d][1..] == [c, d] && Join([b, c, d], sep) == b + sep + (c + sep + d);
    assert [a, b, c, d][1..] == [b, c, d];
  }

  lemma NamesSpelt(id: string)
    ensures CounterName(id, Up) == UplinkName(id) && CounterName(id, Down) == DownlinkName(id)
  {
    JoinFour("user", "client_" + id, "traffic", "uplink", ">>>");
    JoinFour("user", "client_" + id, "traffic", "downlink", ">>>");
    NameSpelt(id, "uplink");
    NameSpelt(id, "downlink");
  }

  lemma NameSpelt(id: string, direction: string)
    ensures "user" + ">>>" + ("client_" + id + ">>>" + ("traffic" + ">>>" + direction)) == "user>>>client_" + id + (">>>traffic>>>" + direction)
  {
    assert "user" + ">>>" + "client_" == "user>>>client_";
    assert ">>>" + ("traffic" + ">>>" + direction) == ">>>traffic>>>" + direction;
  }

  lemma NamesStart(id: string)
    ensures !Foreign(UplinkName(id)) && !Foreign(DownlinkName(id))
  {
    assert UplinkName(id) == "user>>>client_" + (id + ">>>traffic>>>uplink");
    assert DownlinkName(id) == "user>>>client_" + (id + ">>>traffic>>>downlink");
  }

  lemma NamesRead(id: string)
    requires id != "" && '>' !in id
    ensures Counter(UplinkName(id)) == Some((id, Up)) && Counter(DownlinkName(id)) == Some((id, Down))
  {
    NamesSpelt(id);
    LabelIsReadBack(id, Up);
    LabelIsReadBack(id, Down);
  }

  /** Counters of inbounds, outbounds and other users. */
  predicate Foreign(name: string) { !("user>>>client_" <= name) }

  lemma ForeignIsSkipped(name: string)
    requires Foreign(name)
    ensures Counter(name) == None
  {
    if Counter(name).Some? {
      CounterDeterminesName(name);
      var (id, d) := Counter(name).value;
      NamesSpelt(id);
      NamesStart(id);
    }
  }

  /** The counter of one direction of one client, at the number of the table. */
  predicate Shows(s: Stat, table: map<string, Traffic>, id: string) {
    id in table && ((s.name == UplinkName(id) && 0 <= table[id].uplink && Spells(s.value, table[id].uplink)) ||
                    (s.name == DownlinkName(id) && 0 <= table[id].downlink && Spells(s.value, table[id].downlink)))
  }

  /** A response that renders the table: both counters of every client, foreign ones beside them, in any order. */
  ghost predicate Renders(stats: seq<Stat>, table: map<string, Traffic>) {
    && (forall s | s in stats :: Foreign(s.name) || exists id | id in table :: Shows(s, table, id))
    && (forall id | id in table :: (exists s | s in stats :: s.name == UplinkName(id)) && (exists s | s in stats :: s.name == DownlinkName(id)))
    && (forall i, j | 0 <= i < j < |stats| && !Foreign(stats[i].name) :: stats[i].name != stats[j].name)
  }

  ghost predicate Renderable(table: map<string, Traffic>) {
    forall id | id in table :: id != "" && '>' !in id && 0 <= table[id].uplink && 0 <= table[id].downlink &&
      table[id].uplink + table[id].downlink <= MAX_INT64
  }

  function Amount(t: Traffic, d: Direction): int64 { if d == Up then t.uplink else t.downlink }

  lemma ShowsIsRead(table: map<string, Traffic>, s: Stat, id: string)
    requires Renderable(table) && Shows(s, table, id)
    ensures Counter(s.name).Some? && Counter(s.name).value.0 == id && Value(s.value) == Some(Amount(table[id], Counter(s.name).value.1))
  {
    NamesRead(id);
    if s.name == UplinkName(id) {
      ValueOfNumber(s.value, table[id].uplink);
    } else {
      ValueOfNumber(s.value, table[id].downlink);
    }
  }

  /** Every counter of such a response is read as the table has it. */
  lemma ShownIsRead(stats: seq<Stat>, table: map<string, Traffic>, s: Stat)
    requires Renderable(table) && Renders(stats, table) && s in stats && Counts(s)
    ensures var (id, d) := Counter(s.name).value; id in table && Value(s.value) == Some(Amount(table[id], d))
  {
    if Foreign(s.name) {
      ForeignIsSkipped(s.name);
    } else {
      var id :| id in table && Shows(s, table, id);
      ShowsIsRead(table, s, id);
    }
  }

  lemma RenderedReading(stats: seq<Stat>, table: map<string, Traffic>, id: string, d: Direction)
    requires Renderable(table) && Renders(stats, table) && NoneTwice(stats) && Readable(stats)
    ensures ReportedValue(stats, id, d) == if id in table then Some(Amount(table[id], d)) else None
  {
    if id in table {
      NamesRead(id);
      var s :| s in stats && s.name == if d == Up then UplinkName(id) else DownlinkName(id);
      ShownIsRead(stats, table, s);
      assert Reports(stats, id, d, Amount(table[id], d));
      ReadingIsReported(stats, id, d, Amount(table[id], d));
    } else if ReportedValue(stats, id, d).Some? {
      ReadingIsReported(stats, id, d, ReportedValue(stats, id, d).value);
      var s :| s in stats && Counter(s.name) == Some((id, d));
      ShownIsRead(stats, table, s);
    }
  }

  lemma RenderedIsReadable(stats: seq<Stat>, table: map<string, Traffic>)
    requires Renderable(table) && Renders(stats, table)
    ensures NoneTwice(stats) && Readable(stats)
  {
    forall s | s in stats && Counts(s) ensures Value(s.value).Some? && !Foreign(s.name) {
      ShownIsRead(stats, table, s);
      if Foreign(s.name) {
        ForeignIsSkipped(s.name);
      }
    }
  }

  /** Round trip: a response that renders a table is accepted, and read as exactly that table. */
  lemma RenderedTableIsRead(stats: seq<Stat>, table: map<string, Traffic>)
    requires Renderable(table) && Renders(stats, table)
    ensures WellFormed(stats) && Tabulates(stats, table)
  {
    RenderedIsReadable(stats, table);
    forall id ensures TotalFits(stats, id) && TabulatesOne(stats, id, table) {
      RenderedReading(stats, table, id, Up);
      RenderedReading(stats, table, id, Down);
    }
  }

  /** So the agent's answer to it is that table. */
  method ReadRendered(stats: seq<Stat>, ghost table: map<string, Traffic>) returns (r: Result<map<string, Traffic>>)
    requires Renderable(table) && Renders(stats, table)
    ensures r == Ok(table)
  {
    RenderedTableIsRead(stats, table);
    r := ParseTraffic(stats);
    TableIsDetermined(stats, r.value, table);
  }
}
