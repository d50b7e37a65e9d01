// What the accounting rules add up to over whole runs.

/** No byte is billed twice: any servers, any losses, repeats, delays and renewals. */
module Conservation {
  import opened Text
  import opened Model
  import opened Billing

  /** The counters of one client on one server at one instant. */
  datatype Obs = Obs(epoch: string, up: int64, down: int64, at: Time)

  function Sample(o: Obs): ClientTraffic { ClientTraffic(o.up, o.down) }

  function CursorOf(o: Obs): TrafficCursor { TrafficCursor(o.epoch, o.up, o.down, o.at) }

  predicate Usable(o: Obs) {
    o.epoch != "" && !IsZero(o.at) && o.up >= 0 && o.down >= 0
  }

  /** What Xray can really have shown: time moves on, a process runs once, its counters only grow. */
  ghost predicate Faithful(tr: seq<Obs>) {
    && (forall i | 0 <= i < |tr| :: Usable(tr[i]))
    && (forall i, j | 0 <= i < j < |tr| :: tr[i].at < tr[j].at)
    && (forall i, j | 0 <= i < j < |tr| && tr[i].epoch == tr[j].epoch :: tr[i].up <= tr[j].up && tr[i].down <= tr[j].down)
    && (forall i, j, k | 0 <= i < j < k < |tr| && tr[i].epoch == tr[k].epoch :: tr[j].epoch == tr[i].epoch)
  }

  /** Bytes that passed between two consecutive observations, at least. */
  function Fresh(p: Obs, c: Obs): int {
    if p.epoch == c.epoch then c.up - p.up + c.down - p.down else c.up + c.down
  }

  /** Bytes that have passed through one server up to observation i. */
  function Passed(tr: seq<Obs>, i: nat): int
    requires i < |tr|
  {
    if i == 0 then tr[0].up + tr[0].down else Passed(tr, i - 1) + Fresh(tr[i - 1], tr[i])
  }

  lemma {:induction false} PassedGap(tr: seq<Obs>, i: nat, j: nat)
    requires Faithful(tr) && i < j < |tr|
    ensures Passed(tr, j) - Passed(tr, i) >= Fresh(tr[i], tr[j]) >= 0
    decreases j
  {
    if i + 1 < j {
      PassedGap(tr, i, j - 1);
      assert tr[i].epoch == tr[j].epoch ==> tr[j - 1].epoch == tr[i].epoch;
    }
  }

  lemma {:induction false} PassedCovers(tr: seq<Obs>, i: nat)
    requires Faithful(tr) && i < |tr|
    ensures Passed(tr, i) >= tr[i].up + tr[i].down
  {
    if i > 0 {
      PassedCovers(tr, i - 1);
    }
  }

  /** The servers of a run and everything their counters showed. */
  datatype World = World(names: seq<string>, traces: seq<seq<Obs>>)

  ghost predicate Real(w: World) {
    && |w.names| == |w.traces|
    && (forall i, j | 0 <= i < j < |w.names| :: w.names[i] != w.names[j])
    && (forall i | 0 <= i < |w.traces| :: Faithful(w.traces[i]))
  }

  function Share(tr: seq<Obs>, mark: int): int
    requires -1 <= mark < |tr|
  {
    if mark < 0 then 0 else Passed(tr, mark)
  }

  predicate IsMarking(traces: seq<seq<Obs>>, marks: seq<int>) {
    |marks| == |traces| && forall i | 0 <= i < |marks| :: -1 <= marks[i] < |traces[i]|
  }

  /** Bytes that passed on all servers up to the marked observations. */
  function Sum(traces: seq<seq<Obs>>, marks: seq<int>): int
    requires IsMarking(traces, marks)
  {
    if traces == [] then 0
    else Share(traces[0], marks[0]) + Sum(traces[1..], marks[1..])
  }

  /** All bytes that passed. */
  function Total(w: World): int {
    Sum(w.traces, Ends(w))
  }

  function Ends(w: World): (marks: seq<int>)
    ensures IsMarking(w.traces, marks)
  {
    seq(|w.traces|, i requires 0 <= i < |w.traces| => |w.traces[i]| - 1)
  }

  lemma {:induction false} SumUpdate(traces: seq<seq<Obs>>, marks: seq<int>, i: nat, m: int)
    requires IsMarking(traces, marks) && i < |marks| && -1 <= m < |traces[i]|
    ensures IsMarking(traces, marks[i := m])
    ensures Sum(traces, marks[i := m]) == Sum(traces, marks) + Share(traces[i], m) - Share(traces[i], marks[i])
  {
    if i == 0 {
      assert marks[i := m][1..] == marks[1..];
    } else {
      SumUpdate(traces[1..], marks[1..], i - 1, m);
      assert marks[i := m][1..] == marks[1..][i - 1 := m];
    }
  }

  lemma {:induction false} SumMonotone(traces: seq<seq<Obs>>, lo: seq<int>, hi: seq<int>)
    requires IsMarking(traces, lo) && IsMarking(traces, hi)
    requires forall i | 0 <= i < |lo| :: lo[i] <= hi[i]
    requires forall i | 0 <= i < |traces| :: Faithful(traces[i])
    ensures Sum(traces, lo) <= Sum(traces, hi)
  {
    if traces != [] {
      SumMonotone(traces[1..], lo[1..], hi[1..]);
      if lo[0] < 0 <= hi[0] {
        PassedCovers(traces[0], hi[0]);
      } else if 0 <= lo[0] < hi[0] {
        PassedGap(traces[0], lo[0], hi[0]);
      }
    }
  }

  /**
   A counted heartbeat, one that counts nothing for this client, an edit of the client, or a
   change of its state alone: a deletion that takes its last grant, a new token.
   */
  datatype Event =
    | Counts(server: nat, point: nat, now: Time)
    | Settles(now: Time)
    | Edits(body: Account, now: Time)
    | Marks(enabled: bool, updatedAt: Time)

  predicate Possible(w: World, e: Event) {
    e.Counts? ==> e.server < |w.traces| && e.server < |w.names| && e.point < |w.traces[e.server]|
  }

  /** A ledger and the bytes billed in the cycles that renewals have closed. */
  datatype Run = Run(ledger: Ledger, closed: int)

  function Billed(r: Run): int {
    r.closed + Effective(r.ledger.acct)
  }

  function Step(w: World, r: Run, e: Event): Run
    requires Possible(w, e)
  {
    match e
    case Counts(s, p, now) =>
      var o := w.traces[s][p];
      r.(ledger := Settled(ApplySample(r.ledger, w.names[s], Sample(o), o.epoch, o.at), now))
    case Settles(now) =>
      r.(ledger := Settled(r.ledger, now))
    case Edits(body, now) =>
      var was := r.ledger.acct;
      Run(r.ledger.(acct := Renewed(body, was, now)),
          r.closed + if IsRenewal(body, was) then Effective(was) else 0)
    case Marks(enabled, updatedAt) =>
      r.(ledger := r.ledger.(acct := r.ledger.acct.(enabled := enabled, updatedAt := updatedAt)))
  }

  function Steps(w: World, r: Run, es: seq<Event>): Run
    requires forall e | e in es :: Possible(w, e)
    decreases |es|
  {
    if es == [] then r else Steps(w, Step(w, r, es[0]), es[1..])
  }

  /** Every cursor is the observation its server's mark points at. */
  ghost predicate Placed(w: World, cursors: map<string, TrafficCursor>, marks: seq<int>) {
    && IsMarking(w.traces, marks) && |marks| == |w.names|
    && (forall i | 0 <= i < |marks| :: w.names[i] in cursors <==> marks[i] >= 0)
    && (forall i | 0 <= i < |marks| && marks[i] >= 0 :: cursors[w.names[i]] == CursorOf(w.traces[i][marks[i]]))
  }

  /** Cursors sit on real observations, and no more was billed than passed up to them. */
  ghost predicate Fair(w: World, r: Run, marks: seq<int>, base: int) {
    && Placed(w, r.ledger.cursors, marks)
    && r.ledger.acct.usedBytes >= 0
    && Billed(r) <= base + Sum(w.traces, marks)
  }

  lemma EffectiveSteps(a: Account, now: Time, body: Account)
    requires a.usedBytes >= 0
    ensures Effective(a) >= 0
    ensures Enforced(a, now).usedBytes == Effective(Enforced(a, now)) == Effective(a)
    ensures Effective(Renewed(body, a, now)) == if IsRenewal(body, a) then 0 else Effective(a)
    ensures Renewed(body, a, now).usedBytes >= 0
  {
  }

  lemma ChargeIsNatural(l: Ledger, source: string, s: ClientTraffic, epoch: string, at: Time)
    requires Accepts(l, source, s, epoch, at)
    requires source in l.cursors ==> l.cursors[source].uplink >= 0 && l.cursors[source].downlink >= 0
    ensures var (u, d) := Charge(l, source, s, epoch); u >= 0 && d >= 0
  {
  }

  lemma SaturatesOnce(used: int64, u: int64, d: int64)
    requires used >= 0 && u >= 0 && d >= 0
    ensures AddTraffic(used, AddTraffic(u, d)) == Min(MAX_INT64, used + u + d)
  {
  }

  /** An accepted sample adds exactly its charge, up to saturation. */
  lemma SampleAdds(l: Ledger, source: string, s: ClientTraffic, epoch: string, at: Time)
    requires Accepts(l, source, s, epoch, at) && l.acct.usedBytes >= 0
    requires source in l.cursors ==> l.cursors[source].uplink >= 0 && l.cursors[source].downlink >= 0
    ensures var (u, d) := Charge(l, source, s, epoch);
      u >= 0 && d >= 0 && var l' := ApplySample(l, source, s, epoch, at);
      Effective(l'.acct) == l'.acct.usedBytes == Min(MAX_INT64, Effective(l.acct) + u + d)
  {
    var (u, d) := Charge(l, source, s, epoch);
    ChargeIsNatural(l, source, s, epoch, at);
    SaturatesOnce(Effective(l.acct), u, d);
  }

  lemma PlacedAdvance(w: World, cursors: map<string, TrafficCursor>, marks: seq<int>, s: nat, m: nat)
    requires Real(w) && Placed(w, cursors, marks) && s < |marks| && m < |w.traces[s]|
    ensures Placed(w, cursors[w.names[s] := CursorOf(w.traces[s][m])], marks[s := m])
  {
  }

  /** The charge of an observation never exceeds what passed since the marked one. */
  lemma ChargeIsCovered(w: World, r: Run, marks: seq<int>, base: int, s: nat, m: nat)
    requires Real(w) && Fair(w, r, marks, base)
    requires s < |marks| && m < |w.traces[s]|
    requires var o := w.traces[s][m]; Accepts(r.ledger, w.names[s], Sample(o), o.epoch, o.at)
    ensures marks[s] < m
    ensures var (u, d) := Charge(r.ledger, w.names[s], Sample(w.traces[s][m]), w.traces[s][m].epoch);
      u + d <= Share(w.traces[s], m) - Share(w.traces[s], marks[s])
  {
    var tr := w.traces[s];
    assert Faithful(tr);
    if marks[s] >= 0 {
      assert w.names[s] in r.ledger.cursors && r.ledger.cursors[w.names[s]] == CursorOf(tr[marks[s]]);
      assert marks[s] < m;
      PassedGap(tr, marks[s], m);
    } else {
      PassedCovers(tr, m);
    }
  }

  /** One counted heartbeat moves its server's mark forward or does nothing at all. */
  lemma CountKeepsFair(w: World, r: Run, marks: seq<int>, base: int, e: Event) returns (next: seq<int>)
    requires Real(w) && Fair(w, r, marks, base) && Possible(w, e) && e.Counts?
    ensures Fair(w, Step(w, r, e), next, base)
  {
    var s, m := e.server, e.point;
    var o := w.traces[s][m];
    var counted := ApplySample(r.ledger, w.names[s], Sample(o), o.epoch, o.at);
    if !Accepts(r.ledger, w.names[s], Sample(o), o.epoch, o.at) {
      SettleKeepsFair(w, r, marks, base, e.now);
      return marks;
    }
    ChargeIsCovered(w, r, marks, base, s, m);
    assert w.names[s] in r.ledger.cursors ==> r.ledger.cursors[w.names[s]] == CursorOf(w.traces[s][marks[s]]) && Faithful(w.traces[s]);
    SampleAdds(r.ledger, w.names[s], Sample(o), o.epoch, o.at);
    next := marks[s := m];
    PlacedAdvance(w, r.ledger.cursors, marks, s, m);
    SumUpdate(w.traces, marks, s, m);
    SettleKeepsFair(w, r.(ledger := counted), next, base, e.now);
  }

  lemma SettleKeepsFair(w: World, r: Run, marks: seq<int>, base: int, now: Time)
    requires Fair(w, r, marks, base)
    ensures Fair(w, r.(ledger := Settled(r.ledger, now)), marks, base)
  {
  }

  lemma StepKeepsFair(w: World, r: Run, marks: seq<int>, base: int, e: Event) returns (next: seq<int>)
    requires Real(w) && Fair(w, r, marks, base) && Possible(w, e)
    ensures Fair(w, Step(w, r, e), next, base)
  {
    next := marks;
    match e
    case Counts(s, p, now) => next := CountKeepsFair(w, r, marks, base, e);
    case Settles(now) => SettleKeepsFair(w, r, marks, base, now);
    case Edits(body, now) => EffectiveSteps(r.ledger.acct, now, body);
    case Marks(_, _) =>
  }

  lemma {:induction false} StepsKeepFair(w: World, r: Run, marks: seq<int>, base: int, es: seq<Event>) returns (last: seq<int>)
    requires Real(w) && Fair(w, r, marks, base)
    requires forall e | e in es :: Possible(w, e)
    ensures Fair(w, Steps(w, r, es), last, base)
    decreases |es|
  {
    if es == [] {
      return marks;
    }
    var next := StepKeepsFair(w, r, marks, base, es[0]);
    last := StepsKeepFair(w, Step(w, r, es[0]), next, base, es[1..]);
  }

  /**
   Over every run of heartbeats in any order, repeated or missing, from any number of
   servers, and of edits and renewals: the bytes billed in all cycles together never
   exceed those that passed, plus what a legacy record brought along.
   */
  lemma NeverOverbilled(w: World, start: Account, es: seq<Event>)
    requires Real(w) && start.usedBytes >= 0
    requires forall e | e in es :: Possible(w, e)
    ensures Billed(Steps(w, Run(Ledger(start, map[]), 0), es)) <= Effective(start) + Total(w)
  {
    var none := StartIsFair(w, Ledger(start, map[]));
    var last := StepsKeepFair(w, Run(Ledger(start, map[]), 0), none, Effective(start), es);
    SumMonotone(w.traces, last, Ends(w));
  }

  /** One ledger follows from the other by an event, or is the same. */
  ghost predicate Moves(w: World, before: Ledger, after: Ledger) {
    after == before || exists e :: Possible(w, e) && after == Step(w, Run(before, 0), e).ledger
  }

  /** What a cycle that ends between two ledgers has billed: an edit that moves the expiry on ends one. */
  function WrittenOff(before: Ledger, after: Ledger): int {
    if IsRenewal(after.acct, before.acct) then Effective(before.acct) else 0
  }

  function AllWrittenOff(trace: seq<Ledger>): int
    requires trace != []
  {
    if |trace| == 1 then 0
    else AllWrittenOff(trace[..|trace| - 1]) + WrittenOff(trace[|trace| - 2], trace[|trace| - 1])
  }

  /** Successive ledgers of one client. */
  ghost predicate Chain(w: World, trace: seq<Ledger>) {
    trace != [] && forall i | 0 <= i < |trace| - 1 :: Moves(w, trace[i], trace[i + 1])
  }

  lemma ChainAppend(w: World, trace: seq<Ledger>, next: Ledger)
    requires Chain(w, trace) && Moves(w, trace[|trace| - 1], next)
    ensures Chain(w, trace + [next])
  {
  }

  /** What a step closes is what it writes off. */
  lemma StepCloses(w: World, r: Run, e: Event)
    requires Possible(w, e)
    ensures var after := Step(w, Run(r.ledger, 0), e).ledger; Step(w, r, e) == Run(after, r.closed + WrittenOff(r.ledger, after))
  {
  }

  lemma MoveKeepsFair(w: World, r: Run, after: Ledger, marks: seq<int>, base: int) returns (next: seq<int>)
    requires Real(w) && Fair(w, r, marks, base) && Moves(w, r.ledger, after)
    ensures Fair(w, Run(after, r.closed + WrittenOff(r.ledger, after)), next, base)
  {
    next := marks;
    if after != r.ledger {
      var e :| Possible(w, e) && after == Step(w, Run(r.ledger, 0), e).ledger;
      next := StepKeepsFair(w, r, marks, base, e);
      StepCloses(w, r, e);
    }
  }

  lemma StartIsFair(w: World, l: Ledger) returns (marks: seq<int>)
    requires Real(w) && l.cursors == map[] && l.acct.usedBytes >= 0
    ensures Fair(w, Run(l, 0), marks, Effective(l.acct))
  {
    marks := seq(|w.traces|, i => -1);
    SumNone(w.traces, marks);
  }

  lemma {:induction false} ChainKeepsFair(w: World, trace: seq<Ledger>) returns (marks: seq<int>)
    requires Real(w) && Chain(w, trace) && trace[0].cursors == map[] && trace[0].acct.usedBytes >= 0
    ensures Fair(w, Run(trace[|trace| - 1], AllWrittenOff(trace)), marks, Effective(trace[0].acct))
    decreases |trace|
  {
    if |trace| == 1 {
      marks := StartIsFair(w, trace[0]);
    } else {
      var init := trace[..|trace| - 1];
      var r, last := Run(init[|init| - 1], AllWrittenOff(init)), trace[|trace| - 1];
      var before := ChainKeepsFair(w, init);
      assert Moves(w, r.ledger, last) by {
        assert Moves(w, trace[|trace| - 2], trace[|trace| - 2 + 1]);
      }
      marks := MoveKeepsFair(w, r, last, before, Effective(trace[0].acct));
    }
  }

  /** The bound for any chain of ledgers: what all its cycles billed really passed. */
  lemma ChainNeverOverbilled(w: World, trace: seq<Ledger>)
    requires Real(w) && Chain(w, trace) && trace[0].cursors == map[] && trace[0].acct.usedBytes >= 0
    ensures AllWrittenOff(trace) + Effective(trace[|trace| - 1].acct) <= Effective(trace[0].acct) + Total(w)
  {
    var marks := ChainKeepsFair(w, trace);
    SumMonotone(w.traces, marks, Ends(w));
  }

  lemma {:induction false} SumNone(traces: seq<seq<Obs>>, marks: seq<int>)
    requires IsMarking(traces, marks) && forall m | m in marks :: m == -1
    ensures Sum(traces, marks) == 0
  {
    if traces != [] {
      assert marks[0] in marks && forall m | m in marks[1..] :: m in marks;
      SumNone(traces[1..], marks[1..]);
    }
  }

  /** The cursor of a server never moves back, through heartbeats, edits and renewals alike. */
  lemma {:induction false} CursorNeverMovesBack(w: World, r: Run, source: string, t: Time, es: seq<Event>)
    requires forall e | e in es :: Possible(w, e)
    requires source in r.ledger.cursors && r.ledger.cursors[source].sampleAt >= t
    ensures var c := Steps(w, r, es).ledger.cursors; source in c && c[source].sampleAt >= t
    decreases |es|
  {
    if es != [] {
      CursorNeverMovesBack(w, Step(w, r, es[0]), source, t, es[1..]);
    }
  }

  /** At most once: a sample the ledger took is never taken again, whatever happens in between. */
  lemma AtMostOnce(w: World, r: Run, e: Event, es: seq<Event>)
    requires Possible(w, e) && e.Counts? && forall f | f in es :: Possible(w, f)
    requires var o := w.traces[e.server][e.point]; Accepts(r.ledger, w.names[e.server], Sample(o), o.epoch, o.at)
    ensures var o := w.traces[e.server][e.point];
      var later := Steps(w, Step(w, r, e), es).ledger;
      ApplySample(later, w.names[e.server], Sample(o), o.epoch, o.at) == later
  {
    CursorNeverMovesBack(w, Step(w, r, e), w.names[e.server], w.traces[e.server][e.point].at, es);
  }

  /** The first sample of a server not seen before a renewal is a baseline and costs nothing. */
  lemma FirstSampleAfterRenewalIsFree(l: Ledger, body: Account, now: Time, source: string, s: ClientTraffic, epoch: string, at: Time)
    requires IsRenewal(body, l.acct) && !IsZero(now) && source !in l.cursors
    ensures var renewed := l.(acct := Renewed(body, l.acct, now));
      ApplySample(renewed, source, s, epoch, at).acct.usedBytes == 0 && renewed.cursors == l.cursors
  {
  }
}

/** The ledger is exact: within every billing cycle, one saturation of a sum over counter segments. */
module Exactness {
  import opened Text
  import opened Model
  import opened Billing
  import opened Conservation

  /** A sample as it arrives, with the instant the panel settles the ledger. */
  datatype Reading = Reading(source: string, obs: Obs, now: Time)

  /**
   What befalls a client: a sample arrives, the client is edited, which may renew it, its billing is
   enforced, or its state alone is changed.
   */
  datatype Moment =
    | Reads(r: Reading)
    | Alters(body: Account, now: Time)
    | Waits(now: Time)
    | Flags(enabled: bool, updatedAt: Time)

  ghost predicate Newer(kept: seq<Reading>, r: Reading) {
    forall i | 0 <= i < |kept| && kept[i].source == r.source :: kept[i].obs.at < r.obs.at
  }

  /** A reading that counts: well formed, later than all that counted before on its server, and later than the renewal. */
  ghost predicate Taken(kept: seq<Reading>, reset: Time, r: Reading) {
    Usable(r.obs) && Newer(kept, r) && (IsZero(reset) || r.obs.at > reset)
  }

  /** The next index from j on with a reading of this server, or the length. */
  function NextIndex(rs: seq<Reading>, source: string, j: nat): (k: nat)
    requires j <= |rs|
    ensures j <= k <= |rs| && (k < |rs| ==> rs[k].source == source)
    ensures forall i | j <= i < k :: rs[i].source != source
    decreases |rs| - j
  {
    if j == |rs| || rs[j].source == source then j else NextIndex(rs, source, j + 1)
  }

  /** Reading i ends its uplink segment: nothing follows, or another process, or a decrease. */
  predicate EndsUp(rs: seq<Reading>, i: nat)
    requires i < |rs|
  {
    var k := NextIndex(rs, rs[i].source, i + 1);
    k == |rs| || rs[k].obs.epoch != rs[i].obs.epoch || rs[k].obs.up < rs[i].obs.up
  }

  predicate EndsDown(rs: seq<Reading>, i: nat)
    requires i < |rs|
  {
    var k := NextIndex(rs, rs[i].source, i + 1);
    k == |rs| || rs[k].obs.epoch != rs[i].obs.epoch || rs[k].obs.down < rs[i].obs.down
  }

  function EndValue(rs: seq<Reading>, i: nat): int
    requires i < |rs|
  {
    (if EndsUp(rs, i) then rs[i].obs.up else 0) + (if EndsDown(rs, i) then rs[i].obs.down else 0)
  }

  /** The last value of every segment among the first n readings, both directions. */
  function SegmentSum(rs: seq<Reading>, n: nat): int
    requires n <= |rs|
  {
    if n == 0 then 0 else SegmentSum(rs, n - 1) + EndValue(rs, n - 1)
  }

  /** The latest reading of a server among the first n, or -1. */
  function Latest(rs: seq<Reading>, source: string, n: nat): (p: int)
    requires n <= |rs|
    ensures -1 <= p < n && (p >= 0 ==> rs[p].source == source)
    ensures forall i | p < i < n :: rs[i].source != source
  {
    if n == 0 then -1 else if rs[n - 1].source == source then n - 1 else Latest(rs, source, n - 1)
  }

  /** Bytes a new reading adds on top of the latest one of its server. */
  function Increment(rs: seq<Reading>, r: Reading): int {
    var p := Latest(rs, r.source, |rs|);
    if p < 0 || rs[p].obs.epoch != r.obs.epoch then r.obs.up + r.obs.down
    else
      (if r.obs.up >= rs[p].obs.up then r.obs.up - rs[p].obs.up else r.obs.up) +
      (if r.obs.down >= rs[p].obs.down then r.obs.down - rs[p].obs.down else r.obs.down)
  }

  lemma NextUnique(rs: seq<Reading>, source: string, j: nat, k: nat)
    requires j <= k <= |rs| && (k < |rs| ==> rs[k].source == source)
    requires forall i | j <= i < k :: rs[i].source != source
    ensures NextIndex(rs, source, j) == k
  {
  }

  lemma NextAppend(rs: seq<Reading>, r: Reading, i: nat)
    requires i < |rs|
    ensures var k := NextIndex(rs, rs[i].source, i + 1);
      NextIndex(rs + [r], rs[i].source, i + 1) == if k == |rs| && rs[i].source != r.source then |rs| + 1 else k
    ensures NextIndex(rs, rs[i].source, i + 1) == |rs| && rs[i].source == r.source <==> i == Latest(rs, r.source, |rs|)
  {
    var k := NextIndex(rs, rs[i].source, i + 1);
    NextUnique(rs + [r], rs[i].source, i + 1, if k == |rs| && rs[i].source != r.source then k + 1 else k);
  }

  /** A new reading changes the end value of the latest reading of its server, and no other. */
  lemma EndValueAppend(rs: seq<Reading>, r: Reading, i: nat)
    requires i < |rs|
    ensures var p := Latest(rs, r.source, |rs|);
      EndValue(rs + [r], i) == EndValue(rs, i) + if i == p then Increment(rs, r) - r.obs.up - r.obs.down else 0
  {
    NextAppend(rs, r, i);
    assert (rs + [r])[i] == rs[i];
  }

  lemma {:induction false} SegmentSumAppend(rs: seq<Reading>, r: Reading, n: nat, p: int, change: int)
    requires n <= |rs|
    requires forall i | 0 <= i < n :: EndValue(rs + [r], i) == EndValue(rs, i) + if i == p then change else 0
    ensures SegmentSum(rs + [r], n) == SegmentSum(rs, n) + if 0 <= p < n then change else 0
  {
    if n > 0 {
      SegmentSumAppend(rs, r, n - 1, p, change);
    }
  }

  lemma SegmentSumGrows(rs: seq<Reading>, r: Reading)
    ensures SegmentSum(rs + [r], |rs| + 1) == SegmentSum(rs, |rs|) + Increment(rs, r)
  {
    var p, change := Latest(rs, r.source, |rs|), Increment(rs, r) - r.obs.up - r.obs.down;
    forall i | 0 <= i < |rs| ensures EndValue(rs + [r], i) == EndValue(rs, i) + if i == p then change else 0 {
      EndValueAppend(rs, r, i);
    }
    SegmentSumAppend(rs, r, |rs|, p, change);
    NextUnique(rs + [r], r.source, |rs| + 1, |rs| + 1);
  }

  /** First readings of a server among readings m to n: after a renewal they are baselines. */
  function Baselines(rs: seq<Reading>, m: nat, n: nat): int
    requires m <= n <= |rs|
    decreases n
  {
    if n == m then 0
    else Baselines(rs, m, n - 1) + if Latest(rs, rs[n - 1].source, n - 1) < 0 then rs[n - 1].obs.up + rs[n - 1].obs.down else 0
  }

  /**
   What a history makes of a client, the code's own ledger aside: the readings that counted so far,
   how many of them came before the current cycle, the balance it began with, the instant of the
   renewal that began it, the terms of the last edit, and whether the client is on.
   */
  datatype Cycle = Cycle(kept: seq<Reading>, before: nat, base: int, reset: Time, expireAt: Time, limitGB: int, on: bool)

  /** Bytes a cycle is charged: what the segment sum grew by since it began, less the baselines after a renewal. */
  function InCycle(c: Cycle): int
    requires c.before <= |c.kept|
  {
    SegmentSum(c.kept, |c.kept|) - SegmentSum(c.kept[..c.before], c.before) -
    if c.reset == 0 then 0 else Baselines(c.kept, c.before, |c.kept|)
  }

  /** The exact sum reaches the limit, in gigabytes of 2^30 bytes; no accepted limit lies beyond an int64. */
  predicate Reached(c: Cycle)
    requires c.before <= |c.kept|
  {
    0 < c.limitGB <= 0x1_FFFF_FFFF && c.base + InCycle(c) >= c.limitGB * 1_073_741_824
  }

  /** At an instant of enforcement a client goes off when it is expired or the exact sum reaches its limit. */
  function Enforce(c: Cycle, now: Time): Cycle
    requires c.before <= |c.kept|
  {
    c.(on := c.on && !(c.expireAt != 0 && now >= c.expireAt) && !Reached(c))
  }

  /** A new client is in its first cycle. */
  function NewCycle(start: Account): Cycle {
    Cycle([], 0, Effective(start), start.resetAt, start.expireAt, start.limitGB, start.enabled)
  }

  /** The code's step of the ledger. */
  function Live(l: Ledger, m: Moment): Ledger {
    match m
    case Reads(r) => Settled(ApplySample(l, r.source, Sample(r.obs), r.obs.epoch, r.obs.at), r.now)
    case Alters(body, now) => l.(acct := Renewed(body, l.acct, now))
    case Waits(now) => Settled(l, now)
    case Flags(enabled, updatedAt) => l.(acct := l.acct.(enabled := enabled, updatedAt := updatedAt))
  }

  /** An edit that moves the expiry on begins the next cycle, at zero and at that instant, and switches the client on. */
  function Edited(c: Cycle, body: Account, now: Time): Cycle {
    var next := c.(expireAt := body.expireAt, limitGB := body.limitGB, on := body.enabled);
    if c.expireAt != 0 && body.expireAt > c.expireAt
    then next.(before := |c.kept|, base := 0, reset := now, on := true) else next
  }

  /** What the step means for the history. */
  ghost function Turn(c: Cycle, m: Moment): (next: Cycle)
    requires c.before <= |c.kept|
    ensures next.before <= |next.kept|
  {
    match m
    case Reads(r) => Enforce(if Taken(c.kept, c.reset, r) then c.(kept := c.kept + [r]) else c, r.now)
    case Alters(body, now) => Edited(c, body, now)
    case Waits(now) => Enforce(c, now)
    case Flags(enabled, _) => c.(on := enabled)
  }

  function Life(l: Ledger, ms: seq<Moment>): Ledger {
    if ms == [] then l else Live(Life(l, ms[..|ms| - 1]), ms[|ms| - 1])
  }

  /** The cycle after a history, a function of its moments alone. */
  ghost function CycleAfter(c: Cycle, ms: seq<Moment>): (next: Cycle)
    requires c.before <= |c.kept|
    ensures next.before <= |next.kept|
  {
    if ms == [] then c else Turn(CycleAfter(c, ms[..|ms| - 1]), ms[|ms| - 1])
  }

  /** Kept readings are usable and, per server, in order of time. */
  ghost predicate Ordered(kept: seq<Reading>) {
    && (forall i | 0 <= i < |kept| :: Usable(kept[i].obs))
    && (forall i, j | 0 <= i < j < |kept| && kept[i].source == kept[j].source :: kept[i].obs.at < kept[j].obs.at)
  }

  ghost predicate AtLatest(cursors: map<string, TrafficCursor>, kept: seq<Reading>) {
    && (forall s :: s in cursors <==> Latest(kept, s, |kept|) >= 0)
    && (forall s | s in cursors :: cursors[s] == CursorOf(kept[Latest(kept, s, |kept|)].obs))
  }

  /** The ledger has the terms of the history: limit, expiry, instant of renewal and state. */
  predicate HasTerms(a: Account, c: Cycle) {
    a.resetAt == c.reset && a.expireAt == c.expireAt && a.limitGB == c.limitGB && a.enabled == c.on
  }

  /** The cursors are the latest kept readings, and the balance is the saturated exact sum of the cycle. */
  ghost predicate Tracks(l: Ledger, c: Cycle) {
    && l.acct.usedBytes >= 0 && c.before <= |c.kept| && HasTerms(l.acct, c)
    && Ordered(c.kept) && AtLatest(l.cursors, c.kept)
    && Effective(l.acct) == Min(MAX_INT64, c.base + InCycle(c))
  }

  lemma AcceptsIffTaken(l: Ledger, kept: seq<Reading>, r: Reading)
    requires AtLatest(l.cursors, kept) && Ordered(kept)
    ensures Accepts(l, r.source, Sample(r.obs), r.obs.epoch, r.obs.at) <==> Taken(kept, l.acct.resetAt, r)
  {
  }

  /** What the cycle grows by when a reading is taken. */
  function Gain(kept: seq<Reading>, reset: Time, r: Reading): int {
    Increment(kept, r) - if !IsZero(reset) && Latest(kept, r.source, |kept|) < 0 then r.obs.up + r.obs.down else 0
  }

  /** The bytes the code charges are that gain. */
  lemma ChargeIsGain(l: Ledger, kept: seq<Reading>, r: Reading)
    requires AtLatest(l.cursors, kept) && Ordered(kept) && Usable(r.obs)
    ensures var (u, d) := Charge(l, r.source, Sample(r.obs), r.obs.epoch); u + d == Gain(kept, l.acct.resetAt, r)
    ensures r.source in l.cursors ==> l.cursors[r.source].uplink >= 0 && l.cursors[r.source].downlink >= 0
  {
  }

  lemma AtLatestAppend(cursors: map<string, TrafficCursor>, kept: seq<Reading>, r: Reading)
    requires AtLatest(cursors, kept)
    ensures AtLatest(cursors[r.source := CursorOf(r.obs)], kept + [r])
  {
    forall s ensures Latest(kept + [r], s, |kept| + 1) == if s == r.source then |kept| else Latest(kept, s, |kept|) {
      LatestAppend(kept, r, s, |kept|);
    }
  }

  lemma {:induction false} LatestAppend(rs: seq<Reading>, r: Reading, s: string, n: nat)
    requires n <= |rs|
    ensures Latest(rs + [r], s, n) == Latest(rs, s, n)
  {
    if n > 0 {
      LatestAppend(rs, r, s, n - 1);
    }
  }

  lemma {:induction false} BaselinesAppend(rs: seq<Reading>, r: Reading, m: nat, n: nat)
    requires m <= n <= |rs|
    ensures Baselines(rs + [r], m, n) == Baselines(rs, m, n)
    decreases n
  {
    if n > m {
      BaselinesAppend(rs, r, m, n - 1);
      LatestAppend(rs, r, rs[n - 1].source, n - 1);
    }
  }

  lemma InCycleGrows(c: Cycle, r: Reading)
    requires c.before <= |c.kept|
    ensures InCycle(c.(kept := c.kept + [r])) == InCycle(c) + Gain(c.kept, c.reset, r)
  {
    SegmentSumGrows(c.kept, r);
    BaselinesAppend(c.kept, r, c.before, |c.kept|);
    LatestAppend(c.kept, r, r.source, |c.kept|);
    assert (c.kept + [r])[..c.before] == c.kept[..c.before];
  }

  lemma SampleKeepsTerms(l: Ledger, c: Cycle, source: string, s: ClientTraffic, epoch: string, at: Time)
    requires HasTerms(l.acct, c)
    ensures HasTerms(ApplySample(l, source, s, epoch, at).acct, c)
  {
  }

  lemma OrderedAppend(kept: seq<Reading>, r: Reading)
    requires Ordered(kept) && Usable(r.obs) && Newer(kept, r)
    ensures Ordered(kept + [r])
  {
  }

  lemma TakenKeepsTracking(l: Ledger, c: Cycle, r: Reading)
    requires Tracks(l, c) && Taken(c.kept, c.reset, r)
    ensures Tracks(ApplySample(l, r.source, Sample(r.obs), r.obs.epoch, r.obs.at), c.(kept := c.kept + [r]))
  {
    AcceptsIffTaken(l, c.kept, r);
    ChargeIsGain(l, c.kept, r);
    SampleAdds(l, r.source, Sample(r.obs), r.obs.epoch, r.obs.at);
    AtLatestAppend(l.cursors, c.kept, r);
    OrderedAppend(c.kept, r);
    SampleKeepsTerms(l, c, r.source, Sample(r.obs), r.obs.epoch, r.obs.at);
    InCycleGrows(c, r);
  }

  /** No limit lies beyond the saturation point. */
  lemma SaturationKeepsLimit(exact: int, limitGB: int)
    requires 0 <= limitGB <= 0x1_FFFF_FFFF
    ensures Min(MAX_INT64, exact) >= limitGB * 1_073_741_824 <==> exact >= limitGB * 1_073_741_824
  {
  }

  /** Enforcement sees the exact sum: saturation never decides whether a client is switched off. */
  lemma SettleKeepsTracking(l: Ledger, c: Cycle, now: Time)
    requires Tracks(l, c)
    ensures Tracks(Settled(l, now), Enforce(c, now))
  {
    if 0 <= c.limitGB <= 0x1_FFFF_FFFF {
      SaturationKeepsLimit(c.base + InCycle(c), c.limitGB);
    }
    EffectiveSteps(l.acct, now, l.acct);
  }

  /** A renewal begins a cycle at zero on the readings kept so far; any other edit changes no balance. */
  lemma EditKeepsTracking(l: Ledger, c: Cycle, body: Account, now: Time)
    requires Tracks(l, c)
    ensures Tracks(Live(l, Alters(body, now)), Turn(c, Alters(body, now)))
  {
    EffectiveSteps(l.acct, now, body);
    assert c.kept[..|c.kept|] == c.kept;
  }

  /**
   For any interleaving of samples from any servers with edits and renewals, the balance is what
   the cycle began with plus what its segments grew by, saturated once, however the additions were
   nested; and limit, expiry, instant of renewal and state are those of the history.
   */
  lemma {:induction false} BalanceIsExact(l: Ledger, c: Cycle, ms: seq<Moment>)
    requires Tracks(l, c)
    ensures Tracks(Life(l, ms), CycleAfter(c, ms))
  {
    if ms != [] {
      var m, init := ms[|ms| - 1], ms[..|ms| - 1];
      BalanceIsExact(l, c, init);
      StepKeepsTracking(Life(l, init), CycleAfter(c, init), m);
    }
  }

  lemma StepKeepsTracking(l: Ledger, c: Cycle, m: Moment)
    requires Tracks(l, c)
    ensures Tracks(Live(l, m), Turn(c, m))
  {
    match m
    case Reads(r) =>
      AcceptsIffTaken(l, c.kept, r);
      var next := if Taken(c.kept, c.reset, r) then c.(kept := c.kept + [r]) else c;
      if Taken(c.kept, c.reset, r) {
        TakenKeepsTracking(l, c, r);
      }
      SettleKeepsTracking(ApplySample(l, r.source, Sample(r.obs), r.obs.epoch, r.obs.at), next, r.now);
    case Alters(body, now) =>
      EditKeepsTracking(l, c, body, now);
    case Waits(now) =>
      SettleKeepsTracking(l, c, now);
    case Flags(_, _) =>
  }

  lemma NewClientTracks(start: Account)
    requires start.usedBytes >= 0
    ensures Tracks(Ledger(start, map[]), NewCycle(start))
  {
  }

  /** Until a renewal, the balance is the initial one plus the last value of every segment. */
  lemma FirstCycleIsExact(start: Account, ms: seq<Moment>)
    requires start.usedBytes >= 0 && start.resetAt == 0 && forall m | m in ms :: !m.Alters?
    ensures var kept := CycleAfter(NewCycle(start), ms).kept;
      Effective(Life(Ledger(start, map[]), ms).acct) == Min(MAX_INT64, Effective(start) + SegmentSum(kept, |kept|))
  {
    NewClientTracks(start);
    BalanceIsExact(Ledger(start, map[]), NewCycle(start), ms);
    NoEditKeepsCycle(NewCycle(start), ms);
  }

  lemma {:induction false} NoEditKeepsCycle(c: Cycle, ms: seq<Moment>)
    requires c.before <= |c.kept| && forall m | m in ms :: !m.Alters?
    ensures var next := CycleAfter(c, ms); next == c.(kept := next.kept, on := next.on)
  {
    if ms != [] {
      NoEditKeepsCycle(c, ms[..|ms| - 1]);
    }
  }

  /** For every limit validation accepts, a client is over it exactly when the exact total of its cycle reaches it. */
  lemma LimitIsExact(l: Ledger, c: Cycle, ms: seq<Moment>)
    requires Tracks(l, c)
    ensures Limited(Migrated(Life(l, ms).acct)) <==> Reached(CycleAfter(c, ms))
  {
    BalanceIsExact(l, c, ms);
    var cycle := CycleAfter(c, ms);
    if 0 <= cycle.limitGB <= 0x1_FFFF_FFFF {
      SaturationKeepsLimit(cycle.base + InCycle(cycle), cycle.limitGB);
    }
  }

  /**
   After a renewal at an instant that is not the zero time, a well-formed sample is taken exactly when
   it is later than that instant and than its server's cursor; a server known in the same process then
   adds exactly what its two counters grew by, an unknown one nothing.
   */
  lemma SampleAfterRenewal(l: Ledger, body: Account, now: Time, source: string, o: Obs)
    requires l.acct.expireAt != 0 && body.expireAt > l.acct.expireAt && now != 0 && Usable(o)
    requires source in l.cursors ==> l.cursors[source].uplink >= 0 && l.cursors[source].downlink >= 0
    ensures var renewed := Live(l, Alters(body, now)); var after := ApplySample(renewed, source, Sample(o), o.epoch, o.at);
      && (after != renewed <==> o.at > now && (source in l.cursors ==> o.at > l.cursors[source].sampleAt))
      && Effective(renewed.acct) == 0
      && (after != renewed ==> after.cursors == l.cursors[source := TrafficCursor(o.epoch, o.up, o.down, o.at)])
      && (after != renewed && source !in l.cursors ==> Effective(after.acct) == 0)
      && (after != renewed && source in l.cursors && l.cursors[source].epoch == o.epoch &&
          o.up >= l.cursors[source].uplink && o.down >= l.cursors[source].downlink ==>
          Effective(after.acct) == Min(MAX_INT64, o.up - l.cursors[source].uplink + o.down - l.cursors[source].downlink))
  {
    var renewed := Live(l, Alters(body, now));
    if Accepts(renewed, source, Sample(o), o.epoch, o.at) {
      SampleAdds(renewed, source, Sample(o), o.epoch, o.at);
    }
  }

  /** After enforcement: enabled means it was enabled, is not expired and is not over its limit. */
  lemma EnforcementIsExact(a: Account, now: Time)
    ensures var e := Enforced(a, now);
      && (e.enabled <==> a.enabled && !(a.expireAt != 0 && now >= a.expireAt) &&
                         !(0 < a.limitGB <= 0x1_FFFF_FFFF && Effective(a) >= a.limitGB * 1_073_741_824))
      && !(e.enabled && (Expired(e, now) || Limited(e)))
      && Enforced(e, now) == e
  {
  }
}

/** One history carries both theorems. */
module Histories {
  import opened Model
  import opened Billing
  import opened Conservation
  import opened Exactness

  /** The reading is an observation of this world. */
  ghost predicate Seen(w: World, r: Reading) {
    exists s: nat, p: nat :: s < |w.names| && s < |w.traces| && p < |w.traces[s]| && w.names[s] == r.source && w.traces[s][p] == r.obs
  }

  ghost predicate AllSeen(w: World, ms: seq<Moment>) { forall m | m in ms && m.Reads? :: Seen(w, m.r) }

  lemma LiveMoves(w: World, l: Ledger, m: Moment)
    requires m.Reads? ==> Seen(w, m.r)
    ensures Moves(w, l, Live(l, m))
  {
    var e := match m
      case Reads(r) => var s: nat, p: nat :| s < |w.names| && s < |w.traces| && p < |w.traces[s]| && w.names[s] == r.source && w.traces[s][p] == r.obs; Counts(s, p, r.now)
      case Alters(body, now) => Edits(body, now)
      case Waits(now) => Settles(now)
      case Flags(enabled, updatedAt) => Marks(enabled, updatedAt);
    assert Possible(w, e) && Live(l, m) == Step(w, Run(l, 0), e).ledger;
  }

  /** The ledgers a client had. */
  function Trail(l: Ledger, ms: seq<Moment>): (trace: seq<Ledger>)
    ensures |trace| == |ms| + 1 && trace[0] == l
  {
    if ms == [] then [l] else Trail(l, ms[..|ms| - 1]) + [Life(l, ms)]
  }

  lemma {:induction false} TrailIsChain(w: World, l: Ledger, ms: seq<Moment>)
    requires AllSeen(w, ms)
    ensures Chain(w, Trail(l, ms)) && Trail(l, ms)[|ms|] == Life(l, ms)
  {
    if ms != [] {
      var init, m := ms[..|ms| - 1], ms[|ms| - 1];
      TrailIsChain(w, l, init);
      assert m in ms;
      LiveMoves(w, Life(l, init), m);
      ChainAppend(w, Trail(l, init), Life(l, ms));
    }
  }

  /** What all cycles of a history billed, the last one included. */
  function BilledInAll(l: Ledger, ms: seq<Moment>): int {
    AllWrittenOff(Trail(l, ms)) + Effective(Life(l, ms).acct)
  }

  /** Whatever a client lives through in a real world, no more is billed than it started with and than passed. */
  lemma LifeNeverOverbilled(w: World, l: Ledger, ms: seq<Moment>)
    requires Real(w) && AllSeen(w, ms) && l.cursors == map[] && l.acct.usedBytes >= 0
    ensures BilledInAll(l, ms) <= Effective(l.acct) + Total(w)
  {
    TrailIsChain(w, l, ms);
    ChainNeverOverbilled(w, Trail(l, ms));
  }
}
