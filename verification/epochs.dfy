// Why the panel may trust what an agent reports: the check of the process identity before and after
// a query (agent/cmd/agent/traffic.go:105-179) makes the observations of a client a faithful trace.

module Epochs {
  import opened Wrappers
  import opened Text
  import opened Model
  import opened Collecting
  import opened Counters
  import C = Conservation

  /** The end of collectXrayTraffic: a table is kept only if the same process was there before and after the query. */
  ghost predicate Collected(before: Option<string>, stats: Option<seq<Stat>>, after: Option<string>, result: Option<(map<string, Traffic>, string)>) {
    && (result.Some? <==> before.Some? && stats.Some? && WellFormed(stats.value) && after == before)
    && (result.Some? ==> Tabulates(stats.value, result.value.0) && before == Some(result.value.1))
  }

  /** None stands for an error of the step. */
  method CollectXrayTraffic(before: Option<string>, stats: Option<seq<Stat>>, after: Option<string>)
    returns (result: Option<(map<string, Traffic>, string)>)
    ensures Collected(before, stats, after, result)
  {
    if before.None? {
      return None;
    }
    if stats.None? {
      return None;
    }
    var traffic := ParseTraffic(stats.value);
    if traffic.Err? {
      return None;
    }
    if after.None? || after.value != before.value {
      return None;
    }
    return Some((traffic.value, before.value));
  }

  // ---- what happens on a server --------------------------------------------------------

  /** An Xray process: its identity, when it runs, and what its counters show at an instant. */
  datatype Process = Process(epoch: string, from: Time, until: Time, table: Time -> map<string, Traffic>)

  predicate Alive(p: Process, t: Time) { p.from <= t < p.until }

  /** A client that is listed has natural counters that do not decrease while the process runs. */
  ghost predicate CountsUp(p: Process, id: string) {
    forall s, t | Alive(p, s) && Alive(p, t) && s <= t && id in p.table(s) && id in p.table(t) ::
      0 <= p.table(s)[id].uplink <= p.table(t)[id].uplink && 0 <= p.table(s)[id].downlink <= p.table(t)[id].downlink
  }

  /** One process after the other, never two of one identity. */
  ghost predicate Lifetimes(life: seq<Process>, id: string) {
    && (forall i | 0 <= i < |life| :: life[i].epoch != "" && CountsUp(life[i], id))
    && (forall i, j | 0 <= i < j < |life| :: life[i].until <= life[j].from && life[i].from <= life[i].until && life[i].epoch != life[j].epoch)
  }

  /** One attempt to read the counters: four instants, what was read at the first three, and the result. */
  datatype Attempt = Attempt(
    started: Time, queried: Time, ended: Time, sampled: Time,
    before: Option<string>, stats: Option<seq<Stat>>, after: Option<string>, result: Option<(map<string, Traffic>, string)>)

  /** The process identity read at an instant is that of a process that runs then; reading may fail. */
  ghost predicate ReadsEpoch(life: seq<Process>, t: Time, epoch: Option<string>) {
    epoch.Some? ==> exists i | 0 <= i < |life| :: Alive(life[i], t) && life[i].epoch == epoch.value
  }

  /** The query is answered by the process that runs when it arrives, whichever that is. */
  ghost predicate Answers(life: seq<Process>, t: Time, stats: Option<seq<Stat>>) {
    stats.Some? && WellFormed(stats.value) ==> exists i | 0 <= i < |life| :: Alive(life[i], t) && Tabulates(stats.value, life[i].table(t))
  }

  ghost predicate Honest(life: seq<Process>, a: Attempt) {
    && 0 < a.started <= a.queried <= a.ended <= a.sampled
    && ReadsEpoch(life, a.started, a.before) && Answers(life, a.queried, a.stats) && ReadsEpoch(life, a.ended, a.after)
    && Collected(a.before, a.stats, a.after, a.result)
  }

  /** The agent makes one attempt after the other. */
  ghost predicate Sequential(attempts: seq<Attempt>) {
    forall i, j | 0 <= i < j < |attempts| :: attempts[i].sampled < attempts[j].started
  }

  // ---- what the panel receives ---------------------------------------------------------

  /** What an attempt shows of one client. */
  function ObsOf(a: Attempt, id: string): Option<C.Obs> {
    if a.result.Some? && id in a.result.value.0
    then Some(C.Obs(a.result.value.1, a.result.value.0[id].uplink, a.result.value.0[id].downlink, a.sampled))
    else None
  }

  function Observer(id: string): Attempt -> Option<C.Obs> { a => ObsOf(a, id) }

  /** An observation, and the process it comes from. */
  ghost predicate Comes(life: seq<Process>, a: Attempt, id: string, i: nat) {
    && i < |life| && Alive(life[i], a.queried) && id in life[i].table(a.queried)
    && var c := life[i].table(a.queried)[id]; ObsOf(a, id) == Some(C.Obs(life[i].epoch, c.uplink, c.downlink, a.sampled))
  }

  /** Only one process runs at a time, and an identity says which. */
  lemma OneProcess(life: seq<Process>, id: string, i: nat, j: nat, s: Time, t: Time)
    requires Lifetimes(life, id) && i < |life| && j < |life| && Alive(life[i], s) && Alive(life[j], t)
    ensures life[i].epoch == life[j].epoch ==> i == j
    ensures i < j ==> s < t
    ensures i == j ==> forall k, u | 0 <= k < |life| && s <= u <= t && Alive(life[k], u) :: k == i
  {
  }

  /** What passes the check was counted by the process that was there all the time. */
  lemma CheckedComes(life: seq<Process>, a: Attempt, id: string) returns (i: nat)
    requires Lifetimes(life, id) && Honest(life, a) && ObsOf(a, id).Some?
    ensures Comes(life, a, id, i)
  {
    i :| i < |life| && Alive(life[i], a.started) && life[i].epoch == a.before.value;
    var j: nat :| j < |life| && Alive(life[j], a.ended) && life[j].epoch == a.before.value;
    OneProcess(life, id, i, j, a.started, a.ended);
    var k: nat :| k < |life| && Alive(life[k], a.queried) && Tabulates(a.stats.value, life[k].table(a.queried));
    assert k == i;
    TableIsDetermined(a.stats.value, a.result.value.0, life[k].table(a.queried));
  }

  /** The attempts that show something of the client, in order. */
  function Shown(attempts: seq<Attempt>, id: string): seq<Attempt> {
    Collect(attempts, a => if ObsOf(a, id).Some? then Some(a) else None)
  }

  lemma ShownAmong(attempts: seq<Attempt>, id: string, a: Attempt)
    requires a in Shown(attempts, id)
    ensures a in attempts
  {
    InCollect(attempts, x => if ObsOf(x, id).Some? then Some(x) else None, a);
  }

  lemma SequentialAppend(attempts: seq<Attempt>, last: Attempt)
    requires Sequential(attempts) && forall a | a in attempts :: a.sampled < last.started
    ensures Sequential(attempts + [last])
  {
    assert forall i | 0 <= i < |attempts| :: attempts[i] in attempts;
  }

  lemma {:induction false} ShownInOrder(attempts: seq<Attempt>, id: string)
    requires Sequential(attempts)
    ensures Sequential(Shown(attempts, id))
  {
    if attempts != [] {
      var init, last := attempts[..|attempts| - 1], attempts[|attempts| - 1];
      ShownInOrder(init, id);
      forall a | a in Shown(init, id) ensures a.sampled < last.started {
        ShownAmong(init, id, a);
        var k :| 0 <= k < |init| && init[k] == a;
      }
      SequentialAppend(Shown(init, id), last);
    }
  }

  /** The observations are those of these attempts, one by one. */
  lemma {:induction false} ShownObserved(attempts: seq<Attempt>, id: string)
    ensures var s, o := Shown(attempts, id), Collect(attempts, Observer(id));
      |s| == |o| && forall i | 0 <= i < |s| :: ObsOf(s[i], id) == Some(o[i])
  {
    if attempts != [] {
      ShownObserved(attempts[..|attempts| - 1], id);
    }
  }

  /** Two observations of one identity were counted by one process, and so was every one in between. */
  lemma InOrder(life: seq<Process>, id: string, a: Attempt, b: Attempt, p: C.Obs, q: C.Obs)
    requires Lifetimes(life, id) && Honest(life, a) && Honest(life, b) && a.sampled < b.started
    requires ObsOf(a, id) == Some(p) && ObsOf(b, id) == Some(q)
    ensures p.at < q.at && C.Usable(p) && C.Usable(q)
    ensures p.epoch == q.epoch ==> p.up <= q.up && p.down <= q.down
  {
    var i := CheckedComes(life, a, id);
    var j := CheckedComes(life, b, id);
    OneProcess(life, id, i, j, a.queried, b.queried);
    assert CountsUp(life[i], id) && CountsUp(life[j], id);
  }

  lemma Between(life: seq<Process>, id: string, a: Attempt, b: Attempt, c: Attempt, p: C.Obs, q: C.Obs, r: C.Obs)
    requires Lifetimes(life, id) && Honest(life, a) && Honest(life, b) && Honest(life, c) && a.sampled < b.started && b.sampled < c.started
    requires ObsOf(a, id) == Some(p) && ObsOf(b, id) == Some(q) && ObsOf(c, id) == Some(r) && p.epoch == r.epoch
    ensures q.epoch == p.epoch
  {
    var i := CheckedComes(life, a, id);
    var j := CheckedComes(life, b, id);
    var k := CheckedComes(life, c, id);
    OneProcess(life, id, i, k, a.queried, c.queried);
    assert j == i;
  }

  lemma OneIsUsable(life: seq<Process>, id: string, a: Attempt, p: C.Obs)
    requires Lifetimes(life, id) && Honest(life, a) && ObsOf(a, id) == Some(p)
    ensures C.Usable(p)
  {
    var i := CheckedComes(life, a, id);
    assert CountsUp(life[i], id);
  }

  /**
   Whatever processes come and go, between the steps of an attempt too: the observations of a client
   that pass the check form a faithful trace.
   */
  lemma CheckedTraceIsFaithful(life: seq<Process>, attempts: seq<Attempt>, id: string)
    requires Lifetimes(life, id) && Sequential(attempts) && forall a | a in attempts :: Honest(life, a)
    ensures C.Faithful(Collect(attempts, Observer(id)))
  {
    var s, o := Shown(attempts, id), Collect(attempts, Observer(id));
    ShownInOrder(attempts, id);
    ShownObserved(attempts, id);
    forall i | 0 <= i < |s| ensures Honest(life, s[i]) {
      assert s[i] in s;
      ShownAmong(attempts, id, s[i]);
    }
    forall i | 0 <= i < |o| ensures C.Usable(o[i]) {
      OneIsUsable(life, id, s[i], o[i]);
    }
    forall i, j | 0 <= i < j < |o| ensures o[i].at < o[j].at && (o[i].epoch == o[j].epoch ==> o[i].up <= o[j].up && o[i].down <= o[j].down) {
      InOrder(life, id, s[i], s[j], o[i], o[j]);
    }
    forall i, j, k | 0 <= i < j < k < |o| && o[i].epoch == o[k].epoch ensures o[j].epoch == o[i].epoch {
      Between(life, id, s[i], s[j], s[k], o[i], o[j], o[k]);
    }
  }

  /** One server: its processes, and its agent's attempts. */
  datatype Site = Site(name: string, life: seq<Process>, attempts: seq<Attempt>)

  ghost predicate Possible(site: Site, id: string) {
    Lifetimes(site.life, id) && Sequential(site.attempts) && forall a | a in site.attempts :: Honest(site.life, a)
  }

  /** The traces that the billing bound speaks of. */
  function WorldOf(sites: seq<Site>, id: string): C.World {
    C.World(seq(|sites|, i requires 0 <= i < |sites| => sites[i].name),
            seq(|sites|, i requires 0 <= i < |sites| => Collect(sites[i].attempts, Observer(id))))
  }

  /** So what the agents of any number of servers report is a real world for the billing bound. */
  lemma WorldIsReal(sites: seq<Site>, id: string)
    requires forall i | 0 <= i < |sites| :: Possible(sites[i], id)
    requires forall i, j | 0 <= i < j < |sites| :: sites[i].name != sites[j].name
    ensures C.Real(WorldOf(sites, id))
  {
    forall i | 0 <= i < |sites| ensures C.Faithful(WorldOf(sites, id).traces[i]) {
      assert Possible(sites[i], id);
      CheckedTraceIsFaithful(sites[i].life, sites[i].attempts, id);
    }
  }

  // ---- without the check -----------------------------------------------------------------

  /** One counter of a process that shows it all the time. */
  function Steady(epoch: string, from: Time, until: Time, id: string, value: int64): Process {
    Process(epoch, from, until, t => map[id := Traffic(value, 0)])
  }

  /**
   The second reading is needed: with the first alone, counters of the next process can be taken for
   those of the last one, and go down within one identity.
   */
  lemma FirstReadingIsNotEnough(id: string)
    ensures var life := [Steady("a", 1, 10, id, 5), Steady("b", 10, 20, id, 1)];
      && Lifetimes(life, id)
      && ReadsEpoch(life, 2, Some("a")) && Alive(life[0], 3) && ReadsEpoch(life, 8, Some("a")) && Alive(life[1], 11)
      && !C.Faithful([C.Obs("a", life[0].table(3)[id].uplink, 0, 4), C.Obs("a", life[1].table(11)[id].uplink, 0, 12)])
  {
    var life := [Steady("a", 1, 10, id, 5), Steady("b", 10, 20, id, 1)];
    assert CountsUp(life[0], id) && CountsUp(life[1], id);
    assert Alive(life[0], 2) && Alive(life[0], 8);
    var o := [C.Obs("a", life[0].table(3)[id].uplink, 0, 4), C.Obs("a", life[1].table(11)[id].uplink, 0, 12)];
    assert o[0].epoch == o[1].epoch && o[0].up > o[1].up;
  }
}
