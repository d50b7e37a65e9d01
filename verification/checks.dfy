// The panel's own checks of a generated config (backend/internal/api/system.go).

module Checks {
  import opened Wrappers
  import opened Text
  import opened Model
  import opened Sorting
  import opened Collecting
  import opened Xray
  import opened Routing

  /** relayRouteMode */
  function RelayRouteMode(v: string): string {
    var mode := ToLower(TrimSpace(v));
    if mode == "" then "tcp_forward" else mode
  }

  /** The outbound each inbound tag is bound to, a later rule overriding an earlier one. */
  function BindingMap(rules: seq<Rule>): map<string, string> {
    if rules == [] then map[]
    else
      var rule := rules[|rules| - 1];
      BindTags(BindingMap(rules[..|rules| - 1]), if rule.inboundTags.Some? then rule.inboundTags.value else [], rule.outboundTag)
  }

  function BindTags(bindings: map<string, string>, tags: seq<string>, out: string): map<string, string> {
    if tags == [] then bindings
    else BindTags(bindings, tags[..|tags| - 1], out)[tags[|tags| - 1] := out]
  }

  function Tags<T(==)>(items: seq<T>, tag: T -> string): set<string> { set x | x in items :: tag(x) }

  function InboundTag(b: Inbound): string { b.tag }

  function OutboundTag(o: Outbound): string { o.tag }

  /** What a relay lacks in a config, in the order the panel names it. */
  function Missing(cfg: Config, id: string): seq<string> {
    var bindings := BindingMap(cfg.rules);
    (if InTag(id) !in Tags(cfg.inbounds, InboundTag) then ["入站"] else []) +
    (if OutTag(id) !in Tags(cfg.outbounds, OutboundTag) then ["出站"] else []) +
    (if InTag(id) in bindings && bindings[InTag(id)] == OutTag(id) then [] else ["routing"])
  }

  predicate Checked(r: RelayRoute) { r.enabled && RelayRouteMode(r.routeMode) == "socks5_route" }

  datatype Problem = Problem(relay: RelayRoute, missing: seq<string>)

  function Problems(cfg: Config, relays: map<string, RelayRoute>): set<Problem> {
    set id | id in relays && Checked(relays[id]) && Missing(cfg, relays[id].id) != [] ::
      Problem(relays[id], Missing(cfg, relays[id].id))
  }

  predicate IsProblem(cfg: Config, relays: map<string, RelayRoute>, p: Problem) {
    p.relay.id in relays && relays[p.relay.id] == p.relay && Checked(p.relay) && p.missing == Missing(cfg, p.relay.id) != []
  }

  method CollectTags<T(==)>(items: seq<T>, tag: T -> string) returns (tags: set<string>)
    ensures tags == Tags(items, tag)
  {
    tags := {};
    for i := 0 to |items|
      invariant tags == Tags(items[..i], tag)
    {
      assert items[..i + 1] == items[..i] + [items[i]];
      assert Tags(items[..i + 1], tag) == Tags(items[..i], tag) + {tag(items[i])};
      tags := tags + {tag(items[i])};
    }
    assert items[..|items|] == items;
  }

  method CollectBindings(rules: seq<Rule>) returns (bindings: map<string, string>)
    ensures bindings == BindingMap(rules)
  {
    bindings := map[];
    for i := 0 to |rules|
      invariant bindings == BindingMap(rules[..i])
    {
      var rule := rules[i];
      assert rules[..i + 1][..i] == rules[..i];
      var tags := if rule.inboundTags.Some? then rule.inboundTags.value else [];
      ghost var before := bindings;
      for j := 0 to |tags|
        invariant bindings == BindTags(before, tags[..j], rule.outboundTag)
      {
        assert tags[..j + 1][..j] == tags[..j];
        bindings := bindings[tags[j] := rule.outboundTag];
      }
      assert tags[..|tags|] == tags;
    }
    assert rules[..|rules|] == rules;
  }

  method CheckRelay(cfg: Config, id: string, inboundTags: set<string>, outboundTags: set<string>, routeBindings: map<string, string>)
    returns (missing: seq<string>)
    requires inboundTags == Tags(cfg.inbounds, InboundTag) && outboundTags == Tags(cfg.outbounds, OutboundTag)
    requires routeBindings == BindingMap(cfg.rules)
    ensures missing == Missing(cfg, id)
  {
    var inTag, outTag := InTag(id), OutTag(id);
    missing := [];
    if inTag !in inboundTags {
      missing := missing + ["入站"];
    }
    if outTag !in outboundTags {
      missing := missing + ["出站"];
    }
    if !(inTag in routeBindings && routeBindings[inTag] == outTag) {
      missing := missing + ["routing"];
    }
  }

  /** Reports every enabled fixed-exit relay that lacks a part, once, whatever order the map is walked in. */
  method Socks5RouteBindingProblems(cfg: Config, relays: map<string, RelayRoute>) returns (problems: seq<Problem>)
    requires forall id | id in relays :: relays[id].id == id
    ensures Enumerates(problems, Problems(cfg, relays))
  {
    var inboundTags := CollectTags(cfg.inbounds, InboundTag);
    var outboundTags := CollectTags(cfg.outbounds, OutboundTag);
    var routeBindings := CollectBindings(cfg.rules);
    problems := [];
    var todo := relays.Keys;
    while todo != {}
      invariant todo <= relays.Keys
      invariant forall p | p in problems :: p.relay.id in relays.Keys - todo && IsProblem(cfg, relays, p)
      invariant forall id | id in relays.Keys - todo && Checked(relays[id]) && Missing(cfg, id) != [] ::
        Problem(relays[id], Missing(cfg, id)) in problems
      invariant forall i, j | 0 <= i < j < |problems| :: problems[i] != problems[j]
      decreases todo
    {
      var id :| id in todo;
      var rr := relays[id];
      todo := todo - {id};
      if !rr.enabled || RelayRouteMode(rr.routeMode) != "socks5_route" {
        continue;
      }
      var missing := CheckRelay(cfg, rr.id, inboundTags, outboundTags, routeBindings);
      if |missing| > 0 {
        problems := problems + [Problem(rr, missing)];
      }
    }
  }

  // ---- agreement with the generator -----------------------------------------------

  lemma {:induction false} BindingMapAppend(a: seq<Rule>, b: seq<Rule>, tag: string)
    ensures tag in BindingMap(a + b) <==> tag in BindingMap(a) || tag in BindingMap(b)
    ensures tag in BindingMap(b) ==> BindingMap(a + b)[tag] == BindingMap(b)[tag]
    ensures tag in BindingMap(a) && tag !in BindingMap(b) ==> BindingMap(a + b)[tag] == BindingMap(a)[tag]
  {
    if b == [] {
      assert a + b == a;
    } else {
      BindingMapAppend(a, b[..|b| - 1], tag);
      assert (a + b)[..|a + b| - 1] == a + b[..|b| - 1];
      var rule := b[|b| - 1];
      var tags := if rule.inboundTags.Some? then rule.inboundTags.value else [];
      BindTagsAt(BindingMap(a + b[..|b| - 1]), tags, rule.outboundTag, tag);
      BindTagsAt(BindingMap(b[..|b| - 1]), tags, rule.outboundTag, tag);
    }
  }

  lemma {:induction false} BindTagsAt(bindings: map<string, string>, tags: seq<string>, out: string, tag: string)
    ensures tag in BindTags(bindings, tags, out) <==> tag in bindings || tag in tags
    ensures tag in tags ==> BindTags(bindings, tags, out)[tag] == out
    ensures tag in bindings && tag !in tags ==> BindTags(bindings, tags, out)[tag] == bindings[tag]
  {
    if tags != [] {
      var init := tags[..|tags| - 1];
      BindTagsAt(bindings, init, out, tag);
      assert tags == init + [tags[|tags| - 1]];
    }
  }

  predicate Binds(rule: Rule, tag: string) { rule.inboundTags.Some? && tag in rule.inboundTags.value }

  /** The last rule that names the inbound. */
  ghost predicate IsLastBinding(rules: seq<Rule>, tag: string, k: nat) {
    k < |rules| && Binds(rules[k], tag) && forall j | k < j < |rules| :: !Binds(rules[j], tag)
  }

  /** An inbound is bound to the outbound of the last rule that names it. */
  lemma {:induction false} BoundByLast(rules: seq<Rule>, tag: string, k: nat)
    requires IsLastBinding(rules, tag, k)
    ensures tag in BindingMap(rules) && BindingMap(rules)[tag] == rules[k].outboundTag
  {
    var init, rule := rules[..|rules| - 1], rules[|rules| - 1];
    BindTagsAt(BindingMap(init), if rule.inboundTags.Some? then rule.inboundTags.value else [], rule.outboundTag, tag);
    if k < |init| {
      BoundByLast(init, tag, k);
    }
  }

  /** And to none if no rule does. */
  lemma {:induction false} UnnamedIsUnbound(rules: seq<Rule>, tag: string)
    requires forall i | 0 <= i < |rules| :: !Binds(rules[i], tag)
    ensures tag !in BindingMap(rules)
  {
    if rules != [] {
      var init, rule := rules[..|rules| - 1], rules[|rules| - 1];
      UnnamedIsUnbound(init, tag);
      BindTagsAt(BindingMap(init), if rule.inboundTags.Some? then rule.inboundTags.value else [], rule.outboundTag, tag);
    }
  }

  /** A relay is checked when it is on and its mode, whatever its case and blanks, is that of a fixed exit. */
  lemma CheckedExactly(r: RelayRoute)
    ensures Checked(r) <==> r.enabled && ToLower(TrimSpace(r.routeMode)) == "socks5_route"
  {
  }

  /** Each missing part is named, and nothing else is. */
  lemma MissingSays(cfg: Config, id: string)
    ensures "入站" in Missing(cfg, id) <==> forall b | b in cfg.inbounds :: b.tag != "in_" + id
    ensures "出站" in Missing(cfg, id) <==> forall o | o in cfg.outbounds :: o.tag != "out_" + id
    ensures "routing" in Missing(cfg, id) <==> !("in_" + id in BindingMap(cfg.rules) && BindingMap(cfg.rules)["in_" + id] == "out_" + id)
    ensures |Missing(cfg, id)| <= 3 && forall m | m in Missing(cfg, id) :: m in {"入站", "出站", "routing"}
  {
    assert InTag(id) in Tags(cfg.inbounds, InboundTag) <==> exists b | b in cfg.inbounds :: InboundTag(b) == InTag(id);
    assert OutTag(id) in Tags(cfg.outbounds, OutboundTag) <==> exists o | o in cfg.outbounds :: OutboundTag(o) == OutTag(id);
  }

  lemma SingleBinding(r: RelayRoute)
    ensures BindingMap([BindingOf(r)]) == map[InTag(r.id) := OutTag(r.id)]
  {
    BindTagsAt(map[], [InTag(r.id)], OutTag(r.id), InTag(r.id));
    assert BindTags(map[], [InTag(r.id)], OutTag(r.id)) == map[InTag(r.id) := OutTag(r.id)];
  }

  lemma {:induction false} BindingMapOfRelays(relays: seq<RelayRoute>, allNodes: map<string, Node>, id: string)
    ensures var m := BindingMap(Bindings(relays, allNodes));
      && (InTag(id) in m <==> Owned(relays, allNodes, InTag(id)))
      && (InTag(id) in m ==> m[InTag(id)] == OutTag(id))
  {
    if relays != [] {
      var init, r := relays[..|relays| - 1], relays[|relays| - 1];
      BindingMapOfRelays(init, allNodes, id);
      assert relays == init + [r];
      var last := if Accepted(r, allNodes) then [BindingOf(r)] else [];
      BindingsLast(init, r, allNodes);
      OwnedAppend(init, r, allNodes, InTag(id));
      TagsAreInjective(r.id, id);
      BindingMapAppend(Bindings(init, allNodes), last, InTag(id));
      SingleBinding(r);
    }
  }

  lemma PolicyBindsNothing(policy: NetworkPolicy)
    ensures BindingMap(PolicyRules(policy)) == map[]
  {
    var rules := PolicyRules(policy);
    assert forall i | 0 <= i < |rules| :: rules[i].inboundTags.None?;
    NoTagsNoBindings(rules);
  }

  lemma {:induction false} NoTagsNoBindings(rules: seq<Rule>)
    requires forall i | 0 <= i < |rules| :: rules[i].inboundTags.None?
    ensures BindingMap(rules) == map[]
  {
    if rules != [] {
      NoTagsNoBindings(rules[..|rules| - 1]);
    }
  }

  lemma BoundIffOwned(nodes: seq<Node>, clients: seq<Client>, relays: seq<RelayRoute>, allNodes: map<string, Node>,
                      policy: NetworkPolicy, now: Time, id: string)
    ensures var m := BindingMap(ServerConfig(nodes, clients, relays, allNodes, policy, now).rules);
      (InTag(id) in m && m[InTag(id)] == OutTag(id)) <==> Owned(relays, allNodes, InTag(id))
  {
    var b := Bindings(relays, allNodes);
    BindingMapAppend([API_RULE], b + PolicyRules(policy), InTag(id));
    BindingMapAppend(b, PolicyRules(policy), InTag(id));
    PolicyBindsNothing(policy);
    BindingMapOfRelays(relays, allNodes, id);
    TagsAreInjective(id, id);
    BindTagsAt(map[], ["api"], "api", InTag(id));
    assert BindingMap([API_RULE]) == BindTags(map[], ["api"], "api");
  }

  /** The inbound and the exit of an accepted relay are in the config. */
  lemma AcceptedIsPresent(nodes: seq<Node>, clients: seq<Client>, list: seq<RelayRoute>, allNodes: map<string, Node>,
                          policy: NetworkPolicy, now: Time, r: RelayRoute)
    requires r in list && Accepted(r, allNodes)
    ensures var cfg := ServerConfig(nodes, clients, list, allNodes, policy, now);
      && (exists b | b in cfg.inbounds :: InboundTag(b) == InTag(r.id))
      && (exists o | o in cfg.outbounds :: OutboundTag(o) == OutTag(r.id))
  {
    var cfg := ServerConfig(nodes, clients, list, allNodes, policy, now);
    var b, exit := RelayInbound(r, clients, allNodes, now).value, ExitOf(r, LandingOf(r, allNodes).value);
    InCollect(list, x => RelayInbound(x, clients, allNodes, now), b);
    InCollect(list, x => ExitFor(x, allNodes), exit);
    assert b in cfg.inbounds && InboundTag(b) == InTag(r.id);
    assert exit in cfg.outbounds && OutboundTag(exit) == OutTag(r.id);
  }

  /**
   The independent check agrees with the generator: on the generator's own output, in
   whatever order the relays were passed, an enabled fixed-exit relay is reported exactly
   when the generator skipped it.
   */
  lemma CheckerAgrees(nodes: seq<Node>, clients: seq<Client>, list: seq<RelayRoute>, relays: map<string, RelayRoute>,
                      allNodes: map<string, Node>, policy: NetworkPolicy, now: Time, id: string)
    requires forall k | k in relays :: relays[k].id == k
    requires forall r | r in list :: r.id in relays && relays[r.id] == r
    requires forall k | k in relays :: relays[k] in list
    requires id in relays && Checked(relays[id])
    ensures Missing(ServerConfig(nodes, clients, list, allNodes, policy, now), id) != [] <==> !Accepted(relays[id], allNodes)
  {
    var r := relays[id];
    BoundIffOwned(nodes, clients, list, allNodes, policy, now, id);
    if Accepted(r, allNodes) {
      assert OwnsTag(r, allNodes, InTag(id));
      AcceptedIsPresent(nodes, clients, list, allNodes, policy, now, r);
    } else if Owned(list, allNodes, InTag(id)) {
      var s :| s in list && OwnsTag(s, allNodes, InTag(id));
      TagsAreInjective(s.id, id);
    }
  }

  /** A relay whose mode is not in canonical spelling is checked as a fixed exit but never generated as one. */
  lemma OddSpellingIsAlwaysReported(nodes: seq<Node>, clients: seq<Client>, list: seq<RelayRoute>, relays: map<string, RelayRoute>,
                                    allNodes: map<string, Node>, policy: NetworkPolicy, now: Time, id: string)
    requires forall k | k in relays :: relays[k].id == k
    requires forall r | r in list :: r.id in relays && relays[r.id] == r
    requires forall k | k in relays :: relays[k] in list
    requires id in relays && Checked(relays[id]) && relays[id].routeMode != "socks5_route"
    ensures Missing(ServerConfig(nodes, clients, list, allNodes, policy, now), id) != []
  {
    CheckerAgrees(nodes, clients, list, relays, allNodes, policy, now, id);
  }

  // ---- the sniffing check -------------------------------------------------------------

  /** Whether an inbound has a sniffing section that is switched on. */
  predicate Sniffs(b: Inbound) { b.sniffing.Some? && b.sniffing.value.enabled }

  /** The check's answer on a document. */
  predicate AllSniff(cfg: Config) { cfg.inbounds != [] && forall b | b in cfg.inbounds :: Sniffs(b) }

  method HasSniffing(cfg: Config) returns (ok: bool)
    ensures ok == AllSniff(cfg)
    ensures ok <==> cfg.inbounds != [] && forall b | b in cfg.inbounds :: b.sniffing.Some? && b.sniffing.value.enabled
  {
    if |cfg.inbounds| == 0 {
      return false;
    }
    for i := 0 to |cfg.inbounds|
      invariant forall j | 0 <= j < i :: Sniffs(cfg.inbounds[j])
    {
      if !Sniffs(cfg.inbounds[i]) {
        return false;
      }
    }
    return true;
  }

  /** The check fails on every config the generator can produce, and the api inbound alone is the reason. */
  lemma SniffingCheckNeverPasses(nodes: seq<Node>, clients: seq<Client>, relays: seq<RelayRoute>, allNodes: map<string, Node>,
                                 policy: NetworkPolicy, now: Time)
    ensures var cfg := ServerConfig(nodes, clients, relays, allNodes, policy, now);
      !AllSniff(cfg) && forall b | b in cfg.inbounds :: Sniffs(b) <==> !b.ApiIn?
  {
    var cfg := ServerConfig(nodes, clients, relays, allNodes, policy, now);
    assert ApiIn("api", StatsPort(nodes, relays), None) in cfg.inbounds;
    forall b | b in cfg.inbounds ensures Sniffs(b) <==> !b.ApiIn? {
      if b in NodeInbounds(nodes, clients, now) {
        NodesSniff(nodes, clients, now, b);
      } else if b in RelayInbounds(relays, clients, allNodes, now) {
        RelaysSniff(relays, clients, allNodes, now, b);
      }
    }
  }

  lemma NodesSniff(nodes: seq<Node>, clients: seq<Client>, now: Time, b: Inbound)
    requires b in NodeInbounds(nodes, clients, now)
    ensures Sniffs(b) && !b.ApiIn?
  {
    InCollect(nodes, n => NodeInbound(n, clients, now), b);
  }

  lemma RelaysSniff(relays: seq<RelayRoute>, clients: seq<Client>, allNodes: map<string, Node>, now: Time, b: Inbound)
    requires b in RelayInbounds(relays, clients, allNodes, now)
    ensures Sniffs(b) && !b.ApiIn?
  {
    InCollect(relays, r => RelayInbound(r, clients, allNodes, now), b);
  }
}
