// Collision-free subscription names and the sing-box selector built from them
// (backend/internal/api/subscription_formats.go, singbox.go).

module Names {
  import opened Wrappers
  import opened Text
  import opened Model
  import opened Collecting

  /** The n-th name tried for a base: the base itself, then "base 2", "base 3", ... */
  function Candidate(base: string, n: nat): string {
    if n < 2 then base else base + " " + Itoa(n)
  }

  lemma CandidateInjective(base: string, m: nat, n: nat)
    requires m >= 1 && n >= 1 && Candidate(base, m) == Candidate(base, n)
    ensures m == n
  {
    if m >= 2 && n >= 2 {
      assert Itoa(m) == Candidate(base, m)[|base| + 1..] && Itoa(n) == Candidate(base, n)[|base| + 1..];
      ItoaInjective(m, n);
    } else {
      assert |Candidate(base, m)| == |Candidate(base, n)|;
    }
  }

  ghost predicate IsLater(base: string, n: nat, name: string) {
    exists m: nat :: m >= n && name == Candidate(base, m)
  }

  /** The used names the search can still run into; it shrinks with every miss. */
  ghost function Ahead(base: string, used: set<string>, n: nat): set<string> {
    set name | name in used && IsLater(base, n, name)
  }

  lemma AheadShrinks(base: string, used: set<string>, n: nat)
    requires n >= 1 && Candidate(base, n) in used
    ensures |Ahead(base, used, n + 1)| < |Ahead(base, used, n)|
  {
    forall name | name in Ahead(base, used, n + 1) ensures name in Ahead(base, used, n) && name != Candidate(base, n) {
      var m: nat :| m >= n + 1 && name == Candidate(base, m);
      if name == Candidate(base, n) {
        CandidateInjective(base, m, n);
      }
    }
    assert IsLater(base, n, Candidate(base, n));
    assert Ahead(base, used, n + 1) <= Ahead(base, used, n) - {Candidate(base, n)};
    Smaller(Ahead(base, used, n + 1), Ahead(base, used, n) - {Candidate(base, n)});
  }

  lemma {:induction false} Smaller(a: set<string>, b: set<string>)
    requires a <= b
    ensures |a| <= |b|
    decreases a
  {
    if a != {} {
      var x :| x in a;
      Smaller(a - {x}, b - {x});
    }
  }

  /** The least number from n on whose candidate is free. */
  function FreeFrom(base: string, used: set<string>, n: nat): (k: nat)
    requires n >= 1
    ensures k >= n && Candidate(base, k) !in used
    ensures forall j: nat | n <= j < k :: Candidate(base, j) in used
    decreases |Ahead(base, used, n)|
  {
    if Candidate(base, n) in used then
      AheadShrinks(base, used, n);
      FreeFrom(base, used, n + 1)
    else n
  }

  /** The suffix search: it terminates because only finitely many names are used. */
  method FreeName(base: string, used: set<string>) returns (next: string)
    ensures next == Candidate(base, FreeFrom(base, used, 1))
  {
    next := base;
    var n := 2;
    while next in used
      invariant n >= 2 && next == Candidate(base, n - 1)
      invariant FreeFrom(base, used, n - 1) == FreeFrom(base, used, 1)
      decreases |Ahead(base, used, n - 1)|
    {
      AheadShrinks(base, used, n - 1);
      next := base + " " + Itoa(n);
      n := n + 1;
    }
  }

  /** One name after the other, each joining the used ones. */
  function Rename(bases: seq<string>, used: set<string>): (names: seq<string>)
    ensures |names| == |bases|
  {
    if bases == [] then []
    else
      var name := Candidate(bases[0], FreeFrom(bases[0], used, 1));
      [name] + Rename(bases[1..], used + {name})
  }

  /** Names that meet neither each other nor a used one. */
  ghost predicate Distinct(names: seq<string>, used: set<string>) {
    && (forall i | 0 <= i < |names| :: names[i] !in used)
    && (forall i, j | 0 <= i < j < |names| :: names[i] != names[j])
  }

  lemma DistinctStep(name: string, rest: seq<string>, used: set<string>)
    requires name !in used && Distinct(rest, used + {name})
    ensures Distinct([name] + rest, used)
  {
  }

  lemma {:induction false} RenameDistinct(bases: seq<string>, used: set<string>)
    ensures Distinct(Rename(bases, used), used)
  {
    if bases != [] {
      var name := Candidate(bases[0], FreeFrom(bases[0], used, 1));
      RenameDistinct(bases[1..], used + {name});
      DistinctStep(name, Rename(bases[1..], used + {name}), used);
    }
  }

  /** Each element takes the least suffix that is still free when its turn comes. */
  lemma {:induction false} RenameIsLeast(bases: seq<string>, used: set<string>, i: nat) returns (k: nat)
    requires i < |bases|
    ensures var names := Rename(bases, used);
      && k >= 1 && names[i] == Candidate(bases[i], k)
      && (forall j: nat | 1 <= j < k :: Candidate(bases[i], j) in used || Candidate(bases[i], j) in names[..i])
      && names[i] == (if k == 1 then bases[i] else bases[i] + " " + Itoa(k))
  {
    var name := Candidate(bases[0], FreeFrom(bases[0], used, 1));
    var names := Rename(bases, used);
    if i == 0 {
      k := FreeFrom(bases[0], used, 1);
    } else {
      k := RenameIsLeast(bases[1..], used + {name}, i - 1);
      assert names == [name] + Rename(bases[1..], used + {name});
      assert names[..i] == [name] + Rename(bases[1..], used + {name})[..i - 1];
    }
  }

  /** Names that are distinct and free already are left alone. */
  lemma {:induction false} RenameFixesFreshNames(names: seq<string>, used: set<string>)
    requires Distinct(names, used)
    ensures Rename(names, used) == names
  {
    if names != [] {
      assert Candidate(names[0], 1) == names[0];
      RenameFixesFreshNames(names[1..], used + {names[0]});
    }
  }

  // ---- nodes and relays -------------------------------------------------------------

  const RESERVED: set<string> := {"PROXY", "direct", "DIRECT"}

  function ShowPort(p: int): string { if p < 0 then "-" + Itoa(-p) else Itoa(p) }

  function NodeShareName(n: Node): string {
    var name := TrimSpace(n.name);
    if name != "" then name else OrDefault(n.host, "127.0.0.1") + ":" + ShowPort(n.port)
  }

  function RelayBase(r: RelayRoute): string { OrDefault(r.name, r.id) }

  /** A node goes by its trimmed name, or by its address; a relay by its name, or by its ID. */
  lemma BasesSay(n: Node, r: RelayRoute)
    ensures TrimSpace(n.name) != "" ==> NodeShareName(n) == TrimSpace(n.name)
    ensures TrimSpace(n.name) == "" && n.port >= 0 ==> NodeShareName(n) == (if n.host == "" then "127.0.0.1" else n.host) + ":" + Itoa(n.port)
    ensures RelayBase(r) == if r.name == "" then r.id else r.name
  {
  }

  function NodeBases(nodes: seq<Node>): (b: seq<string>)
    ensures |b| == |nodes|
  {
    seq(|nodes|, i requires 0 <= i < |nodes| => NodeShareName(nodes[i]))
  }

  function RelayBases(relays: seq<RelayRoute>): (b: seq<string>)
    ensures |b| == |relays|
  {
    seq(|relays|, i requires 0 <= i < |relays| => RelayBase(relays[i]))
  }

  function WithNodeNames(nodes: seq<Node>, names: seq<string>): (r: seq<Node>)
    requires |names| >= |nodes|
  {
    seq(|nodes|, i requires 0 <= i < |nodes| => nodes[i].(name := names[i]))
  }

  function WithRelayNames(relays: seq<RelayRoute>, names: seq<string>): (r: seq<RelayRoute>)
    requires |names| >= |relays|
  {
    seq(|relays|, i requires 0 <= i < |relays| => relays[i].(name := names[i]))
  }

  function Joined(used: set<string>, names: seq<string>): set<string> { used + set x | x in names }

  /** The whole pass: fresh names, nodes first, and nothing but names changed. */
  function Unique(nodes: seq<Node>, relays: seq<RelayRoute>): (seq<Node>, seq<RelayRoute>) {
    var names := Rename(NodeBases(nodes), RESERVED);
    (WithNodeNames(nodes, names), WithRelayNames(relays, Rename(RelayBases(relays), Joined(RESERVED, names))))
  }

  /** Where a renaming loop stands after i elements: the names given, and the used ones. */
  ghost predicate Reached(bases: seq<string>, start: set<string>, i: nat, given: seq<string>, used: set<string>) {
    && i <= |bases| && |given| == i
    && Rename(bases, start) == given + Rename(bases[i..], used)
    && used == Joined(start, given)
  }

  lemma ReachedNext(bases: seq<string>, start: set<string>, i: nat, given: seq<string>, used: set<string>)
    requires i < |bases| && Reached(bases, start, i, given, used)
    ensures var name := Candidate(bases[i], FreeFrom(bases[i], used, 1));
      Reached(bases, start, i + 1, given + [name], used + {name})
  {
  }

  method RenameNodes(nodes: seq<Node>, used: set<string>) returns (out: seq<Node>, after: set<string>)
    ensures var names := Rename(NodeBases(nodes), used);
      out == WithNodeNames(nodes, names) && after == Joined(used, names)
  {
    ghost var bases := NodeBases(nodes);
    out, after := nodes, used;
    ghost var given: seq<string> := [];
    for i := 0 to |nodes|
      invariant Reached(bases, used, i, given, after)
      invariant |out| == |nodes| && forall j | 0 <= j < |nodes| :: out[j] == if j < i then nodes[j].(name := given[j]) else nodes[j]
    {
      var name := FreeName(NodeShareName(out[i]), after);
      ReachedNext(bases, used, i, given, after);
      after := after + {name};
      out := out[i := out[i].(name := name)];
      given := given + [name];
    }
  }

  method RenameRelays(relays: seq<RelayRoute>, used: set<string>) returns (out: seq<RelayRoute>)
    ensures out == WithRelayNames(relays, Rename(RelayBases(relays), used))
  {
    ghost var bases := RelayBases(relays);
    out := relays;
    var after := used;
    ghost var given: seq<string> := [];
    for i := 0 to |relays|
      invariant Reached(bases, used, i, given, after)
      invariant |out| == |relays| && forall j | 0 <= j < |relays| :: out[j] == if j < i then relays[j].(name := given[j]) else relays[j]
    {
      var name := FreeName(RelayBase(out[i]), after);
      ReachedNext(bases, used, i, given, after);
      after := after + {name};
      out := out[i := out[i].(name := name)];
      given := given + [name];
    }
  }

  method UniqueSubscriptionNames(nodes: seq<Node>, relays: seq<RelayRoute>) returns (outNodes: seq<Node>, outRelays: seq<RelayRoute>)
    ensures (outNodes, outRelays) == Unique(nodes, relays)
  {
    var used: set<string>;
    outNodes, used := RenameNodes(nodes, RESERVED);
    outRelays := RenameRelays(relays, used);
  }

  lemma RenameHead(bases: seq<string>, used: set<string>)
    requires bases != []
    ensures var name := Candidate(bases[0], FreeFrom(bases[0], used, 1));
      Rename(bases, used) == [name] + Rename(bases[1..], used + {name})
  {
  }

  lemma JoinedHead(used: set<string>, name: string, rest: seq<string>)
    ensures Joined(used, [name] + rest) == Joined(used + {name}, rest)
  {
  }

  lemma {:induction false} RenameSplit(a: seq<string>, b: seq<string>, used: set<string>)
    ensures Rename(a + b, used) == Rename(a, used) + Rename(b, Joined(used, Rename(a, used)))
  {
    if a == [] {
      assert a + b == b;
      assert Joined(used, Rename(a, used)) == used;
    } else {
      var name := Candidate(a[0], FreeFrom(a[0], used, 1));
      var rest := Rename(a[1..], used + {name});
      assert (a + b)[0] == a[0] && (a + b)[1..] == a[1..] + b;
      RenameHead(a, used);
      RenameHead(a + b, used);
      RenameSplit(a[1..], b, used + {name});
      JoinedHead(used, name, rest);
      assert [name] + (rest + Rename(b, Joined(used + {name}, rest))) == [name] + rest + Rename(b, Joined(used + {name}, rest));
    }
  }

  /** All names of a pass, nodes first. */
  function NamesOf(nodes: seq<Node>, relays: seq<RelayRoute>): (r: seq<string>)
    ensures |r| == |nodes| + |relays|
  {
    seq(|nodes|, i requires 0 <= i < |nodes| => nodes[i].name) + seq(|relays|, i requires 0 <= i < |relays| => relays[i].name)
  }

  lemma UniqueNames(nodes: seq<Node>, relays: seq<RelayRoute>)
    ensures var (n, r) := Unique(nodes, relays);
      NamesOf(n, r) == Rename(NodeBases(nodes) + RelayBases(relays), RESERVED)
  {
    RenameSplit(NodeBases(nodes), RelayBases(relays), RESERVED);
  }

  /** Renamed lists have pairwise distinct names that avoid the reserved ones. */
  lemma NamesAreDistinct(nodes: seq<Node>, relays: seq<RelayRoute>)
    ensures var (n, r) := Unique(nodes, relays);
      Distinct(NamesOf(n, r), RESERVED) && forall name | name in NamesOf(n, r) :: name !in {"PROXY", "direct", "DIRECT"}
  {
    UniqueNames(nodes, relays);
    RenameDistinct(NodeBases(nodes) + RelayBases(relays), RESERVED);
  }

  // ---- the second pass -----------------------------------------------------------

  lemma DigitsAreNoSpace(s: string)
    requires s != "" && AllDigits(s)
    ensures !IsSpace(s[|s| - 1]) && !IsSpace(s[0])
  {
    assert s[|s| - 1] in s && s[0] in s;
  }

  /** A share name never ends in a blank, nor does any candidate made from it. */
  lemma ShareNameEnds(n: Node, k: nat)
    ensures var c := Candidate(NodeShareName(n), k);
      c != "" && !IsSpace(c[|c| - 1]) && c[0] == NodeShareName(n)[0]
  {
    TrimSpaceIsTrimmed(n.name);
    DigitsAreNoSpace(Itoa(if n.port < 0 then -n.port else n.port));
    DigitsAreNoSpace(Itoa(k));
  }

  lemma TrimSpaceKeepsEnd(s: string)
    requires s != "" && !IsSpace(s[|s| - 1])
    ensures TrimSpace(s) != "" && !IsSpace(TrimSpace(s)[0])
    ensures TrimSpace(s) == s <==> !IsSpace(s[0])
  {
    TrimSpaceIsTrimmed(s);
    TrimLeftKeepsEnd(s);
    TrimRightShape(TrimLeft(s));
  }

  lemma {:induction false} TrimLeftKeepsEnd(s: string)
    requires s != "" && !IsSpace(s[|s| - 1])
    ensures TrimLeft(s) != "" && !IsSpace(TrimLeft(s)[|TrimLeft(s)| - 1])
  {
    if IsSpace(s[0]) {
      TrimLeftKeepsEnd(s[1..]);
    }
  }

  /** A name given by the first pass: it is trimmed exactly when the share name it came from was. */
  lemma FirstPassName(nodes: seq<Node>, i: nat)
    requires i < |nodes|
    ensures var name := Rename(NodeBases(nodes), RESERVED)[i];
      && name != "" && !IsSpace(name[|name| - 1]) && name[0] == NodeShareName(nodes[i])[0]
      && TrimSpace(name) != "" && !IsSpace(TrimSpace(name)[0])
      && (TrimSpace(name) == name <==> !IsSpace(NodeShareName(nodes[i])[0]))
  {
    var k := RenameIsLeast(NodeBases(nodes), RESERVED, i);
    ShareNameEnds(nodes[i], k);
    TrimSpaceKeepsEnd(Rename(NodeBases(nodes), RESERVED)[i]);
  }

  /** A relay's new name is the base it would be renamed from again. */
  lemma RelayNameStays(relays: seq<RelayRoute>, used: set<string>, i: nat)
    requires i < |relays|
    ensures var r := WithRelayNames(relays, Rename(RelayBases(relays), used)); RelayBase(r[i]) == r[i].name
  {
    var k := RenameIsLeast(RelayBases(relays), used, i);
    assert RelayBases(relays)[i] == RelayBase(relays[i]);
  }

  lemma SecondPassKeeps(nodes: seq<Node>, relays: seq<RelayRoute>)
    requires forall n | n in nodes :: NodeShareName(n) == n.name
    requires forall r | r in relays :: RelayBase(r) == r.name
    requires Distinct(NamesOf(nodes, relays), RESERVED)
    ensures Unique(nodes, relays) == (nodes, relays)
  {
    var names, first := NamesOf(nodes, relays), NamesOf(nodes, []);
    assert NodeBases(nodes) == first && RelayBases(relays) == names[|nodes|..];
    assert names[|nodes|..] == Rename(names[|nodes|..], Joined(RESERVED, first)) by {
      RenameFixesFreshNames(names[|nodes|..], Joined(RESERVED, first));
    }
    RenameFixesFreshNames(first, RESERVED);
    assert WithNodeNames(nodes, first) == nodes;
    assert WithRelayNames(relays, names[|nodes|..]) == relays;
  }

  /** Whether every node has a name, or else a host that does not start with a blank. */
  predicate CleanlyNamed(nodes: seq<Node>)
  {
    forall i | 0 <= i < |nodes| :: TrimSpace(nodes[i].name) != "" || nodes[i].host == "" || !IsSpace(nodes[i].host[0])
  }

  /** The share name starts with a blank only when it is a host that does. */
  lemma ShareNameStarts(n: Node)
    ensures NodeShareName(n) != ""
    ensures IsSpace(NodeShareName(n)[0]) <==> TrimSpace(n.name) == "" && n.host != "" && IsSpace(n.host[0])
  {
    TrimSpaceIsTrimmed(n.name);
    if TrimSpace(n.name) == "" {
      assert NodeShareName(n)[0] == OrDefault(n.host, "127.0.0.1")[0];
    }
  }

  /**
   Running the pass again, as the sing-box builder does, changes nothing exactly when every node
   has a name or a host that does not start with a blank: then, and only then, no new name is
   trimmed anew.
   */
  lemma SecondPassIsIdentityExactly(nodes: seq<Node>, relays: seq<RelayRoute>)
    ensures var (n, r) := Unique(nodes, relays);
      Unique(n, r) == (n, r) <==> CleanlyNamed(nodes)
  {
    if CleanlyNamed(nodes) {
      BlankFreeIsIdentity(nodes, relays);
    } else {
      LeadingBlankChanges(nodes, relays);
    }
  }

  lemma BlankFreeIsIdentity(nodes: seq<Node>, relays: seq<RelayRoute>)
    requires CleanlyNamed(nodes)
    ensures var (n, r) := Unique(nodes, relays); Unique(n, r) == (n, r)
  {
    var (n, r) := Unique(nodes, relays);
    NamesAreDistinct(nodes, relays);
    forall x | x in n ensures NodeShareName(x) == x.name {
      var i :| 0 <= i < |n| && n[i] == x;
      ShareNameStarts(nodes[i]);
      FirstPassName(nodes, i);
    }
    forall x | x in r ensures RelayBase(x) == x.name {
      var i :| 0 <= i < |r| && r[i] == x;
      RelayNameStays(relays, Joined(RESERVED, Rename(NodeBases(nodes), RESERVED)), i);
    }
    SecondPassKeeps(n, r);
  }

  lemma LeadingBlankChanges(nodes: seq<Node>, relays: seq<RelayRoute>)
    requires !CleanlyNamed(nodes)
    ensures var (n, r) := Unique(nodes, relays); Unique(n, r).0 != n
  {
    var (n, r) := Unique(nodes, relays);
    var i :| 0 <= i < |nodes| && !(TrimSpace(nodes[i].name) != "" || nodes[i].host == "" || !IsSpace(nodes[i].host[0]));
    ShareNameStarts(nodes[i]);
    FirstPassName(nodes, i);
    FirstPassName(n, i);
    assert Unique(n, r).0[i].name == Rename(NodeBases(n), RESERVED)[i];
  }

  // ---- the sing-box selector ----------------------------------------------------

  predicate IsShareable(protocol: string) {
    ToLower(TrimSpace(protocol)) in {"vless", "vmess", "trojan"}
  }

  function VisibleNode(n: Node): Option<Node> { if n.enabled && IsShareable(n.protocol) then Some(n) else None }

  function ActiveRelay(r: RelayRoute): Option<RelayRoute> { if r.enabled && r.routeMode == "socks5_route" then Some(r) else None }

  /** Of the given nodes those that are on and can be shared are shown, of the relays the fixed exits that are on. */
  lemma ShownExactly(nodes: seq<Node>, relays: seq<RelayRoute>, n: Node, r: RelayRoute)
    ensures n in Collect(nodes, VisibleNode) <==> n in nodes && n.enabled && ToLower(TrimSpace(n.protocol)) in {"vless", "vmess", "trojan"}
    ensures r in Collect(relays, ActiveRelay) <==> r in relays && r.enabled && r.routeMode == "socks5_route"
  {
    InCollect(nodes, VisibleNode, n);
    InCollect(relays, ActiveRelay, r);
  }

  /** The parts of a sing-box config that refer to each other: outbound tags and the selector. */
  datatype Selector = Selector(outbounds: seq<string>, choices: seq<string>, selected: string)

  /** Tags are distinct, every choice names an outbound, and the default is a choice. */
  ghost predicate Coherent(s: Selector) {
    && (forall i, j | 0 <= i < j < |s.outbounds| :: s.outbounds[i] != s.outbounds[j])
    && (forall c | c in s.choices :: c in s.outbounds && c != "PROXY")
    && s.selected in s.choices && "PROXY" in s.outbounds && "direct" in s.outbounds
  }

  method BuildSingBox(nodes: seq<Node>, relays: seq<RelayRoute>) returns (s: Selector)
    ensures Coherent(s)
    ensures var (n, r) := Unique(Collect(nodes, VisibleNode), Collect(relays, ActiveRelay));
      s == Selector(["PROXY"] + NamesOf(n, r) + ["direct"], NamesOf(n, r) + ["direct"], (NamesOf(n, r) + ["direct"])[0])
  {
    var visible: seq<Node> := [];
    for i := 0 to |nodes|
      invariant visible == Collect(nodes[..i], VisibleNode)
    {
      CollectStep(nodes, i, VisibleNode);
      if nodes[i].enabled && IsShareable(nodes[i].protocol) {
        visible := visible + [nodes[i]];
      }
    }
    assert nodes[..|nodes|] == nodes;
    var active: seq<RelayRoute> := [];
    for i := 0 to |relays|
      invariant active == Collect(relays[..i], ActiveRelay)
    {
      CollectStep(relays, i, ActiveRelay);
      if relays[i].enabled && relays[i].routeMode == "socks5_route" {
        active := active + [relays[i]];
      }
    }
    assert relays[..|relays|] == relays;
    NamesAreDistinct(visible, active);
    visible, active := UniqueSubscriptionNames(visible, active);
    var tags := AddTags(visible, active);
    SelectorIsCoherent(tags);
    var choices := tags + ["direct"];
    var selected := "direct";
    if |tags| > 0 {
      selected := tags[0];
    }
    s := Selector(["PROXY"] + tags + ["direct"], choices, selected);
  }

  /** The closure that adds outbounds and tags, for the nodes and then for the relays. */
  method AddTags(nodes: seq<Node>, relays: seq<RelayRoute>) returns (tags: seq<string>)
    ensures tags == NamesOf(nodes, relays)
  {
    tags := [];
    ghost var names := NamesOf(nodes, relays);
    for i := 0 to |nodes|
      invariant tags == names[..i]
    {
      tags := tags + [nodes[i].name];
    }
    for i := 0 to |relays|
      invariant tags == names[..|nodes| + i]
    {
      tags := tags + [relays[i].name];
    }
    assert names[..|names|] == names;
  }

  lemma SelectorIsCoherent(tags: seq<string>)
    requires Distinct(tags, RESERVED)
    ensures Coherent(Selector(["PROXY"] + tags + ["direct"], tags + ["direct"], (tags + ["direct"])[0]))
  {
  }
}
