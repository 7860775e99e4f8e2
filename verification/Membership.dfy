/**
 Cluster membership at boot: every node derives its view from its own identity and
 the peer addresses rendered into its configuration, and all of them must agree.
 */
module Membership {
  import opened Options
  import opened Naming
  import opened Text

  const INCARNATION := "1"
  const FALLBACK_HOST := "duckspout-node"

  // ----------------------------------------------------------- address parsing

  /** The host half of a seed-peer entry. */
  function StripSeedPeerPort(raw: string): string {
    if raw != "" && raw[0] == '[' then
      var end := FirstIndex(raw[1..], ']');
      if end >= 0 then raw[1..][..end] else raw
    else
      var c := LastIndex(raw, ':');
      if c >= 0 && c + 1 < |raw| && AllDigits(raw[c + 1..]) && ':' !in raw[..c] then raw[..c] else raw
  }

  function Rendered(host: string): string {
    host + "/" + INCARNATION
  }

  function SeedPeerNodeId(raw: string): string {
    Rendered(StripSeedPeerPort(raw))
  }

  /** The identity a node gives itself: override, kernel hostname, environment, fixed fallback. */
  function DetectNodeId(override: Option<string>, kernel: Option<string>, env: Option<string>): string {
    Rendered(
      if override.Some? && override.value != "" then override.value
      else if kernel.Some? && kernel.value != "" then kernel.value
      else if env.Some? && env.value != "" then env.value
      else FALLBACK_HOST)
  }

  /** The override first, then the kernel's hostname, then the environment's, then a fixed name. */
  lemma DetectOrder(override: Option<string>, kernel: Option<string>, env: Option<string>)
    ensures Named(override) ==> DetectNodeId(override, kernel, env) == override.value + "/1"
    ensures !Named(override) && Named(kernel) ==> DetectNodeId(override, kernel, env) == kernel.value + "/1"
    ensures !Named(override) && !Named(kernel) && Named(env) ==> DetectNodeId(override, kernel, env) == env.value + "/1"
    ensures !Named(override) && !Named(kernel) && !Named(env) ==>
              DetectNodeId(override, kernel, env) == "duckspout-node/1"
  {
    assert "duckspout-node" + "/" + "1" == "duckspout-node/1";
    forall host: string ensures host + "/" + "1" == host + "/1" {
      assert "/" + "1" == "/1";
    }
  }

  predicate Named(name: Option<string>) {
    name.Some? && name.value != ""
  }

  function PeerEntry(host: string, port: nat): string {
    host + ":" + Decimal(port)
  }

  /** A `host:port` entry gives back its host exactly when the host holds no colon and no opening bracket. */
  lemma StripRecoversExactlyWhen(host: string, port: nat)
    ensures StripSeedPeerPort(PeerEntry(host, port)) == host
            <==> ':' !in host && !(host != "" && host[0] == '[')
  {
    var raw, digits := PeerEntry(host, port), Decimal(port);
    DecimalDigits(port);
    ValueOfDecimal(port);
    assert |raw| == |host| + 1 + |digits|;
    if host != "" && host[0] == '[' {
      assert raw[0] == '[';
      StripBracketed(host, port);
    } else {
      ColonBeforeDigits(host, port);
      assert raw[..|host|] == host && raw[|host| + 1..] == digits;
      assert raw[0] != '[';
    }
  }

  lemma ColonBeforeDigits(host: string, port: nat)
    ensures LastIndex(PeerEntry(host, port), ':') == |host|
  {
    var raw, digits := PeerEntry(host, port), Decimal(port);
    DecimalDigits(port);
    assert raw[|host|] == ':';
    forall k | |host| < k < |raw| ensures raw[k] != ':' {
      assert raw[k] == digits[k - |host| - 1];
      assert digits[k - |host| - 1] in digits;
    }
  }

  lemma StripBracketed(host: string, port: nat)
    requires host != "" && host[0] == '['
    ensures StripSeedPeerPort(PeerEntry(host, port)) != host
  {
    var raw, digits := PeerEntry(host, port), Decimal(port);
    DecimalDigits(port);
    assert raw[0] == '[';
    assert raw[|host| + 1] == digits[0] && digits[0] in digits;
    assert forall k | 0 <= k < |host| :: raw[k] == host[k];
  }

  /** A bracketed literal gives back the literal, port or no port. */
  lemma StripLiteral(literal: string, rest: string)
    requires ']' !in literal
    ensures StripSeedPeerPort("[" + literal + "]" + rest) == literal
  {
    var raw := "[" + literal + "]" + rest;
    assert raw[1..] == literal + "]" + rest;
    assert raw[1..][|literal|] == ']';
    assert raw[1..][..|literal|] == literal;
  }

  /** Unbracketed entries with no colon, or with several as bare IPv6 literals have, are left untouched. */
  lemma StripUntouched(raw: string)
    requires Count(raw, ':') != 1 && !(raw != "" && raw[0] == '[')
    ensures StripSeedPeerPort(raw) == raw
  {
    var c := LastIndex(raw, ':');
    if c >= 0 {
      var host, rest := raw[..c], raw[c + 1..];
      assert raw == host + ":" + rest;
      CountAppend(host + ":", rest, ':');
      CountAppend(host, ":", ':');
      assert ":"[1..] == "";
      CountZero(host, ':');
      SuffixLacksLast(raw, ':');
      CountZero(rest, ':');
    }
  }

  /** What is stripped from an unbracketed entry is its one colon and the digits, at least one, that follow it. */
  lemma StripsExactlyWhen(raw: string, host: string)
    requires !(raw != "" && raw[0] == '[')
    ensures StripSeedPeerPort(raw) == host && host != raw <==>
            ':' !in host && exists d :: d != "" && AllDigits(d) && raw == host + ":" + d
  {
    var c := LastIndex(raw, ':');
    if StripSeedPeerPort(raw) == host && host != raw {
      var d := raw[c + 1..];
      assert d != "" && AllDigits(d) && raw == host + ":" + d;
    }
    forall d | d != "" && AllDigits(d) && raw == host + ":" + d && ':' !in host
      ensures StripSeedPeerPort(raw) == host != raw
    {
      assert raw[|host|] == ':' && raw[..|host|] == host && raw[|host| + 1..] == d;
      assert forall k | |host| < k < |raw| :: raw[k] == d[k - |host| - 1] != ':';
      assert c == |host|;
    }
  }

  /** A bracket that is never closed is not a literal: the entry is left untouched. */
  lemma StripUnclosed(raw: string)
    requires raw != "" && raw[0] == '[' && ']' !in raw
    ensures StripSeedPeerPort(raw) == raw
  {
    assert forall k | 0 <= k < |raw[1..]| :: raw[1..][k] == raw[k + 1] && raw[k + 1] in raw;
  }

  lemma SuffixLacksLast(s: string, c: char)
    ensures c !in s[LastIndex(s, c) + 1..]
  {
    var n := LastIndex(s, c) + 1;
    forall k | 0 <= k < |s[n..]| ensures s[n..][k] != c {
      assert s[n..][k] == s[n + k];
    }
  }

  // --------------------------------------------------------------------- views

  /** The candidates without repeats, in order of first occurrence. */
  function Distinct(ids: seq<string>): seq<string> {
    if ids == [] then []
    else
      var front, last := ids[..|ids| - 1], ids[|ids| - 1];
      if last in front then Distinct(front) else Distinct(front) + [last]
  }

  lemma {:induction false} DistinctMembers(ids: seq<string>)
    ensures forall id: string :: id in Distinct(ids) <==> id in ids
    ensures forall i, j | 0 <= i < j < |Distinct(ids)| :: Distinct(ids)[i] != Distinct(ids)[j]
  {
    if ids != [] {
      var front, last := ids[..|ids| - 1], ids[|ids| - 1];
      DistinctMembers(front);
      assert ids == front + [last];
    }
  }

  /** Position of an id's first occurrence. */
  function FirstOf(ids: seq<string>, id: string): nat {
    if ids == [] || ids[0] == id then 0 else 1 + FirstOf(ids[1..], id)
  }

  lemma {:induction false} FirstOfSnoc(front: seq<string>, last: string, id: string)
    ensures id in front ==> FirstOf(front + [last], id) == FirstOf(front, id) < |front|
    ensures id !in front ==> FirstOf(front, id) == |front| && FirstOf(front + [last], id) >= |front|
  {
    if front != [] {
      assert (front + [last])[1..] == front[1..] + [last];
      FirstOfSnoc(front[1..], last, id);
      assert front == [front[0]] + front[1..];
    } else {
      assert front + [last] == [last];
    }
  }

  /** The ids that are kept stand in the order of their first occurrences. */
  lemma {:induction false} DistinctOrder(ids: seq<string>, i: nat, j: nat)
    requires i < j < |Distinct(ids)|
    ensures FirstOf(ids, Distinct(ids)[i]) < FirstOf(ids, Distinct(ids)[j])
  {
    var front, last := ids[..|ids| - 1], ids[|ids| - 1];
    assert ids == front + [last];
    var kept := Distinct(front);
    DistinctMembers(front);
    FirstOfSnoc(front, last, Distinct(ids)[i]);
    FirstOfSnoc(front, last, Distinct(ids)[j]);
    assert i < |kept| && kept[i] in kept;
    if j < |kept| {
      assert kept[j] in kept;
      DistinctOrder(front, i, j);
    }
  }

  /** Construction from candidates: each is kept once, at its first occurrence. */
  method NewView(candidates: seq<string>) returns (view: seq<string>)
    ensures view == Distinct(candidates)
  {
    var seen: set<string> := {};
    view := [];
    for n := 0 to |candidates|
      invariant view == Distinct(candidates[..n])
      invariant forall id: string :: id in seen <==> id in candidates[..n]
    {
      assert candidates[..n + 1][..n] == candidates[..n];
      if candidates[n] !in seen {
        view := view + [candidates[n]];
      }
      seen := seen + {candidates[n]};
    }
    assert candidates[..|candidates|] == candidates;
  }

  method BuildMembershipView(seedPeers: seq<string>, self: string) returns (view: seq<string>)
    ensures view == Distinct([self] + Peers(seedPeers))
  {
    var candidates := [self];
    for n := 0 to |seedPeers|
      invariant candidates == [self] + Peers(seedPeers[..n])
    {
      assert seedPeers[..n + 1] == seedPeers[..n] + [seedPeers[n]];
      PeersSnoc(seedPeers[..n], seedPeers[n]);
      candidates := candidates + [SeedPeerNodeId(seedPeers[n])];
    }
    assert seedPeers[..|seedPeers|] == seedPeers;
    view := NewView(candidates);
  }

  function Peers(seedPeers: seq<string>): seq<string> {
    if seedPeers == [] then []
    else Peers(seedPeers[..|seedPeers| - 1]) + [SeedPeerNodeId(seedPeers[|seedPeers| - 1])]
  }

  lemma PeersSnoc(seedPeers: seq<string>, raw: string)
    ensures Peers(seedPeers + [raw]) == Peers(seedPeers) + [SeedPeerNodeId(raw)]
  {
    assert (seedPeers + [raw])[..|seedPeers|] == seedPeers;
  }

  predicate NoRepeats(ids: seq<string>) {
    forall i, j | 0 <= i < j < |ids| :: ids[i] != ids[j]
  }

  lemma {:induction false} DistinctKeepsAll(ids: seq<string>)
    requires NoRepeats(ids)
    ensures Distinct(ids) == ids
  {
    if ids != [] {
      var front, last := ids[..|ids| - 1], ids[|ids| - 1];
      DistinctKeepsAll(front);
      assert ids == front + [last];
    }
  }

  // --------------------------------------------------------------------- fleet

  function NodeName(seed: nat, index: nat): string {
    "fleet-" + Decimal(seed) + "-" + Decimal(index)
  }

  /** What a fleet node calls itself: its name is its hostname override. */
  function SelfId(seed: nat, index: nat, kernel: Option<string>, env: Option<string>): string {
    DetectNodeId(Some(NodeName(seed, index)), kernel, env)
  }

  /** The `cluster.seed_peers` rendered for one node: every other node's entry, in index order. */
  function SeedPeers(seed: nat, ports: seq<nat>, node: nat): seq<string> {
    if ports == [] then []
    else
      var last := |ports| - 1;
      SeedPeers(seed, ports[..last], node)
      + if last == node then [] else [PeerEntry(NodeName(seed, last), ports[last])]
  }

  /** A name spells out seed and index, and an entry its port, in decimal. */
  lemma NamesRead(seed: nat, index: nat, host: string, port: nat)
    ensures exists a, b :: AllDigits(a) && AllDigits(b) && Value(a) == seed && Value(b) == index
                           && NodeName(seed, index) == "fleet-" + a + "-" + b
    ensures exists d :: AllDigits(d) && Value(d) == port && PeerEntry(host, port) == host + ":" + d
  {
    ValueOfDecimal(seed);
    ValueOfDecimal(index);
    ValueOfDecimal(port);
    assert NodeName(seed, index) == "fleet-" + Decimal(seed) + "-" + Decimal(index);
    assert PeerEntry(host, port) == host + ":" + Decimal(port);
  }

  lemma NodeNamePlain(seed: nat, index: nat)
    ensures forall c <- NodeName(seed, index) :: c != ':' && c != '['
    ensures NodeName(seed, index) != ""
  {
    DecimalDigits(seed);
    DecimalDigits(index);
    assert ':' !in "fleet-" && '[' !in "fleet-";
  }

  lemma NodeNameInjective(seed: nat, i: nat, j: nat)
    requires NodeName(seed, i) == NodeName(seed, j)
    ensures i == j
  {
    var stem := "fleet-" + Decimal(seed) + "-";
    assert NodeName(seed, i)[|stem|..] == Decimal(i) && NodeName(seed, j)[|stem|..] == Decimal(j);
    DecimalInjective(i, j);
  }

  /** The entry rendered for a peer strips back to exactly the id that peer gives itself. */
  lemma PeerEntryNamesPeer(seed: nat, index: nat, port: nat, kernel: Option<string>, env: Option<string>)
    ensures SeedPeerNodeId(PeerEntry(NodeName(seed, index), port)) == SelfId(seed, index, kernel, env)
  {
    var name := NodeName(seed, index);
    NodeNamePlain(seed, index);
    assert name[0] in name;
    StripRecoversExactlyWhen(name, port);
  }

  function FleetId(seed: nat, index: nat): string {
    Rendered(NodeName(seed, index))
  }

  /** The ids of a whole fleet, in index order. */
  function FleetIds(seed: nat, n: nat): (ids: seq<string>)
    ensures |ids| == n
  {
    if n == 0 then [] else FleetIds(seed, n - 1) + [FleetId(seed, n - 1)]
  }

  lemma {:induction false} FleetIdAt(seed: nat, n: nat, k: nat)
    requires k < n
    ensures FleetIds(seed, n)[k] == FleetId(seed, k)
  {
    if k < n - 1 {
      FleetIdAt(seed, n - 1, k);
    }
  }

  lemma FleetIdInjective(seed: nat, i: nat, j: nat)
    requires FleetId(seed, i) == FleetId(seed, j)
    ensures i == j
  {
    var a, b := NodeName(seed, i), NodeName(seed, j);
    assert |FleetId(seed, i)| == |a| + 1 + |INCARNATION|;
    assert FleetId(seed, i)[..|a|] == a && FleetId(seed, j)[..|b|] == b;
    NodeNameInjective(seed, i, j);
  }

  lemma FleetIdsDiffer(seed: nat, n: nat)
    ensures NoRepeats(FleetIds(seed, n))
  {
    var ids := FleetIds(seed, n);
    forall i, j | 0 <= i < j < n ensures ids[i] != ids[j] {
      FleetIdAt(seed, n, i);
      FleetIdAt(seed, n, j);
      if FleetId(seed, i) == FleetId(seed, j) {
        FleetIdInjective(seed, i, j);
      }
    }
  }

  function Without(ids: seq<string>, k: nat): seq<string> {
    if k < |ids| then ids[..k] + ids[k + 1..] else ids
  }

  lemma OneMorePeer(before: seq<string>, entry: string, ids: seq<string>, id: string, node: nat)
    requires Peers(before) == Without(ids, node) && SeedPeerNodeId(entry) == id
    ensures Peers(before + if |ids| == node then [] else [entry]) == Without(ids + [id], node)
  {
    if |ids| == node {
      assert before + [] == before;
      assert Without(ids + [id], node) == ids;
    } else {
      PeersSnoc(before, entry);
      assert Without(ids + [id], node) == Without(ids, node) + [id];
    }
  }

  /** The peers a node is given are all the others, under the ids they give themselves. */
  lemma {:induction false} PeersAreOthers(seed: nat, ports: seq<nat>, node: nat)
    ensures Peers(SeedPeers(seed, ports, node)) == Without(FleetIds(seed, |ports|), node)
  {
    if ports != [] {
      var last := |ports| - 1;
      var entry := PeerEntry(NodeName(seed, last), ports[last]);
      PeersAreOthers(seed, ports[..last], node);
      EntryNames(seed, last, ports[last]);
      OneMorePeer(SeedPeers(seed, ports[..last], node), entry, FleetIds(seed, last), FleetId(seed, last), node);
    }
  }

  lemma EntryNames(seed: nat, index: nat, port: nat)
    ensures SeedPeerNodeId(PeerEntry(NodeName(seed, index), port)) == FleetId(seed, index)
  {
    PeerEntryNamesPeer(seed, index, port, None, None);
    NodeNamePlain(seed, index);
  }

  /** What `BuildMembershipView` returns on this fleet node. */
  function View(seed: nat, ports: seq<nat>, node: nat, kernel: Option<string>, env: Option<string>): seq<string> {
    Distinct([SelfId(seed, node, kernel, env)] + Peers(SeedPeers(seed, ports, node)))
  }

  /** Where the i-th entry of the moved list came from. */
  function Source(k: nat, i: nat): nat {
    if i == 0 then k else if i <= k then i - 1 else i
  }

  lemma MovedFrom(ids: seq<string>, k: nat, i: nat)
    requires k < |ids| && i < |ids|
    ensures |[ids[k]] + Without(ids, k)| == |ids| && Source(k, i) < |ids|
    ensures ([ids[k]] + Without(ids, k))[i] == ids[Source(k, i)]
  {
  }

  lemma MovedToFront(ids: seq<string>, k: nat)
    requires k < |ids| && NoRepeats(ids)
    ensures NoRepeats([ids[k]] + Without(ids, k))
  {
    var moved := [ids[k]] + Without(ids, k);
    forall i, j | 0 <= i < j < |moved| ensures moved[i] != moved[j] {
      MovedFrom(ids, k, 0);
      MovedFrom(ids, k, i);
      MovedFrom(ids, k, j);
      assert Source(k, i) != Source(k, j);
    }
  }

  lemma MovedMultiset(ids: seq<string>, k: nat)
    requires k < |ids|
    ensures multiset([ids[k]] + Without(ids, k)) == multiset(ids)
  {
    assert ids == ids[..k] + [ids[k]] + ids[k + 1..];
  }

  /** A node's view is the whole fleet, each node once, itself first. */
  lemma ViewIsFleet(seed: nat, ports: seq<nat>, node: nat, kernel: Option<string>, env: Option<string>)
    requires node < |ports|
    ensures var view, ids := View(seed, ports, node, kernel, env), FleetIds(seed, |ports|);
            && multiset(view) == multiset(ids) && NoRepeats(view)
            && |view| == |ports| && view[0] == SelfId(seed, node, kernel, env)
  {
    var ids := FleetIds(seed, |ports|);
    NodeNamePlain(seed, node);
    assert SelfId(seed, node, kernel, env) == FleetId(seed, node);
    FleetIdAt(seed, |ports|, node);
    FleetIdsDiffer(seed, |ports|);
    PeersAreOthers(seed, ports, node);
    MovedToFront(ids, node);
    MovedMultiset(ids, node);
    DistinctKeepsAll([ids[node]] + Without(ids, node));
  }

  /**
   For every seed, fleet size and port assignment, and whatever hostnames the machines
   report, all nodes build the same membership.
   */
  lemma ViewsAgree(seed: nat, ports: seq<nat>, i: nat, j: nat,
                   kernelI: Option<string>, envI: Option<string>, kernelJ: Option<string>, envJ: Option<string>)
    requires i < |ports| && j < |ports|
    ensures multiset(View(seed, ports, i, kernelI, envI)) == multiset(View(seed, ports, j, kernelJ, envJ))
  {
    ViewIsFleet(seed, ports, i, kernelI, envI);
    ViewIsFleet(seed, ports, j, kernelJ, envJ);
  }
}
