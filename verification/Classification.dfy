/** The classification and forwarding rules of the static bridges as rules of rulesets (sbridge.c, rules.c): looking a frame
    up among the compiled filters finds the interface that serves it, the bridge, and the route of its address. */
module Classification {
  import opened Base
  import opened Masking
  import opened Mesh
  import opened Dataplane
  import R = Ruleset
  import M = RuleMeaning

  const MATCH_PRIO := 0xFF01
  const FALLBACK_PRIO := 0xFF02
  const FORWARD_PRIO := 0
  const PRIORITIES := 0x1_0000

  /** The two actions of the rules on a physical interface, as numbers: go on in a chain, or hand the frame over to a bridge. */
  function GotoChain(chain: nat): R.Act { 2 * chain }
  function GotoSwitch(b: Bridge): R.Act { 2 * b + 1 }
  predicate ToChain(act: R.Act) { act % 2 == 0 }
  function Goal(act: R.Act): nat { act / 2 }

  lemma Goals(n: nat)
    ensures ToChain(GotoChain(n)) && Goal(GotoChain(n)) == n && !ToChain(GotoSwitch(n)) && Goal(GotoSwitch(n)) == n
  {}

  // ---------------------------------------------------------------- match data

  function Be32(v: Vni): seq<bv8>
  {
    [((v >> 24) & 0xFF) as bv8, ((v >> 16) & 0xFF) as bv8, ((v >> 8) & 0xFF) as bv8, (v & 0xFF) as bv8]
  }

  /** The bytes are in network order. */
  lemma Be32Value(v: Vni)
    ensures |Be32(v)| == 4
    ensures (Be32(v)[0] as bv32 << 24) | (Be32(v)[1] as bv32 << 16) | (Be32(v)[2] as bv32 << 8) | (Be32(v)[3] as bv32) == v
  {}

  lemma Be32Injective(a: Vni, b: Vni)
    requires Be32(a) == Be32(b)
    ensures a == b
  {
    assert Be32(a)[0] == Be32(b)[0] && Be32(a)[1] == Be32(b)[1] && Be32(a)[2] == Be32(b)[2] && Be32(a)[3] == Be32(b)[3];
  }

  function Pad(bytes: seq<bv8>): MatchData
    requires |bytes| <= MAX_MATCH_LEN
  {
    seq(MAX_MATCH_LEN, j requires 0 <= j < MAX_MATCH_LEN => if j < |bytes| then bytes[j] else 0)
  }

  function VniData(vni: Option<Vni>): MatchData { if vni.Some? then Pad(Be32(vni.value)) else Pad([]) }

  function VniTarget(matchVni: bool): Target { if matchVni then ENC_KEY_ID else NONE }

  function FramePacket(frame: Frame): Packet
    requires |frame.dst| == MAC_LENGTH
  {
    if frame.vni.Some? then map[DST_MAC := frame.dst, ENC_KEY_ID := Be32(frame.vni.value)] else map[DST_MAC := frame.dst]
  }

  /** The additional match accepts a frame exactly if it carries the VNI. */
  lemma VniAccepts(matchVni: bool, mask: MatchData, vni: Option<Vni>, frame: Frame)
    requires |frame.dst| == MAC_LENGTH && (vni.Some? <==> matchVni)
    ensures Accepts1(VniTarget(matchVni), mask, VniData(vni), FramePacket(frame)) <==> (matchVni ==> frame.vni == vni)
  {
    if matchVni && frame.vni.Some? {
      var a, b := Be32(frame.vni.value), Be32(vni.value);
      if forall j :: 0 <= j < 4 ==> a[j] == b[j] {
        assert a == b;
        Be32Injective(frame.vni.value, vni.value);
      }
    }
  }

  lemma FullMask(a: bv8, b: bv8)
    ensures SameUnder(0xFF, a, b) <==> a == b
  {}

  lemma EmptyMask(a: bv8, b: bv8)
    ensures SameUnder(0x00, a, b)
  {}

  lemma GroupMask(a: bv8)
    ensures SameUnder(0x01, a, 0xFF) <==> a & 0x01 == 0x01
  {}

  lemma PadAt(bytes: seq<bv8>, j: nat)
    requires |bytes| == MAC_LENGTH && j < MAC_LENGTH
    ensures Pad(bytes)[j] == bytes[j]
  {}

  /** The group match accepts a frame exactly if its address is a group address. */
  lemma GroupAccepts(frame: Frame)
    requires |frame.dst| == MAC_LENGTH
    ensures Accepts1(DST_MAC, Pad(MULTICAST_MASK), Pad(BROADCAST_MAC), FramePacket(frame)) <==> IsGroup(frame.dst)
  {
    hide Pad, SameUnder, Be32;
    var mask, data, dst := Pad(MULTICAST_MASK), Pad(BROADCAST_MAC), frame.dst;
    assert FramePacket(frame)[DST_MAC] == dst && SupportsMasking(DST_MAC) && Width(DST_MAC) == MAC_LENGTH;
    PadAt(MULTICAST_MASK, 0);
    PadAt(BROADCAST_MAC, 0);
    GroupMask(dst[0]);
    forall j | 1 <= j < MAC_LENGTH
      ensures SameUnder(mask[j], dst[j], data[j])
    {
      PadAt(MULTICAST_MASK, j);
      assert mask[j] == 0x00;
      EmptyMask(dst[j], data[j]);
    }
  }

  /** The forwarding match accepts a frame exactly if it has the address. */
  lemma ForwardAccepts(mac: Mac, frame: Frame)
    requires |frame.dst| == MAC_LENGTH && |mac| == MAC_LENGTH
    ensures Accepts1(DST_MAC, Pad(BROADCAST_MAC), Pad(mac), FramePacket(frame)) <==> frame.dst == mac
  {
    hide Pad, SameUnder, Be32;
    var mask, data, dst := Pad(BROADCAST_MAC), Pad(mac), frame.dst;
    assert FramePacket(frame)[DST_MAC] == dst && SupportsMasking(DST_MAC) && Width(DST_MAC) == MAC_LENGTH;
    forall j | 0 <= j < MAC_LENGTH
      ensures SameUnder(mask[j], dst[j], data[j]) <==> dst[j] == mac[j]
    {
      PadAt(BROADCAST_MAC, j);
      PadAt(mac, j);
      assert mask[j] == 0xFF;
      FullMask(dst[j], mac[j]);
    }
    SameBytes(dst, mac);
  }

  lemma SameBytes(a: Mac, b: Mac)
    requires |a| == |b| == MAC_LENGTH
    ensures a == b <==> forall j :: 0 <= j < MAC_LENGTH ==> a[j] == b[j]
  {}

  // ---------------------------------------------------------------- the rules of the bridges in the rulesets

  /** A ruleset: its priorities, its live rules, their match data as given, and its filters in the kernel. */
  datatype Table = Table(prios: map<nat, R.Prio>, rules: map<nat, R.Rule>, given: map<nat, Matches>, kernel: R.Kernel)

  ghost predicate Compiled(t: Table) { M.Compiled(t.prios, t.rules, t.given, t.kernel) }

  /** A priority with its targets and masks, holding only the given rules. */
  ghost predicate Defined(t: Table, prio: nat, targets: Targets, masks: Matches, ids: set<nat>)
  {
    && prio in t.prios && t.prios[prio].targets == targets && t.prios[prio].masks == masks
    && (forall id :: id in t.rules && t.rules[id].prio == prio ==> id in ids)
    && (forall id :: id in ids ==> id in t.rules && id in t.given && t.rules[id].prio == prio)
  }

  function GroupTargets(matchVni: bool): Targets { [DST_MAC, VniTarget(matchVni)] }
  const GroupMasks: Matches := [Pad(MULTICAST_MASK), Pad([])]
  function GroupMatches(vni: Option<Vni>): Matches { [Pad(BROADCAST_MAC), VniData(vni)] }
  function FallbackTargets(matchVni: bool): Targets { [VniTarget(matchVni), NONE] }
  const NoMasks: Matches := [Pad([]), Pad([])]
  function FallbackMatches(vni: Option<Vni>): Matches { [VniData(vni), Pad([])] }
  const ForwardTargets: Targets := [DST_MAC, NONE]
  const ForwardMasks: Matches := [Pad(BROADCAST_MAC), Pad([])]
  function ForwardMatches(mac: Mac): Matches
    requires |mac| == MAC_LENGTH
  {
    [Pad(mac), Pad([])]
  }

  ghost function IfsOn(x: Rules, p: Phys): set<If> { set i | i in x.port && x.port[i].phys == p }

  /** The rule of an interface with its match data and its one action. */
  ghost predicate HasRule(t: Table, id: nat, matches: Matches, action: nat)
  {
    id in t.rules && id in t.given && t.given[id] == matches && t.rules[id].action == [action]
  }

  /** The group rules of the interfaces on a physical interface: each leads to the interface's chain. */
  ghost predicate GroupInstalled(x: Rules, p: Phys, t: Table, ids: map<If, nat>)
  {
    && p in x.matchVni && ids.Keys == IfsOn(x, p) && Defined(t, MATCH_PRIO, GroupTargets(x.matchVni[p]), GroupMasks, ids.Values)
    && forall i :: i in ids ==> HasRule(t, ids[i], GroupMatches(x.port[i].vni), GotoChain(x.port[i].chain))
  }

  /** The fallback rules: each leads to the bridge of its interface. */
  ghost predicate FallbackInstalled(x: Rules, bridgeOf: map<If, Bridge>, p: Phys, t: Table, ids: map<If, nat>)
  {
    && p in x.matchVni && ids.Keys == IfsOn(x, p) && Defined(t, FALLBACK_PRIO, FallbackTargets(x.matchVni[p]), NoMasks, ids.Values)
    && forall i :: i in ids ==> i in bridgeOf && HasRule(t, ids[i], FallbackMatches(x.port[i].vni), GotoSwitch(bridgeOf[i]))
  }

  /** The forwarding rules of a bridge: each leads to the route of its address. */
  ghost predicate ForwardInstalled(top: Topology, forwards: Forwards, b: Bridge, t: Table, ids: map<Mac, nat>)
  {
    && (forall mac :: mac in ids <==> (b, mac) in forwards) && Defined(t, FORWARD_PRIO, ForwardTargets, ForwardMasks, ids.Values)
    && (forall mac :: mac in ids ==> |mac| == MAC_LENGTH && forwards[(b, mac)] in top.routeOf)
    && (forall mac :: mac in ids ==> HasRule(t, ids[mac], ForwardMatches(mac), top.routeOf[forwards[(b, mac)]]))
  }

  // ---------------------------------------------------------------- the lookups

  lemma MasksOk(matchVni: bool)
    ensures MasksFit(GroupTargets(matchVni), GroupMasks) && MasksFit(FallbackTargets(matchVni), NoMasks) && MasksFit(ForwardTargets, ForwardMasks)
  {}

  lemma GroupMatch(matchVni: bool, vni: Option<Vni>, frame: Frame)
    requires |frame.dst| == MAC_LENGTH && (vni.Some? <==> matchVni)
    ensures Accepts(GroupTargets(matchVni), GroupMasks, GroupMatches(vni), FramePacket(frame)) <==> IsGroup(frame.dst) && (matchVni ==> frame.vni == vni)
  {
    hide Accepts1, IsGroup;
    GroupAccepts(frame);
    VniAccepts(matchVni, Pad([]), vni, frame);
    var targets, matches, pkt := GroupTargets(matchVni), GroupMatches(vni), FramePacket(frame);
    assert targets[0] == DST_MAC && GroupMasks[0] == Pad(MULTICAST_MASK) && matches[0] == Pad(BROADCAST_MAC);
    assert targets[1] == VniTarget(matchVni) && GroupMasks[1] == Pad([]) && matches[1] == VniData(vni);
  }

  lemma FallbackMatch(matchVni: bool, vni: Option<Vni>, frame: Frame)
    requires |frame.dst| == MAC_LENGTH && (vni.Some? <==> matchVni)
    ensures Accepts(FallbackTargets(matchVni), NoMasks, FallbackMatches(vni), FramePacket(frame)) <==> (matchVni ==> frame.vni == vni)
  {
    VniAccepts(matchVni, Pad([]), vni, frame);
    var targets, matches, pkt := FallbackTargets(matchVni), FallbackMatches(vni), FramePacket(frame);
    assert targets[0] == VniTarget(matchVni) && NoMasks[0] == Pad([]) && matches[0] == VniData(vni);
    assert Accepts1(targets[1], NoMasks[1], matches[1], pkt);
  }

  lemma ForwardMatch(mac: Mac, frame: Frame)
    requires |frame.dst| == MAC_LENGTH && |mac| == MAC_LENGTH
    ensures Accepts(ForwardTargets, ForwardMasks, ForwardMatches(mac), FramePacket(frame)) <==> frame.dst == mac
  {
    ForwardAccepts(mac, frame);
    var matches, pkt := ForwardMatches(mac), FramePacket(frame);
    assert ForwardTargets[0] == DST_MAC && ForwardMasks[0] == Pad(BROADCAST_MAC) && matches[0] == Pad(mac);
    assert Accepts1(ForwardTargets[1], ForwardMasks[1], matches[1], pkt);
  }

  /** An interface on the physical interface serves the frame exactly if it has the key of the frame. */
  lemma KeyMatch(x: Rules, bridgeOf: map<If, Bridge>, bridges: set<Bridge>, p: Phys, frame: Frame, i: If)
    requires Ruled(x, bridgeOf, bridges) && p in x.matchVni && i in x.port && x.port[i].phys == p
    ensures x.port[i].vni.Some? <==> x.matchVni[p]
    ensures (x.matchVni[p] ==> frame.vni == x.port[i].vni) <==> KeyOf(x.port[i]) == FrameKey(x, p, frame)
    ensures KeyOf(x.port[i]) == FrameKey(x, p, frame) <==> FrameKey(x, p, frame) in x.group && x.group[FrameKey(x, p, frame)] == i
  {
    hide Chained;
    assert VniFits(x.matchVni, x.vnet, x.port[i].phys, bridgeOf[i], x.port[i].vni);
  }

  /** A lookup in a priority whose rules are those of `ids`, of which at most one accepts the packet. */
  lemma TableLookup<K(!new)>(t: Table, prio: nat, targets: Targets, masks: Matches, ids: map<K, nat>, pkt: Packet, hit: Option<K>)
    requires Compiled(t) && Defined(t, prio, targets, masks, ids.Values) && MasksFit(targets, masks) && (hit.Some? ==> hit.value in ids)
    requires forall k :: k in ids ==> ids[k] in t.given && (Accepts(targets, masks, t.given[ids[k]], pkt) <==> hit == Some(k))
    ensures hit.Some? ==> ids[hit.value] in t.rules
    ensures M.SelectedAt(t.kernel, prio, pkt) == if hit.Some? then t.rules[ids[hit.value]].action else []
  {
    hide M.Compiled, MasksFit, Accepts, M.SelectedAt;
    forall id: nat
      ensures M.Matching(t.prios, t.rules, t.given, prio, pkt, id) <==> hit.Some? && id == ids[hit.value]
    {
      if id in ids.Values {
        var k :| k in ids && ids[k] == id;
      }
      if hit.Some? && id == ids[hit.value] {
        assert id in ids.Values;
      }
    }
    if hit.Some? {
      M.LookupHit(t.prios, t.rules, t.given, t.kernel, prio, pkt, ids[hit.value]);
    } else {
      M.LookupMiss(t.prios, t.rules, t.given, t.kernel, prio, pkt);
    }
  }

  lemma OnPhys(x: Rules, bridgeOf: map<If, Bridge>, bridges: set<Bridge>, p: Phys, frame: Frame)
    requires Ruled(x, bridgeOf, bridges) && p in x.matchVni
    ensures x.group == x.fallback
    ensures FrameKey(x, p, frame) in x.group ==> x.group[FrameKey(x, p, frame)] in IfsOn(x, p) && x.group[FrameKey(x, p, frame)] in bridgeOf
  {
    Ingress(x, bridgeOf, bridges, FrameKey(x, p, frame));
  }

  /** The interface that serves the frame, if there is one. */
  ghost function Server(x: Rules, p: Phys, frame: Frame): Option<If>
    requires p in x.matchVni
  {
    if FrameKey(x, p, frame) in x.group then Some(x.group[FrameKey(x, p, frame)]) else None
  }

  /** Looking a frame up among the group rules gives the chain of the interface that serves it, if its address is a group
      address and there is such an interface, and nothing otherwise. */
  lemma GroupLookup(x: Rules, bridgeOf: map<If, Bridge>, bridges: set<Bridge>, p: Phys, frame: Frame, t: Table, ids: map<If, nat>)
    requires Ruled(x, bridgeOf, bridges) && Compiled(t) && GroupInstalled(x, p, t, ids) && |frame.dst| == MAC_LENGTH
    ensures Server(x, p, frame).Some? ==> Server(x, p, frame).value in x.port
    ensures M.SelectedAt(t.kernel, 0xFF01, FramePacket(frame)) ==
            if IsGroup(frame.dst) && Server(x, p, frame).Some? then [GotoChain(x.port[Server(x, p, frame).value].chain)] else []
  {
    hide Ruled, Compiled, Accepts, IsGroup, M.SelectedAt, MasksFit, Defined;
    MasksOk(x.matchVni[p]);
    OnPhys(x, bridgeOf, bridges, p, frame);
    var hit := if IsGroup(frame.dst) then Server(x, p, frame) else None;
    forall i | i in ids
      ensures ids[i] in t.given && (Accepts(GroupTargets(x.matchVni[p]), GroupMasks, t.given[ids[i]], FramePacket(frame)) <==> hit == Some(i))
    {
      KeyMatch(x, bridgeOf, bridges, p, frame, i);
      GroupMatch(x.matchVni[p], x.port[i].vni, frame);
    }
    TableLookup(t, MATCH_PRIO, GroupTargets(x.matchVni[p]), GroupMasks, ids, FramePacket(frame), hit);
  }

  /** Looking a frame up among the fallback rules gives the bridge of the interface that serves it. */
  lemma FallbackLookup(x: Rules, bridgeOf: map<If, Bridge>, bridges: set<Bridge>, p: Phys, frame: Frame, t: Table, ids: map<If, nat>)
    requires Ruled(x, bridgeOf, bridges) && Compiled(t) && FallbackInstalled(x, bridgeOf, p, t, ids) && |frame.dst| == MAC_LENGTH
    ensures Server(x, p, frame).Some? ==> Server(x, p, frame).value in bridgeOf
    ensures M.SelectedAt(t.kernel, 0xFF02, FramePacket(frame)) ==
            if Server(x, p, frame).Some? then [GotoSwitch(bridgeOf[Server(x, p, frame).value])] else []
  {
    hide Ruled, Compiled, Accepts, M.SelectedAt, MasksFit, Defined;
    MasksOk(x.matchVni[p]);
    OnPhys(x, bridgeOf, bridges, p, frame);
    var hit := Server(x, p, frame);
    forall i | i in ids
      ensures ids[i] in t.given && (Accepts(FallbackTargets(x.matchVni[p]), NoMasks, t.given[ids[i]], FramePacket(frame)) <==> hit == Some(i))
    {
      KeyMatch(x, bridgeOf, bridges, p, frame, i);
      FallbackMatch(x.matchVni[p], x.port[i].vni, frame);
    }
    TableLookup(t, FALLBACK_PRIO, FallbackTargets(x.matchVni[p]), NoMasks, ids, FramePacket(frame), hit);
  }

  /** Looking a frame up among the forwarding rules of a bridge gives the route of its address. */
  lemma ForwardLookup(top: Topology, forwards: Forwards, b: Bridge, frame: Frame, t: Table, ids: map<Mac, nat>)
    requires Compiled(t) && ForwardInstalled(top, forwards, b, t, ids) && |frame.dst| == MAC_LENGTH
    ensures M.SelectedAt(t.kernel, 0, FramePacket(frame)) == Switched(top, forwards, b, frame.dst)
  {
    hide Compiled, Accepts, M.SelectedAt, MasksFit, Defined;
    MasksOk(true);
    var hit := if frame.dst in ids then Some(frame.dst) else None;
    forall mac | mac in ids
      ensures ids[mac] in t.given && (Accepts(ForwardTargets, ForwardMasks, t.given[ids[mac]], FramePacket(frame)) <==> hit == Some(mac))
    {
      ForwardMatch(mac, frame);
    }
    TableLookup(t, FORWARD_PRIO, ForwardTargets, ForwardMasks, ids, FramePacket(frame), hit);
  }

  // ---------------------------------------------------------------- all decisions as lookups

  /** The rulesets of a physical interface and of the bridges. */
  datatype Tables = Tables(phys: Table, groupIds: map<If, nat>, fallbackIds: map<If, nat>, bridges: map<Bridge, Table>, macIds: map<Bridge, map<Mac, nat>>)

  ghost predicate Installed(top: Topology, rules: Rules, forwards: Forwards, p: Phys, ts: Tables)
  {
    && Compiled(ts.phys) && GroupInstalled(rules, p, ts.phys, ts.groupIds) && FallbackInstalled(rules, top.bridgeOf, p, ts.phys, ts.fallbackIds)
    && (forall b :: b in ts.bridges <==> b in top.ifList)
    && (forall b :: b in ts.bridges ==> b in ts.macIds && Compiled(ts.bridges[b]) && ForwardInstalled(top, forwards, b, ts.bridges[b], ts.macIds[b]))
  }

  /** No rule at another priority of the physical interface, such as one of a firewall, takes the frame. */
  ghost predicate NotTaken(kernel: R.Kernel, pkt: Packet)
  {
    forall q: nat :: q < PRIORITIES && q != MATCH_PRIO && q != FALLBACK_PRIO ==> M.SelectedAt(kernel, q, pkt) == []
  }

  /** Where a frame goes when every decision is a lookup: the lowest priority that matches sends it to a chain, whose actions
      run, or to a bridge, whose own rules are asked. */
  ghost function Looked(x: Actions, ts: Tables, frame: Frame, chains: map<nat, seq<Bra>>): seq<Route>
    requires |frame.dst| == MAC_LENGTH && forall c, a :: c in chains && a in chains[c] ==> a in x.to
  {
    var pkt := FramePacket(frame);
    var hit := M.FirstSelected(ts.phys.kernel, 0, PRIORITIES, pkt);
    if hit == [] then []
    else if ToChain(hit[0]) then (if Goal(hit[0]) in chains then RoutesOf(x, chains[Goal(hit[0])]) else [])
    else if Goal(hit[0]) in ts.bridges then M.SelectedAt(ts.bridges[Goal(hit[0])].kernel, FORWARD_PRIO, pkt)
    else []
  }

  /** The group rules are asked before the fallback rules. */
  lemma GroupFirst(kernel: R.Kernel, pkt: Packet)
    requires NotTaken(kernel, pkt)
    ensures M.FirstSelected(kernel, 0, PRIORITIES, pkt) ==
            if M.SelectedAt(kernel, 0xFF01, pkt) != [] then M.SelectedAt(kernel, 0xFF01, pkt) else M.SelectedAt(kernel, 0xFF02, pkt)
  {
    hide M.SelectedAt;
    if M.SelectedAt(kernel, 0xFF01, pkt) != [] {
      M.FirstIs(kernel, 0, PRIORITIES, pkt, 0xFF01);
    } else if M.SelectedAt(kernel, 0xFF02, pkt) != [] {
      M.FirstIs(kernel, 0, PRIORITIES, pkt, 0xFF02);
    } else {
      M.FirstIsNone(kernel, 0, PRIORITIES, pkt);
    }
  }

  /** The lookups decide as `Delivered` says, with the actions of the chain that the serving interface has. */
  lemma LookupsDeliver(
    top: Topology, x: Actions, rules: Rules, forwards: Forwards, p: Phys, frame: Frame, order: seq<Bra>, ts: Tables, chains: map<nat, seq<Bra>>)
    requires |frame.dst| == MAC_LENGTH && (forall a :: a in order ==> a in x.to) && p in rules.matchVni
    requires forall c, a :: c in chains && a in chains[c] ==> a in x.to
    requires Listed(top) && Ruled(rules, top.bridgeOf, top.ifList.Keys) && Installed(top, rules, forwards, p, ts)
    requires NotTaken(ts.phys.kernel, FramePacket(frame))
    requires Server(rules, p, frame).Some? && Server(rules, p, frame).value in rules.port ==>
               var chain := rules.port[Server(rules, p, frame).value].chain; chain in chains && chains[chain] == order
    ensures Looked(x, ts, frame, chains) == Delivered(top, x, rules, forwards, p, frame, order)
  {
    hide Listed, Ruled, Compiled, M.SelectedAt, M.FirstSelected, NotTaken, GroupInstalled, FallbackInstalled, ForwardInstalled, RoutesOf, IsGroup;
    hide GotoChain, GotoSwitch, ToChain, Goal, FramePacket, MatchesGroupRule, Switched;
    GroupRule(frame.dst);
    OnPhys(rules, top.bridgeOf, top.ifList.Keys, p, frame);
    FirstHit(top, rules, p, frame, ts);
    if Server(rules, p, frame).Some? {
      var i := Server(rules, p, frame).value;
      Goals(rules.port[i].chain);
      Goals(top.bridgeOf[i]);
      BridgeListed(top, i);
      ForwardLookup(top, forwards, top.bridgeOf[i], frame, ts.bridges[top.bridgeOf[i]], ts.macIds[top.bridgeOf[i]]);
    }
  }

  /** What the physical interface does with a frame: to the chain or to the bridge of the interface that serves it. */
  lemma FirstHit(top: Topology, rules: Rules, p: Phys, frame: Frame, ts: Tables)
    requires |frame.dst| == MAC_LENGTH && p in rules.matchVni && Ruled(rules, top.bridgeOf, top.ifList.Keys) && Compiled(ts.phys)
    requires GroupInstalled(rules, p, ts.phys, ts.groupIds) && FallbackInstalled(rules, top.bridgeOf, p, ts.phys, ts.fallbackIds)
    requires NotTaken(ts.phys.kernel, FramePacket(frame))
    ensures Server(rules, p, frame).Some? ==> Server(rules, p, frame).value in rules.port && Server(rules, p, frame).value in top.bridgeOf
    ensures M.FirstSelected(ts.phys.kernel, 0, PRIORITIES, FramePacket(frame)) ==
            if Server(rules, p, frame).None? then []
            else if IsGroup(frame.dst) then [GotoChain(rules.port[Server(rules, p, frame).value].chain)]
            else [GotoSwitch(top.bridgeOf[Server(rules, p, frame).value])]
  {
    hide Ruled, Compiled, M.SelectedAt, M.FirstSelected, NotTaken, GroupInstalled, FallbackInstalled, IsGroup, FramePacket, Server;
    GroupLookup(rules, top.bridgeOf, top.ifList.Keys, p, frame, ts.phys, ts.groupIds);
    FallbackLookup(rules, top.bridgeOf, top.ifList.Keys, p, frame, ts.phys, ts.fallbackIds);
    GroupFirst(ts.phys.kernel, FramePacket(frame));
  }

  lemma BridgeListed(top: Topology, i: If)
    requires Listed(top) && i in top.bridgeOf
    ensures top.bridgeOf[i] in top.ifList
  {}
}
