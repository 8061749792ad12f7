/** What the rules of the static bridges do to a frame (sbridge.c). */
module Dataplane {
  import opened Base
  import opened Index
  import opened Mesh

  const MAC_LENGTH := 6
  const MULTICAST_MASK: Mac := [0x01, 0x00, 0x00, 0x00, 0x00, 0x00]
  const BROADCAST_MAC: Mac := [0xFF, 0xFF, 0xFF, 0xFF, 0xFF, 0xFF]

  /** The destination address, and the VNI of a frame that came out of a tunnel. */
  datatype Frame = Frame(dst: Mac, vni: Option<Vni>)

  // ---------------------------------------------------------------- group addresses

  function MaskMac(mac: Mac): Mac
    requires |mac| == MAC_LENGTH
  {
    seq(MAC_LENGTH, j requires 0 <= j < MAC_LENGTH => mac[j] & MULTICAST_MASK[j])
  }

  /** The rule that classifies group addresses: the address of all ones under the multicast mask. */
  predicate MatchesGroupRule(mac: Mac)
    requires |mac| == MAC_LENGTH
  {
    MaskMac(mac) == MaskMac(BROADCAST_MAC)
  }

  /** The individual/group bit of an IEEE 802 address. */
  predicate IsGroup(mac: Mac)
  {
    |mac| == MAC_LENGTH && mac[0] & 0x01 == 0x01
  }

  lemma GroupRule(mac: Mac)
    requires |mac| == MAC_LENGTH
    ensures MatchesGroupRule(mac) <==> IsGroup(mac)
  {
    var a, b := MaskMac(mac), MaskMac(BROADCAST_MAC);
    assert b[0] == 0x01;
    forall j | 1 <= j < MAC_LENGTH
      ensures a[j] == 0x00 && b[j] == 0x00
    {
      assert MULTICAST_MASK[j] == 0x00;
    }
    assert a[0] == mac[0] & 0x01;
    assert a[0] == b[0] ==> a == b;
  }

  // ---------------------------------------------------------------- where a frame goes

  /** What the classification rules of a physical interface look up for a frame. */
  function FrameKey(rules: Rules, p: Phys, frame: Frame): Key
    requires p in rules.matchVni
  {
    (p, if rules.matchVni[p] then frame.vni else None)
  }

  /** The actions on a chain of a physical interface, in the order in which they run. */
  ghost predicate ChainHolds(x: Actions, rules: Rules, p: Phys, chain: nat, order: seq<Bra>)
  {
    && NoDup(order)
    && forall a :: a in order <==> a in x.from && x.from[a] in rules.port && rules.port[x.from[a]].phys == p && rules.port[x.from[a]].chain == chain
  }

  function RoutesOf(x: Actions, order: seq<Bra>): seq<Route>
    requires forall a :: a in order ==> a in x.to
  {
    seq(|order|, n requires 0 <= n < |order| => x.to[order[n]])
  }

  /** What the bridge's own rules do with a unicast frame. */
  function Switched(t: Topology, forwards: Forwards, b: Bridge, dst: Mac): seq<Route>
  {
    if (b, dst) in forwards && forwards[(b, dst)] in t.routeOf then [t.routeOf[forwards[(b, dst)]]] else []
  }

  /** The routes that get a copy of a frame received on a physical interface. The group rules have priority 0xFF01, the
      fallback rules 0xFF02; `order` is what is on the chain that the group rule selects. */
  ghost function Delivered(t: Topology, x: Actions, rules: Rules, forwards: Forwards, p: Phys, frame: Frame, order: seq<Bra>): seq<Route>
    requires p in rules.matchVni && |frame.dst| == MAC_LENGTH && forall a :: a in order ==> a in x.to
  {
    var k := FrameKey(rules, p, frame);
    if MatchesGroupRule(frame.dst) && k in rules.group then RoutesOf(x, order)
    else if k in rules.fallback && rules.fallback[k] in t.bridgeOf then Switched(t, forwards, t.bridgeOf[rules.fallback[k]], frame.dst)
    else []
  }

  /** A chain holds the actions of one interface only. */
  lemma OwnChain(t: Topology, x: Actions, rules: Rules, forwards: Forwards, refused: bool, i: If, order: seq<Bra>)
    requires Sound(t, x, rules, forwards, refused) && i in rules.port && ChainHolds(x, rules, rules.port[i].phys, rules.port[i].chain, order)
    ensures forall a :: a in order <==> a in x.from && x.from[a] == i
  {
    hide Indexed, Exactly, MeshPairs, Forwarded, Classified, NoDup;
    Ownerships(t, x);
  }

  lemma Ownerships(t: Topology, x: Actions)
    requires Meshed(x, t.bridgeOf.Keys, t.ifaceOf.Keys, MeshPairs(t.bridgeOf, t.ifaceOf))
    ensures x.from.Keys == x.to.Keys
    ensures forall a :: a in x.from ==> x.from[a] in t.bridgeOf && Across(t.bridgeOf, t.ifaceOf, x.from[a], x.to[a])
    ensures forall a, b :: a in x.from && b in x.from && x.from[a] == x.from[b] && x.to[a] == x.to[b] ==> a == b
    ensures forall i, r :: Across(t.bridgeOf, t.ifaceOf, i, r) ==> exists a :: a in x.from && x.from[a] == i && x.to[a] == r
  {
    forall i: If, r: Route | Across(t.bridgeOf, t.ifaceOf, i, r)
      ensures exists a :: a in x.from && x.from[a] == i && x.to[a] == r
    {
      assert (i, r) in MeshPairs(t.bridgeOf, t.ifaceOf);
    }
  }

  /** The chain of an interface reaches each route of the other interfaces of its bridge once, and nothing else. */
  lemma ChainRoutes(t: Topology, x: Actions, i: If, order: seq<Bra>)
    requires Meshed(x, t.bridgeOf.Keys, t.ifaceOf.Keys, MeshPairs(t.bridgeOf, t.ifaceOf)) && NoDup(order)
    requires forall a :: a in order <==> a in x.from && x.from[a] == i
    ensures forall a :: a in order ==> a in x.to
    ensures NoDup(RoutesOf(x, order)) && forall r :: r in RoutesOf(x, order) <==> Across(t.bridgeOf, t.ifaceOf, i, r)
  {
    hide Meshed, MeshPairs, Across;
    Ownerships(t, x);
    var rs := RoutesOf(x, order);
    forall r: Route | Across(t.bridgeOf, t.ifaceOf, i, r)
      ensures r in rs
    {
      var a :| a in x.from && x.from[a] == i && x.to[a] == r;
      var n :| 0 <= n < |order| && order[n] == a;
      assert rs[n] == r;
    }
    forall r | r in rs
      ensures Across(t.bridgeOf, t.ifaceOf, i, r)
    {
      var n :| 0 <= n < |rs| && rs[n] == r;
      assert order[n] in order;
    }
  }

  /** Two interfaces of a bridge never share a physical interface. */
  lemma OnePort(t: Topology, rules: Rules, i: If, j: If)
    requires Ruled(rules, t.bridgeOf, t.ifList.Keys) && i in t.bridgeOf && j in t.bridgeOf && i != j && t.bridgeOf[i] == t.bridgeOf[j]
    ensures i in rules.port && j in rules.port && rules.port[i].phys != rules.port[j].phys
  {
    hide Chained;
    assert VniFits(rules.matchVni, rules.vnet, rules.port[i].phys, t.bridgeOf[i], rules.port[i].vni);
    assert VniFits(rules.matchVni, rules.vnet, rules.port[j].phys, t.bridgeOf[j], rules.port[j].vni);
    assert KeyOf(rules.port[i]) != KeyOf(rules.port[j]);
  }

  /** Who receives: the rules of a physical interface know the interface that serves the frame's VNI there. */
  lemma Ingress(rules: Rules, bridgeOf: map<If, Bridge>, bridges: set<Bridge>, k: Key)
    requires Ruled(rules, bridgeOf, bridges)
    ensures rules.group == rules.fallback
    ensures k in rules.group ==> rules.group[k] in rules.port && rules.group[k] in bridgeOf && KeyOf(rules.port[rules.group[k]]) == k
  {
    hide Chained;
    SameRules(rules.port, rules.group, rules.fallback);
  }

  /** One copy for each route of every other interface of the bridge, and no other. */
  ghost predicate OncePerRoute(t: Topology, i: If, rs: seq<Route>)
  {
    NoDup(rs) && forall r :: r in rs <==> Across(t.bridgeOf, t.ifaceOf, i, r)
  }

  /** No copy leaves through the given physical interface. */
  ghost predicate NoneBack(t: Topology, rules: Rules, p: Phys, rs: seq<Route>)
  {
    forall r :: r in rs ==> r in t.ifaceOf && t.ifaceOf[r] in rules.port && rules.port[t.ifaceOf[r]].phys != p
  }

  /** A group-addressed frame: one copy for each route of every other interface of the bridge, and none back. */
  lemma GroupFlood(t: Topology, x: Actions, rules: Rules, forwards: Forwards, refused: bool, p: Phys, frame: Frame, order: seq<Bra>)
    requires Sound(t, x, rules, forwards, refused) && p in rules.matchVni && IsGroup(frame.dst)
    requires var k := FrameKey(rules, p, frame);
             k in rules.group && rules.group[k] in rules.port && ChainHolds(x, rules, p, rules.port[rules.group[k]].chain, order)
    ensures forall a :: a in order ==> a in x.to
    ensures OncePerRoute(t, rules.group[FrameKey(rules, p, frame)], Delivered(t, x, rules, forwards, p, frame, order))
    ensures NoneBack(t, rules, p, Delivered(t, x, rules, forwards, p, frame, order))
  {
    hide Listed, Meshed, MeshPairs, Ruled, Forwarded, RoutesOf;
    var k := FrameKey(rules, p, frame);
    var i := rules.group[k];
    Ingress(rules, t.bridgeOf, t.ifList.Keys, k);
    GroupRule(frame.dst);
    OwnChain(t, x, rules, forwards, refused, i, order);
    ChainRoutes(t, x, i, order);
    forall r: Route | Across(t.bridgeOf, t.ifaceOf, i, r)
      ensures t.ifaceOf[r] in rules.port && rules.port[t.ifaceOf[r]].phys != p
    {
      OnePort(t, rules, i, t.ifaceOf[r]);
    }
  }

  /** Exactly the route of the bridge's entry with the address, or nothing if there is no such entry. */
  ghost predicate OnlyTo(t: Topology, b: Bridge, dst: Mac, rs: seq<Route>)
  {
    && Placed(t)
    && (forall m :: m in t.macOf && t.macOf[m] == dst && BridgeOfMac(t, m) == b ==> rs == [t.routeOf[m]])
    && ((forall m :: m in t.macOf && t.macOf[m] == dst ==> BridgeOfMac(t, m) != b) ==> rs == [])
  }

  /** A unicast frame goes to the route of its address if the bridge knows it, and nowhere otherwise. */
  lemma UnicastRoute(t: Topology, x: Actions, rules: Rules, forwards: Forwards, p: Phys, frame: Frame)
    requires Sound(t, x, rules, forwards, false) && p in rules.matchVni && |frame.dst| == MAC_LENGTH && !IsGroup(frame.dst)
    requires FrameKey(rules, p, frame) in rules.group && rules.group[FrameKey(rules, p, frame)] in t.bridgeOf
    ensures OnlyTo(t, t.bridgeOf[rules.group[FrameKey(rules, p, frame)]], frame.dst, Delivered(t, x, rules, forwards, p, frame, []))
  {
    hide Listed, Meshed, MeshPairs, Ruled;
    Ingress(rules, t.bridgeOf, t.ifList.Keys, FrameKey(rules, p, frame));
    GroupRule(frame.dst);
  }

  /** A frame with a VNI touches only bridges of the network with that VNI. */
  lemma VniIsolation(t: Topology, x: Actions, rules: Rules, forwards: Forwards, refused: bool, p: Phys, frame: Frame, order: seq<Bra>, vni: Vni)
    requires Sound(t, x, rules, forwards, refused) && p in rules.matchVni && rules.matchVni[p] && frame.vni == Some(vni) && |frame.dst| == MAC_LENGTH
    requires var k := FrameKey(rules, p, frame);
             k in rules.group ==> rules.group[k] in rules.port && ChainHolds(x, rules, p, rules.port[rules.group[k]].chain, order)
    requires forall a :: a in order ==> a in x.to
    ensures forall r :: r in Delivered(t, x, rules, forwards, p, frame, order) ==>
              r in t.ifaceOf && t.ifaceOf[r] in t.bridgeOf && t.bridgeOf[t.ifaceOf[r]] in rules.vnet && rules.vnet[t.bridgeOf[t.ifaceOf[r]]] == vni
  {
    hide Listed, Meshed, MeshPairs, Ruled, Forwarded, RoutesOf, ChainHolds;
    var k := FrameKey(rules, p, frame);
    Ingress(rules, t.bridgeOf, t.ifList.Keys, k);
    if k in rules.group {
      var i := rules.group[k];
      NetOf(rules, t.bridgeOf, t.ifList.Keys, i);
      if IsGroup(frame.dst) {
        GroupFlood(t, x, rules, forwards, refused, p, frame, order);
      } else {
        GroupRule(frame.dst);
        SwitchedStays(t, forwards, refused, t.bridgeOf[i], frame.dst);
      }
    }
  }

  lemma NetOf(rules: Rules, bridgeOf: map<If, Bridge>, bridges: set<Bridge>, i: If)
    requires Ruled(rules, bridgeOf, bridges) && i in rules.port && rules.port[i].phys in rules.matchVni && rules.matchVni[rules.port[i].phys]
    ensures i in bridgeOf && bridgeOf[i] in rules.vnet && rules.port[i].vni == Some(rules.vnet[bridgeOf[i]])
  {
    hide Chained, Classified;
  }

  lemma SwitchedStays(t: Topology, forwards: Forwards, refused: bool, b: Bridge, dst: Mac)
    requires Forwarded(t, forwards, refused)
    ensures forall r :: r in Switched(t, forwards, b, dst) ==> r in t.ifaceOf && t.ifaceOf[r] in t.bridgeOf && t.bridgeOf[t.ifaceOf[r]] == b
  {
  }

  // ---------------------------------------------------------------- the copies

  datatype Copy = Copy(phys: Phys, meta: Option<Meta>)

  /** The tc actions of a broadcast action: the tunnel metadata of the route, if any, then a mirror. */
  function BraActs(t: Topology, rules: Rules, r: Route): seq<Tc>
    requires r in t.tunnel && r in t.ifaceOf && t.ifaceOf[r] in rules.port
  {
    (if t.tunnel[r].Some? then [SetTunnel(t.tunnel[r].value)] else []) + [Mirror(rules.port[t.ifaceOf[r]].phys)]
  }

  ghost predicate RoutesKnown(t: Topology, rules: Rules, rs: seq<Route>)
  {
    forall r :: r in rs ==> r in t.tunnel && r in t.ifaceOf && t.ifaceOf[r] in rules.port
  }

  ghost function ChainActs(t: Topology, rules: Rules, rs: seq<Route>): seq<Tc>
    requires RoutesKnown(t, rules, rs)
  {
    if rs == [] then [] else ChainActs(t, rules, rs[..|rs| - 1]) + BraActs(t, rules, rs[|rs| - 1])
  }

  /** The kernel runs the actions on one frame, so that metadata set for one copy is still set for the next. */
  function Execute(acts: seq<Tc>, meta: Option<Meta>): seq<Copy>
  {
    if acts == [] then []
    else match acts[0]
      case SetTunnel(m) => Execute(acts[1..], Some(m))
      case Mirror(p) => [Copy(p, meta)] + Execute(acts[1..], meta)
  }

  /** The metadata of the frame after some actions. */
  function MetaAfter(acts: seq<Tc>, meta: Option<Meta>): Option<Meta>
  {
    if acts == [] then meta
    else match acts[0]
      case SetTunnel(m) => MetaAfter(acts[1..], Some(m))
      case Mirror(p) => MetaAfter(acts[1..], meta)
  }

  lemma {:induction false} ExecuteSplit(a: seq<Tc>, b: seq<Tc>, meta: Option<Meta>)
    ensures Execute(a + b, meta) == Execute(a, meta) + Execute(b, MetaAfter(a, meta))
    ensures MetaAfter(a + b, meta) == MetaAfter(b, MetaAfter(a, meta))
    decreases a
  {
    if a == [] {
      assert a + b == b;
    } else {
      assert (a + b)[0] == a[0] && (a + b)[1..] == a[1..] + b;
      match a[0]
      case SetTunnel(m) => ExecuteSplit(a[1..], b, Some(m));
      case Mirror(p) => ExecuteSplit(a[1..], b, meta);
    }
  }

  /** The metadata on the copy for the route at position `n`: its own, or else that of the last route before it that has any. */
  ghost function MetaAt(t: Topology, rs: seq<Route>, n: nat, meta: Option<Meta>): Option<Meta>
    requires n < |rs|
  {
    if rs[n] in t.tunnel && t.tunnel[rs[n]].Some? then t.tunnel[rs[n]] else if n == 0 then meta else MetaAt(t, rs, n - 1, meta)
  }

  lemma {:induction false} MetaAtPrefix(t: Topology, rs: seq<Route>, k: nat, n: nat, meta: Option<Meta>)
    requires n < k <= |rs|
    ensures MetaAt(t, rs[..k], n, meta) == MetaAt(t, rs, n, meta)
  {
    if n > 0 { MetaAtPrefix(t, rs, k, n - 1, meta); }
  }

  lemma OneBra(t: Topology, rules: Rules, r: Route, meta: Option<Meta>)
    requires r in t.tunnel && r in t.ifaceOf && t.ifaceOf[r] in rules.port
    ensures var own := if t.tunnel[r].Some? then t.tunnel[r] else meta;
            Execute(BraActs(t, rules, r), meta) == [Copy(rules.port[t.ifaceOf[r]].phys, own)] && MetaAfter(BraActs(t, rules, r), meta) == own
  {
    var mirror := Mirror(rules.port[t.ifaceOf[r]].phys);
    var own := if t.tunnel[r].Some? then t.tunnel[r] else meta;
    assert [mirror][1..] == [];
    assert Execute([mirror], own) == [Copy(mirror.phys, own)] && MetaAfter([mirror], own) == own;
    if t.tunnel[r].Some? {
      assert BraActs(t, rules, r)[1..] == [mirror];
    } else {
      assert BraActs(t, rules, r) == [mirror];
    }
  }

  /** Every route of the chain gets its copy, in order, out of its own interface; with its own metadata if it has any, and
      with what the routes before it left behind otherwise. */
  lemma {:induction false} CopiesAreOwn(t: Topology, rules: Rules, rs: seq<Route>, meta: Option<Meta>)
    requires RoutesKnown(t, rules, rs)
    ensures var copies := Execute(ChainActs(t, rules, rs), meta);
            && |copies| == |rs|
            && forall n :: 0 <= n < |rs| ==> copies[n] == Copy(rules.port[t.ifaceOf[rs[n]]].phys, MetaAt(t, rs, n, meta))
    ensures forall n :: 0 <= n < |rs| && t.tunnel[rs[n]].Some? ==> Execute(ChainActs(t, rules, rs), meta)[n].meta == t.tunnel[rs[n]]
    ensures MetaAfter(ChainActs(t, rules, rs), meta) == if rs == [] then meta else MetaAt(t, rs, |rs| - 1, meta)
  {
    if rs != [] {
      var k := |rs| - 1;
      var front, r := rs[..k], rs[k];
      CopiesAreOwn(t, rules, front, meta);
      ExecuteSplit(ChainActs(t, rules, front), BraActs(t, rules, r), meta);
      OneBra(t, rules, r, MetaAfter(ChainActs(t, rules, front), meta));
      forall n | 0 <= n < k ensures MetaAt(t, front, n, meta) == MetaAt(t, rs, n, meta) { MetaAtPrefix(t, rs, k, n, meta); }
    }
  }
}
