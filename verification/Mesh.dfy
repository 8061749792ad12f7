/** What the static bridges of a host keep (sbridge.c): each interface of a bridge owns a broadcast chain with one action
    for every route of the other interfaces, and the action also hangs on the cleanup list of its route. */
module Mesh {
  import opened Base
  import opened Index

  type Bridge = nat
  type If = nat
  type Phys = nat
  type Route = nat
  type MacId = nat
  type Bra = nat
  type Meta = nat
  type Mac = seq<bv8>
  /** Network identifiers have 32 bits in the library; those on the wire have 24. */
  type Vni = bv32
  type Pair = (If, Route)
  type Lists<A> = map<nat, seq<A>>
  /** What the classification rules of a physical interface match besides the MAC address. */
  type Key = (Phys, Option<Vni>)

  /** Chain identifiers are allocated from 1 and never returned. */
  const FIRST_CHAIN := 1
  const MAX_CHAIN := 0xFFFF
  /** So are the handles of the forwarding rules of a bridge. */
  const FIRST_HANDLE := 1
  const MAX_HANDLE := 0xFFFF

  /** The interfaces of each bridge, the routes of each interface and the addresses of each route. */
  datatype Topology = Topology(
    ifList: Lists<If>, bridgeOf: map<If, Bridge>,
    routeList: Lists<Route>, ifaceOf: map<Route, If>, tunnel: map<Route, Option<Meta>>,
    macList: Lists<MacId>, routeOf: map<MacId, Route>, macOf: map<MacId, Mac>)

  /** The broadcast actions, each on the list of its interface and on the list of its route. */
  datatype Actions = Actions(clOwner: Lists<Bra>, from: map<Bra, If>, clDest: Lists<Bra>, to: map<Bra, Route>, next: nat)

  /** Where an interface receives: its physical interface, the VNI it matches there and its broadcast chain there. */
  datatype Port = Port(phys: Phys, vni: Option<Vni>, chain: nat)

  /** The rules on the physical interfaces, and the handles of the bridges. */
  datatype Rules = Rules(port: map<If, Port>, nextChain: map<Phys, nat>, matchVni: map<Phys, bool>, vnet: map<Bridge, Vni>,
                         group: map<Key, If>, fallback: map<Key, If>, nextHandle: map<Bridge, nat>)

  /** The forwarding rules on the bridges. */
  type Forwards = map<(Bridge, Mac), MacId>

  // ---------------------------------------------------------------- lists

  ghost predicate Listed(t: Topology)
  {
    && Indexed(t.ifList, t.bridgeOf)
    && Indexed(t.routeList, t.ifaceOf) && t.routeList.Keys == t.bridgeOf.Keys && t.tunnel.Keys == t.ifaceOf.Keys
    && Indexed(t.macList, t.routeOf) && t.macList.Keys == t.ifaceOf.Keys && t.macOf.Keys == t.routeOf.Keys
  }

  function WithIf(t: Topology, b: Bridge, i: If): Topology
    requires b in t.ifList
  {
    t.(ifList := t.ifList[b := [i] + t.ifList[b]], bridgeOf := t.bridgeOf[i := b], routeList := t.routeList[i := []])
  }

  function WithoutIf(t: Topology, i: If): Topology
    requires i in t.bridgeOf && t.bridgeOf[i] in t.ifList
  {
    var b := t.bridgeOf[i];
    t.(ifList := t.ifList[b := Minus(t.ifList[b], i)], bridgeOf := t.bridgeOf - {i}, routeList := t.routeList - {i})
  }

  function WithRoute(t: Topology, i: If, r: Route, meta: Option<Meta>): Topology
    requires i in t.routeList
  {
    t.(routeList := t.routeList[i := [r] + t.routeList[i]], ifaceOf := t.ifaceOf[r := i], tunnel := t.tunnel[r := meta], macList := t.macList[r := []])
  }

  function WithoutRoute(t: Topology, r: Route): Topology
    requires r in t.ifaceOf && t.ifaceOf[r] in t.routeList
  {
    var i := t.ifaceOf[r];
    t.(routeList := t.routeList[i := Minus(t.routeList[i], r)], ifaceOf := t.ifaceOf - {r}, tunnel := t.tunnel - {r}, macList := t.macList - {r})
  }

  function WithMac(t: Topology, r: Route, m: MacId, mac: Mac): Topology
    requires r in t.macList
  {
    t.(macList := t.macList[r := [m] + t.macList[r]], routeOf := t.routeOf[m := r], macOf := t.macOf[m := mac])
  }

  function WithoutMac(t: Topology, m: MacId): Topology
    requires m in t.routeOf && t.routeOf[m] in t.macList
  {
    var r := t.routeOf[m];
    t.(macList := t.macList[r := Minus(t.macList[r], m)], routeOf := t.routeOf - {m}, macOf := t.macOf - {m})
  }

  /** A virt's interface with its one route and address. */
  function WithVirt(t: Topology, b: Bridge, i: If, r: Route, m: MacId, mac: Mac): Topology
    requires b in t.ifList
  {
    WithMac(WithRoute(WithIf(t, b, i), i, r, None), r, m, mac)
  }

  function WithoutVirt(t: Topology, i: If, r: Route, m: MacId): Topology
    requires m in t.routeOf && t.routeOf[m] == r && r in t.macList && r in t.ifaceOf && t.ifaceOf[r] == i && i in t.routeList
    requires i in t.bridgeOf && t.bridgeOf[i] in t.ifList
  {
    WithoutIf(WithoutRoute(WithoutMac(t, m), r), i)
  }

  lemma MinusHead<A(!new)>(s: seq<A>, a: A)
    requires a !in s
    ensures Minus([a] + s, a) == s
  {
    assert ([a] + s)[1..] == s;
  }

  lemma PutBack<K, V>(m: map<K, V>, k: K, v: V)
    requires k in m
    ensures m[k := v][k := m[k]] == m
  {}

  lemma PutDrop<K, V>(m: map<K, V>, k: K, v: V)
    requires k !in m
    ensures m[k := v] - {k} == m
  {}

  lemma MacRoundTrip(t: Topology, r: Route, m: MacId, mac: Mac)
    requires r in t.macList && m !in t.macList[r] && m !in t.routeOf && m !in t.macOf
    ensures WithoutMac(WithMac(t, r, m, mac), m) == t
  {
    MinusHead(t.macList[r], m);
    PutBack(t.macList, r, [m] + t.macList[r]);
    PutDrop(t.routeOf, m, r);
    PutDrop(t.macOf, m, mac);
  }

  lemma RouteRoundTrip(t: Topology, i: If, r: Route, meta: Option<Meta>)
    requires i in t.routeList && r !in t.routeList[i] && r !in t.ifaceOf && r !in t.tunnel && r !in t.macList
    ensures WithoutRoute(WithRoute(t, i, r, meta), r) == t
  {
    MinusHead(t.routeList[i], r);
    PutBack(t.routeList, i, [r] + t.routeList[i]);
    PutDrop(t.ifaceOf, r, i);
    PutDrop(t.tunnel, r, meta);
    PutDrop(t.macList, r, []);
  }

  lemma IfRoundTrip(t: Topology, b: Bridge, i: If)
    requires b in t.ifList && i !in t.ifList[b] && i !in t.bridgeOf && i !in t.routeList
    ensures WithoutIf(WithIf(t, b, i), i) == t
  {
    MinusHead(t.ifList[b], i);
    PutBack(t.ifList, b, [i] + t.ifList[b]);
    PutDrop(t.bridgeOf, i, b);
    PutDrop(t.routeList, i, []);
  }

  lemma NotListed(t: Topology, b: Bridge, i: If, r: Route, m: MacId)
    requires Listed(t) && b in t.ifList && i !in t.bridgeOf && r !in t.ifaceOf && m !in t.routeOf
    ensures i !in t.ifList[b] && i !in t.routeList && r !in t.tunnel && r !in t.macList && m !in t.macOf
  {}

  /** Removing a virt undoes adding it. */
  lemma VirtRoundTrip(t: Topology, b: Bridge, i: If, r: Route, m: MacId, mac: Mac)
    requires Listed(t) && b in t.ifList && i !in t.bridgeOf && r !in t.ifaceOf && m !in t.routeOf
    ensures WithoutVirt(WithVirt(t, b, i, r, m, mac), i, r, m) == t
  {
    hide Listed;
    NotListed(t, b, i, r, m);
    var t1 := WithIf(t, b, i);
    MacRoundTrip(WithRoute(t1, i, r, None), r, m, mac);
    RouteRoundTrip(t1, i, r, None);
    IfRoundTrip(t, b, i);
  }

  lemma NewBridgeListed(t: Topology, b: Bridge)
    requires Listed(t) && b !in t.ifList
    ensures Listed(t.(ifList := t.ifList[b := []]))
  {
    hide Indexed;
    NewList(t.ifList, t.bridgeOf, b);
  }

  lemma NewIfListed(t: Topology, b: Bridge, i: If)
    requires Listed(t) && b in t.ifList && i !in t.bridgeOf
    ensures Listed(WithIf(t, b, i))
  {
    hide Indexed;
    Hang(t.ifList, t.bridgeOf, b, i);
    NewList(t.routeList, t.ifaceOf, i);
    PutKeys(t.routeList, i, []);
    PutKeys(t.bridgeOf, i, b);
  }

  lemma GoneIfListed(t: Topology, i: If)
    requires Listed(t) && i in t.bridgeOf && t.routeList[i] == []
    ensures t.bridgeOf[i] in t.ifList && Listed(WithoutIf(t, i))
  {
    hide Indexed;
    Home(t.ifList, t.bridgeOf, i);
    Unhang(t.ifList, t.bridgeOf, i);
    DropList(t.routeList, t.ifaceOf, i);
    DropKeys(t.routeList, i);
    DropKeys(t.bridgeOf, i);
  }

  lemma NewRouteListed(t: Topology, i: If, r: Route, meta: Option<Meta>)
    requires Listed(t) && i in t.bridgeOf && r !in t.ifaceOf
    ensures Listed(WithRoute(t, i, r, meta))
  {
    hide Indexed;
    Hang(t.routeList, t.ifaceOf, i, r);
    NewList(t.macList, t.routeOf, r);
    PutKeys(t.routeList, i, [r] + t.routeList[i]);
    PutKeys(t.ifaceOf, r, i);
    PutKeys(t.macList, r, []);
    PutKeys(t.tunnel, r, meta);
  }

  lemma GoneRouteListed(t: Topology, r: Route)
    requires Listed(t) && r in t.ifaceOf && t.macList[r] == []
    ensures t.ifaceOf[r] in t.routeList && Listed(WithoutRoute(t, r))
  {
    hide Indexed;
    Home(t.routeList, t.ifaceOf, r);
    Unhang(t.routeList, t.ifaceOf, r);
    DropList(t.macList, t.routeOf, r);
    PutKeys(t.routeList, t.ifaceOf[r], Minus(t.routeList[t.ifaceOf[r]], r));
    DropKeys(t.ifaceOf, r);
    DropKeys(t.macList, r);
    DropKeys(t.tunnel, r);
  }

  lemma NewMacListed(t: Topology, r: Route, m: MacId, mac: Mac)
    requires Listed(t) && r in t.ifaceOf && m !in t.routeOf
    ensures Listed(WithMac(t, r, m, mac))
  {
    hide Indexed;
    Hang(t.macList, t.routeOf, r, m);
    PutKeys(t.macList, r, [m] + t.macList[r]);
    PutKeys(t.routeOf, m, r);
    PutKeys(t.macOf, m, mac);
  }

  lemma GoneMacListed(t: Topology, m: MacId)
    requires Listed(t) && m in t.routeOf
    ensures t.routeOf[m] in t.macList && Listed(WithoutMac(t, m))
  {
    hide Indexed;
    Home(t.macList, t.routeOf, m);
    Unhang(t.macList, t.routeOf, m);
    PutKeys(t.macList, t.routeOf[m], Minus(t.macList[t.routeOf[m]], m));
    DropKeys(t.routeOf, m);
    DropKeys(t.macOf, m);
  }

  /** Nothing hangs on an empty list. */
  lemma Unused(t: Topology)
    requires Listed(t)
    ensures forall r :: r in t.ifaceOf ==> t.ifaceOf[r] in t.routeList && t.routeList[t.ifaceOf[r]] != []
    ensures forall m :: m in t.routeOf ==> t.routeOf[m] in t.macList && t.macList[t.routeOf[m]] != []
  {
    forall r | r in t.ifaceOf
      ensures t.ifaceOf[r] in t.routeList && t.routeList[t.ifaceOf[r]] != []
    {
      Home(t.routeList, t.ifaceOf, r);
    }
    forall m | m in t.routeOf
      ensures t.routeOf[m] in t.macList && t.macList[t.routeOf[m]] != []
    {
      Home(t.macList, t.routeOf, m);
    }
  }

  // ---------------------------------------------------------------- the mesh

  predicate Across(bridgeOf: map<If, Bridge>, ifaceOf: map<Route, If>, i: If, r: Route)
  {
    i in bridgeOf && r in ifaceOf && ifaceOf[r] in bridgeOf && ifaceOf[r] != i && bridgeOf[ifaceOf[r]] == bridgeOf[i]
  }

  /** The pairs that need an action: an interface, and a route of another interface of its bridge. */
  ghost function MeshPairs(bridgeOf: map<If, Bridge>, ifaceOf: map<Route, If>): set<Pair>
  {
    set i, r | i in bridgeOf && r in ifaceOf && Across(bridgeOf, ifaceOf, i, r) :: (i, r)
  }

  /** There is exactly one action for each of the pairs, and no other. */
  ghost predicate Exactly(from: map<Bra, If>, to: map<Bra, Route>, pairs: set<Pair>)
  {
    && from.Keys == to.Keys
    && (forall a :: a in from ==> (from[a], to[a]) in pairs)
    && (forall a, b :: a in from && b in from && from[a] == from[b] && to[a] == to[b] ==> a == b)
    && (forall p :: p in pairs ==> exists a :: a in from && from[a] == p.0 && to[a] == p.1)
  }

  /** The actions are those of the pairs, each hangs on its two lists, and the interfaces and routes have their lists. */
  ghost predicate Meshed(x: Actions, owners: set<If>, dests: set<Route>, pairs: set<Pair>)
  {
    && Indexed(x.clOwner, x.from) && Indexed(x.clDest, x.to) && Exactly(x.from, x.to, pairs)
    && (forall a :: a in x.from ==> a < x.next) && x.clOwner.Keys == owners && x.clDest.Keys == dests
  }

  function WithBra(x: Actions, i: If, r: Route): Actions
    requires i in x.clOwner && r in x.clDest
  {
    Actions(x.clOwner[i := [x.next] + x.clOwner[i]], x.from[x.next := i], x.clDest[r := [x.next] + x.clDest[r]], x.to[x.next := r], x.next + 1)
  }

  function WithoutBra(x: Actions, a: Bra): Actions
    requires a in x.from && a in x.to && x.from[a] in x.clOwner && x.to[a] in x.clDest
  {
    var i, r := x.from[a], x.to[a];
    Actions(x.clOwner[i := Minus(x.clOwner[i], a)], x.from - {a}, x.clDest[r := Minus(x.clDest[r], a)], x.to - {a}, x.next)
  }

  lemma MakeExactly(from: map<Bra, If>, to: map<Bra, Route>, pairs: set<Pair>, a: Bra, i: If, r: Route)
    requires Exactly(from, to, pairs) && a !in from && (i, r) !in pairs
    ensures Exactly(from[a := i], to[a := r], pairs + {(i, r)})
  {
    var from', to', pairs' := from[a := i], to[a := r], pairs + {(i, r)};
    forall p | p in pairs'
      ensures exists b :: b in from' && from'[b] == p.0 && to'[b] == p.1
    {
      if p in pairs {
        var b :| b in from && from[b] == p.0 && to[b] == p.1;
        assert b in from' && from'[b] == p.0 && to'[b] == p.1;
      } else {
        assert a in from';
      }
    }
  }

  lemma FreeExactly(from: map<Bra, If>, to: map<Bra, Route>, pairs: set<Pair>, a: Bra)
    requires Exactly(from, to, pairs) && a in from
    ensures Exactly(from - {a}, to - {a}, pairs - {(from[a], to[a])})
  {
    var from', to', pairs' := from - {a}, to - {a}, pairs - {(from[a], to[a])};
    forall p | p in pairs'
      ensures exists b :: b in from' && from'[b] == p.0 && to'[b] == p.1
    {
      var b :| b in from && from[b] == p.0 && to[b] == p.1;
      assert b in from' && from'[b] == p.0 && to'[b] == p.1;
    }
  }

  lemma SameActions(x: Actions, owners: set<If>, dests: set<Route>, pairs: set<Pair>, a: Bra)
    requires Meshed(x, owners, dests, pairs) && a in x.from
    ensures a in x.to && x.from[a] in x.clOwner && x.to[a] in x.clDest && (x.from[a], x.to[a]) in pairs
  {
  }

  lemma SameKeys(x: Actions, owners: set<If>, dests: set<Route>, pairs: set<Pair>)
    requires Meshed(x, owners, dests, pairs)
    ensures x.from.Keys == x.to.Keys
  {
  }

  lemma MakeMeshed(x: Actions, owners: set<If>, dests: set<Route>, pairs: set<Pair>, i: If, r: Route)
    requires Meshed(x, owners, dests, pairs) && i in owners && r in dests && (i, r) !in pairs
    ensures Meshed(WithBra(x, i, r), owners, dests, pairs + {(i, r)})
  {
    hide Indexed;
    MakeExactly(x.from, x.to, pairs, x.next, i, r);
    Hang(x.clDest, x.to, r, x.next);
    Hang(x.clOwner, x.from, i, x.next);
  }

  lemma FreeMeshed(x: Actions, owners: set<If>, dests: set<Route>, pairs: set<Pair>, a: Bra)
    requires Meshed(x, owners, dests, pairs) && a in x.from && a in x.to && x.from[a] in x.clOwner && x.to[a] in x.clDest
    ensures Meshed(WithoutBra(x, a), owners, dests, pairs - {(x.from[a], x.to[a])})
  {
    hide Indexed;
    FreeExactly(x.from, x.to, pairs, a);
    Unhang(x.clDest, x.to, a);
    Unhang(x.clOwner, x.from, a);
  }

  lemma NewOwner(x: Actions, owners: set<If>, dests: set<Route>, pairs: set<Pair>, i: If)
    requires Meshed(x, owners, dests, pairs) && i !in owners
    ensures Meshed(x.(clOwner := x.clOwner[i := []]), owners + {i}, dests, pairs)
  {
    hide Indexed, Exactly;
    NewList(x.clOwner, x.from, i);
    PutKeys(x.clOwner, i, []);
  }

  lemma NewDest(x: Actions, owners: set<If>, dests: set<Route>, pairs: set<Pair>, r: Route)
    requires Meshed(x, owners, dests, pairs) && r !in dests
    ensures Meshed(x.(clDest := x.clDest[r := []]), owners, dests + {r}, pairs)
  {
    hide Indexed, Exactly;
    NewList(x.clDest, x.to, r);
    PutKeys(x.clDest, r, []);
  }

  lemma GoneOwner(x: Actions, owners: set<If>, dests: set<Route>, pairs: set<Pair>, i: If)
    requires Meshed(x, owners, dests, pairs) && i in owners && x.clOwner[i] == []
    ensures Meshed(x.(clOwner := x.clOwner - {i}), owners - {i}, dests, pairs)
  {
    hide Indexed, Exactly;
    DropList(x.clOwner, x.from, i);
    DropKeys(x.clOwner, i);
  }

  lemma GoneDest(x: Actions, owners: set<If>, dests: set<Route>, pairs: set<Pair>, r: Route)
    requires Meshed(x, owners, dests, pairs) && r in dests && x.clDest[r] == []
    ensures Meshed(x.(clDest := x.clDest - {r}), owners, dests - {r}, pairs)
  {
    hide Indexed, Exactly;
    DropList(x.clDest, x.to, r);
    DropKeys(x.clDest, r);
  }

  /** With an empty list an interface, or a route, is in no pair. */
  lemma EmptyList(x: Actions, owners: set<If>, dests: set<Route>, pairs: set<Pair>)
    requires Meshed(x, owners, dests, pairs)
    ensures forall i, r :: i in owners && x.clOwner[i] == [] ==> (i, r) !in pairs
    ensures forall i, r :: r in dests && x.clDest[r] == [] ==> (i, r) !in pairs
  {
    forall p | p in pairs
      ensures p.0 in owners && p.1 in dests && x.clOwner[p.0] != [] && x.clDest[p.1] != []
    {
      var a :| a in x.from && x.from[a] == p.0 && x.to[a] == p.1;
      assert a in x.clOwner[p.0] && a in x.clDest[p.1];
    }
  }

  // ---------------------------------------------------------------- pulling and pushing

  ghost function OneToMany(i: If, routes: seq<Route>): set<Pair> { set r | r in routes :: (i, r) }

  ghost function Pulled(i: If, ifaceOf: map<Route, If>, others: seq<If>): set<Pair> { set r | r in ifaceOf && ifaceOf[r] in others :: (i, r) }

  ghost function Pushed(r: Route, i: If, others: seq<If>): set<Pair> { set o | o in others && o != i :: (o, r) }

  lemma OneMoreRoute(i: If, routes: seq<Route>, n: nat)
    requires NoDup(routes) && n < |routes|
    ensures (i, routes[n]) !in OneToMany(i, routes[..n]) && routes[n] in routes
    ensures OneToMany(i, routes[..n + 1]) == OneToMany(i, routes[..n]) + {(i, routes[n])}
  {
    assert routes[..n + 1] == routes[..n] + [routes[n]];
  }

  lemma OneMoreIf(i: If, routeList: Lists<Route>, ifaceOf: map<Route, If>, others: seq<If>, n: nat)
    requires Indexed(routeList, ifaceOf) && NoDup(others) && n < |others| && others[n] in routeList
    ensures Pulled(i, ifaceOf, others[..n + 1]) == Pulled(i, ifaceOf, others[..n]) + OneToMany(i, routeList[others[n]])
    ensures NoDup(routeList[others[n]]) && forall r :: r in routeList[others[n]] ==> r in ifaceOf && (i, r) !in Pulled(i, ifaceOf, others[..n])
  {
    assert others[..n + 1] == others[..n] + [others[n]];
  }

  lemma OneMorePush(r: Route, i: If, others: seq<If>, n: nat)
    requires NoDup(others) && n < |others|
    ensures (others[n], r) !in Pushed(r, i, others[..n]) && others[n] in others
    ensures Pushed(r, i, others[..n + 1]) == Pushed(r, i, others[..n]) + (if others[n] == i then {} else {(others[n], r)})
  {
    assert others[..n + 1] == others[..n] + [others[n]];
  }

  lemma OthersListed(t: Topology, b: Bridge)
    requires Listed(t) && b in t.ifList
    ensures NoDup(t.ifList[b]) && (forall o :: o in t.ifList[b] ==> o in t.bridgeOf && o in t.routeList) && Indexed(t.routeList, t.ifaceOf)
    ensures forall i, r :: (i, r) in MeshPairs(t.bridgeOf, t.ifaceOf) ==> i in t.bridgeOf && r in t.ifaceOf
  {
  }

  lemma NewIfPairs(t: Topology, b: Bridge, i: If)
    requires Indexed(t.ifList, t.bridgeOf) && b in t.ifList && i !in t.bridgeOf && forall r :: r in t.ifaceOf ==> t.ifaceOf[r] in t.bridgeOf
    ensures MeshPairs(t.bridgeOf[i := b], t.ifaceOf) == MeshPairs(t.bridgeOf, t.ifaceOf) + Pulled(i, t.ifaceOf, t.ifList[b])
  {
  }

  lemma NewRoutePairs(t: Topology, i: If, r: Route)
    requires Indexed(t.ifList, t.bridgeOf) && i in t.bridgeOf && r !in t.ifaceOf
    ensures t.bridgeOf[i] in t.ifList
    ensures MeshPairs(t.bridgeOf, t.ifaceOf[r := i]) == MeshPairs(t.bridgeOf, t.ifaceOf) + Pushed(r, i, t.ifList[t.bridgeOf[i]])
  {
  }

  lemma GoneIfPairs(t: Topology, i: If, left: set<Pair>)
    requires forall r :: r in t.ifaceOf ==> t.ifaceOf[r] != i
    requires left <= MeshPairs(t.bridgeOf, t.ifaceOf) && forall p :: p in MeshPairs(t.bridgeOf, t.ifaceOf) ==> (p in left <==> p.0 != i)
    ensures MeshPairs(t.bridgeOf - {i}, t.ifaceOf) == left
  {
    forall p | p in MeshPairs(t.bridgeOf - {i}, t.ifaceOf)
      ensures p in left
    {
      assert Across(t.bridgeOf, t.ifaceOf, p.0, p.1);
      assert p in MeshPairs(t.bridgeOf, t.ifaceOf);
    }
    forall p | p in left
      ensures p in MeshPairs(t.bridgeOf - {i}, t.ifaceOf)
    {
      assert Across(t.bridgeOf, t.ifaceOf, p.0, p.1);
      assert Across(t.bridgeOf - {i}, t.ifaceOf, p.0, p.1);
    }
  }

  lemma GoneRoutePairs(t: Topology, r: Route, left: set<Pair>)
    requires left <= MeshPairs(t.bridgeOf, t.ifaceOf) && forall p :: p in MeshPairs(t.bridgeOf, t.ifaceOf) ==> (p in left <==> p.1 != r)
    ensures MeshPairs(t.bridgeOf, t.ifaceOf - {r}) == left
  {
    forall p | p in MeshPairs(t.bridgeOf, t.ifaceOf - {r})
      ensures p in left
    {
      assert Across(t.bridgeOf, t.ifaceOf, p.0, p.1);
      assert p in MeshPairs(t.bridgeOf, t.ifaceOf);
    }
    forall p | p in left
      ensures p in MeshPairs(t.bridgeOf, t.ifaceOf - {r})
    {
      assert Across(t.bridgeOf, t.ifaceOf, p.0, p.1);
      assert Across(t.bridgeOf, t.ifaceOf - {r}, p.0, p.1);
    }
  }

  // ---------------------------------------------------------------- classification

  function KeyOf(x: Port): Key { (x.phys, x.vni) }

  /** Each interface has its rule, and each rule its interface. */
  ghost predicate Classified(port: map<If, Port>, rules: map<Key, If>)
  {
    && (forall i :: i in port ==> KeyOf(port[i]) in rules && rules[KeyOf(port[i])] == i)
    && (forall k :: k in rules ==> rules[k] in port && KeyOf(port[rules[k]]) == k)
  }

  /** No two interfaces share a chain of a physical interface. */
  ghost predicate Chained(port: map<If, Port>, nextChain: map<Phys, nat>)
  {
    && (forall p :: p in nextChain ==> FIRST_CHAIN <= nextChain[p] <= MAX_CHAIN)
    && (forall i :: i in port ==> port[i].phys in nextChain && FIRST_CHAIN <= port[i].chain < nextChain[port[i].phys])
    && (forall i, j :: i in port && j in port && i != j && port[i].phys == port[j].phys ==> port[i].chain != port[j].chain)
  }

  /** An interface matches the VNI of its network exactly on the physical interfaces that several networks share. */
  ghost predicate VniFits(matchVni: map<Phys, bool>, vnet: map<Bridge, Vni>, p: Phys, b: Bridge, vni: Option<Vni>)
  {
    p in matchVni && b in vnet && vni == if matchVni[p] then Some(vnet[b]) else None
  }

  ghost predicate Tagged(bridgeOf: map<If, Bridge>, port: map<If, Port>, matchVni: map<Phys, bool>, vnet: map<Bridge, Vni>)
  {
    port.Keys == bridgeOf.Keys && forall i :: i in port ==> VniFits(matchVni, vnet, port[i].phys, bridgeOf[i], port[i].vni)
  }

  ghost predicate Ruled(x: Rules, bridgeOf: map<If, Bridge>, bridges: set<Bridge>)
  {
    && Tagged(bridgeOf, x.port, x.matchVni, x.vnet) && Chained(x.port, x.nextChain)
    && x.nextChain.Keys == x.matchVni.Keys && x.vnet.Keys == bridges && x.nextHandle.Keys == bridges
    && Classified(x.port, x.group) && Classified(x.port, x.fallback)
  }

  lemma NewNet(x: Rules, bridgeOf: map<If, Bridge>, bridges: set<Bridge>, b: Bridge, net: Vni)
    requires Ruled(x, bridgeOf, bridges) && b !in bridges
    ensures Ruled(x.(vnet := x.vnet[b := net], nextHandle := x.nextHandle[b := FIRST_HANDLE]), bridgeOf, bridges + {b})
  {
    hide Classified, Chained;
  }

  lemma NewHandle(x: Rules, bridgeOf: map<If, Bridge>, bridges: set<Bridge>, b: Bridge)
    requires Ruled(x, bridgeOf, bridges) && b in bridges
    ensures b in x.nextHandle && b in x.vnet && Ruled(x.(nextHandle := x.nextHandle[b := x.nextHandle[b] + 1]), bridgeOf, bridges)
  {
    hide Classified, Chained, Tagged;
  }

  /** A new physical interface has no rule. */
  lemma FreshPhys(x: Rules, bridgeOf: map<If, Bridge>, bridges: set<Bridge>, p: Phys, vni: Option<Vni>)
    requires Ruled(x, bridgeOf, bridges) && p !in x.nextChain
    ensures (p, vni) !in x.group
  {
    hide Tagged;
  }

  lemma NewPhys(x: Rules, bridgeOf: map<If, Bridge>, bridges: set<Bridge>, p: Phys, vni: bool)
    requires Ruled(x, bridgeOf, bridges) && p !in x.nextChain
    ensures Ruled(x.(nextChain := x.nextChain[p := FIRST_CHAIN], matchVni := x.matchVni[p := vni]), bridgeOf, bridges)
  {
    hide Classified;
  }

  lemma TakeChain(x: Rules, bridgeOf: map<If, Bridge>, bridges: set<Bridge>, p: Phys)
    requires Ruled(x, bridgeOf, bridges) && p in x.nextChain && x.nextChain[p] != MAX_CHAIN
    ensures Ruled(x.(nextChain := x.nextChain[p := x.nextChain[p] + 1]), bridgeOf, bridges)
    ensures x.nextChain[p] >= FIRST_CHAIN && forall i :: i in x.port && x.port[i].phys == p ==> x.port[i].chain < x.nextChain[p]
  {
    hide Classified, Tagged;
  }

  function WithPort(x: Rules, i: If, y: Port): Rules
  {
    x.(port := x.port[i := y], group := x.group[KeyOf(y) := i], fallback := x.fallback[KeyOf(y) := i])
  }

  function WithoutPort(x: Rules, i: If): Rules
    requires i in x.port
  {
    x.(port := x.port - {i}, group := x.group - {KeyOf(x.port[i])}, fallback := x.fallback - {KeyOf(x.port[i])})
  }

  /** The new interface's rules, once its chain has been taken. */
  lemma NewPort(x: Rules, bridgeOf: map<If, Bridge>, bridges: set<Bridge>, i: If, b: Bridge, y: Port)
    requires Ruled(x, bridgeOf, bridges) && i !in bridgeOf && y.phys in x.nextChain && KeyOf(y) !in x.group
    requires VniFits(x.matchVni, x.vnet, y.phys, b, y.vni)
    requires FIRST_CHAIN <= y.chain < x.nextChain[y.phys] && forall j :: j in x.port && x.port[j].phys == y.phys ==> x.port[j].chain < y.chain
    ensures Ruled(WithPort(x, i, y), bridgeOf[i := b], bridges)
  {
    hide Classified;
    assert i !in x.port;
    NewRule(x.port, x.group, i, y);
    SameRules(x.port, x.group, x.fallback);
    NewRule(x.port, x.fallback, i, y);
  }

  lemma GonePort(x: Rules, bridgeOf: map<If, Bridge>, bridges: set<Bridge>, i: If)
    requires Ruled(x, bridgeOf, bridges) && i in bridgeOf
    ensures i in x.port && Ruled(WithoutPort(x, i), bridgeOf - {i}, bridges)
  {
    hide Classified;
    assert i in x.port;
    GoneRule(x.port, x.group, i);
    GoneRule(x.port, x.fallback, i);
  }

  lemma SameRules(port: map<If, Port>, rules: map<Key, If>, rules': map<Key, If>)
    requires Classified(port, rules) && Classified(port, rules')
    ensures rules == rules'
  {
  }

  lemma NewRule(port: map<If, Port>, rules: map<Key, If>, i: If, y: Port)
    requires Classified(port, rules) && i !in port && KeyOf(y) !in rules
    ensures Classified(port[i := y], rules[KeyOf(y) := i])
  {
  }

  lemma GoneRule(port: map<If, Port>, rules: map<Key, If>, i: If)
    requires Classified(port, rules) && i in port
    ensures Classified(port - {i}, rules - {KeyOf(port[i])})
  {
  }

  // ---------------------------------------------------------------- forwarding

  ghost predicate Placed(t: Topology)
  {
    && (forall r :: r in t.ifaceOf ==> t.ifaceOf[r] in t.bridgeOf)
    && (forall m :: m in t.routeOf ==> t.routeOf[m] in t.ifaceOf) && t.macOf.Keys == t.routeOf.Keys
  }

  lemma Homes(t: Topology, r: Route)
    requires Listed(t) && r in t.ifaceOf
    ensures t.ifaceOf[r] in t.bridgeOf && t.bridgeOf[t.ifaceOf[r]] in t.ifList && r in t.macList
  {
  }

  function BridgeOfMac(t: Topology, m: MacId): Bridge
    requires m in t.routeOf && t.routeOf[m] in t.ifaceOf && t.ifaceOf[t.routeOf[m]] in t.bridgeOf
  {
    t.bridgeOf[t.ifaceOf[t.routeOf[m]]]
  }

  /** A forwarding rule leads to an entry with its address on its bridge; and unless some address was
      refused, every entry has its rule. */
  ghost predicate Forwarded(t: Topology, forwards: Forwards, refused: bool)
  {
    && Placed(t)
    && (forall k :: k in forwards ==> forwards[k] in t.macOf && t.macOf[forwards[k]] == k.1 && BridgeOfMac(t, forwards[k]) == k.0)
    && (refused || forall m :: m in t.macOf ==> (BridgeOfMac(t, m), t.macOf[m]) in forwards && forwards[(BridgeOfMac(t, m), t.macOf[m])] == m)
  }

  lemma NewIfForwards(t: Topology, forwards: Forwards, refused: bool, b: Bridge, i: If)
    requires Forwarded(t, forwards, refused) && i !in t.bridgeOf && b in t.ifList
    ensures Forwarded(WithIf(t, b, i), forwards, refused)
  {
  }

  lemma GoneIfForwards(t: Topology, forwards: Forwards, refused: bool, i: If)
    requires Forwarded(t, forwards, refused) && i in t.bridgeOf && t.bridgeOf[i] in t.ifList && forall r :: r in t.ifaceOf ==> t.ifaceOf[r] != i
    ensures Forwarded(WithoutIf(t, i), forwards, refused)
  {
  }

  lemma NewRouteForwards(t: Topology, forwards: Forwards, refused: bool, i: If, r: Route, meta: Option<Meta>)
    requires Forwarded(t, forwards, refused) && i in t.bridgeOf && i in t.routeList && r !in t.ifaceOf
    ensures Forwarded(WithRoute(t, i, r, meta), forwards, refused)
  {
  }

  lemma GoneRouteForwards(t: Topology, forwards: Forwards, refused: bool, r: Route)
    requires Forwarded(t, forwards, refused) && r in t.ifaceOf && t.ifaceOf[r] in t.routeList && forall m :: m in t.routeOf ==> t.routeOf[m] != r
    ensures Forwarded(WithoutRoute(t, r), forwards, refused)
  {
  }

  lemma NewMacForwards(t: Topology, forwards: Forwards, refused: bool, r: Route, m: MacId, mac: Mac)
    requires Forwarded(t, forwards, refused) && r in t.ifaceOf && r in t.macList && m !in t.routeOf
    requires t.ifaceOf[r] in t.bridgeOf && (t.bridgeOf[t.ifaceOf[r]], mac) !in forwards
    ensures Forwarded(WithMac(t, r, m, mac), forwards[(t.bridgeOf[t.ifaceOf[r]], mac) := m], refused)
  {
  }

  lemma RefusedMacForwards(t: Topology, forwards: Forwards, refused: bool, r: Route, m: MacId, mac: Mac)
    requires Forwarded(t, forwards, refused) && r in t.ifaceOf && r in t.macList && m !in t.routeOf
    ensures Forwarded(WithMac(t, r, m, mac), forwards, true)
  {
  }

  /** The forwarding rules without the one of an entry, if it has one. */
  function Unforwarded(t: Topology, forwards: Forwards, m: MacId): Forwards
    requires m in t.macOf && m in t.routeOf && t.routeOf[m] in t.ifaceOf && t.ifaceOf[t.routeOf[m]] in t.bridgeOf
  {
    var k := (BridgeOfMac(t, m), t.macOf[m]);
    if k in forwards && forwards[k] == m then forwards - {k} else forwards
  }

  lemma GoneMacForwards(t: Topology, forwards: Forwards, refused: bool, m: MacId)
    requires Forwarded(t, forwards, refused) && m in t.routeOf && t.routeOf[m] in t.macList
    ensures m in t.macOf && t.routeOf[m] in t.ifaceOf && t.ifaceOf[t.routeOf[m]] in t.bridgeOf
    ensures Forwarded(WithoutMac(t, m), Unforwarded(t, forwards, m), refused)
  {
  }

  // ---------------------------------------------------------------- the bridges

  /** What every operation of the static bridges keeps. */
  ghost predicate Sound(t: Topology, x: Actions, rules: Rules, forwards: Forwards, refused: bool)
  {
    && Listed(t) && Meshed(x, t.bridgeOf.Keys, t.ifaceOf.Keys, MeshPairs(t.bridgeOf, t.ifaceOf))
    && Ruled(rules, t.bridgeOf, t.ifList.Keys) && Forwarded(t, forwards, refused)
  }

  lemma NothingSound(t: Topology, x: Actions, rules: Rules, forwards: Forwards)
    requires t == Topology(map[], map[], map[], map[], map[], map[], map[], map[]) && x == Actions(map[], map[], map[], map[], 0)
    requires rules == Rules(map[], map[], map[], map[], map[], map[], map[]) && forwards == map[]
    ensures Sound(t, x, rules, forwards, false)
  {
    assert MeshPairs(t.bridgeOf, t.ifaceOf) == {};
  }
}
