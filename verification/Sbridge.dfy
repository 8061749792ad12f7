/** The operations of the static bridges (sbridge.c). The intrusive lists are sequences here. */
module Sbridge {
  import opened Base
  import opened States
  import opened Index
  import opened Mesh

  class Switch {
    var topology: Topology
    var actions: Actions
    var rules: Rules
    var forwards: Forwards
    /** Whether the forwarding rule of some address was refused. */
    ghost var refused: bool

    ghost function Pairs(): set<Pair>
      reads `topology
    {
      MeshPairs(topology.bridgeOf, topology.ifaceOf)
    }

    ghost predicate Valid()
      reads this
    {
      Sound(topology, actions, rules, forwards, refused)
    }

    constructor ()
      ensures Valid() && !refused && topology.ifList == map[] && rules.nextChain == map[]
    {
      hide Sound;
      topology := Topology(map[], map[], map[], map[], map[], map[], map[], map[]);
      actions := Actions(map[], map[], map[], map[], 0);
      rules := Rules(map[], map[], map[], map[], map[], map[], map[]);
      forwards, refused := map[], false;
      new;
      NothingSound(topology, actions, rules, forwards);
    }

    /** `lsdn_sbridge_init`, for the bridge of a network. */
    method Init(b: Bridge, net: Vni)
      requires Valid() && b !in topology.ifList
      modifies `topology, `rules
      ensures Valid() && topology == old(topology).(ifList := old(topology.ifList)[b := []])
      ensures rules == old(rules).(vnet := old(rules.vnet)[b := net], nextHandle := old(rules.nextHandle)[b := 1])
    {
      hide Listed, Meshed, MeshPairs, Ruled;
      NewBridgeListed(topology, b);
      NewNet(rules, topology.bridgeOf, topology.ifList.Keys, b, net);
      PutKeys(topology.ifList, b, []);
      topology := topology.(ifList := topology.ifList[b := []]);
      rules := rules.(vnet := rules.vnet[b := net], nextHandle := rules.nextHandle[b := FIRST_HANDLE]);
    }

    /** `lsdn_sbridge_phys_if_init` */
    method PhysIfInit(p: Phys, vni: bool)
      requires Valid() && p !in rules.nextChain
      modifies `rules
      ensures Valid() && rules == old(rules).(nextChain := old(rules.nextChain)[p := FIRST_CHAIN], matchVni := old(rules.matchVni)[p := vni])
    {
      hide Listed, Meshed, MeshPairs, Ruled, Forwarded;
      NewPhys(rules, topology.bridgeOf, topology.ifList.Keys, p, vni);
      rules := rules.(nextChain := rules.nextChain[p := FIRST_CHAIN], matchVni := rules.matchVni[p := vni]);
    }

    /** `if_br_make` */
    method IfBrMake(i: If, r: Route, ghost owners: set<If>, ghost dests: set<Route>, ghost pairs: set<Pair>)
      requires Meshed(actions, owners, dests, pairs) && i in owners && r in dests && (i, r) !in pairs
      modifies `actions
      ensures Meshed(actions, owners, dests, pairs + {(i, r)})
    {
      hide Indexed, Exactly;
      MakeMeshed(actions, owners, dests, pairs, i, r);
      actions := WithBra(actions, i, r);
    }

    // -------------------------------------------------------------- interfaces

    /** The inner loop of `lsdn_sbridge_add_if`. */
    method Pull(i: If, routes: seq<Route>, ghost owners: set<If>, ghost dests: set<Route>, ghost pairs: set<Pair>)
      requires Meshed(actions, owners, dests, pairs) && i in owners && NoDup(routes)
      requires forall r :: r in routes ==> r in dests && (i, r) !in pairs
      modifies `actions
      ensures Meshed(actions, owners, dests, pairs + OneToMany(i, routes))
    {
      hide Meshed;
      var n := 0;
      assert pairs + OneToMany(i, routes[..0]) == pairs;
      while n < |routes|
        invariant n <= |routes| && Meshed(actions, owners, dests, pairs + OneToMany(i, routes[..n]))
      {
        OneMoreRoute(i, routes, n);
        IfBrMake(i, routes[n], owners, dests, pairs + OneToMany(i, routes[..n]));
        assert pairs + OneToMany(i, routes[..n + 1]) == pairs + OneToMany(i, routes[..n]) + {(i, routes[n])};
        n := n + 1;
      }
      assert routes[..n] == routes;
    }

    /** The outer loop of `lsdn_sbridge_add_if`. */
    method PullAll(i: If, others: seq<If>, ghost owners: set<If>, ghost pairs: set<Pair>)
      requires Meshed(actions, owners, topology.ifaceOf.Keys, pairs) && i in owners && Indexed(topology.routeList, topology.ifaceOf)
      requires NoDup(others) && (forall o :: o in others ==> o in topology.routeList) && forall r :: (i, r) !in pairs
      modifies `actions
      ensures Meshed(actions, owners, topology.ifaceOf.Keys, pairs + Pulled(i, topology.ifaceOf, others))
    {
      hide Meshed, Indexed, NoDup;
      var n := 0;
      var t := topology;
      assert pairs + Pulled(i, t.ifaceOf, others[..0]) == pairs;
      while n < |others|
        invariant n <= |others| && Meshed(actions, owners, t.ifaceOf.Keys, pairs + Pulled(i, t.ifaceOf, others[..n]))
      {
        OneMoreIf(i, t.routeList, t.ifaceOf, others, n);
        Pull(i, t.routeList[others[n]], owners, t.ifaceOf.Keys, pairs + Pulled(i, t.ifaceOf, others[..n]));
        assert pairs + Pulled(i, t.ifaceOf, others[..n + 1]) == pairs + Pulled(i, t.ifaceOf, others[..n]) + OneToMany(i, t.routeList[others[n]]);
        n := n + 1;
      }
      assert others[..n] == others;
    }

    /** The broadcast chain and the two classification rules of a new interface. */
    method Classify(b: Bridge, i: If, p: Phys, vni: Option<Vni>) returns (err: Error)
      requires Ruled(rules, topology.bridgeOf, topology.ifList.Keys) && i !in topology.bridgeOf
      requires p in rules.nextChain && VniFits(rules.matchVni, rules.vnet, p, b, vni)
      modifies `rules
      ensures err == if old(rules.nextChain[p]) == MAX_CHAIN then LSDNE_NOMEM else if (p, vni) in old(rules.group) then LSDNE_DUPLICATE else LSDNE_OK
      ensures err == LSDNE_OK ==> rules == Ported(old(rules), i, p, vni)
      ensures err != LSDNE_OK ==> rules == old(rules).(nextChain := rules.nextChain)
      ensures Ruled(rules, if err == LSDNE_OK then topology.bridgeOf[i := b] else topology.bridgeOf, topology.ifList.Keys)
    {
      hide Ruled;
      var chain := rules.nextChain[p];
      if chain == MAX_CHAIN {
        return LSDNE_NOMEM;
      }
      TakeChain(rules, topology.bridgeOf, topology.ifList.Keys, p);
      rules := rules.(nextChain := rules.nextChain[p := chain + 1]);
      if (p, vni) in rules.group {
        return LSDNE_DUPLICATE;
      }
      err := LSDNE_OK;
      NewPort(rules, topology.bridgeOf, topology.ifList.Keys, i, b, Port(p, vni, chain));
      rules := WithPort(rules, i, Port(p, vni, chain));
    }

    /** Pulls the broadcast actions of a new interface and links it. */
    method Enmesh(b: Bridge, i: If)
      requires Listed(topology) && Meshed(actions, topology.bridgeOf.Keys, topology.ifaceOf.Keys, Pairs()) && b in topology.ifList && i !in topology.bridgeOf
      modifies `topology, `actions
      ensures Listed(topology) && Meshed(actions, topology.bridgeOf.Keys, topology.ifaceOf.Keys, Pairs())
      ensures topology == WithIf(old(topology), b, i)
    {
      hide Indexed, Meshed, MeshPairs, Pulled;
      ghost var pairs := Pairs();
      NewOwner(actions, topology.bridgeOf.Keys, topology.ifaceOf.Keys, pairs, i);
      actions := actions.(clOwner := actions.clOwner[i := []]);
      OthersListed(topology, b);
      PullAll(i, topology.ifList[b], topology.bridgeOf.Keys + {i}, pairs);
      Unused(topology);
      NewIfPairs(topology, b, i);
      NewIfListed(topology, b, i);
      PutKeys(topology.bridgeOf, i, b);
      topology := WithIf(topology, b, i);
    }

    /** `lsdn_sbridge_add_if`: refused when the chain identifiers have run out or when the physical interface already
        serves the same VNI. */
    method AddIf(b: Bridge, i: If, p: Phys, vni: Option<Vni>) returns (err: Error)
      requires Valid() && b in topology.ifList && i !in topology.bridgeOf
      requires p in rules.nextChain && VniFits(rules.matchVni, rules.vnet, p, b, vni)
      modifies `topology, `actions, `rules
      ensures Valid()
      ensures err == if old(rules.nextChain[p]) == 0xFFFF then LSDNE_NOMEM else if (p, vni) in old(rules.group) then LSDNE_DUPLICATE else LSDNE_OK
      ensures err == LSDNE_OK ==> topology == WithIf(old(topology), b, i) && rules == Ported(old(rules), i, p, vni)
      ensures err != LSDNE_OK ==> topology == old(topology) && actions == old(actions) && rules == old(rules).(nextChain := rules.nextChain)
      ensures err == LSDNE_OK ==>
                rules == old(rules).(port := old(rules.port)[i := Port(p, vni, old(rules.nextChain)[p])], nextChain := rules.nextChain,
                                     group := old(rules.group)[(p, vni) := i], fallback := old(rules.fallback)[(p, vni) := i])
      ensures err == LSDNE_OK ==>
                topology == old(topology).(ifList := old(topology.ifList)[b := [i] + old(topology.ifList)[b]],
                                           bridgeOf := old(topology.bridgeOf)[i := b], routeList := old(topology.routeList)[i := []])
    {
      hide Listed, Meshed, MeshPairs, Ruled, Forwarded, VniFits, Ported, WithIf;
      err := Classify(b, i, p, vni);
      if err == LSDNE_OK {
        PortedIs(old(rules), i, p, vni);
        WithIfIs(topology, b, i);
        NewIfForwards(topology, forwards, refused, b, i);
        PutKeys(topology.ifList, b, [i] + topology.ifList[b]);
        Enmesh(b, i);
      }
    }

    /** The owner list of an interface is flushed: each of its actions leaves both of its lists. */
    method FlushOwner(i: If, ghost owners: set<If>, ghost dests: set<Route>, ghost pairs: set<Pair>) returns (ghost left: set<Pair>)
      requires Meshed(actions, owners, dests, pairs) && i in owners
      modifies `actions
      ensures Meshed(actions, owners, dests, left) && i in actions.clOwner && actions.clOwner[i] == []
      ensures left <= pairs && forall p :: p in pairs ==> (p in left <==> p.0 != i)
    {
      hide Exactly;
      left := pairs;
      while actions.clOwner[i] != []
        invariant Meshed(actions, owners, dests, left) && left <= pairs && forall p :: p in pairs && p.0 != i ==> p in left
        decreases actions.from.Keys
      {
        var a := actions.clOwner[i][0];
        assert a in actions.clOwner[i] && a in actions.from && actions.from[a] == i;
        SameActions(actions, owners, dests, left, a);
        FreeMeshed(actions, owners, dests, left, a);
        left := left - {(actions.from[a], actions.to[a])};
        actions := WithoutBra(actions, a);
      }
      EmptyList(actions, owners, dests, left);
    }

    /** The destination list of a route is flushed. */
    method FlushDest(r: Route, ghost owners: set<If>, ghost dests: set<Route>, ghost pairs: set<Pair>) returns (ghost left: set<Pair>)
      requires Meshed(actions, owners, dests, pairs) && r in dests
      modifies `actions
      ensures Meshed(actions, owners, dests, left) && r in actions.clDest && actions.clDest[r] == []
      ensures left <= pairs && forall p :: p in pairs ==> (p in left <==> p.1 != r)
    {
      hide Exactly;
      left := pairs;
      while actions.clDest[r] != []
        invariant Meshed(actions, owners, dests, left) && left <= pairs && forall p :: p in pairs && p.1 != r ==> p in left
        decreases actions.to.Keys
      {
        var a := actions.clDest[r][0];
        assert a in actions.clDest[r] && a in actions.to && actions.to[a] == r;
        SameKeys(actions, owners, dests, left);
        SameActions(actions, owners, dests, left, a);
        FreeMeshed(actions, owners, dests, left, a);
        left := left - {(actions.from[a], actions.to[a])};
        actions := WithoutBra(actions, a);
      }
      EmptyList(actions, owners, dests, left);
    }

    /** `lsdn_sbridge_remove_if`, with its assertion as precondition. */
    method RemoveIf(i: If)
      requires Valid() && i in topology.bridgeOf && i in topology.routeList && topology.routeList[i] == []
      modifies `topology, `actions, `rules
      ensures Valid() && old(topology.bridgeOf)[i] in old(topology.ifList) && topology == WithoutIf(old(topology), i)
      ensures i in old(rules.port) && rules == WithoutPort(old(rules), i)
      ensures topology.bridgeOf == old(topology.bridgeOf) - {i} && topology.ifaceOf == old(topology.ifaceOf) && topology.tunnel == old(topology.tunnel)
      ensures rules.port == old(rules.port) - {i} && rules.matchVni == old(rules.matchVni) && rules.vnet == old(rules.vnet)
      ensures rules.group == old(rules.group) - {(old(rules.port)[i].phys, old(rules.port)[i].vni)}
      ensures rules.fallback == old(rules.fallback) - {(old(rules.port)[i].phys, old(rules.port)[i].vni)}
    {
      hide Indexed, Meshed, MeshPairs, Ruled, Forwarded;
      GoneIfListed(topology, i);
      Unused(topology);
      ghost var left := FlushOwner(i, topology.bridgeOf.Keys, topology.ifaceOf.Keys, Pairs());
      GoneIfPairs(topology, i, left);
      GoneOwner(actions, topology.bridgeOf.Keys, topology.ifaceOf.Keys, left, i);
      actions := actions.(clOwner := actions.clOwner - {i});
      GonePort(rules, topology.bridgeOf, topology.ifList.Keys, i);
      rules := WithoutPort(rules, i);
      GoneIfForwards(topology, forwards, refused, i);
      DropKeys(topology.bridgeOf, i);
      PutKeys(topology.ifList, topology.bridgeOf[i], Minus(topology.ifList[topology.bridgeOf[i]], i));
      topology := WithoutIf(topology, i);
    }

    // -------------------------------------------------------------- routes

    /** The loop of `lsdn_sbridge_add_route`. */
    method Push(r: Route, i: If, others: seq<If>, ghost owners: set<If>, ghost dests: set<Route>, ghost pairs: set<Pair>)
      requires Meshed(actions, owners, dests, pairs) && r in dests && NoDup(others)
      requires forall o :: o in others ==> o in owners && (o, r) !in pairs
      modifies `actions
      ensures Meshed(actions, owners, dests, pairs + Pushed(r, i, others))
    {
      hide Meshed;
      var n := 0;
      assert pairs + Pushed(r, i, others[..0]) == pairs;
      while n < |others|
        invariant n <= |others| && Meshed(actions, owners, dests, pairs + Pushed(r, i, others[..n]))
      {
        OneMorePush(r, i, others, n);
        assert pairs + Pushed(r, i, others[..n + 1]) == pairs + Pushed(r, i, others[..n]) + (if others[n] == i then {} else {(others[n], r)});
        if others[n] != i {
          IfBrMake(others[n], r, owners, dests, pairs + Pushed(r, i, others[..n]));
        } else {
          assert pairs + Pushed(r, i, others[..n]) + {} == pairs + Pushed(r, i, others[..n]);
        }
        n := n + 1;
      }
      assert others[..n] == others;
    }

    /** `lsdn_sbridge_add_route` */
    method AddRoute(i: If, r: Route, meta: Option<Meta>)
      requires Valid() && i in topology.bridgeOf && r !in topology.ifaceOf
      modifies `topology, `actions
      ensures Valid() && i in old(topology.routeList) && topology == WithRoute(old(topology), i, r, meta)
      ensures topology.ifaceOf == old(topology.ifaceOf)[r := i] && topology.tunnel == old(topology.tunnel)[r := meta]
      ensures topology.macList == old(topology.macList)[r := []] && topology.routeOf == old(topology.routeOf) && topology.macOf == old(topology.macOf)
      ensures topology.bridgeOf == old(topology.bridgeOf) && topology.ifList == old(topology.ifList)
    {
      hide Indexed, Meshed, MeshPairs, Ruled, Forwarded, Pushed;
      ghost var pairs := Pairs();
      NewRoutePairs(topology, i, r);
      var b := topology.bridgeOf[i];
      NewDest(actions, topology.bridgeOf.Keys, topology.ifaceOf.Keys, pairs, r);
      actions := actions.(clDest := actions.clDest[r := []]);
      OthersListed(topology, b);
      Push(r, i, topology.ifList[b], topology.bridgeOf.Keys, topology.ifaceOf.Keys + {r}, pairs);
      NewRouteListed(topology, i, r, meta);
      NewRouteForwards(topology, forwards, refused, i, r, meta);
      PutKeys(topology.ifaceOf, r, i);
      topology := WithRoute(topology, i, r, meta);
    }

    /** `lsdn_sbridge_remove_route`, with its assertion as precondition. */
    method RemoveRoute(r: Route)
      requires Valid() && r in topology.ifaceOf && r in topology.macList && topology.macList[r] == []
      modifies `topology, `actions
      ensures Valid() && old(topology.ifaceOf)[r] in old(topology.routeList) && topology == WithoutRoute(old(topology), r)
      ensures topology.ifaceOf == old(topology.ifaceOf) - {r} && topology.tunnel == old(topology.tunnel) - {r}
      ensures topology.routeOf == old(topology.routeOf) && topology.macOf == old(topology.macOf) && topology.bridgeOf == old(topology.bridgeOf)
    {
      hide Indexed, Meshed, MeshPairs, Ruled, Forwarded;
      GoneRouteListed(topology, r);
      Unused(topology);
      ghost var left := FlushDest(r, topology.bridgeOf.Keys, topology.ifaceOf.Keys, Pairs());
      GoneRoutePairs(topology, r, left);
      GoneDest(actions, topology.bridgeOf.Keys, topology.ifaceOf.Keys, left, r);
      actions := actions.(clDest := actions.clDest - {r});
      GoneRouteForwards(topology, forwards, refused, r);
      DropKeys(topology.ifaceOf, r);
      topology := WithoutRoute(topology, r);
    }

    // -------------------------------------------------------------- addresses

    /** `lsdn_sbridge_add_mac`: the forwarding rule is refused if the bridge has one for the address or has used up its
        handles; the entry is linked all the same. */
    method AddMac(r: Route, m: MacId, mac: Mac) returns (err: Error)
      requires Valid() && r in topology.ifaceOf && m !in topology.routeOf
      modifies `topology, `forwards, `rules, `refused
      ensures Valid() && r in old(topology.macList) && topology == WithMac(old(topology), r, m, mac)
      ensures topology.routeOf == old(topology.routeOf)[m := r] && topology.macOf == old(topology.macOf)[m := mac]
      ensures topology == old(topology).(macList := topology.macList, routeOf := topology.routeOf, macOf := topology.macOf)
      ensures topology.ifaceOf[r] in topology.bridgeOf && topology.bridgeOf[topology.ifaceOf[r]] in old(rules.nextHandle)
      ensures err == if (topology.bridgeOf[topology.ifaceOf[r]], mac) in old(forwards) then LSDNE_DUPLICATE
                     else if old(rules.nextHandle)[topology.bridgeOf[topology.ifaceOf[r]]] == 0xFFFF then LSDNE_NOMEM else LSDNE_OK
      ensures var b := topology.bridgeOf[topology.ifaceOf[r]];
              if err == LSDNE_OK then
                forwards == old(forwards)[(b, mac) := m] && refused == old(refused) &&
                rules == old(rules).(nextHandle := old(rules.nextHandle)[b := old(rules.nextHandle)[b] + 1])
              else forwards == old(forwards) && rules == old(rules) && refused
    {
      hide Indexed, Meshed, MeshPairs, Ruled, Forwarded;
      NewMacListed(topology, r, m, mac);
      Homes(topology, r);
      var b := topology.bridgeOf[topology.ifaceOf[r]];
      NewHandle(rules, topology.bridgeOf, topology.ifList.Keys, b);
      err := MacResult(forwards, rules.nextHandle, b, mac);
      if err == LSDNE_OK {
        NewMacForwards(topology, forwards, refused, r, m, mac);
        forwards := forwards[(b, mac) := m];
        rules := rules.(nextHandle := rules.nextHandle[b := rules.nextHandle[b] + 1]);
      } else {
        RefusedMacForwards(topology, forwards, refused, r, m, mac);
        refused := true;
      }
      topology := WithMac(topology, r, m, mac);
    }

    /** `lsdn_sbridge_remove_mac` */
    method RemoveMac(m: MacId)
      requires Valid() && m in topology.routeOf
      modifies `topology, `forwards
      ensures Valid() && old(topology.routeOf)[m] in old(topology.macList) && topology == WithoutMac(old(topology), m)
      ensures topology.routeOf == old(topology.routeOf) - {m} && topology.macOf == old(topology.macOf) - {m}
      ensures topology.ifaceOf == old(topology.ifaceOf) && topology.tunnel == old(topology.tunnel) && topology.bridgeOf == old(topology.bridgeOf)
      ensures forwards.Keys <= old(forwards).Keys && forall k :: k in old(forwards) ==>
              if old(forwards)[k] == m then k !in forwards else k in forwards && forwards[k] == old(forwards)[k]
    {
      hide Indexed, Meshed, MeshPairs, Ruled;
      GoneMacListed(topology, m);
      GoneMacForwards(topology, forwards, refused, m);
      forwards := Unforwarded(topology, forwards, m);
      topology := WithoutMac(topology, m);
    }

    // -------------------------------------------------------------- virts

    /** The first steps of `lsdn_sbridge_add_virt`: an interface of its own for the virt, which cannot be refused. */
    method Plug(b: Bridge, i: If, p: Phys)
      requires Valid() && b in topology.ifList && i !in topology.bridgeOf && p !in rules.nextChain
      modifies `topology, `actions, `rules
      ensures Valid() && topology == WithIf(old(topology), b, i)
      ensures rules.port == old(rules.port)[i := Port(p, None, 1)] && rules.nextChain == old(rules.nextChain)[p := 2]
      ensures rules.group == old(rules.group)[(p, None) := i] && rules.fallback == old(rules.fallback)[(p, None) := i]
      ensures rules.matchVni == old(rules.matchVni)[p := false] && rules.vnet == old(rules.vnet) && rules.nextHandle == old(rules.nextHandle)
    {
      hide Listed, Meshed, MeshPairs, Ruled, Forwarded, WithIf;
      FreshPhys(rules, topology.bridgeOf, topology.ifList.Keys, p, None);
      BridgeKnown(rules, topology.bridgeOf, topology.ifList.Keys, b);
      PhysIfInit(p, false);
      var err := AddIf(b, i, p, None);
    }

    /** `lsdn_sbridge_add_virt` on a fresh interface. If the forwarding rule is refused, the cleanup calls
        `lsdn_sbridge_remove_route`, whose assertion that the address list is empty then fails: `broken`. That is so if and
        only if the bridge has a rule for the address or no handle left. */
    method AddVirt(b: Bridge, i: If, p: Phys, r: Route, m: MacId, mac: Mac) returns (err: Error, broken: bool)
      requires Valid() && b in topology.ifList && i !in topology.bridgeOf && p !in rules.nextChain
      requires r !in topology.ifaceOf && m !in topology.routeOf
      modifies this
      ensures Valid() && b in old(rules.nextHandle)
      ensures broken <==> (b, mac) in old(forwards) || old(rules.nextHandle[b]) == 0xFFFF
      ensures topology == WithVirt(old(topology), b, i, r, m, mac)
      ensures topology.bridgeOf == old(topology.bridgeOf)[i := b] && topology.ifaceOf == old(topology.ifaceOf)[r := i]
      ensures topology.ifList == old(topology.ifList)[b := [i] + old(topology.ifList)[b]]
      ensures topology.routeOf == old(topology.routeOf)[m := r] && topology.macOf == old(topology.macOf)[m := mac]
      ensures topology.tunnel == old(topology.tunnel)[r := None]
      ensures rules.port == old(rules.port)[i := Port(p, None, 1)] && rules.nextChain == old(rules.nextChain)[p := 2]
      ensures rules.group == old(rules.group)[(p, None) := i] && rules.fallback == old(rules.fallback)[(p, None) := i]
      ensures rules.matchVni == old(rules.matchVni)[p := false] && rules.vnet == old(rules.vnet)
      ensures !broken ==> err == LSDNE_OK && forwards == old(forwards)[(b, mac) := m] && refused == old(refused)
      ensures broken ==> err != LSDNE_OK && forwards == old(forwards) && topology.macList[r] != []
    {
      hide Listed, Meshed, MeshPairs, Ruled, Forwarded;
      BridgeKnown(rules, topology.bridgeOf, topology.ifList.Keys, b);
      Plug(b, i, p);
      AddRoute(i, r, None);
      err := AddMac(r, m, mac);
      broken := err != LSDNE_OK && topology.macList[r] != [];
    }

    /** `lsdn_sbridge_remove_virt` */
    method RemoveVirt(i: If, r: Route, m: MacId)
      requires Valid() && m in topology.routeOf && topology.routeOf[m] == r && r in topology.ifaceOf && topology.ifaceOf[r] == i
      requires i in topology.bridgeOf && r in topology.macList && topology.macList[r] == [m] && i in topology.routeList && topology.routeList[i] == [r]
      requires topology.bridgeOf[i] in topology.ifList
      modifies this
      ensures Valid() && topology == WithoutVirt(old(topology), i, r, m)
    {
      hide Listed, Meshed, MeshPairs, Ruled, Forwarded;
      RemoveMac(m);
      assert Minus([m], m) == [];
      RemoveRoute(r);
      assert Minus([r], r) == [];
      RemoveIf(i);
    }
  }

  /** The rules with those of a new interface on the next chain. */
  function Ported(x: Rules, i: If, p: Phys, vni: Option<Vni>): Rules
    requires p in x.nextChain
  {
    WithPort(x.(nextChain := x.nextChain[p := x.nextChain[p] + 1]), i, Port(p, vni, x.nextChain[p]))
  }

  lemma PortedIs(x: Rules, i: If, p: Phys, vni: Option<Vni>)
    requires p in x.nextChain
    ensures Ported(x, i, p, vni) ==
            x.(port := x.port[i := Port(p, vni, x.nextChain[p])], nextChain := x.nextChain[p := x.nextChain[p] + 1],
               group := x.group[(p, vni) := i], fallback := x.fallback[(p, vni) := i])
  {}

  lemma WithIfIs(t: Topology, b: Bridge, i: If)
    requires b in t.ifList
    ensures WithIf(t, b, i) == t.(ifList := t.ifList[b := [i] + t.ifList[b]], bridgeOf := t.bridgeOf[i := b], routeList := t.routeList[i := []])
  {}

  /** What adding the forwarding rule returns. */
  function MacResult(forwards: Forwards, nextHandle: map<Bridge, nat>, b: Bridge, mac: Mac): Error
    requires b in nextHandle
  {
    if (b, mac) in forwards then LSDNE_DUPLICATE else if nextHandle[b] == MAX_HANDLE then LSDNE_NOMEM else LSDNE_OK
  }

  lemma BridgeKnown(x: Rules, bridgeOf: map<If, Bridge>, bridges: set<Bridge>, b: Bridge)
    requires Ruled(x, bridgeOf, bridges) && b in bridges
    ensures b in x.vnet && b in x.nextHandle
  {}

  // ---------------------------------------------------------------- validation of addresses

  datatype VirtMac = VirtMac(state: State, mac: Option<Mac>)

  /** `should_be_validated` */
  predicate ShouldBeValidated(s: State) { s == NEW || s == RENEW }

  predicate Clash(v: VirtMac, w: VirtMac)
  {
    ShouldBeValidated(v.state) && ShouldBeValidated(w.state) && v.mac.Some? && v.mac == w.mac
  }

  /** The address part of `validate_virts_net`: it objects to two virts with the same address only if both are about to be
      committed. */
  method ValidateMacs(virts: seq<VirtMac>) returns (ok: bool)
    ensures ok <==> forall i, j :: 0 <= i < j < |virts| && virts[i].mac.Some? && virts[i].mac == virts[j].mac ==>
                      !(virts[i].state in {NEW, RENEW} && virts[j].state in {NEW, RENEW})
  {
    for i := 0 to |virts|
      invariant forall k, j :: 0 <= k < i && 0 <= j < |virts| && k != j ==> !Clash(virts[k], virts[j])
    {
      for j := 0 to |virts|
        invariant forall k :: 0 <= k < j && k != i ==> !Clash(virts[i], virts[k])
      {
        if i != j && Clash(virts[i], virts[j]) {
          return false;
        }
      }
    }
    return true;
  }

  /** A committed virt and a new one with its address: validation passes, the forwarding rule of the new one is refused, and
      the cleanup meets the failing assertion. */
  method CommittedClash(sw: Switch, b: Bridge, i: If, p: Phys, r: Route, m: MacId, i': If, p': Phys, r': Route, m': MacId, mac: Mac)
    returns (passed: bool, first: bool, second: bool)
    requires sw.Valid() && b in sw.topology.ifList && i !in sw.topology.bridgeOf && i' !in sw.topology.bridgeOf && i != i'
    requires p !in sw.rules.nextChain && p' !in sw.rules.nextChain && p != p'
    requires r !in sw.topology.ifaceOf && r' !in sw.topology.ifaceOf && r != r'
    requires m !in sw.topology.routeOf && m' !in sw.topology.routeOf && m != m'
    requires (b, mac) !in sw.forwards && b in sw.rules.nextHandle && sw.rules.nextHandle[b] != MAX_HANDLE
    modifies sw
    ensures passed && !first && second
  {
    hide Sound, WithVirt;
    passed := ValidateMacs([VirtMac(OK, Some(mac)), VirtMac(NEW, Some(mac))]);
    var err;
    err, first := sw.AddVirt(b, i, p, r, m, mac);
    err, second := sw.AddVirt(b, i', p', r', m', mac);
  }
}
