/** The broadcast chain of an interface as the packer leaves it in the kernel, and what it does to a frame. */
module Chains {
  import opened Base
  import opened Index
  import opened Mesh
  import opened Dataplane
  import B = Broadcast
  import S = Sbridge

  // ---------------------------------------------------------------- what the kernel runs

  /** The tc actions of a kernel list, up to its continue. */
  ghost function Acts(list: seq<B.Numbered>): seq<Tc>
  {
    if list == [] || list[0].Continue? then [] else [list[0].act] + Acts(list[1..])
  }

  /** The filters of a chain run in the order of their priorities, each continuing with the next. */
  ghost function Running(kernel: map<nat, seq<B.Numbered>>, n: nat): seq<Tc>
  {
    if n == 0 then [] else Running(kernel, n - 1) + (if n - 1 in kernel then Acts(kernel[n - 1]) else [])
  }

  lemma {:induction false} ActsOfEmit(order: nat, acts: seq<Tc>, last: B.Numbered)
    requires last.Continue?
    ensures Acts(B.Emit(order, acts) + [last]) == acts
    decreases acts
  {
    var list := B.Emit(order, acts) + [last];
    if acts != [] {
      assert list[1..] == B.Emit(order + 1, acts[1..]) + [last];
      ActsOfEmit(order + 1, acts[1..], last);
    }
  }

  // ---------------------------------------------------------------- the occupants

  ghost function Occupants(slots: B.Slots): seq<Bra>
  {
    if slots == [] then [] else Occupants(slots[..|slots| - 1]) + (if slots[|slots| - 1].Some? then [slots[|slots| - 1].value] else [])
  }

  /** The actions on the chain in the order in which they run. */
  ghost function Order(filters: map<nat, B.Filter>, n: nat): seq<Bra>
  {
    if n == 0 then [] else Order(filters, n - 1) + (if n - 1 in filters then Occupants(filters[n - 1].slots) else [])
  }

  lemma {:induction false} OccupantsSit(slots: B.Slots)
    ensures forall a :: a in Occupants(slots) <==> exists i :: 0 <= i < |slots| && slots[i] == Some(a)
  {
    if slots != [] {
      var k := |slots| - 1;
      OccupantsSit(slots[..k]);
      forall a
        ensures a in Occupants(slots) <==> exists i :: 0 <= i < |slots| && slots[i] == Some(a)
      {
        if slots[k] == Some(a) { assert a in Occupants(slots); }
        if a in Occupants(slots[..k]) {
          var i :| 0 <= i < k && slots[..k][i] == Some(a);
          assert slots[i] == Some(a);
        }
        if i :| 0 <= i < k && slots[i] == Some(a) { assert slots[..k][i] == Some(a); }
      }
    }
  }

  /** No action sits in two slots. */
  ghost predicate OneSlot(slots: B.Slots)
  {
    forall i, j :: 0 <= i < j < |slots| && slots[i].Some? ==> slots[i] != slots[j]
  }

  lemma {:induction false} OccupantsOnce(slots: B.Slots)
    requires OneSlot(slots)
    ensures NoDup(Occupants(slots))
  {
    if slots != [] {
      var k := |slots| - 1;
      OccupantsOnce(slots[..k]);
      OccupantsSit(slots[..k]);
      if slots[k].Some? {
        assert slots[k].value !in Occupants(slots[..k]);
      }
    }
  }

  lemma SlotsOnce(filters: map<nat, B.Filter>, places: map<Bra, B.Place>, descs: map<Bra, seq<Tc>>, p: nat)
    requires B.Packed(filters, places, descs) && p in filters
    ensures OneSlot(filters[p].slots)
    ensures forall a :: a in Occupants(filters[p].slots) <==> a in places && places[a].filter == p
  {
    var slots := filters[p].slots;
    assert B.Packs(p, filters[p], places, B.Sizes(descs));
    OccupantsSit(slots);
    forall a
      ensures a in Occupants(slots) <==> a in places && places[a].filter == p
    {
      if a in places && places[a].filter == p {
        assert B.Sits(filters, a, places[a]);
      }
    }
  }

  /** Every action of the packer is on the chain once. */
  lemma {:induction false} OrderHolds(filters: map<nat, B.Filter>, places: map<Bra, B.Place>, descs: map<Bra, seq<Tc>>, n: nat)
    requires B.Packed(filters, places, descs)
    ensures NoDup(Order(filters, n)) && forall a :: a in Order(filters, n) <==> a in places && places[a].filter < n
  {
    hide B.Packed, Occupants;
    if n > 0 {
      OrderHolds(filters, places, descs, n - 1);
      if n - 1 in filters {
        SlotsOnce(filters, places, descs, n - 1);
        OccupantsOnce(filters[n - 1].slots);
        NoDupConcat(Order(filters, n - 1), Occupants(filters[n - 1].slots));
      } else {
        NoPlace(filters, places, descs, n - 1);
      }
    } else {
      assert forall a :: a in places ==> places[a].filter >= 0;
    }
  }

  lemma NoPlace(filters: map<nat, B.Filter>, places: map<Bra, B.Place>, descs: map<Bra, seq<Tc>>, p: nat)
    requires B.Packed(filters, places, descs) && p !in filters
    ensures forall a :: a in places ==> places[a].filter != p
  {
    forall a | a in places ensures places[a].filter != p { assert B.Sits(filters, a, places[a]); }
  }

  // ---------------------------------------------------------------- the chain of an interface

  /** The packer of an interface carries exactly the interface's actions. */
  ghost predicate Carries(t: Topology, x: Actions, rules: Rules, i: If, descs: map<Bra, seq<Tc>>)
  {
    && (forall a :: a in descs <==> a in x.from && x.from[a] == i)
    && (forall a :: a in descs ==> a in x.to && RoutesKnown(t, rules, [x.to[a]]) && descs[a] == BraActs(t, rules, x.to[a]))
  }

  /** `if_br_make` adds its action to the packer of its interface, and so every packer carries its interface's actions. */
  lemma MakeCarries(t: Topology, x: Actions, rules: Rules, i: If, r: Route, j: If, descs: map<Bra, seq<Tc>>)
    requires Carries(t, x, rules, j, descs) && x.next !in x.from && i in x.clOwner && r in x.clDest && RoutesKnown(t, rules, [r])
    ensures r in t.tunnel && r in t.ifaceOf && t.ifaceOf[r] in rules.port
    ensures Carries(t, WithBra(x, i, r), rules, j, if i == j then descs[x.next := BraActs(t, rules, r)] else descs)
  {
    hide BraActs;
    RouteKnown(t, rules, r);
  }

  /** `if_br_action_free` removes it again. */
  lemma FreeCarries(t: Topology, x: Actions, rules: Rules, a: Bra, j: If, descs: map<Bra, seq<Tc>>)
    requires Carries(t, x, rules, j, descs) && a in x.from && a in x.to && x.from[a] in x.clOwner && x.to[a] in x.clDest
    ensures Carries(t, WithoutBra(x, a), rules, j, if x.from[a] == j then descs - {a} else descs)
  {
    hide BraActs;
  }

  lemma RouteKnown(t: Topology, rules: Rules, r: Route)
    requires RoutesKnown(t, rules, [r])
    ensures r in t.tunnel && r in t.ifaceOf && t.ifaceOf[r] in rules.port
  {
    assert r in [r];
  }

  ghost predicate Known(t: Topology, x: Actions, rules: Rules, order: seq<Bra>)
  {
    forall a :: a in order ==> a in x.to && RoutesKnown(t, rules, [x.to[a]])
  }

  lemma KnownRoutes(t: Topology, x: Actions, rules: Rules, order: seq<Bra>)
    requires Known(t, x, rules, order)
    ensures (forall a :: a in order ==> a in x.to) && RoutesKnown(t, rules, RoutesOf(x, order))
  {
    forall r | r in RoutesOf(x, order)
      ensures RoutesKnown(t, rules, [r])
    {
      var n :| 0 <= n < |order| && x.to[order[n]] == r;
      assert order[n] in order;
    }
    forall r | r in RoutesOf(x, order)
      ensures r in t.tunnel && r in t.ifaceOf && t.ifaceOf[r] in rules.port
    {
      RouteKnown(t, rules, r);
    }
  }

  /** The tc actions of broadcast actions, one after the other. */
  ghost function OrderActs(t: Topology, x: Actions, rules: Rules, order: seq<Bra>): seq<Tc>
    requires Known(t, x, rules, order)
  {
    KnownRoutes(t, x, rules, order);
    ChainActs(t, rules, RoutesOf(x, order))
  }

  lemma {:induction false} ChainActsSplit(t: Topology, rules: Rules, a: seq<Route>, b: seq<Route>)
    requires RoutesKnown(t, rules, a + b)
    ensures RoutesKnown(t, rules, a) && RoutesKnown(t, rules, b)
    ensures ChainActs(t, rules, a + b) == ChainActs(t, rules, a) + ChainActs(t, rules, b)
    decreases b
  {
    assert forall r :: r in a ==> r in a + b;
    assert forall r :: r in b ==> r in a + b;
    if b == [] {
      assert a + b == a;
    } else {
      var k := |b| - 1;
      assert (a + b)[..|a + b| - 1] == a + b[..k];
      ChainActsSplit(t, rules, a, b[..k]);
    }
  }

  lemma OrderActsSplit(t: Topology, x: Actions, rules: Rules, a: seq<Bra>, b: seq<Bra>)
    requires Known(t, x, rules, a) && Known(t, x, rules, b)
    ensures Known(t, x, rules, a + b) && OrderActs(t, x, rules, a + b) == OrderActs(t, x, rules, a) + OrderActs(t, x, rules, b)
  {
    hide ChainActs;
    KnownRoutes(t, x, rules, a + b);
    assert RoutesOf(x, a + b) == RoutesOf(x, a) + RoutesOf(x, b);
    ChainActsSplit(t, rules, RoutesOf(x, a), RoutesOf(x, b));
  }

  lemma OrderActsOne(t: Topology, x: Actions, rules: Rules, a: Bra)
    requires a in x.to && RoutesKnown(t, rules, [x.to[a]])
    ensures Known(t, x, rules, [a]) && x.to[a] in t.tunnel && OrderActs(t, x, rules, [a]) == BraActs(t, rules, x.to[a])
  {
    RouteKnown(t, rules, x.to[a]);
    assert RoutesOf(x, [a]) == [x.to[a]];
    assert [x.to[a]][..0] == [];
    assert ChainActs(t, rules, []) == [];
    assert ChainActs(t, rules, [x.to[a]]) == [] + BraActs(t, rules, x.to[a]);
  }

  /** The payload of a filter is the tc actions of its occupants. */
  lemma {:induction false} PayloadIs(t: Topology, x: Actions, rules: Rules, i: If, descs: map<Bra, seq<Tc>>, slots: B.Slots)
    requires Carries(t, x, rules, i, descs) && forall k :: 0 <= k < |slots| && slots[k].Some? ==> slots[k].value in descs
    ensures Known(t, x, rules, Occupants(slots)) && B.Payload(slots, descs) == OrderActs(t, x, rules, Occupants(slots))
  {
    hide OrderActs, RoutesKnown;
    if slots != [] {
      var k := |slots| - 1;
      PayloadIs(t, x, rules, i, descs, slots[..k]);
      if slots[k].Some? {
        OrderActsOne(t, x, rules, slots[k].value);
        OrderActsSplit(t, x, rules, Occupants(slots[..k]), [slots[k].value]);
      } else {
        assert Occupants(slots) == Occupants(slots[..k]) && B.Payload(slots, descs) == B.Payload(slots[..k], descs);
      }
    } else {
      NoActs(t, x, rules);
    }
  }

  lemma NoActs(t: Topology, x: Actions, rules: Rules)
    ensures Known(t, x, rules, []) && OrderActs(t, x, rules, []) == []
  {}

  /** What the kernel runs is the tc actions of the packer's actions. */
  lemma {:induction false} RunningIs(t: Topology, x: Actions, rules: Rules, i: If, filters: map<nat, B.Filter>, places: map<Bra, B.Place>,
                                     descs: map<Bra, seq<Tc>>, kernel: map<nat, seq<B.Numbered>>, n: nat)
    requires Carries(t, x, rules, i, descs) && B.Packed(filters, places, descs) && B.Flushed(filters, descs, kernel) && kernel.Keys == filters.Keys
    ensures Known(t, x, rules, Order(filters, n)) && Running(kernel, n) == OrderActs(t, x, rules, Order(filters, n))
  {
    hide B.Packed, OrderActs, Carries, Known;
    if n == 0 {
      NoActs(t, x, rules);
    } else {
      RunningIs(t, x, rules, i, filters, places, descs, kernel, n - 1);
      if n - 1 in filters {
        FilterRuns(t, x, rules, i, filters, places, descs, kernel, n - 1);
        OrderActsSplit(t, x, rules, Order(filters, n - 1), Occupants(filters[n - 1].slots));
      } else {
        assert Order(filters, n) == Order(filters, n - 1);
        assert Running(kernel, n) == Running(kernel, n - 1);
      }
    }
  }

  lemma FilterRuns(t: Topology, x: Actions, rules: Rules, i: If, filters: map<nat, B.Filter>, places: map<Bra, B.Place>,
                   descs: map<Bra, seq<Tc>>, kernel: map<nat, seq<B.Numbered>>, p: nat)
    requires Carries(t, x, rules, i, descs) && B.Packed(filters, places, descs) && B.Flushed(filters, descs, kernel) && p in filters
    ensures p in kernel && Known(t, x, rules, Occupants(filters[p].slots)) && Acts(kernel[p]) == OrderActs(t, x, rules, Occupants(filters[p].slots))
  {
    hide Carries, OrderActs, B.Packed;
    var payload := B.Payload(filters[p].slots, descs);
    ActsOfEmit(1, payload, B.Continue(1 + |payload|));
    B.FlushReady(filters, places, descs, p);
    PayloadIs(t, x, rules, i, descs, filters[p].slots);
  }

  /** The interface that serves the frame on the physical interface. */
  ghost predicate Serves(rules: Rules, p: Phys, frame: Frame, i: If)
  {
    p in rules.matchVni && FrameKey(rules, p, frame) in rules.group && rules.group[FrameKey(rules, p, frame)] == i
  }

  /** The copies are, in some order, one for each route of every other interface of the bridge, each out of its own interface
      and with the metadata that is then set. */
  ghost predicate Flooded(t: Topology, rules: Rules, i: If, p: Phys, rs: seq<Route>, copies: seq<Copy>)
  {
    && OncePerRoute(t, i, rs) && NoneBack(t, rules, p, rs) && |copies| == |rs|
    && forall k :: 0 <= k < |rs| ==> rs[k] in rs && copies[k] == Copy(rules.port[t.ifaceOf[rs[k]]].phys, MetaAt(t, rs, k, None))
  }

  /** A group-addressed frame on the chain that its group rule selects: what the kernel runs there gives one copy per route of
      every other interface of the bridge and none out of the physical interface on which the frame came. */
  lemma FloodRuns(t: Topology, x: Actions, rules: Rules, forwards: Forwards, refused: bool, p: Phys, frame: Frame, i: If,
                  filters: map<nat, B.Filter>, places: map<Bra, B.Place>, descs: map<Bra, seq<Tc>>, kernel: map<nat, seq<B.Numbered>>, n: nat)
    requires Sound(t, x, rules, forwards, refused) && IsGroup(frame.dst) && Serves(rules, p, frame, i) && Carries(t, x, rules, i, descs)
    requires B.Packed(filters, places, descs) && B.Flushed(filters, descs, kernel) && kernel.Keys == filters.Keys && forall q :: q in filters ==> q < n
    ensures exists rs :: Flooded(t, rules, i, p, rs, Execute(Running(kernel, n), None))
  {
    hide Sound, B.Packed, B.Flushed, Carries, OrderActs, Running, ChainActs, Order, RoutesOf, OncePerRoute, Known;
    var order := Order(filters, n);
    RunningIs(t, x, rules, i, filters, places, descs, kernel, n);
    KnownRoutes(t, x, rules, order);
    OrderOnChain(t, x, rules, forwards, refused, p, frame, i, filters, places, descs, n);
    DeliveredIs(t, x, rules, forwards, p, frame, order);
    GroupFlood(t, x, rules, forwards, refused, p, frame, order);
    RunsAsChain(t, x, rules, order);
    var rs := RoutesOf(x, order);
    CopiesAreOwn(t, rules, rs, None);
    assert Flooded(t, rules, i, p, rs, Execute(Running(kernel, n), None));
  }

  lemma RunsAsChain(t: Topology, x: Actions, rules: Rules, order: seq<Bra>)
    requires Known(t, x, rules, order)
    ensures (forall a :: a in order ==> a in x.to) && RoutesKnown(t, rules, RoutesOf(x, order))
    ensures OrderActs(t, x, rules, order) == ChainActs(t, rules, RoutesOf(x, order))
  {
    KnownRoutes(t, x, rules, order);
  }

  lemma DeliveredIs(t: Topology, x: Actions, rules: Rules, forwards: Forwards, p: Phys, frame: Frame, order: seq<Bra>)
    requires p in rules.matchVni && IsGroup(frame.dst) && FrameKey(rules, p, frame) in rules.group && forall a :: a in order ==> a in x.to
    ensures Delivered(t, x, rules, forwards, p, frame, order) == RoutesOf(x, order)
  {
    GroupRule(frame.dst);
  }

  /** The actions of the packer are those on the chain that the group rule selects. */
  lemma OrderOnChain(t: Topology, x: Actions, rules: Rules, forwards: Forwards, refused: bool, p: Phys, frame: Frame, i: If,
                     filters: map<nat, B.Filter>, places: map<Bra, B.Place>, descs: map<Bra, seq<Tc>>, n: nat)
    requires Sound(t, x, rules, forwards, refused) && Serves(rules, p, frame, i) && Carries(t, x, rules, i, descs)
    requires B.Packed(filters, places, descs) && forall q :: q in filters ==> q < n
    ensures i in rules.port && ChainHolds(x, rules, p, rules.port[i].chain, Order(filters, n))
  {
    hide Listed, Meshed, MeshPairs, Forwarded, Order;
    Ingress(rules, t.bridgeOf, t.ifList.Keys, FrameKey(rules, p, frame));
    OrderHolds(filters, places, descs, n);
    forall a | a in places ensures places[a].filter < n { assert B.Sits(filters, a, places[a]); }
    assert descs.Keys == places.Keys;
    assert Chained(rules.port, rules.nextChain);
  }

  // ---------------------------------------------------------------- a virt that was just added

  /** An interface alone on its physical interface serves every frame there, whatever VNI it carries. */
  lemma AloneServes(rules: Rules, p: Phys, frame: Frame, i: If)
    requires p in rules.matchVni && !rules.matchVni[p] && (p, None) in rules.group && rules.group[(p, None)] == i
    ensures Serves(rules, p, frame, i)
  {}

  /** A group-addressed frame of the virt reaches every other interface of its bridge once. */
  lemma VirtFloods(t: Topology, x: Actions, rules: Rules, forwards: Forwards, refused: bool, p: Phys, frame: Frame, i: If, order: seq<Bra>)
    requires Sound(t, x, rules, forwards, refused) && IsGroup(frame.dst)
    requires p in rules.matchVni && !rules.matchVni[p] && (p, None) in rules.group && rules.group[(p, None)] == i
    requires i in rules.port && ChainHolds(x, rules, p, rules.port[i].chain, order)
    ensures forall a :: a in order ==> a in x.to
    ensures OncePerRoute(t, i, Delivered(t, x, rules, forwards, p, frame, order))
    ensures NoneBack(t, rules, p, Delivered(t, x, rules, forwards, p, frame, order))
  {
    hide Sound, Delivered, OncePerRoute, NoneBack, IsGroup, ChainHolds;
    AloneServes(rules, p, frame, i);
    GroupFlood(t, x, rules, forwards, refused, p, frame, order);
  }

  /** A unicast frame of the virt goes to the route of its address on the bridge of the virt. */
  lemma VirtSends(t: Topology, x: Actions, rules: Rules, forwards: Forwards, p: Phys, frame: Frame, i: If)
    requires Sound(t, x, rules, forwards, false) && |frame.dst| == MAC_LENGTH && !IsGroup(frame.dst) && i in t.bridgeOf
    requires p in rules.matchVni && !rules.matchVni[p] && (p, None) in rules.group && rules.group[(p, None)] == i
    ensures OnlyTo(t, t.bridgeOf[i], frame.dst, Delivered(t, x, rules, forwards, p, frame, []))
  {
    hide Sound, Delivered, OnlyTo, IsGroup;
    AloneServes(rules, p, frame, i);
    UnicastRoute(t, x, rules, forwards, p, frame);
  }

  /** What adding a virt is for: every frame on its interface is its bridge's, group-addressed frames reach all the others
      once, unicast frames go where their address is, and frames for its own address on the bridge end at its route. */
  method AddVirtServes(sw: S.Switch, b: Bridge, i: If, p: Phys, r: Route, m: MacId, mac: Mac) returns (err: Error, broken: bool)
    requires sw.Valid() && !sw.refused && b in sw.topology.ifList && i !in sw.topology.bridgeOf && p !in sw.rules.nextChain
    requires r !in sw.topology.ifaceOf && m !in sw.topology.routeOf
    modifies sw
    ensures sw.Valid() && b in old(sw.rules.nextHandle)
    ensures broken <==> (b, mac) in old(sw.forwards) || old(sw.rules.nextHandle[b]) == 0xFFFF
    ensures forall frame: Frame :: Serves(sw.rules, p, frame, i)
    ensures forall frame: Frame, order: seq<Bra> :: |frame.dst| == MAC_LENGTH && IsGroup(frame.dst) && ChainHolds(sw.actions, sw.rules, p, 1, order) ==>
              && (forall a :: a in order ==> a in sw.actions.to) && p in sw.rules.matchVni
              && OncePerRoute(sw.topology, i, Delivered(sw.topology, sw.actions, sw.rules, sw.forwards, p, frame, order))
              && NoneBack(sw.topology, sw.rules, p, Delivered(sw.topology, sw.actions, sw.rules, sw.forwards, p, frame, order))
    ensures !broken ==> forall frame: Frame :: |frame.dst| == MAC_LENGTH && !IsGroup(frame.dst) ==>
              && p in sw.rules.matchVni
              && OnlyTo(sw.topology, b, frame.dst, Delivered(sw.topology, sw.actions, sw.rules, sw.forwards, p, frame, []))
    ensures !broken ==> Switched(sw.topology, sw.forwards, b, mac) == [r]
  {
    hide Sound, Delivered, OncePerRoute, NoneBack, OnlyTo, IsGroup, ChainHolds, Serves, WithVirt;
    err, broken := sw.AddVirt(b, i, p, r, m, mac);
    var t, x, rules, forwards := sw.topology, sw.actions, sw.rules, sw.forwards;
    forall frame: Frame ensures Serves(rules, p, frame, i) { AloneServes(rules, p, frame, i); }
    forall frame: Frame, order: seq<Bra> | |frame.dst| == MAC_LENGTH && IsGroup(frame.dst) && ChainHolds(x, rules, p, 1, order)
      ensures forall a :: a in order ==> a in x.to
      ensures OncePerRoute(t, i, Delivered(t, x, rules, forwards, p, frame, order)) && NoneBack(t, rules, p, Delivered(t, x, rules, forwards, p, frame, order))
    {
      VirtFloods(t, x, rules, forwards, sw.refused, p, frame, i, order);
    }
    forall frame: Frame | !broken && |frame.dst| == MAC_LENGTH && !IsGroup(frame.dst)
      ensures OnlyTo(t, b, frame.dst, Delivered(t, x, rules, forwards, p, frame, []))
    {
      VirtSends(t, x, rules, forwards, p, frame, i);
    }
  }
}
