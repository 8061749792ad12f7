/** Whole runs of the library: any sequence of API calls and commits, from a fresh context to its teardown. */
module Runs {
  import opened Base
  import opened States
  import opened Netmodel
  import opened Invariant
  import opened Removals
  import opened Freeing
  import opened Decommit
  import opened Recommit
  import opened Engine
  import opened Traces

  /** An API call with its arguments; a new object is given the address that the allocator returns. */
  datatype Call =
    | SettingsNew(s: Id)
    | NetNew(n: Id, s: Id, vnetId: nat)
    | PhysNew(p: Id)
    | VirtNew(v: Id, n: Id)
    | PhysSetAttrs(p: Id, attrs: PhysAttrs)
    | ClaimLocal(p: Id)
    | VirtSetMac(v: Id, mac: Option<Mac>)
    | VirtSetRate(v: Id, incoming: bool, rate: Option<QosRate>)
    | PhysAttach(p: Id, n: Id, addr: Id)
    | PhysDetach(p: Id, n: Id)
    | VirtConnect(v: Id, p: Id, iface: string, addr: Id)
    | VirtDisconnect(v: Id)
    | VirtFree(v: Id)
    | NetFree(n: Id)
    | SettingsFree(s: Id)
    | PhysFree(p: Id)
    | Commit(netProblems: set<Id>, physProblems: set<Id>)

  predicate NetUsable(nets: map<Id, Net>, n: Id) { n in nets && nets[n].state != DELETE }
  predicate PhysUsable(physes: map<Id, Phys>, p: Id) { p in physes && physes[p].state != DELETE }
  predicate VirtUsable(virts: map<Id, Virt>, v: Id) { v in virts && virts[v].state != DELETE }

  /** No attachment of the phys to the network is waiting to be deleted. */
  predicate NotRevived(pas: map<Id, Pa>, p: Id, n: Id)
  {
    forall b :: b in pas && pas[b].phys == p && pas[b].net == n ==> pas[b].state != DELETE
  }

  /** No virt that is waiting to be deleted is still connected through the phys. */
  predicate NotPlugged(pas: map<Id, Pa>, virts: map<Id, Virt>, p: Id)
  {
    forall a, v :: a in pas && pas[a].phys == p && v in virts && virts[v].connectedThrough == Some(a) ==> virts[v].state != DELETE
  }

  /** The call names live objects. */
  predicate Callable(c: Call, settings: map<Id, Settings>, nets: map<Id, Net>, physes: map<Id, Phys>, pas: map<Id, Pa>, virts: map<Id, Virt>)
  {
    match c
    case SettingsNew(s) => s !in settings
    case NetNew(n, s, _) => n !in nets && s in settings && settings[s].state != DELETE
    case PhysNew(p) => p !in physes
    case VirtNew(v, n) => v !in virts && NetUsable(nets, n)
    case PhysSetAttrs(p, _) => PhysUsable(physes, p)
    case ClaimLocal(p) => PhysUsable(physes, p)
    case VirtSetMac(v, _) => VirtUsable(virts, v)
    case VirtSetRate(v, _, _) => VirtUsable(virts, v)
    case PhysAttach(p, n, addr) => addr !in pas && PhysUsable(physes, p) && NetUsable(nets, n) && NotRevived(pas, p, n)
    case PhysDetach(_, _) => true
    case VirtConnect(v, p, _, addr) => addr !in pas && VirtUsable(virts, v) && PhysUsable(physes, p) && NotRevived(pas, p, virts[v].net)
    case VirtDisconnect(v) => VirtUsable(virts, v)
    case VirtFree(v) => v in virts
    case NetFree(n) => n in nets
    case SettingsFree(s) => s in settings
    case PhysFree(p) => p in physes && NotPlugged(pas, virts, p)
    case Commit(_, _) => true
  }

  // ---------------------------------------------------------------- what a call does to the model

  ghost predicate Created(c: Call, w0: World, w: World)
    requires c.SettingsNew? || c.NetNew? || c.PhysNew? || c.VirtNew?
  {
    match c
    case SettingsNew(s) => w == w0.(settings := w0.settings[s := Settings(NEW, false)])
    case NetNew(n, s, vnetId) => w == w0.(nets := w0.nets[n := Net(NEW, false, s, vnetId)])
    case PhysNew(p) => w == w0.(physes := w0.physes[p := Phys(NEW, false, false, false, PhysAttrs(None, None))])
    case VirtNew(v, n) => w == w0.(virts := w0.virts[v := Virt(NEW, false, n, None, None, "", "", VirtAttrs(None, None, None))])
  }

  ghost predicate PhysChanged(w0: World, w: World, p: Id, r: Phys)
  {
    p in w0.physes && w == w0.(physes := if r == w0.physes[p] then w0.physes else w0.physes[p := r.(state := if r.state == OK then RENEW else r.state)])
  }

  ghost predicate VirtChanged(w0: World, w: World, v: Id, r: Virt, renewed: bool)
  {
    v in w0.virts && w == w0.(virts := if renewed then w0.virts[v := r.(state := if r.state == OK then RENEW else r.state)] else w0.virts)
  }

  ghost predicate Changed(c: Call, w0: World, w: World)
    requires c.PhysSetAttrs? || c.ClaimLocal? || c.VirtSetMac? || c.VirtSetRate?
  {
    match c
    case PhysSetAttrs(p, attrs) => p in w0.physes && PhysChanged(w0, w, p, w0.physes[p].(attrs := attrs))
    case ClaimLocal(p) => p in w0.physes && PhysChanged(w0, w, p, w0.physes[p].(isLocal := true))
    case VirtSetMac(v, mac) =>
      v in w0.virts && VirtChanged(w0, w, v, w0.virts[v].(attrs := w0.virts[v].attrs.(mac := mac)), mac != w0.virts[v].attrs.mac)
    case VirtSetRate(v, incoming, rate) =>
      && v in w0.virts
      && var attrs := w0.virts[v].attrs;
         if incoming then VirtChanged(w0, w, v, w0.virts[v].(attrs := attrs.(rateIn := rate)), rate.Some? || attrs.rateIn.Some?)
         else VirtChanged(w0, w, v, w0.virts[v].(attrs := attrs.(rateOut := rate)), rate.Some? || attrs.rateOut.Some?)
  }

  ghost predicate Plugged(c: Call, w0: World, w: World)
    requires c.PhysAttach? || c.PhysDetach? || c.VirtConnect? || c.VirtDisconnect?
  {
    match c
    case PhysAttach(p, n, addr) => exists a :: AttachedBy(w0, w, p, n, addr, a)
    case PhysDetach(p, n) =>
      && (forall a :: a in w0.pas && w0.pas[a].phys == p && w0.pas[a].net == n ==> w == Detached(w0, a))
      && ((forall a :: a in w0.pas ==> w0.pas[a].phys != p || w0.pas[a].net != n) ==> w == w0)
    case VirtConnect(v, p, iface, addr) => exists a :: ConnectedBy(w0, w, v, p, iface, addr, a)
    case VirtDisconnect(v) => v in w0.virts && w0.virts[v].state != DELETE && w == w0.(virts := w0.virts[v := Unplugged(w0.virts[v])])
  }

  ghost predicate PhysFreed(w0: World, w: World, p: Id)
  {
    && VirtsUnplugged(w0.virts, w.virts, PasOf(w0.pas, p)) && PasCleared(w0.pas, w.pas, PasOf(w0.pas, p))
    && p in w0.physes && w.settings == w0.settings && w.nets == w0.nets
    && w.physes == if w0.physes[p].state == NEW then w0.physes - {p} else w0.physes[p := w0.physes[p].(state := DELETE, pendingFree := true)]
  }

  ghost predicate Released(c: Call, w0: World, w: World)
    requires c.VirtFree? || c.NetFree? || c.SettingsFree? || c.PhysFree?
  {
    match c
    case VirtFree(v) => v in w0.virts && (w0.virts[v].connectedThrough.Some? ==> w0.virts[v].connectedThrough.value in w0.pas) && w == VirtFreed(w0, v)
    case NetFree(n) => Freed(w0, w, {n})
    case SettingsFree(s) =>
      && s in w0.settings && Freed(w0, w.(settings := w0.settings), NetsOf(w0.nets, s))
      && w.settings == if w0.settings[s].state == NEW then w0.settings - {s} else w0.settings[s := Settings(DELETE, true)]
    case PhysFree(p) => PhysFreed(w0, w, p)
  }

  /** What the call makes of the model. */
  ghost predicate Stepped(c: Call, w0: World, w: World)
  {
    match c
    case Commit(netProblems, physProblems) => w == if Problems(Renewed(w0), netProblems, physProblems) then Renewed(w0) else Committed(w0)
    case SettingsNew(_) => Created(c, w0, w)
    case NetNew(_, _, _) => Created(c, w0, w)
    case PhysNew(_) => Created(c, w0, w)
    case VirtNew(_, _) => Created(c, w0, w)
    case PhysSetAttrs(_, _) => Changed(c, w0, w)
    case ClaimLocal(_) => Changed(c, w0, w)
    case VirtSetMac(_, _) => Changed(c, w0, w)
    case VirtSetRate(_, _, _) => Changed(c, w0, w)
    case PhysAttach(_, _, _) => Plugged(c, w0, w)
    case PhysDetach(_, _) => Plugged(c, w0, w)
    case VirtConnect(_, _, _, _) => Plugged(c, w0, w)
    case VirtDisconnect(_) => Plugged(c, w0, w)
    case _ => Released(c, w0, w)
  }

  method Create(ctx: Context, c: Call)
    requires c.SettingsNew? || c.NetNew? || c.PhysNew? || c.VirtNew?
    requires ctx.Valid() && Callable(c, ctx.settings, ctx.nets, ctx.physes, ctx.pas, ctx.virts)
    modifies ctx
    ensures ctx.Valid() && Created(c, old(ctx.W()), ctx.W())
  {
    hide Inv, WellBracketed, Replay;
    match c {
      case SettingsNew(s) => ctx.SettingsNew(s);
      case NetNew(n, s, vnetId) => ctx.NetNew(n, s, vnetId);
      case PhysNew(p) => ctx.PhysNew(p);
      case VirtNew(v, n) => ctx.VirtNew(v, n);
    }
  }

  method Change(ctx: Context, c: Call)
    requires c.PhysSetAttrs? || c.ClaimLocal? || c.VirtSetMac? || c.VirtSetRate?
    requires ctx.Valid() && Callable(c, ctx.settings, ctx.nets, ctx.physes, ctx.pas, ctx.virts)
    modifies ctx
    ensures ctx.Valid() && Changed(c, old(ctx.W()), ctx.W())
  {
    hide Inv, WellBracketed, Replay;
    match c {
      case PhysSetAttrs(p, attrs) => ctx.PhysSetAttrs(p, attrs);
      case ClaimLocal(p) => ctx.ClaimLocal(p);
      case VirtSetMac(v, mac) => ctx.VirtSetMac(v, mac);
      case VirtSetRate(v, incoming, rate) => ctx.VirtSetRate(v, incoming, rate);
    }
  }

  method Plug(ctx: Context, c: Call)
    requires c.PhysAttach? || c.PhysDetach? || c.VirtConnect? || c.VirtDisconnect?
    requires ctx.Valid() && Callable(c, ctx.settings, ctx.nets, ctx.physes, ctx.pas, ctx.virts)
    modifies ctx
    ensures ctx.Valid() && Plugged(c, old(ctx.W()), ctx.W())
  {
    hide Inv, WellBracketed, Replay, AttachedBy, ConnectedBy, Detached, Unplugged;
    match c {
      case PhysAttach(p, n, addr) => ctx.PhysAttach(p, n, addr);
      case PhysDetach(p, n) => ctx.PhysDetach(p, n);
      case VirtConnect(v, p, iface, addr) => ctx.VirtConnect(v, p, iface, addr);
      case VirtDisconnect(v) => ctx.VirtDisconnect(v);
    }
  }

  method Release(ctx: Context, c: Call)
    requires c.VirtFree? || c.NetFree? || c.SettingsFree? || c.PhysFree?
    requires ctx.Valid() && Callable(c, ctx.settings, ctx.nets, ctx.physes, ctx.pas, ctx.virts)
    modifies ctx
    ensures ctx.Valid() && Released(c, old(ctx.W()), ctx.W())
  {
    hide Inv, WellBracketed, Replay, VirtFreed, Freed, VirtsUnplugged, PasCleared;
    match c {
      case VirtFree(v) =>
        VirtThrough(ctx.W(), ctx.kernel, v);
        ctx.VirtFree(v);
      case NetFree(n) => ctx.NetFree(n);
      case SettingsFree(s) => ctx.SettingsFree(s);
      case PhysFree(p) => ctx.PhysFree(p);
    }
  }

  method Do(ctx: Context, c: Call) returns (r: Error)
    requires ctx.Valid() && Callable(c, ctx.settings, ctx.nets, ctx.physes, ctx.pas, ctx.virts)
    modifies ctx
    ensures ctx.Valid() && Stepped(c, old(ctx.W()), ctx.W())
    ensures c.Commit? && r == LSDNE_OK ==> UpToDate(ctx.W(), ctx.kernel)
  {
    hide Inv, WellBracketed, Replay, UpToDate, Created, Changed, Plugged, Released, Callable, Renewed, Committed, Problems;
    r := LSDNE_OK;
    if c.SettingsNew? || c.NetNew? || c.PhysNew? || c.VirtNew? {
      Create(ctx, c);
    } else if c.PhysSetAttrs? || c.ClaimLocal? || c.VirtSetMac? || c.VirtSetRate? {
      Change(ctx, c);
    } else if c.PhysAttach? || c.PhysDetach? || c.VirtConnect? || c.VirtDisconnect? {
      Plug(ctx, c);
    } else if c.Commit? {
      r := ctx.Commit(c.netProblems, c.physProblems);
    } else {
      Release(ctx, c);
    }
  }

  /** Call `i` of a run leads from one model to the next; a call on objects that are gone is skipped. */
  ghost predicate RunStep(calls: seq<Call>, ws: seq<World>, i: nat)
    requires i < |calls| && i + 1 < |ws|
  {
    var w := ws[i];
    if Callable(calls[i], w.settings, w.nets, w.physes, w.pas, w.virts) then Stepped(calls[i], w, ws[i + 1]) else ws[i + 1] == w
  }

  /** Any run: every callback in its trace was allowed when it was made, the trace leads to the kernel, and the invariant
      holds; `ws` are the models on the way. */
  method Run(calls: seq<Call>) returns (ctx: Context, ghost ws: seq<World>)
    ensures fresh(ctx) && ctx.Valid()
    ensures |ws| == |calls| + 1 && ws[0] == World(map[], map[], map[], map[], map[]) && ws[|calls|] == ctx.W()
    ensures forall i :: 0 <= i < |calls| ==> RunStep(calls, ws, i)
  {
    hide Inv, WellBracketed, Replay, Stepped, Callable;
    ctx := new Context();
    ws := [ctx.W()];
    for n := 0 to |calls|
      invariant fresh(ctx) && ctx.Valid()
      invariant |ws| == n + 1 && ws[0] == World(map[], map[], map[], map[], map[]) && ws[n] == ctx.W()
      invariant forall i :: 0 <= i < n ==> RunStep(calls, ws, i)
    {
      ghost var before := ws;
      if Callable(calls[n], ctx.settings, ctx.nets, ctx.physes, ctx.pas, ctx.virts) {
        var r := Do(ctx, calls[n]);
      }
      ws := ws + [ctx.W()];
      forall i | 0 <= i < n ensures RunStep(calls, ws, i) { assert RunStep(calls, before, i); }
      assert RunStep(calls, ws, n);
    }
  }

  /** The kernel that a model describes is unique, so that the incremental commits of a run and one commit of the final
      model into an empty kernel end in the same kernel. */
  lemma OneKernel(w: World, k: Kernel, k': Kernel)
    requires Describes(w, k) && Describes(w, k') && PasOk(w.nets, w.physes, w.pas)
    ensures k == k'
  {
    hide DescribesPas, DescribesVirts, DescribesViews, DescribesVirtViews, PasOk;
    OnePas(w, k.pas, k'.pas);
    OneViews(w, k.views, k'.views);
    OneVirts(w, k.virts, k'.virts);
    OneVirtViews(w, k.virtViews, k'.virtViews);
  }

  lemma OnePas(w: World, m: map<Id, PaConfig>, m': map<Id, PaConfig>)
    requires DescribesPas(w, m) && DescribesPas(w, m') && PasOk(w.nets, w.physes, w.pas)
    ensures m == m'
  {
    forall a | a in m ensures m[a] == m'[a] { assert PaOk(w.nets, w.physes, w.pas[a]); }
  }

  lemma OneViews(w: World, m: map<View, ViewConfig>, m': map<View, ViewConfig>)
    requires DescribesViews(w, m) && DescribesViews(w, m') && PasOk(w.nets, w.physes, w.pas)
    ensures m == m'
  {
    forall x | x in m ensures m[x] == m'[x] { assert PaOk(w.nets, w.physes, w.pas[x.remote]); }
  }

  lemma OneVirts(w: World, m: map<Id, VirtConfig>, m': map<Id, VirtConfig>)
    requires DescribesVirts(w, m) && DescribesVirts(w, m')
    ensures m == m'
  {}

  lemma OneVirtViews(w: World, m: map<VirtView, Option<Mac>>, m': map<VirtView, Option<Mac>>)
    requires DescribesVirtViews(w, m) && DescribesVirtViews(w, m')
    ensures m == m'
  {}

  // ---------------------------------------------------------------- incremental and from scratch

  /** Two models with the same objects, apart from objects that the next commit takes away, which agree in everything but
      the commit states and what a commit notes down. */
  ghost predicate SameModel(w: World, w': World)
  {
    SameNets(w, w') && SamePhyses(w.physes, w'.physes) && SameAttachments(w, w') && SamePlugs(w, w')
  }

  ghost predicate SameNets(w: World, w': World)
  {
    && (forall s :: s in SettingsAfter(w.settings) <==> s in SettingsAfter(w'.settings))
    && (forall n :: n in NetsAfter(w.nets) <==> n in NetsAfter(w'.nets))
    && (forall n :: n in NetsAfter(w.nets) && n in NetsAfter(w'.nets) ==> w.nets[n].settings == w'.nets[n].settings && w.nets[n].vnetId == w'.nets[n].vnetId)
  }

  ghost predicate SamePhyses(physes: map<Id, Phys>, physes': map<Id, Phys>)
  {
    && (forall p :: p in PhysesAfter(physes) <==> p in PhysesAfter(physes'))
    && (forall p :: p in PhysesAfter(physes) && p in PhysesAfter(physes') ==>
          physes[p].isLocal == physes'[p].isLocal && physes[p].attrs == physes'[p].attrs)
  }

  ghost predicate SameAttachments(w: World, w': World)
  {
    && (forall a :: a in PasAfter(w) <==> a in PasAfter(w'))
    && (forall a :: a in PasAfter(w) && a in PasAfter(w') ==> SamePa(w.pas[a], w'.pas[a]))
  }

  ghost predicate SamePlugs(w: World, w': World)
  {
    && (forall v :: v in VirtsAfter(w) <==> v in VirtsAfter(w'))
    && (forall v :: v in VirtsAfter(w) && v in VirtsAfter(w') ==> SamePlug(w.virts[v], w'.virts[v]))
  }

  ghost predicate SamePa(r: Pa, r': Pa)
  {
    r.net == r'.net && r.phys == r'.phys && r.explicitlyAttached == r'.explicitlyAttached
  }

  ghost predicate SamePlug(r: Virt, r': Virt)
  {
    r.net == r'.net && r.connectedThrough == r'.connectedThrough && r.connectedIf == r'.connectedIf && r.attrs == r'.attrs
  }

  lemma SameContainers(w: World, w': World)
    requires SettingsOk(w.settings) && SettingsOk(w'.settings) && NetsOk(w.settings, w.nets) && NetsOk(w'.settings, w'.nets) && SameNets(w, w')
    ensures SettingsAfter(w.settings) == SettingsAfter(w'.settings) && NetsAfter(w.nets) == NetsAfter(w'.nets)
  {
    hide NetsOk;
    forall n | n in NetsAfter(w.nets) ensures NetsAfter(w.nets)[n] == NetsAfter(w'.nets)[n] {
      NetLegalAfter(w, n);
      NetLegalAfter(w', n);
    }
  }

  lemma NetLegalAfter(w: World, n: Id)
    requires NetsOk(w.settings, w.nets) && n in NetsAfter(w.nets)
    ensures !w.nets[n].pendingFree
  {
    assert NetOk(w.settings, w.nets[n]);
  }

  lemma SamePhysesAfter(physes: map<Id, Phys>, physes': map<Id, Phys>)
    requires PhysesOk(physes) && PhysesOk(physes') && SamePhyses(physes, physes')
    ensures PhysesAfter(physes) == PhysesAfter(physes')
  {
    forall p | p in PhysesAfter(physes) ensures PhysesAfter(physes)[p] == PhysesAfter(physes')[p] {
      assert PhysOk(physes[p]) && PhysOk(physes'[p]);
    }
  }

  lemma SamePas(w: World, w': World)
    requires PasOk(w.nets, w.physes, w.pas) && PasOk(w'.nets, w'.physes, w'.pas) && SameModel(w, w')
    ensures PasAfter(w) == PasAfter(w')
  {
    hide SameNets, SamePhyses, SamePlugs, PasOk, Condemned;
    forall a | a in PasAfter(w) ensures PasAfter(w)[a] == PasAfter(w')[a] {
      SurvivorLegal(w, a);
      SurvivorLegal(w', a);
    }
  }

  lemma SurvivorLegal(w: World, a: Id)
    requires PasOk(w.nets, w.physes, w.pas) && a in PasAfter(w)
    ensures w.pas[a].state != DELETE && !w.pas[a].pendingFree && w.pas[a].phys in PhysesAfter(w.physes)
  {
    assert PaOk(w.nets, w.physes, w.pas[a]);
  }

  /** A virt that stays is connected through an attachment that stays. */
  lemma SurvivorPlug(w: World, v: Id)
    requires VirtsOk(w.nets, w.pas, w.virts) && v in VirtsAfter(w)
    ensures !w.virts[v].pendingFree && w.virts[v].state != DELETE
    ensures w.virts[v].connectedThrough.Some? ==> w.virts[v].connectedThrough.value in PasAfter(w)
  {
    assert VirtOk(w.nets, w.pas, w.virts[v]);
  }

  lemma SameVirts(w: World, w': World)
    requires PasOk(w.nets, w.physes, w.pas) && PasOk(w'.nets, w'.physes, w'.pas)
    requires VirtsOk(w.nets, w.pas, w.virts) && VirtsOk(w'.nets, w'.pas, w'.virts) && SameModel(w, w')
    ensures VirtsAfter(w) == VirtsAfter(w')
  {
    hide PasOk, VirtsOk, PasAfter, SameNets, SamePhyses;
    forall v | v in VirtsAfter(w) ensures VirtsAfter(w)[v] == VirtsAfter(w')[v] {
      SurvivorPlug(w, v);
      SurvivorPlug(w', v);
      if w.virts[v].connectedThrough.Some? {
        SamePlace(w, w', w.virts[v].connectedThrough.value);
      }
    }
  }

  lemma SamePlace(w: World, w': World, a: Id)
    requires PasOk(w.nets, w.physes, w.pas) && PasOk(w'.nets, w'.physes, w'.pas) && SameModel(w, w') && a in PasAfter(w) && a in PasAfter(w')
    ensures IsLocal(w, a) <==> IsLocal(w', a)
  {
    hide Condemned, PasOk, SameNets, SamePlugs;
    SurvivorLegal(w, a);
    SurvivorLegal(w', a);
  }

  /** The outcome of a commit depends only on the described model. */
  lemma SameOutcome(w: World, w': World)
    requires Coherent(w) && Coherent(w') && SameModel(w, w')
    ensures Committed(w) == Committed(w')
  {
    hide SettingsOk, NetsOk, PhysesOk, PasOk, OneAttachment, VirtsOk, PasHeld, SameNets, SamePhyses, SameAttachments, SamePlugs;
    hide SettingsAfter, NetsAfter, PhysesAfter, PasAfter, VirtsAfter;
    SameContainers(w, w');
    SamePhysesAfter(w.physes, w'.physes);
    SamePas(w, w');
    SameVirts(w, w');
  }

  /** Two contexts with the same model, one of them perhaps filled from scratch and the other by a long run: once both have
      committed, their kernels are equal. */
  method CommitBoth(c: Context, c': Context, netProblems: set<Id>, physProblems: set<Id>) returns (r: Error, r': Error)
    requires c != c' && c.Valid() && c'.Valid() && SameModel(c.W(), c'.W())
    modifies c, c'
    ensures c.Valid() && c'.Valid()
    ensures r == LSDNE_OK && r' == LSDNE_OK ==> c.W() == c'.W() && c.kernel == c'.kernel
  {
    hide Inv, WellBracketed, Replay, SameModel, Committed, Describes, AllOk, Renewed, Problems;
    InvCoherent(c.W(), c.kernel);
    InvCoherent(c'.W(), c'.kernel);
    SameOutcome(c.W(), c'.W());
    r := c.Commit(netProblems, physProblems);
    r' := c'.Commit(netProblems, physProblems);
    if r == LSDNE_OK && r' == LSDNE_OK {
      InvCoherent(c.W(), c.kernel);
      CoherentPas(c.W());
      OneKernel(c.W(), c.kernel, c'.kernel);
    }
  }

  // ---------------------------------------------------------------- a commit, field by field

  /** A commit drops exactly what is being deleted and the attachments that only virts being deleted still hold. */
  lemma CommitDrops(w: World)
    ensures forall s :: s in Committed(w).settings <==> s in w.settings && w.settings[s].state != DELETE
    ensures forall n :: n in Committed(w).nets <==> n in w.nets && w.nets[n].state != DELETE
    ensures forall p :: p in Committed(w).physes <==> p in w.physes && w.physes[p].state != DELETE
    ensures forall v :: v in Committed(w).virts <==> v in w.virts && w.virts[v].state != DELETE
    ensures forall a :: a in Committed(w).pas <==>
              && a in w.pas && w.pas[a].state != DELETE
              && (w.pas[a].explicitlyAttached
                  || (exists v :: v in w.virts && w.virts[v].connectedThrough == Some(a) && w.virts[v].state != DELETE)
                  || (forall v :: v in w.virts ==> w.virts[v].connectedThrough != Some(a)))
  {}

  /** A commit changes nothing of what it keeps but the states and the record of what is installed where. */
  lemma CommitKeepsFields(w: World)
    ensures forall n :: n in Committed(w).nets ==> n in w.nets && Committed(w).nets[n] == w.nets[n].(state := OK)
    ensures forall p :: p in Committed(w).physes ==>
              p in w.physes && Committed(w).physes[p] == w.physes[p].(state := OK, committedAsLocal := w.physes[p].isLocal)
    ensures forall a :: a in Committed(w).pas ==> a in w.pas && Committed(w).pas[a] == w.pas[a].(state := OK)
    ensures forall v :: v in Committed(w).virts ==>
              v in w.virts && Committed(w).virts[v] == w.virts[v].(state := OK, committedTo := Committed(w).virts[v].committedTo,
                                                                   committedIf := Committed(w).virts[v].committedIf)
  {}

  /** After a commit, an attachment is installed exactly if its phys is local, with the attributes of that phys and the
      identifier of its network. */
  lemma InstalledPas(w: World, k: Kernel)
    requires UpToDate(w, k) && PasOk(w.nets, w.physes, w.pas)
    ensures forall a :: a in w.pas ==> w.pas[a].phys in w.physes && w.pas[a].net in w.nets
    ensures forall a :: a in k.pas <==> a in w.pas && w.physes[w.pas[a].phys].isLocal
    ensures forall a :: a in k.pas ==>
              k.pas[a].attrs == w.physes[w.pas[a].phys].attrs && k.pas[a].vnetId == w.nets[w.pas[a].net].vnetId
  {
    forall a | a in w.pas ensures w.pas[a].phys in w.physes && w.pas[a].net in w.nets { assert PaOk(w.nets, w.physes, w.pas[a]); }
  }

  /** A local attachment sees every other attachment of its network, with the attributes of its own phys on the local side and
      those of the other phys on the remote side. */
  lemma InstalledViews(w: World, k: Kernel)
    requires UpToDate(w, k) && PasOk(w.nets, w.physes, w.pas)
    ensures forall a :: a in w.pas ==> w.pas[a].phys in w.physes
    ensures forall x :: x in k.views <==>
              && x.local in w.pas && x.remote in w.pas && x.local != x.remote && w.pas[x.local].net == w.pas[x.remote].net
              && w.physes[w.pas[x.local].phys].isLocal
    ensures forall x :: x in k.views ==>
              && k.views[x].local == w.physes[w.pas[x.local].phys].attrs && k.views[x].remote == w.physes[w.pas[x.remote].phys].attrs
  {
    forall a | a in w.pas ensures w.pas[a].phys in w.physes { assert PaOk(w.nets, w.physes, w.pas[a]); }
  }

  /** A virt is installed exactly if it is connected through an attachment to a local phys: on that attachment, with its own
      attributes and interface, and it remembers where. */
  lemma InstalledVirts(w: World, k: Kernel)
    requires UpToDate(w, k) && PasOk(w.nets, w.physes, w.pas) && VirtsOk(w.nets, w.pas, w.virts)
    ensures forall v :: v in w.virts && w.virts[v].connectedThrough.Some? ==>
              w.virts[v].connectedThrough.value in w.pas && w.pas[w.virts[v].connectedThrough.value].phys in w.physes
    ensures forall v :: v in k.virts <==>
              v in w.virts && w.virts[v].connectedThrough.Some? && w.physes[w.pas[w.virts[v].connectedThrough.value].phys].isLocal
    ensures forall v :: v in k.virts ==>
              && w.virts[v].connectedThrough == Some(k.virts[v].pa) && k.virts[v].attrs == w.virts[v].attrs
              && k.virts[v].iface == w.virts[v].connectedIf
    ensures forall v :: v in w.virts ==> w.virts[v].committedTo == if v in k.virts then Some(k.virts[v].pa) else None
    ensures forall v :: v in w.virts ==> w.virts[v].committedIf == if v in k.virts then w.virts[v].connectedIf else ""
  {
    hide DescribesPas, DescribesViews, DescribesVirtViews;
    forall v | v in w.virts && w.virts[v].connectedThrough.Some?
      ensures w.virts[v].connectedThrough.value in w.pas && w.pas[w.virts[v].connectedThrough.value].phys in w.physes
    {
      assert VirtOk(w.nets, w.pas, w.virts[v]);
      assert PaOk(w.nets, w.physes, w.pas[w.virts[v].connectedThrough.value]);
    }
  }

  /** Behind every view there is exactly one entry for each virt connected through its remote side, with the MAC of that virt. */
  lemma InstalledVirtViews(w: World, k: Kernel)
    requires UpToDate(w, k)
    ensures forall y :: y in k.virtViews <==>
              View(y.local, y.remote) in k.views && y.virt in w.virts && w.virts[y.virt].connectedThrough == Some(y.remote)
    ensures forall y :: y in k.virtViews ==> y.virt in w.virts && k.virtViews[y] == w.virts[y.virt].attrs.mac
  {
    forall y: VirtView ensures y in k.virtViews <==>
      View(y.local, y.remote) in k.views && y.virt in w.virts && w.virts[y.virt].connectedThrough == Some(y.remote) {}
  }

  /** Connecting a virt through a claimed phys and committing puts it into the kernel: on the attachment of that phys to its
      network, with its attributes, on the interface given. */
  method ConnectAndCommit(ctx: Context, v: Id, p: Id, iface: string, addr: Id, netProblems: set<Id>, physProblems: set<Id>) returns (r: Error)
    requires ctx.Valid() && Callable(VirtConnect(v, p, iface, addr), ctx.settings, ctx.nets, ctx.physes, ctx.pas, ctx.virts)
    requires ctx.physes[p].isLocal
    modifies ctx
    ensures ctx.Valid()
    ensures r == LSDNE_OK ==>
              && v in ctx.kernel.virts && ctx.kernel.virts[v].iface == iface && ctx.kernel.virts[v].attrs == old(ctx.virts[v].attrs)
              && ctx.kernel.virts[v].pa in ctx.kernel.pas && ctx.kernel.virts[v].pa in ctx.pas
              && ctx.pas[ctx.kernel.virts[v].pa].phys == p && ctx.pas[ctx.kernel.virts[v].pa].net == old(ctx.virts[v].net)
  {
    hide Inv, WellBracketed, Replay, Committed, Renewed, Problems, UpToDate, ConnectedBy, Coherent;
    ctx.VirtConnect(v, p, iface, addr);
    ghost var w := ctx.W();
    InvCoherent(w, ctx.kernel);
    CommitKeepsPlug(w, v);
    r := ctx.Commit(netProblems, physProblems);
    if r == LSDNE_OK {
      InvCoherent(ctx.W(), ctx.kernel);
      InstalledPlug(ctx.W(), ctx.kernel, v);
    }
  }

  /** Disconnecting a virt and committing takes it out of the kernel, and every view of it with it. */
  method DisconnectAndCommit(ctx: Context, v: Id, netProblems: set<Id>, physProblems: set<Id>) returns (r: Error)
    requires ctx.Valid() && Callable(VirtDisconnect(v), ctx.settings, ctx.nets, ctx.physes, ctx.pas, ctx.virts)
    modifies ctx
    ensures ctx.Valid()
    ensures r == LSDNE_OK ==> v in ctx.virts && v !in ctx.kernel.virts && forall y :: y in ctx.kernel.virtViews ==> y.virt != v
  {
    hide Inv, WellBracketed, Replay, Committed, Renewed, Problems, UpToDate, Coherent;
    ctx.VirtDisconnect(v);
    CommitDrops(ctx.W());
    CommitKeepsFields(ctx.W());
    r := ctx.Commit(netProblems, physProblems);
    if r == LSDNE_OK {
      InvCoherent(ctx.W(), ctx.kernel);
      UnpluggedAbsent(ctx.W(), ctx.kernel, v);
    }
  }

  lemma UnpluggedAbsent(w: World, k: Kernel, v: Id)
    requires UpToDate(w, k) && Coherent(w) && v in w.virts && w.virts[v].connectedThrough.None?
    ensures v !in k.virts && forall y :: y in k.virtViews ==> y.virt != v
  {
    InstalledVirts(w, k);
    InstalledVirtViews(w, k);
  }

  /** A connected virt that stays keeps its place: the attachment, the phys behind it and the interface. */
  lemma CommitKeepsPlug(w: World, v: Id)
    requires Coherent(w) && v in w.virts && w.virts[v].state != DELETE && w.virts[v].connectedThrough.Some?
    ensures var a := w.virts[v].connectedThrough.value;
            && a in w.pas && w.pas[a].phys in w.physes
            && var w' := Committed(w);
               && v in w'.virts && w'.virts[v].connectedThrough == Some(a) && w'.virts[v].connectedIf == w.virts[v].connectedIf
               && w'.virts[v].attrs == w.virts[v].attrs && w'.virts[v].net == w.virts[v].net
               && a in w'.pas && w'.pas[a].phys == w.pas[a].phys && w'.pas[a].net == w.pas[a].net
               && w'.pas[a].phys in w'.physes && w'.physes[w'.pas[a].phys].isLocal == w.physes[w.pas[a].phys].isLocal
  {
    hide OneAttachment, PasHeld, Condemned, SettingsOk, NetsOk, PhysesOk;
    SurvivorPlug(w, v);
    SurvivorLegal(w, w.virts[v].connectedThrough.value);
  }

  lemma InstalledPlug(w: World, k: Kernel, v: Id)
    requires Coherent(w) && UpToDate(w, k) && v in w.virts && w.virts[v].connectedThrough.Some?
    requires var a := w.virts[v].connectedThrough.value;
             a in w.pas && w.pas[a].phys in w.physes && w.physes[w.pas[a].phys].isLocal
    ensures v in k.virts && w.virts[v].connectedThrough == Some(k.virts[v].pa) && k.virts[v].pa in k.pas
    ensures k.virts[v].iface == w.virts[v].connectedIf && k.virts[v].attrs == w.virts[v].attrs
  {
    hide UpToDate, OneAttachment, PasHeld, SettingsOk, NetsOk, PhysesOk, PasOk, VirtsOk;
    InstalledPas(w, k);
    InstalledVirts(w, k);
  }

  /** A run, a commit that passes validation, and the teardown of the context: every object is freed and every callback
      object that was added has been removed. */
  method RunToTeardown(calls: seq<Call>, netProblems: set<Id>, physProblems: set<Id>) returns (ctx: Context, r: Error, ghost ws: seq<World>)
    ensures ctx.Valid()
    ensures |ws| == |calls| + 1 && ws[0] == World(map[], map[], map[], map[], map[]) && forall i :: 0 <= i < |calls| ==> RunStep(calls, ws, i)
    ensures r == if Problems(Renewed(ws[|calls|]), netProblems, physProblems) then LSDNE_VALIDATE else LSDNE_OK
    ensures r == LSDNE_OK ==>
              ctx.W() == World(map[], map[], map[], map[], map[]) && WellBracketed(ctx.trace) && Replay(ctx.trace) == EmptyKernel
    ensures r == LSDNE_OK ==> forall t :: Balance(ctx.trace, t) == 0
  {
    hide Inv, WellBracketed, Replay, RunStep, Problems, Renewed, Balance;
    ctx, ws := Run(calls);
    r := ctx.Commit(netProblems, physProblems);
    if r == LSDNE_OK {
      ctx.Cleanup(netProblems, physProblems);
      AllClosed(ctx.trace);
    }
  }
}
