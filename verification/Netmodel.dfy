/** The in-memory network model of lsdn.c as a value, the kernel as the net-type callbacks see it,
    and what the kernel has to hold for a given model. */
module Netmodel {
  import opened Base
  import opened States

  /** Objects are known by their address. */
  type Id = nat

  type Mac = nat

  datatype Settings = Settings(state: State, pendingFree: bool)

  datatype Net = Net(state: State, pendingFree: bool, settings: Id, vnetId: nat)

  datatype PhysAttrs = PhysAttrs(iface: Option<string>, ip: Option<nat>)

  datatype Phys = Phys(state: State, pendingFree: bool, isLocal: bool, committedAsLocal: bool, attrs: PhysAttrs)

  /** A phys attachment (PA). */
  datatype Pa = Pa(state: State, pendingFree: bool, net: Id, phys: Id, explicitlyAttached: bool)

  datatype QosRate = QosRate(avgRate: real, burstSize: nat, burstRate: real)

  datatype VirtAttrs = VirtAttrs(mac: Option<Mac>, rateIn: Option<QosRate>, rateOut: Option<QosRate>)

  function RateOf(attrs: VirtAttrs, incoming: bool): Option<QosRate> { if incoming then attrs.rateIn else attrs.rateOut }

  function WithRate(attrs: VirtAttrs, incoming: bool, rate: Option<QosRate>): VirtAttrs
  {
    if incoming then attrs.(rateIn := rate) else attrs.(rateOut := rate)
  }

  datatype Virt = Virt(
    state: State, pendingFree: bool, net: Id,
    connectedThrough: Option<Id>, committedTo: Option<Id>,
    connectedIf: string, committedIf: string, attrs: VirtAttrs)

  /** A remote PA: how the local attachment `local` sees the attachment `remote` of the same network. */
  datatype View = View(local: Id, remote: Id)

  /** A remote virt: the virt `virt` as seen through the remote PA (`local`, `remote`). */
  datatype VirtView = VirtView(local: Id, remote: Id, virt: Id)

  datatype World = World(
    settings: map<Id, Settings>, nets: map<Id, Net>, physes: map<Id, Phys>, pas: map<Id, Pa>, virts: map<Id, Virt>)

  // ---------------------------------------------------------------- the kernel

  /** What a callback was told when it installed an object. */
  datatype PaConfig = PaConfig(attrs: PhysAttrs, vnetId: nat)
  datatype VirtConfig = VirtConfig(pa: Id, attrs: VirtAttrs, iface: string)
  datatype ViewConfig = ViewConfig(local: PhysAttrs, remote: PhysAttrs)

  datatype Kernel = Kernel(
    pas: map<Id, PaConfig>, virts: map<Id, VirtConfig>,
    views: map<View, ViewConfig>, virtViews: map<VirtView, Option<Mac>>)

  /** One call of a `lsdn_net_ops` callback. */
  datatype Event =
    | CreatePa(pa: Id, paConfig: PaConfig)
    | DestroyPa(pa: Id)
    | AddVirt(virt: Id, virtConfig: VirtConfig)
    | RemoveVirt(virt: Id)
    | AddRemotePa(view: View, viewConfig: ViewConfig)
    | RemoveRemotePa(view: View)
    | AddRemoteVirt(virtView: VirtView, mac: Option<Mac>)
    | RemoveRemoteVirt(virtView: VirtView)

  /** The contract of private/net.h: when a callback may be called. */
  ghost predicate Allowed(k: Kernel, e: Event)
  {
    match e
    case CreatePa(a, _) => a !in k.pas
    case DestroyPa(a) =>
      && a in k.pas
      && (forall v :: v in k.virts ==> k.virts[v].pa != a)
      && (forall x :: x in k.views ==> x.local != a && x.remote != a)
      && (forall y :: y in k.virtViews ==> y.local != a && y.remote != a)
    case AddVirt(v, c) => v !in k.virts && c.pa in k.pas
    case RemoveVirt(v) => v in k.virts
    case AddRemotePa(x, _) => x !in k.views && x.local in k.pas
    case RemoveRemotePa(x) => x in k.views && forall y :: y in k.virtViews ==> View(y.local, y.remote) != x
    case AddRemoteVirt(y, _) => y !in k.virtViews && View(y.local, y.remote) in k.views
    case RemoveRemoteVirt(y) => y in k.virtViews
  }

  /** The effect of a callback. */
  ghost function After(k: Kernel, e: Event): Kernel
  {
    match e
    case CreatePa(a, c) => k.(pas := k.pas[a := c])
    case DestroyPa(a) => k.(pas := k.pas - {a})
    case AddVirt(v, c) => k.(virts := k.virts[v := c])
    case RemoveVirt(v) => k.(virts := k.virts - {v})
    case AddRemotePa(x, c) => k.(views := k.views[x := c])
    case RemoveRemotePa(x) => k.(views := k.views - {x})
    case AddRemoteVirt(y, m) => k.(virtViews := k.virtViews[y := m])
    case RemoveRemoteVirt(y) => k.(virtViews := k.virtViews - {y})
  }

  const EmptyKernel := Kernel(map[], map[], map[], map[])

  /** A trace is well bracketed when every callback in it was allowed at its time. */
  ghost predicate WellBracketed(trace: seq<Event>)
  {
    trace == [] || (WellBracketed(trace[..|trace|-1]) && Allowed(Replay(trace[..|trace|-1]), trace[|trace|-1]))
  }

  /** The kernel that a trace of callbacks leaves behind. */
  ghost function Replay(trace: seq<Event>): Kernel
  {
    if trace == [] then EmptyKernel else After(Replay(trace[..|trace|-1]), trace[|trace|-1])
  }

  // ---------------------------------------------------------------- what the model describes

  /** The attachment belongs to a phys claimed as local. */
  ghost predicate IsLocal(w: World, a: Id)
  {
    a in w.pas && w.pas[a].phys in w.physes && w.physes[w.pas[a].phys].isLocal
  }

  /** Two different attachments of the same network. */
  ghost predicate Peers(pas: map<Id, Pa>, x: View)
  {
    x.local in pas && x.remote in pas && x.local != x.remote && pas[x.local].net == pas[x.remote].net
  }

  ghost predicate ConnectedLocally(w: World, v: Id)
  {
    v in w.virts && w.virts[v].connectedThrough.Some? && IsLocal(w, w.virts[v].connectedThrough.value)
  }

  /** A view for each (local attachment, other attachment of its network). */
  ghost predicate ViewWanted(w: World, x: View)
  {
    Peers(w.pas, x) && IsLocal(w, x.local)
  }

  /** A virt view for each view and each virt connected through the remote side of that view. */
  ghost predicate VirtViewWanted(w: World, y: VirtView)
  {
    ViewWanted(w, View(y.local, y.remote)) && y.virt in w.virts && w.virts[y.virt].connectedThrough == Some(y.remote)
  }

  ghost function PaConfigOf(nets: map<Id, Net>, physes: map<Id, Phys>, r: Pa): PaConfig
    requires r.net in nets && r.phys in physes
  {
    PaConfig(physes[r.phys].attrs, nets[r.net].vnetId)
  }

  ghost function ViewConfigOf(physes: map<Id, Phys>, local: Pa, remote: Pa): ViewConfig
    requires local.phys in physes && remote.phys in physes
  {
    ViewConfig(physes[local.phys].attrs, physes[remote.phys].attrs)
  }

  ghost predicate DescribesPas(w: World, livePas: map<Id, PaConfig>)
  {
    && (forall a :: a in livePas <==> IsLocal(w, a))
    && (forall a :: a in livePas && w.pas[a].net in w.nets ==> livePas[a] == PaConfigOf(w.nets, w.physes, w.pas[a]))
  }

  ghost predicate DescribesVirts(w: World, liveVirts: map<Id, VirtConfig>)
  {
    && (forall v :: v in liveVirts <==> ConnectedLocally(w, v))
    && (forall v :: v in liveVirts ==>
          liveVirts[v] == VirtConfig(w.virts[v].connectedThrough.value, w.virts[v].attrs, w.virts[v].connectedIf))
  }

  ghost predicate DescribesViews(w: World, views: map<View, ViewConfig>)
  {
    && (forall x :: x in views <==> ViewWanted(w, x))
    && (forall x :: x in views && w.pas[x.remote].phys in w.physes ==>
          views[x] == ViewConfigOf(w.physes, w.pas[x.local], w.pas[x.remote]))
  }

  ghost predicate DescribesVirtViews(w: World, virtViews: map<VirtView, Option<Mac>>)
  {
    && (forall y :: y in virtViews <==> VirtViewWanted(w, y))
    && (forall y :: y in virtViews ==> virtViews[y] == w.virts[y.virt].attrs.mac)
  }

  /** The kernel is what committing `w` into an empty kernel has to produce: an attachment per local PA, a virt per virt
      connected through one, a view per (local PA, other PA of the net), a virt view per (view, virt behind it). */
  ghost predicate Describes(w: World, k: Kernel)
  {
    DescribesPas(w, k.pas) && DescribesVirts(w, k.virts) && DescribesViews(w, k.views) && DescribesVirtViews(w, k.virtViews)
  }
}
