/** What holds between any two API calls or commits: how the commit states of the model tell what the kernel holds.
    Each clause reads only the tables it needs. */
module Invariant {
  import opened Base
  import opened States
  import opened Netmodel

  // ---------------------------------------------------------------- the model by itself

  /** Without kernel failures no object is ERR or FAIL; exactly the deleted objects wait to be freed. */
  predicate Legal(s: State, pendingFree: bool)
  {
    s in {NEW, RENEW, OK, DELETE} && (pendingFree <==> s == DELETE)
  }

  /** The members of a container that was never committed were not committed either; those of a deleted one go with it. */
  predicate Nested(container: State, member: State)
  {
    (container == NEW ==> member == NEW) && (container == DELETE ==> member == DELETE)
  }

  /** Settings and networks are never renewed. */
  ghost predicate SettingsOk(settings: map<Id, Settings>)
  {
    forall s :: s in settings ==> Legal(settings[s].state, settings[s].pendingFree) && settings[s].state != RENEW
  }

  ghost predicate NetOk(settings: map<Id, Settings>, r: Net)
  {
    r.settings in settings && Legal(r.state, r.pendingFree) && r.state != RENEW && Nested(settings[r.settings].state, r.state)
  }

  ghost predicate NetsOk(settings: map<Id, Settings>, nets: map<Id, Net>)
  {
    forall n :: n in nets ==> NetOk(settings, nets[n])
  }

  ghost predicate PhysOk(r: Phys)
  {
    Legal(r.state, r.pendingFree) && (r.committedAsLocal ==> r.isLocal) && (r.state == OK ==> r.committedAsLocal == r.isLocal)
  }

  ghost predicate PhysesOk(physes: map<Id, Phys>)
  {
    forall p :: p in physes ==> PhysOk(physes[p])
  }

  ghost predicate PaOk(nets: map<Id, Net>, physes: map<Id, Phys>, r: Pa)
  {
    && r.net in nets && r.phys in physes && Legal(r.state, r.pendingFree)
    && (nets[r.net].state == NEW ==> r.state == NEW)
    && (nets[r.net].state == DELETE || r.state == DELETE ==> !r.explicitlyAttached)
    && Nested(physes[r.phys].state, r.state)
  }

  ghost predicate PasOk(nets: map<Id, Net>, physes: map<Id, Phys>, pas: map<Id, Pa>)
  {
    forall a :: a in pas ==> PaOk(nets, physes, pas[a])
  }

  /** A phys is attached to a network at most once. */
  ghost predicate OneAttachment(pas: map<Id, Pa>)
  {
    forall a, b :: a in pas && b in pas && pas[a].net == pas[b].net && pas[a].phys == pas[b].phys ==> a == b
  }

  /** A virt is connected through an attachment of its own network, and not through a deleted one. */
  ghost predicate VirtOk(nets: map<Id, Net>, pas: map<Id, Pa>, r: Virt)
  {
    && r.net in nets && Legal(r.state, r.pendingFree) && Nested(nets[r.net].state, r.state)
    && (r.connectedThrough.Some? ==>
          var a := r.connectedThrough.value; a in pas && pas[a].net == r.net && pas[a].state != DELETE)
  }

  ghost predicate VirtsOk(nets: map<Id, Net>, pas: map<Id, Pa>, virts: map<Id, Virt>)
  {
    forall v :: v in virts ==> VirtOk(nets, pas, virts[v])
  }

  ghost predicate HasVirts(virts: map<Id, Virt>, a: Id)
  {
    exists v :: v in virts && virts[v].connectedThrough == Some(a)
  }

  /** An attachment of a deleted net is deleted itself, or it will be when its last virt goes. */
  ghost predicate PasHeld(nets: map<Id, Net>, pas: map<Id, Pa>, virts: map<Id, Virt>)
  {
    forall a :: a in pas && pas[a].net in nets && nets[pas[a].net].state == DELETE && pas[a].state != DELETE ==> HasVirts(virts, a)
  }

  ghost predicate Coherent(w: World)
  {
    && SettingsOk(w.settings) && NetsOk(w.settings, w.nets) && PhysesOk(w.physes)
    && PasOk(w.nets, w.physes, w.pas) && OneAttachment(w.pas)
    && VirtsOk(w.nets, w.pas, w.virts) && PasHeld(w.nets, w.pas, w.virts)
  }

  // ---------------------------------------------------------------- the model and the kernel

  /** The attachment is installed in the kernel. */
  ghost predicate Live(physes: map<Id, Phys>, pas: map<Id, Pa>, a: Id)
  {
    a in pas && pas[a].state != NEW && pas[a].phys in physes && physes[pas[a].phys].committedAsLocal
  }

  /** The live attachments are in the kernel, as the model describes them unless their phys was touched. */
  ghost predicate PasMirrored(nets: map<Id, Net>, physes: map<Id, Phys>, pas: map<Id, Pa>, livePas: map<Id, PaConfig>)
  {
    && (forall a :: a in livePas <==> Live(physes, pas, a))
    && (forall a :: a in livePas && physes[pas[a].phys].state == OK && pas[a].net in nets ==>
          livePas[a] == PaConfigOf(nets, physes, pas[a]))
  }

  ghost predicate ViewLive(physes: map<Id, Phys>, pas: map<Id, Pa>, x: View)
  {
    Peers(pas, x) && Live(physes, pas, x.local) && pas[x.remote].state != NEW
  }

  /** Each live attachment sees each committed other attachment of its network. */
  ghost predicate ViewsMirrored(physes: map<Id, Phys>, pas: map<Id, Pa>, views: map<View, ViewConfig>)
  {
    && (forall x :: x in views <==> ViewLive(physes, pas, x))
    && (forall x :: x in views && pas[x.remote].phys in physes
                    && physes[pas[x.local].phys].state == OK && physes[pas[x.remote].phys].state == OK ==>
          views[x] == ViewConfigOf(physes, pas[x.local], pas[x.remote]))
  }

  /** The virt is installed exactly where it was committed to. */
  ghost predicate VirtMirrored(
    pas: map<Id, Pa>, livePas: map<Id, PaConfig>, liveVirts: map<Id, VirtConfig>, v: Id, r: Virt)
  {
    match r.committedTo
    case None => v !in liveVirts && r.committedIf == ""
    case Some(a) =>
      v in liveVirts && liveVirts[v].pa == a && a in livePas && a in pas && pas[a].net == r.net && r.state != NEW
  }

  /** What was installed for an untouched virt is what the model says now. */
  ghost predicate VirtCurrent(
    pas: map<Id, Pa>, livePas: map<Id, PaConfig>, liveVirts: map<Id, VirtConfig>, v: Id, r: Virt)
  {
    && (r.connectedThrough.Some? && r.connectedThrough.value in pas ==> pas[r.connectedThrough.value].state != NEW)
    && r.committedTo == (if r.connectedThrough.Some? && r.connectedThrough.value in livePas then r.connectedThrough else None)
    && (r.committedTo.Some? ==> r.committedIf == r.connectedIf)
    && (v in liveVirts ==> liveVirts[v].attrs == r.attrs && liveVirts[v].iface == r.connectedIf)
  }

  ghost predicate VirtsMirrored(
    pas: map<Id, Pa>, virts: map<Id, Virt>, livePas: map<Id, PaConfig>, liveVirts: map<Id, VirtConfig>)
  {
    && (forall v :: v in liveVirts ==> v in virts)
    && (forall v :: v in virts ==> VirtMirrored(pas, livePas, liveVirts, v, virts[v]))
    && (forall v :: v in virts && virts[v].state == OK ==> VirtCurrent(pas, livePas, liveVirts, v, virts[v]))
  }

  ghost predicate VirtViewLive(
    virts: map<Id, Virt>, views: map<View, ViewConfig>, virtViews: map<VirtView, Option<Mac>>, y: VirtView)
    requires y in virtViews
  {
    && View(y.local, y.remote) in views && y.virt in virts && virts[y.virt].state != NEW
    && (virts[y.virt].state == OK ==> virts[y.virt].connectedThrough == Some(y.remote) && virtViews[y] == virts[y.virt].attrs.mac)
  }

  /** Each view shows each untouched virt behind it, and only such virts and virts that the next commit will take out. */
  ghost predicate VirtViewsMirrored(
    virts: map<Id, Virt>, views: map<View, ViewConfig>, virtViews: map<VirtView, Option<Mac>>)
  {
    && (forall y :: y in virtViews ==> VirtViewLive(virts, views, virtViews, y))
    && (forall y: VirtView ::
          View(y.local, y.remote) in views && y.virt in virts && virts[y.virt].state == OK && virts[y.virt].connectedThrough == Some(y.remote) ==>
          y in virtViews)
  }

  ghost predicate Mirrored(w: World, k: Kernel)
  {
    && PasMirrored(w.nets, w.physes, w.pas, k.pas) && ViewsMirrored(w.physes, w.pas, k.views)
    && VirtsMirrored(w.pas, w.virts, k.pas, k.virts) && VirtViewsMirrored(w.virts, k.views, k.virtViews)
  }

  ghost predicate Inv(w: World, k: Kernel)
  {
    Coherent(w) && Mirrored(w, k)
  }
}
