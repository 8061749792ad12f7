/** The recommit and ack phases of `lsdn_commit`: how the kernel grows, one local attachment after the other,
    from what the decommit phase left to what the model describes. */
module Recommit {
  import opened Base
  import opened States
  import opened Netmodel
  import opened Invariant
  import opened Edits
  import opened Removals
  import opened Decommit

  /** Nothing is left to decommit. */
  ghost predicate Quiet(w: World)
  {
    && (forall a :: a in w.pas ==> !MustDecommit(w.pas[a].state))
    && (forall v :: v in w.virts ==> !MustDecommit(w.virts[v].state))
  }

  // In the following, `done` are the local attachments already recommitted and `extra` the part of the
  // current one that is. The rest of the kernel still is what was up to date before.

  ghost predicate PaIn(w: World, done: set<Id>, a: Id)
  {
    IsLocal(w, a) && (a in done || w.pas[a].state == OK)
  }

  ghost predicate MidPas(w: World, livePas: map<Id, PaConfig>, done: set<Id>)
  {
    && (forall a :: a in livePas <==> PaIn(w, done, a))
    && (forall a :: a in livePas && w.pas[a].net in w.nets ==> livePas[a] == PaConfigOf(w.nets, w.physes, w.pas[a]))
  }

  ghost predicate ViewIn(w: World, done: set<Id>, extra: set<View>, x: View)
  {
    ViewWanted(w, x) && (x.local in done || x in extra || (w.pas[x.local].state == OK && w.pas[x.remote].state == OK))
  }

  ghost predicate MidViews(w: World, views: map<View, ViewConfig>, done: set<Id>, extra: set<View>)
  {
    && (forall x :: x in views <==> ViewIn(w, done, extra, x))
    && (forall x :: x in views && w.pas[x.remote].phys in w.physes ==>
          views[x] == ViewConfigOf(w.physes, w.pas[x.local], w.pas[x.remote]))
  }

  ghost predicate VirtIn(w: World, done: set<Id>, extra: set<Id>, v: Id)
  {
    ConnectedLocally(w, v) && (w.virts[v].connectedThrough.value in done || v in extra || w.virts[v].state == OK)
  }

  ghost predicate VirtCommitted(r: Virt, installed: bool)
  {
    if installed then r.committedTo == r.connectedThrough && r.committedIf == r.connectedIf
    else r.committedTo == None && r.committedIf == ""
  }

  ghost predicate MidVirts(w: World, liveVirts: map<Id, VirtConfig>, done: set<Id>, extra: set<Id>)
  {
    && (forall v :: v in liveVirts <==> VirtIn(w, done, extra, v))
    && (forall v :: v in liveVirts ==>
          liveVirts[v] == VirtConfig(w.virts[v].connectedThrough.value, w.virts[v].attrs, w.virts[v].connectedIf))
    && (forall v :: v in w.virts ==> VirtCommitted(w.virts[v], v in liveVirts))
  }

  ghost predicate VirtViewIn(w: World, done: set<Id>, extra: set<VirtView>, y: VirtView)
  {
    VirtViewWanted(w, y) && (y.local in done || y in extra || (w.pas[y.local].state == OK && w.virts[y.virt].state == OK))
  }

  ghost predicate MidVirtViews(w: World, virtViews: map<VirtView, Option<Mac>>, done: set<Id>, extra: set<VirtView>)
  {
    && (forall y :: y in virtViews <==> VirtViewIn(w, done, extra, y))
    && (forall y :: y in virtViews ==> virtViews[y] == w.virts[y.virt].attrs.mac)
  }

  ghost predicate Mid(w: World, k: Kernel, done: set<Id>)
  {
    MidPas(w, k.pas, done) && MidViews(w, k.views, done, {}) && MidVirts(w, k.virts, done, {}) && MidVirtViews(w, k.virtViews, done, {})
  }

  // ---------------------------------------------------------------- the start

  /** An attachment that stayed OK through the decommit phase belongs to a phys that is OK. */
  lemma OkPa(w: World, a: Id)
    requires PasOk(w.nets, w.physes, w.pas) && PhysesOk(w.physes) && Propagated(w) && a in w.pas && w.pas[a].state == OK
    ensures w.physes[w.pas[a].phys].state == OK
  {}

  lemma StartPas(w: World, k: Kernel)
    requires PasOk(w.nets, w.physes, w.pas) && PhysesOk(w.physes) && Propagated(w) && Quiet(w)
    requires PasMirrored(w.nets, w.physes, w.pas, k.pas)
    ensures MidPas(w, k.pas, {})
    ensures forall a :: Live(w.physes, w.pas, a) <==> IsLocal(w, a) && w.pas[a].state == OK
  {
    forall a ensures Live(w.physes, w.pas, a) <==> IsLocal(w, a) && w.pas[a].state == OK {
      if a in w.pas && w.pas[a].state == OK { OkPa(w, a); }
    }
    forall a | a in k.pas ensures w.physes[w.pas[a].phys].state == OK { OkPa(w, a); }
  }

  lemma StartViews(w: World, k: Kernel)
    requires PasOk(w.nets, w.physes, w.pas) && PhysesOk(w.physes) && Propagated(w) && Quiet(w)
    requires ViewsMirrored(w.physes, w.pas, k.views)
    requires forall a :: Live(w.physes, w.pas, a) <==> IsLocal(w, a) && w.pas[a].state == OK
    ensures MidViews(w, k.views, {}, {})
  {
    forall x ensures ViewLive(w.physes, w.pas, x) <==> ViewIn(w, {}, {}, x) {}
    forall x | x in k.views ensures w.physes[w.pas[x.local].phys].state == OK && w.physes[w.pas[x.remote].phys].state == OK {
      assert ViewLive(w.physes, w.pas, x);
      OkPa(w, x.local);
      OkPa(w, x.remote);
    }
  }

  lemma StartVirts(w: World, k: Kernel)
    requires PasOk(w.nets, w.physes, w.pas) && VirtsOk(w.nets, w.pas, w.virts) && Quiet(w)
    requires VirtsMirrored(w.pas, w.virts, k.pas, k.virts) && MidPas(w, k.pas, {})
    ensures MidVirts(w, k.virts, {}, {})
  {
    forall v | v in w.virts
      ensures v in k.virts <==> VirtIn(w, {}, {}, v)
      ensures VirtCommitted(w.virts[v], v in k.virts)
    {
      assert VirtMirrored(w.pas, k.pas, k.virts, v, w.virts[v]);
      assert VirtOk(w.nets, w.pas, w.virts[v]);
      if w.virts[v].state == OK {
        assert VirtCurrent(w.pas, k.pas, k.virts, v, w.virts[v]);
      }
    }
  }

  lemma StartVirtViews(w: World, k: Kernel)
    requires PasOk(w.nets, w.physes, w.pas) && VirtsOk(w.nets, w.pas, w.virts) && Quiet(w)
    requires VirtsMirrored(w.pas, w.virts, k.pas, k.virts)
    requires VirtViewsMirrored(w.virts, k.views, k.virtViews) && MidViews(w, k.views, {}, {})
    ensures MidVirtViews(w, k.virtViews, {}, {})
  {
    forall y ensures y in k.virtViews <==> VirtViewIn(w, {}, {}, y) {
      if y in k.virtViews {
        assert VirtViewLive(w.virts, k.views, k.virtViews, y);
      } else if VirtViewIn(w, {}, {}, y) {
        assert VirtCurrent(w.pas, k.pas, k.virts, y.virt, w.virts[y.virt]);
        assert ViewIn(w, {}, {}, View(y.local, y.remote));
      }
    }
  }

  lemma StartMid(w: World, k: Kernel)
    requires Inv(w, k) && Propagated(w) && Quiet(w)
    ensures Mid(w, k, {})
  {
    hide SettingsOk, NetsOk, PhysesOk, PasOk, VirtsOk, OneAttachment, PasHeld, Quiet, Propagated;
    hide PasMirrored, ViewsMirrored, VirtsMirrored, VirtViewsMirrored, MidPas, MidViews, MidVirts, MidVirtViews;
    StartPas(w, k);
    StartViews(w, k);
    StartVirts(w, k);
    StartVirtViews(w, k);
  }

  // ---------------------------------------------------------------- one step

  /** What `commit_pa` notes down about a virt it installs. */
  ghost function VirtOn(w: World, v: Id, l: Id): World
    requires v in w.virts
  {
    w.(virts := w.virts[v := w.virts[v].(committedTo := Some(l), committedIf := w.virts[v].connectedIf)])
  }

  lemma CreatePaMid(w: World, livePas: map<Id, PaConfig>, done: set<Id>, l: Id, config: PaConfig)
    requires MidPas(w, livePas, done) && IsLocal(w, l) && w.pas[l].net in w.nets && config == PaConfigOf(w.nets, w.physes, w.pas[l])
    ensures MidPas(w, livePas[l := config], done + {l})
  {}

  lemma AddVirtMid(w: World, liveVirts: map<Id, VirtConfig>, done: set<Id>, extra: set<Id>, v: Id, l: Id)
    requires MidVirts(w, liveVirts, done, extra) && ConnectedLocally(w, v) && w.virts[v].connectedThrough == Some(l)
    ensures MidVirts(VirtOn(w, v, l), liveVirts[v := VirtConfig(l, w.virts[v].attrs, w.virts[v].connectedIf)], done, extra + {v})
  {
    var w' := VirtOn(w, v, l);
    forall u ensures VirtIn(w', done, extra + {v}, u) <==> VirtIn(w, done, extra, u) || u == v {}
  }

  lemma AddViewMid(w: World, views: map<View, ViewConfig>, done: set<Id>, extra: set<View>, x: View, config: ViewConfig)
    requires MidViews(w, views, done, extra) && ViewWanted(w, x) && w.pas[x.remote].phys in w.physes
    requires config == ViewConfigOf(w.physes, w.pas[x.local], w.pas[x.remote])
    ensures MidViews(w, views[x := config], done, extra + {x})
  {
    forall z ensures ViewIn(w, done, extra + {x}, z) <==> ViewIn(w, done, extra, z) || z == x {}
  }

  lemma AddVirtViewMid(w: World, virtViews: map<VirtView, Option<Mac>>, done: set<Id>, extra: set<VirtView>, y: VirtView)
    requires MidVirtViews(w, virtViews, done, extra) && VirtViewWanted(w, y)
    ensures MidVirtViews(w, virtViews[y := w.virts[y.virt].attrs.mac], done, extra + {y})
  {
    forall z ensures VirtViewIn(w, done, extra + {y}, z) <==> VirtViewIn(w, done, extra, z) || z == y {}
  }

  /** Installing virts touches neither the other tables nor what they are compared with. */
  lemma VirtOnKeeps(w: World, k: Kernel, done: set<Id>, extra: Progress, v: Id, l: Id)
    requires v in w.virts
    ensures MidViews(w, k.views, done, extra.views) ==> MidViews(VirtOn(w, v, l), k.views, done, extra.views)
    ensures MidVirtViews(w, k.virtViews, done, extra.virtViews) ==> MidVirtViews(VirtOn(w, v, l), k.virtViews, done, extra.virtViews)
  {
    var w' := VirtOn(w, v, l);
    forall y ensures VirtViewIn(w', done, extra.virtViews, y) <==> VirtViewIn(w, done, extra.virtViews, y) {}
  }

  lemma VirtOnPas(w: World, k: Kernel, done: set<Id>, v: Id, l: Id)
    requires v in w.virts
    ensures MidPas(w, k.pas, done) ==> MidPas(VirtOn(w, v, l), k.pas, done)
    ensures forall a :: IsLocal(w, a) <==> IsLocal(VirtOn(w, v, l), a)
  {}

  lemma FinishVirts(w: World, liveVirts: map<Id, VirtConfig>, done: set<Id>, extra: set<Id>, l: Id)
    requires MidVirts(w, liveVirts, done, extra)
    requires extra == VirtsOf(w.virts, l)
    ensures MidVirts(w, liveVirts, done + {l}, {})
  {
    forall u ensures VirtIn(w, done + {l}, {}, u) <==> VirtIn(w, done, extra, u) {}
  }

  lemma FinishViews(w: World, views: map<View, ViewConfig>, done: set<Id>, extra: set<View>, l: Id)
    requires MidViews(w, views, done, extra) && (forall x :: x in extra <==> Peers(w.pas, x) && x.local == l)
    ensures MidViews(w, views, done + {l}, {})
  {
    forall z ensures ViewIn(w, done + {l}, {}, z) <==> ViewIn(w, done, extra, z) {}
  }

  lemma FinishVirtViews(w: World, virtViews: map<VirtView, Option<Mac>>, done: set<Id>, extra: set<VirtView>, l: Id)
    requires MidVirtViews(w, virtViews, done, extra) && (forall y :: VirtViewWanted(w, y) && y.local == l ==> y in extra)
    requires forall y :: y in extra ==> y.local == l
    ensures MidVirtViews(w, virtViews, done + {l}, {})
  {
    forall z ensures VirtViewIn(w, done + {l}, {}, z) <==> VirtViewIn(w, done, extra, z) {}
  }

  // ---------------------------------------------------------------- the end

  /** Once every local attachment was recommitted, the kernel is what the model describes. */
  lemma EndMid(w: World, k: Kernel, done: set<Id>)
    requires Mid(w, k, done) && (forall a :: IsLocal(w, a) ==> a in done)
    ensures Describes(w, k)
  {
  }

  // ---------------------------------------------------------------- the ack phase

  ghost function AckSettings(m: map<Id, Settings>): map<Id, Settings> { map s | s in m :: m[s].(state := AckState(m[s].state)) }
  ghost function AckNets(m: map<Id, Net>): map<Id, Net> { map n | n in m :: m[n].(state := AckState(m[n].state)) }
  ghost function AckPhyses(m: map<Id, Phys>): map<Id, Phys> { map p | p in m :: m[p].(state := AckState(m[p].state)) }
  ghost function AckPas(m: map<Id, Pa>): map<Id, Pa> { map a | a in m :: m[a].(state := AckState(m[a].state)) }
  ghost function AckVirts(m: map<Id, Virt>): map<Id, Virt> { map v | v in m :: m[v].(state := AckState(m[v].state)) }

  /** The ack phase: everything that is left is committed now. */
  ghost function Acked(w: World): World
  {
    World(AckSettings(w.settings), AckNets(w.nets), AckPhyses(w.physes), AckPas(w.pas), AckVirts(w.virts))
  }

  ghost predicate AllOk(w: World)
  {
    && (forall s :: s in w.settings ==> w.settings[s].state == OK)
    && (forall n :: n in w.nets ==> w.nets[n].state == OK)
    && (forall p :: p in w.physes ==> w.physes[p].state == OK)
    && (forall a :: a in w.pas ==> w.pas[a].state == OK)
    && (forall v :: v in w.virts ==> w.virts[v].state == OK)
  }

  /** The model that a successful commit leaves: the deleted objects and the orphaned attachments are gone, everything else is
      committed as it stands. */
  ghost function Committed(w: World): World
  {
    World(SettingsAfter(w.settings), NetsAfter(w.nets), PhysesAfter(w.physes), PasAfter(w), VirtsAfter(w))
  }

  ghost function SettingsAfter(m: map<Id, Settings>): map<Id, Settings> { map s | s in m && m[s].state != DELETE :: m[s].(state := OK) }
  ghost function NetsAfter(m: map<Id, Net>): map<Id, Net> { map n | n in m && m[n].state != DELETE :: m[n].(state := OK) }

  ghost function PhysesAfter(m: map<Id, Phys>): map<Id, Phys>
  {
    map p | p in m && m[p].state != DELETE :: m[p].(state := OK, committedAsLocal := m[p].isLocal)
  }

  ghost function PasAfter(w: World): map<Id, Pa> { map a | a in w.pas && !Condemned(w, a) :: w.pas[a].(state := OK) }

  ghost function VirtsAfter(w: World): map<Id, Virt> { map v | v in w.virts && w.virts[v].state != DELETE :: VirtAfter(w.virts[v], ConnectedLocally(w, v)) }

  ghost function VirtAfter(r: Virt, local: bool): Virt
  {
    r.(state := OK, committedTo := if local then r.connectedThrough else None, committedIf := if local then r.connectedIf else "")
  }

  /** A model that is committed as a whole, together with the kernel it describes. */
  ghost predicate UpToDate(w: World, k: Kernel)
  {
    && AllOk(w) && Describes(w, k)
    && (forall p :: p in w.physes ==> w.physes[p].committedAsLocal == w.physes[p].isLocal)
    && (forall v :: v in w.virts ==> VirtCommitted(w.virts[v], v in k.virts))
  }

  /** An up to date model satisfies the invariant, so that the next changes can start from it. */
  lemma UpToDateMirrored(w: World, k: Kernel)
    requires UpToDate(w, k) && PasOk(w.nets, w.physes, w.pas) && VirtsOk(w.nets, w.pas, w.virts)
    ensures Mirrored(w, k)
  {
    UpToDatePas(w, k);
    UpToDateVirts(w, k);
  }

  lemma UpToDatePas(w: World, k: Kernel)
    requires UpToDate(w, k) && PasOk(w.nets, w.physes, w.pas)
    ensures PasMirrored(w.nets, w.physes, w.pas, k.pas) && ViewsMirrored(w.physes, w.pas, k.views)
  {
    assert forall a :: Live(w.physes, w.pas, a) <==> IsLocal(w, a);
    assert forall x :: ViewLive(w.physes, w.pas, x) <==> ViewWanted(w, x);
  }

  lemma UpToDateVirts(w: World, k: Kernel)
    requires UpToDate(w, k) && PasOk(w.nets, w.physes, w.pas) && VirtsOk(w.nets, w.pas, w.virts)
    ensures VirtsMirrored(w.pas, w.virts, k.pas, k.virts) && VirtViewsMirrored(w.virts, k.views, k.virtViews)
  {
    hide VirtMirrored, VirtCurrent, DescribesPas, DescribesVirts, PasOk;
    forall v | v in w.virts ensures VirtMirrored(w.pas, k.pas, k.virts, v, w.virts[v]) && VirtCurrent(w.pas, k.pas, k.virts, v, w.virts[v]) {
      UpToDateVirt(w, k, v);
    }
    UpToDateKnown(w, k);
  }

  lemma UpToDateKnown(w: World, k: Kernel)
    requires UpToDate(w, k)
    ensures forall v :: v in k.virts ==> v in w.virts
  {}

  lemma UpToDateVirt(w: World, k: Kernel, v: Id)
    requires UpToDate(w, k) && PasOk(w.nets, w.physes, w.pas) && VirtsOk(w.nets, w.pas, w.virts) && v in w.virts
    ensures VirtMirrored(w.pas, k.pas, k.virts, v, w.virts[v]) && VirtCurrent(w.pas, k.pas, k.virts, v, w.virts[v])
  {
    hide DescribesViews, DescribesVirtViews;
    assert VirtOk(w.nets, w.pas, w.virts[v]);
  }

  /** The invariant determines the kernel: a model without pending changes is installed completely and exactly. */
  lemma AllOkDescribes(w: World, k: Kernel)
    requires Inv(w, k) && AllOk(w)
    ensures Describes(w, k)
  {
    StartMid(w, k);
    AllOkMid(w, k);
  }

  lemma AllOkMid(w: World, k: Kernel)
    requires AllOk(w) && Mid(w, k, {}) && PasOk(w.nets, w.physes, w.pas)
    ensures Describes(w, k)
  {}

  // ---------------------------------------------------------------- the whole commit

  ghost predicate SettingsKept(settings0: map<Id, Settings>, settings: map<Id, Settings>)
  {
    && (forall s :: s in settings ==> s in settings0 && settings[s] == settings0[s])
    && (forall s :: s in settings0 && settings0[s].state != DELETE ==> s in settings)
  }

  ghost predicate NetsKept(nets0: map<Id, Net>, nets: map<Id, Net>)
  {
    && (forall n :: n in nets ==> n in nets0 && nets[n] == nets0[n])
    && (forall n :: n in nets0 && nets0[n].state != DELETE ==> n in nets)
  }

  ghost predicate PhysKept(r0: Phys, r: Phys)
  {
    r.isLocal == r0.isLocal && r.attrs == r0.attrs && r.pendingFree == r0.pendingFree && (r.state == r0.state || r.state == AckDecommit(r0.state))
  }

  ghost predicate PhysesKept(physes0: map<Id, Phys>, physes: map<Id, Phys>)
  {
    && (forall p :: p in physes ==> p in physes0 && PhysKept(physes0[p], physes[p]))
    && (forall p :: p in physes0 && physes0[p].state != DELETE ==> p in physes)
  }

  /** The model `w` is `w0` somewhere inside a commit. */
  ghost predicate Kept(w0: World, w: World)
  {
    && SettingsKept(w0.settings, w.settings) && NetsKept(w0.nets, w.nets) && PhysesKept(w0.physes, w.physes)
    && PasKept(w0, w.pas, w.virts) && VirtsKept(w0.virts, w.virts)
  }

  /** Every object that had to go is gone. */
  ghost predicate Swept(w: World)
  {
    && Quiet(w)
    && (forall p :: p in w.physes ==> !MustDecommit(w.physes[p].state))
    && (forall n :: n in w.nets ==> w.nets[n].state != DELETE)
    && (forall s :: s in w.settings ==> w.settings[s].state != DELETE)
  }

  lemma SweptPas(w0: World, w: World, a: Id)
    requires PasKept(w0, w.pas, w.virts) && VirtsKept(w0.virts, w.virts) && Quiet(w)
    ensures a in w.pas <==> a in w0.pas && !Condemned(w0, a)
  {}

  lemma CommittedPas(w0: World, w: World)
    requires PasKept(w0, w.pas, w.virts) && VirtsKept(w0.virts, w.virts) && Swept(w)
    requires PasOk(w0.nets, w0.physes, w0.pas) && PasOk(w.nets, w.physes, w.pas)
    ensures AckPas(w.pas) == PasAfter(w0)
  {
    hide VirtsKept, Condemned, Nested;
    forall a: Id ensures a in w.pas <==> a in w0.pas && !Condemned(w0, a) { SweptPas(w0, w, a); }
    forall a | a in w.pas ensures AckPas(w.pas)[a] == PasAfter(w0)[a] {
      assert PaKept(w0, a, w.pas[a]) && PaOk(w.nets, w.physes, w.pas[a]) && PaOk(w0.nets, w0.physes, w0.pas[a]);
    }
  }

  lemma SameLocality(w0: World, w: World, v: Id)
    requires PasKept(w0, w.pas, w.virts) && VirtsKept(w0.virts, w.virts) && PhysesKept(w0.physes, w.physes)
    requires PasOk(w.nets, w.physes, w.pas) && VirtsOk(w.nets, w.pas, w.virts) && v in w.virts
    ensures ConnectedLocally(w0, v) <==> ConnectedLocally(w, v)
  {
    hide Condemned, Orphaned, HasVirts;
    assert SameVirt(w0.virts[v], w.virts[v]) && VirtOk(w.nets, w.pas, w.virts[v]);
  }

  lemma CommittedVirts(w0: World, w: World, k: Kernel)
    requires PasKept(w0, w.pas, w.virts) && VirtsKept(w0.virts, w.virts) && PhysesKept(w0.physes, w.physes) && Swept(w)
    requires PasOk(w.nets, w.physes, w.pas) && VirtsOk(w.nets, w.pas, w.virts)
    requires DescribesVirts(w, k.virts) && (forall v :: v in w.virts ==> VirtCommitted(w.virts[v], v in k.virts))
    ensures AckVirts(w.virts) == VirtsAfter(w0)
  {
    hide PasKept, PhysesKept, PasOk, ConnectedLocally, VirtCommitted, VirtAfter, Quiet;
    forall v | v in w.virts ensures v in w0.virts && w0.virts[v].state != DELETE && AckVirts(w.virts)[v] == VirtAfter(w0.virts[v], ConnectedLocally(w0, v)) {
      SameLocality(w0, w, v);
      CommittedVirt(w0, w, v, v in k.virts);
    }
  }

  lemma CommittedVirt(w0: World, w: World, v: Id, live: bool)
    requires VirtsKept(w0.virts, w.virts) && Quiet(w) && VirtsOk(w.nets, w.pas, w.virts) && v in w.virts && VirtCommitted(w.virts[v], live)
    ensures v in w0.virts && w0.virts[v].state != DELETE
    ensures w.virts[v].(state := AckState(w.virts[v].state)) == VirtAfter(w0.virts[v], live)
  {
    assert SameVirt(w0.virts[v], w.virts[v]) && VirtOk(w.nets, w.pas, w.virts[v]);
  }

  lemma CommittedPhyses(physes0: map<Id, Phys>, physes: map<Id, Phys>)
    requires PhysesKept(physes0, physes) && PhysesOk(physes) && (forall p :: p in physes ==> !MustDecommit(physes[p].state))
    requires forall p :: p in physes ==> physes[p].committedAsLocal == physes[p].isLocal
    ensures AckPhyses(physes) == PhysesAfter(physes0)
  {
    forall p | p in physes ensures AckPhyses(physes)[p] == PhysesAfter(physes0)[p] {
      assert PhysKept(physes0[p], physes[p]);
    }
  }

  lemma CommittedSettings(settings0: map<Id, Settings>, settings: map<Id, Settings>)
    requires SettingsKept(settings0, settings) && SettingsOk(settings) && forall s :: s in settings ==> settings[s].state != DELETE
    ensures AckSettings(settings) == SettingsAfter(settings0)
  {}

  lemma CommittedNets(settings: map<Id, Settings>, nets0: map<Id, Net>, nets: map<Id, Net>)
    requires NetsKept(nets0, nets) && NetsOk(settings, nets) && forall n :: n in nets ==> nets[n].state != DELETE
    ensures AckNets(nets) == NetsAfter(nets0)
  {
    hide Nested;
    forall n | n in nets ensures AckNets(nets)[n] == NetsAfter(nets0)[n] {
      assert NetOk(settings, nets[n]);
    }
  }

  /** The commit that started from `w0` ends with exactly the model that `Committed` describes. */
  lemma CommitEnds(w0: World, w: World, k: Kernel)
    requires Coherent(w0) && Coherent(w) && Kept(w0, w) && Swept(w) && Describes(w, k)
    requires forall p :: p in w.physes ==> w.physes[p].committedAsLocal == w.physes[p].isLocal
    requires forall v :: v in w.virts ==> VirtCommitted(w.virts[v], v in k.virts)
    ensures Acked(w) == Committed(w0)
  {
    hide AckSettings, AckNets, AckPhyses, AckPas, AckVirts, SettingsAfter, NetsAfter, PhysesAfter, PasAfter, VirtsAfter, DescribesVirts, Quiet, SettingsKept, NetsKept, PhysesKept, PasKept, VirtsKept;
    hide SettingsOk, NetsOk, PhysesOk, PasOk, VirtsOk, OneAttachment, PasHeld;
    CommittedSettings(w0.settings, w.settings);
    CommittedNets(w.settings, w0.nets, w.nets);
    CommittedPhyses(w0.physes, w.physes);
    CommittedPas(w0, w);
    CommittedVirts(w0, w, k);
  }

  lemma AckedContainers(w: World)
    requires SettingsOk(w.settings) && NetsOk(w.settings, w.nets) && PhysesOk(w.physes) && Swept(w)
    requires forall p :: p in w.physes ==> w.physes[p].committedAsLocal == w.physes[p].isLocal
    ensures SettingsOk(AckSettings(w.settings)) && NetsOk(AckSettings(w.settings), AckNets(w.nets)) && PhysesOk(AckPhyses(w.physes))
  {}

  lemma AckedPas(w: World)
    requires PasOk(w.nets, w.physes, w.pas) && OneAttachment(w.pas) && NetsOk(w.settings, w.nets) && PhysesOk(w.physes) && Swept(w)
    ensures PasOk(AckNets(w.nets), AckPhyses(w.physes), AckPas(w.pas)) && OneAttachment(AckPas(w.pas))
  {
    forall a | a in w.pas ensures PaOk(AckNets(w.nets), AckPhyses(w.physes), AckPas(w.pas)[a]) {
      assert PaOk(w.nets, w.physes, w.pas[a]);
    }
  }

  lemma AckedVirts(w: World)
    requires VirtsOk(w.nets, w.pas, w.virts) && NetsOk(w.settings, w.nets) && Swept(w)
    ensures VirtsOk(AckNets(w.nets), AckPas(w.pas), AckVirts(w.virts)) && PasHeld(AckNets(w.nets), AckPas(w.pas), AckVirts(w.virts))
  {
    hide HasVirts;
    forall v | v in w.virts ensures VirtOk(AckNets(w.nets), AckPas(w.pas), AckVirts(w.virts)[v]) {
      assert VirtOk(w.nets, w.pas, w.virts[v]);
    }
  }

  lemma AckedAllOk(w: World)
    requires Coherent(w) && Swept(w)
    ensures AllOk(Acked(w))
  {
    hide OneAttachment, PasHeld;
  }

  lemma AckedDescribes(w: World, k: Kernel)
    requires Describes(w, k)
    ensures Describes(Acked(w), k)
  {
    hide DescribesPas, DescribesVirts, DescribesViews, DescribesVirtViews;
    AckedDescribesPas(w, k);
    AckedDescribesVirts(w, k);
  }

  lemma AckedDescribesPas(w: World, k: Kernel)
    ensures DescribesPas(w, k.pas) ==> DescribesPas(Acked(w), k.pas)
    ensures DescribesViews(w, k.views) ==> DescribesViews(Acked(w), k.views)
  {
    var w' := Acked(w);
    assert forall a :: IsLocal(w', a) <==> IsLocal(w, a);
    forall x: View ensures ViewWanted(w', x) <==> ViewWanted(w, x) {}
  }

  lemma AckedDescribesVirts(w: World, k: Kernel)
    ensures DescribesVirts(w, k.virts) ==> DescribesVirts(Acked(w), k.virts)
    ensures DescribesVirtViews(w, k.virtViews) ==> DescribesVirtViews(Acked(w), k.virtViews)
  {
    var w' := Acked(w);
    assert forall v :: ConnectedLocally(w', v) <==> ConnectedLocally(w, v);
    assert forall y :: VirtViewWanted(w', y) <==> VirtViewWanted(w, y);
  }

  /** After a commit the model is up to date and the invariant holds again. */
  lemma CommitKeeps(w: World, k: Kernel)
    requires Coherent(w) && Swept(w) && Describes(w, k)
    requires forall p :: p in w.physes ==> w.physes[p].committedAsLocal == w.physes[p].isLocal
    requires forall v :: v in w.virts ==> VirtCommitted(w.virts[v], v in k.virts)
    ensures UpToDate(Acked(w), k) && Inv(Acked(w), k)
  {
    hide SettingsOk, NetsOk, PhysesOk, PasOk, OneAttachment, VirtsOk, PasHeld, Swept, Describes, AllOk, Mirrored;
    AckedContainers(w);
    AckedPas(w);
    AckedVirts(w);
    AckedAllOk(w);
    AckedDescribes(w, k);
    UpToDateMirrored(Acked(w), k);
  }

  // ---------------------------------------------------------------- steps of the decommit phase inside a commit

  lemma SweptVirtStep(w0: World, w: World, k: Kernel, v: Id)
    requires Inv(w, k) && Propagated(w) && Kept(w0, w) && v in w.virts
    ensures w.virts[v].connectedThrough.Some? ==> w.virts[v].connectedThrough.value in w.pas
    ensures Propagated(SweptVirt(w, v)) && Kept(w0, SweptVirt(w, v))
    ensures forall m :: m != w.virts[v].net && NetSwept(w, m) ==> NetSwept(SweptVirt(w, v), m)
  {
    hide Mirrored, SettingsOk, NetsOk, PhysesOk, PasOk, OneAttachment, PasHeld, VirtsOk;
    hide Propagated, SettingsKept, NetsKept, PhysesKept, PasKept, VirtsKept, SweptVirt, NetSwept;
    InvVirt(w, k, v);
    SweptVirtAlone(w, v);
    SweptVirtPropagated(w, v);
    SweptVirtKept(w0, w, v);
    forall m: Id | m != w.virts[v].net && NetSwept(w, m) ensures NetSwept(SweptVirt(w, v), m) { SweptVirtOthers(w, v, m); }
  }

  lemma SweptVirtTodo(w: World, k: Kernel, v: Id, todo: set<Id>, n: Id)
    requires Inv(w, k) && v in todo && VirtsToSweep(w, todo, n)
    ensures w.virts[v].connectedThrough.Some? ==> w.virts[v].connectedThrough.value in w.pas
    ensures VirtsToSweep(SweptVirt(w, v), todo - {v}, n)
  {
    hide Mirrored, SettingsOk, NetsOk, PhysesOk, OneAttachment, PasHeld, SweptVirt;
    InvVirt(w, k, v);
    SweptVirtAlone(w, v);
  }

  /** The virts of the network that the walk over its list has not reached yet. */
  ghost predicate VirtsToSweep(w: World, todo: set<Id>, n: Id)
  {
    && (forall v :: v in todo ==> v in w.virts && w.virts[v].net == n)
    && (forall v :: v in w.virts && w.virts[v].net == n && MustDecommit(w.virts[v].state) ==> v in todo)
  }

  /** The attachments of the network that the walk over its list has not reached yet. */
  ghost predicate PasToSweep(w: World, todo: set<Id>, n: Id)
  {
    && (forall a :: a in todo ==> a in w.pas && w.pas[a].net == n)
    && (forall a :: a in w.pas && w.pas[a].net == n && MustDecommit(w.pas[a].state) ==> a in todo)
  }

  lemma SweptPaStep(w0: World, w: World, k: Kernel, a: Id)
    requires Inv(w, k) && Propagated(w) && Kept(w0, w) && a in w.pas && VirtsSwept(w, w.pas[a].net)
    ensures Propagated(SweptPa(w, a)) && Kept(w0, SweptPa(w, a))
    ensures forall m :: m != w.pas[a].net && NetSwept(w, m) ==> NetSwept(SweptPa(w, a), m)
    ensures SweptPa(w, a).virts == w.virts
  {
    hide Mirrored, SettingsOk, NetsOk, PhysesOk, PasOk, OneAttachment, PasHeld, VirtsOk;
    hide Propagated, SettingsKept, NetsKept, PhysesKept, PasKept, VirtsKept, NetSwept, VirtsSwept;
    SweptPaKeeps(w0, w, k, a);
    forall m: Id | m != w.pas[a].net && NetSwept(w, m) ensures NetSwept(SweptPa(w, a), m) { SweptPaOthers(w, a, m); }
  }

  lemma SweptPaTodo(w: World, k: Kernel, a: Id, todo: set<Id>, n: Id)
    requires Inv(w, k) && a in todo && PasToSweep(w, todo, n)
    ensures PasToSweep(SweptPa(w, a), todo - {a}, n)
    ensures !MustDecommit(w.pas[a].state) ==> SweptPa(w, a) == w
  {
    hide Mirrored, SettingsOk, NetsOk, PhysesOk, OneAttachment, PasHeld, VirtsOk;
    assert PaOk(w.nets, w.physes, w.pas[a]);
  }

  /** Freeing a swept deleted network. */
  lemma WithoutNetStep(w0: World, w: World, k: Kernel, n: Id)
    requires Inv(w, k) && Propagated(w) && Kept(w0, w) && n in w.nets && w.nets[n].state == DELETE && NetSwept(w, n)
    ensures Inv(w.(nets := w.nets - {n}), k) && Propagated(w.(nets := w.nets - {n})) && Kept(w0, w.(nets := w.nets - {n}))
  {
    hide Inv, PasKept, VirtsKept;
    assert Coherent(w) by { InvCoherent(w, k); }
    SweptNetEmpty(w, n);
    WithoutNetInv(w, k, n);
  }

  lemma InvCoherent(w: World, k: Kernel)
    requires Inv(w, k)
    ensures Coherent(w)
  {}

  ghost function SweptPhys(w: World, p: Id): World
    requires p in w.physes
  {
    if !MustDecommit(w.physes[p].state) then w
    else if w.physes[p].pendingFree then w.(physes := w.physes - {p})
    else w.(physes := w.physes[p := w.physes[p].(state := AckDecommit(w.physes[p].state))])
  }

  /** A renewed phys has only attachments that are out of the kernel, a deleted one has none. */
  lemma SweptPhysPas(w: World, p: Id)
    requires PasOk(w.nets, w.physes, w.pas) && Propagated(w) && Quiet(w) && p in w.physes && MustDecommit(w.physes[p].state)
    ensures forall a :: a in w.pas && w.pas[a].phys == p ==> w.physes[p].state == RENEW && w.pas[a].state == NEW
  {
    forall a | a in w.pas && w.pas[a].phys == p ensures w.physes[p].state == RENEW && w.pas[a].state == NEW {
      assert PaOk(w.nets, w.physes, w.pas[a]);
    }
  }

  lemma DeletedPhysUnused(w: World, k: Kernel, p: Id)
    requires Inv(w, k) && Propagated(w) && Quiet(w) && p in w.physes && w.physes[p].state == DELETE
    ensures forall a :: a in w.pas ==> w.pas[a].phys != p
  {
    hide Mirrored, SettingsOk, NetsOk, PhysesOk, OneAttachment, VirtsOk, PasHeld, Propagated;
    forall a | a in w.pas ensures w.pas[a].phys != p {
      assert PaOk(w.nets, w.physes, w.pas[a]);
    }
  }

  lemma SweptPhysMirrored(w: World, k: Kernel, p: Id)
    requires Mirrored(w, k) && p in w.physes && MustDecommit(w.physes[p].state)
    requires forall a :: a in w.pas && w.pas[a].phys == p ==> w.pas[a].state == NEW
    ensures Mirrored(SweptPhys(w, p), k)
  {
    hide Mirrored;
    AgreeMirrored(w, k, SweptPhys(w, p).physes);
  }

  lemma SweptPhysCoherent(w: World, p: Id)
    requires Coherent(w) && p in w.physes && MustDecommit(w.physes[p].state)
    requires forall a :: a in w.pas && w.pas[a].phys == p ==> w.physes[p].state == RENEW && w.pas[a].state == NEW
    ensures Coherent(SweptPhys(w, p))
  {
    hide SettingsOk, NetsOk, OneAttachment, VirtsOk, PasHeld;
    assert PhysOk(w.physes[p]);
  }

  lemma SweptPhysStep(w0: World, w: World, k: Kernel, p: Id)
    requires Inv(w, k) && Propagated(w) && Kept(w0, w) && Quiet(w) && p in w.physes
    ensures Inv(SweptPhys(w, p), k) && Propagated(SweptPhys(w, p)) && Kept(w0, SweptPhys(w, p)) && Quiet(SweptPhys(w, p))
  {
    if MustDecommit(w.physes[p].state) {
      hide Mirrored, Coherent, SettingsKept, NetsKept, PasKept, VirtsKept;
      assert PasOk(w.nets, w.physes, w.pas) by { CoherentPas(w); }
      SweptPhysPas(w, p);
      hide PasOk, Quiet;
      SweptPhysMirrored(w, k, p);
      SweptPhysCoherent(w, p);
      SweptPhysKept(w0, w, p);
    }
  }

  lemma SweptPhysKept(w0: World, w: World, p: Id)
    requires Propagated(w) && Kept(w0, w) && Quiet(w) && p in w.physes && MustDecommit(w.physes[p].state) && PhysesOk(w.physes)
    ensures Propagated(SweptPhys(w, p)) && Kept(w0, SweptPhys(w, p)) && Quiet(SweptPhys(w, p))
  {
    hide SettingsKept, NetsKept, PasKept, VirtsKept;
  }

  lemma CoherentPas(w: World)
    requires Coherent(w)
    ensures PasOk(w.nets, w.physes, w.pas) && PhysesOk(w.physes)
  {}

  lemma WithoutSettingsStep(w0: World, w: World, k: Kernel, s: Id)
    requires Inv(w, k) && Propagated(w) && Kept(w0, w) && Quiet(w) && s in w.settings && w.settings[s].state == DELETE
    requires forall n :: n in w.nets ==> w.nets[n].state != DELETE
    ensures forall n :: n in w.nets ==> w.nets[n].settings != s
    ensures var w' := w.(settings := w.settings - {s}); Inv(w', k) && Propagated(w') && Kept(w0, w') && Quiet(w')
  {
    hide Mirrored, PhysesOk, PasOk, OneAttachment, VirtsOk, PasHeld, PasKept, VirtsKept, PhysesKept;
    forall n | n in w.nets ensures w.nets[n].settings != s { assert NetOk(w.settings, w.nets[n]); }
    WithoutSettingsInv(w, k, s);
  }

  lemma SettingsLegal(w: World, k: Kernel, s: Id)
    requires Inv(w, k) && s in w.settings
    ensures w.settings[s].state in {NEW, OK, DELETE} && (w.settings[s].pendingFree <==> w.settings[s].state == DELETE)
  {}

  lemma AllNetsSwept(w: World, k: Kernel)
    requires Inv(w, k) && forall n :: n in w.nets ==> NetSwept(w, n)
    ensures Quiet(w)
  {
    hide Mirrored, PhysesOk, OneAttachment, PasHeld, SettingsOk, NetsOk;
    forall v | v in w.virts ensures !MustDecommit(w.virts[v].state) {
      assert VirtOk(w.nets, w.pas, w.virts[v]);
      assert NetSwept(w, w.virts[v].net);
    }
    forall a | a in w.pas ensures !MustDecommit(w.pas[a].state) {
      assert PaOk(w.nets, w.physes, w.pas[a]);
      assert NetSwept(w, w.pas[a].net);
    }
  }

  lemma QuietNetSwept(w: World, n: Id)
    requires Quiet(w)
    ensures NetSwept(w, n)
  {}

  lemma PhysLegal(w: World, k: Kernel, p: Id)
    requires Inv(w, k) && p in w.physes
    ensures PhysOk(w.physes[p])
  {}

  lemma KeptStart(w: World)
    ensures Kept(w, w)
  {}

  lemma AllOkQuiet(w: World)
    requires AllOk(w)
    ensures Quiet(w)
  {}

  // ---------------------------------------------------------------- walking over what is already there

  lemma SkipVirt(w: World, liveVirts: map<Id, VirtConfig>, done: set<Id>, extra: set<Id>, v: Id)
    requires MidVirts(w, liveVirts, done, extra) && v in w.virts && w.virts[v].state == OK
    ensures MidVirts(w, liveVirts, done, extra + {v})
  {
    forall u ensures VirtIn(w, done, extra + {v}, u) <==> VirtIn(w, done, extra, u) {}
  }

  lemma SkipView(w: World, views: map<View, ViewConfig>, done: set<Id>, extra: set<View>, x: View)
    requires MidViews(w, views, done, extra) && Peers(w.pas, x) && w.pas[x.local].state == OK && w.pas[x.remote].state == OK
    ensures MidViews(w, views, done, extra + {x})
  {
    forall z ensures ViewIn(w, done, extra + {x}, z) <==> ViewIn(w, done, extra, z) {}
  }

  lemma SkipVirtView(w: World, virtViews: map<VirtView, Option<Mac>>, done: set<Id>, extra: set<VirtView>, y: VirtView)
    requires MidVirtViews(w, virtViews, done, extra) && VirtViewWanted(w, y) && w.pas[y.local].state == OK && w.virts[y.virt].state == OK
    ensures MidVirtViews(w, virtViews, done, extra + {y})
  {
    forall z ensures VirtViewIn(w, done, extra + {y}, z) <==> VirtViewIn(w, done, extra, z) {}
  }

  lemma SkipPa(w: World, livePas: map<Id, PaConfig>, done: set<Id>, l: Id)
    requires MidPas(w, livePas, done) && l in w.pas && w.pas[l].state == OK
    ensures MidPas(w, livePas, done + {l})
  {
    forall a ensures PaIn(w, done + {l}, a) <==> PaIn(w, done, a) {}
  }

  /** The part of a commit's bookkeeping that recommitting does not change. */
  ghost predicate Recommitting(w0: World, w: World)
  {
    Coherent(w) && Kept(w0, w) && Swept(w)
  }

  lemma VirtOnRecommitting(w0: World, w: World, v: Id, l: Id)
    requires Recommitting(w0, w) && v in w.virts
    ensures Recommitting(w0, VirtOn(w, v, l))
  {
    hide Coherent, Kept, Swept;
    VirtOnCoherent(w, v, l);
    VirtOnKept(w0, w, v, l);
  }

  lemma VirtOnCoherent(w: World, v: Id, l: Id)
    requires Coherent(w) && v in w.virts
    ensures Coherent(VirtOn(w, v, l))
  {
    hide SettingsOk, NetsOk, PhysesOk, PasOk, OneAttachment;
    forall a: Id | HasVirts(w.virts, a) ensures HasVirts(VirtOn(w, v, l).virts, a) {
      var u :| u in w.virts && w.virts[u].connectedThrough == Some(a);
      assert u in VirtOn(w, v, l).virts;
    }
  }

  lemma VirtOnKept(w0: World, w: World, v: Id, l: Id)
    requires Kept(w0, w) && Swept(w) && v in w.virts
    ensures Kept(w0, VirtOn(w, v, l)) && Swept(VirtOn(w, v, l))
  {
    hide SettingsKept, NetsKept, PhysesKept, PasKept, VirtsKept, VirtOn;
    VirtOnSwept(w, v, l);
    VirtOnKeepsPas(w0, w, v, l);
    VirtOnKeepsVirts(w0, w, v, l);
  }

  lemma VirtOnSwept(w: World, v: Id, l: Id)
    requires Swept(w) && v in w.virts
    ensures Swept(VirtOn(w, v, l)) && VirtOn(w, v, l) == w.(virts := VirtOn(w, v, l).virts)
  {}

  lemma VirtOnKeepsVirts(w0: World, w: World, v: Id, l: Id)
    requires VirtsKept(w0.virts, w.virts) && v in w.virts
    ensures VirtsKept(w0.virts, VirtOn(w, v, l).virts)
  {}

  lemma VirtOnKeepsPas(w0: World, w: World, v: Id, l: Id)
    requires PasKept(w0, w.pas, w.virts) && v in w.virts
    ensures PasKept(w0, w.pas, VirtOn(w, v, l).virts)
  {
    hide PaKept, Orphaned, Condemned;
    forall a: Id | HasVirts(w.virts, a) ensures HasVirts(VirtOn(w, v, l).virts, a) {
      var u :| u in w.virts && w.virts[u].connectedThrough == Some(a);
      assert u in VirtOn(w, v, l).virts;
    }
  }

  lemma SweptVirtState(w0: World, w: World, v: Id)
    requires Recommitting(w0, w) && v in w.virts
    ensures w.virts[v].state in {NEW, OK}
    ensures w.virts[v].connectedThrough.Some? ==> w.virts[v].connectedThrough.value in w.pas && w.pas[w.virts[v].connectedThrough.value].net == w.virts[v].net
  {
    assert VirtOk(w.nets, w.pas, w.virts[v]);
  }

  lemma SweptPaState(w0: World, w: World, a: Id)
    requires Recommitting(w0, w) && a in w.pas
    ensures w.pas[a].state in {NEW, OK} && w.pas[a].net in w.nets && w.pas[a].phys in w.physes
  {
    assert PaOk(w.nets, w.physes, w.pas[a]);
  }

  lemma NewVirtAbsent(w: World, liveVirts: map<Id, VirtConfig>, done: set<Id>, extra: set<Id>, v: Id)
    requires MidVirts(w, liveVirts, done, extra) && v in w.virts && w.virts[v].state == NEW
    requires w.virts[v].connectedThrough.Some? && w.virts[v].connectedThrough.value !in done && v !in extra
    ensures v !in liveVirts
  {}

  lemma NewViewAbsent(w: World, views: map<View, ViewConfig>, done: set<Id>, extra: set<View>, x: View)
    requires MidViews(w, views, done, extra) && Peers(w.pas, x) && (w.pas[x.local].state == NEW || w.pas[x.remote].state == NEW)
    requires x.local !in done && x !in extra
    ensures x !in views
  {}

  lemma NewVirtViewAbsent(w: World, virtViews: map<VirtView, Option<Mac>>, done: set<Id>, extra: set<VirtView>, y: VirtView)
    requires MidVirtViews(w, virtViews, done, extra) && y.local in w.pas && y.virt in w.virts
    requires w.pas[y.local].state == NEW || w.virts[y.virt].state == NEW
    requires y.local !in done && y !in extra
    ensures y !in virtViews
  {}

  lemma AllOkStates(w: World)
    ensures AllOk(w) ==> (forall a :: a in w.pas ==> w.pas[a].state == OK) && (forall v :: v in w.virts ==> w.virts[v].state == OK)
  {}

  /** Inside `commit_pa` for `l`: what is complete besides the attachments in `done`. */
  datatype Progress = Progress(virts: set<Id>, views: set<View>, virtViews: set<VirtView>)

  ghost predicate Building(w: World, k: Kernel, done: set<Id>, l: Id, extra: Progress)
  {
    && IsLocal(w, l) && l !in done && MidPas(w, k.pas, done + {l})
    && MidVirts(w, k.virts, done, extra.virts) && MidViews(w, k.views, done, extra.views)
    && MidVirtViews(w, k.virtViews, done, extra.virtViews)
  }

  lemma BuildVirt(w: World, k: Kernel, done: set<Id>, l: Id, extra: Progress, v: Id)
    requires Building(w, k, done, l, extra) && v in w.virts && w.virts[v].connectedThrough == Some(l)
    ensures var k' := k.(virts := k.virts[v := VirtConfig(l, w.virts[v].attrs, w.virts[v].connectedIf)]);
            Building(VirtOn(w, v, l), k', done, l, extra.(virts := extra.virts + {v}))
  {
    hide MidPas, MidVirts, MidViews, MidVirtViews;
    VirtOnKeeps(w, k, done, extra, v, l);
    VirtOnPas(w, k, done + {l}, v, l);
    AddVirtMid(w, k.virts, done, extra.virts, v, l);
  }

  lemma LocalIn(w: World, k: Kernel, done: set<Id>, l: Id)
    requires MidPas(w, k.pas, done + {l}) && IsLocal(w, l)
    ensures l in k.pas
  {}

  ghost function VirtsOf(virts: map<Id, Virt>, l: Id): set<Id>
  {
    set v | v in virts && virts[v].connectedThrough == Some(l)
  }

  ghost function ViewsOf(pas: map<Id, Pa>, l: Id): set<View>
  {
    set r | r in pas && Peers(pas, View(l, r)) :: View(l, r)
  }

  ghost predicate VirtViewsOf(w: World, l: Id, extra: set<VirtView>)
  {
    && (forall y :: VirtViewWanted(w, y) && y.local == l ==> y in extra)
    && (forall y :: y in extra ==> y.local == l)
  }

  /** When all three loops of `commit_pa` are through, the attachment is complete. */
  lemma Built(w: World, k: Kernel, done: set<Id>, l: Id, extra: Progress)
    requires Building(w, k, done, l, extra)
    requires extra.virts == VirtsOf(w.virts, l)
    requires extra.views == ViewsOf(w.pas, l) && VirtViewsOf(w, l, extra.virtViews)
    ensures Mid(w, k, done + {l})
  {
    hide MidPas, MidVirts, MidViews, MidVirtViews;
    FinishVirts(w, k.virts, done, extra.virts, l);
    FinishViews(w, k.views, done, extra.views, l);
    FinishVirtViews(w, k.virtViews, done, extra.virtViews, l);
  }

  /** The virt views that the view `x` has to show. */
  ghost function Behind(virts: map<Id, Virt>, x: View): set<VirtView>
  {
    set v | v in virts && virts[v].connectedThrough == Some(x.remote) :: VirtView(x.local, x.remote, v)
  }

  lemma BuildingViews(w: World, k: Kernel, done: set<Id>, l: Id, mine: set<Id>)
    requires Building(w, k, done, l, Progress(mine, ViewsOf(w.pas, l), {}))
    ensures forall x :: ViewWanted(w, x) && x.local == l ==> x in k.views
    ensures forall x :: x in k.views ==> ViewWanted(w, x)
  {
    hide MidPas, MidVirts, MidVirtViews;
  }

  /** Exactly the virts behind the views that are not in `todo` any more are shown. */
  ghost predicate VirtViewsShown(w: World, l: Id, todo: set<View>, extra: set<VirtView>)
  {
    forall y :: y in extra <==> VirtViewWanted(w, y) && y.local == l && View(y.local, y.remote) !in todo
  }

  lemma VirtViewsStart(w: World, l: Id, todo: set<View>)
    requires forall x :: ViewWanted(w, x) && x.local == l ==> x in todo
    ensures VirtViewsShown(w, l, todo, {})
  {}

  lemma VirtViewsStep(w: World, l: Id, todo: set<View>, extra: set<VirtView>, x: View)
    requires VirtViewsShown(w, l, todo, extra) && x in todo && x.local == l && ViewWanted(w, x)
    ensures extra !! Behind(w.virts, x) && VirtViewsShown(w, l, todo - {x}, extra + Behind(w.virts, x))
  {
    hide ViewWanted;
  }

  lemma VirtViewsEnd(w: World, l: Id, extra: set<VirtView>)
    requires VirtViewsShown(w, l, {}, extra)
    ensures VirtViewsOf(w, l, extra)
  {}

  lemma NewPaAbsent(w: World, livePas: map<Id, PaConfig>, done: set<Id>, l: Id)
    requires MidPas(w, livePas, done) && l in w.pas && w.pas[l].state == NEW && l !in done
    ensures l !in livePas
  {}

  ghost function PhysOn(w: World, p: Id): World
    requires p in w.physes
  {
    w.(physes := w.physes[p := w.physes[p].(committedAsLocal := true)])
  }

  lemma RecommittingPhys(w0: World, w: World, p: Id)
    requires Recommitting(w0, w) && p in w.physes
    ensures PhysOk(w.physes[p])
    ensures AllOk(w) && w.physes[p].isLocal ==> PhysOn(w, p) == w
  {}

  lemma PhysOnCoherent(w: World, p: Id)
    requires Coherent(w) && p in w.physes && w.physes[p].isLocal
    ensures Coherent(PhysOn(w, p))
  {
    hide SettingsOk, NetsOk, OneAttachment, VirtsOk, PasHeld;
  }

  lemma PhysOnKept(w0: World, w: World, p: Id)
    requires Kept(w0, w) && Swept(w) && p in w.physes
    ensures Kept(w0, PhysOn(w, p)) && Swept(PhysOn(w, p))
  {
    hide SettingsKept, NetsKept, PasKept, VirtsKept, Quiet;
    assert Quiet(PhysOn(w, p)) by { SameQuiet(w, PhysOn(w, p)); }
  }

  lemma SameQuiet(w: World, w': World)
    requires Quiet(w) && w'.pas == w.pas && w'.virts == w.virts
    ensures Quiet(w')
  {}

  lemma PhysOnMid(w: World, k: Kernel, done: set<Id>, p: Id)
    requires p in w.physes
    ensures MidPas(w, k.pas, done) ==> MidPas(PhysOn(w, p), k.pas, done)
    ensures MidViews(w, k.views, done, {}) ==> MidViews(PhysOn(w, p), k.views, done, {})
  {
    var w' := PhysOn(w, p);
    assert forall a :: IsLocal(w', a) <==> IsLocal(w, a);
    assert forall x :: ViewIn(w', done, {}, x) <==> ViewIn(w, done, {}, x);
  }

  lemma PhysOnMidVirts(w: World, k: Kernel, done: set<Id>, p: Id)
    requires p in w.physes
    ensures MidVirts(w, k.virts, done, {}) ==> MidVirts(PhysOn(w, p), k.virts, done, {})
    ensures MidVirtViews(w, k.virtViews, done, {}) ==> MidVirtViews(PhysOn(w, p), k.virtViews, done, {})
  {
    var w' := PhysOn(w, p);
    assert forall v :: VirtIn(w', done, {}, v) <==> VirtIn(w, done, {}, v);
    assert forall y :: VirtViewIn(w', done, {}, y) <==> VirtViewIn(w, done, {}, y);
  }

  lemma PhysOnStep(w0: World, w: World, k: Kernel, done: set<Id>, p: Id)
    requires Recommitting(w0, w) && Mid(w, k, done) && p in w.physes && w.physes[p].isLocal
    ensures Recommitting(w0, PhysOn(w, p)) && Mid(PhysOn(w, p), k, done)
    ensures forall a :: IsLocal(PhysOn(w, p), a) <==> IsLocal(w, a)
  {
    hide Coherent, Kept, Swept, MidPas, MidVirts, MidViews, MidVirtViews;
    PhysOnCoherent(w, p);
    PhysOnKept(w0, w, p);
    PhysOnMid(w, k, done, p);
    PhysOnMidVirts(w, k, done, p);
  }

  lemma EndVirts(w: World, k: Kernel, done: set<Id>)
    requires Mid(w, k, done)
    ensures forall v :: v in w.virts ==> VirtCommitted(w.virts[v], v in k.virts)
  {}

  // ---------------------------------------------------------------- the propagation part of lsdn_validate

  ghost function RenewedPa(w: World, r: Pa): Pa
  {
    var s := if r.phys in w.physes then Propagate(w.physes[r.phys].state, r.state) else r.state;
    r.(state := if r.net in w.nets then Propagate(w.nets[r.net].state, s) else s)
  }

  ghost function RenewedPas(w: World): map<Id, Pa>
  {
    map a | a in w.pas :: RenewedPa(w, w.pas[a])
  }

  ghost function RenewedVirt(pas: map<Id, Pa>, r: Virt): Virt
  {
    if r.connectedThrough.Some? && r.connectedThrough.value in pas then r.(state := Propagate(pas[r.connectedThrough.value].state, r.state))
    else r
  }

  /** Renewal spreads from physes and networks to attachments, and from there to the virts connected through them. */
  ghost function Renewed(w: World): World
  {
    w.(pas := RenewedPas(w), virts := RenewedVirts(RenewedPas(w), w.virts))
  }

  ghost function RenewedVirts(pas: map<Id, Pa>, virts: map<Id, Virt>): map<Id, Virt>
  {
    map v | v in virts :: RenewedVirt(pas, virts[v])
  }

  lemma RenewedPropagated(w: World)
    ensures Propagated(Renewed(w))
  {}

  lemma RenewedAllOk(w: World)
    requires AllOk(w)
    ensures Renewed(w) == w
  {
    assert RenewedPas(w) == w.pas;
    assert Renewed(w).virts == w.virts;
  }

  lemma RenewedCondemned(w: World, a: Id)
    ensures Condemned(Renewed(w), a) <==> Condemned(w, a)
  {
    var w' := Renewed(w);
    assert forall v :: v in w.virts <==> v in w'.virts;
    assert HasVirts(w'.virts, a) <==> HasVirts(w.virts, a);
  }

  /** Propagation does not change where a commit goes. */
  lemma CommittedRenewed(w: World)
    ensures Committed(Renewed(w)) == Committed(w)
  {
    hide Condemned, VirtsAfter;
    var w' := Renewed(w);
    forall a: Id ensures Condemned(w', a) <==> Condemned(w, a) { RenewedCondemned(w, a); }
    CommittedRenewedVirts(w);
    assert PasAfter(w') == PasAfter(w);
  }

  lemma CommittedRenewedVirts(w: World)
    ensures VirtsAfter(Renewed(w)) == VirtsAfter(w)
  {
    hide Condemned, VirtAfter;
    var w' := Renewed(w);
    forall v: Id ensures ConnectedLocally(w', v) <==> ConnectedLocally(w, v) {}
    forall v | v in w.virts ensures VirtAfter(w'.virts[v], ConnectedLocally(w, v)) == VirtAfter(w.virts[v], ConnectedLocally(w, v)) {
      SameAfter(RenewedPas(w), w.virts[v], ConnectedLocally(w, v));
    }
    assert forall v :: v in w.virts ==> (w'.virts[v].state == DELETE <==> w.virts[v].state == DELETE);
  }

  lemma SameAfter(pas: map<Id, Pa>, r: Virt, local: bool)
    ensures VirtAfter(RenewedVirt(pas, r), local) == VirtAfter(r, local)
  {}

  ghost function PhysRenewed(w: World, r: Pa): Pa
  {
    if r.phys in w.physes then r.(state := Propagate(w.physes[r.phys].state, r.state)) else r
  }

  ghost function NetRenewed(w: World, r: Pa): Pa
  {
    if r.net in w.nets then r.(state := Propagate(w.nets[r.net].state, r.state)) else r
  }

  lemma RenewPaByPhys(w: World, k: Kernel, a: Id)
    requires Inv(w, k) && a in w.pas
    ensures w.pas[a].phys in w.physes && Inv(PaEdit(w, a, PhysRenewed(w, w.pas[a])), k)
  {
    RenewPaOk(w, k, a);
    hide Inv, PaEditOk;
    PaEditInv(w, k, a, PhysRenewed(w, w.pas[a]));
  }

  lemma RenewPaByNet(w: World, k: Kernel, a: Id)
    requires Inv(w, k) && a in w.pas
    ensures w.pas[a].net in w.nets && Inv(PaEdit(w, a, NetRenewed(w, w.pas[a])), k)
  {
    RenewPaOk(w, k, a);
    hide Inv, PaEditOk;
    PaEditInv(w, k, a, NetRenewed(w, w.pas[a]));
  }

  lemma RenewPaOk(w: World, k: Kernel, a: Id)
    requires Inv(w, k) && a in w.pas
    ensures w.pas[a].phys in w.physes && w.pas[a].net in w.nets
    ensures PaEditOk(w, a, PhysRenewed(w, w.pas[a])) && PaEditOk(w, a, NetRenewed(w, w.pas[a]))
  {
    hide Mirrored, SettingsOk, NetsOk, OneAttachment, PasHeld;
    assert PaOk(w.nets, w.physes, w.pas[a]);
  }

  lemma RenewVirt(w: World, k: Kernel, v: Id)
    requires Inv(w, k) && v in w.virts
    ensures w.virts[v].connectedThrough.Some? ==> w.virts[v].connectedThrough.value in w.pas
    ensures Inv(VirtEdit(w, v, RenewedVirt(w.pas, w.virts[v])), k)
  {
    hide Mirrored, SettingsOk, NetsOk, PhysesOk, PasOk, OneAttachment, PasHeld;
    assert VirtOk(w.nets, w.pas, w.virts[v]);
    VirtEditInv(w, k, v, RenewedVirt(w.pas, w.virts[v]));
  }

  /** What validation objects to: the given objects, unless they go away, and virts about to be committed through an
      attachment that nobody made explicitly. */
  ghost predicate Problems(w: World, netProblems: set<Id>, physProblems: set<Id>)
  {
    || (exists n :: n in w.nets && w.nets[n].state != DELETE && n in netProblems)
    || (exists p :: p in w.physes && w.physes[p].state != DELETE && p in physProblems)
    || (exists a, v :: a in w.pas && v in w.virts && Unattached(w, a, v))
  }

  ghost predicate Unattached(w: World, a: Id, v: Id)
    requires a in w.pas && v in w.virts
  {
    && w.pas[a].phys in w.physes && w.physes[w.pas[a].phys].state != DELETE && !w.pas[a].explicitlyAttached
    && w.virts[v].connectedThrough == Some(a) && w.virts[v].state in {NEW, RENEW}
  }

  lemma RecommittingStart(w0: World, w: World)
    requires Coherent(w) && Kept(w0, w) && Swept(w)
    ensures Recommitting(w0, w)
  {}

  lemma RecommittingEnd(w0: World, w: World, k: Kernel)
    requires Coherent(w0) && Recommitting(w0, w) && Describes(w, k)
    requires forall p :: p in w.physes ==> w.physes[p].committedAsLocal == w.physes[p].isLocal
    requires forall v :: v in w.virts ==> VirtCommitted(w.virts[v], v in k.virts)
    ensures Acked(w) == Committed(w0) && UpToDate(Acked(w), k) && Inv(Acked(w), k)
  {
    hide Coherent, Kept, Swept, Describes, VirtCommitted, Acked, Committed, UpToDate, Inv;
    CommitEnds(w0, w, k);
    CommitKeeps(w, k);
  }

  lemma AckedAllOkSame(w: World)
    requires AllOk(w)
    ensures Acked(w) == w
  {
    assert AckSettings(w.settings) == w.settings;
    assert AckNets(w.nets) == w.nets;
    assert AckPhyses(w.physes) == w.physes;
    assert AckPas(w.pas) == w.pas;
    assert AckVirts(w.virts) == w.virts;
  }

  lemma DescribesSets(w: World, k: Kernel)
    ensures Describes(w, k) ==> (forall x :: x in k.views <==> ViewWanted(w, x)) && (forall y :: y in k.virtViews <==> VirtViewWanted(w, y))
  {}

  // ---------------------------------------------------------------- teardown

  ghost predicate AllDoomed(w: World)
  {
    && (forall s :: s in w.settings ==> w.settings[s].state == DELETE)
    && (forall n :: n in w.nets ==> w.nets[n].state == DELETE)
    && (forall p :: p in w.physes ==> w.physes[p].state == DELETE)
    && (forall a :: a in w.pas ==> w.pas[a].state == DELETE)
    && (forall v :: v in w.virts ==> w.virts[v].state == DELETE)
  }

  lemma ContainersDoom(w: World)
    requires Coherent(w)
    requires forall p :: p in w.physes ==> w.physes[p].state == DELETE
    requires forall s :: s in w.settings ==> w.settings[s].state == DELETE
    ensures AllDoomed(w)
  {
    hide OneAttachment, PasHeld;
    forall n | n in w.nets ensures w.nets[n].state == DELETE { assert NetOk(w.settings, w.nets[n]); }
    forall a | a in w.pas ensures w.pas[a].state == DELETE { assert PaOk(w.nets, w.physes, w.pas[a]); }
    forall v | v in w.virts ensures w.virts[v].state == DELETE { assert VirtOk(w.nets, w.pas, w.virts[v]); }
  }

  lemma DoomedIsFine(w: World, netProblems: set<Id>, physProblems: set<Id>)
    requires AllDoomed(w)
    ensures !Problems(Renewed(w), netProblems, physProblems)
  {}

  lemma DoomedGoes(w: World)
    requires AllDoomed(w)
    ensures Committed(w) == World(map[], map[], map[], map[], map[])
  {
    hide Orphaned;
    assert PasAfter(w) == map[];
  }

  /** When all physes and settings are being deleted, so is everything else: nothing is left to validate or to keep. */
  lemma DoomedWorld(w: World, k: Kernel, netProblems: set<Id>, physProblems: set<Id>)
    requires Inv(w, k)
    requires forall p :: p in w.physes ==> w.physes[p].state == DELETE
    requires forall s :: s in w.settings ==> w.settings[s].state == DELETE
    ensures !Problems(Renewed(w), netProblems, physProblems)
    ensures Committed(w) == World(map[], map[], map[], map[], map[])
  {
    hide Mirrored, Coherent, AllDoomed, Problems, Committed;
    ContainersDoom(w);
    DoomedIsFine(w, netProblems, physProblems);
    DoomedGoes(w);
  }

  lemma EmptyDescribes(w: World, k: Kernel)
    requires UpToDate(w, k) && w == World(map[], map[], map[], map[], map[])
    ensures k == EmptyKernel
  {
    assert k.pas == map[] && k.virts == map[] && k.views == map[] && k.virtViews == map[];
  }
}
