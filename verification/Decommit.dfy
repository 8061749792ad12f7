/** The decommit phase of `lsdn_commit`: each step on the model and the kernel, what it keeps, and where the phase ends. */
module Decommit {
  import opened Base
  import opened States
  import opened Netmodel
  import opened Invariant
  import opened Removals

  /** The renewal of physes has reached their attachments, that of attachments their virts. */
  ghost predicate Propagated(w: World)
  {
    && (forall a :: a in w.pas && w.pas[a].phys in w.physes && w.physes[w.pas[a].phys].state == RENEW ==> w.pas[a].state != OK)
    && (forall v :: v in w.virts && w.virts[v].state == OK && w.virts[v].connectedThrough.Some? && w.virts[v].connectedThrough.value in w.pas ==>
          w.pas[w.virts[v].connectedThrough.value].state != RENEW)
  }

  // ---------------------------------------------------------------- decommit_virt

  ghost function VirtOut(w: World, v: Id): World
    requires v in w.virts
  {
    w.(virts := w.virts[v := w.virts[v].(state := AckDecommit(w.virts[v].state), committedTo := None, committedIf := "")])
  }

  ghost function VirtOutKernel(k: Kernel, v: Id): Kernel
  {
    k.(virts := k.virts - {v}, virtViews := map y | y in k.virtViews && y.virt != v :: k.virtViews[y])
  }

  lemma VirtOutInv(w: World, k: Kernel, v: Id)
    requires Inv(w, k) && v in w.virts && MustDecommit(w.virts[v].state)
    ensures Inv(VirtOut(w, v), VirtOutKernel(k, v))
    ensures Uninstalled(VirtOutKernel(k, v), v)
  {
    hide Coherent, Mirrored;
    VirtOutCoherent(w, v);
    VirtOutMirrored(w, k, v);
  }

  lemma VirtOutCoherent(w: World, v: Id)
    requires Coherent(w) && v in w.virts && MustDecommit(w.virts[v].state)
    ensures Coherent(VirtOut(w, v))
  {
    var w' := VirtOut(w, v);
    forall a: Id | HasVirts(w.virts, a) ensures HasVirts(w'.virts, a) {
      var u :| u in w.virts && w.virts[u].connectedThrough == Some(a);
      assert u in w'.virts;
    }
  }

  lemma VirtOutMirrored(w: World, k: Kernel, v: Id)
    requires Mirrored(w, k) && v in w.virts && MustDecommit(w.virts[v].state)
    ensures Mirrored(VirtOut(w, v), VirtOutKernel(k, v))
  {
    hide PasMirrored, ViewsMirrored, VirtsMirrored;
    VirtOutVirtsMirrored(w, k, v);
  }

  lemma VirtOutVirtsMirrored(w: World, k: Kernel, v: Id)
    requires VirtsMirrored(w.pas, w.virts, k.pas, k.virts) && v in w.virts && MustDecommit(w.virts[v].state)
    ensures VirtsMirrored(w.pas, VirtOut(w, v).virts, k.pas, VirtOutKernel(k, v).virts)
  {}

  lemma VirtOutPropagated(w: World, v: Id)
    requires Propagated(w) && v in w.virts && MustDecommit(w.virts[v].state)
    ensures Propagated(VirtOut(w, v))
  {}

  // ---------------------------------------------------------------- decommit_pa

  ghost function PaOut(w: World, a: Id): World
    requires a in w.pas
  {
    if w.pas[a].pendingFree then w.(pas := w.pas - {a})
    else w.(pas := w.pas[a := w.pas[a].(state := AckDecommit(w.pas[a].state))])
  }

  ghost function PaOutKernel(k: Kernel, a: Id): Kernel
  {
    k.(pas := k.pas - {a},
       views := map x | x in k.views && x.local != a && x.remote != a :: k.views[x],
       virtViews := map y | y in k.virtViews && y.local != a && y.remote != a :: k.virtViews[y])
  }

  /** The kernel once the views of and by the attachment are gone. */
  lemma PaOutComplete(k0: Kernel, k: Kernel, a: Id)
    requires k.pas == k0.pas && k.virts == k0.virts && (forall x :: x in k.views ==> x.local != a && x.remote != a)
    requires forall x :: x in k0.views && x.local != a && x.remote != a ==> x in k.views
    requires forall x :: x in k.views ==> x in k0.views && k.views[x] == k0.views[x]
    requires forall y :: y in k0.virtViews && y.local != a && y.remote != a ==> y in k.virtViews
    requires forall y :: y in k.virtViews ==> y in k0.virtViews && k.virtViews[y] == k0.virtViews[y]
    requires forall y :: y in k.virtViews ==> View(y.local, y.remote) in k.views
    ensures k.views == PaOutKernel(k0, a).views && k.virtViews == PaOutKernel(k0, a).virtViews
    ensures forall y :: y in k.virtViews ==> y.local != a && y.remote != a
    ensures a !in k0.pas ==> k == PaOutKernel(k0, a)
  {}

  /** The attachment is to be decommitted, and no virt uses it any more. */
  ghost predicate PaIdle(w: World, k: Kernel, a: Id)
  {
    && a in w.pas && MustDecommit(w.pas[a].state)
    && (forall v :: v in w.virts && w.virts[v].net == w.pas[a].net ==> !MustDecommit(w.virts[v].state))
  }

  lemma PaOutCoherent(w: World, k: Kernel, a: Id)
    requires Coherent(w) && PaIdle(w, k, a)
    ensures Coherent(PaOut(w, a))
  {
    hide SettingsOk, NetsOk, PhysesOk, PasOk, OneAttachment, VirtsOk, PasHeld, PaIdle;
    PaOutPas(w, k, a);
    PaOutVirts(w, k, a);
    PaOutHeld(w, k, a);
  }

  lemma PaOutPas(w: World, k: Kernel, a: Id)
    requires PasOk(w.nets, w.physes, w.pas) && OneAttachment(w.pas) && PaIdle(w, k, a)
    ensures a in w.pas && PasOk(w.nets, w.physes, PaOut(w, a).pas) && OneAttachment(PaOut(w, a).pas)
    ensures PaOut(w, a) == w.(pas := PaOut(w, a).pas)
  {}

  lemma PaOutVirts(w: World, k: Kernel, a: Id)
    requires PasOk(w.nets, w.physes, w.pas) && VirtsOk(w.nets, w.pas, w.virts) && PaIdle(w, k, a)
    ensures a in w.pas && VirtsOk(w.nets, PaOut(w, a).pas, w.virts)
  {
    assert PaOk(w.nets, w.physes, w.pas[a]);
    forall v | v in w.virts
      ensures VirtOk(w.nets, PaOut(w, a).pas, w.virts[v])
    {
      assert VirtOk(w.nets, w.pas, w.virts[v]);
    }
  }

  lemma PaOutHeld(w: World, k: Kernel, a: Id)
    requires PasOk(w.nets, w.physes, w.pas) && PasHeld(w.nets, w.pas, w.virts) && PaIdle(w, k, a)
    ensures a in w.pas && PasHeld(w.nets, PaOut(w, a).pas, w.virts)
  {
    hide HasVirts;
  }

  /** By the time an attachment is taken out, every virt that was installed on it is gone. */
  lemma PaIdleUnused(w: World, k: Kernel, a: Id)
    requires PasOk(w.nets, w.physes, w.pas) && VirtsOk(w.nets, w.pas, w.virts)
    requires VirtsMirrored(w.pas, w.virts, k.pas, k.virts) && Propagated(w) && PaIdle(w, k, a)
    ensures forall v :: v in k.virts ==> k.virts[v].pa != a
    ensures forall v :: v in w.virts && w.virts[v].connectedThrough == Some(a) ==> w.virts[v].state != OK
  {
    forall v | v in k.virts ensures k.virts[v].pa != a {
      assert VirtMirrored(w.pas, k.pas, k.virts, v, w.virts[v]);
      assert VirtOk(w.nets, w.pas, w.virts[v]);
    }
  }

  lemma PaOutMirroredVirts(w: World, k: Kernel, a: Id)
    requires VirtsMirrored(w.pas, w.virts, k.pas, k.virts) && a in w.pas
    requires forall v :: v in k.virts ==> k.virts[v].pa != a
    requires forall v :: v in w.virts && w.virts[v].connectedThrough == Some(a) ==> w.virts[v].state != OK
    ensures VirtsMirrored(PaOut(w, a).pas, w.virts, PaOutKernel(k, a).pas, PaOutKernel(k, a).virts)
  {
    hide VirtMirrored, VirtCurrent, PaOut;
    forall v | v in w.virts
      ensures VirtMirrored(PaOut(w, a).pas, k.pas - {a}, k.virts, v, w.virts[v])
      ensures w.virts[v].state == OK ==> VirtCurrent(PaOut(w, a).pas, k.pas - {a}, k.virts, v, w.virts[v])
    {
      PaOutMirroredVirt(w, k, a, v);
    }
  }

  lemma PaOutMirroredVirt(w: World, k: Kernel, a: Id, v: Id)
    requires a in w.pas && v in w.virts && VirtMirrored(w.pas, k.pas, k.virts, v, w.virts[v])
    requires w.virts[v].state == OK ==> VirtCurrent(w.pas, k.pas, k.virts, v, w.virts[v]) && w.virts[v].connectedThrough != Some(a)
    requires v in k.virts ==> k.virts[v].pa != a
    ensures VirtMirrored(PaOut(w, a).pas, k.pas - {a}, k.virts, v, w.virts[v])
    ensures w.virts[v].state == OK ==> VirtCurrent(PaOut(w, a).pas, k.pas - {a}, k.virts, v, w.virts[v])
  {}

  lemma PaOutMirroredVirtViews(w: World, k: Kernel, a: Id)
    requires VirtViewsMirrored(w.virts, k.views, k.virtViews) && a in w.pas
    ensures VirtViewsMirrored(w.virts, PaOutKernel(k, a).views, PaOutKernel(k, a).virtViews)
  {}

  lemma PaOutMirroredPas(w: World, k: Kernel, a: Id)
    requires PasMirrored(w.nets, w.physes, w.pas, k.pas) && a in w.pas && MustDecommit(w.pas[a].state)
    requires w.pas[a].pendingFree <==> w.pas[a].state == DELETE
    ensures PasMirrored(w.nets, w.physes, PaOut(w, a).pas, PaOutKernel(k, a).pas)
  {}

  lemma PaOutMirroredViews(w: World, k: Kernel, a: Id)
    requires ViewsMirrored(w.physes, w.pas, k.views) && a in w.pas && MustDecommit(w.pas[a].state)
    requires w.pas[a].pendingFree <==> w.pas[a].state == DELETE
    ensures ViewsMirrored(w.physes, PaOut(w, a).pas, PaOutKernel(k, a).views)
  {
    var pas', k' := PaOut(w, a).pas, PaOutKernel(k, a);
    forall x ensures ViewLive(w.physes, pas', x) <==> ViewLive(w.physes, w.pas, x) && x.local != a && x.remote != a {}
  }

  lemma PaOutInv(w: World, k: Kernel, a: Id)
    requires Inv(w, k) && Propagated(w) && PaIdle(w, k, a)
    ensures Inv(PaOut(w, a), PaOutKernel(k, a))
  {
    hide SettingsOk, NetsOk, PhysesOk, OneAttachment, VirtsOk, PasHeld;
    hide PasMirrored, ViewsMirrored, VirtsMirrored, VirtViewsMirrored, PaOutKernel, Propagated;
    PaOutCoherent(w, k, a);
    PaIdleUnused(w, k, a);
    PaOutMirroredPas(w, k, a);
    PaOutMirroredViews(w, k, a);
    PaOutMirroredVirts(w, k, a);
    PaOutMirroredVirtViews(w, k, a);
  }

  lemma PaOutPropagated(w: World, k: Kernel, a: Id)
    requires Propagated(w) && PaIdle(w, k, a)
    ensures Propagated(PaOut(w, a))
  {}

  // ---------------------------------------------------------------- progress of the phase

  /** All virts of the attachment are being deleted and nobody attached it explicitly. */
  ghost predicate Orphaned(w: World, a: Id)
  {
    && a in w.pas && !w.pas[a].explicitlyAttached && HasVirts(w.virts, a)
    && (forall v :: v in w.virts && w.virts[v].connectedThrough == Some(a) ==> w.virts[v].state == DELETE)
  }

  /** The attachment does not survive the next commit. */
  ghost predicate Condemned(w: World, a: Id)
  {
    a in w.pas && (w.pas[a].state == DELETE || Orphaned(w, a))
  }

  ghost predicate SameVirt(r0: Virt, r: Virt)
  {
    && r.net == r0.net && r.connectedThrough == r0.connectedThrough && r.connectedIf == r0.connectedIf && r.attrs == r0.attrs
    && (r.state == r0.state || r.state == AckDecommit(r0.state)) && r.pendingFree == r0.pendingFree
  }

  ghost predicate VirtsKept(virts0: map<Id, Virt>, virts: map<Id, Virt>)
  {
    && (forall v :: v in virts ==> v in virts0 && SameVirt(virts0[v], virts[v]))
    && (forall v :: v in virts0 && virts0[v].state != DELETE ==> v in virts)
  }

  ghost predicate PaKept(w0: World, a: Id, r: Pa)
  {
    && a in w0.pas && r.net == w0.pas[a].net && r.phys == w0.pas[a].phys && r.explicitlyAttached == w0.pas[a].explicitlyAttached
    && (r.state == w0.pas[a].state || r.state == AckDecommit(w0.pas[a].state) || (r.state == DELETE && Orphaned(w0, a)))
  }

  /** Between the start `w0` of the phase and now, only condemned attachments have gone. */
  ghost predicate PasKept(w0: World, pas: map<Id, Pa>, virts: map<Id, Virt>)
  {
    && (forall a :: a in pas ==> PaKept(w0, a, pas[a]))
    && (forall a :: a in w0.pas && !Condemned(w0, a) ==> a in pas)
    && (forall a :: a in pas && Orphaned(w0, a) ==> pas[a].state == DELETE || HasVirts(virts, a))
  }

  lemma VirtOutKept(w0: World, w: World, v: Id)
    requires VirtsKept(w0.virts, w.virts) && PasKept(w0, w.pas, w.virts) && v in w.virts && MustDecommit(w.virts[v].state)
    ensures VirtsKept(w0.virts, VirtOut(w, v).virts) && PasKept(w0, w.pas, VirtOut(w, v).virts)
  {
    hide Orphaned, Condemned, PaKept;
    forall a: Id | HasVirts(w.virts, a) ensures HasVirts(VirtOut(w, v).virts, a) {
      var u :| u in w.virts && w.virts[u].connectedThrough == Some(a);
      assert u in VirtOut(w, v).virts;
    }
  }

  lemma WithoutVirtKept(w0: World, w: World, v: Id)
    requires VirtsKept(w0.virts, w.virts) && v in w.virts && w.virts[v].state == DELETE
    ensures VirtsKept(w0.virts, w.virts - {v})
    ensures forall a: Id :: HasVirts(w.virts, a) && w.virts[v].connectedThrough != Some(a) ==> HasVirts(w.virts - {v}, a)
  {
    forall a: Id | HasVirts(w.virts, a) && w.virts[v].connectedThrough != Some(a) ensures HasVirts(w.virts - {v}, a) {
      var u :| u in w.virts && w.virts[u].connectedThrough == Some(a);
      assert u in w.virts - {v};
    }
  }

  lemma FreeVirtKept(w0: World, w: World, v: Id)
    requires VirtsKept(w0.virts, w.virts) && PasKept(w0, w.pas, w.virts) && v in w.virts && w.virts[v].state == DELETE
    requires w.virts[v].connectedThrough.Some? ==> w.virts[v].connectedThrough.value in w.pas
    ensures VirtsKept(w0.virts, FreeVirt(w, v).virts) && PasKept(w0, FreeVirt(w, v).pas, FreeVirt(w, v).virts)
  {
    hide VirtsKept, HasVirts;
    WithoutVirtKept(w0, w, v);
    if w.virts[v].connectedThrough.Some? {
      var a := w.virts[v].connectedThrough.value;
      if !HasVirts(w.virts - {v}, a) && !w.pas[a].explicitlyAttached {
        LastVirtOrphans(w0, w, v, a);
      }
    }
  }

  /** An attachment that loses its last virt during the phase had only deleted virts when the phase began. */
  lemma LastVirtOrphans(w0: World, w: World, v: Id, a: Id)
    requires VirtsKept(w0.virts, w.virts) && v in w.virts && w.virts[v].state == DELETE && w.virts[v].connectedThrough == Some(a)
    requires !HasVirts(w.virts - {v}, a) && a in w0.pas && !w0.pas[a].explicitlyAttached
    ensures Orphaned(w0, a)
  {
    assert v in w0.virts && w0.virts[v].connectedThrough == Some(a);
    forall u | u in w0.virts && w0.virts[u].connectedThrough == Some(a) ensures w0.virts[u].state == DELETE {
      assert u in w.virts && u != v ==> u in w.virts - {v};
    }
  }

  lemma PaOutKept(w0: World, w: World, a: Id)
    requires PasKept(w0, w.pas, w.virts) && a in w.pas && MustDecommit(w.pas[a].state)
    requires w.pas[a].pendingFree <==> w.pas[a].state == DELETE
    requires w.pas[a].state == RENEW ==> w0.pas[a].state == RENEW
    ensures PasKept(w0, PaOut(w, a).pas, w.virts)
  {
    hide HasVirts;
  }

  // ---------------------------------------------------------------- one object at a time

  ghost function SweptVirt(w: World, v: Id): World
    requires v in w.virts && (w.virts[v].connectedThrough.Some? ==> w.virts[v].connectedThrough.value in w.pas)
  {
    if !MustDecommit(w.virts[v].state) then w
    else if w.virts[v].pendingFree then FreeVirt(VirtOut(w, v), v)
    else VirtOut(w, v)
  }

  lemma InvVirt(w: World, k: Kernel, v: Id)
    requires Inv(w, k) && v in w.virts
    ensures w.virts[v].connectedThrough.Some? ==> w.virts[v].connectedThrough.value in w.pas
    ensures v in k.virts <==> w.virts[v].committedTo.Some?
    ensures w.virts[v].committedTo.None? ==> w.virts[v].committedIf == ""
    ensures w.virts[v].pendingFree <==> w.virts[v].state == DELETE
  {
    assert VirtMirrored(w.pas, k.pas, k.virts, v, w.virts[v]) && VirtOk(w.nets, w.pas, w.virts[v]);
  }

  /** Sweeping a virt touches no other virt. */
  lemma SweptVirtAlone(w: World, v: Id)
    requires VirtsOk(w.nets, w.pas, w.virts) && v in w.virts && (w.virts[v].connectedThrough.Some? ==> w.virts[v].connectedThrough.value in w.pas)
    ensures var w' := SweptVirt(w, v);
            && (forall u :: u in w'.virts ==> u in w.virts && w'.virts[u].net == w.virts[u].net && (u != v ==> w'.virts[u] == w.virts[u]))
            && (forall u :: u in w.virts && u != v ==> u in w'.virts)
            && (v in w'.virts ==> !MustDecommit(w'.virts[v].state))
            && w'.physes == w.physes && w'.nets == w.nets && w'.settings == w.settings
  {
    hide HasVirts, Nested;
    assert VirtOk(w.nets, w.pas, w.virts[v]);
  }

  /** Sweeping a virt touches only attachments of its network. */
  lemma SweptVirtFrame(w: World, v: Id)
    requires VirtsOk(w.nets, w.pas, w.virts) && v in w.virts && (w.virts[v].connectedThrough.Some? ==> w.virts[v].connectedThrough.value in w.pas)
    ensures var w' := SweptVirt(w, v);
            && (forall a :: a in w'.pas ==> a in w.pas && w'.pas[a].net == w.pas[a].net && (w.pas[a].net != w.virts[v].net ==> w'.pas[a] == w.pas[a]))
            && (forall a :: a in w.pas && w.pas[a].net != w.virts[v].net ==> a in w'.pas)
  {
    hide HasVirts, Nested;
    assert VirtOk(w.nets, w.pas, w.virts[v]);
  }

  lemma FreePaPropagated(w: World, a: Id)
    requires Propagated(w) && a in w.pas
    ensures Propagated(FreePa(w, a))
  {
    hide HasVirts;
  }

  lemma WithoutVirtPropagated(w: World, v: Id)
    requires Propagated(w) && v in w.virts
    ensures Propagated(WithoutVirt(w, v))
  {}

  lemma SweptVirtPropagated(w: World, v: Id)
    requires Propagated(w) && v in w.virts && (w.virts[v].connectedThrough.Some? ==> w.virts[v].connectedThrough.value in w.pas)
    ensures Propagated(SweptVirt(w, v))
  {
    hide Propagated, FreePa;
    if MustDecommit(w.virts[v].state) {
      VirtOutPropagated(w, v);
      if w.virts[v].pendingFree {
        var w1 := VirtOut(w, v);
        WithoutVirtPropagated(w1, v);
        if w.virts[v].connectedThrough.Some? { FreePaPropagated(WithoutVirt(w1, v), w.virts[v].connectedThrough.value); }
      }
    }
  }

  lemma SweptVirtKept(w0: World, w: World, v: Id)
    requires VirtsKept(w0.virts, w.virts) && PasKept(w0, w.pas, w.virts) && VirtsOk(w.nets, w.pas, w.virts) && v in w.virts
    ensures VirtsKept(w0.virts, SweptVirt(w, v).virts) && PasKept(w0, SweptVirt(w, v).pas, SweptVirt(w, v).virts)
  {
    assert VirtOk(w.nets, w.pas, w.virts[v]);
    hide VirtsKept, PasKept, FreeVirt;
    if MustDecommit(w.virts[v].state) {
      VirtOutKept(w0, w, v);
      if w.virts[v].pendingFree { FreeVirtKept(w0, VirtOut(w, v), v); }
    }
  }

  ghost function SweptPa(w: World, a: Id): World
    requires a in w.pas
  {
    if MustDecommit(w.pas[a].state) then PaOut(w, a) else w
  }

  /** The network has no virt left to decommit. */
  ghost predicate VirtsSwept(w: World, n: Id)
  {
    forall v :: v in w.virts && w.virts[v].net == n ==> !MustDecommit(w.virts[v].state)
  }

  ghost predicate PasSwept(w: World, n: Id)
  {
    forall a :: a in w.pas && w.pas[a].net == n ==> !MustDecommit(w.pas[a].state)
  }

  lemma InvPa(w: World, k: Kernel, a: Id)
    requires Inv(w, k) && Propagated(w) && a in w.pas && VirtsSwept(w, w.pas[a].net) && MustDecommit(w.pas[a].state)
    ensures PaIdle(w, k, a)
    ensures w.pas[a].phys in w.physes && (a in k.pas <==> w.physes[w.pas[a].phys].committedAsLocal)
    ensures w.pas[a].pendingFree <==> w.pas[a].state == DELETE
    ensures w.pas[a].state == DELETE ==> !w.pas[a].explicitlyAttached && !HasVirts(w.virts, a)
    ensures forall v :: v in k.virts ==> k.virts[v].pa != a
    ensures forall y :: y in k.virtViews ==> View(y.local, y.remote) in k.views
  {
    hide SettingsOk, NetsOk, PhysesOk, OneAttachment, PasHeld, ViewsMirrored;
    assert PaOk(w.nets, w.physes, w.pas[a]);
    PaIdleUnused(w, k, a);
    hide VirtsMirrored;
    assert forall y :: y in k.virtViews ==> VirtViewLive(w.virts, k.views, k.virtViews, y);
  }

  ghost predicate NetSwept(w: World, n: Id)
  {
    VirtsSwept(w, n) && PasSwept(w, n)
  }

  lemma SweptVirtOthers(w: World, v: Id, m: Id)
    requires PasOk(w.nets, w.physes, w.pas) && VirtsOk(w.nets, w.pas, w.virts) && v in w.virts
    requires m != w.virts[v].net && NetSwept(w, m)
    ensures NetSwept(SweptVirt(w, v), m)
  {
    hide SweptVirt;
    assert VirtOk(w.nets, w.pas, w.virts[v]);
    SweptVirtAlone(w, v);
    SweptVirtFrame(w, v);
  }

  lemma SweptPaOthers(w: World, a: Id, m: Id)
    requires a in w.pas && m != w.pas[a].net && NetSwept(w, m)
    ensures NetSwept(SweptPa(w, a), m)
  {}

  lemma SweptPaKeeps(w0: World, w: World, k: Kernel, a: Id)
    requires Propagated(w) && PasKept(w0, w.pas, w.virts) && PasOk(w.nets, w.physes, w.pas) && a in w.pas && VirtsSwept(w, w.pas[a].net)
    ensures Propagated(SweptPa(w, a)) && PasKept(w0, SweptPa(w, a).pas, w.virts)
  {
    assert PaOk(w.nets, w.physes, w.pas[a]);
    assert PaKept(w0, a, w.pas[a]);
    hide PasKept, Propagated;
    if MustDecommit(w.pas[a].state) {
      PaOutPropagated(w, k, a);
      PaOutKept(w0, w, a);
    }
  }

  /** When its members are swept, a deleted network is empty: the assertions of `net_do_free` hold. */
  lemma SweptNetEmpty(w: World, n: Id)
    requires Coherent(w) && n in w.nets && w.nets[n].state == DELETE && NetSwept(w, n)
    ensures forall v :: v in w.virts ==> w.virts[v].net != n
    ensures forall a :: a in w.pas ==> w.pas[a].net != n
  {
    hide SettingsOk, NetsOk, PhysesOk, OneAttachment;
    forall v | v in w.virts ensures w.virts[v].net != n { assert VirtOk(w.nets, w.pas, w.virts[v]); }
    forall a | a in w.pas ensures w.pas[a].net != n {
      assert PaOk(w.nets, w.physes, w.pas[a]);
    }
  }

  lemma SweptVirtIdle(w: World, v: Id)
    requires v in w.virts && (w.virts[v].connectedThrough.Some? ==> w.virts[v].connectedThrough.value in w.pas)
    ensures !MustDecommit(w.virts[v].state) ==> SweptVirt(w, v) == w
  {}

  lemma SameVirtsSwept(w: World, w': World, n: Id)
    requires w'.virts == w.virts && VirtsSwept(w, n)
    ensures VirtsSwept(w', n)
  {}

  lemma SweptParts(w: World, n: Id)
    ensures NetSwept(w, n) <==> VirtsSwept(w, n) && PasSwept(w, n)
  {}

  lemma NetLegal(w: World, k: Kernel, n: Id)
    requires Inv(w, k) && n in w.nets
    ensures w.nets[n].state in {NEW, OK, DELETE} && (w.nets[n].pendingFree <==> w.nets[n].state == DELETE)
    ensures w.nets[n].state == DELETE && NetSwept(w, n) ==> 
              (forall v :: v in w.virts ==> w.virts[v].net != n) && (forall a :: a in w.pas ==> w.pas[a].net != n)
  {
    hide Mirrored, SettingsOk, PhysesOk, PasOk, OneAttachment, PasHeld, VirtsOk, NetSwept;
    assert NetOk(w.settings, w.nets[n]);
    if w.nets[n].state == DELETE && NetSwept(w, n) { SweptNetEmpty(w, n); }
  }

  lemma WithoutNetSwept(w: World, n: Id)
    ensures forall m :: NetSwept(w, m) ==> NetSwept(w.(nets := w.nets - {n}), m)
  {}
}
