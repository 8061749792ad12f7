/** What the freeing calls of the API do to the model as a whole. */
module Freeing {
  import opened Base
  import opened States
  import opened Netmodel
  import opened Invariant
  import opened Edits
  import opened Removals

  // ---------------------------------------------------------------- virts

  function Doomed(r: Virt): Virt { r.(state := DELETE, pendingFree := true) }

  /** `lsdn_virt_free` */
  ghost function VirtFreed(w: World, v: Id): World
    requires v in w.virts && (w.virts[v].connectedThrough.Some? ==> w.virts[v].connectedThrough.value in w.pas)
  {
    if w.virts[v].state == NEW then FreeVirt(w, v) else VirtEdit(w, v, Doomed(w.virts[v]))
  }

  lemma NewVirtUninstalled(w: World, k: Kernel, v: Id)
    requires Inv(w, k) && v in w.virts && w.virts[v].state == NEW
    ensures Uninstalled(k, v)
  {
    hide Coherent, PasMirrored, ViewsMirrored;
    assert VirtMirrored(w.pas, k.pas, k.virts, v, w.virts[v]);
    forall y | y in k.virtViews ensures y.virt != v { assert VirtViewLive(w.virts, k.views, k.virtViews, y); }
  }

  lemma VirtFreedInv(w: World, k: Kernel, v: Id)
    requires Inv(w, k) && v in w.virts
    ensures w.virts[v].connectedThrough.Some? ==> w.virts[v].connectedThrough.value in w.pas
    ensures Inv(VirtFreed(w, v), k)
  {
    assert VirtOk(w.nets, w.pas, w.virts[v]);
    hide Inv;
    if w.virts[v].state == NEW {
      NewVirtUninstalled(w, k, v);
      FreeVirtInv(w, k, v);
    } else {
      VirtEditInv(w, k, v, Doomed(w.virts[v]));
    }
  }

  // ---------------------------------------------------------------- attachments

  /** `phys_detach_by_pa` */
  ghost function Detached(w: World, a: Id): World
    requires a in w.pas
  {
    FreePa(PaEdit(w, a, w.pas[a].(explicitlyAttached := false)), a)
  }

  lemma DetachedInv(w: World, k: Kernel, a: Id)
    requires Inv(w, k) && a in w.pas
    ensures Inv(Detached(w, a), k)
  {
    assert PaEditOk(w, a, w.pas[a].(explicitlyAttached := false)) by { DetachedOk(w, k, a); }
    hide Inv, PaEditOk, FreePa;
    PaEditInv(w, k, a, w.pas[a].(explicitlyAttached := false));
    FreePaInv(PaEdit(w, a, w.pas[a].(explicitlyAttached := false)), k, a);
  }

  lemma DetachedOk(w: World, k: Kernel, a: Id)
    requires Inv(w, k) && a in w.pas
    ensures PaEditOk(w, a, w.pas[a].(explicitlyAttached := false))
  {
    hide Mirrored, OneAttachment, PasHeld, SettingsOk, NetsOk, PhysesOk;
    assert PaOk(w.nets, w.physes, w.pas[a]);
  }

  // ---------------------------------------------------------------- whole networks

  /** What is left of an attachment when its network was freed. */
  ghost function LeftOver(virts: map<Id, Virt>, a: Id, r: Pa): Option<Pa>
  {
    if HasVirts(virts, a) then Some(r.(explicitlyAttached := false))
    else if r.state == NEW then None
    else Some(r.(explicitlyAttached := false, state := DELETE, pendingFree := true))
  }

  /** The table holds what is left of the attachment that was `r`. */
  ghost predicate Leaves(virts: map<Id, Virt>, a: Id, r: Pa, pas: map<Id, Pa>)
  {
    LeftOver(virts, a, r) == if a in pas then Some(pas[a]) else None
  }

  ghost predicate VirtsFreed(virts0: map<Id, Virt>, virts: map<Id, Virt>, freed: set<Id>)
  {
    && (forall v :: v in virts <==> v in virts0 && !(virts0[v].net in freed && virts0[v].state == NEW))
    && (forall v :: v in virts ==> virts[v] == if virts0[v].net in freed then Doomed(virts0[v]) else virts0[v])
  }

  ghost predicate PasFreed(pas0: map<Id, Pa>, pas: map<Id, Pa>, virts: map<Id, Virt>, freed: set<Id>)
  {
    && (forall a :: a in pas ==> a in pas0)
    && (forall a :: a in pas0 && pas0[a].net !in freed ==> a in pas && pas[a] == pas0[a])
    && (forall a :: a in pas0 && pas0[a].net in freed ==> Leaves(virts, a, pas0[a], pas))
  }

  ghost predicate NetsFreed(nets0: map<Id, Net>, nets: map<Id, Net>, freed: set<Id>)
  {
    && (forall n :: n in nets <==> n in nets0 && !(n in freed && nets0[n].state == NEW))
    && (forall n :: n in nets ==> nets[n] == if n in freed then nets0[n].(state := DELETE, pendingFree := true) else nets0[n])
  }

  /** `w` is `w0` after the networks in `freed` were freed: objects never committed are gone at once, the others are marked. */
  ghost predicate Freed(w0: World, w: World, freed: set<Id>)
  {
    && VirtsFreed(w0.virts, w.virts, freed) && PasFreed(w0.pas, w.pas, w.virts, freed) && NetsFreed(w0.nets, w.nets, freed)
    && w.physes == w0.physes && w.settings == w0.settings
  }

  lemma FreedCompose(w0: World, w1: World, w2: World, freed: set<Id>, n: Id)
    requires Freed(w0, w1, freed) && Freed(w1, w2, {n}) && n !in freed && VirtsOk(w1.nets, w1.pas, w1.virts)
    ensures Freed(w0, w2, freed + {n})
  {
    hide VirtsFreed, PasFreed, NetsFreed, VirtsOk;
    FreedComposeVirts(w0.virts, w1.virts, w2.virts, freed, n);
    FreedComposeNets(w0.nets, w1.nets, w2.nets, freed, n);
    FreedComposePas(w0, w1, w2, freed, n);
  }

  lemma FreedComposeVirts(virts0: map<Id, Virt>, virts1: map<Id, Virt>, virts2: map<Id, Virt>, freed: set<Id>, n: Id)
    requires VirtsFreed(virts0, virts1, freed) && VirtsFreed(virts1, virts2, {n}) && n !in freed
    ensures VirtsFreed(virts0, virts2, freed + {n})
  {}

  lemma FreedComposeNets(nets0: map<Id, Net>, nets1: map<Id, Net>, nets2: map<Id, Net>, freed: set<Id>, n: Id)
    requires NetsFreed(nets0, nets1, freed) && NetsFreed(nets1, nets2, {n}) && n !in freed
    ensures NetsFreed(nets0, nets2, freed + {n})
  {}

  lemma FreedComposePas(w0: World, w1: World, w2: World, freed: set<Id>, n: Id)
    requires VirtsFreed(w1.virts, w2.virts, {n}) && VirtsOk(w1.nets, w1.pas, w1.virts) && n !in freed
    requires PasFreed(w0.pas, w1.pas, w1.virts, freed) && PasFreed(w1.pas, w2.pas, w2.virts, {n})
    ensures PasFreed(w0.pas, w2.pas, w2.virts, freed + {n})
  {
    forall a | a in w0.pas && w0.pas[a].net in freed ensures HasVirts(w1.virts, a) <==> HasVirts(w2.virts, a) {
      OtherNetVirts(w1, w2, n, a);
    }
    hide VirtsOk, VirtsFreed;
  }

  lemma OtherNetVirts(w1: World, w2: World, n: Id, a: Id)
    requires VirtsFreed(w1.virts, w2.virts, {n}) && VirtsOk(w1.nets, w1.pas, w1.virts)
    requires a !in w1.pas || w1.pas[a].net != n
    ensures HasVirts(w1.virts, a) <==> HasVirts(w2.virts, a)
  {
    if HasVirts(w1.virts, a) {
      var v :| v in w1.virts && w1.virts[v].connectedThrough == Some(a);
      assert VirtOk(w1.nets, w1.pas, w1.virts[v]);
      assert v in w2.virts;
    }
  }

  // ---------------------------------------------------------------- the loop over the virts of a network

  /** After the virts in `gone` of the network were freed: an attachment that lost its last virt that way is gone or marked. */
  ghost predicate VirtsGoing(virts0: map<Id, Virt>, virts: map<Id, Virt>, gone: set<Id>)
  {
    && (forall v :: v in virts <==> v in virts0 && !(v in gone && virts0[v].state == NEW))
    && (forall v :: v in virts ==> virts[v] == if v in gone then Doomed(virts0[v]) else virts0[v])
  }

  ghost predicate Deserted(w0: World, virts: map<Id, Virt>, a: Id)
  {
    a in w0.pas && !w0.pas[a].explicitlyAttached && HasVirts(w0.virts, a) && !HasVirts(virts, a)
  }

  ghost predicate PasGoing(w0: World, pas: map<Id, Pa>, virts: map<Id, Virt>)
  {
    && (forall a :: a in pas ==> a in w0.pas)
    && (forall a :: a in w0.pas && !Deserted(w0, virts, a) ==> a in pas && pas[a] == w0.pas[a])
    && (forall a :: a in w0.pas && Deserted(w0, virts, a) ==>
          if w0.pas[a].state == NEW then a !in pas else a in pas && pas[a] == w0.pas[a].(state := DELETE, pendingFree := true))
  }

  lemma HasVirtsWithout(virts: map<Id, Virt>, v: Id)
    requires v in virts
    ensures forall a: Id :: virts[v].connectedThrough != Some(a) ==> (HasVirts(virts - {v}, a) <==> HasVirts(virts, a))
    ensures virts[v].connectedThrough.Some? ==> HasVirts(virts, virts[v].connectedThrough.value)
  {
    forall a: Id | virts[v].connectedThrough != Some(a) && HasVirts(virts, a) ensures HasVirts(virts - {v}, a) {
      var u :| u in virts && virts[u].connectedThrough == Some(a);
      assert u in virts - {v};
    }
  }

  /** Marking virts does not take them off their attachments. */
  lemma HasVirtsSame(virts: map<Id, Virt>, virts': map<Id, Virt>)
    requires virts'.Keys == virts.Keys && forall v :: v in virts ==> virts'[v].connectedThrough == virts[v].connectedThrough
    ensures forall a: Id :: HasVirts(virts', a) <==> HasVirts(virts, a)
  {
    forall a: Id | HasVirts(virts, a) ensures HasVirts(virts', a) {
      var u :| u in virts && virts[u].connectedThrough == Some(a);
      assert u in virts';
    }
  }

  lemma FreeVirtGoing(w0: World, w: World, v: Id)
    requires PasGoing(w0, w.pas, w.virts) && v in w.virts && v in w0.virts && w0.virts[v].connectedThrough == w.virts[v].connectedThrough
    requires w.virts[v].connectedThrough.Some? ==> w.virts[v].connectedThrough.value in w.pas
    ensures PasGoing(w0, FreeVirt(w, v).pas, w.virts - {v})
  {
    hide Deserted, HasVirts;
    DesertedWithout(w0, w, v);
    if w.virts[v].connectedThrough.Some? {
      assert w.pas[w.virts[v].connectedThrough.value] == w0.pas[w.virts[v].connectedThrough.value];
    }
  }

  lemma DesertedWithout(w0: World, w: World, v: Id)
    requires v in w.virts && v in w0.virts && w0.virts[v].connectedThrough == w.virts[v].connectedThrough
    ensures forall a: Id :: w.virts[v].connectedThrough != Some(a) ==> (Deserted(w0, w.virts - {v}, a) <==> Deserted(w0, w.virts, a))
    ensures w.virts[v].connectedThrough.Some? ==>
              var a := w.virts[v].connectedThrough.value;
              !Deserted(w0, w.virts, a) && (a in w0.pas ==> (Deserted(w0, w.virts - {v}, a) <==> !w0.pas[a].explicitlyAttached && !HasVirts(w.virts - {v}, a)))
  {
    hide HasVirts;
    HasVirtsWithout(w.virts, v);
    HasVirtsWithout(w0.virts, v);
  }

  lemma MarkVirtGoing(w0: World, w: World, v: Id)
    requires PasGoing(w0, w.pas, w.virts) && v in w.virts
    ensures PasGoing(w0, w.pas, w.virts[v := Doomed(w.virts[v])])
  {
    hide HasVirts;
    HasVirtsSame(w.virts, w.virts[v := Doomed(w.virts[v])]);
  }

  lemma VirtFreedVirts(virts0: map<Id, Virt>, virts: map<Id, Virt>, v: Id, gone: set<Id>)
    requires VirtsGoing(virts0, virts, gone) && v in virts && v !in gone
    ensures VirtsGoing(virts0, if virts[v].state == NEW then virts - {v} else virts[v := Doomed(virts[v])], gone + {v})
    ensures v in virts0 && virts0[v].connectedThrough == virts[v].connectedThrough
  {}

  lemma VirtFreedGoing(w0: World, w: World, v: Id, gone: set<Id>)
    requires VirtsGoing(w0.virts, w.virts, gone) && PasGoing(w0, w.pas, w.virts) && v in w.virts && v !in gone
    requires w.virts[v].connectedThrough.Some? ==> w.virts[v].connectedThrough.value in w.pas
    ensures VirtsGoing(w0.virts, VirtFreed(w, v).virts, gone + {v}) && PasGoing(w0, VirtFreed(w, v).pas, VirtFreed(w, v).virts)
  {
    hide PasGoing, VirtsGoing, HasVirts;
    VirtFreedVirts(w0.virts, w.virts, v, gone);
    if w.virts[v].state == NEW {
      FreeVirtGoing(w0, w, v);
    } else {
      MarkVirtGoing(w0, w, v);
    }
  }

  // ---------------------------------------------------------------- the loop over the attachments of a network

  /** The attachment is as it was, or marked because it lost its virts. */
  ghost predicate StillThere(virts: map<Id, Virt>, a: Id, r: Pa, pas: map<Id, Pa>)
  {
    && a in pas
    && (pas[a] == r || (r.state != NEW && !HasVirts(virts, a) && pas[a] == r.(state := DELETE, pendingFree := true)))
  }

  ghost predicate PasDetaching(w0: World, pas: map<Id, Pa>, virts: map<Id, Virt>, n: Id, todo: set<Id>)
  {
    && (forall a :: a in pas ==> a in w0.pas)
    && (forall a :: a in todo ==> a in w0.pas && w0.pas[a].net == n)
    && (forall a :: a in w0.pas && w0.pas[a].net != n ==> a in pas && pas[a] == w0.pas[a])
    && (forall a :: a in w0.pas && w0.pas[a].net == n ==>
          if a in todo then StillThere(virts, a, w0.pas[a], pas) else Leaves(virts, a, w0.pas[a], pas))
  }

  lemma DetachingStart(w0: World, pas: map<Id, Pa>, virts: map<Id, Virt>, n: Id, gone: set<Id>, todo: set<Id>)
    requires PasGoing(w0, pas, virts) && VirtsGoing(w0.virts, virts, gone) && VirtsOk(w0.nets, w0.pas, w0.virts)
    requires forall v :: v in gone ==> v in w0.virts && w0.virts[v].net == n
    requires forall a :: a in todo <==> a in pas && pas[a].net == n
    ensures PasDetaching(w0, pas, virts, n, todo)
  {
    forall a | a in w0.pas && w0.pas[a].net != n ensures !Deserted(w0, virts, a) {
      if HasVirts(w0.virts, a) {
        var u :| u in w0.virts && w0.virts[u].connectedThrough == Some(a);
        assert VirtOk(w0.nets, w0.pas, w0.virts[u]);
        assert u in virts;
      }
    }
    hide VirtsOk, VirtsGoing, HasVirts;
  }

  ghost predicate SameBut(pas: map<Id, Pa>, pas': map<Id, Pa>, a: Id)
  {
    forall b :: b != a ==> (b in pas' <==> b in pas) && (b in pas ==> pas'[b] == pas[b])
  }

  lemma DetachedFrame(w: World, a: Id)
    requires a in w.pas
    ensures var pas' := Detached(w, a).pas;
            && Leaves(w.virts, a, w.pas[a], pas')
            && SameBut(w.pas, pas', a)
    ensures Detached(w, a).virts == w.virts
  {
    hide HasVirts;
  }

  lemma DetachingStep(w0: World, w: World, n: Id, todo: set<Id>, a: Id)
    requires PasDetaching(w0, w.pas, w.virts, n, todo) && a in todo
    ensures a in w.pas && PasDetaching(w0, Detached(w, a).pas, w.virts, n, todo - {a})
  {
    hide HasVirts, Detached;
    DetachedFrame(w, a);
  }

  lemma DetachingEnd(w0: World, w: World, n: Id, gone: set<Id>)
    requires PasDetaching(w0, w.pas, w.virts, n, {}) && VirtsGoing(w0.virts, w.virts, gone)
    requires forall v :: v in gone <==> v in w0.virts && w0.virts[v].net == n
    ensures PasFreed(w0.pas, w.pas, w.virts, {n}) && VirtsFreed(w0.virts, w.virts, {n})
  {
    hide HasVirts;
  }

  /** When its members were freed, a network that was never committed is empty, and one that was can be marked. */
  lemma NetReady(w: World, k: Kernel, w0: World, n: Id)
    requires Inv(w, k) && Inv(w0, k) && n in w.nets && w.nets == w0.nets
    requires PasFreed(w0.pas, w.pas, w.virts, {n}) && VirtsFreed(w0.virts, w.virts, {n})
    ensures w.nets[n].state == NEW ==> (forall a :: a in w.pas ==> w.pas[a].net != n) && (forall v :: v in w.virts ==> w.virts[v].net != n)
    ensures w.nets[n].state != NEW ==> NetEditOk(w, n, w.nets[n].(state := DELETE, pendingFree := true))
  {
    hide Mirrored, SettingsOk, PhysesOk, OneAttachment, PasHeld;
    assert NetOk(w.settings, w.nets[n]);
    NetReadyVirts(w, w0, n);
    NetReadyPas(w, w0, n);
  }

  lemma NetReadyVirts(w: World, w0: World, n: Id)
    requires VirtsFreed(w0.virts, w.virts, {n}) && VirtsOk(w0.nets, w0.pas, w0.virts) && n in w0.nets
    ensures forall v :: v in w.virts && w.virts[v].net == n ==> w.virts[v].state == DELETE
    ensures w0.nets[n].state == NEW ==> forall v :: v in w.virts ==> w.virts[v].net != n
  {
    forall v | v in w.virts && w.virts[v].net == n ensures w.virts[v].state == DELETE && w0.nets[n].state != NEW {
      assert VirtOk(w0.nets, w0.pas, w0.virts[v]);
    }
  }

  lemma NetReadyPas(w: World, w0: World, n: Id)
    requires PasFreed(w0.pas, w.pas, w.virts, {n}) && PasOk(w0.nets, w0.physes, w0.pas) && VirtsOk(w.nets, w.pas, w.virts) && n in w0.nets
    requires w0.nets[n].state == NEW ==> forall v :: v in w.virts ==> w.virts[v].net != n
    ensures forall a :: a in w.pas && w.pas[a].net == n ==> !w.pas[a].explicitlyAttached && (w.pas[a].state == DELETE || HasVirts(w.virts, a))
    ensures w0.nets[n].state == NEW ==> forall a :: a in w.pas ==> w.pas[a].net != n
  {
    forall a | a in w.pas && w.pas[a].net == n
      ensures !w.pas[a].explicitlyAttached && (w.pas[a].state == DELETE || HasVirts(w.virts, a)) && w0.nets[n].state != NEW
    {
      assert PaOk(w0.nets, w0.physes, w0.pas[a]);
      if HasVirts(w.virts, a) {
        var v :| v in w.virts && w.virts[v].connectedThrough == Some(a);
        assert VirtOk(w.nets, w.pas, w.virts[v]);
      }
    }
  }

  // ---------------------------------------------------------------- a phys

  /** `lsdn_virt_disconnect` */
  function Unplugged(r: Virt): Virt
    requires r.state != DELETE
  {
    if r.connectedThrough.None? then r else r.(connectedThrough := None, state := Renew(r.state))
  }

  lemma UnpluggedInv(w: World, k: Kernel, v: Id)
    requires Inv(w, k) && v in w.virts && w.virts[v].state != DELETE
    ensures Inv(VirtEdit(w, v, Unplugged(w.virts[v])), k)
  {
    if w.virts[v].connectedThrough.None? {
      assert VirtEdit(w, v, w.virts[v]) == w;
    } else {
      assert VirtOk(w.nets, w.pas, w.virts[v]);
      hide Inv;
      VirtEditInv(w, k, v, Unplugged(w.virts[v]));
    }
  }

  /** No virt that is being deleted is connected through the attachment: `renew` must not meet it. */
  ghost predicate Unpluggable(virts: map<Id, Virt>, a: Id)
  {
    forall v :: v in virts && virts[v].connectedThrough == Some(a) ==> virts[v].state != DELETE
  }

  ghost predicate VirtsUnplugged(virts0: map<Id, Virt>, virts: map<Id, Virt>, cleared: set<Id>)
  {
    && virts.Keys == virts0.Keys
    && (forall v :: v in virts ==>
          virts[v] == if virts0[v].connectedThrough.Some? && virts0[v].connectedThrough.value in cleared && virts0[v].state != DELETE
                      then Unplugged(virts0[v]) else virts0[v])
  }

  /** What is left of an attachment when its phys was freed. */
  ghost predicate PaCleared(a: Id, r: Pa, pas: map<Id, Pa>)
  {
    if r.state == NEW then a !in pas
    else a in pas && pas[a] == r.(explicitlyAttached := false, state := DELETE, pendingFree := true)
  }

  ghost predicate PasCleared(pas0: map<Id, Pa>, pas: map<Id, Pa>, cleared: set<Id>)
  {
    && (forall a :: a in pas ==> a in pas0)
    && (forall a :: a in pas0 && a !in cleared ==> a in pas && pas[a] == pas0[a])
    && (forall a :: a in pas0 && a in cleared ==> PaCleared(a, pas0[a], pas))
  }

  lemma ClearStep(w0: World, w: World, w1: World, cleared: set<Id>, a: Id)
    requires VirtsUnplugged(w0.virts, w.virts, cleared) && PasCleared(w0.pas, w.pas, cleared) && a !in cleared && a in w0.pas
    requires Unpluggable(w0.virts, a)
    requires VirtsUnplugged(w.virts, w1.virts, {a}) && w1.pas == w.pas
    ensures a in w1.pas && VirtsUnplugged(w0.virts, w1.virts, cleared + {a})
    ensures PasCleared(w0.pas, Detached(w1, a).pas, cleared + {a}) && Detached(w1, a).virts == w1.virts
  {
    ClearStepVirts(w0.virts, w.virts, w1.virts, cleared, a);
    hide Detached, VirtsUnplugged, HasVirts;
    DetachedFrame(w1, a);
    ClearStepPas(w0.pas, w.pas, Detached(w1, a).pas, cleared, a);
  }

  lemma ClearStepPas(pas0: map<Id, Pa>, pas: map<Id, Pa>, pas': map<Id, Pa>, cleared: set<Id>, a: Id)
    requires PasCleared(pas0, pas, cleared) && a in pas0 && a !in cleared && SameBut(pas, pas', a) && PaCleared(a, pas0[a], pas')
    ensures PasCleared(pas0, pas', cleared + {a})
  {}

  lemma ClearStepVirts(virts0: map<Id, Virt>, virts: map<Id, Virt>, virts1: map<Id, Virt>, cleared: set<Id>, a: Id)
    requires VirtsUnplugged(virts0, virts, cleared) && VirtsUnplugged(virts, virts1, {a}) && Unpluggable(virts0, a) && a !in cleared
    ensures VirtsUnplugged(virts0, virts1, cleared + {a}) && !HasVirts(virts1, a)
  {
    forall v | v in virts1 ensures virts1[v].connectedThrough != Some(a) {}
  }

  /** The attachments of a freed phys are all gone or marked, so that the phys can go too. */
  lemma PhysReady(w0: World, w: World, k: Kernel, p: Id, cleared: set<Id>)
    requires Inv(w, k) && PasOk(w0.nets, w0.physes, w0.pas) && PasCleared(w0.pas, w.pas, cleared) && p in w.physes && w.physes == w0.physes
    requires forall a :: a in cleared <==> a in w0.pas && w0.pas[a].phys == p
    ensures w.physes[p].state == NEW ==> forall a :: a in w.pas ==> w.pas[a].phys != p
    ensures w.physes[p].state != NEW ==> PhysEditOk(w, p, w.physes[p].(state := DELETE, pendingFree := true))
  {
    hide Mirrored, SettingsOk, NetsOk, OneAttachment, PasHeld, VirtsOk;
    assert PhysOk(w.physes[p]);
    forall a | a in w.pas && w.pas[a].phys == p ensures w.pas[a].state == DELETE && w.physes[p].state != NEW {
      assert PaOk(w0.nets, w0.physes, w0.pas[a]);
    }
  }

  // ---------------------------------------------------------------- connecting a virt

  lemma VirtNet(w: World, k: Kernel, v: Id)
    requires Inv(w, k) && v in w.virts && w.virts[v].state != DELETE
    ensures w.virts[v].net in w.nets && w.nets[w.virts[v].net].state != DELETE
  {
    hide Mirrored;
    assert VirtOk(w.nets, w.pas, w.virts[v]);
  }

  lemma VirtThrough(w: World, k: Kernel, v: Id)
    requires Inv(w, k) && v in w.virts
    ensures w.virts[v].connectedThrough.Some? ==> w.virts[v].connectedThrough.value in w.pas
  {
    hide Mirrored;
    assert VirtOk(w.nets, w.pas, w.virts[v]);
  }

  ghost function Connect(r: Virt, a: Id, iface: string): Virt
    requires r.state != DELETE
  {
    r.(connectedThrough := Some(a), connectedIf := iface, state := Renew(r.state))
  }

  lemma ConnectInv(w: World, k: Kernel, v: Id, a: Id, iface: string)
    requires Inv(w, k) && v in w.virts && w.virts[v].state != DELETE
    requires a in w.pas && w.pas[a].net == w.virts[v].net && w.pas[a].state != DELETE
    ensures Inv(VirtEdit(w, v, Connect(w.virts[v], a, iface)), k)
  {
    hide Mirrored, SettingsOk, NetsOk, PhysesOk, PasOk, OneAttachment, PasHeld;
    assert VirtOk(w.nets, w.pas, w.virts[v]);
    VirtEditInv(w, k, v, Connect(w.virts[v], a, iface));
  }

  /** `a` is the attachment of `p` to the network of `v`, found or made at `addr`, and `v` is connected through it now. */
  ghost predicate ConnectedBy(w0: World, w: World, v: Id, p: Id, iface: string, addr: Id, a: Id)
  {
    && v in w0.virts && w0.virts[v].state != DELETE
    && var w1 := if a in w0.pas then w0 else PaAdd(w0, a, Pa(NEW, false, w0.virts[v].net, p, false));
       && (a in w0.pas || a == addr) && w1.pas[a].phys == p && w1.pas[a].net == w0.virts[v].net
       && w == VirtEdit(w1, v, Connect(w0.virts[v], a, iface))
  }

  lemma ConnectedByIntro(w0: World, w: World, v: Id, p: Id, iface: string, addr: Id, a: Id)
    requires v in w0.virts && w0.virts[v].state != DELETE && a in w.pas && w.pas[a].phys == p && w.pas[a].net == w0.virts[v].net
    requires if a in w0.pas then w.pas == w0.pas else a == addr && w.pas == w0.pas[a := Pa(NEW, false, w0.virts[v].net, p, false)]
    requires w == w0.(pas := w.pas, virts := w0.virts[v := Connect(w0.virts[v], a, iface)])
    ensures ConnectedBy(w0, w, v, p, iface, addr, a)
  {}

  /** What a connected virt is: connected, through an attachment of `p` to its own network, on the interface given. */
  lemma ConnectedByMeans(w0: World, w: World, v: Id, p: Id, iface: string, addr: Id, a: Id)
    requires ConnectedBy(w0, w, v, p, iface, addr, a)
    ensures w.virts.Keys == w0.virts.Keys && forall u :: u in w.virts && u != v ==> w.virts[u] == w0.virts[u]
    ensures v in w.virts && w.virts[v].connectedThrough == Some(a)
    ensures w.virts[v] == w0.virts[v].(connectedThrough := Some(a), connectedIf := iface, state := w.virts[v].state)
    ensures w.virts[v].state == if w0.virts[v].state == OK then RENEW else w0.virts[v].state
    ensures a in w.pas && w.pas[a].phys == p && w.pas[a].net == w0.virts[v].net
    ensures forall b :: b in w0.pas ==> b in w.pas && w.pas[b] == w0.pas[b]
    ensures forall b :: b in w.pas && b !in w0.pas ==> b == addr && b == a && w.pas[b] == Pa(NEW, false, w0.virts[v].net, p, false)
  {}

  lemma GoingStart(w: World)
    ensures VirtsGoing(w.virts, w.virts, {}) && PasGoing(w, w.pas, w.virts)
  {
    hide HasVirts;
  }

  lemma NetFreeMiddle(w0: World, w: World, k: Kernel, n: Id, gone: set<Id>, todo: set<Id>)
    requires Inv(w0, k) && PasGoing(w0, w.pas, w.virts) && VirtsGoing(w0.virts, w.virts, gone)
    requires forall v :: v in gone <==> v in w0.virts && w0.virts[v].net == n
    requires forall a :: a in todo <==> a in w.pas && w.pas[a].net == n
    ensures PasDetaching(w0, w.pas, w.virts, n, todo)
  {
    hide Mirrored, PasGoing, VirtsGoing, PasDetaching;
    DetachingStart(w0, w.pas, w.virts, n, gone, todo);
  }

  // ---------------------------------------------------------------- settings

  function NetsOf(nets: map<Id, Net>, s: Id): set<Id>
  {
    set n | n in nets && nets[n].settings == s
  }

  function PasOf(pas: map<Id, Pa>, p: Id): set<Id>
  {
    set a | a in pas && pas[a].phys == p
  }

  lemma FreedStart(w: World)
    ensures Freed(w, w, {})
  {
    hide HasVirts;
  }

  lemma ClearStart(w: World)
    ensures VirtsUnplugged(w.virts, w.virts, {}) && PasCleared(w.pas, w.pas, {})
  {}

  lemma FreedNets(w: World, w': World, freed: set<Id>)
    requires Freed(w, w', freed)
    ensures forall n :: n in w.nets && n !in freed ==> n in w'.nets
    ensures w'.settings == w.settings
  {}

  lemma InvVirtsOk(w: World, k: Kernel)
    requires Inv(w, k)
    ensures VirtsOk(w.nets, w.pas, w.virts)
  {}

  lemma InvPasOk(w: World, k: Kernel)
    requires Inv(w, k)
    ensures PasOk(w.nets, w.physes, w.pas)
  {}

  lemma StillUnpluggable(virts0: map<Id, Virt>, virts: map<Id, Virt>, cleared: set<Id>, a: Id)
    requires VirtsUnplugged(virts0, virts, cleared) && Unpluggable(virts0, a)
    ensures Unpluggable(virts, a)
  {}

  lemma SettingsReady(w0: World, w: World, k: Kernel, s: Id)
    requires Inv(w0, k) && Inv(w, k) && Freed(w0, w, NetsOf(w0.nets, s)) && s in w.settings
    ensures w.settings[s].state == NEW ==> forall n :: n in w.nets ==> w.nets[n].settings != s
    ensures w.settings[s].state != NEW ==> SettingsEditOk(w, s, w.settings[s].(state := DELETE, pendingFree := true))
  {
    hide Mirrored, PhysesOk, OneAttachment, PasHeld, PasOk, VirtsOk, PasFreed, VirtsFreed;
    forall n | n in w.nets && w.nets[n].settings == s ensures w.nets[n].state == DELETE && w.settings[s].state != NEW {
      assert NetOk(w0.settings, w0.nets[n]);
    }
  }

  /** No virt that is being deleted is still connected: the state after every commit. */
  ghost predicate NoDoomedPlugged(virts: map<Id, Virt>)
  {
    forall v :: v in virts && virts[v].state == DELETE ==> virts[v].connectedThrough.None?
  }

  lemma StillNoDoomedPlugged(virts0: map<Id, Virt>, virts: map<Id, Virt>, cleared: set<Id>)
    requires VirtsUnplugged(virts0, virts, cleared) && NoDoomedPlugged(virts0)
    ensures NoDoomedPlugged(virts)
  {}
}
