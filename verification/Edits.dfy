/** Every change that an API call makes to the model, and why the invariant survives it. */
module Edits {
  import opened Base
  import opened States
  import opened Netmodel
  import opened Invariant

  /** How an API call may move a commit state: an update renews, a free deletes, nothing is revived. */
  predicate Advance(s: State, t: State)
  {
    s == t || (s == OK && t == RENEW) || (s in {OK, RENEW} && t == DELETE)
  }

  // ---------------------------------------------------------------- updating a virt

  ghost function VirtEdit(w: World, v: Id, r: Virt): World { w.(virts := w.virts[v := r]) }

  /** An update, a reconnection or a deletion of a virt: whatever changes, the virt does not stay OK. */
  ghost predicate VirtEditOk(w: World, v: Id, r: Virt)
  {
    && v in w.virts
    && r.net == w.virts[v].net && r.committedTo == w.virts[v].committedTo && r.committedIf == w.virts[v].committedIf
    && Advance(w.virts[v].state, r.state) && (r.pendingFree <==> r.state == DELETE)
    && (r.state == OK ==> r == w.virts[v])
    && (r.state == DELETE ==> r.connectedThrough == w.virts[v].connectedThrough)
    && (r.connectedThrough.Some? && r.connectedThrough != w.virts[v].connectedThrough ==>
          var a := r.connectedThrough.value; a in w.pas && w.pas[a].net == r.net && w.pas[a].state != DELETE)
  }

  lemma VirtEditCoherent(w: World, v: Id, r: Virt)
    requires Coherent(w) && VirtEditOk(w, v, r)
    ensures Coherent(VirtEdit(w, v, r))
  {
    var w' := VirtEdit(w, v, r);
    forall a | a in w.pas && w.pas[a].net in w.nets && w.nets[w.pas[a].net].state == DELETE && w.pas[a].state != DELETE
      ensures HasVirts(w'.virts, a)
    {
      var u :| u in w.virts && w.virts[u].connectedThrough == Some(a);
      assert u in w'.virts;
    }
  }

  lemma VirtEditMirrored(w: World, k: Kernel, v: Id, r: Virt)
    requires Mirrored(w, k) && VirtEditOk(w, v, r)
    ensures Mirrored(VirtEdit(w, v, r), k)
  {
    hide PasMirrored, ViewsMirrored;
  }

  lemma VirtEditInv(w: World, k: Kernel, v: Id, r: Virt)
    requires Inv(w, k) && VirtEditOk(w, v, r)
    ensures Inv(VirtEdit(w, v, r), k)
  {
    hide Coherent, Mirrored, VirtEdit, VirtEditOk;
    VirtEditCoherent(w, v, r);
    VirtEditMirrored(w, k, v, r);
  }

  // ---------------------------------------------------------------- updating an attachment

  ghost function PaEdit(w: World, a: Id, r: Pa): World { w.(pas := w.pas[a := r]) }

  /** Attaching, detaching or deleting an attachment; a deleted one must be empty. */
  ghost predicate PaEditOk(w: World, a: Id, r: Pa)
  {
    && a in w.pas && r.net == w.pas[a].net && r.phys == w.pas[a].phys
    && Advance(w.pas[a].state, r.state) && (r.pendingFree <==> r.state == DELETE)
    && PaOk(w.nets, w.physes, r)
    && (r.state == DELETE ==> !HasVirts(w.virts, a))
  }

  lemma PaEditCoherent(w: World, a: Id, r: Pa)
    requires Coherent(w) && PaEditOk(w, a, r)
    ensures Coherent(PaEdit(w, a, r))
  {}

  /** Two tables of attachments that tell the same about what is installed. */
  ghost predicate SameInstalled(pas: map<Id, Pa>, pas': map<Id, Pa>)
  {
    && pas.Keys == pas'.Keys
    && forall a :: a in pas ==> pas'[a].net == pas[a].net && pas'[a].phys == pas[a].phys && (pas'[a].state == NEW <==> pas[a].state == NEW)
  }

  lemma SamePasMirrored(nets: map<Id, Net>, physes: map<Id, Phys>, pas: map<Id, Pa>, pas': map<Id, Pa>, k: Kernel)
    requires SameInstalled(pas, pas') && PasMirrored(nets, physes, pas, k.pas)
    ensures PasMirrored(nets, physes, pas', k.pas)
  {}

  lemma SameViewsMirrored(physes: map<Id, Phys>, pas: map<Id, Pa>, pas': map<Id, Pa>, k: Kernel)
    requires SameInstalled(pas, pas') && ViewsMirrored(physes, pas, k.views)
    ensures ViewsMirrored(physes, pas', k.views)
  {
    forall x ensures ViewLive(physes, pas', x) <==> ViewLive(physes, pas, x) {}
  }

  lemma SameVirtsMirrored(pas: map<Id, Pa>, pas': map<Id, Pa>, virts: map<Id, Virt>, k: Kernel)
    requires SameInstalled(pas, pas') && VirtsMirrored(pas, virts, k.pas, k.virts)
    ensures VirtsMirrored(pas', virts, k.pas, k.virts)
  {}

  lemma PaEditInv(w: World, k: Kernel, a: Id, r: Pa)
    requires Inv(w, k) && PaEditOk(w, a, r)
    ensures Inv(PaEdit(w, a, r), k)
  {
    hide Coherent, PasMirrored, ViewsMirrored, VirtsMirrored, VirtViewsMirrored, HasVirts, PaOk;
    PaEditCoherent(w, a, r);
    SamePasMirrored(w.nets, w.physes, w.pas, PaEdit(w, a, r).pas, k);
    SameViewsMirrored(w.physes, w.pas, PaEdit(w, a, r).pas, k);
    SameVirtsMirrored(w.pas, PaEdit(w, a, r).pas, w.virts, k);
  }

  // ---------------------------------------------------------------- updating a phys

  /** Two tables of physes that tell the same about the committed attachments. */
  ghost predicate PhysesAgree(physes: map<Id, Phys>, physes': map<Id, Phys>, pas: map<Id, Pa>)
  {
    && (forall a :: a in pas && pas[a].state != NEW ==> (pas[a].phys in physes <==> pas[a].phys in physes'))
    && (forall a :: a in pas && pas[a].state != NEW && pas[a].phys in physes ==> PhysAgrees(physes[pas[a].phys], physes'[pas[a].phys]))
  }

  ghost predicate PhysAgrees(r: Phys, r': Phys)
  {
    r'.committedAsLocal == r.committedAsLocal && (r'.state == OK ==> r == r')
  }

  lemma AgreeLive(physes: map<Id, Phys>, physes': map<Id, Phys>, pas: map<Id, Pa>)
    requires PhysesAgree(physes, physes', pas)
    ensures forall a :: Live(physes, pas, a) <==> Live(physes', pas, a)
  {}

  lemma AgreePasMirrored(nets: map<Id, Net>, physes: map<Id, Phys>, physes': map<Id, Phys>, pas: map<Id, Pa>, k: Kernel)
    requires PhysesAgree(physes, physes', pas) && PasMirrored(nets, physes, pas, k.pas)
    ensures PasMirrored(nets, physes', pas, k.pas)
  {
    AgreeLive(physes, physes', pas);
  }

  lemma AgreeViewsMirrored(physes: map<Id, Phys>, physes': map<Id, Phys>, pas: map<Id, Pa>, k: Kernel)
    requires PhysesAgree(physes, physes', pas) && ViewsMirrored(physes, pas, k.views)
    ensures ViewsMirrored(physes', pas, k.views)
  {
    AgreeLive(physes, physes', pas);
    forall x: View ensures ViewLive(physes', pas, x) <==> ViewLive(physes, pas, x) {}
  }

  lemma AgreeMirrored(w: World, k: Kernel, physes': map<Id, Phys>)
    requires Mirrored(w, k) && PhysesAgree(w.physes, physes', w.pas)
    ensures Mirrored(w.(physes := physes'), k)
  {
    hide PasMirrored, ViewsMirrored, VirtsMirrored, VirtViewsMirrored, PhysesAgree;
    AgreePasMirrored(w.nets, w.physes, physes', w.pas, k);
    AgreeViewsMirrored(w.physes, physes', w.pas, k);
  }

  ghost function PhysEdit(w: World, p: Id, r: Phys): World { w.(physes := w.physes[p := r]) }

  /** An update, a claim or a deletion of a phys; a deleted one has only deleted attachments. */
  ghost predicate PhysEditOk(w: World, p: Id, r: Phys)
  {
    && p in w.physes && r.committedAsLocal == w.physes[p].committedAsLocal
    && Advance(w.physes[p].state, r.state) && PhysOk(r)
    && (r.state == OK ==> r == w.physes[p])
    && (r.state == DELETE ==> forall a :: a in w.pas && w.pas[a].phys == p ==> w.pas[a].state == DELETE)
  }

  lemma PhysEditCoherent(w: World, p: Id, r: Phys)
    requires Coherent(w) && PhysEditOk(w, p, r)
    ensures Coherent(PhysEdit(w, p, r))
  {}

  lemma PhysEditMirrored(w: World, k: Kernel, p: Id, r: Phys)
    requires Mirrored(w, k) && PhysEditOk(w, p, r)
    ensures Mirrored(PhysEdit(w, p, r), k)
  {
    hide Mirrored;
    AgreeMirrored(w, k, w.physes[p := r]);
  }

  lemma PhysEditInv(w: World, k: Kernel, p: Id, r: Phys)
    requires Inv(w, k) && PhysEditOk(w, p, r)
    ensures Inv(PhysEdit(w, p, r), k)
  {
    hide Coherent, Mirrored, PhysEdit, PhysEditOk;
    PhysEditCoherent(w, p, r);
    PhysEditMirrored(w, k, p, r);
  }

  // ---------------------------------------------------------------- deleting a network or a settings object

  ghost function NetEdit(w: World, n: Id, r: Net): World { w.(nets := w.nets[n := r]) }

  ghost predicate NetEditOk(w: World, n: Id, r: Net)
  {
    && n in w.nets && w.nets[n].state in {OK, DELETE} && r == w.nets[n].(state := DELETE, pendingFree := true)
    && (forall v :: v in w.virts && w.virts[v].net == n ==> w.virts[v].state == DELETE)
    && (forall a :: a in w.pas && w.pas[a].net == n ==>
          !w.pas[a].explicitlyAttached && (w.pas[a].state == DELETE || HasVirts(w.virts, a)))
  }

  lemma NetEditInv(w: World, k: Kernel, n: Id, r: Net)
    requires Inv(w, k) && NetEditOk(w, n, r)
    ensures Inv(NetEdit(w, n, r), k)
  {
    hide PasMirrored, ViewsMirrored, VirtsMirrored, VirtViewsMirrored, OneAttachment, PhysesOk, SettingsOk, NetsOk, PasOk, VirtsOk, PasHeld, NetEditOk;
    NetEditNets(w, n, r);
    NetEditPas(w, k, n, r);
    NetEditVirts(w, n, r);
  }

  lemma NetEditNets(w: World, n: Id, r: Net)
    requires NetsOk(w.settings, w.nets) && NetEditOk(w, n, r)
    ensures NetsOk(w.settings, w.nets[n := r])
  {
    assert NetOk(w.settings, w.nets[n]);
  }

  lemma NetEditPas(w: World, k: Kernel, n: Id, r: Net)
    requires PasOk(w.nets, w.physes, w.pas) && PasMirrored(w.nets, w.physes, w.pas, k.pas) && NetEditOk(w, n, r)
    ensures PasOk(w.nets[n := r], w.physes, w.pas) && PasMirrored(w.nets[n := r], w.physes, w.pas, k.pas)
  {
    hide HasVirts;
  }

  lemma NetEditVirts(w: World, n: Id, r: Net)
    requires VirtsOk(w.nets, w.pas, w.virts) && PasHeld(w.nets, w.pas, w.virts) && NetEditOk(w, n, r)
    ensures VirtsOk(w.nets[n := r], w.pas, w.virts) && PasHeld(w.nets[n := r], w.pas, w.virts)
  {
    hide HasVirts;
  }

  ghost function SettingsEdit(w: World, s: Id, r: Settings): World { w.(settings := w.settings[s := r]) }

  ghost predicate SettingsEditOk(w: World, s: Id, r: Settings)
  {
    && s in w.settings && w.settings[s].state in {OK, DELETE} && r == w.settings[s].(state := DELETE, pendingFree := true)
    && (forall n :: n in w.nets && w.nets[n].settings == s ==> w.nets[n].state == DELETE)
  }

  lemma SettingsEditInv(w: World, k: Kernel, s: Id, r: Settings)
    requires Inv(w, k) && SettingsEditOk(w, s, r)
    ensures Inv(SettingsEdit(w, s, r), k)
  {
    hide PasMirrored, ViewsMirrored, VirtsMirrored, VirtViewsMirrored, OneAttachment, PhysesOk, PasOk, VirtsOk, PasHeld;
  }

  // ---------------------------------------------------------------- new objects

  lemma SettingsAddInv(w: World, k: Kernel, s: Id, r: Settings)
    requires Inv(w, k) && s !in w.settings && r == Settings(NEW, false)
    ensures Inv(w.(settings := w.settings[s := r]), k)
  {
    hide PasMirrored, ViewsMirrored, VirtsMirrored, VirtViewsMirrored, OneAttachment, PhysesOk, PasOk, VirtsOk, PasHeld;
  }

  lemma NetAddInv(w: World, k: Kernel, n: Id, r: Net)
    requires Inv(w, k) && n !in w.nets && r.state == NEW && !r.pendingFree
    requires r.settings in w.settings && w.settings[r.settings].state != DELETE
    ensures Inv(w.(nets := w.nets[n := r]), k)
  {
    hide ViewsMirrored, VirtsMirrored, VirtViewsMirrored, OneAttachment, PhysesOk, SettingsOk;
  }

  ghost function PhysAdd(w: World, p: Id, r: Phys): World { w.(physes := w.physes[p := r]) }

  lemma PhysAddMirrored(w: World, k: Kernel, p: Id, r: Phys)
    requires Mirrored(w, k) && p !in w.physes && !r.committedAsLocal && PasOk(w.nets, w.physes, w.pas)
    ensures Mirrored(PhysAdd(w, p, r), k)
  {
    hide Mirrored;
    AgreeMirrored(w, k, w.physes[p := r]);
  }

  lemma PhysAddInv(w: World, k: Kernel, p: Id, r: Phys)
    requires Inv(w, k) && p !in w.physes && r.state == NEW && !r.pendingFree && !r.committedAsLocal
    ensures Inv(PhysAdd(w, p, r), k)
  {
    hide Mirrored, OneAttachment, SettingsOk, NetsOk, VirtsOk, PasHeld;
    PhysAddMirrored(w, k, p, r);
  }

  ghost function PaAdd(w: World, a: Id, r: Pa): World { w.(pas := w.pas[a := r]) }

  ghost predicate PaAddOk(w: World, a: Id, r: Pa)
  {
    && a !in w.pas && r.state == NEW && !r.pendingFree && !r.explicitlyAttached
    && r.net in w.nets && w.nets[r.net].state != DELETE && r.phys in w.physes && w.physes[r.phys].state != DELETE
    && (forall b :: b in w.pas ==> w.pas[b].net != r.net || w.pas[b].phys != r.phys)
  }

  lemma PaAddMirrored(w: World, k: Kernel, a: Id, r: Pa)
    requires Mirrored(w, k) && PaAddOk(w, a, r) && VirtsOk(w.nets, w.pas, w.virts)
    ensures Mirrored(PaAdd(w, a, r), k)
  {
    hide VirtViewsMirrored, VirtsMirrored, VirtsOk, PasMirrored, ViewsMirrored, PaAddOk;
    PaAddPasMirrored(w, k, a, r);
    PaAddViewsMirrored(w, k, a, r);
    PaAddVirtsMirrored(w, k, a, r);
  }

  lemma PaAddPasMirrored(w: World, k: Kernel, a: Id, r: Pa)
    requires PasMirrored(w.nets, w.physes, w.pas, k.pas) && PaAddOk(w, a, r)
    ensures PasMirrored(w.nets, w.physes, w.pas[a := r], k.pas)
  {
    assert forall b :: Live(w.physes, w.pas, b) <==> Live(w.physes, w.pas[a := r], b);
  }

  lemma PaAddViewsMirrored(w: World, k: Kernel, a: Id, r: Pa)
    requires ViewsMirrored(w.physes, w.pas, k.views) && PaAddOk(w, a, r)
    ensures ViewsMirrored(w.physes, w.pas[a := r], k.views)
  {
    forall x: View ensures ViewLive(w.physes, w.pas, x) <==> ViewLive(w.physes, w.pas[a := r], x) {}
  }

  lemma PaAddVirtsMirrored(w: World, k: Kernel, a: Id, r: Pa)
    requires VirtsMirrored(w.pas, w.virts, k.pas, k.virts) && PaAddOk(w, a, r) && VirtsOk(w.nets, w.pas, w.virts)
    ensures VirtsMirrored(w.pas[a := r], w.virts, k.pas, k.virts)
  {}

  lemma PaAddInv(w: World, k: Kernel, a: Id, r: Pa)
    requires Inv(w, k) && PaAddOk(w, a, r)
    ensures Inv(PaAdd(w, a, r), k)
  {
    hide Mirrored;
    PaAddMirrored(w, k, a, r);
  }

  lemma VirtAddInv(w: World, k: Kernel, v: Id, r: Virt)
    requires Inv(w, k) && v !in w.virts && r.state == NEW && !r.pendingFree
    requires r.net in w.nets && w.nets[r.net].state != DELETE
    requires r.connectedThrough.None? && r.committedTo.None? && r.committedIf == ""
    ensures Inv(w.(virts := w.virts[v := r]), k)
  {
    hide PasMirrored, ViewsMirrored, OneAttachment, SettingsOk, NetsOk, PhysesOk, PasOk, VirtsOk, VirtsMirrored, VirtViewsMirrored, PasHeld;
    VirtAddCoherent(w, v, r);
    VirtAddMirrored(w, k, v, r);
  }

  lemma VirtAddCoherent(w: World, v: Id, r: Virt)
    requires VirtsOk(w.nets, w.pas, w.virts) && PasHeld(w.nets, w.pas, w.virts)
    requires v !in w.virts && r.state == NEW && !r.pendingFree && r.net in w.nets && w.nets[r.net].state != DELETE && r.connectedThrough.None?
    ensures VirtsOk(w.nets, w.pas, w.virts[v := r]) && PasHeld(w.nets, w.pas, w.virts[v := r])
  {
    forall a: Id | HasVirts(w.virts, a) ensures HasVirts(w.virts[v := r], a) {
      var u :| u in w.virts && w.virts[u].connectedThrough == Some(a);
      assert u in w.virts[v := r];
    }
  }

  lemma VirtAddMirrored(w: World, k: Kernel, v: Id, r: Virt)
    requires VirtsMirrored(w.pas, w.virts, k.pas, k.virts) && VirtViewsMirrored(w.virts, k.views, k.virtViews)
    requires v !in w.virts && r.state == NEW && r.committedTo.None? && r.committedIf == ""
    ensures VirtsMirrored(w.pas, w.virts[v := r], k.pas, k.virts) && VirtViewsMirrored(w.virts[v := r], k.views, k.virtViews)
  {}
}
