/** What freeing objects does to the model (the `*_do_free` functions and `free_pa_if_possible`),
    and why the invariant survives it. */
module Removals {
  import opened Base
  import opened States
  import opened Netmodel
  import opened Invariant
  import opened Edits

  /** `free_pa_if_possible`: an attachment that nobody needs goes at once if it was never committed, at the next commit otherwise. */
  ghost function FreePa(w: World, a: Id): World
    requires a in w.pas
  {
    if HasVirts(w.virts, a) || w.pas[a].explicitlyAttached then w
    else if w.pas[a].state == NEW then w.(pas := w.pas - {a})
    else PaEdit(w, a, w.pas[a].(state := DELETE, pendingFree := true))
  }

  ghost function WithoutVirt(w: World, v: Id): World { w.(virts := w.virts - {v}) }

  /** `virt_do_free` */
  ghost function FreeVirt(w: World, v: Id): World
    requires v in w.virts && (w.virts[v].connectedThrough.Some? ==> w.virts[v].connectedThrough.value in w.pas)
  {
    if w.virts[v].connectedThrough.Some? then FreePa(WithoutVirt(w, v), w.virts[v].connectedThrough.value)
    else WithoutVirt(w, v)
  }

  /** The virt is out of the kernel. */
  ghost predicate Uninstalled(k: Kernel, v: Id)
  {
    v !in k.virts && forall y :: y in k.virtViews ==> y.virt != v
  }

  lemma WithoutVirtMirrored(w: World, k: Kernel, v: Id)
    requires Mirrored(w, k) && v in w.virts && Uninstalled(k, v)
    ensures Mirrored(WithoutVirt(w, v), k)
  {
    hide PasMirrored, ViewsMirrored;
  }

  lemma FreePaMirrored(w: World, k: Kernel, a: Id)
    requires Mirrored(w, k) && a in w.pas && w.pas[a].state in {NEW, RENEW, OK, DELETE}
    ensures Mirrored(FreePa(w, a), k)
  {
    hide HasVirts;
    if HasVirts(w.virts, a) || w.pas[a].explicitlyAttached {
    } else if w.pas[a].state == NEW {
      WithoutNewPaMirrored(w, k, a);
    } else {
      hide PasMirrored, ViewsMirrored, VirtsMirrored, VirtViewsMirrored;
      var pas' := FreePa(w, a).pas;
      SamePasMirrored(w.nets, w.physes, w.pas, pas', k);
      SameViewsMirrored(w.physes, w.pas, pas', k);
      SameVirtsMirrored(w.pas, pas', w.virts, k);
    }
  }

  lemma WithoutNewPaMirrored(w: World, k: Kernel, a: Id)
    requires Mirrored(w, k) && a in w.pas && w.pas[a].state == NEW
    ensures Mirrored(w.(pas := w.pas - {a}), k)
  {
    hide VirtViewsMirrored, VirtsMirrored;
    var pas' := w.pas - {a};
    assert forall b :: Live(w.physes, pas', b) <==> Live(w.physes, w.pas, b);
    assert a !in k.pas;
    WithoutNewPaVirts(w, k, a);
  }

  lemma WithoutNewPaVirts(w: World, k: Kernel, a: Id)
    requires VirtsMirrored(w.pas, w.virts, k.pas, k.virts) && a !in k.pas
    ensures VirtsMirrored(w.pas - {a}, w.virts, k.pas, k.virts)
  {}

  lemma FreeVirtCoherent(w: World, v: Id)
    requires Coherent(w) && v in w.virts
    ensures Coherent(FreeVirt(w, v))
  {
    hide OneAttachment, PasHeld;
    var a, w1, w' := w.virts[v].connectedThrough, WithoutVirt(w, v), FreeVirt(w, v);
    FreeVirtHeld(w, v);
    assert OneAttachment(w'.pas) by { FreeVirtOneAttachment(w, v); }
    if a.Some? {
      assert forall u :: u in w1.virts && w1.virts[u].connectedThrough == a ==> HasVirts(w1.virts, a.value);
    }
  }

  lemma FreeVirtOneAttachment(w: World, v: Id)
    requires VirtsOk(w.nets, w.pas, w.virts) && v in w.virts && OneAttachment(w.pas)
    ensures OneAttachment(FreeVirt(w, v).pas)
  {}

  lemma FreeVirtHeld(w: World, v: Id)
    requires VirtsOk(w.nets, w.pas, w.virts) && v in w.virts && PasHeld(w.nets, w.pas, w.virts)
    requires PasOk(w.nets, w.physes, w.pas)
    ensures PasHeld(w.nets, FreeVirt(w, v).pas, FreeVirt(w, v).virts)
  {
    var w' := FreeVirt(w, v);
    forall a | a in w'.pas && w'.pas[a].net in w.nets && w.nets[w'.pas[a].net].state == DELETE && w'.pas[a].state != DELETE
      ensures HasVirts(w'.virts, a)
    {
      var u :| u in w.virts && w.virts[u].connectedThrough == Some(a);
      assert u != v ==> u in w'.virts;
    }
  }

  lemma FreeVirtInv(w: World, k: Kernel, v: Id)
    requires Inv(w, k) && v in w.virts && Uninstalled(k, v)
    ensures w.virts[v].connectedThrough.Some? ==> w.virts[v].connectedThrough.value in w.pas
    ensures Inv(FreeVirt(w, v), k)
  {
    hide Mirrored, PasHeld, OneAttachment, HasVirts, FreePa, Uninstalled;
    FreeVirtCoherent(w, v);
    WithoutVirtMirrored(w, k, v);
    if w.virts[v].connectedThrough.Some? {
      FreePaMirrored(WithoutVirt(w, v), k, w.virts[v].connectedThrough.value);
    }
  }

  lemma FreePaInv(w: World, k: Kernel, a: Id)
    requires Inv(w, k) && a in w.pas
    ensures Inv(FreePa(w, a), k)
  {
    hide Mirrored;
    FreePaMirrored(w, k, a);
  }

  // ---------------------------------------------------------------- containers, which must be empty

  lemma WithoutNetInv(w: World, k: Kernel, n: Id)
    requires Inv(w, k) && n in w.nets
    requires forall a :: a in w.pas ==> w.pas[a].net != n
    requires forall v :: v in w.virts ==> w.virts[v].net != n
    ensures Inv(w.(nets := w.nets - {n}), k)
  {
    hide ViewsMirrored, VirtsMirrored, VirtViewsMirrored, OneAttachment, PhysesOk, SettingsOk;
  }

  lemma WithoutPhysInv(w: World, k: Kernel, p: Id)
    requires Inv(w, k) && p in w.physes
    requires forall a :: a in w.pas ==> w.pas[a].phys != p
    ensures Inv(w.(physes := w.physes - {p}), k)
  {
    hide Mirrored, OneAttachment, SettingsOk, NetsOk, VirtsOk, PasHeld;
    AgreeMirrored(w, k, w.physes - {p});
  }

  lemma WithoutSettingsInv(w: World, k: Kernel, s: Id)
    requires Inv(w, k) && s in w.settings
    requires forall n :: n in w.nets ==> w.nets[n].settings != s
    ensures Inv(w.(settings := w.settings - {s}), k)
  {
    hide PasMirrored, ViewsMirrored, VirtsMirrored, VirtViewsMirrored, OneAttachment, PhysesOk, PasOk, VirtsOk, PasHeld;
  }

  // ---------------------------------------------------------------- API calls

  lemma RenewedVirtInv(w: World, k: Kernel, v: Id, r: Virt)
    requires Inv(w, k) && v in w.virts && w.virts[v].state != DELETE
    requires r == w.virts[v].(attrs := r.attrs, state := Renew(w.virts[v].state))
    ensures Inv(VirtEdit(w, v, r), k)
  {
    assert VirtEditOk(w, v, r) by { assert VirtOk(w.nets, w.pas, w.virts[v]); }
    hide Inv, VirtEditOk;
    VirtEditInv(w, k, v, r);
  }

  lemma OneAttachmentOf(w: World, k: Kernel, a: Id)
    requires Inv(w, k) && a in w.pas
    ensures forall b :: b in w.pas && w.pas[b].net == w.pas[a].net && w.pas[b].phys == w.pas[a].phys ==> b == a
  {
    hide Mirrored;
  }

  /** Attaching explicitly renews the phys. */
  ghost function Attach(w: World, a: Id): World
    requires a in w.pas && w.pas[a].phys in w.physes && w.physes[w.pas[a].phys].state != DELETE
  {
    var p := w.pas[a].phys;
    if w.pas[a].explicitlyAttached then w
    else PaEdit(PhysEdit(w, p, w.physes[p].(state := Renew(w.physes[p].state))), a, w.pas[a].(explicitlyAttached := true))
  }

  lemma AttachInv(w: World, k: Kernel, a: Id)
    requires Inv(w, k) && a in w.pas && w.pas[a].state != DELETE && w.pas[a].phys in w.physes && w.physes[w.pas[a].phys].state != DELETE
    requires w.pas[a].net in w.nets && w.nets[w.pas[a].net].state != DELETE
    ensures Inv(Attach(w, a), k)
  {
    var p := w.pas[a].phys;
    var w1 := PhysEdit(w, p, w.physes[p].(state := Renew(w.physes[p].state)));
    AttachOk(w, k, a);
    hide Inv, PhysEditOk, PaEditOk;
    if !w.pas[a].explicitlyAttached {
      PhysEditInv(w, k, p, w.physes[p].(state := Renew(w.physes[p].state)));
      PaEditInv(w1, k, a, w.pas[a].(explicitlyAttached := true));
    }
  }

  lemma AttachOk(w: World, k: Kernel, a: Id)
    requires Inv(w, k) && a in w.pas && w.pas[a].state != DELETE && w.pas[a].phys in w.physes && w.physes[w.pas[a].phys].state != DELETE
    requires w.pas[a].net in w.nets && w.nets[w.pas[a].net].state != DELETE
    ensures var p := w.pas[a].phys; var r := w.physes[p].(state := Renew(w.physes[p].state));
            PhysEditOk(w, p, r) && PaEditOk(PhysEdit(w, p, r), a, w.pas[a].(explicitlyAttached := true))
  {
    hide Mirrored, OneAttachment, PasHeld, VirtsOk, SettingsOk, NetsOk;
    assert PaOk(w.nets, w.physes, w.pas[a]) && PhysOk(w.physes[w.pas[a].phys]);
  }

  /** `a` is the attachment of `p` to `n`, found or made at `addr`, and it is attached explicitly now. */
  ghost predicate AttachedBy(w0: World, w: World, p: Id, n: Id, addr: Id, a: Id)
  {
    var w1 := if a in w0.pas then w0 else PaAdd(w0, a, Pa(NEW, false, n, p, false));
    && (a in w0.pas || a == addr) && w1.pas[a].phys == p && w1.pas[a].net == n
    && p in w1.physes && w1.physes[p].state != DELETE
    && w == Attach(w1, a)
  }

  lemma AttachedByIntro(w0: World, w1: World, w: World, p: Id, n: Id, addr: Id, a: Id)
    requires a in w1.pas && w1.pas[a].phys == p && w1.pas[a].net == n && p in w1.physes && w1.physes[p].state != DELETE
    requires w1 == w0.(pas := w1.pas)
    requires if a in w0.pas then w1.pas == w0.pas else a == addr && w1.pas == w0.pas[a := Pa(NEW, false, n, p, false)]
    requires w == Attach(w1, a)
    ensures AttachedBy(w0, w, p, n, addr, a)
  {}

  /** What an explicit attachment changes: the flag of the one attachment concerned, which may be new. */
  lemma AttachedByMeans(w0: World, w: World, p: Id, n: Id, addr: Id, a: Id)
    requires AttachedBy(w0, w, p, n, addr, a)
    ensures a in w.pas && w.pas[a].phys == p && w.pas[a].net == n && w.pas[a].explicitlyAttached
    ensures forall b :: b in w0.pas ==> b in w.pas && w.pas[b] == if b == a then w0.pas[b].(explicitlyAttached := true) else w0.pas[b]
    ensures forall b :: b in w.pas && b !in w0.pas ==> b == addr && b == a && w.pas[b] == Pa(NEW, false, n, p, true)
  {}

  lemma AttachedByRenews(w0: World, w: World, p: Id, n: Id, addr: Id, a: Id)
    requires AttachedBy(w0, w, p, n, addr, a)
    ensures w.physes.Keys == w0.physes.Keys && p in w.physes && forall q :: q in w.physes && q != p ==> w.physes[q] == w0.physes[q]
    ensures w.physes[p] == w0.physes[p].(state := w.physes[p].state)
    ensures w.physes[p].state == if !(a in w0.pas && w0.pas[a].explicitlyAttached) && w0.physes[p].state == OK then RENEW else w0.physes[p].state
  {}
}
