/** The library context of lsdn.c: the model tables that the API calls change and `lsdn_commit` walks over.
    The lists of the source are the tables filtered by the back pointers; they are walked in any order. */
module Engine {
  import opened Base
  import opened States
  import opened Netmodel
  import opened Invariant
  import opened Edits
  import opened Removals
  import opened Decommit
  import opened Recommit
  import opened Freeing

  class Context {
    var settings: map<Id, Settings>
    var nets: map<Id, Net>
    var physes: map<Id, Phys>
    var pas: map<Id, Pa>
    var virts: map<Id, Virt>
    var remotePas: set<View>
    var remoteVirts: set<VirtView>
    /** The kernel and the callbacks that made it what it is. */
    ghost var kernel: Kernel
    ghost var trace: seq<Event>

    ghost function W(): World
      reads this
    {
      World(settings, nets, physes, pas, virts)
    }

    /** Every callback so far was allowed when it was made, and the remote views are those of the kernel. */
    ghost predicate Traced()
      reads this`kernel, this`trace, this`remotePas, this`remoteVirts
    {
      && WellBracketed(trace) && Replay(trace) == kernel
      && remotePas == kernel.views.Keys && remoteVirts == kernel.virtViews.Keys
    }

    ghost predicate Valid()
      reads this
    {
      Traced() && Inv(W(), kernel)
    }

    constructor ()
      ensures Valid() && W() == World(map[], map[], map[], map[], map[]) && trace == []
    {
      settings, nets, physes, pas, virts := map[], map[], map[], map[], map[];
      remotePas, remoteVirts := {}, {};
      kernel, trace := EmptyKernel, [];
    }

    /** One callback. */
    ghost method Emit(e: Event)
      requires WellBracketed(trace) && Replay(trace) == kernel && Allowed(kernel, e)
      modifies this`kernel, this`trace
      ensures kernel == After(old(kernel), e) && trace == old(trace) + [e]
      ensures WellBracketed(trace) && Replay(trace) == kernel
    {
      hide Allowed, After;
      trace := trace + [e];
      kernel := After(kernel, e);
      assert trace[..|trace| - 1] == old(trace);
    }

    // -------------------------------------------------------------- decommit

    /** `decommit_remote_virt` */
    method DecommitRemoteVirt(y: VirtView)
      requires Traced() && y in remoteVirts
      modifies this`remoteVirts, this`kernel, this`trace
      ensures Traced() && remoteVirts == old(remoteVirts) - {y}
      ensures kernel == old(kernel).(virtViews := old(kernel).virtViews - {y})
    {
      hide WellBracketed, Replay;
      Emit(RemoveRemoteVirt(y));
      remoteVirts := remoteVirts - {y};
    }

    /** `decommit_virt`; the callbacks of the rates and of the virt itself are one event. */
    method DecommitVirt(v: Id)
      requires Traced() && v in virts && (v in kernel.virts <==> virts[v].committedTo.Some?)
      requires virts[v].committedTo.None? ==> virts[v].committedIf == ""
      modifies this`virts, this`remoteVirts, this`kernel, this`trace
      ensures Traced() && kernel == VirtOutKernel(old(kernel), v)
      ensures virts == old(virts)[v := old(virts)[v].(committedTo := None, committedIf := "")]
    {
      hide WellBracketed, Replay;
      var todo := set y | y in remoteVirts && y.virt == v;
      while todo != {}
        invariant Traced() && todo <= remoteVirts && virts == old(virts)
        invariant forall y :: y in remoteVirts && y.virt == v ==> y in todo
        invariant forall y :: y in todo ==> y.virt == v
        invariant kernel.pas == old(kernel).pas && kernel.views == old(kernel).views && kernel.virts == old(kernel).virts
        invariant forall y :: y in old(kernel).virtViews && y.virt != v ==> y in kernel.virtViews
        invariant forall y :: y in kernel.virtViews ==> y in old(kernel).virtViews && kernel.virtViews[y] == old(kernel).virtViews[y]
      {
        var y :| y in todo;
        DecommitRemoteVirt(y);
        todo := todo - {y};
      }
      if virts[v].committedTo.Some? {
        Emit(RemoveVirt(v));
        virts := virts[v := virts[v].(committedTo := None, committedIf := "")];
      }
      assert kernel.virtViews == VirtOutKernel(old(kernel), v).virtViews;
      assert kernel.virts == VirtOutKernel(old(kernel), v).virts;
    }

    /** `decommit_remote_pa` */
    method DecommitRemotePa(x: View)
      requires Traced() && x in remotePas
      modifies this`remotePas, this`remoteVirts, this`kernel, this`trace
      ensures Traced() && remotePas == old(remotePas) - {x}
      ensures kernel.pas == old(kernel).pas && kernel.virts == old(kernel).virts && kernel.views == old(kernel).views - {x}
      ensures kernel.virtViews == map y | y in old(kernel).virtViews && View(y.local, y.remote) != x :: old(kernel).virtViews[y]
    {
      hide WellBracketed, Replay;
      var todo := set y | y in remoteVirts && y.local == x.local && y.remote == x.remote;
      while todo != {}
        invariant Traced() && todo <= remoteVirts
        invariant forall y :: y in remoteVirts && y.local == x.local && y.remote == x.remote ==> y in todo
        invariant forall y :: y in todo ==> View(y.local, y.remote) == x
        invariant kernel.pas == old(kernel).pas && kernel.views == old(kernel).views && kernel.virts == old(kernel).virts
        invariant forall y :: y in old(kernel).virtViews && View(y.local, y.remote) != x ==> y in kernel.virtViews
        invariant forall y :: y in kernel.virtViews ==> y in old(kernel).virtViews && kernel.virtViews[y] == old(kernel).virtViews[y]
      {
        var y :| y in todo;
        DecommitRemoteVirt(y);
        todo := todo - {y};
      }
      Emit(RemoveRemotePa(x));
      remotePas := remotePas - {x};
      assert kernel.virtViews == map y | y in old(kernel).virtViews && View(y.local, y.remote) != x :: old(kernel).virtViews[y];
    }

    /** `decommit_pa`; the views of the attachment by others and its own views of others go in any order. */
    method DecommitPa(a: Id)
      requires Traced() && a in pas && pas[a].phys in physes
      requires a in kernel.pas <==> physes[pas[a].phys].committedAsLocal
      requires forall v :: v in kernel.virts ==> kernel.virts[v].pa != a
      requires forall y :: y in kernel.virtViews ==> View(y.local, y.remote) in kernel.views
      modifies this`remotePas, this`remoteVirts, this`kernel, this`trace
      ensures Traced() && kernel == PaOutKernel(old(kernel), a)
    {
      hide WellBracketed, Replay;
      var todo := set x | x in remotePas && (x.local == a || x.remote == a);
      while todo != {}
        invariant Traced() && todo <= remotePas
        invariant forall x :: x in remotePas && (x.local == a || x.remote == a) ==> x in todo
        invariant forall x :: x in todo ==> x.local == a || x.remote == a
        invariant kernel.pas == old(kernel).pas && kernel.virts == old(kernel).virts
        invariant forall x :: x in old(kernel).views && x.local != a && x.remote != a ==> x in kernel.views
        invariant forall x :: x in kernel.views ==> x in old(kernel).views && kernel.views[x] == old(kernel).views[x]
        invariant forall y :: y in old(kernel).virtViews && y.local != a && y.remote != a ==> y in kernel.virtViews
        invariant forall y :: y in kernel.virtViews ==> y in old(kernel).virtViews && kernel.virtViews[y] == old(kernel).virtViews[y]
        invariant forall y :: y in kernel.virtViews ==> View(y.local, y.remote) in kernel.views
      {
        var x :| x in todo;
        DecommitRemotePa(x);
        todo := todo - {x};
      }
      PaOutComplete(old(kernel), kernel, a);
      if physes[pas[a].phys].committedAsLocal {
        Emit(DestroyPa(a));
      }
    }

    // -------------------------------------------------------------- freeing

    /** `pa_do_free`, with its assertions as preconditions. */
    method PaDoFree(a: Id)
      requires a in pas && !HasVirts(virts, a) && !pas[a].explicitlyAttached
      modifies this`pas
      ensures pas == old(pas) - {a}
    {
      pas := pas - {a};
    }

    /** `free_pa_if_possible` */
    method FreePaIfPossible(a: Id)
      requires a in pas
      modifies this`pas
      ensures W() == FreePa(old(W()), a)
      ensures forall b :: b != a ==> (b in pas <==> b in old(pas))
      ensures forall b :: b in pas && b != a ==> pas[b] == old(pas)[b]
      ensures if old(pas)[a].explicitlyAttached || (exists v :: v in virts && virts[v].connectedThrough == Some(a))
              then a in pas && pas[a] == old(pas)[a]
              else if old(pas)[a].state == NEW then a !in pas
              else a in pas && pas[a] == old(pas)[a].(state := DELETE, pendingFree := true)
    {
      if (forall v | v in virts :: virts[v].connectedThrough != Some(a)) && !pas[a].explicitlyAttached {
        if pas[a].state == NEW {
          PaDoFree(a);
        } else {
          pas := pas[a := pas[a].(state := DELETE, pendingFree := true)];
        }
      }
    }

    /** `virt_do_free` */
    method VirtDoFree(v: Id)
      requires v in virts && (virts[v].connectedThrough.Some? ==> virts[v].connectedThrough.value in pas)
      modifies this`pas, this`virts
      ensures W() == FreeVirt(old(W()), v)
    {
      var through := virts[v].connectedThrough;
      virts := virts - {v};
      if through.Some? {
        FreePaIfPossible(through.value);
      }
    }

    /** `net_do_free`, with its assertions as preconditions. */
    method NetDoFree(n: Id)
      requires n in nets
      requires forall a :: a in pas ==> pas[a].net != n
      requires forall v :: v in virts ==> virts[v].net != n
      modifies this`nets
      ensures nets == old(nets) - {n}
    {
      nets := nets - {n};
    }

    /** `phys_do_free`. It looks at no list; its callers have to see to it that no attachment refers to the phys any more. */
    method PhysDoFree(p: Id)
      requires Valid() && p in physes && forall a :: a in pas ==> pas[a].phys != p
      modifies this`physes
      ensures Valid() && physes == old(physes) - {p}
    {
      hide Traced, Inv;
      WithoutPhysInv(W(), kernel, p);
      physes := physes - {p};
    }

    /** `settings_do_free`, with its assertion as precondition. */
    method SettingsDoFree(s: Id)
      requires s in settings
      requires forall n :: n in nets ==> nets[n].settings != s
      modifies this`settings
      ensures settings == old(settings) - {s}
    {
      settings := settings - {s};
    }

    // -------------------------------------------------------------- the decommit phase

    /** The part of the decommit phase that deals with one virt. */
    method SweepVirt(v: Id)
      requires Valid() && v in virts
      modifies this`pas, this`virts, this`remoteVirts, this`kernel, this`trace
      ensures Valid() && W() == SweptVirt(old(W()), v)
      ensures !MustDecommit(old(virts)[v].state) ==> trace == old(trace)
    {
      hide WellBracketed, Replay, Coherent, Mirrored, FreeVirt;
      if MustDecommit(virts[v].state) {
        ghost var w := W();
        InvVirt(w, kernel, v);
        VirtOutInv(w, kernel, v);
        virts := virts[v := virts[v].(state := AckDecommit(virts[v].state))];
        DecommitVirt(v);
        assert W() == VirtOut(w, v);
        if virts[v].pendingFree {
          FreeVirtInv(W(), kernel, v);
          VirtDoFree(v);
        }
      }
    }

    /** The part of the decommit phase that deals with one attachment, after the virts of its network. */
    method SweepPa(a: Id)
      requires Valid() && Propagated(W()) && a in pas && VirtsSwept(W(), pas[a].net)
      modifies this`pas, this`remotePas, this`remoteVirts, this`kernel, this`trace
      ensures Valid() && W() == SweptPa(old(W()), a)
      ensures !MustDecommit(old(pas)[a].state) ==> trace == old(trace)
    {
      hide WellBracketed, Replay, Coherent, Mirrored, Propagated, VirtsSwept, PaIdle;
      if MustDecommit(pas[a].state) {
        ghost var w, k := W(), kernel;
        InvPa(w, k, a);
        PaOutInv(w, k, a);
        pas := pas[a := pas[a].(state := AckDecommit(pas[a].state))];
        DecommitPa(a);
        if pas[a].pendingFree {
          PaDoFree(a);
        }
        assert W() == PaOut(w, a);
      }
    }

    /** Inside the decommit phase of a commit that started from `w0`. */
    ghost predicate Sweeping(w0: World)
      reads this
    {
      Valid() && Propagated(W()) && Kept(w0, W())
    }

    method SweepVirts(n: Id, ghost w0: World)
      requires Sweeping(w0)
      modifies this`pas, this`virts, this`remoteVirts, this`kernel, this`trace
      ensures Sweeping(w0) && VirtsSwept(W(), n)
      ensures forall m :: m != n && NetSwept(old(W()), m) ==> NetSwept(W(), m)
      ensures VirtsSwept(old(W()), n) ==> W() == old(W()) && trace == old(trace)
    {
      hide Inv, Traced, Propagated, Kept, NetSwept, SweptVirt;
      var todo := set v | v in virts && virts[v].net == n;
      while todo != {}
        invariant Sweeping(w0) && VirtsToSweep(W(), todo, n)
        invariant forall m :: m != n && NetSwept(old(W()), m) ==> NetSwept(W(), m)
        invariant VirtsSwept(old(W()), n) ==> W() == old(W()) && trace == old(trace)
      {
        var v :| v in todo;
        SweptVirtStep(w0, W(), kernel, v);
        SweptVirtTodo(W(), kernel, v, todo, n);
        SweptVirtIdle(W(), v);
        SweepVirt(v);
        todo := todo - {v};
      }
    }

    method SweepPas(n: Id, ghost w0: World)
      requires Sweeping(w0) && VirtsSwept(W(), n)
      modifies this`pas, this`remotePas, this`remoteVirts, this`kernel, this`trace
      ensures Sweeping(w0) && NetSwept(W(), n)
      ensures forall m :: m != n && NetSwept(old(W()), m) ==> NetSwept(W(), m)
      ensures PasSwept(old(W()), n) ==> W() == old(W()) && trace == old(trace)
    {
      hide Inv, Traced, Propagated, Kept, SweptPa, VirtsSwept;
      var todo := set a | a in pas && pas[a].net == n;
      while todo != {}
        invariant Sweeping(w0) && VirtsSwept(W(), n) && PasToSweep(W(), todo, n)
        invariant forall m :: m != n && NetSwept(old(W()), m) ==> NetSwept(W(), m)
        invariant PasSwept(old(W()), n) ==> W() == old(W()) && trace == old(trace)
      {
        var a :| a in todo;
        SweptPaStep(w0, W(), kernel, a);
        SweptPaTodo(W(), kernel, a, todo, n);
        SameVirtsSwept(W(), SweptPa(W(), a), n);
        SweepPa(a);
        todo := todo - {a};
      }
    }

    /** The decommit phase for one network. */
    method SweepNet(n: Id, ghost w0: World)
      requires Sweeping(w0) && n in nets
      modifies this`nets, this`pas, this`virts, this`remotePas, this`remoteVirts, this`kernel, this`trace
      ensures Sweeping(w0) && NetSwept(W(), n) && nets == (if old(nets)[n].state == DELETE then old(nets) - {n} else old(nets))
      ensures forall m :: m != n && NetSwept(old(W()), m) ==> NetSwept(W(), m)
      ensures NetSwept(old(W()), n) && old(nets)[n].state != DELETE ==> W() == old(W()) && trace == old(trace)
    {
      hide Inv, Traced, Propagated, Kept, NetSwept, VirtsSwept, PasSwept;
      SweptParts(W(), n);
      SweepVirts(n, w0);
      SweepPas(n, w0);
      NetLegal(W(), kernel, n);
      if MustDecommit(nets[n].state) {
        ghost var w := W();
        WithoutNetStep(w0, w, kernel, n);
        WithoutNetSwept(w, n);
        nets := nets[n := nets[n].(state := AckDecommit(nets[n].state))];
        if nets[n].pendingFree {
          NetDoFree(n);
        }
        assert W() == w.(nets := w.nets - {n});
      }
    }

    method SweepNets(ghost w0: World)
      requires Sweeping(w0)
      modifies this`nets, this`pas, this`virts, this`remotePas, this`remoteVirts, this`kernel, this`trace
      ensures Sweeping(w0) && Quiet(W()) && (forall n :: n in nets ==> nets[n].state != DELETE)
      ensures AllOk(old(W())) ==> W() == old(W()) && trace == old(trace)
    {
      hide Inv, Traced, Propagated, Kept, NetSwept, Quiet;
      var todo := nets.Keys;
      if AllOk(W()) { AllOkQuiet(W()); }
      while todo != {}
        invariant Sweeping(w0) && todo <= nets.Keys
        invariant forall n :: n in nets && n !in todo ==> NetSwept(W(), n) && nets[n].state != DELETE
        invariant AllOk(old(W())) ==> W() == old(W()) && trace == old(trace) && Quiet(W())
      {
        var n :| n in todo;
        if Quiet(W()) { QuietNetSwept(W(), n); }
        SweepNet(n, w0);
        todo := todo - {n};
      }
      AllNetsSwept(W(), kernel);
    }

    method SweepPhyses(ghost w0: World)
      requires Sweeping(w0) && Quiet(W())
      modifies this`physes
      ensures Sweeping(w0) && Quiet(W()) && (forall p :: p in physes ==> !MustDecommit(physes[p].state))
      ensures AllOk(old(W())) ==> W() == old(W())
    {
      hide Inv, Traced, Propagated, Kept, Quiet;
      var todo := physes.Keys;
      while todo != {}
        invariant Sweeping(w0) && Quiet(W()) && todo <= physes.Keys
        invariant forall p :: p in physes && p !in todo ==> !MustDecommit(physes[p].state)
        invariant AllOk(old(W())) ==> W() == old(W())
      {
        var p :| p in todo;
        ghost var w := W();
        SweptPhysStep(w0, w, kernel, p);
        PhysLegal(w, kernel, p);
        if MustDecommit(physes[p].state) {
          physes := physes[p := physes[p].(state := AckDecommit(physes[p].state))];
          if physes[p].pendingFree {
            DeletedPhysUnused(w, kernel, p);
            assert physes == w.physes;
            PhysDoFree(p);
          }
        }
        assert W() == SweptPhys(w, p);
        todo := todo - {p};
      }
    }

    method SweepSettings(ghost w0: World)
      requires Sweeping(w0) && Quiet(W()) && (forall n :: n in nets ==> nets[n].state != DELETE)
      modifies this`settings
      ensures Sweeping(w0) && Quiet(W()) && (forall s :: s in settings ==> settings[s].state != DELETE)
      ensures AllOk(old(W())) ==> W() == old(W())
    {
      hide Inv, Traced, Propagated, Kept, Quiet;
      var todo := settings.Keys;
      while todo != {}
        invariant Sweeping(w0) && Quiet(W()) && todo <= settings.Keys
        invariant forall s :: s in settings && s !in todo ==> settings[s].state != DELETE
        invariant AllOk(old(W())) ==> W() == old(W())
      {
        var s :| s in todo;
        ghost var w := W();
        SettingsLegal(w, kernel, s);
        if MustDecommit(settings[s].state) {
          WithoutSettingsStep(w0, w, kernel, s);
          settings := settings[s := settings[s].(state := AckDecommit(settings[s].state))];
          if settings[s].pendingFree {
            SettingsDoFree(s);
          }
          assert W() == w.(settings := w.settings - {s});
        }
        todo := todo - {s};
      }
    }

    /** The decommit phase: whatever changed or goes away is out of the kernel, whatever goes away is freed. */
    method DecommitPhase()
      requires Valid() && Propagated(W())
      modifies this
      ensures Valid() && Kept(old(W()), W()) && Swept(W()) && Mid(W(), kernel, {})
      ensures AllOk(old(W())) ==> W() == old(W()) && trace == old(trace)
    {
      hide Inv, Traced, Propagated, Kept, Mid, Quiet;
      ghost var w0 := W();
      KeptStart(w0);
      SweepNets(w0);
      SweepPhyses(w0);
      SweepSettings(w0);
      StartMid(W(), kernel);
    }

    // -------------------------------------------------------------- the recommit phase

    /** `commit_pa`, first loop: one virt. */
    method CommitVirt(v: Id, l: Id, ghost w0: World, ghost done: set<Id>, ghost extra: Progress)
      requires Traced() && Recommitting(w0, W()) && Building(W(), kernel, done, l, extra)
      requires v in virts && virts[v].connectedThrough == Some(l) && v !in extra.virts
      modifies this`virts, this`kernel, this`trace
      ensures Traced() && Recommitting(w0, W()) && Building(W(), kernel, done, l, extra.(virts := extra.virts + {v}))
      ensures virts.Keys == old(virts).Keys
      ensures forall u :: u in virts ==> virts[u].connectedThrough == old(virts)[u].connectedThrough
      ensures AllOk(old(W())) ==> W() == old(W()) && trace == old(trace)
    {
      hide WellBracketed, Replay, Recommitting, MidPas, MidVirts, MidViews, MidVirtViews, IsLocal, AllOk;
      ghost var w := W();
      AllOkStates(w);
      SweptVirtState(w0, w, v);
      if virts[v].state == NEW {
        VirtOnRecommitting(w0, w, v, l);
        NewVirtAbsent(w, kernel.virts, done, extra.virts, v);
        LocalIn(w, kernel, done, l);
        BuildVirt(w, kernel, done, l, extra, v);
        Emit(AddVirt(v, VirtConfig(l, virts[v].attrs, virts[v].connectedIf)));
        virts := virts[v := virts[v].(committedTo := Some(l), committedIf := virts[v].connectedIf)];
      } else {
        SkipVirt(w, kernel.virts, done, extra.virts, v);
      }
    }

    method CommitVirts(l: Id, ghost w0: World, ghost done: set<Id>)
      requires Traced() && Recommitting(w0, W()) && Building(W(), kernel, done, l, Progress({}, {}, {}))
      modifies this`virts, this`kernel, this`trace
      ensures Traced() && Recommitting(w0, W())
      ensures Building(W(), kernel, done, l, Progress(VirtsOf(virts, l), {}, {}))
      ensures AllOk(old(W())) ==> W() == old(W()) && trace == old(trace)
    {
      hide Traced, Recommitting, Building, AllOk;
      ghost var extra: set<Id> := {};
      var todo := set v | v in virts && virts[v].connectedThrough == Some(l);
      while todo != {}
        invariant Traced() && Recommitting(w0, W()) && Building(W(), kernel, done, l, Progress(extra, {}, {}))
        invariant extra !! todo && extra + todo == VirtsOf(virts, l)
        invariant AllOk(old(W())) ==> W() == old(W()) && trace == old(trace)
      {
        var v :| v in todo;
        CommitVirt(v, l, w0, done, Progress(extra, {}, {}));
        todo, extra := todo - {v}, extra + {v};
      }
      assert extra == VirtsOf(virts, l);
    }

    /** `commit_pa`, second loop: one other attachment of the network. */
    method CommitView(r: Id, l: Id, ghost w0: World, ghost done: set<Id>, ghost extra: Progress)
      requires Traced() && Recommitting(w0, W()) && Building(W(), kernel, done, l, extra)
      requires Peers(pas, View(l, r)) && View(l, r) !in extra.views
      modifies this`remotePas, this`kernel, this`trace
      ensures Traced() && Building(W(), kernel, done, l, extra.(views := extra.views + {View(l, r)}))
      ensures AllOk(W()) ==> trace == old(trace)
    {
      hide WellBracketed, Replay, Recommitting, MidPas, MidVirts, MidViews, MidVirtViews, IsLocal, AllOk;
      ghost var w, x := W(), View(l, r);
      AllOkStates(w);
      SweptPaState(w0, w, l);
      SweptPaState(w0, w, r);
      if pas[l].state != NEW && pas[r].state != NEW {
        SkipView(w, kernel.views, done, extra.views, x);
      } else {
        NewViewAbsent(w, kernel.views, done, extra.views, x);
        LocalIn(w, kernel, done, l);
        ghost var config := ViewConfigOf(physes, pas[l], pas[r]);
        AddViewMid(w, kernel.views, done, extra.views, x, config);
        Emit(AddRemotePa(x, config));
        remotePas := remotePas + {View(l, r)};
      }
    }

    method CommitViews(l: Id, ghost w0: World, ghost done: set<Id>, ghost mine: set<Id>)
      requires Traced() && Recommitting(w0, W()) && Building(W(), kernel, done, l, Progress(mine, {}, {}))
      modifies this`remotePas, this`kernel, this`trace
      ensures Traced() && Building(W(), kernel, done, l, Progress(mine, ViewsOf(pas, l), {}))
      ensures AllOk(W()) ==> trace == old(trace)
    {
      hide Traced, Recommitting, AllOk, MidPas, MidVirts, MidViews, MidVirtViews;
      ghost var extra: set<View> := {};
      var todo := set r | r in pas && r != l && pas[r].net == pas[l].net;
      while todo != {}
        invariant Traced() && Building(W(), kernel, done, l, Progress(mine, extra, {}))
        invariant todo <= pas.Keys && forall r :: r in todo ==> r != l && pas[r].net == pas[l].net
        invariant forall x :: x in extra <==> Peers(pas, x) && x.local == l && x.remote !in todo
        invariant AllOk(W()) ==> trace == old(trace)
      {
        var r :| r in todo;
        CommitView(r, l, w0, done, Progress(mine, extra, {}));
        todo, extra := todo - {r}, extra + {View(l, r)};
      }
      assert extra == ViewsOf(pas, l);
    }

    /** `commit_pa`, third loop: one virt behind one view. */
    method CommitVirtView(y: VirtView, l: Id, ghost w0: World, ghost done: set<Id>, ghost extra: Progress)
      requires Traced() && Recommitting(w0, W()) && Building(W(), kernel, done, l, extra)
      requires y.local == l && VirtViewWanted(W(), y) && y !in extra.virtViews && View(y.local, y.remote) in kernel.views
      modifies this`remoteVirts, this`kernel, this`trace
      ensures Traced() && Building(W(), kernel, done, l, extra.(virtViews := extra.virtViews + {y}))
      ensures kernel.views == old(kernel).views
      ensures AllOk(W()) ==> trace == old(trace)
    {
      hide WellBracketed, Replay, Recommitting, MidPas, MidVirts, MidViews, MidVirtViews, IsLocal, AllOk;
      ghost var w := W();
      AllOkStates(w);
      SweptPaState(w0, w, l);
      SweptVirtState(w0, w, y.virt);
      if pas[l].state != NEW && virts[y.virt].state != NEW {
        SkipVirtView(w, kernel.virtViews, done, extra.virtViews, y);
      } else {
        NewVirtViewAbsent(w, kernel.virtViews, done, extra.virtViews, y);
        AddVirtViewMid(w, kernel.virtViews, done, extra.virtViews, y);
        Emit(AddRemoteVirt(y, virts[y.virt].attrs.mac));
        remoteVirts := remoteVirts + {y};
      }
    }

    method CommitBehind(x: View, l: Id, ghost w0: World, ghost done: set<Id>, ghost extra: Progress)
      requires Traced() && Recommitting(w0, W()) && Building(W(), kernel, done, l, extra)
      requires x.local == l && ViewWanted(W(), x) && x in kernel.views && extra.virtViews !! Behind(virts, x)
      modifies this`remoteVirts, this`kernel, this`trace
      ensures Traced() && Building(W(), kernel, done, l, extra.(virtViews := extra.virtViews + Behind(virts, x)))
      ensures kernel.views == old(kernel).views
      ensures AllOk(W()) ==> trace == old(trace)
    {
      hide Traced, Recommitting, AllOk, Building, ViewWanted;
      ghost var seen: set<VirtView> := {};
      var todo := set v | v in virts && virts[v].connectedThrough == Some(x.remote);
      assert extra.(virtViews := extra.virtViews + {}) == extra;
      while todo != {}
        invariant Traced() && Building(W(), kernel, done, l, extra.(virtViews := extra.virtViews + seen))
        invariant forall v :: v in todo ==> v in virts && virts[v].connectedThrough == Some(x.remote)
        invariant forall y :: y in seen <==> y in Behind(virts, x) && y.virt !in todo
        invariant kernel.views == old(kernel).views
        invariant AllOk(W()) ==> trace == old(trace)
      {
        var v :| v in todo;
        var y := VirtView(x.local, x.remote, v);
        CommitVirtView(y, l, w0, done, extra.(virtViews := extra.virtViews + seen));
        assert extra.virtViews + seen + {y} == extra.virtViews + (seen + {y});
        todo, seen := todo - {v}, seen + {y};
      }
      assert seen == Behind(virts, x);
    }

    method CommitVirtViews(l: Id, ghost w0: World, ghost done: set<Id>, ghost mine: set<Id>) returns (ghost extra: set<VirtView>)
      requires Traced() && Recommitting(w0, W()) && Building(W(), kernel, done, l, Progress(mine, ViewsOf(pas, l), {}))
      modifies this`remoteVirts, this`kernel, this`trace
      ensures Traced() && Building(W(), kernel, done, l, Progress(mine, ViewsOf(pas, l), extra)) && VirtViewsOf(W(), l, extra)
      ensures AllOk(W()) ==> trace == old(trace)
    {
      hide WellBracketed, Replay, Recommitting, AllOk, Building, ViewWanted, VirtViewsShown, VirtViewsOf, Behind, ViewsOf;
      BuildingViews(W(), kernel, done, l, mine);
      extra := {};
      var todo := set x | x in remotePas && x.local == l;
      VirtViewsStart(W(), l, todo);
      while todo != {}
        invariant Traced() && Building(W(), kernel, done, l, Progress(mine, ViewsOf(pas, l), extra))
        invariant kernel.views == old(kernel).views && forall x :: x in todo ==> x in kernel.views && x.local == l && ViewWanted(W(), x)
        invariant VirtViewsShown(W(), l, todo, extra)
        invariant AllOk(W()) ==> trace == old(trace)
      {
        var x :| x in todo;
        VirtViewsStep(W(), l, todo, extra, x);
        CommitBehind(x, l, w0, done, Progress(mine, ViewsOf(pas, l), extra));
        todo, extra := todo - {x}, extra + Behind(virts, x);
      }
      VirtViewsEnd(W(), l, extra);
    }

    /** `commit_pa` */
    method CommitPa(l: Id, ghost w0: World, ghost done: set<Id>)
      requires Traced() && Recommitting(w0, W()) && Mid(W(), kernel, done) && IsLocal(W(), l) && l !in done
      modifies this`virts, this`remotePas, this`remoteVirts, this`kernel, this`trace
      ensures Traced() && Recommitting(w0, W()) && Mid(W(), kernel, done + {l})
      ensures AllOk(old(W())) ==> W() == old(W()) && trace == old(trace)
    {
      hide WellBracketed, Replay, Recommitting, AllOk, MidPas, MidVirts, MidViews, MidVirtViews, VirtsOf, ViewsOf;
      AllOkStates(W());
      SweptPaState(w0, W(), l);
      if pas[l].state == NEW {
        ghost var config := PaConfigOf(nets, physes, pas[l]);
        NewPaAbsent(W(), kernel.pas, done, l);
        CreatePaMid(W(), kernel.pas, done, l, config);
        Emit(CreatePa(l, config));
      } else {
        SkipPa(W(), kernel.pas, done, l);
      }
      CommitVirts(l, w0, done);
      CommitViews(l, w0, done, VirtsOf(virts, l));
      ghost var extra := CommitVirtViews(l, w0, done, VirtsOf(virts, l));
      Built(W(), kernel, done, l, Progress(VirtsOf(virts, l), ViewsOf(pas, l), extra));
    }

    /** The attachments of one local phys. */
    method CommitPhys(p: Id, ghost w0: World, ghost done: set<Id>) returns (ghost done': set<Id>)
      requires Traced() && Recommitting(w0, W()) && Mid(W(), kernel, done) && p in physes && physes[p].isLocal
      requires forall a :: a in done ==> a in pas && pas[a].phys != p
      modifies this`virts, this`remotePas, this`remoteVirts, this`kernel, this`trace
      ensures Traced() && Recommitting(w0, W()) && Mid(W(), kernel, done')
      ensures forall a :: a in done' <==> a in done || (a in pas && pas[a].phys == p)
      ensures AllOk(old(W())) ==> W() == old(W()) && trace == old(trace)
    {
      hide Traced, Recommitting, AllOk, Mid;
      done' := done;
      var todo := set a | a in pas && pas[a].phys == p;
      while todo != {}
        invariant Traced() && Recommitting(w0, W()) && Mid(W(), kernel, done')
        invariant forall a :: a in todo ==> a in pas && pas[a].phys == p
        invariant forall a :: a in done' <==> a in done || (a in pas && pas[a].phys == p && a !in todo)
        invariant AllOk(old(W())) ==> W() == old(W()) && trace == old(trace)
      {
        var l :| l in todo;
        CommitPa(l, w0, done');
        todo, done' := todo - {l}, done' + {l};
      }
    }

    /** The recommit phase. */
    method RecommitPhase(ghost w0: World)
      requires Traced() && Recommitting(w0, W()) && Mid(W(), kernel, {})
      modifies this`physes, this`virts, this`remotePas, this`remoteVirts, this`kernel, this`trace
      ensures Traced() && Recommitting(w0, W()) && Describes(W(), kernel)
      ensures forall p :: p in physes ==> physes[p].committedAsLocal == physes[p].isLocal
      ensures forall v :: v in virts ==> VirtCommitted(virts[v], v in kernel.virts)
      ensures AllOk(old(W())) ==> W() == old(W()) && trace == old(trace)
    {
      hide Traced, Recommitting, AllOk, Mid, Describes, VirtCommitted;
      ghost var done: set<Id> := {};
      var todo := physes.Keys;
      while todo != {}
        invariant Traced() && Recommitting(w0, W()) && Mid(W(), kernel, done) && todo <= physes.Keys
        invariant forall a :: a in done ==> a in pas && pas[a].phys !in todo
        invariant forall a :: IsLocal(W(), a) && pas[a].phys !in todo ==> a in done
        invariant forall p :: p in physes && p !in todo ==> physes[p].committedAsLocal == physes[p].isLocal
        invariant AllOk(old(W())) ==> W() == old(W()) && trace == old(trace)
      {
        var p :| p in todo;
        RecommittingPhys(w0, W(), p);
        if physes[p].isLocal {
          PhysOnStep(w0, W(), kernel, done, p);
          physes := physes[p := physes[p].(committedAsLocal := true)];
          done := CommitPhys(p, w0, done);
        }
        todo := todo - {p};
      }
      EndMid(W(), kernel, done);
      EndVirts(W(), kernel, done);
    }

    // -------------------------------------------------------------- the ack phase

    method AckContainers()
      modifies this`settings, this`nets, this`physes
      ensures settings == AckSettings(old(settings)) && nets == AckNets(old(nets)) && physes == AckPhyses(old(physes))
    {
      var todo := settings.Keys;
      while todo != {}
        invariant settings.Keys == old(settings).Keys && nets == old(nets) && physes == old(physes) && todo <= settings.Keys
        invariant forall s :: s in settings ==> settings[s] == if s in todo then old(settings)[s] else AckSettings(old(settings))[s]
      {
        var s :| s in todo;
        settings := settings[s := settings[s].(state := AckState(settings[s].state))];
        todo := todo - {s};
      }
      todo := physes.Keys;
      while todo != {}
        invariant settings == AckSettings(old(settings)) && physes.Keys == old(physes).Keys && nets == old(nets) && todo <= physes.Keys
        invariant forall p :: p in physes ==> physes[p] == if p in todo then old(physes)[p] else AckPhyses(old(physes))[p]
      {
        var p :| p in todo;
        physes := physes[p := physes[p].(state := AckState(physes[p].state))];
        todo := todo - {p};
      }
      todo := nets.Keys;
      while todo != {}
        invariant settings == AckSettings(old(settings)) && physes == AckPhyses(old(physes)) && nets.Keys == old(nets).Keys && todo <= nets.Keys
        invariant forall n :: n in nets ==> nets[n] == if n in todo then old(nets)[n] else AckNets(old(nets))[n]
      {
        var n :| n in todo;
        nets := nets[n := nets[n].(state := AckState(nets[n].state))];
        todo := todo - {n};
      }
    }

    method AckMembers()
      modifies this`pas, this`virts
      ensures pas == AckPas(old(pas)) && virts == AckVirts(old(virts))
    {
      var todo := pas.Keys;
      while todo != {}
        invariant pas.Keys == old(pas).Keys && virts == old(virts) && todo <= pas.Keys
        invariant forall a :: a in pas ==> pas[a] == if a in todo then old(pas)[a] else AckPas(old(pas))[a]
      {
        var a :| a in todo;
        pas := pas[a := pas[a].(state := AckState(pas[a].state))];
        todo := todo - {a};
      }
      todo := virts.Keys;
      while todo != {}
        invariant pas == AckPas(old(pas)) && virts.Keys == old(virts).Keys && todo <= virts.Keys
        invariant forall v :: v in virts ==> virts[v] == if v in todo then old(virts)[v] else AckVirts(old(virts))[v]
      {
        var v :| v in todo;
        virts := virts[v := virts[v].(state := AckState(virts[v].state))];
        todo := todo - {v};
      }
    }

    // -------------------------------------------------------------- validation and commit

    method PropagateFromPhyses()
      requires Valid()
      modifies this`pas
      ensures Valid() && pas.Keys == old(pas).Keys && forall a :: a in pas ==> pas[a] == PhysRenewed(old(W()), old(pas)[a])
    {
      hide Traced, Inv;
      ghost var w0 := W();
      var todo := pas.Keys;
      while todo != {}
        invariant Valid() && pas.Keys == w0.pas.Keys && todo <= pas.Keys
        invariant forall a :: a in pas ==> pas[a] == if a in todo then w0.pas[a] else PhysRenewed(w0, w0.pas[a])
      {
        var a :| a in todo;
        RenewPaByPhys(W(), kernel, a);
        pas := pas[a := pas[a].(state := Propagate(physes[pas[a].phys].state, pas[a].state))];
        todo := todo - {a};
      }
    }

    method PropagateFromNets()
      requires Valid()
      modifies this`pas
      ensures Valid() && pas.Keys == old(pas).Keys && forall a :: a in pas ==> pas[a] == NetRenewed(old(W()), old(pas)[a])
    {
      hide Traced, Inv;
      ghost var w0 := W();
      var todo := pas.Keys;
      while todo != {}
        invariant Valid() && pas.Keys == w0.pas.Keys && todo <= pas.Keys
        invariant forall a :: a in pas ==> pas[a] == if a in todo then w0.pas[a] else NetRenewed(w0, w0.pas[a])
      {
        var a :| a in todo;
        RenewPaByNet(W(), kernel, a);
        pas := pas[a := pas[a].(state := Propagate(nets[pas[a].net].state, pas[a].state))];
        todo := todo - {a};
      }
    }

    method PropagateToPas()
      requires Valid()
      modifies this`pas
      ensures Valid() && pas == RenewedPas(old(W()))
    {
      hide Traced, Inv;
      PropagateFromPhyses();
      PropagateFromNets();
    }

    method PropagateToVirts()
      requires Valid()
      modifies this`virts
      ensures Valid() && virts == RenewedVirts(pas, old(virts))
    {
      hide Traced, Inv;
      var todo := virts.Keys;
      while todo != {}
        invariant Valid() && virts.Keys == old(virts).Keys && todo <= virts.Keys
        invariant forall v :: v in virts ==> virts[v] == if v in todo then old(virts)[v] else RenewedVirt(pas, old(virts)[v])
      {
        var v :| v in todo;
        RenewVirt(W(), kernel, v);
        if virts[v].connectedThrough.Some? {
          virts := virts[v := virts[v].(state := Propagate(pas[virts[v].connectedThrough.value].state, virts[v].state))];
        }
        todo := todo - {v};
      }
    }

    method FindProblems(netProblems: set<Id>, physProblems: set<Id>) returns (found: bool)
      ensures found <==> Problems(W(), netProblems, physProblems)
    {
      var badNet := exists n | n in nets :: nets[n].state != DELETE && n in netProblems;
      var badPhys := exists p | p in physes :: physes[p].state != DELETE && p in physProblems;
      var unattached := exists a, v | a in pas && v in virts ::
        && pas[a].phys in physes && physes[pas[a].phys].state != DELETE && !pas[a].explicitlyAttached
        && virts[v].connectedThrough == Some(a) && virts[v].state in {NEW, RENEW};
      found := badNet || badPhys || unattached;
    }

    /** `lsdn_validate`. The checks that depend on attributes and on the network type are given by the networks and
        physes they object to; like all checks, they are made for objects that are not being deleted. */
    method Validate(netProblems: set<Id>, physProblems: set<Id>) returns (ok: bool)
      requires Valid()
      modifies this`pas, this`virts
      ensures Valid() && W() == Renewed(old(W()))
      ensures ok <==> !Problems(W(), netProblems, physProblems)
    {
      hide Traced, Inv, Problems, RenewedPas, RenewedVirts;
      PropagateToPas();
      PropagateToVirts();
      var found := FindProblems(netProblems, physProblems);
      ok := !found;
    }

    /** What `lsdn_commit` does once validation found no problem. */
    method Apply()
      requires Valid() && Propagated(W())
      modifies this
      ensures Valid() && W() == Committed(old(W())) && UpToDate(W(), kernel)
      ensures AllOk(old(W())) ==> W() == old(W()) && trace == old(trace)
    {
      hide WellBracketed, Replay, Inv, Recommitting, AllOk, Mid, Kept, Swept, Coherent, Committed, Describes, Propagated, VirtCommitted, UpToDate;
      hide AckSettings, AckNets, AckPhyses, AckPas, AckVirts, Legal;
      ghost var w0 := W();
      InvCoherent(w0, kernel);
      DecommitPhase();
      InvCoherent(W(), kernel);
      RecommittingStart(w0, W());
      RecommitPhase(w0);
      RecommittingEnd(w0, W(), kernel);
      if AllOk(w0) { AckedAllOkSame(W()); }
      AckContainers();
      AckMembers();
    }

    /** `lsdn_commit`, when all callbacks succeed. */
    method Commit(netProblems: set<Id>, physProblems: set<Id>) returns (r: Error)
      requires Valid()
      modifies this
      ensures Valid()
      ensures r == if Problems(Renewed(old(W())), netProblems, physProblems) then LSDNE_VALIDATE else LSDNE_OK
      ensures r == LSDNE_VALIDATE ==> W() == Renewed(old(W())) && kernel == old(kernel) && trace == old(trace)
      ensures r == LSDNE_OK ==> W() == Committed(old(W())) && UpToDate(W(), kernel)
      ensures r == LSDNE_OK ==> forall x :: x in remotePas <==> ViewWanted(W(), x)
      ensures r == LSDNE_OK ==> forall y :: y in remoteVirts <==> VirtViewWanted(W(), y)
      ensures AllOk(old(W())) ==> W() == old(W()) && kernel == old(kernel) && trace == old(trace)
    {
      hide WellBracketed, Inv, AllOk, Renewed, Committed, Describes, Problems, Propagated;
      if AllOk(W()) { RenewedAllOk(W()); }
      CommittedRenewed(W());
      RenewedPropagated(W());
      var ok := Validate(netProblems, physProblems);
      if !ok {
        return LSDNE_VALIDATE;
      }
      Apply();
      DescribesSets(W(), kernel);
      return LSDNE_OK;
    }

    // -------------------------------------------------------------- the API: new objects

    method SettingsNew(s: Id)
      requires Valid() && s !in settings
      modifies this`settings
      ensures Valid() && settings == old(settings)[s := Settings(NEW, false)]
    {
      hide Traced, Inv;
      SettingsAddInv(W(), kernel, s, Settings(NEW, false));
      settings := settings[s := Settings(NEW, false)];
    }

    /** `lsdn_net_new` */
    method NetNew(n: Id, s: Id, vnetId: nat)
      requires Valid() && n !in nets && s in settings && settings[s].state != DELETE
      modifies this`nets
      ensures Valid() && nets == old(nets)[n := Net(NEW, false, s, vnetId)]
    {
      hide Traced, Inv;
      NetAddInv(W(), kernel, n, Net(NEW, false, s, vnetId));
      nets := nets[n := Net(NEW, false, s, vnetId)];
    }

    /** `lsdn_phys_new` */
    method PhysNew(p: Id)
      requires Valid() && p !in physes
      modifies this`physes
      ensures Valid() && physes == old(physes)[p := Phys(NEW, false, false, false, PhysAttrs(None, None))]
    {
      hide Traced, Inv;
      PhysAddInv(W(), kernel, p, Phys(NEW, false, false, false, PhysAttrs(None, None)));
      physes := physes[p := Phys(NEW, false, false, false, PhysAttrs(None, None))];
    }

    /** `lsdn_virt_new` */
    method VirtNew(v: Id, n: Id)
      requires Valid() && v !in virts && n in nets && nets[n].state != DELETE
      modifies this`virts
      ensures Valid() && virts == old(virts)[v := Virt(NEW, false, n, None, None, "", "", VirtAttrs(None, None, None))]
    {
      hide Traced, Inv;
      VirtAddInv(W(), kernel, v, Virt(NEW, false, n, None, None, "", "", VirtAttrs(None, None, None)));
      virts := virts[v := Virt(NEW, false, n, None, None, "", "", VirtAttrs(None, None, None))];
    }

    // -------------------------------------------------------------- the API: attributes

    /** Setting (`lsdn_phys_set_iface`, `lsdn_phys_set_ip`) or clearing an attribute: a change renews the phys. */
    method PhysSetAttrs(p: Id, attrs: PhysAttrs)
      requires Valid() && p in physes && physes[p].state != DELETE
      modifies this`physes
      ensures Valid()
      ensures physes == if attrs == old(physes)[p].attrs then old(physes)
                        else old(physes)[p := old(physes)[p].(attrs := attrs, state := Renew(old(physes)[p].state))]
    {
      hide Traced;
      if physes[p].attrs != attrs {
        ghost var r := physes[p].(attrs := attrs, state := Renew(physes[p].state));
        assert PhysEditOk(W(), p, r) by { PhysLegal(W(), kernel, p); }
        PhysEditInv(W(), kernel, p, r);
        physes := physes[p := physes[p].(attrs := attrs, state := Renew(physes[p].state))];
      }
    }

    /** `lsdn_phys_claim_local` */
    method ClaimLocal(p: Id)
      requires Valid() && p in physes && physes[p].state != DELETE
      modifies this`physes
      ensures Valid()
      ensures physes == if old(physes)[p].isLocal then old(physes)
                        else old(physes)[p := old(physes)[p].(isLocal := true, state := Renew(old(physes)[p].state))]
    {
      hide Traced;
      if !physes[p].isLocal {
        ghost var r := physes[p].(isLocal := true, state := Renew(physes[p].state));
        assert PhysEditOk(W(), p, r) by { PhysLegal(W(), kernel, p); }
        PhysEditInv(W(), kernel, p, r);
        physes := physes[p := physes[p].(isLocal := true, state := Renew(physes[p].state))];
      }
    }

    /** `lsdn_virt_set_mac` and `lsdn_virt_clear_mac`: a change renews the virt. */
    method VirtSetMac(v: Id, mac: Option<Mac>)
      requires Valid() && v in virts && virts[v].state != DELETE
      modifies this`virts
      ensures Valid()
      ensures virts == if mac == old(virts)[v].attrs.mac then old(virts)
                       else old(virts)[v := old(virts)[v].(attrs := old(virts)[v].attrs.(mac := mac), state := Renew(old(virts)[v].state))]
    {
      hide Traced, Inv;
      if virts[v].attrs.mac != mac {
        RenewedVirtInv(W(), kernel, v, virts[v].(attrs := virts[v].attrs.(mac := mac), state := Renew(virts[v].state)));
        virts := virts[v := virts[v].(attrs := virts[v].attrs.(mac := mac), state := Renew(virts[v].state))];
      }
    }

    /** `lsdn_virt_set_rate_in`, `lsdn_virt_set_rate_out` and their clearing counterparts: setting a rate renews the virt
        even if the rate is the same, clearing it only if there was one. */
    method VirtSetRate(v: Id, incoming: bool, rate: Option<QosRate>)
      requires Valid() && v in virts && virts[v].state != DELETE
      modifies this`virts
      ensures Valid()
      ensures virts == if rate.None? && RateOf(old(virts)[v].attrs, incoming).None? then old(virts)
                       else old(virts)[v := old(virts)[v].(attrs := WithRate(old(virts)[v].attrs, incoming, rate), state := Renew(old(virts)[v].state))]
      ensures virts[v].attrs.mac == old(virts)[v].attrs.mac
      ensures virts[v].attrs.rateIn == if incoming then rate else old(virts)[v].attrs.rateIn
      ensures virts[v].attrs.rateOut == if incoming then old(virts)[v].attrs.rateOut else rate
      ensures virts[v].attrs != old(virts)[v].attrs && old(virts)[v].state == OK ==> virts[v].state == RENEW
    {
      hide Traced, Inv;
      if rate.Some? || RateOf(virts[v].attrs, incoming).Some? {
        RenewedVirtInv(W(), kernel, v, virts[v].(attrs := WithRate(virts[v].attrs, incoming, rate), state := Renew(virts[v].state)));
        virts := virts[v := virts[v].(attrs := WithRate(virts[v].attrs, incoming, rate), state := Renew(virts[v].state))];
      }
    }

    // -------------------------------------------------------------- the API: attaching and connecting

    /** `find_or_create_attachement`; `addr` is the address that a new attachment gets. */
    method FindOrCreateAttachment(p: Id, n: Id, addr: Id) returns (a: Id)
      requires Valid() && addr !in pas
      requires p in physes && physes[p].state != DELETE && n in nets && nets[n].state != DELETE
      modifies this`pas
      ensures Valid() && a in pas && pas[a].phys == p && pas[a].net == n
      ensures if a in old(pas) then pas == old(pas) else a == addr && pas == old(pas)[a := Pa(NEW, false, n, p, false)]
      ensures forall b :: b in pas && pas[b].phys == p && pas[b].net == n ==> b == a
    {
      hide Traced;
      if exists b | b in pas :: pas[b].phys == p && pas[b].net == n {
        a :| a in pas && pas[a].phys == p && pas[a].net == n;
        OneAttachmentOf(W(), kernel, a);
      } else {
        a := addr;
        PaAddInv(W(), kernel, a, Pa(NEW, false, n, p, false));
        pas := pas[a := Pa(NEW, false, n, p, false)];
      }
    }

    /** The part of `lsdn_phys_attach` that comes after the attachment is found. */
    method AttachExplicitly(a: Id)
      requires Valid() && a in pas && pas[a].state != DELETE && pas[a].phys in physes && physes[pas[a].phys].state != DELETE
      requires pas[a].net in nets && nets[pas[a].net].state != DELETE
      modifies this`pas, this`physes
      ensures Valid() && W() == Attach(old(W()), a)
    {
      hide Traced, Inv;
      AttachInv(W(), kernel, a);
      var p := pas[a].phys;
      if !pas[a].explicitlyAttached {
        physes := physes[p := physes[p].(state := Renew(physes[p].state))];
      }
      pas := pas[a := pas[a].(explicitlyAttached := true)];
      assert old(pas)[a].explicitlyAttached ==> pas == old(pas);
    }

    /** `lsdn_phys_attach`. An attachment that is being deleted must not be revived. */
    method PhysAttach(p: Id, n: Id, addr: Id)
      requires Valid() && addr !in pas
      requires p in physes && physes[p].state != DELETE && n in nets && nets[n].state != DELETE
      requires forall b :: b in pas && pas[b].phys == p && pas[b].net == n ==> pas[b].state != DELETE
      modifies this`pas, this`physes
      ensures Valid()
      ensures exists a :: AttachedBy(old(W()), W(), p, n, addr, a)
      ensures exists a :: a in pas && pas[a].phys == p && pas[a].net == n
      ensures forall b :: b in pas && pas[b].phys == p && pas[b].net == n ==> pas[b].explicitlyAttached
      ensures forall b :: b in old(pas) ==> b in pas && pas[b] == old(pas)[b].(explicitlyAttached := pas[b].explicitlyAttached)
      ensures forall b :: b in old(pas) && !(old(pas)[b].phys == p && old(pas)[b].net == n) ==> pas[b] == old(pas)[b]
      ensures forall b :: b in pas && b !in old(pas) ==> b == addr && pas[b] == Pa(NEW, false, n, p, true)
      ensures physes.Keys == old(physes).Keys && forall q :: q in physes && q != p ==> physes[q] == old(physes)[q]
      ensures physes[p] == old(physes)[p].(state := physes[p].state)
      ensures physes[p].state == if old(physes)[p].state == OK && !(exists b :: b in old(pas) && old(pas)[b].phys == p && old(pas)[b].net == n && old(pas)[b].explicitlyAttached)
                                 then RENEW else old(physes)[p].state
    {
      hide Traced, Inv, AttachedBy, Attach;
      ghost var w0 := W();
      var a := FindOrCreateAttachment(p, n, addr);
      ghost var w1 := W();
      forall b | b in w0.pas && w0.pas[b].phys == p && w0.pas[b].net == n ensures b == a { assert pas[b] == w0.pas[b]; }
      AttachExplicitly(a);
      AttachedByIntro(w0, w1, W(), p, n, addr, a);
      AttachedByMeans(w0, W(), p, n, addr, a);
      AttachedByRenews(w0, W(), p, n, addr, a);
    }

    /** `phys_detach_by_pa` */
    method DetachByPa(a: Id)
      requires Valid() && a in pas
      modifies this`pas
      ensures Valid() && W() == Detached(old(W()), a)
      ensures forall b :: b != a ==> (b in pas <==> b in old(pas))
      ensures forall b :: b in pas && b != a ==> pas[b] == old(pas)[b]
      ensures if (exists v :: v in virts && virts[v].connectedThrough == Some(a))
              then a in pas && pas[a] == old(pas)[a].(explicitlyAttached := false)
              else if old(pas)[a].state == NEW then a !in pas
              else a in pas && pas[a] == old(pas)[a].(explicitlyAttached := false, state := DELETE, pendingFree := true)
    {
      hide Traced, Inv;
      DetachedInv(W(), kernel, a);
      pas := pas[a := pas[a].(explicitlyAttached := false)];
      FreePaIfPossible(a);
    }

    /** `lsdn_phys_detach` */
    method PhysDetach(p: Id, n: Id)
      requires Valid()
      modifies this`pas
      ensures Valid()
      ensures forall a :: a in old(pas) && old(pas)[a].phys == p && old(pas)[a].net == n ==> W() == Detached(old(W()), a)
      ensures (forall a :: a in old(pas) ==> old(pas)[a].phys != p || old(pas)[a].net != n) ==> pas == old(pas)
    {
      hide Traced, Inv, Detached;
      if exists a | a in pas :: pas[a].phys == p && pas[a].net == n {
        var a :| a in pas && pas[a].phys == p && pas[a].net == n;
        OneAttachmentOf(W(), kernel, a);
        DetachByPa(a);
      }
    }

    /** `lsdn_virt_disconnect` */
    method VirtDisconnect(v: Id)
      requires Valid() && v in virts && virts[v].state != DELETE
      modifies this`virts
      ensures Valid() && virts == old(virts)[v := Unplugged(old(virts)[v])]
      ensures virts[v] == old(virts)[v].(connectedThrough := None, state := virts[v].state)
      ensures virts[v].state == if old(virts)[v].connectedThrough.Some? && old(virts)[v].state == OK then RENEW else old(virts)[v].state
    {
      hide Traced, Inv;
      UnpluggedInv(W(), kernel, v);
      if virts[v].connectedThrough.Some? {
        virts := virts[v := virts[v].(connectedThrough := None, state := Renew(virts[v].state))];
      }
    }

    /** The part of `lsdn_virt_connect` that comes after the attachment is found. */
    method PlugInto(v: Id, a: Id, iface: string)
      requires Valid() && v in virts && virts[v].state != DELETE
      requires a in pas && pas[a].net == virts[v].net && pas[a].state != DELETE
      modifies this`virts
      ensures Valid() && virts == old(virts)[v := Connect(old(virts)[v], a, iface)]
    {
      hide Traced, Inv;
      ConnectInv(W(), kernel, v, a, iface);
      virts := virts[v := virts[v].(connectedIf := iface)];
      if virts[v].connectedThrough.Some? {
        virts := virts[v := virts[v].(connectedThrough := None, state := Renew(virts[v].state))];
      }
      virts := virts[v := virts[v].(connectedThrough := Some(a), state := Renew(virts[v].state))];
      assert virts == old(virts)[v := Connect(old(virts)[v], a, iface)];
    }

    /** `lsdn_virt_connect`. An attachment that is being deleted must not be revived. */
    method VirtConnect(v: Id, p: Id, iface: string, addr: Id)
      requires Valid() && addr !in pas && v in virts && virts[v].state != DELETE
      requires p in physes && physes[p].state != DELETE
      requires forall b :: b in pas && pas[b].phys == p && pas[b].net == virts[v].net ==> pas[b].state != DELETE
      modifies this`pas, this`virts
      ensures Valid()
      ensures exists a :: ConnectedBy(old(W()), W(), v, p, iface, addr, a)
      ensures virts.Keys == old(virts).Keys && forall u :: u in virts && u != v ==> virts[u] == old(virts)[u]
      ensures virts[v].connectedThrough.Some? && virts[v].connectedThrough.value in pas
      ensures pas[virts[v].connectedThrough.value].phys == p && pas[virts[v].connectedThrough.value].net == virts[v].net
      ensures virts[v] == old(virts)[v].(connectedThrough := virts[v].connectedThrough, connectedIf := iface, state := virts[v].state)
      ensures virts[v].state == if old(virts)[v].state == OK then RENEW else old(virts)[v].state
      ensures forall b :: b in old(pas) ==> b in pas && pas[b] == old(pas)[b]
      ensures forall b :: b in pas && b !in old(pas) ==>
                b == addr && virts[v].connectedThrough == Some(b) && pas[b] == Pa(NEW, false, virts[v].net, p, false)
    {
      hide Traced, Inv, ConnectedBy;
      ghost var w0 := W();
      VirtNet(W(), kernel, v);
      var a := FindOrCreateAttachment(p, virts[v].net, addr);
      PlugInto(v, a, iface);
      ConnectedByIntro(w0, W(), v, p, iface, addr, a);
      ConnectedByMeans(w0, W(), v, p, iface, addr, a);
    }

    // -------------------------------------------------------------- the API: freeing

    /** `lsdn_virt_free` */
    method VirtFree(v: Id)
      requires Valid() && v in virts
      modifies this`pas, this`virts
      ensures Valid() && W() == VirtFreed(old(W()), v)
      ensures forall u :: u != v ==> (u in virts <==> u in old(virts))
      ensures forall u :: u in virts && u != v ==> virts[u] == old(virts)[u]
      ensures if old(virts)[v].state == NEW then v !in virts
              else v in virts && virts[v] == old(virts)[v].(state := DELETE, pendingFree := true)
      ensures old(virts)[v].state != NEW || old(virts)[v].connectedThrough.None? ==> pas == old(pas)
    {
      hide Traced, Inv;
      VirtFreedInv(W(), kernel, v);
      if virts[v].state == NEW {
        VirtDoFree(v);
      } else {
        virts := virts[v := virts[v].(state := DELETE, pendingFree := true)];
      }
    }

    method FreeVirts(n: Id) returns (ghost gone: set<Id>)
      requires Valid()
      modifies this`pas, this`virts
      ensures Valid() && VirtsGoing(old(virts), virts, gone) && PasGoing(old(W()), pas, virts)
      ensures forall v :: v in gone <==> v in old(virts) && old(virts)[v].net == n
    {
      hide Traced, Inv, PasGoing, VirtFreed;
      gone := {};
      GoingStart(W());
      var todo := set v | v in virts && virts[v].net == n;
      while todo != {}
        invariant Valid() && VirtsGoing(old(virts), virts, gone) && PasGoing(old(W()), pas, virts)
        invariant gone !! todo && forall v :: v in gone + todo <==> v in old(virts) && old(virts)[v].net == n
      {
        var v :| v in todo;
        VirtThrough(W(), kernel, v);
        VirtFreedGoing(old(W()), W(), v, gone);
        VirtFree(v);
        gone, todo := gone + {v}, todo - {v};
      }
    }

    method DetachAll(n: Id, ghost w0: World)
      requires Valid() && PasDetaching(w0, pas, virts, n, set a | a in pas && pas[a].net == n)
      modifies this`pas
      ensures Valid() && PasDetaching(w0, pas, virts, n, {})
    {
      hide Traced, Inv, PasDetaching, Detached;
      var todo := set a | a in pas && pas[a].net == n;
      while todo != {}
        invariant Valid() && PasDetaching(w0, pas, virts, n, todo)
      {
        var a :| a in todo;
        DetachingStep(w0, W(), n, todo, a);
        DetachByPa(a);
        todo := todo - {a};
      }
    }

    /** `lsdn_net_free` */
    method NetFree(n: Id)
      requires Valid() && n in nets
      modifies this`nets, this`pas, this`virts
      ensures Valid() && Freed(old(W()), W(), {n})
    {
      hide Traced, Inv, PasGoing, VirtsGoing, PasDetaching, PasFreed, VirtsFreed;
      ghost var w0 := W();
      ghost var gone := FreeVirts(n);
      NetFreeMiddle(w0, W(), kernel, n, gone, set a | a in pas && pas[a].net == n);
      DetachAll(n, w0);
      DetachingEnd(w0, W(), n, gone);
      NetReady(W(), kernel, w0, n);
      if nets[n].state == NEW {
        WithoutNetInv(W(), kernel, n);
        NetDoFree(n);
      } else {
        NetEditInv(W(), kernel, n, nets[n].(state := DELETE, pendingFree := true));
        nets := nets[n := nets[n].(state := DELETE, pendingFree := true)];
      }
    }

    /** `lsdn_settings_free` */
    method SettingsFree(s: Id)
      requires Valid() && s in settings
      modifies this`settings, this`nets, this`pas, this`virts
      ensures Valid()
      ensures Freed(old(W()), W().(settings := old(settings)), NetsOf(old(nets), s))
      ensures settings == if old(settings)[s].state == NEW then old(settings) - {s}
                          else old(settings)[s := Settings(DELETE, true)]
    {
      hide Traced, Inv, Freed;
      ghost var w0 := W();
      ghost var freed: set<Id> := {};
      FreedStart(w0);
      var todo := set n | n in nets && nets[n].settings == s;
      while todo != {}
        invariant Valid() && settings == old(settings) && Freed(w0, W(), freed)
        invariant todo <= nets.Keys && freed !! todo && freed + todo == NetsOf(old(nets), s)
      {
        var n :| n in todo;
        ghost var w1 := W();
        InvVirtsOk(w1, kernel);
        NetFree(n);
        FreedCompose(w0, w1, W(), freed, n);
        FreedNets(w1, W(), {n});
        freed, todo := freed + {n}, todo - {n};
      }
      assert freed == NetsOf(old(nets), s);
      SettingsReady(w0, W(), kernel, s);
      if settings[s].state == NEW {
        WithoutSettingsInv(W(), kernel, s);
        SettingsDoFree(s);
      } else {
        SettingsEditInv(W(), kernel, s, settings[s].(state := DELETE, pendingFree := true));
        settings := settings[s := settings[s].(state := DELETE, pendingFree := true)];
      }
      assert W().(settings := w0.settings) == World(w0.settings, nets, physes, pas, virts);
    }

    method DisconnectAll(a: Id)
      requires Valid() && Unpluggable(virts, a)
      modifies this`virts
      ensures Valid() && VirtsUnplugged(old(virts), virts, {a})
    {
      hide Traced, Inv;
      var todo := set v | v in virts && virts[v].connectedThrough == Some(a);
      while todo != {}
        invariant Valid() && virts.Keys == old(virts).Keys && todo <= virts.Keys
        invariant forall v :: v in todo ==> old(virts)[v].connectedThrough == Some(a)
        invariant forall v :: v in virts && old(virts)[v].connectedThrough != Some(a) ==> virts[v] == old(virts)[v]
        invariant forall v :: v in virts && old(virts)[v].connectedThrough == Some(a) ==>
                    virts[v] == if v in todo then old(virts)[v] else Unplugged(old(virts)[v])
      {
        var v :| v in todo;
        VirtDisconnect(v);
        todo := todo - {v};
      }
    }

    /** `lsdn_phys_free`. No virt that is being deleted may still be connected through the phys. */
    method PhysFree(p: Id)
      requires Valid() && p in physes
      requires forall a :: a in pas && pas[a].phys == p ==> Unpluggable(virts, a)
      modifies this`physes, this`pas, this`virts
      ensures Valid()
      ensures VirtsUnplugged(old(virts), virts, PasOf(old(pas), p)) && PasCleared(old(pas), pas, PasOf(old(pas), p))
      ensures physes == if old(physes)[p].state == NEW then old(physes) - {p}
                        else old(physes)[p := old(physes)[p].(state := DELETE, pendingFree := true)]
    {
      hide Traced, Inv, VirtsUnplugged, PasCleared, Unpluggable, Detached, PhysEditOk;
      ghost var w0, cleared: set<Id> := W(), {};
      ClearStart(w0);
      var todo := set a | a in pas && pas[a].phys == p;
      while todo != {}
        invariant Valid() && physes == w0.physes && VirtsUnplugged(w0.virts, virts, cleared) && PasCleared(w0.pas, pas, cleared)
        invariant cleared !! todo && cleared + todo == PasOf(w0.pas, p)
      {
        var a :| a in todo;
        ghost var w := W();
        StillUnpluggable(w0.virts, virts, cleared, a);
        DisconnectAll(a);
        ClearStep(w0, w, W(), cleared, a);
        DetachByPa(a);
        cleared, todo := cleared + {a}, todo - {a};
      }
      assert cleared == PasOf(w0.pas, p);
      assert PasOk(w0.nets, w0.physes, w0.pas) by { InvPasOk(w0, kernel); }
      PhysReady(w0, W(), kernel, p, cleared);
      if physes[p].state == NEW {
        PhysDoFree(p);
      } else {
        PhysEditInv(W(), kernel, p, physes[p].(state := DELETE, pendingFree := true));
        physes := physes[p := physes[p].(state := DELETE, pendingFree := true)];
      }
    }

    method FreePhyses()
      requires Valid() && NoDoomedPlugged(virts)
      modifies this`physes, this`pas, this`virts
      ensures Valid() && forall p :: p in physes ==> physes[p].state == DELETE
    {
      hide Traced, Inv, VirtsUnplugged, PasCleared;
      var todo := physes.Keys;
      while todo != {}
        invariant Valid() && NoDoomedPlugged(virts) && todo <= physes.Keys
        invariant forall p :: p in physes && p !in todo ==> physes[p].state == DELETE
      {
        var p :| p in todo;
        ghost var virts0, pas0 := virts, pas;
        PhysFree(p);
        StillNoDoomedPlugged(virts0, virts, PasOf(pas0, p));
        todo := todo - {p};
      }
    }

    method FreeSettings()
      requires Valid() && forall p :: p in physes ==> physes[p].state == DELETE
      modifies this`settings, this`nets, this`pas, this`virts
      ensures Valid() && forall s :: s in settings ==> settings[s].state == DELETE
    {
      hide Traced, Inv, PasFreed, VirtsFreed, NetsFreed;
      var todo := settings.Keys;
      while todo != {}
        invariant Valid() && todo <= settings.Keys
        invariant forall s :: s in settings && s !in todo ==> settings[s].state == DELETE
      {
        var s :| s in todo;
        SettingsFree(s);
        todo := todo - {s};
      }
    }

    /** `lsdn_context_cleanup`, from any state in which no virt being deleted is still connected, such as after any commit.
        Whatever the network types object to, nothing is left to validate. */
    method Cleanup(netProblems: set<Id>, physProblems: set<Id>)
      requires Valid() && NoDoomedPlugged(virts)
      modifies this
      ensures Valid() && W() == World(map[], map[], map[], map[], map[]) && kernel == EmptyKernel
      ensures remotePas == {} && remoteVirts == {}
    {
      hide WellBracketed, Replay, Inv, Problems, Renewed, Committed, AllOk, Describes, UpToDate;
      FreePhyses();
      FreeSettings();
      DoomedWorld(W(), kernel, netProblems, physProblems);
      var r := Commit(netProblems, physProblems);
      EmptyDescribes(W(), kernel);
    }
  }
}
