/** The contract of the network-type callbacks (private/net.h) as a property of whole traces, by counting. */
module Traces {
  import opened Base
  import opened Netmodel

  /** What a callback installs or removes. */
  datatype Thing = ThePa(pa: Id) | TheVirt(virt: Id) | TheView(view: View) | TheVirtView(virtView: VirtView)

  ghost predicate Opens(e: Event, t: Thing)
  {
    match e
    case CreatePa(a, _) => t == ThePa(a)
    case AddVirt(v, _) => t == TheVirt(v)
    case AddRemotePa(x, _) => t == TheView(x)
    case AddRemoteVirt(y, _) => t == TheVirtView(y)
    case _ => false
  }

  ghost predicate Closes(e: Event, t: Thing)
  {
    match e
    case DestroyPa(a) => t == ThePa(a)
    case RemoveVirt(v) => t == TheVirt(v)
    case RemoveRemotePa(x) => t == TheView(x)
    case RemoveRemoteVirt(y) => t == TheVirtView(y)
    case _ => false
  }

  /** How often the thing was installed, less how often it was removed. */
  ghost function Balance(trace: seq<Event>, t: Thing): int
  {
    if trace == [] then 0
    else Balance(trace[..|trace| - 1], t) + (if Opens(trace[|trace| - 1], t) then 1 else 0) - (if Closes(trace[|trace| - 1], t) then 1 else 0)
  }

  ghost predicate Present(k: Kernel, t: Thing)
  {
    match t
    case ThePa(a) => a in k.pas
    case TheVirt(v) => v in k.virts
    case TheView(x) => x in k.views
    case TheVirtView(y) => y in k.virtViews
  }

  /** A callback changes the presence of what it installs or removes, and of nothing else. */
  lemma OneEvent(k: Kernel, e: Event, t: Thing)
    requires Allowed(k, e)
    ensures Opens(e, t) ==> !Closes(e, t) && !Present(k, t) && Present(After(k, e), t)
    ensures Closes(e, t) ==> Present(k, t) && !Present(After(k, e), t)
    ensures !Opens(e, t) && !Closes(e, t) ==> (Present(After(k, e), t) <==> Present(k, t))
  {}

  /** Nothing is installed twice or removed twice: the thing is in the kernel exactly if it was installed once more than removed. */
  lemma {:induction false} BalanceIs(trace: seq<Event>, t: Thing)
    requires WellBracketed(trace)
    ensures Balance(trace, t) == if Present(Replay(trace), t) then 1 else 0
    decreases |trace|
  {
    if trace == [] {
      assert !Present(EmptyKernel, t);
    } else {
      hide Allowed, After, Present, Opens, Closes;
      BalanceIs(trace[..|trace| - 1], t);
      OneEvent(Replay(trace[..|trace| - 1]), trace[|trace| - 1], t);
    }
  }

  lemma {:induction false} PrefixBracketed(trace: seq<Event>, i: nat)
    requires WellBracketed(trace) && i < |trace|
    ensures WellBracketed(trace[..i]) && Allowed(Replay(trace[..i]), trace[i])
    decreases |trace|
  {
    var front := trace[..|trace| - 1];
    if i < |front| {
      PrefixBracketed(front, i);
      assert front[..i] == trace[..i];
    }
  }

  /** A callback that installs meets nothing installed, one that removes something installed. */
  lemma OpenOnce(trace: seq<Event>, i: nat, t: Thing)
    requires WellBracketed(trace) && i < |trace|
    ensures Opens(trace[i], t) ==> Balance(trace[..i], t) == 0
    ensures Closes(trace[i], t) ==> Balance(trace[..i], t) == 1
  {
    PrefixBracketed(trace, i);
    BalanceIs(trace[..i], t);
  }

  /** When an attachment is destroyed, every view of it or by it and every remote virt behind such a view was removed. */
  lemma EmptyWhenDestroyed(trace: seq<Event>, i: nat, x: View, v: Id)
    requires WellBracketed(trace) && i < |trace| && trace[i].DestroyPa? && trace[i].pa in {x.local, x.remote}
    ensures Balance(trace[..i], TheView(x)) == 0 && Balance(trace[..i], TheVirtView(VirtView(x.local, x.remote, v))) == 0
  {
    PrefixBracketed(trace, i);
    BalanceIs(trace[..i], TheView(x));
    BalanceIs(trace[..i], TheVirtView(VirtView(x.local, x.remote, v)));
  }

  /** A virt is added on an attachment that is there, a view by a local attachment that is there, and a remote virt behind a
      view that is there; a view is removed after all remote virts behind it. */
  lemma InsideItsContainer(trace: seq<Event>, i: nat, v: Id)
    requires WellBracketed(trace) && i < |trace|
    ensures trace[i].AddVirt? ==> Balance(trace[..i], ThePa(trace[i].virtConfig.pa)) == 1
    ensures trace[i].AddRemotePa? ==> Balance(trace[..i], ThePa(trace[i].view.local)) == 1
    ensures trace[i].AddRemoteVirt? ==> Balance(trace[..i], TheView(View(trace[i].virtView.local, trace[i].virtView.remote))) == 1
    ensures trace[i].RemoveRemotePa? ==> Balance(trace[..i], TheVirtView(VirtView(trace[i].view.local, trace[i].view.remote, v))) == 0
  {
    PrefixBracketed(trace, i);
    match trace[i]
    case AddVirt(u, c) => BalanceIs(trace[..i], ThePa(c.pa));
    case AddRemotePa(x, _) => BalanceIs(trace[..i], ThePa(x.local));
    case AddRemoteVirt(y, _) => BalanceIs(trace[..i], TheView(View(y.local, y.remote)));
    case RemoveRemotePa(x) => BalanceIs(trace[..i], TheVirtView(VirtView(x.local, x.remote, v)));
    case _ =>
  }

  /** Nothing is left to be removed. */
  lemma AllClosed(trace: seq<Event>)
    requires WellBracketed(trace) && Replay(trace) == EmptyKernel
    ensures forall t :: Balance(trace, t) == 0
  {
    hide WellBracketed, Replay, Balance;
    forall t ensures Balance(trace, t) == 0 { BalanceIs(trace, t); }
  }

  /** A virt in the kernel is as its last add said. */
  lemma {:induction false} LastConfig(trace: seq<Event>, v: Id)
    requires WellBracketed(trace) && v in Replay(trace).virts
    ensures exists j :: 0 <= j < |trace| && trace[j].AddVirt? && trace[j].virt == v && trace[j].virtConfig == Replay(trace).virts[v] &&
                        forall k :: j < k < |trace| ==> !Opens(trace[k], TheVirt(v)) && !Closes(trace[k], TheVirt(v))
    decreases |trace|
  {
    hide Allowed;
    var n := |trace| - 1;
    var front, e := trace[..n], trace[n];
    if Opens(e, TheVirt(v)) {
      assert trace[n].AddVirt?;
    } else {
      LastConfig(front, v);
      var j :| 0 <= j < n && front[j].AddVirt? && front[j].virt == v && front[j].virtConfig == Replay(front).virts[v] &&
               forall k :: j < k < n ==> !Opens(front[k], TheVirt(v)) && !Closes(front[k], TheVirt(v));
      assert trace[j] == front[j];
      forall k | j < k < |trace| ensures !Opens(trace[k], TheVirt(v)) && !Closes(trace[k], TheVirt(v)) {
        if k < n { assert trace[k] == front[k]; }
      }
    }
  }

  /** A virt added on an attachment is removed again before the attachment is destroyed. */
  lemma VirtsGoFirst(trace: seq<Event>, j: nat, i: nat)
    requires WellBracketed(trace) && j < i < |trace| && trace[j].AddVirt? && trace[i].DestroyPa? && trace[j].virtConfig.pa == trace[i].pa
    ensures exists k :: j < k < i && Closes(trace[k], TheVirt(trace[j].virt))
  {
    var v := trace[j].virt;
    PrefixBracketed(trace, i);
    if v in Replay(trace[..i]).virts {
      LastConfig(trace[..i], v);
      var l :| 0 <= l < i && trace[..i][l].AddVirt? && trace[..i][l].virt == v && trace[..i][l].virtConfig == Replay(trace[..i]).virts[v] &&
               forall k :: l < k < i ==> !Opens(trace[..i][k], TheVirt(v)) && !Closes(trace[..i][k], TheVirt(v));
      assert trace[..i][j] == trace[j];
      assert l != j && j < l;
      Reopened(trace, j, l, v);
    } else {
      Vanished(trace, j, i, v);
    }
  }

  /** Between an add that is not undone and a later absence there is a removal. */
  lemma {:induction false} Vanished(trace: seq<Event>, j: nat, i: nat, v: Id)
    requires j < i <= |trace| && Opens(trace[j], TheVirt(v)) && v !in Replay(trace[..i]).virts
    ensures exists k :: j < k < i && Closes(trace[k], TheVirt(v))
    decreases i
  {
    assert trace[..i][..i - 1] == trace[..i - 1] && trace[..i][i - 1] == trace[i - 1];
    if !Closes(trace[i - 1], TheVirt(v)) || i - 1 == j {
      if i - 1 > j {
        Vanished(trace, j, i - 1, v);
      }
    }
  }

  lemma Reopened(trace: seq<Event>, j: nat, l: nat, v: Id)
    requires WellBracketed(trace) && j < l < |trace| && Opens(trace[j], TheVirt(v)) && Opens(trace[l], TheVirt(v))
    ensures exists k :: j < k < l && Closes(trace[k], TheVirt(v))
  {
    PrefixBracketed(trace, l);
    Vanished(trace, j, l, v);
  }
}
