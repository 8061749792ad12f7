/** The decommit phase of a commit in which the kernel may refuse any removal (lsdn.c): which of the deleted objects are
    freed, and when the assertions on the way hold. Objects sit in sequences, in the order of their lists. */
module Failing {
  import opened Base
  import opened States
  import opened LifeCycle

  /** What holds for every object over every run: `PendingMeansFreed`. */
  predicate Legal(o: Obj)
  {
    o.Obj? ==> (o.state == DELETE ==> o.pendingFree) && (o.pendingFree ==> o.state in {DELETE, FAIL})
  }

  /** `free_helper` */
  function FreeHelper(o: Obj): Obj
  {
    if o.Obj? && o.state != NEW then Obj(DELETE, true) else Gone
  }

  // ---------------------------------------------------------------- the attachments of a network

  /** A remote view, by the positions of its two attachments in the list of the network. */
  datatype Link = Link(local: nat, remote: nat)

  ghost predicate LinksOk(atts: seq<Obj>, links: set<Link>)
  {
    forall x :: x in links ==> x.local < |atts| && x.remote < |atts| && x.local != x.remote && atts[x.local].Obj? && atts[x.remote].Obj?
  }

  /** An attachment before `i` in the list is decommitted first and its view of `i` cannot be taken out of the kernel:
      the failure is marked on `i`, which is not pending decommission any more when its turn comes. */
  ghost predicate Spoiled(pas: seq<Obj>, links: set<Link>, failing: set<Link>, i: nat)
    decreases i, 0
  {
    exists j: nat :: j < i && j < |pas| && Link(j, i) in links && Link(j, i) in failing && Reached(pas, links, failing, j)
  }

  /** The decommit phase takes the attachment at position `j` out. */
  ghost predicate Reached(pas: seq<Obj>, links: set<Link>, failing: set<Link>, j: nat)
    requires j < |pas|
    decreases j, 1
  {
    pas[j].Obj? && MustDecommit(pas[j].state) && !Spoiled(pas, links, failing, j)
  }

  /** Some attachment before `i` spoils `k`. */
  ghost predicate SpoiledBefore(pas: seq<Obj>, links: set<Link>, failing: set<Link>, i: nat, k: nat)
  {
    exists j: nat :: j < i && j < |pas| && Link(j, k) in links && Link(j, k) in failing && Reached(pas, links, failing, j)
  }

  /** The views that are left when the walk has reached position `i`. */
  ghost predicate LinksLeft(pas: seq<Obj>, links: set<Link>, failing: set<Link>, i: nat, left: set<Link>)
  {
    forall x :: x in left <==> x in links && !TakenOut(pas, links, failing, i, x.local) && !TakenOut(pas, links, failing, i, x.remote)
  }

  ghost predicate TakenOut(pas: seq<Obj>, links: set<Link>, failing: set<Link>, i: nat, j: nat)
  {
    j < i && j < |pas| && Reached(pas, links, failing, j)
  }

  /** `decommit_remote_pa` for every view of the attachment at `i`: a failure is marked on the remote side. */
  method TakeOutViews(pas: seq<Obj>, i: nat, todo: set<Link>, failing: set<Link>) returns (r: seq<Obj>)
    requires i < |pas| && (forall x :: x in todo ==> (x.local == i || x.remote == i) && x.remote < |pas| && pas[x.remote].Obj?)
    ensures |r| == |pas|
    ensures forall k :: 0 <= k < |pas| ==>
              r[k] == if exists x :: x in todo && x in failing && x.remote == k then pas[k].(state := FAIL) else pas[k]
  {
    r := pas;
    var rest := todo;
    while rest != {}
      invariant rest <= todo && |r| == |pas|
      invariant forall k :: 0 <= k < |pas| ==>
                  r[k] == if exists x :: x in todo - rest && x in failing && x.remote == k then pas[k].(state := FAIL) else pas[k]
    {
      var x :| x in rest;
      var err := if x in failing then LSDNE_INCONSISTENT else LSDNE_OK;
      r := r[x.remote := r[x.remote].(state := MarkCommitErr(r[x.remote].state, true, err))];
      assert todo - (rest - {x}) == todo - rest + {x};
      rest := rest - {x};
    }
    assert todo - rest == todo;
  }

  /** Some view of `k` cannot be taken out of the kernel. */
  ghost predicate Misseen(links: set<Link>, failing: set<Link>, k: nat)
  {
    exists j: nat :: Link(j, k) in links && Link(j, k) in failing
  }

  /** What its own turn leaves of an attachment that is reached. If a view of it cannot be taken out, that view is still there
      at its turn, for it would be spoiled otherwise. */
  ghost function AfterTurn(o: Obj, failed: bool): Obj
    requires o.Obj?
  {
    if o.pendingFree then Gone else o.(state := if failed then FAIL else NEW)
  }

  /** What the walk has made of the attachment at position `k` when it has reached `i`. */
  ghost predicate Swept(pas: seq<Obj>, links: set<Link>, failing: set<Link>, stuck: set<nat>, i: nat, k: nat, now: Obj)
    requires k < |pas|
  {
    if k < i && Reached(pas, links, failing, k) then now == AfterTurn(pas[k], k in stuck || Misseen(links, failing, k))
    else now == if pas[k].Obj? && SpoiledBefore(pas, links, failing, i, k) then pas[k].(state := FAIL) else pas[k]
  }

  /** The attachment does not survive the walk. */
  ghost predicate Goes(pas: seq<Obj>, links: set<Link>, failing: set<Link>, k: nat)
    requires k < |pas|
  {
    pas[k] == Gone || (pas[k].state == DELETE && !Spoiled(pas, links, failing, k))
  }

  lemma SpoiledOne(pas: seq<Obj>, links: set<Link>, failing: set<Link>, i: nat, k: nat)
    requires i < |pas|
    ensures SpoiledBefore(pas, links, failing, i + 1, k) <==>
              SpoiledBefore(pas, links, failing, i, k) || (Reached(pas, links, failing, i) && Link(i, k) in links && Link(i, k) in failing)
  {}

  lemma LinksOne(pas: seq<Obj>, links: set<Link>, failing: set<Link>, i: nat, left: set<Link>)
    requires i < |pas| && LinksLeft(pas, links, failing, i, left)
    ensures LinksLeft(pas, links, failing, i + 1, if Reached(pas, links, failing, i) then set x | x in left && x.local != i && x.remote != i else left)
  {}

  lemma SpoiledObj(pas: seq<Obj>, links: set<Link>, failing: set<Link>, i: nat, k: nat)
    requires LinksOk(pas, links) && k < |pas| && SpoiledBefore(pas, links, failing, i, k)
    ensures pas[k].Obj?
  {}

  /** The attachment part of the decommit phase for one network, when the views in `failing` and the attachments in
      `stuck` cannot be taken out of the kernel: a deleted attachment is freed if and only if it is not spoiled. */
  method DecommitPas(pas: seq<Obj>, links: set<Link>, failing: set<Link>, stuck: set<nat>) returns (r: seq<Obj>)
    requires (forall k :: 0 <= k < |pas| ==> Legal(pas[k])) && LinksOk(pas, links)
    ensures |r| == |pas| && forall k :: 0 <= k < |pas| ==> (r[k] == Gone <==> Goes(pas, links, failing, k))
    ensures forall k :: 0 <= k < |pas| ==> Swept(pas, links, failing, stuck, |pas|, k, r[k])
    ensures forall k :: 0 <= k < |pas| && r[k].Obj? && Reached(pas, links, failing, k) ==>
              r[k] == pas[k].(state := if k in stuck || (exists j: nat :: Link(j, k) in links && Link(j, k) in failing) then FAIL else NEW)
    ensures forall k :: 0 <= k < |pas| && pas[k].Obj? && !Reached(pas, links, failing, k) ==>
              r[k] == pas[k].(state := if exists j: nat :: j < |pas| && Reached(pas, links, failing, j) && Link(j, k) in links && Link(j, k) in failing
                                       then FAIL else pas[k].state)
  {
    hide LinksLeft, Swept;
    r := pas;
    var left := links;
    SweepStart(pas, links, failing, stuck);
    for i := 0 to |pas|
      invariant |r| == |pas| && LinksLeft(pas, links, failing, i, left)
      invariant forall k :: 0 <= k < |pas| ==> Swept(pas, links, failing, stuck, i, k, r[k])
    {
      r, left := DecommitOne(pas, links, failing, stuck, i, r, left);
    }
    SweepEnd(pas, links, failing, stuck, r);
  }

  lemma SweepStart(pas: seq<Obj>, links: set<Link>, failing: set<Link>, stuck: set<nat>)
    ensures LinksLeft(pas, links, failing, 0, links) && forall k :: 0 <= k < |pas| ==> Swept(pas, links, failing, stuck, 0, k, pas[k])
  {}

  lemma SweepEnd(pas: seq<Obj>, links: set<Link>, failing: set<Link>, stuck: set<nat>, r: seq<Obj>)
    requires (forall k :: 0 <= k < |pas| ==> Legal(pas[k])) && LinksOk(pas, links)
    requires |r| == |pas| && forall k :: 0 <= k < |pas| ==> Swept(pas, links, failing, stuck, |pas|, k, r[k])
    ensures forall k :: 0 <= k < |pas| ==> (r[k] == Gone <==> Goes(pas, links, failing, k))
    ensures forall k :: 0 <= k < |pas| && r[k].Obj? && Reached(pas, links, failing, k) ==>
              r[k] == pas[k].(state := if k in stuck || Misseen(links, failing, k) then FAIL else NEW)
    ensures forall k :: 0 <= k < |pas| && pas[k].Obj? && !Reached(pas, links, failing, k) ==>
              r[k] == pas[k].(state := if SpoiledBefore(pas, links, failing, |pas|, k) then FAIL else pas[k].state)
  {
    hide SpoiledBefore, Misseen, Spoiled;
  }

  /** The views that are left are between attachments that are left. */
  lemma LeftLive(pas: seq<Obj>, links: set<Link>, failing: set<Link>, stuck: set<nat>, i: nat, r: seq<Obj>, left: set<Link>)
    requires |r| == |pas| && LinksOk(pas, links) && LinksLeft(pas, links, failing, i, left)
    requires forall k :: 0 <= k < |pas| ==> Swept(pas, links, failing, stuck, i, k, r[k])
    ensures LinksOk(r, left)
  {
    forall x | x in left
      ensures r[x.local].Obj? && r[x.remote].Obj?
    {
      assert Swept(pas, links, failing, stuck, i, x.local, r[x.local]) && Swept(pas, links, failing, stuck, i, x.remote, r[x.remote]);
    }
  }

  /** The walk comes to an attachment that is pending decommission exactly when it is reached. */
  lemma Turn(pas: seq<Obj>, links: set<Link>, failing: set<Link>, stuck: set<nat>, i: nat, now: Obj)
    requires i < |pas| && LinksOk(pas, links) && Swept(pas, links, failing, stuck, i, i, now)
    ensures now.Obj? && MustDecommit(now.state) ==> now == pas[i]
    ensures (now.Obj? && MustDecommit(now.state)) <==> Reached(pas, links, failing, i)
  {
    assert SpoiledBefore(pas, links, failing, i, i) == Spoiled(pas, links, failing, i);
    if SpoiledBefore(pas, links, failing, i, i) { SpoiledObj(pas, links, failing, i, i); }
  }

  /** A turn that does nothing. */
  lemma SweptSkip(pas: seq<Obj>, links: set<Link>, failing: set<Link>, stuck: set<nat>, i: nat, k: nat, now: Obj)
    requires i < |pas| && k < |pas| && LinksOk(pas, links) && Swept(pas, links, failing, stuck, i, k, now) && !Reached(pas, links, failing, i)
    ensures Swept(pas, links, failing, stuck, i + 1, k, now)
  {
    SpoiledOne(pas, links, failing, i, k);
    assert SpoiledBefore(pas, links, failing, i, i) == Spoiled(pas, links, failing, i);
    if k == i && SpoiledBefore(pas, links, failing, i, k) { SpoiledObj(pas, links, failing, i, k); }
  }

  /** What the turn of a reached attachment does to another one. */
  lemma SweptOther(pas: seq<Obj>, links: set<Link>, failing: set<Link>, stuck: set<nat>, i: nat, left: set<Link>, k: nat, before: Obj, now: Obj)
    requires i < |pas| && k < |pas| && k != i && LinksOk(pas, links) && LinksLeft(pas, links, failing, i, left)
    requires Reached(pas, links, failing, i) && Swept(pas, links, failing, stuck, i, k, before) && (Link(i, k) in left ==> before.Obj?)
    requires now == if Link(i, k) in left && Link(i, k) in failing then before.(state := FAIL) else before
    ensures Swept(pas, links, failing, stuck, i + 1, k, now)
  {
    SpoiledOne(pas, links, failing, i, k);
    if k > i && SpoiledBefore(pas, links, failing, i, k) { SpoiledObj(pas, links, failing, i, k); }
  }

  /** The turn of one attachment. */
  method DecommitOne(ghost pas: seq<Obj>, ghost links: set<Link>, failing: set<Link>, stuck: set<nat>, i: nat, r0: seq<Obj>, left0: set<Link>)
    returns (r: seq<Obj>, left: set<Link>)
    requires (forall k :: 0 <= k < |pas| ==> Legal(pas[k])) && LinksOk(pas, links) && i < |pas| && |r0| == |pas|
    requires LinksLeft(pas, links, failing, i, left0) && forall k :: 0 <= k < |pas| ==> Swept(pas, links, failing, stuck, i, k, r0[k])
    ensures |r| == |pas| && LinksLeft(pas, links, failing, i + 1, left) && forall k :: 0 <= k < |pas| ==> Swept(pas, links, failing, stuck, i + 1, k, r[k])
  {
    hide LinksLeft, Swept, Spoiled, Reached;
    r, left := r0, left0;
    LeftLive(pas, links, failing, stuck, i, r, left);
    Turn(pas, links, failing, stuck, i, r[i]);
    LinksOne(pas, links, failing, i, left);
    if r[i].Obj? && MustDecommit(r[i].state) {
      r := r[i := r[i].(state := AckDecommit(r[i].state))];
      var mine := set x | x in left && (x.local == i || x.remote == i);
      r := TakeOutViews(r, i, mine, failing);
      left := set x | x in left && x.local != i && x.remote != i;
      r := r[i := r[i].(state := MarkCommitErr(r[i].state, true, if i in stuck then LSDNE_INCONSISTENT else LSDNE_OK))];
      if r[i].pendingFree {
        r := r[i := Gone];
      }
      forall k | 0 <= k < |pas| && k != i
        ensures Swept(pas, links, failing, stuck, i + 1, k, r[k])
      {
        MarkedBy(left0, mine, failing, i, k);
        SweptOther(pas, links, failing, stuck, i, left0, k, r0[k], r[k]);
      }
      MarkedSelf(pas, links, failing, i, left0, mine);
      SweptSelf(pas, links, failing, stuck, i, r[i]);
    } else {
      forall k | 0 <= k < |pas|
        ensures Swept(pas, links, failing, stuck, i + 1, k, r[k])
      {
        SweptSkip(pas, links, failing, stuck, i, k, r[k]);
      }
    }
  }

  /** Of the views of `i`, only its own view of `k` marks `k`. */
  lemma MarkedBy(left: set<Link>, mine: set<Link>, failing: set<Link>, i: nat, k: nat)
    requires k != i && mine == set x | x in left && (x.local == i || x.remote == i)
    ensures (exists x :: x in mine && x in failing && x.remote == k) <==> Link(i, k) in left && Link(i, k) in failing
  {
    if Link(i, k) in left && Link(i, k) in failing { assert Link(i, k) in mine; }
  }

  /** The views of `i` that mark it at its own turn are all its views that cannot be taken out. */
  lemma MarkedSelf(pas: seq<Obj>, links: set<Link>, failing: set<Link>, i: nat, left: set<Link>, mine: set<Link>)
    requires i < |pas| && LinksLeft(pas, links, failing, i, left) && Reached(pas, links, failing, i)
    requires mine == set x | x in left && (x.local == i || x.remote == i)
    ensures (exists x :: x in mine && x in failing && x.remote == i) <==> Misseen(links, failing, i)
  {
    if x :| x in mine && x in failing && x.remote == i {
      assert Link(x.local, i) == x;
    }
    if j: nat :| Link(j, i) in links && Link(j, i) in failing {
      assert !TakenOut(pas, links, failing, i, j) && !TakenOut(pas, links, failing, i, i);
      assert Link(j, i) in mine;
    }
  }

  lemma SweptSelf(pas: seq<Obj>, links: set<Link>, failing: set<Link>, stuck: set<nat>, i: nat, now: Obj)
    requires i < |pas| && Reached(pas, links, failing, i) && now == AfterTurn(pas[i], i in stuck || Misseen(links, failing, i))
    ensures Swept(pas, links, failing, stuck, i + 1, i, now)
  {}

  // ---------------------------------------------------------------- a network

  /** A network with its virts and attachments in list order: through which attachment a virt is connected, whether an
      attachment is explicit and to which phys it belongs. */
  datatype Net = Net(
    obj: Obj, settings: nat, virts: seq<Obj>, through: seq<Option<nat>>,
    atts: seq<Obj>, explicitly: seq<bool>, physOf: seq<nat>, links: set<Link>)

  /** The virt exists and is connected through the attachment. */
  predicate Plugged(virts: seq<Obj>, through: seq<Option<nat>>, a: nat, v: nat)
  {
    v < |virts| && v < |through| && virts[v].Obj? && through[v] == Some(a)
  }

  /** Deleted attachments are neither explicit nor in use, and views are between committed attachments. */
  ghost predicate NetOk(n: Net)
  {
    && |n.through| == |n.virts| && |n.explicitly| == |n.atts| && |n.physOf| == |n.atts| && Legal(n.obj)
    && (forall v :: 0 <= v < |n.virts| ==> Legal(n.virts[v])) && (forall a :: 0 <= a < |n.atts| ==> Legal(n.atts[a]))
    && (forall a: nat, v: nat :: Plugged(n.virts, n.through, a, v) ==> a < |n.atts| && n.atts[a].Obj? && n.atts[a].state != DELETE)
    && (forall a :: 0 <= a < |n.atts| && n.atts[a].Obj? && n.atts[a].state == DELETE ==> !n.explicitly[a])
    && LinksOk(n.atts, n.links) && (forall x :: x in n.links ==> n.atts[x.local].state != NEW && n.atts[x.remote].state != NEW)
  }

  predicate Dead(o: Obj) { o == Gone || o.state == DELETE }

  /** The attachment is not explicit and is in use by virts before `i` that are deleted, and by no other. */
  ghost predicate OrphanedBy(n: Net, i: nat, a: nat)
  {
    && a < |n.explicitly| && !n.explicitly[a]
    && (exists v: nat :: Plugged(n.virts, n.through, a, v))
    && (forall v: nat :: Plugged(n.virts, n.through, a, v) ==> v < i && n.virts[v].state == DELETE)
  }

  /** The attachments once the virts were decommitted: one that lost all its virts is freed or marked. */
  ghost function AfterVirts(n: Net): (r: seq<Obj>)
    ensures |r| == |n.atts|
  {
    seq(|n.atts|, a requires 0 <= a < |n.atts| => if OrphanedBy(n, |n.virts|, a) then FreeHelper(n.atts[a]) else n.atts[a])
  }

  /** What its turn leaves of an object, by whether the kernel refuses to remove it. */
  ghost function Turned(o: Obj, failed: bool): Obj
  {
    if o.Obj? && MustDecommit(o.state) then AfterTurn(o, failed) else o
  }

  lemma TurnedIs(o: Obj, failed: bool)
    requires Legal(o)
    ensures Turned(o, failed) == Gone <==> Dead(o)
    ensures o.Obj? && o.state == RENEW ==> Turned(o, failed) == Obj(if failed then FAIL else NEW, false)
    ensures o.Obj? && o.state != RENEW && o.state != DELETE ==> Turned(o, failed) == o
  {}

  /** What the walk over the virts has made of the virts when it has reached `i`. */
  ghost predicate VirtsSwept(n: Net, stuck: set<nat>, i: nat, virts: seq<Obj>)
  {
    |virts| == |n.virts| && forall v :: 0 <= v < |virts| ==> virts[v] == if v < i then Turned(n.virts[v], v in stuck) else n.virts[v]
  }

  /** And of the attachments. */
  ghost predicate AttsMarked(n: Net, i: nat, atts: seq<Obj>)
  {
    |atts| == |n.atts| && forall a :: 0 <= a < |atts| ==> atts[a] == if OrphanedBy(n, i, a) then FreeHelper(n.atts[a]) else n.atts[a]
  }

  /** An attachment has a virt left when the walk has reached `i` unless all its virts were deleted ones before `i`. */
  lemma PlugsLeft(n: Net, stuck: set<nat>, i: nat, virts: seq<Obj>, a: nat)
    requires |n.through| == |n.virts| && (forall v :: 0 <= v < |n.virts| ==> Legal(n.virts[v])) && VirtsSwept(n, stuck, i, virts)
    ensures (forall v: nat :: Plugged(n.virts, n.through, a, v) ==> v < i && n.virts[v].state == DELETE) <==>
            !exists v: nat :: Plugged(virts, n.through, a, v)
  {
    forall v: nat
      ensures Plugged(virts, n.through, a, v) <==> Plugged(n.virts, n.through, a, v) && !(v < i && n.virts[v].state == DELETE)
    {
    }
  }

  lemma OrphanNext(n: Net, i: nat, a: nat)
    requires i < |n.virts|
    ensures Plugged(n.virts, n.through, a, i) && n.virts[i].state != DELETE ==> (OrphanedBy(n, i + 1, a) <==> OrphanedBy(n, i, a))
    ensures !Plugged(n.virts, n.through, a, i) ==> (OrphanedBy(n, i + 1, a) <==> OrphanedBy(n, i, a))
    ensures Plugged(n.virts, n.through, a, i) ==> !OrphanedBy(n, i, a)
  {
    if !Plugged(n.virts, n.through, a, i) {
      forall v: nat | Plugged(n.virts, n.through, a, v) ensures v < i + 1 <==> v < i {}
    }
  }

  /** `free_pa_if_possible` */
  method FreePaIfPossible(n: Net, virts: seq<Obj>, atts: seq<Obj>, a: nat) returns (r: seq<Obj>)
    requires a < |atts| && a < |n.explicitly|
    ensures r == if !n.explicitly[a] && !exists v: nat :: Plugged(virts, n.through, a, v) then atts[a := FreeHelper(atts[a])] else atts
  {
    r := atts;
    if !n.explicitly[a] && !exists v | 0 <= v < |virts| :: Plugged(virts, n.through, a, v) {
      r := r[a := FreeHelper(r[a])];
    }
  }

  /** The virt part of the decommit phase; the virts in `stuck` cannot be taken out of the kernel. Every deleted virt is
      freed all the same, and an attachment that loses its last virt goes or is marked. */
  method DecommitVirts(n: Net, stuck: set<nat>) returns (virts: seq<Obj>, atts: seq<Obj>)
    requires NetOk(n)
    ensures VirtsSwept(n, stuck, |n.virts|, virts) && atts == AfterVirts(n)
    ensures forall v :: 0 <= v < |n.virts| ==> (virts[v] == Gone <==> n.virts[v] == Gone || n.virts[v].state == DELETE)
    ensures forall v :: 0 <= v < |n.virts| && n.virts[v].Obj? && n.virts[v].state == RENEW ==>
              virts[v] == Obj(if v in stuck then FAIL else NEW, false)
    ensures forall v :: 0 <= v < |n.virts| && n.virts[v].Obj? && n.virts[v].state !in {RENEW, DELETE} ==> virts[v] == n.virts[v]
  {
    virts, atts := n.virts, n.atts;
    assert forall a: nat :: !OrphanedBy(n, 0, a);
    for i := 0 to |n.virts|
      invariant VirtsSwept(n, stuck, i, virts) && AttsMarked(n, i, atts)
    {
      virts, atts := DecommitVirt(n, stuck, i, virts, atts);
    }
  }

  /** The turn of one virt. */
  method DecommitVirt(n: Net, stuck: set<nat>, i: nat, virts0: seq<Obj>, atts0: seq<Obj>) returns (virts: seq<Obj>, atts: seq<Obj>)
    requires NetOk(n) && i < |n.virts| && VirtsSwept(n, stuck, i, virts0) && AttsMarked(n, i, atts0)
    ensures VirtsSwept(n, stuck, i + 1, virts) && AttsMarked(n, i + 1, atts)
  {
    hide LinksOk, FreeHelper, OrphanedBy;
    virts, atts := virts0, atts0;
    forall a: nat
      ensures !Plugged(n.virts, n.through, a, i) || n.virts[i].state != DELETE ==> (OrphanedBy(n, i + 1, a) <==> OrphanedBy(n, i, a))
    {
      OrphanNext(n, i, a);
    }
    if virts[i].Obj? && MustDecommit(virts[i].state) {
      var err := if i in stuck then LSDNE_INCONSISTENT else LSDNE_OK;
      virts := virts[i := virts[i].(state := MarkCommitErr(AckDecommit(virts[i].state), true, err))];
      if virts[i].pendingFree {
        virts := virts[i := Gone];
        if n.through[i].Some? {
          var a := n.through[i].value;
          assert Plugged(n.virts, n.through, a, i);
          OrphanNext(n, i, a);
          LastPlug(n, stuck, i, virts, a);
          atts := FreePaIfPossible(n, virts, atts, a);
        }
      }
    }
  }

  lemma LastPlug(n: Net, stuck: set<nat>, i: nat, virts: seq<Obj>, a: nat)
    requires |n.through| == |n.virts| && (forall v :: 0 <= v < |n.virts| ==> Legal(n.virts[v])) && VirtsSwept(n, stuck, i + 1, virts)
    requires a < |n.explicitly| && Plugged(n.virts, n.through, a, i)
    ensures OrphanedBy(n, i + 1, a) <==> !n.explicitly[a] && !exists v: nat :: Plugged(virts, n.through, a, v)
  {
    PlugsLeft(n, stuck, i + 1, virts, a);
  }

  // ---------------------------------------------------------------- the network itself

  /** The attachment is gone when its network has been decommitted. */
  ghost predicate AttGoes(n: Net, failing: set<Link>, a: nat)
    requires a < |n.atts|
  {
    Goes(AfterVirts(n), n.links, failing, a)
  }

  /** What freeing a network leaves behind: every virt is gone or deleted, and every attachment is deleted or has a virt. */
  ghost predicate NetFreed(n: Net)
  {
    && |n.through| == |n.virts| && |n.explicitly| == |n.atts|
    && n.obj.Obj? && n.obj.state == DELETE && (forall v :: 0 <= v < |n.virts| ==> Dead(n.virts[v]))
    && (forall a :: 0 <= a < |n.atts| && n.atts[a].Obj? ==>
          !n.explicitly[a] && (n.atts[a].state == DELETE || exists v: nat :: Plugged(n.virts, n.through, a, v)))
  }

  lemma AfterVirtsOk(n: Net)
    requires NetOk(n)
    ensures (forall a :: 0 <= a < |n.atts| ==> Legal(AfterVirts(n)[a])) && LinksOk(AfterVirts(n), n.links)
  {}

  /** In a freed network every attachment that is left after the virts is deleted. */
  lemma FreedAfterVirts(n: Net)
    requires NetOk(n) && NetFreed(n)
    ensures forall a :: 0 <= a < |n.atts| ==> Dead(AfterVirts(n)[a])
  {
    forall a | 0 <= a < |n.atts| && n.atts[a].Obj? && n.atts[a].state != DELETE
      ensures OrphanedBy(n, |n.virts|, a)
    {
      assert forall v: nat :: Plugged(n.virts, n.through, a, v) ==> Dead(n.virts[v]);
    }
  }

  /** The attachment is spoiled when its turn comes. */
  ghost predicate AttSpoiled(n: Net, failing: set<Link>, a: nat)
  {
    Spoiled(AfterVirts(n), n.links, failing, a)
  }

  /** The assertions of `net_do_free` hold for a freed network if and only if no attachment of it is spoiled. */
  lemma EmptyIffUnspoiled(n: Net, failing: set<Link>)
    requires NetOk(n) && NetFreed(n)
    ensures (forall a :: 0 <= a < |n.atts| ==> AttGoes(n, failing, a)) <==> (forall a :: 0 <= a < |n.atts| ==> !AttSpoiled(n, failing, a))
  {
    hide OrphanedBy, NetFreed;
    FreedAfterVirts(n);
    AfterVirtsOk(n);
    forall a | 0 <= a < |n.atts|
      ensures AttGoes(n, failing, a) <==> !AttSpoiled(n, failing, a)
    {
      assert Dead(AfterVirts(n)[a]);
    }
  }

  /** What the phase leaves of a virt: the deleted ones go, a renewed one is new again or has failed, and one that is blamed for
      a remote virt has failed. */
  ghost function VirtLeft(o: Obj, stuck: bool, blamed: bool): Obj
  {
    if Dead(o) then Gone
    else if blamed || (stuck && o.state == RENEW) then o.(state := FAIL)
    else if o.state == RENEW then o.(state := NEW) else o
  }

  /** One network in the decommit phase; `ok` is whether the assertions of `net_do_free` hold, which is reached for a deleted
      network. The virts in `blamed` are marked when a view with one of their remote virts cannot be taken out. */
  method DecommitNet(n: Net, failing: set<Link>, stuckVirts: set<nat>, stuckAtts: set<nat>, blamed: set<nat>) returns (r: Net, ok: bool)
    requires NetOk(n) && n.obj.Obj?
    ensures r == n.(obj := r.obj, virts := r.virts, atts := r.atts) && |r.virts| == |n.virts| && |r.atts| == |n.atts|
    ensures forall v :: 0 <= v < |n.virts| ==> r.virts[v] == VirtLeft(n.virts[v], v in stuckVirts, v in blamed)
    ensures forall v :: 0 <= v < |n.virts| ==> (r.virts[v] == Gone <==> Dead(n.virts[v]))
    ensures forall a :: 0 <= a < |n.atts| ==> (r.atts[a] == Gone <==> AttGoes(n, failing, a))
    ensures forall a :: 0 <= a < |n.atts| ==> Swept(AfterVirts(n), n.links, failing, stuckAtts, |n.atts|, a, r.atts[a])
    ensures n.obj.state != DELETE ==> ok && r.obj == n.obj.(state := if n.obj.state == RENEW then NEW else n.obj.state)
    ensures n.obj.state == DELETE ==>
              (ok <==> (forall v :: 0 <= v < |n.virts| ==> Dead(n.virts[v])) && (forall a :: 0 <= a < |n.atts| ==> AttGoes(n, failing, a))) &&
              (ok <==> r.obj == Gone)
  {
    hide OrphanedBy, Goes, AfterVirts, Swept, VirtsSwept;
    var virts, atts := DecommitVirts(n, stuckVirts);
    AfterVirtsOk(n);
    atts := DecommitPas(atts, n.links, failing, stuckAtts);
    virts := seq(|virts|, v requires 0 <= v < |virts| => if v in blamed && virts[v].Obj? then virts[v].(state := FAIL) else virts[v]);
    r, ok := n.(virts := virts, atts := atts), true;
    if MustDecommit(r.obj.state) {
      r := r.(obj := r.obj.(state := AckDecommit(r.obj.state)));
      if r.obj.pendingFree {
        ok := (forall a | 0 <= a < |atts| :: atts[a] == Gone) && (forall v | 0 <= v < |virts| :: virts[v] == Gone);
        if ok {
          r := r.(obj := Gone);
        }
      }
    }
  }

  // ---------------------------------------------------------------- freeing a network

  /** What `lsdn_net_free` has made of the virts when it has reached `i`. */
  ghost predicate VirtsFreed(n: Net, i: nat, virts: seq<Obj>)
  {
    |virts| == |n.virts| && forall v :: 0 <= v < |virts| ==> virts[v] == if v < i then FreeHelper(n.virts[v]) else n.virts[v]
  }

  /** The attachments keep what matters: none is revived, a used one stays as it is unless it is new. */
  ghost predicate AttsKept(n: Net, virts: seq<Obj>, atts: seq<Obj>)
  {
    && |atts| == |n.atts|
    && (forall a :: 0 <= a < |atts| ==> atts[a] == n.atts[a] || atts[a] == FreeHelper(n.atts[a]))
    && (forall a: nat, v: nat :: Plugged(virts, n.through, a, v) ==> a < |atts| && atts[a] == n.atts[a] && atts[a].Obj? && atts[a].state != DELETE)
  }

  /** The loop of `lsdn_net_free` over the virts. */
  method FreeVirts(n: Net) returns (virts: seq<Obj>, atts: seq<Obj>)
    requires NetOk(n)
    ensures VirtsFreed(n, |n.virts|, virts) && AttsKept(n, virts, atts)
    ensures forall a :: 0 <= a < |atts| && atts[a].Obj? && atts[a].state == DELETE ==> !n.explicitly[a]
  {
    hide LinksOk;
    virts, atts := n.virts, n.atts;
    for i := 0 to |n.virts|
      invariant VirtsFreed(n, i, virts) && AttsKept(n, virts, atts)
      invariant forall a :: 0 <= a < |atts| && atts[a].Obj? && atts[a].state == DELETE ==> !n.explicitly[a]
    {
      var o := virts[i];
      ghost var virts0 := virts;
      virts := virts[i := FreeHelper(o)];
      assert forall a: nat, v: nat :: Plugged(virts, n.through, a, v) ==> Plugged(virts0, n.through, a, v);
      if o.Obj? && o.state == NEW && n.through[i].Some? {
        assert Plugged(virts0, n.through, n.through[i].value, i);
        atts := FreePaIfPossible(n, virts, atts, n.through[i].value);
      }
    }
  }

  /** The loop of `lsdn_net_free` over the attachments. */
  method DetachAll(n: Net, virts: seq<Obj>, atts0: seq<Obj>) returns (atts: seq<Obj>, explicitly: seq<bool>)
    requires NetOk(n) && AttsKept(n, virts, atts0)
    requires forall a :: 0 <= a < |n.atts| && atts0[a].Obj? && atts0[a].state == DELETE ==> !n.explicitly[a]
    ensures AttsKept(n, virts, atts) && |explicitly| == |n.atts| && forall a :: 0 <= a < |n.atts| ==> !explicitly[a]
    ensures forall a :: 0 <= a < |n.atts| && atts[a].Obj? && atts[a].state != DELETE ==> exists v: nat :: Plugged(virts, n.through, a, v)
  {
    hide LinksOk;
    atts, explicitly := atts0, n.explicitly;
    for a := 0 to |n.atts|
      invariant AttsKept(n, virts, atts) && |explicitly| == |n.atts| && forall k :: 0 <= k < a ==> !explicitly[k]
      invariant forall k :: 0 <= k < a && atts[k].Obj? && atts[k].state != DELETE ==> exists v: nat :: Plugged(virts, n.through, k, v)
    {
      explicitly := explicitly[a := false];
      atts := FreePaIfPossible(n.(explicitly := explicitly), virts, atts, a);
    }
  }

  /** `lsdn_net_free` of a committed network: afterwards it is freed in the sense that the decommit phase relies on. */
  method FreeNet(n: Net) returns (r: Net)
    requires NetOk(n) && n.obj.Obj? && n.obj.state != NEW
    ensures NetOk(r) && NetFreed(r) && |r.virts| == |n.virts| && |r.atts| == |n.atts|
    ensures forall v :: 0 <= v < |n.virts| && n.virts[v].Obj? ==> r.virts[v] == if n.virts[v].state == NEW then Gone else Obj(DELETE, true)
    ensures forall a :: 0 <= a < |n.atts| && n.atts[a].Obj? && r.atts[a] != n.atts[a] ==>
              r.atts[a] == if n.atts[a].state == NEW then Gone else Obj(DELETE, true)
  {
    var virts, atts := FreeVirts(n);
    var explicitly;
    atts, explicitly := DetachAll(n, virts, atts);
    r := n.(obj := Obj(DELETE, true), virts := virts, atts := atts, explicitly := explicitly);
  }

  // ---------------------------------------------------------------- the whole phase

  datatype Context = Context(nets: seq<Net>, physes: seq<Obj>, settings: seq<Obj>)

  /** What the kernel refuses to remove in a network: views, virts, attachments; and the virts blamed for remote virts. */
  datatype Faults = Faults(views: set<Link>, virts: set<nat>, atts: set<nat>, blamed: set<nat>)

  /** Freed networks, physes and settings have been freed with their members. */
  ghost predicate ContextOk(c: Context)
  {
    && (forall n :: 0 <= n < |c.nets| && c.nets[n].obj.Obj? ==> NetOk(c.nets[n]) && (c.nets[n].obj.state == DELETE ==> NetFreed(c.nets[n])))
    && (forall p :: 0 <= p < |c.physes| ==> Legal(c.physes[p])) && (forall s :: 0 <= s < |c.settings| ==> Legal(c.settings[s]))
    && (forall n, a :: 0 <= n < |c.nets| && c.nets[n].obj.Obj? && 0 <= a < |c.nets[n].physOf| ==> c.nets[n].physOf[a] < |c.physes|)
    && (forall n, a :: 0 <= n < |c.nets| && c.nets[n].obj.Obj? && 0 <= a < |c.nets[n].atts| && c.nets[n].atts[a].Obj? ==>
          c.physes[c.nets[n].physOf[a]].Obj? && (c.physes[c.nets[n].physOf[a]].state == DELETE ==> c.nets[n].atts[a].state == DELETE))
    && (forall n :: 0 <= n < |c.nets| && c.nets[n].obj.Obj? && c.nets[n].settings < |c.settings| && Dead(c.settings[c.nets[n].settings]) ==>
          c.nets[n].obj.state == DELETE)
  }

  /** What the phase makes of a network if no assertion fails: exactly the deleted virts, the attachments that go and, if
      it is deleted, the network are freed. */
  ghost predicate NetDone(n: Net, faults: Faults, r: Net)
  {
    && r == n.(obj := r.obj, virts := r.virts, atts := r.atts) && |r.virts| == |n.virts| && |r.atts| == |n.atts|
    && (forall v :: 0 <= v < |n.virts| ==> r.virts[v] == VirtLeft(n.virts[v], v in faults.virts, v in faults.blamed))
    && (forall a :: 0 <= a < |n.atts| ==> Swept(AfterVirts(n), n.links, faults.views, faults.atts, |n.atts|, a, r.atts[a]))
    && (forall a :: 0 <= a < |n.atts| ==> (r.atts[a] == Gone <==> AttGoes(n, faults.views, a)))
    && (r.obj == Gone <==> Dead(n.obj)) && (n.obj.Obj? && n.obj.state != DELETE ==> r.obj == n.obj.(state := if n.obj.state == RENEW then NEW else n.obj.state))
  }

  /** A deleted network has a spoiled attachment. */
  ghost predicate NetSpoiled(n: Net, views: set<Link>)
  {
    n.obj.Obj? && n.obj.state == DELETE && exists a :: 0 <= a < |n.atts| && AttSpoiled(n, views, a)
  }

  /** The turn of a network; the assertions of `net_do_free` hold if and only if the network is not deleted or no
      attachment of it is spoiled. */
  method NetTurn(n: Net, faults: Faults) returns (r: Net, ok: bool)
    requires NetOk(n) && n.obj.Obj? && (n.obj.state == DELETE ==> NetFreed(n))
    ensures ok <==> !NetSpoiled(n, faults.views)
    ensures ok ==> NetDone(n, faults, r)
  {
    hide NetOk, AttGoes, AttSpoiled;
    if n.obj.state == DELETE { EmptyIffUnspoiled(n, faults.views); }
    r, ok := DecommitNet(n, faults.views, faults.virts, faults.atts, faults.blamed);
  }

  /** The turns of the networks, until an assertion fails. */
  method NetTurns(nets: seq<Net>, faults: seq<Faults>) returns (r: seq<Net>, ok: bool)
    requires |faults| == |nets|
    requires forall n :: 0 <= n < |nets| && nets[n].obj.Obj? ==> NetOk(nets[n]) && (nets[n].obj.state == DELETE ==> NetFreed(nets[n]))
    ensures ok <==> forall n :: 0 <= n < |nets| ==> !NetSpoiled(nets[n], faults[n].views)
    ensures ok ==> |r| == |nets| && forall n :: 0 <= n < |nets| ==> if nets[n].obj.Obj? then NetDone(nets[n], faults[n], r[n]) else r[n] == nets[n]
  {
    hide NetOk, NetFreed, NetSpoiled, NetDone;
    r, ok := nets, true;
    for i := 0 to |nets|
      invariant |r| == |nets| && forall n :: 0 <= n < i ==> !NetSpoiled(nets[n], faults[n].views)
      invariant forall n :: 0 <= n < |nets| ==> if n < i && nets[n].obj.Obj? then NetDone(nets[n], faults[n], r[n]) else r[n] == nets[n]
    {
      if nets[i].obj.Obj? {
        var x, good := NetTurn(nets[i], faults[i]);
        if !good {
          return r, false;
        }
        r := r[i := x];
      } else {
        GoneIsUnspoiled(nets[i], faults[i].views);
      }
    }
  }

  /** The turns of the settings; `ok` is whether the assertion of `settings_do_free` holds every time. */
  method SettingsTurns(nets: seq<Net>, settings: seq<Obj>) returns (r: seq<Obj>, ok: bool)
    requires forall s :: 0 <= s < |settings| ==> Legal(settings[s])
    ensures ok <==> forall n :: 0 <= n < |nets| && nets[n].obj.Obj? && nets[n].settings < |settings| ==>
                      settings[nets[n].settings] == Gone || settings[nets[n].settings].state != DELETE
    ensures ok ==> |r| == |settings| && forall s :: 0 <= s < |settings| ==> r[s] == Turned(settings[s], false)
  {
    r, ok := settings, true;
    for s := 0 to |settings|
      invariant |r| == |settings|
      invariant forall k :: 0 <= k < |settings| ==> r[k] == if k < s then Turned(settings[k], false) else settings[k]
      invariant forall n :: 0 <= n < |nets| && nets[n].obj.Obj? && nets[n].settings < s ==>
                  settings[nets[n].settings] == Gone || settings[nets[n].settings].state != DELETE
    {
      if r[s].Obj? && MustDecommit(r[s].state) {
        r := r[s := r[s].(state := AckDecommit(r[s].state))];
        if r[s].pendingFree {
          if exists n | 0 <= n < |nets| :: nets[n].obj.Obj? && nets[n].settings == s {
            return r, false;
          }
          r := r[s := Gone];
        }
      }
    }
  }

  /** The decommit phase. It comes to its end if and only if no deleted network has a spoiled attachment; then all deleted
      virts, networks, physes and settings are freed, and of the deleted attachments exactly the unspoiled ones. */
  method DecommitPhase(c: Context, faults: seq<Faults>) returns (r: Context, ok: bool)
    requires ContextOk(c) && |faults| == |c.nets|
    ensures ok <==> forall n :: 0 <= n < |c.nets| ==> !NetSpoiled(c.nets[n], faults[n].views)
    ensures ok ==> |r.nets| == |c.nets| && forall n :: 0 <= n < |c.nets| && c.nets[n].obj.Obj? ==> NetDone(c.nets[n], faults[n], r.nets[n])
    ensures ok ==> |r.physes| == |c.physes| && forall p :: 0 <= p < |c.physes| ==> r.physes[p] == Turned(c.physes[p], false)
    ensures ok ==> |r.settings| == |c.settings| && forall s :: 0 <= s < |c.settings| ==> r.settings[s] == Turned(c.settings[s], false)
    ensures ok ==> forall p :: 0 <= p < |c.physes| ==> (r.physes[p] == Gone <==> Dead(c.physes[p]))
    ensures ok ==> forall s :: 0 <= s < |c.settings| ==> (r.settings[s] == Gone <==> Dead(c.settings[s]))
  {
    hide NetOk, NetFreed, NetSpoiled, AttGoes;
    r := c;
    var nets;
    nets, ok := NetTurns(c.nets, faults);
    if !ok {
      return;
    }
    var physes := TurnAll(c.physes);
    var settings;
    settings, ok := SettingsTurns(nets, c.settings);
    assert forall n :: 0 <= n < |nets| && nets[n].obj.Obj? ==> nets[n].settings == c.nets[n].settings && !Dead(c.nets[n].obj);
    r := Context(nets, physes, settings);
  }

  lemma GoneIsUnspoiled(n: Net, views: set<Link>)
    requires n.obj == Gone
    ensures !NetSpoiled(n, views)
  {}

  /** The turns of the physes, which no callback can fail. */
  method TurnAll(objs: seq<Obj>) returns (r: seq<Obj>)
    requires forall p :: 0 <= p < |objs| ==> Legal(objs[p])
    ensures |r| == |objs| && forall p :: 0 <= p < |objs| ==> r[p] == Turned(objs[p], false)
    ensures forall p :: 0 <= p < |objs| ==> (r[p] == Gone <==> Dead(objs[p]))
    ensures forall p :: 0 <= p < |objs| && objs[p].Obj? && objs[p].state == RENEW ==> r[p] == objs[p].(state := NEW)
    ensures forall p :: 0 <= p < |objs| && objs[p].Obj? && objs[p].state !in {RENEW, DELETE} ==> r[p] == objs[p]
  {
    r := objs;
    for i := 0 to |objs|
      invariant |r| == |objs| && forall p :: 0 <= p < |objs| ==> r[p] == if p < i then Turned(objs[p], false) else objs[p]
    {
      if r[i].Obj? && MustDecommit(r[i].state) {
        r := r[i := r[i].(state := AckDecommit(r[i].state))];
        if r[i].pendingFree {
          r := r[i := Gone];
        }
      }
    }
  }

  /** An attachment of a deleted phys outlives the phys if and only if it is spoiled. */
  lemma OutlivesIffSpoiled(c: Context, n: nat, a: nat, faults: Faults, r: Net)
    requires ContextOk(c) && n < |c.nets| && c.nets[n].obj.Obj? && a < |c.nets[n].atts| && c.nets[n].atts[a].Obj?
    requires c.physes[c.nets[n].physOf[a]].state == DELETE && NetDone(c.nets[n], faults, r)
    ensures r.atts[a].Obj? <==> AttSpoiled(c.nets[n], faults.views, a)
  {
    var x := c.nets[n];
    assert NetOk(x) && x.atts[a].state == DELETE;
    assert !OrphanedBy(x, |x.virts|, a);
    assert AfterVirts(x)[a] == x.atts[a];
  }

  // ---------------------------------------------------------------- an input

  /** A local and a remote attachment of a deleted network; the local one comes first. */
  const Doomed: Net := Net(Obj(DELETE, true), 0, [], [], [Obj(DELETE, true), Obj(DELETE, true)], [false, false], [0, 1], {Link(0, 1)})

  lemma DoomedOk()
    ensures NetOk(Doomed) && NetFreed(Doomed)
  {}

  lemma DoomedSpoiled()
    ensures AttSpoiled(Doomed, {Link(0, 1)}, 1)
  {
    var atts := AfterVirts(Doomed);
    assert forall a: nat :: !OrphanedBy(Doomed, 0, a);
    assert atts[0] == Obj(DELETE, true) && Reached(atts, {Link(0, 1)}, {Link(0, 1)}, 0);
  }

  /** When the view of the remote attachment cannot be removed, the remote attachment survives its commit and the first
      assertion of `net_do_free` fails. */
  method DeletedCanSurvive() returns (r: Net, ok: bool)
    ensures !ok && |r.atts| == 2 && r.atts[0] == Gone && r.atts[1] != Gone
  {
    DoomedOk();
    DoomedSpoiled();
    FreedAfterVirts(Doomed);
    FirstUnspoiled();
    r, ok := DecommitNet(Doomed, {Link(0, 1)}, {}, {}, {});
    assert !AttGoes(Doomed, {Link(0, 1)}, 1) && AttGoes(Doomed, {Link(0, 1)}, 0);
  }

  lemma FirstUnspoiled()
    ensures !AttSpoiled(Doomed, {Link(0, 1)}, 0)
  {}

  /** Without failing removals of views nothing is spoiled, so that the phase comes to its end. */
  lemma NothingSpoiled(n: Net)
    ensures !NetSpoiled(n, {}) && forall a: nat :: !AttSpoiled(n, {}, a)
  {}
}
