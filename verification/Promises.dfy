/** Three promises of the documentation that the code keeps only under a condition: each with the exact condition and an
    input on which it fails. */
module Promises {
  import opened Base
  import opened States
  import opened Netmodel
  import opened Invariant
  import opened Recommit
  import opened Freeing

  // ---------------------------------------------------------------- a refused commit leaves the states alone

  /** No committed member of a renewed container. */
  ghost predicate NothingToSpread(w: World)
  {
    && (forall a :: a in w.pas && w.pas[a].state == OK ==> !PaTouched(w, w.pas[a]))
    && (forall v :: v in w.virts && w.virts[v].state == OK && w.virts[v].connectedThrough.Some? && w.virts[v].connectedThrough.value in w.pas ==>
          w.pas[w.virts[v].connectedThrough.value].state != RENEW)
  }

  /** The phys or the network of the attachment is renewed. */
  ghost predicate PaTouched(w: World, r: Pa)
  {
    (r.phys in w.physes && w.physes[r.phys].state == RENEW) || (r.net in w.nets && w.nets[r.net].state == RENEW)
  }

  lemma SpreadPa(w: World, r: Pa)
    ensures RenewedPa(w, r) == if r.state == OK && PaTouched(w, r) then r.(state := RENEW) else r
  {}

  /** Validation changes no state if and only if no renewed object has a committed member; so only then does a refused
      commit leave the states as they were. */
  lemma RefusalKeepsStates(w: World)
    ensures Renewed(w) == w <==> NothingToSpread(w)
  {
    forall a | a in w.pas ensures RenewedPa(w, w.pas[a]) == w.pas[a] <==> !(w.pas[a].state == OK && PaTouched(w, w.pas[a])) {
      SpreadPa(w, w.pas[a]);
    }
    if Renewed(w) == w {
      forall a | a in w.pas ensures RenewedPa(w, w.pas[a]) == w.pas[a] { assert RenewedPas(w)[a] == w.pas[a]; }
      forall v | v in w.virts ensures RenewedVirt(w.pas, w.virts[v]) == w.virts[v] { assert RenewedVirts(w.pas, w.virts)[v] == w.virts[v]; }
    }
    if NothingToSpread(w) {
      assert RenewedPas(w) == w.pas;
      assert RenewedVirts(w.pas, w.virts) == w.virts;
    }
  }

  const Plain := VirtAttrs(None, None, None)

  /** A phys whose address was changed after a commit, with its attachment. */
  const Changed := World(
    map[0 := Settings(OK, false)], map[1 := Net(OK, false, 0, 1)],
    map[2 := Phys(RENEW, false, true, true, PhysAttrs(None, Some(1)))], map[3 := Pa(OK, false, 1, 2, true)], map[])

  lemma RefusalChangesStates()
    ensures Problems(Renewed(Changed), {1}, {}) && Renewed(Changed).pas[3].state == RENEW && Changed.pas[3].state == OK
  {
    SpreadPa(Changed, Changed.pas[3]);
  }

  // ---------------------------------------------------------------- detaching with virts still connected

  /** The virt is about to be committed through the attachment. */
  ghost predicate Pending(w: World, a: Id, v: Id)
    requires a in w.pas && v in w.virts
  {
    && w.virts[v].connectedThrough == Some(a)
    && (w.virts[v].state in {NEW, RENEW} || (w.virts[v].state == OK && (w.pas[a].state == RENEW || (w.pas[a].state == OK && PaTouched(w, w.pas[a])))))
  }

  /** The next commit is refused if and only if the checks of the network types object to a network or a phys that stays, or a
      virt is about to be committed through an attachment of such a phys that was never made explicitly. */
  lemma RefusedExactly(w: World, k: Kernel, netProblems: set<Id>, physProblems: set<Id>)
    requires Inv(w, k)
    ensures Problems(Renewed(w), netProblems, physProblems) <==>
            || (exists n :: n in w.nets && w.nets[n].state != DELETE && n in netProblems)
            || (exists p :: p in w.physes && w.physes[p].state != DELETE && p in physProblems)
            || (exists a, v :: a in w.pas && v in w.virts && Pending(w, a, v) && !w.pas[a].explicitlyAttached &&
                               w.pas[a].phys in w.physes && w.physes[w.pas[a].phys].state != DELETE)
  {
    hide Mirrored, SettingsOk, NetsOk, PhysesOk, OneAttachment, VirtsOk, PasHeld, HasVirts;
    var w' := Renewed(w);
    forall a, v | a in w.pas && v in w.virts
      ensures a in w'.pas && v in w'.virts
      ensures Unattached(w', a, v) <==>
              Pending(w, a, v) && !w.pas[a].explicitlyAttached && w.pas[a].phys in w.physes && w.physes[w.pas[a].phys].state != DELETE
    {
      assert PaOk(w.nets, w.physes, w.pas[a]);
      SpreadPa(w, w.pas[a]);
    }
    assert w'.nets == w.nets && w'.physes == w.physes && w'.pas.Keys == w.pas.Keys && w'.virts.Keys == w.virts.Keys;
  }

  /** After a detach, the virts on the attachment make the next commit fail validation if and only if one of them has to be
      committed, be it that itself, the attachment, its phys or its network changed. */
  lemma DetachRefused(w: World, k: Kernel, a: Id)
    requires Inv(w, k) && a in w.pas && HasVirts(w.virts, a)
    ensures w.pas[a].phys in w.physes && a in Renewed(Detached(w, a)).pas
    ensures (exists v :: v in Renewed(Detached(w, a)).virts && Unattached(Renewed(Detached(w, a)), a, v)) <==>
            w.physes[w.pas[a].phys].state != DELETE && exists v :: v in w.virts && Pending(w, a, v)
  {
    hide Mirrored, SettingsOk, NetsOk, PhysesOk, OneAttachment, VirtsOk, PasHeld, HasVirts;
    assert PaOk(w.nets, w.physes, w.pas[a]);
    var w' := Detached(w, a);
    assert w' == w.(pas := w.pas[a := w.pas[a].(explicitlyAttached := false)]);
    SpreadPa(w', w'.pas[a]);
    forall v | v in w.virts
      ensures v in Renewed(w').virts && (Unattached(Renewed(w'), a, v) <==> w.physes[w.pas[a].phys].state != DELETE && Pending(w, a, v))
    {
    }
  }

  /** A committed virt whose phys is detached. */
  const Detaching := World(
    map[0 := Settings(OK, false)], map[1 := Net(OK, false, 0, 1)],
    map[2 := Phys(OK, false, true, true, PhysAttrs(None, None))], map[3 := Pa(OK, false, 1, 2, true)],
    map[4 := Virt(OK, false, 1, Some(3), Some(3), "if", "if", Plain)])

  lemma DetachedPasses()
    ensures Detached(Detaching, 3).virts[4].connectedThrough == Some(3) && !Detached(Detaching, 3).pas[3].explicitlyAttached
    ensures !Problems(Renewed(Detached(Detaching, 3)), {}, {})
  {
    var w := Detached(Detaching, 3);
    assert HasVirts(Detaching.virts, 3) by { assert 4 in Detaching.virts; }
    assert w.pas[3] == Pa(OK, false, 1, 2, false);
    SpreadPa(w, w.pas[3]);
    assert Renewed(w).virts[4].state == OK;
  }

  // ---------------------------------------------------------------- unclaiming a phys

  /** An attachment and its phys: whether the phys is claimed, whether it was ever committed as local, the state of the
      attachment, and whether the attachment is in the kernel. */
  datatype Claimed = Claimed(isLocal: bool, committedAsLocal: bool, state: State, live: bool)

  datatype ClaimStep = Claim | Unclaim | Touch | CommitAll

  /** What the steps do: a claim, an unclaim or another change renews the phys and with it the attachment; a commit takes a
      renewed attachment out if the phys was ever committed as local, and installs a new one if it is local now. */
  function ClaimNext(c: Claimed, s: ClaimStep): Claimed
    requires c.state in {NEW, RENEW, OK}
  {
    match s
    case Claim => if c.isLocal then c else c.(isLocal := true, state := Renew(c.state))
    case Unclaim => if c.isLocal then c.(isLocal := false, state := Renew(c.state)) else c
    case Touch => c.(state := Renew(c.state))
    case CommitAll =>
      var live := c.live && !Destroys(c);
      Claimed(c.isLocal, c.committedAsLocal || c.isLocal, OK, if c.isLocal && AckDecommit(c.state) == NEW then true else live)
  }

  /** The next commit destroys the attachment. */
  predicate Destroys(c: Claimed)
  {
    MustDecommit(c.state) && c.committedAsLocal
  }

  function ClaimRun(steps: seq<ClaimStep>): (c: Claimed)
    ensures c.state in {NEW, RENEW, OK}
  {
    if steps == [] then Claimed(false, false, NEW, false) else ClaimNext(ClaimRun(steps[..|steps| - 1]), steps[|steps| - 1])
  }

  /** The phys was claimed when the last commit ran. */
  ghost predicate LastLocal(steps: seq<ClaimStep>)
  {
    steps != [] &&
    if steps[|steps| - 1] == CommitAll then ClaimRun(steps[..|steps| - 1]).isLocal else LastLocal(steps[..|steps| - 1])
  }

  lemma {:induction false} LiveIffLastLocal(steps: seq<ClaimStep>)
    ensures var c := ClaimRun(steps); (c.live <==> LastLocal(steps)) && (c.live ==> c.committedAsLocal) && (c.state == OK ==> (c.isLocal <==> c.live))
    ensures ClaimRun(steps).state == NEW ==> !ClaimRun(steps).live && !ClaimRun(steps).committedAsLocal
  {
    if steps != [] { LiveIffLastLocal(steps[..|steps| - 1]); }
  }

  /** Over every run, the destroy callback of the next commit meets a live attachment if and only if the phys was claimed
      when the last commit ran. */
  lemma DestroyAllowed(steps: seq<ClaimStep>)
    requires Destroys(ClaimRun(steps))
    ensures ClaimRun(steps).live <==> LastLocal(steps)
  {
    LiveIffLastLocal(steps);
  }

  /** Without an unclaim it always does. */
  lemma {:induction false} ClaimedDestroyAllowed(steps: seq<ClaimStep>)
    requires Unclaim !in steps
    ensures ClaimRun(steps).committedAsLocal ==> ClaimRun(steps).isLocal && ClaimRun(steps).live
  {
    if steps != [] {
      LiveIffLastLocal(steps[..|steps| - 1]);
      ClaimedDestroyAllowed(steps[..|steps| - 1]);
    }
  }

  /** Claimed, committed, unclaimed, committed and changed once more: the next commit destroys the attachment again. */
  lemma DestroyedTwice()
    ensures var c := ClaimRun([Claim, CommitAll, Unclaim, CommitAll, Touch]); Destroys(c) && !c.live
  {
    assert [Claim][..0] == [] && [Claim, CommitAll][..1] == [Claim] && [Claim, CommitAll, Unclaim][..2] == [Claim, CommitAll];
    assert [Claim, CommitAll, Unclaim, CommitAll][..3] == [Claim, CommitAll, Unclaim];
    assert [Claim, CommitAll, Unclaim, CommitAll, Touch][..4] == [Claim, CommitAll, Unclaim, CommitAll];
    assert ClaimRun([Claim]) == Claimed(true, false, NEW, false);
    assert ClaimRun([Claim, CommitAll]) == Claimed(true, true, OK, true);
    assert ClaimRun([Claim, CommitAll, Unclaim, CommitAll]) == Claimed(false, true, OK, false);
  }
}
