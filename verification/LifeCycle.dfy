/** The life of one object over any run of API calls and commits, kernel failures included
    (private/state.h, private/errors.h, docs/internals.rst). */
module LifeCycle {
  import opened Base
  import opened States

  datatype Obj = Gone | Obj(state: State, pendingFree: bool)

  /** What can happen to an object. */
  datatype Step =
    | Update                 // an API call changes it (`renew`)
    | UserFree               // an API call frees it (`free_helper`)
    | Spread(from: State)    // its container is renewed (`propagate`)
    | Decommit(err: Error)   // its turn in the decommit phase: `ack_decommit`, the callbacks, `ack_delete`
    | Blame(err: Error)      // taking out something that refers to it is marked on it
    | Install(err: Error)    // a callback of the recommit phase is marked on it
    | Ack                    // the ack phase

  /** A removal either works or leaves the kernel inconsistent; only installing can fail cleanly. */
  predicate RemovalResult(err: Error)
  {
    err in {LSDNE_OK, LSDNE_NETLINK, LSDNE_INCONSISTENT}
  }

  /** Deleted objects are not updated and no callback installs them. */
  predicate Enabled(o: Obj, s: Step)
    requires o.Obj?
  {
    match s
    case Update => o.state != DELETE
    case Decommit(err) => RemovalResult(err)
    case Blame(err) => RemovalResult(err)
    case Install(err) => o.state != DELETE && err in {LSDNE_OK, LSDNE_NOMEM, LSDNE_NETLINK, LSDNE_INCONSISTENT}
    case _ => true
  }

  function Apply(o: Obj, s: Step): (r: Obj)
    requires o.Obj? && Enabled(o, s)
  {
    match s
    case Update => o.(state := Renew(o.state))
    case UserFree => if o.state == NEW then Gone else Obj(DELETE, true)
    case Spread(from) => o.(state := Propagate(from, o.state))
    case Decommit(err) =>
      if !MustDecommit(o.state) then o
      else if o.pendingFree then Gone
      else o.(state := MarkCommitErr(AckDecommit(o.state), true, err))
    case Blame(err) => o.(state := MarkCommitErr(o.state, true, err))
    case Install(err) => o.(state := MarkCommitErr(o.state, false, err))
    case Ack => o.(state := AckState(o.state))
  }

  /** The life of an object as documented, up to its commit: a new object is freed at once and not renewed, a committed one is
      renewed by an update or by its container, and freeing takes precedence over renewing. */
  lemma DocumentedChanges(o: Obj)
    requires o.Obj? && !o.pendingFree
    ensures o.state == NEW ==> Apply(o, UserFree) == Gone && Apply(o, Update) == o
    ensures o.state == OK || o.state == RENEW ==> Apply(o, Update) == Obj(RENEW, false) && Apply(o, UserFree) == Obj(DELETE, true)
    ensures o.state == FAIL ==> Apply(o, Update) == o
    ensures Apply(o, Spread(RENEW)) == Obj(if o.state == OK then RENEW else o.state, false)
    ensures forall from :: from != RENEW ==> Apply(o, Spread(from)) == o
  {}

  /** The life of an object as documented, in a commit: an installation that fails cleanly is retried by the next commit, since
      the object is new again; one that cannot be undone, and a removal that fails, leave it in FAIL. */
  lemma DocumentedCommit(o: Obj, err: Error)
    requires o.Obj? && !o.pendingFree && o.state != DELETE && err in {LSDNE_OK, LSDNE_NOMEM, LSDNE_NETLINK, LSDNE_INCONSISTENT}
    ensures o.state == NEW ==> Apply(Apply(o, Install(err)), Ack) == Obj(if err == LSDNE_OK then OK else if err == LSDNE_INCONSISTENT then FAIL else NEW, false)
    ensures o.state == OK ==> Apply(Apply(o, Decommit(LSDNE_OK)), Ack) == o
    ensures o.state == RENEW ==> Apply(o, Ack) == Obj(OK, false)
    ensures RemovalResult(err) ==> Apply(o, Blame(err)) == Obj(if err == LSDNE_OK then o.state else FAIL, false)
    ensures o.state == RENEW ==> Apply(o, Decommit(LSDNE_OK)) == Obj(NEW, false)
    ensures o.state == RENEW && RemovalResult(err) && err != LSDNE_OK ==> Apply(o, Decommit(err)) == Obj(FAIL, false)
  {}

  /** A run, as long as the object exists. */
  ghost predicate Run(o: Obj, steps: seq<Step>, end: Obj)
    decreases steps
  {
    if steps == [] then end == o
    else o.Obj? && Enabled(o, steps[0]) && Run(Apply(o, steps[0]), steps[1..], end)
  }

  /** Over every run, FAIL is left only by a free of the user. */
  lemma {:induction false} FailIsFinal(o: Obj, steps: seq<Step>, end: Obj)
    requires o.Obj? && o.state == FAIL && Run(o, steps, end) && UserFree !in steps
    ensures end == o
    decreases steps
  {
    if steps != [] {
      assert Apply(o, steps[0]) == o;
      FailIsFinal(o, steps[1..], end);
    }
  }

  /** Over every run, an object freed by the user is never committed, renewed or new again: it is gone, pending deletion, or failed. */
  lemma {:induction false} FreedStaysFreed(o: Obj, steps: seq<Step>, end: Obj)
    requires o.Obj? && o.pendingFree && o.state in {DELETE, FAIL} && Run(o, steps, end)
    ensures end == Gone || (end.pendingFree && end.state in {DELETE, FAIL})
    decreases steps
  {
    if steps != [] {
      var o' := Apply(o, steps[0]);
      if o' != Gone { FreedStaysFreed(o', steps[1..], end); }
    }
  }

  /** From creation on, exactly the freed objects that still exist have `pending_free`: DELETE implies it and it implies DELETE or FAIL. */
  lemma {:induction false} PendingMeansFreed(o: Obj, steps: seq<Step>, end: Obj)
    requires o.Obj? && (o.pendingFree ==> o.state in {DELETE, FAIL}) && (o.state == DELETE ==> o.pendingFree) && Run(o, steps, end)
    ensures end == Gone || ((end.pendingFree ==> end.state in {DELETE, FAIL}) && (end.state == DELETE ==> end.pendingFree))
    decreases steps
  {
    if steps != [] {
      var o' := Apply(o, steps[0]);
      if o' != Gone { PendingMeansFreed(o', steps[1..], end); }
    }
  }

  /** A failing removal of something else is marked on the object. */
  predicate Blamed(s: Step)
  {
    s.Blame? && s.err != LSDNE_OK
  }

  predicate HasTurn(steps: seq<Step>)
  {
    exists i :: 0 <= i < |steps| && steps[i].Decommit?
  }

  /** Over every run in which nothing else is blamed on it, a freed object is deallocated at its first turn in a decommit
      phase, whatever the kernel says to its removal, and not before. */
  lemma {:induction false} FreedAtItsTurn(o: Obj, steps: seq<Step>, end: Obj)
    requires o.Obj? && o.state == DELETE && o.pendingFree && Run(o, steps, end) && forall i :: 0 <= i < |steps| ==> !Blamed(steps[i])
    ensures end == Gone <==> HasTurn(steps)
    decreases steps
  {
    if steps != [] {
      var o' := Apply(o, steps[0]);
      if steps[0].Decommit? {
        assert o' == Gone && steps[1..] == [];
      } else {
        assert o' == o;
        FreedAtItsTurn(o, steps[1..], end);
        assert forall i :: 0 <= i < |steps[1..]| ==> steps[1..][i] == steps[i + 1];
        if HasTurn(steps) {
          var i :| 0 <= i < |steps| && steps[i].Decommit?;
          assert steps[1..][i - 1].Decommit?;
        }
      }
    }
  }
}
