/** Commit states and their transitions (private/state.h, private/errors.h and the
    two helpers `renew` and `propagate` of lsdn.c), as functions of the old state. */
module States {
  import opened Base

  datatype State = NEW | RENEW | DELETE | OK | ERR | FAIL

  /** `renew`: an update of an object. The source asserts that a deleted object is never updated. */
  function Renew(s: State): (r: State)
    requires s != DELETE
  {
    if s == OK then RENEW else s
  }

  /** `propagate`: renewal of a container reaches a committed member. */
  function Propagate(from: State, to: State): (r: State)
  {
    if from == RENEW && to == OK then RENEW else to
  }

  /** `ack_state`: the end of a commit. */
  function AckState(s: State): (r: State)
  {
    if s == NEW || s == RENEW then OK else if s == ERR then NEW else s
  }

  /** `ack_decommit`, the state it leaves behind. */
  function AckDecommit(s: State): (r: State)
    ensures r != s ==> s == RENEW && MustDecommit(s) && !MustDecommit(r)
  {
    if s == RENEW then NEW else s
  }

  /** `ack_decommit`, its return value: does the object have to be taken out of the kernel? */
  predicate MustDecommit(s: State)
  {
    s == DELETE || s == RENEW
  }

  /** `mark_commit_err`, the state it leaves behind. */
  function MarkCommitErr(s: State, fatal: bool, err: Error): (r: State)
    requires err in {LSDNE_OK, LSDNE_NOMEM, LSDNE_NETLINK, LSDNE_INCONSISTENT}
  {
    if s == FAIL then FAIL
    else if err == LSDNE_INCONSISTENT || (fatal && err == LSDNE_NETLINK) then FAIL
    else if err == LSDNE_NETLINK || err == LSDNE_NOMEM then ERR
    else s
  }
}
