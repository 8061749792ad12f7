/** Cleanup lists (clist.c): an entry sits on up to two rings, and flushing one of them takes its entries off both. */
module Clist {
  import opened Base
  import opened List

  const LSDN_CLIST_MAX := 2

  /** `struct lsdn_clist_entry` */
  class ClistEntry {
    const entries: seq<Entry>

    /** `lsdn_clist_init_entry` */
    constructor ()
      ensures |entries| == LSDN_CLIST_MAX && fresh(entries)
      ensures forall i :: 0 <= i < |entries| ==> Ring([entries[i]])
      ensures Owns(this)
    {
      var e0 := new Entry();
      var e1 := new Entry();
      entries := [e0, e1];
      new;
      e0.container, e1.container := this, this;
    }
  }

  ghost predicate Owns(ce: ClistEntry)
    reads ce.entries`container
  {
    |ce.entries| == LSDN_CLIST_MAX && ce.entries[0] != ce.entries[1] && ce.entries[0].container == ce && ce.entries[1].container == ce
  }

  /** No entry is on two rings. */
  ghost predicate Apart(rings: seq<seq<Entry>>)
  {
    forall j, k :: 0 <= j < k < |rings| ==> forall e :: e in rings[j] ==> e !in rings[k]
  }

  ghost predicate Covered(rings: seq<seq<Entry>>, all: set<Entry>)
  {
    forall j :: 0 <= j < |rings| ==> forall e :: e in rings[j] ==> e in all
  }

  ghost predicate Linked(rings: seq<seq<Entry>>, all: set<Entry>)
    requires Covered(rings, all)
    reads all`next, all`previous
  {
    forall j :: 0 <= j < |rings| && rings[j] != [] ==> Ring(rings[j])
  }

  ghost function Dropped(rings: seq<seq<Entry>>, gone: set<Entry>): seq<seq<Entry>>
  {
    seq(|rings|, j requires 0 <= j < |rings| => Without(rings[j], gone))
  }

  lemma DroppedApart(rings: seq<seq<Entry>>, gone: set<Entry>)
    requires Apart(rings)
    ensures Apart(Dropped(rings, gone))
  {
    forall j | 0 <= j < |rings|
      ensures forall e :: e in Dropped(rings, gone)[j] ==> e in rings[j]
    {
      WithoutMember(rings[j], gone);
      assert Dropped(rings, gone)[j] == Without(rings[j], gone);
    }
  }

  lemma DroppedTwice(rings: seq<seq<Entry>>, gone: set<Entry>, more: set<Entry>)
    ensures Dropped(Dropped(rings, gone), more) == Dropped(rings, gone + more)
  {
    forall j | 0 <= j < |rings|
      ensures Without(Without(rings[j], gone), more) == Without(rings[j], gone + more)
    {
      WithoutTwice(rings[j], gone, more);
    }
  }

  lemma DroppedOne(rings: seq<seq<Entry>>, e: Entry, j: nat, i: nat)
    requires Apart(rings) && j < |rings| && i < |rings[j]| && rings[j][i] == e && Distinct(rings[j])
    ensures Dropped(rings, {e}) == rings[j := Removed(rings[j], i)]
  {
    RemovedIsWithout(rings[j], i);
    forall k | 0 <= k < |rings| && k != j
      ensures Without(rings[k], {e}) == rings[k]
    {
      WithoutNone(rings[k], {e});
    }
  }

  lemma Alone(s: seq<Entry>, i: nat)
    requires Ring(s) && i < |s| && s[i].next == s[i]
    ensures Removed(s, i) == []
  {
  }

  /** Removing an entry unless it is alone; every ring is then as before without the entry. */
  method Unlink(e: Entry, ghost rings: seq<seq<Entry>>, ghost all: set<Entry>, ghost j: nat)
    requires Apart(rings) && Covered(rings, all) && Linked(rings, all) && j < |rings| && e in rings[j]
    modifies all`next, all`previous
    ensures Covered(Dropped(rings, {e}), all) && Linked(Dropped(rings, {e}), all)
  {
    hide Without, Dropped, Inserted;
    ghost var i :| 0 <= i < |rings[j]| && rings[j][i] == e;
    DroppedOne(rings, e, j, i);
    DroppedCovered(rings, {e}, all);
    if e.next != e {
      label before:
      Remove(e, rings[j], i);
      forall k | 0 <= k < |rings| && k != j && rings[k] != []
        ensures Ring(rings[k])
      {
        assert old@before(Ring(rings[k]));
        assert forall n :: 0 <= n < |rings[k]| ==> rings[k][n] !in rings[j];
      }
    } else {
      Alone(rings[j], i);
    }
  }

  ghost predicate Housed(e: Entry, rings: seq<seq<Entry>>)
  {
    exists j :: 0 <= j < |rings| && e in rings[j]
  }

  lemma HousedAfter(e: Entry, rings: seq<seq<Entry>>, gone: set<Entry>)
    requires Housed(e, rings) && e !in gone
    ensures Housed(e, Dropped(rings, gone))
  {
    var j :| 0 <= j < |rings| && e in rings[j];
    WithoutMember(rings[j], gone);
    assert e in Dropped(rings, gone)[j];
  }

  lemma HousedIn(e: Entry, rings: seq<seq<Entry>>, all: set<Entry>)
    requires Housed(e, rings) && Covered(rings, all)
    ensures e in all
  {
  }

  /** The inner loop of `lsdn_clist_flush`. */
  method Detach(ce: ClistEntry, ghost rings: seq<seq<Entry>>, ghost all: set<Entry>)
    requires Owns(ce) && Apart(rings) && Covered(rings, all) && Linked(rings, all)
    requires Housed(ce.entries[0], rings) && Housed(ce.entries[1], rings)
    modifies all`next, all`previous
    ensures Covered(Dropped(rings, {ce.entries[0], ce.entries[1]}), all) && Linked(Dropped(rings, {ce.entries[0], ce.entries[1]}), all)
  {
    hide Linked, Ring, Dropped, Without, Apart;
    ghost var j :| 0 <= j < |rings| && ce.entries[0] in rings[j];
    Unlink(ce.entries[0], rings, all, j);
    ghost var rest := Dropped(rings, {ce.entries[0]});
    HousedAfter(ce.entries[1], rings, {ce.entries[0]});
    DroppedApart(rings, {ce.entries[0]});
    j :| 0 <= j < |rest| && ce.entries[1] in rest[j];
    Unlink(ce.entries[1], rest, all, j);
    DroppedTwice(rings, {ce.entries[0]}, {ce.entries[1]});
    assert {ce.entries[0]} + {ce.entries[1]} == {ce.entries[0], ce.entries[1]};
  }

  lemma DroppedCovered(rings: seq<seq<Entry>>, gone: set<Entry>, all: set<Entry>)
    requires Covered(rings, all)
    ensures Covered(Dropped(rings, gone), all)
  {
    forall j | 0 <= j < |rings|
      ensures forall e :: e in Dropped(rings, gone)[j] ==> e in rings[j]
    {
      WithoutMember(rings[j], gone);
      assert Dropped(rings, gone)[j] == Without(rings[j], gone);
    }
  }

  /** `lsdn_clist_add`, with its assertion as precondition: the entry goes to the front of the list. */
  method Add(head: Entry, index: nat, ce: ClistEntry, ghost s: seq<Entry>)
    requires index < |ce.entries| && Ring(s) && s[0] == head
    requires ce.entries[index] !in s && ce.entries[index].next == ce.entries[index]
    modifies s`next, s`previous, {ce.entries[index]}`next, {ce.entries[index]}`previous
    ensures Ring([head, ce.entries[index]] + s[1..])
  {
    List.Add(head, ce.entries[index], s, 0);
    assert Inserted(s, 0, ce.entries[index]) == [head, ce.entries[index]] + s[1..];
  }

  // ---------------------------------------------------------------- lsdn_clist_flush

  ghost function EntriesOf(ces: seq<ClistEntry>): set<Entry>
  {
    set i, j | 0 <= i < |ces| && 0 <= j < |ces[i].entries| :: ces[i].entries[j]
  }

  /** The ring is the list's head followed by one entry of each member, the one with the list's index. */
  ghost predicate Members(s: seq<Entry>, index: nat, ces: seq<ClistEntry>)
    reads s`container, EntriesOf(ces)`container
  {
    && index < LSDN_CLIST_MAX && |s| == |ces| + 1 && s[0].container == null && Distinct(s)
    && forall i :: 0 <= i < |ces| ==>
      (forall e :: e in ces[i].entries ==> e in EntriesOf(ces)) && Owns(ces[i]) && ces[i].entries[index] == s[i + 1]
  }

  /** A member is on the list once, and its entries belong to no other member. */
  lemma MemberOnce(s: seq<Entry>, index: nat, ces: seq<ClistEntry>, t: nat, k: nat)
    requires Members(s, index, ces) && t < |ces| && k < |ces| && t != k
    ensures ces[t] != ces[k]
  {
    assert s[t + 1] != s[k + 1];
  }

  lemma EntryNotGone(s: seq<Entry>, index: nat, ces: seq<ClistEntry>, t: nat, e: Entry)
    requires Members(s, index, ces) && t < |ces| && e in ces[t].entries
    ensures e !in EntriesOf(ces[..t])
  {
    assert e.container == ces[t];
    forall k | 0 <= k < t
      ensures ces[k] != ces[t]
    {
      MemberOnce(s, index, ces, t, k);
    }
  }

  lemma GoneStep(ces: seq<ClistEntry>, t: nat)
    requires t < |ces| && |ces[t].entries| == LSDN_CLIST_MAX
    ensures EntriesOf(ces[..t + 1]) == EntriesOf(ces[..t]) + {ces[t].entries[0], ces[t].entries[1]}
  {
    var before, after := EntriesOf(ces[..t]), EntriesOf(ces[..t + 1]);
    forall i, j | 0 <= i < t && 0 <= j < |ces[i].entries|
      ensures ces[i].entries[j] in before && ces[i].entries[j] in after
    {
      assert ces[..t][i] == ces[i] && ces[..t + 1][i] == ces[i];
    }
    assert ces[..t + 1][t] == ces[t];
    assert ces[t].entries[0] in after && ces[t].entries[1] in after;
  }

  /** What a turn of the loop does to the list itself. */
  lemma ListStep(s: seq<Entry>, index: nat, ces: seq<ClistEntry>, t: nat)
    requires Members(s, index, ces) && t < |ces|
    ensures |s| == |ces| + 1 && |ces[t].entries| == 2
    ensures Without([s[0]] + s[t + 1..], {ces[t].entries[0], ces[t].entries[1]}) == [s[0]] + s[t + 2..]
  {
    hide Without, Members;
    TwinElsewhere(s, index, ces, t);
    var name, twin := ces[t].entries[index], ces[t].entries[1 - index];
    SecondOut(s, t);
    WithoutNone([s[0]] + s[t + 2..], {twin});
    WithoutTwice([s[0]] + s[t + 1..], {name}, {twin});
    assert {name} + {twin} == {ces[t].entries[0], ces[t].entries[1]};
  }

  lemma SecondOut(s: seq<Entry>, t: nat)
    requires Distinct(s) && t + 1 < |s|
    ensures Without([s[0]] + s[t + 1..], {s[t + 1]}) == [s[0]] + s[t + 2..]
  {
    hide Without;
    var ring := [s[0]] + s[t + 1..];
    assert ring[1] == s[t + 1];
    RemovedIsWithout(ring, 1);
    assert Removed(ring, 1) == [s[0]] + s[t + 2..];
  }

  /** The other entry of a member is not on the list. */
  lemma TwinElsewhere(s: seq<Entry>, index: nat, ces: seq<ClistEntry>, t: nat)
    requires Members(s, index, ces) && t < |ces|
    ensures Distinct(s) && index < 2 && |s| == |ces| + 1 && |ces[t].entries| == 2 && ces[t].entries[index] == s[t + 1]
    ensures forall k :: 0 <= k < |s| ==> s[k] != ces[t].entries[1 - index]
  {
    assert Owns(ces[t]) && ces[t].entries[index] == s[t + 1];
    forall k | 0 <= k < |s|
      ensures s[k] != ces[t].entries[1 - index]
    {
      if k > 0 && k != t + 1 {
        assert Owns(ces[k - 1]) && s[k] == ces[k - 1].entries[index];
        MemberOnce(s, index, ces, t, k - 1);
      }
    }
  }

  lemma FlushStart(rings: seq<seq<Entry>>, all: set<Entry>, ces: seq<ClistEntry>)
    requires Covered(rings, all) && Linked(rings, all) && |rings| > 0 && |rings[0]| == |ces| + 1
    ensures Dropped(rings, EntriesOf(ces[..0])) == rings && Without(rings[0], EntriesOf(ces[..0])) == [rings[0][0]] + rings[0][1..]
    ensures rings[0][0].next == if |ces| > 0 then rings[0][1] else rings[0][0]
  {
    assert EntriesOf(ces[..0]) == {};
    forall j | 0 <= j < |rings|
      ensures Without(rings[j], {}) == rings[j]
    {
      WithoutNone(rings[j], {});
    }
    assert Ring(rings[0]);
  }

  lemma FlushNext(now: seq<seq<Entry>>, all: set<Entry>, s: seq<Entry>, t: nat)
    requires Covered(now, all) && Linked(now, all) && |now| > 0 && t + 1 < |s| && now[0] == [s[0]] + s[t + 1..]
    ensures s[t + 1].next == if t + 2 < |s| then s[t + 2] else s[0]
  {
    assert Ring(now[0]) && now[0][1] == s[t + 1];
    assert t + 2 < |s| ==> now[0][2] == s[t + 2];
  }

  lemma DetachedNowhere(rings: seq<seq<Entry>>, gone: set<Entry>, ce: ClistEntry)
    requires |ce.entries| == LSDN_CLIST_MAX && ce.entries[0] in gone && ce.entries[1] in gone
    ensures forall j :: 0 <= j < |Dropped(rings, gone)| ==> ce.entries[0] !in Dropped(rings, gone)[j] && ce.entries[1] !in Dropped(rings, gone)[j]
  {
    forall j | 0 <= j < |rings|
      ensures ce.entries[0] !in Without(rings[j], gone) && ce.entries[1] !in Without(rings[j], gone)
    {
      WithoutMember(rings[j], gone);
    }
  }

  /** A callback releases what holds its entry: whatever then becomes of the links of the entry, the rings are intact. */
  method Callback(ce: ClistEntry, failing: set<ClistEntry>, ghost rings: seq<seq<Entry>>, ghost all: set<Entry>) returns (ok: bool)
    requires Covered(rings, all) && Linked(rings, all) && |ce.entries| == LSDN_CLIST_MAX
    requires forall j :: 0 <= j < |rings| ==> ce.entries[0] !in rings[j] && ce.entries[1] !in rings[j]
    modifies ce.entries`next, ce.entries`previous
    ensures ok == (ce !in failing) && Linked(rings, all)
  {
    hide Ring;
    ce.entries[0].next := *;
    ce.entries[0].previous := *;
    ce.entries[1].next := *;
    ce.entries[1].previous := *;
    ok := ce !in failing;
  }

  /** `lsdn_clist_flush`: each member's callback is called once, in list order, whatever a callback does to its own
      entry; the list ends empty, and every other list keeps what did not belong to a member. */
  method Flush(head: Entry, index: nat, failing: set<ClistEntry>,
               ghost rings: seq<seq<Entry>>, ghost all: set<Entry>, ghost ces: seq<ClistEntry>)
    returns (err: Error, called: seq<ClistEntry>)
    requires Apart(rings) && Covered(rings, all) && Linked(rings, all) && |rings| > 0 && |rings[0]| > 0 && rings[0][0] == head
    requires Members(rings[0], index, ces) && forall i :: 0 <= i < |ces| ==> forall e :: e in ces[i].entries ==> Housed(e, rings)
    modifies all`next, all`previous
    ensures called == ces && Without(rings[0], EntriesOf(ces)) == [head]
    ensures Covered(Dropped(rings, EntriesOf(ces)), all) && Linked(Dropped(rings, EntriesOf(ces)), all)
    ensures err == if exists c :: c in ces && c in failing then LSDNE_INCONSISTENT else LSDNE_OK
  {
    hide Linked, Ring, Without, Covered, Apart, Housed, EntriesOf;
    ghost var s := rings[0];
    ghost var now, t := rings, 0;
    err, called := LSDNE_OK, [];
    FlushStart(rings, all, ces);
    var name := head.next;
    while name != head
      invariant 0 <= t <= |ces| && called == ces[..t]
      invariant now == Dropped(rings, EntriesOf(ces[..t])) && Without(s, EntriesOf(ces[..t])) == [head] + s[t + 1..]
      invariant Covered(now, all) && Linked(now, all)
      invariant name == if t < |ces| then s[t + 1] else head
      invariant err == if exists c :: c in called && c in failing then LSDNE_INCONSISTENT else LSDNE_OK
      decreases |ces| - t
    {
      assert Owns(ces[t]) && name == ces[t].entries[index];
      var ce := name.container as ClistEntry;
      FlushNext(now, all, s, t);
      var nameNext := name.next;
      DroppedApart(rings, EntriesOf(ces[..t]));
      forall e | e in ce.entries
        ensures Housed(e, now) && e in all
      {
        EntryNotGone(s, index, ces, t, e);
        HousedAfter(e, rings, EntriesOf(ces[..t]));
        HousedIn(e, now, all);
      }
      Detach(ce, now, all);
      ListStep(s, index, ces, t);
      GoneStep(ces, t);
      WithoutTwice(s, EntriesOf(ces[..t]), {ce.entries[0], ce.entries[1]});
      DroppedTwice(rings, EntriesOf(ces[..t]), {ce.entries[0], ce.entries[1]});
      now := Dropped(rings, EntriesOf(ces[..t + 1]));
      DetachedNowhere(rings, EntriesOf(ces[..t + 1]), ce);
      var ok := Callback(ce, failing, now, all);
      if !ok {
        err := LSDNE_INCONSISTENT;
      }
      called := called + [ce];
      t := t + 1;
      name := nameNext;
    }
    assert ces[..t] == ces;
  }
}
