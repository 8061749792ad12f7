/** Intrusive rings (list.c, private/list.h). A ring is known by the sequence of its entries, the head first. */
module List {

  /** `struct lsdn_list_entry` */
  class Entry {
    var next: Entry
    var previous: Entry
    /** The structure that contains the entry, as `lsdn_container_of` finds it. */
    var container: object?

    constructor ()
      ensures Ring([this]) && container == null
    {
      next, previous, container := this, this, null;
    }
  }

  ghost predicate Distinct(s: seq<Entry>)
  {
    forall i, j :: 0 <= i < j < |s| ==> s[i] != s[j]
  }

  /** Following `next` walks through the sequence and back to its start; `previous` is the inverse. */
  ghost predicate Ring(s: seq<Entry>)
    reads s`next, s`previous
  {
    && |s| > 0 && Distinct(s)
    && s[|s| - 1].next == s[0] && (forall i {:trigger s[i].next} :: 0 <= i < |s| - 1 ==> s[i].next == s[i + 1])
    && s[0].previous == s[|s| - 1] && (forall i {:trigger s[i].previous} :: 1 <= i < |s| ==> s[i].previous == s[i - 1])
  }

  /** `lsdn_list_init` */
  method Init(head: Entry)
    modifies head`next, head`previous
    ensures Ring([head])
  {
    head.next := head;
    head.previous := head;
  }

  ghost function Inserted(s: seq<Entry>, i: nat, e: Entry): seq<Entry>
    requires i < |s|
  {
    s[..i + 1] + [e] + s[i + 1..]
  }

  ghost function Removed(s: seq<Entry>, i: nat): seq<Entry>
    requires i < |s|
  {
    s[..i] + s[i + 1..]
  }

  /** `lsdn_list_init_add`: inserts after the position. */
  method InitAdd(position: Entry, entry: Entry, ghost s: seq<Entry>, ghost i: nat)
    requires Ring(s) && i < |s| && s[i] == position && entry !in s
    modifies s`next, s`previous, entry`next, entry`previous
    ensures Ring(Inserted(s, i, entry))
  {
    assert position.next == s[if i == |s| - 1 then 0 else i + 1];
    entry.previous := position;
    entry.next := position.next;
    position.next := entry;
    entry.next.previous := entry;
    ghost var t := Inserted(s, i, entry);
    assert forall k :: 0 <= k <= i ==> t[k] == s[k];
    assert forall k :: i + 2 <= k < |t| ==> t[k] == s[k - 1];
  }

  /** `lsdn_list_add`, with its assertion as precondition. */
  method Add(position: Entry, entry: Entry, ghost s: seq<Entry>, ghost i: nat)
    requires Ring(s) && i < |s| && s[i] == position && entry !in s && entry.next == entry
    modifies s`next, s`previous, entry`next, entry`previous
    ensures Ring(Inserted(s, i, entry))
  {
    InitAdd(position, entry, s, i);
  }

  /** `lsdn_list_remove`, with its assertion as precondition. */
  method Remove(entry: Entry, ghost s: seq<Entry>, ghost i: nat)
    requires Ring(s) && i < |s| && s[i] == entry && entry.next != entry
    modifies s`next, s`previous
    ensures Ring(Removed(s, i)) && Ring([entry])
  {
    assert entry.previous == s[if i == 0 then |s| - 1 else i - 1] && entry.next == s[if i == |s| - 1 then 0 else i + 1];
    entry.previous.next := entry.next;
    entry.next.previous := entry.previous;
    Init(entry);
    ghost var t := Removed(s, i);
    assert forall k :: 0 <= k < i ==> t[k] == s[k];
    assert forall k :: i <= k < |t| ==> t[k] == s[k + 1];
  }

  /** `lsdn_is_list_empty` */
  method IsEmpty(head: Entry, ghost s: seq<Entry>) returns (empty: bool)
    requires Ring(s) && s[0] == head
    ensures empty <==> |s| == 1
  {
    assert head.next == s[if |s| == 1 then 0 else 1];
    empty := head.next == head;
  }

  // ---------------------------------------------------------------- lsdn_foreach

  /** The entries that stay, in their order. */
  ghost function Without(s: seq<Entry>, gone: set<Entry>): seq<Entry>
  {
    if s == [] then []
    else Without(s[..|s| - 1], gone) + (if s[|s| - 1] in gone then [] else [s[|s| - 1]])
  }

  lemma {:induction false} WithoutMember(s: seq<Entry>, gone: set<Entry>)
    ensures forall i :: 0 <= i < |Without(s, gone)| ==> Without(s, gone)[i] in s && Without(s, gone)[i] !in gone
    ensures forall i :: 0 <= i < |s| && s[i] !in gone ==> s[i] in Without(s, gone)
  {
    if s != [] {
      WithoutMember(s[..|s| - 1], gone);
      assert s == s[..|s| - 1] + [s[|s| - 1]];
    }
  }

  lemma {:induction false} WithoutNone(s: seq<Entry>, gone: set<Entry>)
    requires forall e :: e in gone ==> e !in s
    ensures Without(s, gone) == s
  {
    if s != [] {
      WithoutNone(s[..|s| - 1], gone);
      assert s == s[..|s| - 1] + [s[|s| - 1]];
    }
  }

  lemma WithoutAppend(s: seq<Entry>, t: seq<Entry>, gone: set<Entry>)
    requires |t| <= 1
    ensures Without(s + t, gone) == Without(s, gone) + Without(t, gone)
  {
    if t == [] {
      assert s + t == s;
    } else {
      assert (s + t)[..|s + t| - 1] == s && t[..0] == [];
    }
  }

  lemma {:induction false} WithoutTwice(s: seq<Entry>, gone: set<Entry>, more: set<Entry>)
    ensures Without(Without(s, gone), more) == Without(s, gone + more)
  {
    if s != [] {
      WithoutTwice(s[..|s| - 1], gone, more);
      WithoutAppend(Without(s[..|s| - 1], gone), if s[|s| - 1] in gone then [] else [s[|s| - 1]], more);
    }
  }

  /** Removing an entry of a ring leaves the ring without it. */
  lemma {:induction false} RemovedIsWithout(s: seq<Entry>, i: nat)
    requires Distinct(s) && i < |s|
    ensures Without(s, {s[i]}) == Removed(s, i)
  {
    var n := |s|;
    if i == n - 1 {
      WithoutNone(s[..n - 1], {s[i]});
    } else {
      assert s[..n - 1][i] == s[i];
      RemovedIsWithout(s[..n - 1], i);
      assert Removed(s, i) == Removed(s[..n - 1], i) + [s[n - 1]];
    }
  }

  /** One turn of a loop that unlinks the current entry or leaves it. */
  method Visit(name: Entry, unlink: bool, ghost kept: seq<Entry>, ghost rest: seq<Entry>) returns (ghost kept': seq<Entry>)
    requires Ring(kept + [name] + rest) && |kept| > 0
    modifies (kept + [name] + rest)`next, (kept + [name] + rest)`previous
    ensures kept' == (if unlink then kept else kept + [name]) && Ring(kept' + rest)
  {
    ghost var ring := kept + [name] + rest;
    kept' := kept + [name];
    if unlink {
      kept' := kept;
      assert ring[|kept|] == name && ring[0] != name;
      Remove(name, ring, |kept|);
      assert Removed(ring, |kept|) == kept + rest;
    }
  }

  /** What the saved `next` is when the loop turns. */
  lemma Following(kept: seq<Entry>, name: Entry, rest: seq<Entry>)
    requires Ring(kept + [name] + rest) && |kept| > 0
    ensures name.next == if rest == [] then kept[0] else rest[0]
  {
    var ring := kept + [name] + rest;
    assert ring[|kept|] == name;
    assert rest != [] ==> ring[|kept| + 1] == rest[0];
  }

  lemma WithoutOne(e: Entry, gone: set<Entry>)
    ensures Without([e], gone) == if e in gone then [] else [e]
  {
    assert [e][..0] == [];
  }

  lemma Within(kept: seq<Entry>, name: Entry, rest: seq<Entry>, s: seq<Entry>)
    requires (forall e :: e in kept ==> e in s) && name in s && (forall e :: e in rest ==> e in s)
    ensures forall i :: 0 <= i < |kept + [name] + rest| ==> (kept + [name] + rest)[i] in s
  {
  }

  lemma HeadOnce(s: seq<Entry>)
    requires Ring(s)
    ensures s != [] && s[0].next == (if |s| == 1 then s[0] else s[1])
    ensures forall i :: 1 <= i < |s| ==> s[i] != s[0]
  {
  }

  /** What a turn of the loop does to the visited and remaining entries. */
  lemma Turn(s: seq<Entry>, head: Entry, visited: seq<Entry>, rest: seq<Entry>)
    requires s == [head] + visited + rest && rest != []
    ensures s == [head] + (visited + [rest[0]]) + rest[1..]
    ensures |rest| > 1 ==> rest[1] == s[2 + |visited|]
    ensures rest[0] in s && forall e :: e in rest[1..] ==> e in s
  {
    assert s[1 + |visited|] == rest[0];
    assert s[2 + |visited|..] == rest[1..];
  }

  lemma Unfold(kept: seq<Entry>, rest: seq<Entry>)
    requires rest != []
    ensures kept + rest == kept + [rest[0]] + rest[1..]
  {}

  lemma KeptNext(head: Entry, visited: seq<Entry>, name: Entry, kept: seq<Entry>, doomed: set<Entry>)
    requires kept == Without([head] + visited, doomed)
    ensures Without([head] + (visited + [name]), doomed) == if name in doomed then kept else kept + [name]
  {
    hide Without;
    assert [head] + (visited + [name]) == [head] + visited + [name];
    WithoutAppend([head] + visited, [name], doomed);
    WithoutOne(name, doomed);
  }

  /** `lsdn_foreach` with a body that unlinks the current entry if it is in `doomed`: every original entry is visited once,
      in order, and the others stay linked. */
  method ForEach(head: Entry, doomed: set<Entry>, ghost s: seq<Entry>) returns (visited: seq<Entry>)
    requires Ring(s) && s[0] == head && head !in doomed
    modifies s`next, s`previous
    ensures visited == s[1..] && Ring(Without(s, doomed))
  {
    hide Distinct, Ring, Without;
    HeadOnce(s);
    assert [head] + [] == [head];
    WithoutOne(head, doomed);
    visited := [];
    ghost var kept, rest := [head], s[1..];
    assert s == kept + rest;
    var name := head.next;
    while name != head
      invariant s == [head] + visited + rest && kept == Without([head] + visited, doomed)
      invariant |kept| > 0 && kept[0] == head && (forall e :: e in kept ==> e in s) && Ring(kept + rest)
      invariant name == (if rest == [] then head else rest[0]) && (rest != [] ==> name == s[1 + |visited|])
      decreases |rest|
    {
      ghost var rest' := rest[1..];
      Turn(s, head, visited, rest);
      Unfold(kept, rest);
      Within(kept, name, rest', s);
      KeptNext(head, visited, name, kept, doomed);
      Following(kept, name, rest');
      var nameNext := name.next;
      kept := Visit(name, name in doomed, kept, rest');
      rest := rest';
      visited := visited + [name];
      name := nameNext;
    }
    assert kept + rest == kept && [head] + visited == s;
  }
}
