/** Lists that group objects by the object they hang on: the intrusive lists of the model, read as sequences. */
module Index {

  ghost predicate NoDup<A>(s: seq<A>)
  {
    forall i, j :: 0 <= i < j < |s| ==> s[i] != s[j]
  }

  lemma NoDupConcat<A>(s: seq<A>, t: seq<A>)
    requires NoDup(s) && NoDup(t) && forall i :: 0 <= i < |t| ==> t[i] !in s
    ensures NoDup(s + t)
  {
  }

  /** Every object hangs on the list of its owner, once, and on no other list. */
  ghost predicate Indexed<K, A(!new)>(lists: map<K, seq<A>>, owner: map<A, K>)
  {
    && (forall a :: a in owner ==> owner[a] in lists)
    && (forall k :: k in lists ==> NoDup(lists[k]))
    && (forall k, a :: k in lists ==> (a in lists[k] <==> a in owner && owner[a] == k))
  }

  lemma Home<K, A(!new)>(lists: map<K, seq<A>>, owner: map<A, K>, a: A)
    requires Indexed(lists, owner) && a in owner
    ensures owner[a] in lists && a in lists[owner[a]]
  {
  }

  function Minus<A(==, !new)>(s: seq<A>, a: A): (r: seq<A>)
    ensures forall x :: x in r <==> x in s && x != a
    ensures NoDup(s) ==> NoDup(r)
    ensures a !in s ==> r == s
  {
    if s == [] then []
    else
      assert s == [s[0]] + s[1..];
      assert NoDup(s) ==> s[0] !in s[1..];
      if s[0] == a then Minus(s[1..], a)
      else [s[0]] + Minus(s[1..], a)
  }

  lemma Hang<K, A(!new)>(lists: map<K, seq<A>>, owner: map<A, K>, k: K, a: A)
    requires Indexed(lists, owner) && k in lists && a !in owner
    ensures Indexed(lists[k := [a] + lists[k]], owner[a := k])
  {
    assert a !in lists[k];
  }

  lemma Unhang<K, A(!new)>(lists: map<K, seq<A>>, owner: map<A, K>, a: A)
    requires Indexed(lists, owner) && a in owner
    ensures Indexed(lists[owner[a] := Minus(lists[owner[a]], a)], owner - {a})
  {
  }

  lemma NewList<K, A(!new)>(lists: map<K, seq<A>>, owner: map<A, K>, k: K)
    requires Indexed(lists, owner) && k !in lists
    ensures Indexed(lists[k := []], owner)
  {
  }

  lemma DropList<K, A(!new)>(lists: map<K, seq<A>>, owner: map<A, K>, k: K)
    requires Indexed(lists, owner) && k in lists && lists[k] == []
    ensures Indexed(lists - {k}, owner)
  {
    assert forall a :: a in owner ==> owner[a] != k;
  }

  lemma PutKeys<K, V>(m: map<K, V>, k: K, v: V)
    ensures m[k := v].Keys == m.Keys + {k} && (k in m ==> m[k := v].Keys == m.Keys)
  {
  }

  lemma DropKeys<K, V>(m: map<K, V>, k: K)
    ensures (m - {k}).Keys == m.Keys - {k}
  {
  }
}
