/** The rules compiler (rules.c, idalloc.c): prioritised rules become flower filters. */
module Ruleset {
  import opened Base
  import opened Masking

  type Id = nat

  /** A single tc action, as the callback of an action description emits it. */
  type Act = nat

  const MAX_HANDLE := 0xFFFF
  const MAX_ACT_PRIO := 32

  /** `struct lsdn_rule`: the match data is masked when the rule is added. */
  datatype Rule = Rule(id: Id, prio: nat, matches: Matches, subprio: nat, action: seq<Act>)

  /** `struct lsdn_flower_rule`; its match data is its key in the table. */
  datatype Flow = Flow(handle: nat, sources: seq<Rule>)

  /** `struct lsdn_ruleset_prio`; `next` is the state of its handle allocator. */
  datatype Prio = Prio(targets: Targets, masks: Matches, next: nat, flows: map<Matches, Flow>)

  /** A filter in the kernel. */
  datatype Filter = Filter(targets: Targets, masks: Matches, key: Matches, actions: seq<Act>)

  /** The kernel's filters by priority and handle. */
  type Kernel = map<(nat, nat), Filter>

  // ---------------------------------------------------------------- the actions of a flower rule

  function Concat(sources: seq<Rule>): seq<Act>
  {
    if sources == [] then [] else sources[0].action + Concat(sources[1..])
  }

  ghost predicate Ascending(sources: seq<Rule>)
  {
    forall i, j :: 0 <= i < j < |sources| ==> sources[i].subprio < sources[j].subprio
  }

  function FilterOf(p: Prio, key: Matches, f: Flow): Filter
  {
    Filter(p.targets, p.masks, key, Concat(f.sources))
  }

  // ---------------------------------------------------------------- the invariant

  /** A flower rule combines, in ascending sub-priority, rules of one priority with one masked key. */
  ghost predicate FlowOk(prio: nat, p: Prio, key: Matches, f: Flow)
  {
    && 1 <= f.handle < p.next && |f.sources| > 0 && Ascending(f.sources)
    && |Concat(f.sources)| < MAX_ACT_PRIO
    && (forall i :: 0 <= i < |f.sources| ==> f.sources[i].matches == key && f.sources[i].prio == prio)
  }

  ghost predicate PrioOk(prio: nat, p: Prio)
  {
    && 1 <= p.next <= MAX_HANDLE && (p.flows != map[] ==> OneEthType(p.targets))
    && (forall k :: k in p.flows ==> FlowOk(prio, p, k, p.flows[k]))
    && (forall k, l :: k in p.flows && l in p.flows && p.flows[k].handle == p.flows[l].handle ==> k == l)
  }

  ghost predicate PriosOk(prios: map<nat, Prio>)
  {
    forall p :: p in prios ==> PrioOk(p, prios[p])
  }

  ghost predicate PrioMirrored(prio: nat, p: Prio, kernel: Kernel)
  {
    forall k :: k in p.flows ==> (prio, p.flows[k].handle) in kernel && kernel[(prio, p.flows[k].handle)] == FilterOf(p, k, p.flows[k])
  }

  ghost predicate Backed(prios: map<nat, Prio>, x: (nat, nat), f: Filter)
  {
    x.0 in prios && f.key in prios[x.0].flows && prios[x.0].flows[f.key].handle == x.1
  }

  /** Flower rules and kernel filters correspond one to one, with equal match and action list. */
  ghost predicate Mirrored(prios: map<nat, Prio>, kernel: Kernel)
  {
    && (forall p :: p in prios ==> PrioMirrored(p, prios[p], kernel))
    && (forall x :: x in kernel ==> Backed(prios, x, kernel[x]))
  }

  ghost predicate SourcesLive(prios: map<nat, Prio>, rules: map<Id, Rule>)
  {
    forall p, k, x :: p in prios && k in prios[p].flows && x in prios[p].flows[k].sources ==> x.id in rules && rules[x.id] == x
  }

  ghost predicate RulesPlaced(prios: map<nat, Prio>, rules: map<Id, Rule>)
  {
    forall id :: id in rules ==>
      && rules[id].id == id && rules[id].prio in prios && rules[id].matches in prios[rules[id].prio].flows
      && rules[id] in prios[rules[id].prio].flows[rules[id].matches].sources
  }

  /** The rules in the flower rules are exactly the live ones. */
  ghost predicate Placed(prios: map<nat, Prio>, rules: map<Id, Rule>)
  {
    SourcesLive(prios, rules) && RulesPlaced(prios, rules)
  }

  /** What the callers gave is what the rules match, masked. */
  ghost predicate Given(prios: map<nat, Prio>, rules: map<Id, Rule>, given: map<Id, Matches>)
  {
    && rules.Keys == given.Keys
    && forall id :: id in rules && rules[id].prio in prios ==>
         rules[id].matches == Masked(prios[rules[id].prio].targets, prios[rules[id].prio].masks, given[id])
  }

  // ---------------------------------------------------------------- steps

  ghost function PutFlow(prios: map<nat, Prio>, p: nat, key: Matches, f: Flow, next: nat): map<nat, Prio>
    requires p in prios
  {
    prios[p := prios[p].(flows := prios[p].flows[key := f], next := next)]
  }

  /** A flower rule keeps its handle; a new one gets the next free handle. */
  ghost predicate PutOk(prios: map<nat, Prio>, p: nat, key: Matches, f: Flow, next: nat)
  {
    && p in prios && FlowOk(p, prios[p].(next := next), key, f) && next <= MAX_HANDLE && OneEthType(prios[p].targets)
    && if key in prios[p].flows then f.handle == prios[p].flows[key].handle && next == prios[p].next
       else f.handle == prios[p].next && next == prios[p].next + 1
  }

  lemma PutPriosOk(prios: map<nat, Prio>, p: nat, key: Matches, f: Flow, next: nat)
    requires PriosOk(prios) && PutOk(prios, p, key, f, next)
    ensures PriosOk(PutFlow(prios, p, key, f, next))
  {
    var p0, p1 := prios[p], PutFlow(prios, p, key, f, next)[p];
    assert PrioOk(p, p0);
    forall k | k in p1.flows ensures FlowOk(p, p1, k, p1.flows[k]) {
      if k != key { assert FlowOk(p, p0, k, p0.flows[k]); }
    }
    assert PrioOk(p, p1);
  }

  lemma OwnHandle(prios: map<nat, Prio>, p: nat, key: Matches, f: Flow, next: nat)
    requires PriosOk(prios) && PutOk(prios, p, key, f, next)
    ensures forall k :: k in prios[p].flows && k != key ==> prios[p].flows[k].handle != f.handle
  {
    assert PrioOk(p, prios[p]);
    forall k | k in prios[p].flows && k != key ensures prios[p].flows[k].handle != f.handle {
      assert FlowOk(p, prios[p], k, prios[p].flows[k]);
    }
  }

  /** An exclusive create never meets an existing filter, and an update always does. */
  lemma PutExclusive(prios: map<nat, Prio>, kernel: Kernel, p: nat, key: Matches, f: Flow, next: nat)
    requires PriosOk(prios) && Mirrored(prios, kernel) && PutOk(prios, p, key, f, next)
    ensures (p, f.handle) in kernel <==> key in prios[p].flows
  {
    OwnHandle(prios, p, key, f, next);
    hide PriosOk, FlowOk, Concat;
    assert PrioMirrored(p, prios[p], kernel);
    if (p, f.handle) in kernel { assert Backed(prios, (p, f.handle), kernel[(p, f.handle)]); }
  }

  lemma PutMirrored(prios: map<nat, Prio>, kernel: Kernel, p: nat, key: Matches, f: Flow, next: nat)
    requires PriosOk(prios) && Mirrored(prios, kernel) && PutOk(prios, p, key, f, next)
    ensures Mirrored(PutFlow(prios, p, key, f, next), kernel[(p, f.handle) := FilterOf(prios[p], key, f)])
  {
    hide PriosOk, FlowOk, FilterOf, PrioMirrored, Backed;
    var kernel' := kernel[(p, f.handle) := FilterOf(prios[p], key, f)];
    PutPrioMirrored(prios, kernel, p, key, f, next);
    forall q | q in prios && q != p ensures PrioMirrored(q, prios[q], kernel') { OtherPrioMirrored(prios, kernel, p, f.handle, FilterOf(prios[p], key, f), q); }
    forall x | x in kernel' ensures Backed(PutFlow(prios, p, key, f, next), x, kernel'[x]) { PutBacked(prios, kernel, p, key, f, next, x); }
  }

  lemma PutPrioMirrored(prios: map<nat, Prio>, kernel: Kernel, p: nat, key: Matches, f: Flow, next: nat)
    requires PriosOk(prios) && PutOk(prios, p, key, f, next) && PrioMirrored(p, prios[p], kernel)
    ensures PrioMirrored(p, PutFlow(prios, p, key, f, next)[p], kernel[(p, f.handle) := FilterOf(prios[p], key, f)])
  {
    OwnHandle(prios, p, key, f, next);
    hide PriosOk, FlowOk, Concat;
  }

  lemma OtherPrioMirrored(prios: map<nat, Prio>, kernel: Kernel, p: nat, h: nat, filter: Filter, q: nat)
    requires q in prios && q != p && PrioMirrored(q, prios[q], kernel)
    ensures PrioMirrored(q, prios[q], kernel[(p, h) := filter])
  {
    hide Concat;
  }

  lemma PutBacked(prios: map<nat, Prio>, kernel: Kernel, p: nat, key: Matches, f: Flow, next: nat, x: (nat, nat))
    requires PutOk(prios, p, key, f, next) && (x != (p, f.handle) ==> x in kernel && Backed(prios, x, kernel[x]))
    ensures Backed(PutFlow(prios, p, key, f, next), x, kernel[(p, f.handle) := FilterOf(prios[p], key, f)][x])
  {
    hide FlowOk, Concat;
  }

  ghost function DropFlow(prios: map<nat, Prio>, p: nat, key: Matches): map<nat, Prio>
    requires p in prios
  {
    prios[p := prios[p].(flows := prios[p].flows - {key})]
  }

  lemma DropPriosOk(prios: map<nat, Prio>, p: nat, key: Matches)
    requires PriosOk(prios) && p in prios
    ensures PriosOk(DropFlow(prios, p, key))
  {
    var p0, p1 := prios[p], DropFlow(prios, p, key)[p];
    assert PrioOk(p, p0);
    forall k | k in p1.flows ensures FlowOk(p, p1, k, p1.flows[k]) { assert FlowOk(p, p0, k, p0.flows[k]); }
    assert PrioOk(p, p1);
  }

  lemma OnePrioOk(prios: map<nat, Prio>, p: nat)
    requires PriosOk(prios) && p in prios
    ensures PrioOk(p, prios[p])
  {}

  lemma FlowEthType(prios: map<nat, Prio>, p: nat, key: Matches)
    requires PriosOk(prios) && p in prios && key in prios[p].flows
    ensures OneEthType(prios[p].targets)
  {
    assert PrioOk(p, prios[p]);
  }

  lemma DropMirrored(prios: map<nat, Prio>, kernel: Kernel, p: nat, key: Matches)
    requires PriosOk(prios) && Mirrored(prios, kernel) && p in prios && key in prios[p].flows
    ensures (p, prios[p].flows[key].handle) in kernel
    ensures Mirrored(DropFlow(prios, p, key), kernel - {(p, prios[p].flows[key].handle)})
  {
    hide PriosOk, FlowOk, Concat;
    OnePrioOk(prios, p);
    var prios', x0 := DropFlow(prios, p, key), (p, prios[p].flows[key].handle);
    assert PrioMirrored(p, prios[p], kernel);
    assert PrioMirrored(p, prios'[p], kernel - {x0});
    forall q | q in prios' && q != p ensures PrioMirrored(q, prios'[q], kernel - {x0}) { assert PrioMirrored(q, prios[q], kernel); }
    forall x | x in kernel && x != x0 ensures Backed(prios', x, kernel[x]) { assert Backed(prios, x, kernel[x]); }
  }

  // ---------------------------------------------------------------- sorted source lists

  function InsertAt(s: seq<Rule>, i: nat, r: Rule): seq<Rule>
    requires i <= |s|
  {
    s[..i] + [r] + s[i..]
  }

  lemma InsertAscending(s: seq<Rule>, i: nat, r: Rule)
    requires Ascending(s) && i <= |s|
    requires forall k :: 0 <= k < i ==> s[k].subprio < r.subprio
    requires i < |s| ==> r.subprio < s[i].subprio
    ensures Ascending(InsertAt(s, i, r))
    ensures forall x :: x in InsertAt(s, i, r) <==> x in s || x == r
  {
    var t := InsertAt(s, i, r);
    assert forall k :: 0 <= k < i ==> t[k] == s[k];
    assert t[i] == r && forall k :: i < k < |t| ==> t[k] == s[k - 1];
    forall x | x in s ensures x in t {
      var k :| 0 <= k < |s| && s[k] == x;
      assert t[if k < i then k else k + 1] == x;
    }
  }

  lemma ConcatHead(s: seq<Rule>)
    ensures Concat(s) == if s == [] then [] else s[0].action + Concat(s[1..])
  {}

  lemma {:induction false} ConcatSplit(a: seq<Rule>, b: seq<Rule>)
    ensures Concat(a + b) == Concat(a) + Concat(b)
  {
    hide Concat;
    ConcatHead(a);
    if a == [] {
      assert a + b == b && Concat(a) + Concat(b) == Concat(b);
    } else {
      ConcatSplit(a[1..], b);
      ConcatHead(a + b);
      assert (a + b)[0] == a[0] && (a + b)[1..] == a[1..] + b;
      assert a[0].action + (Concat(a[1..]) + Concat(b)) == (a[0].action + Concat(a[1..])) + Concat(b);
    }
  }

  lemma ConcatInsert(s: seq<Rule>, i: nat, r: Rule)
    requires i <= |s|
    ensures |Concat(InsertAt(s, i, r))| == |Concat(s)| + |r.action|
  {
    ConcatSplit(s[..i] + [r], s[i..]);
    ConcatSplit(s[..i], [r]);
    ConcatSplit(s[..i], s[i..]);
    assert s[..i] + s[i..] == s;
  }

  function RemoveAt(s: seq<Rule>, i: nat): seq<Rule>
    requires i < |s|
  {
    s[..i] + s[i + 1..]
  }

  lemma RemoveAscending(s: seq<Rule>, i: nat)
    requires Ascending(s) && i < |s|
    ensures Ascending(RemoveAt(s, i))
    ensures forall x :: x in RemoveAt(s, i) <==> x in s && x != s[i]
  {
    var t := RemoveAt(s, i);
    assert forall k :: 0 <= k < i ==> t[k] == s[k];
    assert forall k :: i <= k < |t| ==> t[k] == s[k + 1];
    forall x | x in s && x != s[i] ensures x in t {
      var k :| 0 <= k < |s| && s[k] == x;
      assert t[if k < i then k else k - 1] == x;
    }
  }

  lemma ConcatRemove(s: seq<Rule>, i: nat)
    requires i < |s|
    ensures |Concat(RemoveAt(s, i))| <= |Concat(s)|
  {
    assert InsertAt(RemoveAt(s, i), i, s[i]) == s;
    ConcatInsert(RemoveAt(s, i), i, s[i]);
  }

  // ---------------------------------------------------------------- placing and removing rules

  lemma AddPlaced(prios: map<nat, Prio>, rules: map<Id, Rule>, r: Rule, f: Flow, next: nat)
    requires Placed(prios, rules) && r.id !in rules && r.prio in prios
    requires forall x :: x in f.sources <==> x == r || (r.matches in prios[r.prio].flows && x in prios[r.prio].flows[r.matches].sources)
    ensures Placed(PutFlow(prios, r.prio, r.matches, f, next), rules[r.id := r])
  {
    hide RulesPlaced;
    assert SourcesLive(PutFlow(prios, r.prio, r.matches, f, next), rules[r.id := r]);
    AddRulesPlaced(prios, rules, r, f, next);
  }

  lemma AddRulesPlaced(prios: map<nat, Prio>, rules: map<Id, Rule>, r: Rule, f: Flow, next: nat)
    requires RulesPlaced(prios, rules) && r.id !in rules && r.prio in prios
    requires forall x :: x in f.sources <==> x == r || (r.matches in prios[r.prio].flows && x in prios[r.prio].flows[r.matches].sources)
    ensures RulesPlaced(PutFlow(prios, r.prio, r.matches, f, next), rules[r.id := r])
  {}

  /** `prios'` is `prios` without the rule `r`. */
  ghost predicate Without(prios: map<nat, Prio>, prios': map<nat, Prio>, r: Rule)
  {
    && prios'.Keys == prios.Keys && r.prio in prios && r.matches in prios[r.prio].flows
    && (forall p :: p in prios && p != r.prio ==> prios'[p] == prios[p])
    && (forall k :: k in prios'[r.prio].flows ==> k in prios[r.prio].flows)
    && (forall k :: k in prios[r.prio].flows && k != r.matches ==> k in prios'[r.prio].flows && prios'[r.prio].flows[k] == prios[r.prio].flows[k])
    && if r.matches in prios'[r.prio].flows
       then forall x :: x in prios'[r.prio].flows[r.matches].sources <==> x in prios[r.prio].flows[r.matches].sources && x != r
       else forall x :: x in prios[r.prio].flows[r.matches].sources ==> x == r
  }

  lemma WithoutSource(prios: map<nat, Prio>, prios': map<nat, Prio>, r: Rule, p: nat, k: Matches, x: Rule)
    requires PriosOk(prios) && Without(prios, prios', r) && p in prios' && k in prios'[p].flows && x in prios'[p].flows[k].sources
    ensures k in prios[p].flows && x in prios[p].flows[k].sources && x != r
  {
    assert x in prios[p].flows[k].sources;
    var j :| 0 <= j < |prios[p].flows[k].sources| && prios[p].flows[k].sources[j] == x;
    assert PrioOk(p, prios[p]) && FlowOk(p, prios[p], k, prios[p].flows[k]);
  }

  /** Taking one rule out of its flower rule leaves exactly the other rules placed. */
  lemma RemovePlaced(prios: map<nat, Prio>, prios': map<nat, Prio>, rules: map<Id, Rule>, r: Rule)
    requires PriosOk(prios) && Placed(prios, rules) && Without(prios, prios', r) && r.id in rules && rules[r.id] == r
    ensures Placed(prios', rules - {r.id})
  {
    hide RulesPlaced, Without, PriosOk;
    forall p, k, x | p in prios' && k in prios'[p].flows && x in prios'[p].flows[k].sources
      ensures x.id in rules - {r.id} && rules[x.id] == x
    {
      WithoutKeys(prios, prios', r);
      WithoutSource(prios, prios', r, p, k, x);
    }
    RemoveRulesPlaced(prios, prios', rules, r);
  }

  lemma WithoutKeys(prios: map<nat, Prio>, prios': map<nat, Prio>, r: Rule)
    requires Without(prios, prios', r)
    ensures prios'.Keys == prios.Keys
  {}

  lemma RemoveRulesPlaced(prios: map<nat, Prio>, prios': map<nat, Prio>, rules: map<Id, Rule>, r: Rule)
    requires RulesPlaced(prios, rules) && Without(prios, prios', r) && r.id in rules && rules[r.id] == r
    ensures RulesPlaced(prios', rules - {r.id})
  {
    forall id | id in rules && id != r.id
      ensures var x := rules[id]; x.prio in prios' && x.matches in prios'[x.prio].flows && x in prios'[x.prio].flows[x.matches].sources
    {
      assert rules[id] in prios[rules[id].prio].flows[rules[id].matches].sources;
    }
  }

  // ---------------------------------------------------------------- the ruleset

  class Ruleset {
    var prios: map<nat, Prio>
    /** The rules that were added and not removed, with their back pointers. */
    var rules: map<Id, Rule>
    /** The match data as the callers gave it, before masking. */
    ghost var given: map<Id, Matches>
    ghost var kernel: Kernel

    ghost predicate Valid()
      reads this
    {
      PriosOk(prios) && Mirrored(prios, kernel) && Placed(prios, rules) && Given(prios, rules, given)
    }

    /** `lsdn_ruleset_init` */
    constructor ()
      ensures Valid() && prios == map[] && rules == map[] && kernel == map[]
    {
      prios, rules, given, kernel := map[], map[], map[], map[];
    }

    /** `lsdn_ruleset_define_prio`, with the targets and masks that its callers fill in before they add rules. */
    method DefinePrio(prio: nat, targets: Targets, masks: Matches) returns (ok: bool)
      requires Valid()
      modifies this`prios
      ensures Valid()
      ensures ok <==> prio !in old(prios)
      ensures prios == if ok then old(prios)[prio := Prio(targets, masks, 1, map[])] else old(prios)
    {
      ok := prio !in prios;
      if ok {
        DefinePlaced(prios, rules, given, prio, Prio(targets, masks, 1, map[]));
        DefineMirrored(prios, kernel, prio, Prio(targets, masks, 1, map[]));
        prios := prios[prio := Prio(targets, masks, 1, map[])];
      }
    }

    /** Where a rule goes in a source list: after all lower sub-priorities, unless its sub-priority is taken. */
    method FindPlace(sources: seq<Rule>, subprio: nat) returns (i: nat, duplicate: bool)
      requires Ascending(sources)
      ensures i <= |sources|
      ensures duplicate <==> exists x :: x in sources && x.subprio == subprio
      ensures !duplicate ==> (forall k :: 0 <= k < i ==> sources[k].subprio < subprio) && (i < |sources| ==> subprio < sources[i].subprio)
    {
      i, duplicate := 0, false;
      while i < |sources|
        invariant 0 <= i <= |sources| && forall k :: 0 <= k < i ==> sources[k].subprio < subprio
      {
        if sources[i].subprio == subprio {
          return i, true;
        }
        if sources[i].subprio > subprio {
          assert forall k :: i <= k < |sources| ==> sources[k].subprio > subprio;
          break;
        }
        i := i + 1;
      }
    }

    /** `flush_fl_rule`: an exclusive create, or an update of the filter with the same handle. Its abort for mixed targets
        is not reached. */
    ghost method Flush(prio: nat, key: Matches, f: Flow, update: bool)
      requires prio in prios && |Concat(f.sources)| < MAX_ACT_PRIO && OneEthType(prios[prio].targets)
      requires update <==> (prio, f.handle) in kernel
      modifies this`kernel
      ensures kernel == old(kernel)[(prio, f.handle) := FilterOf(prios[prio], key, f)]
    {
      kernel := kernel[(prio, f.handle) := FilterOf(prios[prio], key, f)];
    }

    /** `lsdn_ruleset_add` */
    method Add(id: Id, prio: nat, matches: Matches, subprio: nat, action: seq<Act>) returns (err: Error)
      requires Valid() && id !in rules && prio in prios && Fits(prios[prio], KeyOf(prios[prio], matches), action) && OneEthType(prios[prio].targets)
      modifies this`prios, this`rules, this`given, this`kernel
      ensures Valid() && err in {LSDNE_OK, LSDNE_DUPLICATE, LSDNE_NOMEM}
      ensures err == LSDNE_DUPLICATE <==> Taken(old(rules), prio, KeyOf(old(prios)[prio], matches), subprio)
      ensures err == LSDNE_NOMEM <==> !KeyLive(old(rules), prio, KeyOf(old(prios)[prio], matches)) && old(prios)[prio].next == 0xFFFF
      ensures err != LSDNE_OK ==> prios == old(prios) && rules == old(rules) && given == old(given) && kernel == old(kernel)
      ensures err == LSDNE_OK ==> given == old(given)[id := matches]
      ensures err == LSDNE_OK ==> rules == old(rules)[id := Rule(id, prio, KeyOf(old(prios)[prio], matches), subprio, action)]
      ensures prios.Keys == old(prios).Keys
      ensures forall p :: p in prios ==>
                prios[p].targets == old(prios)[p].targets && prios[p].masks == old(prios)[p].masks && prios[p].next <= old(prios)[p].next + 1
    {
      hide FlowOk, Mirrored, Given, Placed, Concat, OneEthType;
      var p := prios[prio];
      var key := ApplyMask(p.targets, p.masks, matches);
      KeyLiveIff(prios, rules, prio, key);
      TakenIff(prios, rules, prio, key, subprio);
      var r := Rule(id, prio, key, subprio, action);
      if key !in p.flows {
        if p.next == MAX_HANDLE {
          return LSDNE_NOMEM;
        }
        var f := Flow(p.next, [r]);
        AddFirst(prios, rules, given, kernel, r, f, matches);
        prios := prios[prio := p.(flows := p.flows[key := f], next := p.next + 1)];
        Flush(prio, key, f, false);
      } else {
        FlowAscending(prios, prio, key);
        var i, duplicate := FindPlace(p.flows[key].sources, subprio);
        if duplicate {
          return LSDNE_DUPLICATE;
        }
        var f := Flow(p.flows[key].handle, InsertAt(p.flows[key].sources, i, r));
        AddAnother(prios, rules, given, kernel, r, i, f, matches);
        prios := prios[prio := p.(flows := p.flows[key := f])];
        Flush(prio, key, f, true);
      }
      rules, given := rules[id := r], given[id := matches];
      return LSDNE_OK;
    }

    /** `lsdn_ruleset_remove` */
    method Remove(id: Id)
      requires Valid() && id in rules
      modifies this`prios, this`rules, this`given, this`kernel
      ensures Valid() && rules == old(rules) - {id} && given == old(given) - {id}
      ensures prios.Keys == old(prios).Keys
      ensures forall p :: p in prios ==>
                prios[p].targets == old(prios)[p].targets && prios[p].masks == old(prios)[p].masks && prios[p].next == old(prios)[p].next
    {
      hide FlowOk, Mirrored, Given, Concat, PriosOk, SourcesLive, OneEthType;
      var r := rules[id];
      var p, f := prios[r.prio], prios[r.prio].flows[r.matches];
      var i :| 0 <= i < |f.sources| && f.sources[i] == r;
      var sources := RemoveAt(f.sources, i);
      if sources == [] {
        RemoveLast(prios, rules, given, kernel, r, i);
        prios := prios[r.prio := p.(flows := p.flows - {r.matches})];
        kernel := kernel - {(r.prio, f.handle)};
      } else {
        RemoveOne(prios, rules, given, kernel, r, i);
        FlowEthType(prios, r.prio, r.matches);
        prios := prios[r.prio := p.(flows := p.flows[r.matches := Flow(f.handle, sources)])];
        Flush(r.prio, r.matches, Flow(f.handle, sources), true);
      }
      rules, given := rules - {id}, given - {id};
    }

    /** `lsdn_ruleset_remove_prio`, with its assertion as precondition. */
    method RemovePrio(prio: nat)
      requires Valid() && prio in prios && prios[prio].flows == map[]
      modifies this`prios
      ensures Valid() && prios == old(prios) - {prio}
    {
      RemovePrioOk(prios, rules, given, kernel, prio);
      prios := prios - {prio};
    }
  }

  lemma DefinePlaced(prios: map<nat, Prio>, rules: map<Id, Rule>, given: map<Id, Matches>, prio: nat, p: Prio)
    requires Placed(prios, rules) && Given(prios, rules, given) && prio !in prios && p.flows == map[]
    ensures Placed(prios[prio := p], rules) && Given(prios[prio := p], rules, given)
  {}

  lemma DefineMirrored(prios: map<nat, Prio>, kernel: Kernel, prio: nat, p: Prio)
    requires Mirrored(prios, kernel) && PriosOk(prios) && prio !in prios && p.flows == map[] && p.next == 1
    ensures Mirrored(prios[prio := p], kernel) && PriosOk(prios[prio := p])
  {
    hide FlowOk, Concat;
  }

  lemma RemovePrioOk(prios: map<nat, Prio>, rules: map<Id, Rule>, given: map<Id, Matches>, kernel: Kernel, prio: nat)
    requires PriosOk(prios) && Mirrored(prios, kernel) && Placed(prios, rules) && Given(prios, rules, given)
    requires prio in prios && prios[prio].flows == map[]
    ensures PriosOk(prios - {prio}) && Mirrored(prios - {prio}, kernel) && Placed(prios - {prio}, rules) && Given(prios - {prio}, rules, given)
  {
    hide PrioOk, Mirrored, Placed, Given;
    RemovePrioMirrored(prios, kernel, prio);
    RemovePrioPlaced(prios, rules, given, prio);
  }

  lemma RemovePrioMirrored(prios: map<nat, Prio>, kernel: Kernel, prio: nat)
    requires Mirrored(prios, kernel) && prio in prios && prios[prio].flows == map[]
    ensures Mirrored(prios - {prio}, kernel)
  {
    hide PrioMirrored;
    forall x | x in kernel
      ensures Backed(prios - {prio}, x, kernel[x])
    {
      assert Backed(prios, x, kernel[x]);
    }
  }

  lemma RemovePrioPlaced(prios: map<nat, Prio>, rules: map<Id, Rule>, given: map<Id, Matches>, prio: nat)
    requires Placed(prios, rules) && Given(prios, rules, given) && prio in prios && prios[prio].flows == map[]
    ensures Placed(prios - {prio}, rules) && Given(prios - {prio}, rules, given)
  {}

  // ---------------------------------------------------------------- adding

  function KeyOf(p: Prio, matches: Matches): Matches { Masked(p.targets, p.masks, matches) }

  /** The actions of all rules with one key go into one filter, whose actions are numbered from 1 to 31. */
  ghost predicate Fits(p: Prio, key: Matches, action: seq<Act>)
  {
    |action| + (if key in p.flows then |Concat(p.flows[key].sources)| else 0) <= 31
  }

  ghost predicate KeyLive(rules: map<Id, Rule>, prio: nat, key: Matches)
  {
    exists x :: x in rules && rules[x].prio == prio && rules[x].matches == key
  }

  /** A live rule has the same masked key and the same sub-priority. */
  ghost predicate Taken(rules: map<Id, Rule>, prio: nat, key: Matches, subprio: nat)
  {
    exists x :: x in rules && rules[x].prio == prio && rules[x].matches == key && rules[x].subprio == subprio
  }

  lemma KeyLiveIff(prios: map<nat, Prio>, rules: map<Id, Rule>, prio: nat, key: Matches)
    requires PriosOk(prios) && Placed(prios, rules) && prio in prios
    ensures KeyLive(rules, prio, key) <==> key in prios[prio].flows
  {
    if key in prios[prio].flows {
      assert PrioOk(prio, prios[prio]) && FlowOk(prio, prios[prio], key, prios[prio].flows[key]);
      hide RulesPlaced;
      var r := prios[prio].flows[key].sources[0];
      assert r in prios[prio].flows[key].sources;
      assert r.id in rules;
    }
  }

  lemma TakenIff(prios: map<nat, Prio>, rules: map<Id, Rule>, prio: nat, key: Matches, subprio: nat)
    requires PriosOk(prios) && Placed(prios, rules) && prio in prios
    ensures Taken(rules, prio, key, subprio) <==>
              key in prios[prio].flows && exists x :: x in prios[prio].flows[key].sources && x.subprio == subprio
  {
    hide PriosOk, SourcesLive, RulesPlaced, Taken;
    if Taken(rules, prio, key, subprio) {
      TakenPlaced(prios, rules, prio, key, subprio);
    } else if key in prios[prio].flows {
      forall x | x in prios[prio].flows[key].sources ensures x.subprio != subprio {
        if x.subprio == subprio { SourceTakes(prios, rules, prio, key, x); }
      }
    }
  }

  lemma TakenPlaced(prios: map<nat, Prio>, rules: map<Id, Rule>, prio: nat, key: Matches, subprio: nat)
    requires RulesPlaced(prios, rules) && prio in prios && Taken(rules, prio, key, subprio)
    ensures key in prios[prio].flows && exists x :: x in prios[prio].flows[key].sources && x.subprio == subprio
  {}

  lemma SourceTakes(prios: map<nat, Prio>, rules: map<Id, Rule>, prio: nat, key: Matches, x: Rule)
    requires PriosOk(prios) && SourcesLive(prios, rules) && prio in prios && key in prios[prio].flows && x in prios[prio].flows[key].sources
    ensures Taken(rules, prio, key, x.subprio)
  {
    assert PrioOk(prio, prios[prio]) && FlowOk(prio, prios[prio], key, prios[prio].flows[key]);
    assert x.id in rules;
  }

  lemma FlowAscending(prios: map<nat, Prio>, prio: nat, key: Matches)
    requires PriosOk(prios) && prio in prios && key in prios[prio].flows
    ensures Ascending(prios[prio].flows[key].sources)
  {
    assert PrioOk(prio, prios[prio]) && FlowOk(prio, prios[prio], key, prios[prio].flows[key]);
  }

  lemma AddGiven(prios: map<nat, Prio>, rules: map<Id, Rule>, given: map<Id, Matches>, r: Rule, f: Flow, next: nat, matches: Matches)
    requires Given(prios, rules, given) && r.prio in prios && r.matches == KeyOf(prios[r.prio], matches) && r.id !in rules
    ensures Given(PutFlow(prios, r.prio, r.matches, f, next), rules[r.id := r], given[r.id := matches])
  {}

  lemma AddFirst(prios: map<nat, Prio>, rules: map<Id, Rule>, given: map<Id, Matches>, kernel: Kernel, r: Rule, f: Flow, matches: Matches)
    requires PriosOk(prios) && Mirrored(prios, kernel) && Placed(prios, rules) && Given(prios, rules, given)
    requires r.prio in prios && r.matches == KeyOf(prios[r.prio], matches) && r.id !in rules && |r.action| < MAX_ACT_PRIO
    requires r.matches !in prios[r.prio].flows && prios[r.prio].next != MAX_HANDLE && f == Flow(prios[r.prio].next, [r]) && OneEthType(prios[r.prio].targets)
    ensures |Concat(f.sources)| < MAX_ACT_PRIO && (r.prio, f.handle) !in kernel
    ensures var prios' := PutFlow(prios, r.prio, r.matches, f, prios[r.prio].next + 1);
            && PriosOk(prios') && Mirrored(prios', kernel[(r.prio, f.handle) := FilterOf(prios[r.prio], r.matches, f)])
            && Placed(prios', rules[r.id := r]) && Given(prios', rules[r.id := r], given[r.id := matches])
  {
    var next := prios[r.prio].next + 1;
    assert PutOk(prios, r.prio, r.matches, f, next) by {
      assert PrioOk(r.prio, prios[r.prio]);
      assert Concat([r]) == r.action + Concat([]);
    }
    hide PriosOk, Mirrored, Placed, Given, PutOk, Concat;
    PutPriosOk(prios, r.prio, r.matches, f, next);
    PutMirrored(prios, kernel, r.prio, r.matches, f, next);
    PutExclusive(prios, kernel, r.prio, r.matches, f, next);
    AddPlaced(prios, rules, r, f, next);
    AddGiven(prios, rules, given, r, f, next, matches);
  }

  lemma AddAnother(prios: map<nat, Prio>, rules: map<Id, Rule>, given: map<Id, Matches>, kernel: Kernel, r: Rule, i: nat, f: Flow, matches: Matches)
    requires PriosOk(prios) && Mirrored(prios, kernel) && Placed(prios, rules) && Given(prios, rules, given)
    requires r.prio in prios && r.matches == KeyOf(prios[r.prio], matches) && r.id !in rules && Fits(prios[r.prio], r.matches, r.action)
    requires r.matches in prios[r.prio].flows
    requires var s := prios[r.prio].flows[r.matches].sources;
             && i <= |s| && f == Flow(prios[r.prio].flows[r.matches].handle, InsertAt(s, i, r))
             && (forall k :: 0 <= k < i ==> s[k].subprio < r.subprio) && (i < |s| ==> r.subprio < s[i].subprio)
    ensures |Concat(f.sources)| < MAX_ACT_PRIO && (r.prio, f.handle) in kernel
    ensures var prios' := PutFlow(prios, r.prio, r.matches, f, prios[r.prio].next);
            && PriosOk(prios') && Mirrored(prios', kernel[(r.prio, f.handle) := FilterOf(prios[r.prio], r.matches, f)])
            && Placed(prios', rules[r.id := r]) && Given(prios', rules[r.id := r], given[r.id := matches])
  {
    hide PriosOk, Mirrored, Placed, Given, PutOk, Concat, Ascending, Fits;
    var next := prios[r.prio].next;
    AnotherOk(prios, r, i, f);
    PutPriosOk(prios, r.prio, r.matches, f, next);
    PutMirrored(prios, kernel, r.prio, r.matches, f, next);
    PutExclusive(prios, kernel, r.prio, r.matches, f, next);
    AddPlaced(prios, rules, r, f, next);
    AddGiven(prios, rules, given, r, f, next, matches);
  }

  lemma AnotherOk(prios: map<nat, Prio>, r: Rule, i: nat, f: Flow)
    requires PriosOk(prios) && r.prio in prios && r.matches in prios[r.prio].flows && Fits(prios[r.prio], r.matches, r.action)
    requires var s := prios[r.prio].flows[r.matches].sources;
             && i <= |s| && f == Flow(prios[r.prio].flows[r.matches].handle, InsertAt(s, i, r))
             && (forall k :: 0 <= k < i ==> s[k].subprio < r.subprio) && (i < |s| ==> r.subprio < s[i].subprio)
    ensures PutOk(prios, r.prio, r.matches, f, prios[r.prio].next) && |Concat(f.sources)| < MAX_ACT_PRIO
    ensures forall x :: x in f.sources <==> x == r || x in prios[r.prio].flows[r.matches].sources
  {
    var s := prios[r.prio].flows[r.matches].sources;
    assert PrioOk(r.prio, prios[r.prio]) && FlowOk(r.prio, prios[r.prio], r.matches, prios[r.prio].flows[r.matches]);
    hide PriosOk, Concat;
    ConcatInsert(s, i, r);
    InsertAscending(s, i, r);
  }

  // ---------------------------------------------------------------- removing

  lemma RemoveGiven(prios: map<nat, Prio>, prios': map<nat, Prio>, rules: map<Id, Rule>, given: map<Id, Matches>, id: Id)
    requires Given(prios, rules, given) && prios'.Keys == prios.Keys
    requires forall p :: p in prios ==> prios'[p].targets == prios[p].targets && prios'[p].masks == prios[p].masks
    ensures Given(prios', rules - {id}, given - {id})
  {}

  lemma RemoveLast(prios: map<nat, Prio>, rules: map<Id, Rule>, given: map<Id, Matches>, kernel: Kernel, r: Rule, i: nat)
    requires PriosOk(prios) && Mirrored(prios, kernel) && Placed(prios, rules) && Given(prios, rules, given)
    requires r.id in rules && rules[r.id] == r && r.prio in prios && r.matches in prios[r.prio].flows
    requires var s := prios[r.prio].flows[r.matches].sources; i < |s| && s[i] == r && RemoveAt(s, i) == []
    ensures (r.prio, prios[r.prio].flows[r.matches].handle) in kernel
    ensures var prios' := DropFlow(prios, r.prio, r.matches);
            && PriosOk(prios') && Mirrored(prios', kernel - {(r.prio, prios[r.prio].flows[r.matches].handle)})
            && Placed(prios', rules - {r.id}) && Given(prios', rules - {r.id}, given - {r.id})
  {
    hide PriosOk, Mirrored, Placed, Given, Without;
    var prios' := DropFlow(prios, r.prio, r.matches);
    LastWithout(prios, r, i);
    DropPriosOk(prios, r.prio, r.matches);
    DropMirrored(prios, kernel, r.prio, r.matches);
    RemovePlaced(prios, prios', rules, r);
    RemoveGiven(prios, prios', rules, given, r.id);
  }

  lemma LastWithout(prios: map<nat, Prio>, r: Rule, i: nat)
    requires r.prio in prios && r.matches in prios[r.prio].flows
    requires var s := prios[r.prio].flows[r.matches].sources; i < |s| && s[i] == r && RemoveAt(s, i) == []
    ensures Without(prios, DropFlow(prios, r.prio, r.matches), r)
  {
    assert prios[r.prio].flows[r.matches].sources == [r];
  }

  lemma RemoveOneOk(prios: map<nat, Prio>, r: Rule, i: nat, f: Flow)
    requires PriosOk(prios) && r.prio in prios && r.matches in prios[r.prio].flows
    requires var s := prios[r.prio].flows[r.matches].sources;
             i < |s| && s[i] == r && RemoveAt(s, i) != [] && f == Flow(prios[r.prio].flows[r.matches].handle, RemoveAt(s, i))
    ensures PutOk(prios, r.prio, r.matches, f, prios[r.prio].next) && |Concat(f.sources)| < MAX_ACT_PRIO
    ensures Without(prios, PutFlow(prios, r.prio, r.matches, f, prios[r.prio].next), r)
  {
    hide PriosOk, Concat;
    OnePrioOk(prios, r.prio);
    var s := prios[r.prio].flows[r.matches].sources;
    assert FlowOk(r.prio, prios[r.prio], r.matches, prios[r.prio].flows[r.matches]);
    ConcatRemove(s, i);
    RemoveAscending(s, i);
  }

  lemma RemoveOne(prios: map<nat, Prio>, rules: map<Id, Rule>, given: map<Id, Matches>, kernel: Kernel, r: Rule, i: nat)
    requires PriosOk(prios) && Mirrored(prios, kernel) && Placed(prios, rules) && Given(prios, rules, given)
    requires r.id in rules && rules[r.id] == r && r.prio in prios && r.matches in prios[r.prio].flows
    requires var s := prios[r.prio].flows[r.matches].sources; i < |s| && s[i] == r && RemoveAt(s, i) != []
    ensures var f := Flow(prios[r.prio].flows[r.matches].handle, RemoveAt(prios[r.prio].flows[r.matches].sources, i));
            var prios' := PutFlow(prios, r.prio, r.matches, f, prios[r.prio].next);
            && |Concat(f.sources)| < MAX_ACT_PRIO && (r.prio, f.handle) in kernel
            && PriosOk(prios') && Mirrored(prios', kernel[(r.prio, f.handle) := FilterOf(prios[r.prio], r.matches, f)])
            && Placed(prios', rules - {r.id}) && Given(prios', rules - {r.id}, given - {r.id})
  {
    hide PriosOk, Mirrored, Placed, Given, Without, PutOk, Concat;
    var f := Flow(prios[r.prio].flows[r.matches].handle, RemoveAt(prios[r.prio].flows[r.matches].sources, i));
    var prios' := PutFlow(prios, r.prio, r.matches, f, prios[r.prio].next);
    RemoveOneOk(prios, r, i, f);
    PutPriosOk(prios, r.prio, r.matches, f, prios[r.prio].next);
    PutMirrored(prios, kernel, r.prio, r.matches, f, prios[r.prio].next);
    PutExclusive(prios, kernel, r.prio, r.matches, f, prios[r.prio].next);
    RemovePlaced(prios, prios', rules, r);
    RemoveGiven(prios, prios', rules, given, r.id);
  }
}
