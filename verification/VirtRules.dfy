/** Firewall rules of a virt: validation (`validate_rules`) and installation (`commit_rules`), one priority at a time. */
module VirtRules {
  import opened Base
  import opened States
  import opened Masking
  import opened Ruleset
  import opened RuleMeaning

  /** `struct lsdn_vr`. The source leaves `subprio` unset until the rule opens its priority. */
  datatype Vr = Vr(id: Id, state: State, targets: Targets, masks: Matches, matches: Matches, subprio: nat, action: seq<Act>)

  const VR_SUBPRIO := 0

  function Key(r: Vr): Matches { Masked(r.targets, r.masks, r.matches) }

  /** All rules match against the same data. */
  ghost predicate SameTargets(vrs: seq<Vr>)
  {
    forall i :: 0 <= i < |vrs| ==> vrs[i].targets == vrs[0].targets && vrs[i].masks == vrs[0].masks
  }

  ghost predicate DistinctKeys(vrs: seq<Vr>)
  {
    forall i, j :: 0 <= i < j < |vrs| ==> Key(vrs[i]) != Key(vrs[j])
  }

  /** `validate_rules` for one priority */
  method ValidateRules(vrs: seq<Vr>) returns (ok: bool)
    ensures ok <==> SameTargets(vrs) && DistinctKeys(vrs)
  {
    for i := 0 to |vrs|
      invariant forall k :: 0 <= k < i ==> vrs[k].targets == vrs[0].targets && vrs[k].masks == vrs[0].masks
    {
      if vrs[i].targets != vrs[0].targets || vrs[i].masks != vrs[0].masks {
        return false;
      }
    }
    var seen: set<Matches> := {};
    for i := 0 to |vrs|
      invariant forall k, l :: 0 <= k < l < i ==> Key(vrs[k]) != Key(vrs[l])
      invariant forall m :: m in seen <==> exists k :: 0 <= k < i && Key(vrs[k]) == m
    {
      var masked := ApplyMask(vrs[i].targets, vrs[i].masks, vrs[i].matches);
      if masked in seen {
        return false;
      }
      seen := seen + {masked};
    }
    return true;
  }

  // ---------------------------------------------------------------- installation

  /** Rule `i` is installed when the walk has reached position `n`. */
  ghost predicate Installed(vrs: seq<Vr>, n: nat, i: nat)
    requires i < |vrs|
  {
    vrs[i].state == OK || (i < n && vrs[i].state == NEW)
  }

  ghost predicate AnyInstalled(vrs: seq<Vr>, n: nat)
  {
    exists i: nat :: i < |vrs| && Installed(vrs, n, i)
  }

  /** The ruleset holds, at this priority, exactly the rules installed so far, and the priority exists as long as there are any. */
  ghost predicate Holds(prios: map<nat, Prio>, rules: map<Id, Rule>, prio: nat, vrs: seq<Vr>, n: nat)
  {
    && (prio in prios <==> AnyInstalled(vrs, n))
    && (prio in prios ==>
          prios[prio].targets == vrs[0].targets && prios[prio].masks == vrs[0].masks && prios[prio].next + |vrs| - n <= MAX_HANDLE)
    && (forall i: nat :: i < |vrs| && Installed(vrs, n, i) ==>
          && vrs[i].id in rules && rules[vrs[i].id].prio == prio && rules[vrs[i].id].matches == Key(vrs[i])
          && rules[vrs[i].id].action == vrs[i].action)
    && (forall i: nat :: i < |vrs| && !Installed(vrs, n, i) ==> vrs[i].id !in rules)
    && (forall x :: x in rules && rules[x].prio == prio ==> exists i: nat :: i < |vrs| && Installed(vrs, n, i) && vrs[i].id == x)
  }

  ghost predicate Installable(vrs: seq<Vr>)
  {
    && SameTargets(vrs) && DistinctKeys(vrs) && |vrs| < MAX_HANDLE && (vrs != [] ==> OneEthType(vrs[0].targets))
    && (forall i :: 0 <= i < |vrs| ==> |vrs[i].action| < MAX_ACT_PRIO)
    && (forall i, j :: 0 <= i < j < |vrs| ==> vrs[i].id != vrs[j].id)
  }

  /** No live rule of the priority has the key of a rule that is not installed yet. */
  lemma KeyFree(prios: map<nat, Prio>, rules: map<Id, Rule>, prio: nat, vrs: seq<Vr>, n: nat)
    requires Installable(vrs) && Holds(prios, rules, prio, vrs, n) && n < |vrs| && !Installed(vrs, n, n)
    ensures !KeyLive(rules, prio, Key(vrs[n]))
  {}

  lemma HoldsSkip(prios: map<nat, Prio>, rules: map<Id, Rule>, prio: nat, vrs: seq<Vr>, n: nat)
    requires Holds(prios, rules, prio, vrs, n) && n < |vrs| && vrs[n].state != NEW
    ensures Holds(prios, rules, prio, vrs, n + 1)
  {
    assert forall i: nat :: i < |vrs| ==> (Installed(vrs, n + 1, i) <==> Installed(vrs, n, i));
  }

  lemma HoldsNext(prios: map<nat, Prio>, prios': map<nat, Prio>, rules: map<Id, Rule>, prio: nat, vrs: seq<Vr>, n: nat, r: Rule)
    requires Installable(vrs) && n < |vrs| && vrs[n].state == NEW
    requires Holds(prios, rules, prio, vrs, n) && prio in prios'
    requires r.id == vrs[n].id && r.prio == prio && r.matches == Key(vrs[n]) && r.action == vrs[n].action
    requires prios'[prio].targets == vrs[0].targets && prios'[prio].masks == vrs[0].masks && prios'[prio].next + |vrs| - n - 1 <= MAX_HANDLE
    ensures Holds(prios', rules[r.id := r], prio, vrs, n + 1)
  {
    assert forall i: nat :: i < |vrs| ==> (Installed(vrs, n + 1, i) <==> Installed(vrs, n, i) || i == n);
    assert Installed(vrs, n + 1, n);
  }

  lemma HoldsFacts(prios: map<nat, Prio>, rules: map<Id, Rule>, prio: nat, vrs: seq<Vr>, n: nat)
    requires Installable(vrs) && Holds(prios, rules, prio, vrs, n) && n < |vrs| && vrs[n].state == NEW
    ensures prio in prios <==> AnyInstalled(vrs, n)
    ensures prio in prios ==> prios[prio].targets == vrs[0].targets && prios[prio].masks == vrs[0].masks && prios[prio].next + |vrs| - n <= MAX_HANDLE
    ensures vrs[n].id !in rules && |vrs[n].action| < MAX_ACT_PRIO && |vrs| < MAX_HANDLE
    ensures vrs[n].targets == vrs[0].targets && vrs[n].masks == vrs[0].masks && OneEthType(vrs[0].targets)
  {
    assert !Installed(vrs, n, n);
  }

  lemma NowInstalled(vrs: seq<Vr>, n: nat)
    requires n < |vrs|
    ensures vrs[n].state == NEW ==> AnyInstalled(vrs, n + 1)
    ensures vrs[n].state != NEW ==> (AnyInstalled(vrs, n + 1) <==> AnyInstalled(vrs, n))
  {
    if vrs[n].state == NEW {
      assert Installed(vrs, n + 1, n);
    } else if AnyInstalled(vrs, n) {
      var i: nat :| i < |vrs| && Installed(vrs, n, i);
      assert Installed(vrs, n + 1, i);
    } else {
      var m := n + 1;
      forall i: nat | i < |vrs| ensures !Installed(vrs, m, i) { assert !Installed(vrs, n, i); }
    }
  }

  /** `commit_vr`. Neither of its two aborts is reached. */
  method CommitVr(rs: Ruleset, prio: nat, vrs: seq<Vr>, n: nat, count: nat)
    requires n < |vrs| && vrs[n].state == NEW
    requires rs.Valid() && Installable(vrs) && Holds(rs.prios, rs.rules, prio, vrs, n) && (count == 0 <==> !AnyInstalled(vrs, n))
    modifies rs
    ensures rs.Valid() && Holds(rs.prios, rs.rules, prio, vrs, n + 1)
    ensures forall id :: id in old(rs.rules) ==> id in rs.rules && rs.rules[id] == old(rs.rules)[id]
  {
    hide PriosOk, Mirrored, Placed, Given, Installable, Holds, AnyInstalled, KeyLive, Taken;
    ghost var prios0, rules0 := rs.prios, rs.rules;
    var subprio := vrs[n].subprio;
    KeyFree(rs.prios, rs.rules, prio, vrs, n);
    HoldsFacts(rs.prios, rs.rules, prio, vrs, n);
    if count == 0 {
      subprio := VR_SUBPRIO;
      var ok := rs.DefinePrio(prio, vrs[n].targets, vrs[n].masks);
      assert ok;
    }
    KeyLiveIff(rs.prios, rs.rules, prio, Key(vrs[n]));
    TakenIsLive(rs.rules, prio, Key(vrs[n]), subprio);
    var err := rs.Add(vrs[n].id, prio, vrs[n].matches, subprio, vrs[n].action);
    assert err == LSDNE_OK;
    HoldsNext(prios0, rs.prios, rules0, prio, vrs, n, rs.rules[vrs[n].id]);
  }

  lemma TakenIsLive(rules: map<Id, Rule>, prio: nat, key: Matches, subprio: nat)
    ensures Taken(rules, prio, key, subprio) ==> KeyLive(rules, prio, key)
  {}

  /** `commit_rules` for one priority of a validated rule list: afterwards all its rules are installed, under their own masks. */
  method CommitRules(rs: Ruleset, prio: nat, vrs: seq<Vr>, committed: nat)
    requires rs.Valid() && Installable(vrs) && Holds(rs.prios, rs.rules, prio, vrs, 0) && (committed == 0 <==> !AnyInstalled(vrs, 0))
    modifies rs
    ensures rs.Valid() && Holds(rs.prios, rs.rules, prio, vrs, |vrs|)
    ensures forall id :: id in old(rs.rules) ==> id in rs.rules && rs.rules[id] == old(rs.rules)[id]
    ensures forall i, pkt ::
              0 <= i < |vrs| && vrs[i].state in {OK, NEW} && MasksFit(vrs[i].targets, vrs[i].masks) &&
              Accepts(vrs[i].targets, vrs[i].masks, vrs[i].matches, pkt) ==>
                SelectedAt(rs.kernel, prio, pkt) == vrs[i].action
  {
    hide PriosOk, Mirrored, Placed, Given, Installable, Holds, AnyInstalled, SelectedAt, Accepts, MasksFit;
    var count := committed;
    for n := 0 to |vrs|
      invariant rs.Valid() && Holds(rs.prios, rs.rules, prio, vrs, n) && (count == 0 <==> !AnyInstalled(vrs, n))
      invariant forall id :: id in old(rs.rules) ==> id in rs.rules && rs.rules[id] == old(rs.rules)[id]
    {
      NowInstalled(vrs, n);
      if vrs[n].state == NEW {
        CommitVr(rs, prio, vrs, n, count);
        count := count + 1;
      } else {
        HoldsSkip(rs.prios, rs.rules, prio, vrs, n);
      }
    }
    forall i, pkt | 0 <= i < |vrs| && vrs[i].state in {OK, NEW} && MasksFit(vrs[i].targets, vrs[i].masks)
                    && Accepts(vrs[i].targets, vrs[i].masks, vrs[i].matches, pkt)
      ensures SelectedAt(rs.kernel, prio, pkt) == vrs[i].action
    {
      RuleSelected(rs.prios, rs.rules, rs.given, rs.kernel, prio, vrs, i, pkt);
    }
  }

  /** Installed rules accept exactly the packets that they accept under their own masks. */
  lemma OwnMeaning(prios: map<nat, Prio>, rules: map<Id, Rule>, prio: nat, vrs: seq<Vr>, i: nat, pkt: Packet)
    requires Installable(vrs) && Holds(prios, rules, prio, vrs, |vrs|) && i < |vrs| && Installed(vrs, |vrs|, i)
    ensures prio in prios && vrs[i].id in rules
    ensures Accepts(prios[prio].targets, prios[prio].masks, rules[vrs[i].id].matches, pkt) <==>
            Accepts(vrs[i].targets, vrs[i].masks, vrs[i].matches, pkt)
  {
    MaskingKeepsMeaning(vrs[i].targets, vrs[i].masks, vrs[i].matches, pkt);
  }

  /** A live rule of the priority that accepts the packet is rule `i` if rule `i` accepts it: their keys differ otherwise. */
  lemma OnlyRule(prios: map<nat, Prio>, rules: map<Id, Rule>, given: map<Id, Matches>, prio: nat, vrs: seq<Vr>, i: nat, pkt: Packet, x: Id)
    requires Given(prios, rules, given) && Installable(vrs) && Holds(prios, rules, prio, vrs, |vrs|)
    requires i < |vrs| && Installed(vrs, |vrs|, i) && MasksFit(vrs[i].targets, vrs[i].masks)
    requires Accepts(vrs[i].targets, vrs[i].masks, vrs[i].matches, pkt)
    ensures Matching(prios, rules, given, prio, pkt, x) <==> x == vrs[i].id
  {
    hide MasksFit, Accepts, Given;
    OwnMeaning(prios, rules, prio, vrs, i, pkt);
    RuleAccepts(prios, rules, given, vrs[i].id, pkt);
    if Matching(prios, rules, given, prio, pkt, x) {
      RuleAccepts(prios, rules, given, x, pkt);
      OneKey(prios, rules, given, vrs[i].id, x, pkt);
    }
  }

  /** A packet that an installed rule accepts gets the action of that rule. */
  lemma RuleSelected(prios: map<nat, Prio>, rules: map<Id, Rule>, given: map<Id, Matches>, kernel: Kernel, prio: nat, vrs: seq<Vr>, i: nat, pkt: Packet)
    requires Compiled(prios, rules, given, kernel) && Installable(vrs) && Holds(prios, rules, prio, vrs, |vrs|)
    requires i < |vrs| && Installed(vrs, |vrs|, i) && MasksFit(vrs[i].targets, vrs[i].masks)
    requires Accepts(vrs[i].targets, vrs[i].masks, vrs[i].matches, pkt)
    ensures SelectedAt(kernel, prio, pkt) == vrs[i].action
  {
    hide MasksFit, Accepts, Matching, SelectedAt, PriosOk, Mirrored, Placed, Given;
    OwnMeaning(prios, rules, prio, vrs, i, pkt);
    forall x: Id ensures Matching(prios, rules, given, prio, pkt, x) <==> x == vrs[i].id {
      OnlyRule(prios, rules, given, prio, vrs, i, pkt, x);
    }
    LookupHit(prios, rules, given, kernel, prio, pkt, vrs[i].id);
  }

  /** A packet that no installed rule accepts gets nothing. */
  lemma NoRuleSelected(prios: map<nat, Prio>, rules: map<Id, Rule>, given: map<Id, Matches>, kernel: Kernel, prio: nat, vrs: seq<Vr>, pkt: Packet)
    requires Compiled(prios, rules, given, kernel) && Installable(vrs) && Holds(prios, rules, prio, vrs, |vrs|)
    requires vrs != [] ==> MasksFit(vrs[0].targets, vrs[0].masks)
    requires forall i: nat :: i < |vrs| && Installed(vrs, |vrs|, i) ==> !Accepts(vrs[i].targets, vrs[i].masks, vrs[i].matches, pkt)
    ensures SelectedAt(kernel, prio, pkt) == []
  {
    hide MasksFit, Accepts, PriosOk, Mirrored, Placed, Given;
    forall x: Id ensures !Matching(prios, rules, given, prio, pkt, x) {
      if Matching(prios, rules, given, prio, pkt, x) {
        var i: nat :| i < |vrs| && Installed(vrs, |vrs|, i) && vrs[i].id == x;
        OwnMeaning(prios, rules, prio, vrs, i, pkt);
        RuleAccepts(prios, rules, given, x, pkt);
      }
    }
    CompilationAt(prios, rules, given, kernel, prio, pkt);
    if prio in prios { LookupMiss(prios, rules, given, kernel, prio, pkt); }
  }
}
