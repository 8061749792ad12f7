/** What compiled rules mean for packets: the compiled filters select the same actions as the rules themselves. */
module RuleMeaning {
  import opened Masking
  import opened Ruleset

  // ---------------------------------------------------------------- the reference: rules as they were given

  /** The live rules of a priority that accept the packet. */
  ghost function MatchSet(prios: map<nat, Prio>, rules: map<Id, Rule>, given: map<Id, Matches>, p: nat, pkt: Packet): set<Rule>
    requires p in prios
  {
    set id | id in rules && id in given && rules[id].prio == p && Accepts(prios[p].targets, prios[p].masks, given[id], pkt) :: rules[id]
  }

  /** The members of a set of rules in ascending sub-priority. */
  ghost predicate InOrder(s: seq<Rule>, rules: set<Rule>)
  {
    (forall i, j :: 0 <= i < j < |s| ==> s[i].subprio < s[j].subprio) && forall x :: x in s <==> x in rules
  }

  lemma {:induction false} OrderIsUnique(s: seq<Rule>, t: seq<Rule>, rules: set<Rule>)
    requires InOrder(s, rules) && InOrder(t, rules)
    ensures s == t
    decreases |s|
  {
    if s == [] {
      assert rules == {};
      Inhabited(t, rules);
    } else {
      assert s[0] in rules;
      var i :| 0 <= i < |t| && t[i] == s[0];
      assert t[0] in rules;
      var j :| 0 <= j < |s| && s[j] == t[0];
      assert i == 0 && j == 0;
      TailInOrder(s, rules);
      TailInOrder(t, rules);
      OrderIsUnique(s[1..], t[1..], rules - {s[0]});
      assert s == [s[0]] + s[1..] && t == [t[0]] + t[1..];
    }
  }

  lemma Inhabited(s: seq<Rule>, rules: set<Rule>)
    requires InOrder(s, rules)
    ensures s != [] ==> rules != {}
  {
    if s != [] { assert s[0] in rules; }
  }

  lemma TailInOrder(s: seq<Rule>, rules: set<Rule>)
    requires InOrder(s, rules) && s != []
    ensures InOrder(s[1..], rules - {s[0]})
  {
    forall x | x in rules - {s[0]} ensures x in s[1..] {
      var k :| 0 <= k < |s| && s[k] == x;
      assert s[1..][k - 1] == x;
    }
  }

  /** The actions of the live matching rules of a priority, in ascending sub-priority. */
  ghost function ReferenceAt(prios: map<nat, Prio>, rules: map<Id, Rule>, given: map<Id, Matches>, p: nat, pkt: Packet): seq<Act>
  {
    if p in prios && exists s :: InOrder(s, MatchSet(prios, rules, given, p, pkt)) then
      var s :| InOrder(s, MatchSet(prios, rules, given, p, pkt)); Concat(s)
    else []
  }

  /** All priorities below `n`, ascending. */
  ghost function Reference(prios: map<nat, Prio>, rules: map<Id, Rule>, given: map<Id, Matches>, n: nat, pkt: Packet): seq<Act>
  {
    if n == 0 then [] else Reference(prios, rules, given, n - 1, pkt) + ReferenceAt(prios, rules, given, n - 1, pkt)
  }

  // ---------------------------------------------------------------- the kernel

  /** The filter with this handle accepts the packet. */
  ghost predicate Hits(kernel: Kernel, p: nat, h: nat, pkt: Packet)
  {
    (p, h) in kernel && Accepts(kernel[(p, h)].targets, kernel[(p, h)].masks, kernel[(p, h)].key, pkt)
  }

  /** One lookup: some filter of the priority that accepts the packet, if there is one. */
  ghost function SelectedAt(kernel: Kernel, p: nat, pkt: Packet): seq<Act>
  {
    if exists h :: Hits(kernel, p, h, pkt) then var h :| Hits(kernel, p, h, pkt); kernel[(p, h)].actions else []
  }

  ghost function Selected(kernel: Kernel, n: nat, pkt: Packet): seq<Act>
  {
    if n == 0 then [] else Selected(kernel, n - 1, pkt) + SelectedAt(kernel, n - 1, pkt)
  }

  // ---------------------------------------------------------------- the theorem

  ghost predicate Compiled(prios: map<nat, Prio>, rules: map<Id, Rule>, given: map<Id, Matches>, kernel: Kernel)
  {
    PriosOk(prios) && Mirrored(prios, kernel) && Placed(prios, rules) && Given(prios, rules, given)
  }

  /** A live rule accepts a packet exactly when its key does. */
  lemma RuleAccepts(prios: map<nat, Prio>, rules: map<Id, Rule>, given: map<Id, Matches>, id: Id, pkt: Packet)
    requires Given(prios, rules, given) && id in rules && rules[id].prio in prios
    ensures id in given
    ensures var p := prios[rules[id].prio];
            Accepts(p.targets, p.masks, given[id], pkt) <==> Accepts(p.targets, p.masks, rules[id].matches, pkt)
  {
    var p := prios[rules[id].prio];
    MaskingKeepsMeaning(p.targets, p.masks, given[id], pkt);
  }

  /** Two keys of live rules of one priority that accept the same packet are equal. */
  lemma OneKey(prios: map<nat, Prio>, rules: map<Id, Rule>, given: map<Id, Matches>, a: Id, b: Id, pkt: Packet)
    requires Given(prios, rules, given) && a in rules && b in rules && rules[a].prio == rules[b].prio && rules[a].prio in prios
    requires var p := prios[rules[a].prio];
             && MasksFit(p.targets, p.masks)
             && Accepts(p.targets, p.masks, rules[a].matches, pkt) && Accepts(p.targets, p.masks, rules[b].matches, pkt)
    ensures rules[a].matches == rules[b].matches
  {
    var p := prios[rules[a].prio];
    KeysAreDisjoint(p.targets, p.masks, rules[a].matches, rules[b].matches, pkt);
    MaskingIsIdempotent(p.targets, p.masks, given[a]);
    MaskingIsIdempotent(p.targets, p.masks, given[b]);
  }

  /** The sources of a flower rule that is hit are the matching rules, in order. */
  lemma HitSources(prios: map<nat, Prio>, rules: map<Id, Rule>, given: map<Id, Matches>, p: nat, key: Matches, pkt: Packet)
    requires PriosOk(prios) && Placed(prios, rules) && Given(prios, rules, given) && p in prios && key in prios[p].flows
    requires MasksFit(prios[p].targets, prios[p].masks) && Accepts(prios[p].targets, prios[p].masks, key, pkt)
    ensures InOrder(prios[p].flows[key].sources, MatchSet(prios, rules, given, p, pkt))
  {
    hide RulesPlaced, Accepts, MasksFit;
    var s, m := prios[p].flows[key].sources, MatchSet(prios, rules, given, p, pkt);
    assert PrioOk(p, prios[p]) && FlowOk(p, prios[p], key, prios[p].flows[key]);
    forall x | x in s ensures x in m {
      assert x.id in rules && rules[x.id] == x;
      RuleAccepts(prios, rules, given, x.id, pkt);
    }
    forall x | x in m ensures x in s { MatchIsSource(prios, rules, given, p, key, pkt, x); }
  }

  lemma MatchIsSource(prios: map<nat, Prio>, rules: map<Id, Rule>, given: map<Id, Matches>, p: nat, key: Matches, pkt: Packet, x: Rule)
    requires PriosOk(prios) && Placed(prios, rules) && Given(prios, rules, given) && p in prios && key in prios[p].flows
    requires MasksFit(prios[p].targets, prios[p].masks) && Accepts(prios[p].targets, prios[p].masks, key, pkt)
    requires x in MatchSet(prios, rules, given, p, pkt)
    ensures x in prios[p].flows[key].sources
  {
    hide Accepts, MasksFit;
    assert PrioOk(p, prios[p]) && FlowOk(p, prios[p], key, prios[p].flows[key]);
    var y := prios[p].flows[key].sources[0];
    assert y in prios[p].flows[key].sources && y.id in rules;
    assert rules[x.id] == x;
    RuleAccepts(prios, rules, given, x.id, pkt);
    OneKey(prios, rules, given, x.id, y.id, pkt);
  }

  /** At every priority, the lookup gives the actions of exactly the live matching rules, in ascending sub-priority. */
  lemma CompilationAt(prios: map<nat, Prio>, rules: map<Id, Rule>, given: map<Id, Matches>, kernel: Kernel, p: nat, pkt: Packet)
    requires Compiled(prios, rules, given, kernel)
    requires p in prios ==> MasksFit(prios[p].targets, prios[p].masks)
    ensures SelectedAt(kernel, p, pkt) == ReferenceAt(prios, rules, given, p, pkt)
  {
    hide PriosOk, Placed, Given, MasksFit, Accepts, MatchSet;
    if exists h :: Hits(kernel, p, h, pkt) {
      var h :| Hits(kernel, p, h, pkt) && SelectedAt(kernel, p, pkt) == kernel[(p, h)].actions;
      assert Backed(prios, (p, h), kernel[(p, h)]) && PrioMirrored(p, prios[p], kernel);
      var key := kernel[(p, h)].key;
      HitSources(prios, rules, given, p, key, pkt);
      var s :| InOrder(s, MatchSet(prios, rules, given, p, pkt)) && ReferenceAt(prios, rules, given, p, pkt) == Concat(s);
      OrderIsUnique(s, prios[p].flows[key].sources, MatchSet(prios, rules, given, p, pkt));
    } else if p in prios {
      NothingMatches(prios, rules, given, kernel, p, pkt);
      assert InOrder([], MatchSet(prios, rules, given, p, pkt));
      var s :| InOrder(s, MatchSet(prios, rules, given, p, pkt)) && ReferenceAt(prios, rules, given, p, pkt) == Concat(s);
      OrderIsUnique(s, [], MatchSet(prios, rules, given, p, pkt));
      assert Concat(s) == [];
    }
  }

  lemma NothingMatches(prios: map<nat, Prio>, rules: map<Id, Rule>, given: map<Id, Matches>, kernel: Kernel, p: nat, pkt: Packet)
    requires Compiled(prios, rules, given, kernel) && p in prios && !exists h :: Hits(kernel, p, h, pkt)
    ensures MatchSet(prios, rules, given, p, pkt) == {}
  {
    hide PriosOk, SourcesLive, Accepts, Concat;
    assert PrioMirrored(p, prios[p], kernel);
    forall x | x in MatchSet(prios, rules, given, p, pkt) ensures Hits(kernel, p, prios[p].flows[x.matches].handle, pkt) {
      assert rules[x.id] == x;
      RuleAccepts(prios, rules, given, x.id, pkt);
    }
  }

  /** No filter has more actions than the kernel takes, besides its continue. */
  lemma ActionsFit(prios: map<nat, Prio>, rules: map<Id, Rule>, given: map<Id, Matches>, kernel: Kernel, x: (nat, nat))
    requires Compiled(prios, rules, given, kernel) && x in kernel
    ensures |kernel[x].actions| <= 31
  {
    hide Concat, Placed, Given;
    assert Backed(prios, x, kernel[x]);
    var key := kernel[x].key;
    assert PrioMirrored(x.0, prios[x.0], kernel) && PrioOk(x.0, prios[x.0]) && FlowOk(x.0, prios[x.0], key, prios[x.0].flows[key]);
  }

  /** For every packet, the compiled filters select exactly the actions of the live matching rules, priority by priority. */
  lemma {:induction false} CompilationKeepsMeaning(
    prios: map<nat, Prio>, rules: map<Id, Rule>, given: map<Id, Matches>, kernel: Kernel, n: nat, pkt: Packet)
    requires Compiled(prios, rules, given, kernel)
    requires forall p :: p in prios ==> MasksFit(prios[p].targets, prios[p].masks)
    ensures Selected(kernel, n, pkt) == Reference(prios, rules, given, n, pkt)
  {
    hide Compiled, MasksFit;
    if n > 0 {
      CompilationKeepsMeaning(prios, rules, given, kernel, n - 1, pkt);
      CompilationAt(prios, rules, given, kernel, n - 1, pkt);
    }
  }

  // ---------------------------------------------------------------- one matching rule

  /** The rule is live at the priority and accepts the packet. */
  ghost predicate Matching(prios: map<nat, Prio>, rules: map<Id, Rule>, given: map<Id, Matches>, p: nat, pkt: Packet, id: Id)
  {
    p in prios && id in rules && id in given && rules[id].prio == p && Accepts(prios[p].targets, prios[p].masks, given[id], pkt)
  }

  /** A lookup that only one rule matches gives the actions of that rule. */
  lemma LookupHit(prios: map<nat, Prio>, rules: map<Id, Rule>, given: map<Id, Matches>, kernel: Kernel, p: nat, pkt: Packet, id: Id)
    requires Compiled(prios, rules, given, kernel) && p in prios && MasksFit(prios[p].targets, prios[p].masks)
    requires forall x :: Matching(prios, rules, given, p, pkt, x) <==> x == id
    ensures id in rules && SelectedAt(kernel, p, pkt) == rules[id].action
  {
    hide Compiled, MasksFit, Accepts, SelectedAt;
    CompilationAt(prios, rules, given, kernel, p, pkt);
    assert Matching(prios, rules, given, p, pkt, id);
    var set1 := MatchSet(prios, rules, given, p, pkt);
    assert set1 == {rules[id]} by {
      forall x | x in rules && x in given && rules[x].prio == p && Accepts(prios[p].targets, prios[p].masks, given[x], pkt) ensures x == id {
        assert Matching(prios, rules, given, p, pkt, x);
      }
    }
    ReferenceIs(prios, rules, given, p, pkt, [rules[id]]);
    OneAction(rules[id]);
  }

  /** A lookup that no rule matches gives nothing. */
  lemma LookupMiss(prios: map<nat, Prio>, rules: map<Id, Rule>, given: map<Id, Matches>, kernel: Kernel, p: nat, pkt: Packet)
    requires Compiled(prios, rules, given, kernel) && p in prios && MasksFit(prios[p].targets, prios[p].masks)
    requires forall x :: !Matching(prios, rules, given, p, pkt, x)
    ensures SelectedAt(kernel, p, pkt) == []
  {
    hide Compiled, MasksFit, Accepts, SelectedAt;
    CompilationAt(prios, rules, given, kernel, p, pkt);
    assert MatchSet(prios, rules, given, p, pkt) == {} by {
      forall x | x in rules && x in given && rules[x].prio == p ensures !Accepts(prios[p].targets, prios[p].masks, given[x], pkt) {
        assert !Matching(prios, rules, given, p, pkt, x);
      }
    }
    ReferenceIs(prios, rules, given, p, pkt, []);
  }

  lemma ReferenceIs(prios: map<nat, Prio>, rules: map<Id, Rule>, given: map<Id, Matches>, p: nat, pkt: Packet, s: seq<Rule>)
    requires p in prios && Ascending(s) && forall x :: x in s <==> x in MatchSet(prios, rules, given, p, pkt)
    ensures ReferenceAt(prios, rules, given, p, pkt) == Concat(s)
  {
    hide MatchSet, Concat;
    assert InOrder(s, MatchSet(prios, rules, given, p, pkt));
    var t :| InOrder(t, MatchSet(prios, rules, given, p, pkt)) && ReferenceAt(prios, rules, given, p, pkt) == Concat(t);
    OrderIsUnique(s, t, MatchSet(prios, rules, given, p, pkt));
  }

  lemma OneAction(r: Rule)
    ensures Concat([r]) == r.action && Concat([]) == []
  {
    assert [r][1..] == [];
  }

  // ---------------------------------------------------------------- the first priority that decides

  /** The kernel tries the priorities in ascending order, here `n` of them, and the first whose filters match decides when their
      actions lead away. */
  ghost function FirstSelected(kernel: Kernel, from: nat, n: nat, pkt: Packet): seq<Act>
    decreases n
  {
    if n == 0 then []
    else if SelectedAt(kernel, from, pkt) != [] then SelectedAt(kernel, from, pkt)
    else FirstSelected(kernel, from + 1, n - 1, pkt)
  }

  lemma {:induction false} FirstIs(kernel: Kernel, from: nat, n: nat, pkt: Packet, p: nat)
    requires from <= p < from + n && SelectedAt(kernel, p, pkt) != []
    requires forall q: nat :: from <= q < p ==> SelectedAt(kernel, q, pkt) == []
    ensures FirstSelected(kernel, from, n, pkt) == SelectedAt(kernel, p, pkt)
    decreases n
  {
    hide SelectedAt;
    if from < p { FirstIs(kernel, from + 1, n - 1, pkt, p); }
  }

  lemma {:induction false} FirstIsNone(kernel: Kernel, from: nat, n: nat, pkt: Packet)
    requires forall q: nat :: from <= q < from + n ==> SelectedAt(kernel, q, pkt) == []
    ensures FirstSelected(kernel, from, n, pkt) == []
    decreases n
  {
    hide SelectedAt;
    if n > 0 { FirstIsNone(kernel, from + 1, n - 1, pkt); }
  }
}
