/** The firewall rules, and the start-up clean-up of those that an earlier run left behind. */
module FirewallController {
  import opened RandomUtils

  const RULE_PREFIX := "AUTO_BLOCKED_"
  const RULE_RANDOM_CHARS_LENGTH := 8

  /** What an unanchored regular expression without special characters searches for. */
  predicate Contains(s: string, sub: string) {
    exists i :: 0 <= i <= |s| && sub <= s[i..]
  }

  predicate IsRuleName(name: string) {
    && |name| == |RULE_PREFIX| + RULE_RANDOM_CHARS_LENGTH
    && RULE_PREFIX <= name
    && forall c :: c in name[|RULE_PREFIX|..] ==> c in UPPER_CASE_LETTERS
  }

  lemma RuleNameIsFound(name: string)
    requires IsRuleName(name)
    ensures Contains(name, RULE_PREFIX)
  {
    assert RULE_PREFIX <= name[0..];
  }

  method RandomRuleName() returns (name: string)
    ensures IsRuleName(name) && Contains(name, RULE_PREFIX)
  {
    var suffix := RandomString(RULE_RANDOM_CHARS_LENGTH, UPPER_CASE_LETTERS);
    name := RULE_PREFIX + suffix;
    assert name[|RULE_PREFIX|..] == suffix;
    RuleNameIsFound(name);
  }

  /** `after` keeps exactly the rules of `before` whose names do not contain `sub`, each as often as before. */
  ghost predicate Cleaned(before: multiset<string>, after: multiset<string>, sub: string) {
    forall n :: after[n] == if Contains(n, sub) then 0 else before[n]
  }

  /** A clean-up that may have failed half-way: some of the rules whose names contain `sub` are gone, and no others. */
  ghost predicate Trimmed(before: multiset<string>, after: multiset<string>, sub: string) {
    forall n :: if Contains(n, sub) then after[n] <= before[n] else after[n] == before[n]
  }

  function Matching(names: seq<string>, sub: string): seq<string> {
    if names == [] then []
    else Matching(names[..|names| - 1], sub) + (if Contains(names[|names| - 1], sub) then [names[|names| - 1]] else [])
  }

  /** The collected names have each matching name once for each of its rules, and no other name. */
  lemma {:induction false} MatchingCounts(names: seq<string>, sub: string, n: string)
    ensures multiset(Matching(names, sub))[n] == if Contains(n, sub) then multiset(names)[n] else 0
  {
    if names != [] {
      var before, last := names[..|names| - 1], names[|names| - 1];
      MatchingCounts(before, sub, n);
      assert names == before + [last];
    }
  }

  /** Those of the names whose removal succeeds. */
  function Succeeded(names: seq<string>, ok: nat -> bool): seq<string> {
    if names == [] then []
    else
      var n := |names| - 1;
      Succeeded(names[..n], ok) + if ok(n) then [names[n]] else []
  }

  /** The places at which a name is listed and its removal succeeds. */
  function Places(names: seq<string>, ok: nat -> bool, name: string): set<nat> {
    set k: nat | k < |names| && names[k] == name && ok(k)
  }

  lemma PlacesLast(names: seq<string>, ok: nat -> bool, last: string, name: string)
    ensures |Places(names + [last], ok, name)| ==
            |Places(names, ok, name)| + if last == name && ok(|names|) then 1 else 0
  {
    if last == name && ok(|names|) {
      assert Places(names + [last], ok, name) == Places(names, ok, name) + {|names|};
    } else {
      assert Places(names + [last], ok, name) == Places(names, ok, name);
    }
  }

  lemma SucceededLast(names: seq<string>, ok: nat -> bool, last: string, name: string)
    ensures multiset(Succeeded(names + [last], ok))[name] ==
            multiset(Succeeded(names, ok))[name] + if last == name && ok(|names|) then 1 else 0
  {
    assert (names + [last])[..|names|] == names;
  }

  lemma {:induction false} SucceededCounts(names: seq<string>, ok: nat -> bool, name: string)
    ensures multiset(Succeeded(names, ok))[name] == |Places(names, ok, name)|
  {
    if names != [] {
      var before, last := names[..|names| - 1], names[|names| - 1];
      assert names == before + [last];
      SucceededCounts(before, ok, name);
      SucceededLast(before, ok, last, name);
      PlacesLast(before, ok, last, name);
    }
  }

  lemma {:induction false} SucceededOfListed(names: seq<string>, ok: nat -> bool, name: string)
    ensures multiset(Succeeded(names, ok))[name] <= multiset(names)[name]
    ensures (forall k: nat :: k < |names| && names[k] == name ==> ok(k)) ==>
              multiset(Succeeded(names, ok))[name] == multiset(names)[name]
  {
    if names != [] {
      var before, last := names[..|names| - 1], names[|names| - 1];
      assert names == before + [last];
      SucceededOfListed(before, ok, name);
      SucceededLast(before, ok, last, name);
    }
  }

  lemma RemoveOneMore(all: multiset<string>, names: seq<string>, ok: nat -> bool, i: nat)
    requires i < |names|
    ensures all - multiset(Succeeded(names[..i + 1], ok)) ==
            all - multiset(Succeeded(names[..i], ok)) - if ok(i) then multiset{names[i]} else multiset{}
  {
    assert names[..i + 1][..i] == names[..i];
  }

  /** What is left after a clean-up: of each matching name, as many as there were less the removals that succeed. */
  lemma RemovingMatches(names: seq<string>, sub: string, ok: nat -> bool, n: string)
    ensures
      var collected := Matching(names, sub);
      var after := multiset(names) - multiset(Succeeded(collected, ok));
      && after[n] == multiset(names)[n] - |Places(collected, ok, n)|
      && (!Contains(n, sub) ==> after[n] == multiset(names)[n])
      && (Contains(n, sub) && (forall k: nat :: k < |collected| && collected[k] == n ==> ok(k)) ==> after[n] == 0)
  {
    MatchingCounts(names, sub, n);
    SucceededCounts(Matching(names, sub), ok, n);
    SucceededOfListed(Matching(names, sub), ok, n);
  }

  datatype Rule = Rule(name: string, address: string)

  function NamesOf(rules: seq<Rule>): seq<string> {
    seq(|rules|, i requires 0 <= i < |rules| => rules[i].name)
  }

  lemma NamesOfConcat(rules: seq<Rule>, more: seq<Rule>)
    ensures NamesOf(rules + more) == NamesOf(rules) + NamesOf(more)
  {
  }

  /** `after` is `before` without one rule of that name, or `before` itself if there is none. */
  ghost predicate OneRemoved(before: seq<Rule>, after: seq<Rule>, name: string) {
    if name in NamesOf(before) then
      exists i :: 0 <= i < |before| && before[i].name == name && after == before[..i] + before[i + 1..]
    else after == before
  }

  lemma RemovedName(rules: seq<Rule>, i: nat)
    requires i < |rules|
    ensures multiset(NamesOf(rules[..i] + rules[i + 1..])) == multiset(NamesOf(rules)) - multiset{rules[i].name}
  {
    var before, after := rules[..i], rules[i + 1..];
    assert rules == before + [rules[i]] + after;
    NamesOfConcat(before + [rules[i]], after);
    NamesOfConcat(before, [rules[i]]);
    NamesOfConcat(before, after);
  }

  class Firewall {
    var rules: seq<Rule>

    /** How many rules there are of each name. */
    ghost function Names(): multiset<string>
      reads this
    {
      multiset(NamesOf(rules))
    }

    constructor (rules: seq<Rule>)
      ensures this.rules == rules
    {
      this.rules := rules;
    }

    /** Reports failure even when the rule was added; `ok` says whether the calls behind it all succeed. */
    method BlockInboundIP(name: string, address: string, ok: bool) returns (result: bool)
      modifies this
      ensures !result
      ensures rules == old(rules) + if ok then [Rule(name, address)] else []
      ensures Names() == old(Names()) + if ok then multiset{name} else multiset{}
    {
      if !ok {
        return false;
      }
      NamesOfConcat(rules, [Rule(name, address)]);
      rules := rules + [Rule(name, address)];
      return false;
    }

    /** One rule of that name goes, if there is one and `ok` says that the call succeeds. */
    method Remove(name: string, ok: bool)
      modifies this
      ensures if ok then OneRemoved(old(rules), rules, name) else rules == old(rules)
      ensures Names() == old(Names()) - if ok then multiset{name} else multiset{}
    {
      if ok && exists i :: 0 <= i < |rules| && rules[i].name == name {
        var i :| 0 <= i < |rules| && rules[i].name == name;
        assert NamesOf(rules)[i] == name;
        RemovedName(rules, i);
        rules := rules[..i] + rules[i + 1..];
      }
    }

    /** Reports whether the rules could be reached, and not whether one was removed. */
    method DeleteRuleByName(name: string, reachable: bool, ok: bool) returns (result: bool)
      modifies this
      ensures result == reachable
      ensures if reachable && ok then OneRemoved(old(rules), rules, name) else rules == old(rules)
      ensures Names() == old(Names()) - if reachable && ok then multiset{name} else multiset{}
    {
      if !reachable {
        return false;
      }
      Remove(name, ok);
      return true;
    }

    /** Goes on after a removal that fails. */
    method RemoveAll(waitDelete: seq<string>, ok: nat -> bool)
      modifies this
      ensures Names() == old(Names()) - multiset(Succeeded(waitDelete, ok))
    {
      ghost var all := Names();
      for i := 0 to |waitDelete|
        invariant Names() == all - multiset(Succeeded(waitDelete[..i], ok))
      {
        RemoveOneMore(all, waitDelete, ok, i);
        Remove(waitDelete[i], ok(i));
      }
      assert waitDelete[..|waitDelete|] == waitDelete;
    }

    /**
     * Collects the matching names first, since removing would disturb the enumeration; `ok` says
     * which of the removals succeed. A collected rule goes exactly if its own removal succeeds.
     */
    method DeleteRulesByRegex(expr: string, reachable: bool, ok: nat -> bool) returns (result: bool)
      modifies this
      ensures result == reachable && Trimmed(old(Names()), Names(), expr)
      ensures !reachable ==> rules == old(rules)
      ensures
        var collected := Matching(NamesOf(old(rules)), expr);
        reachable ==> forall n :: Names()[n] == old(Names())[n] - |Places(collected, ok, n)|
      ensures
        var collected := Matching(NamesOf(old(rules)), expr);
        reachable ==>
          forall n :: Contains(n, expr) && (forall k: nat :: k < |collected| && collected[k] == n ==> ok(k)) ==>
            n !in Names()
      ensures reachable && (forall i :: ok(i)) ==> Cleaned(old(Names()), Names(), expr)
    {
      if !reachable {
        return false;
      }
      var waitDelete: seq<string> := [];
      ghost var names := NamesOf(rules);
      for i := 0 to |rules|
        invariant rules == old(rules) && waitDelete == Matching(names[..i], expr)
      {
        assert names[..i + 1][..i] == names[..i];
        if Contains(rules[i].name, expr) {
          waitDelete := waitDelete + [rules[i].name];
        }
      }
      assert names[..|rules|] == names;
      RemoveAll(waitDelete, ok);
      forall n {
        RemovingMatches(names, expr, ok, n);
      }
      return true;
    }
  }
}
