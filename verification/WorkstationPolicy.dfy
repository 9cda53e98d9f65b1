/**
 * Which successful logins are allowed: a workstation name can be whitelisted or blocklisted, or it
 * is checked against the name bound to the user, which may be the first one that the user came from.
 */
module WorkstationPolicy {

  /** `matches(pattern, name)` stands for the search of a regular expression in a name. */
  datatype Policy = Policy(
    checkBind: bool, autoBind: bool,
    blocklist: set<string>, whitelist: set<string>, matches: (string, string) -> bool)

  type BindTable = map<string, string>

  datatype Login = Login(logonType: string, user: string, workstation: string, address: string)

  datatype Verdict = Skipped | Allowed | Blocked

  /** Only network logins with an address are looked at. */
  predicate IsChecked(l: Login) {
    l.logonType == "3" && l.address != "-" && l.address != ""
  }

  /** The login is one that the bind table decides. */
  predicate NeedsBinding(p: Policy, l: Login) {
    IsChecked(l) && l.workstation !in p.whitelist && l.workstation !in p.blocklist && p.checkBind
  }

  function Bind(p: Policy, table: BindTable, l: Login): BindTable {
    if NeedsBinding(p, l) && l.user !in table && p.autoBind then table[l.user := l.workstation] else table
  }

  predicate BindingAllows(p: Policy, table: BindTable, l: Login) {
    l.user in table && p.matches(table[l.user], l.workstation)
  }

  function Decide(p: Policy, table: BindTable, l: Login): Verdict {
    if !IsChecked(l) then Skipped
    else if l.workstation in p.whitelist then Allowed
    else if l.workstation in p.blocklist then Blocked
    else if !p.checkBind then Allowed
    else if BindingAllows(p, Bind(p, table, l), l) then Allowed
    else Blocked
  }

  /** The bind table after a run that started with `table`. */
  function TableAfter(p: Policy, table: BindTable, ls: seq<Login>): BindTable {
    if ls == [] then table else Bind(p, TableAfter(p, table, ls[..|ls| - 1]), ls[|ls| - 1])
  }

  /** The verdicts of a run. */
  function Verdicts(p: Policy, table: BindTable, ls: seq<Login>): seq<Verdict> {
    if ls == [] then []
    else
      var before, l := ls[..|ls| - 1], ls[|ls| - 1];
      Verdicts(p, table, before) + [Decide(p, TableAfter(p, table, before), l)]
  }

  class WorkstationNameConfig {
    const policy: Policy
    var bindTable: BindTable

    constructor (policy: Policy, bindTable: BindTable)
      ensures this.policy == policy && this.bindTable == bindTable
    {
      this.policy, this.bindTable := policy, bindTable;
    }

    method CreateBindRecord(user: string, workstation: string)
      modifies this
      ensures bindTable == old(bindTable)[user := workstation]
    {
      bindTable := bindTable[user := workstation];
    }

    predicate ExistsBindRecord(user: string)
      reads this
    {
      user in bindTable
    }

    predicate CheckBindRecord(user: string, workstation: string)
      reads this
    {
      user in bindTable && policy.matches(bindTable[user], workstation)
    }

    /** One turn of the event loop. */
    method ProcessAuthSucceedEvent(l: Login) returns (verdict: Verdict)
      modifies this
      ensures verdict.Skipped? <==> l.logonType != "3" || l.address == "-" || l.address == ""
      ensures !verdict.Skipped? && l.workstation in policy.whitelist ==> verdict.Allowed?
      ensures !verdict.Skipped? && l.workstation !in policy.whitelist && l.workstation in policy.blocklist ==>
                verdict.Blocked?
      ensures
        || verdict.Skipped? || l.workstation in policy.whitelist || l.workstation in policy.blocklist
        || !policy.checkBind ==>
          bindTable == old(bindTable)
      ensures
        !verdict.Skipped? && l.workstation !in policy.whitelist && l.workstation !in policy.blocklist ==>
          if !policy.checkBind then verdict.Allowed?
          else if l.user in old(bindTable) then
            && bindTable == old(bindTable)
            && (verdict.Allowed? <==> policy.matches(old(bindTable)[l.user], l.workstation))
          else if policy.autoBind then
            && bindTable == old(bindTable)[l.user := l.workstation]
            && (verdict.Allowed? <==> policy.matches(l.workstation, l.workstation))
          else
            bindTable == old(bindTable) && verdict.Blocked?
      ensures verdict == Decide(policy, old(bindTable), l)
      ensures bindTable == Bind(policy, old(bindTable), l)
    {
      if l.logonType != "3" {
        return Skipped;
      }
      if l.address == "-" || l.address == "" {
        return Skipped;
      }
      if l.workstation in policy.whitelist {
        return Allowed;
      }
      if l.workstation in policy.blocklist {
        return Blocked;
      }
      if !policy.checkBind {
        return Allowed;
      }
      if !ExistsBindRecord(l.user) {
        if policy.autoBind {
          CreateBindRecord(l.user, l.workstation);
        }
      }
      if CheckBindRecord(l.user, l.workstation) {
        return Allowed;
      }
      return Blocked;
    }

    method ProcessAuthSucceedEvents(ls: seq<Login>) returns (verdicts: seq<Verdict>)
      modifies this
      ensures verdicts == Verdicts(policy, old(bindTable), ls)
      ensures bindTable == TableAfter(policy, old(bindTable), ls)
    {
      verdicts := [];
      for i := 0 to |ls|
        invariant verdicts == Verdicts(policy, old(bindTable), ls[..i])
        invariant bindTable == TableAfter(policy, old(bindTable), ls[..i])
      {
        assert ls[..i + 1][..i] == ls[..i];
        var verdict := ProcessAuthSucceedEvent(ls[i]);
        verdicts := verdicts + [verdict];
      }
      assert ls[..|ls|] == ls;
    }
  }

  /** Login `k` is the first of `user` that the bind table decides. */
  predicate IsFirstBinding(p: Policy, ls: seq<Login>, user: string, k: nat) {
    && k < |ls| && NeedsBinding(p, ls[k]) && ls[k].user == user
    && forall j :: 0 <= j < k && ls[j].user == user ==> !NeedsBinding(p, ls[j])
  }

  predicate HasBinding(p: Policy, ls: seq<Login>, user: string) {
    exists j :: 0 <= j < |ls| && ls[j].user == user && NeedsBinding(p, ls[j])
  }

  lemma {:induction false} FirstBinding(p: Policy, ls: seq<Login>, user: string) returns (k: nat)
    requires HasBinding(p, ls, user)
    ensures IsFirstBinding(p, ls, user, k)
  {
    var before := ls[..|ls| - 1];
    if HasBinding(p, before, user) {
      k := FirstBinding(p, before, user);
    } else {
      k := |ls| - 1;
      forall j | 0 <= j < k && ls[j].user == user ensures !NeedsBinding(p, ls[j]) {
        assert before[j] == ls[j];
      }
    }
  }

  lemma HasBindingGrows(p: Policy, before: seq<Login>, l: Login, user: string)
    ensures HasBinding(p, before + [l], user) <==> HasBinding(p, before, user) || (l.user == user && NeedsBinding(p, l))
  {
    var ls := before + [l];
    if HasBinding(p, before, user) {
      var j :| 0 <= j < |before| && before[j].user == user && NeedsBinding(p, before[j]);
      assert ls[j] == before[j];
    }
    if HasBinding(p, ls, user) {
      var j :| 0 <= j < |ls| && ls[j].user == user && NeedsBinding(p, ls[j]);
      if j < |before| {
        assert before[j] == ls[j];
      }
    }
    assert ls[|before|] == l;
  }

  /**
   * The name bound to a user after a run: the configured one, for ever; otherwise, with auto-bind,
   * the workstation of the first login that is neither whitelisted nor blocklisted.
   */
  lemma {:induction false} BindingAfterRun(p: Policy, table: BindTable, ls: seq<Login>, user: string)
    ensures user in table ==> user in TableAfter(p, table, ls) && TableAfter(p, table, ls)[user] == table[user]
    ensures user !in table ==> (user in TableAfter(p, table, ls) <==> p.autoBind && HasBinding(p, ls, user))
    ensures
      user !in table && p.autoBind ==>
        forall k: nat :: IsFirstBinding(p, ls, user, k) ==>
          user in TableAfter(p, table, ls) && TableAfter(p, table, ls)[user] == ls[k].workstation
  {
    if ls != [] {
      var n := |ls| - 1;
      var before, l := ls[..n], ls[n];
      BindingAfterRun(p, table, before, user);
      HasBindingGrows(p, before, l, user);
      assert ls == before + [l];
      forall k: nat | user !in table && p.autoBind && IsFirstBinding(p, ls, user, k)
        ensures user in TableAfter(p, table, ls) && TableAfter(p, table, ls)[user] == ls[k].workstation
      {
        if k < n {
          assert IsFirstBinding(p, before, user, k);
        } else {
          assert !HasBinding(p, before, user);
        }
      }
    }
  }

  lemma {:induction false} VerdictsLength(p: Policy, table: BindTable, ls: seq<Login>)
    ensures |Verdicts(p, table, ls)| == |ls|
  {
    if ls != [] {
      VerdictsLength(p, table, ls[..|ls| - 1]);
    }
  }

  lemma {:induction false} VerdictAt(p: Policy, table: BindTable, ls: seq<Login>, i: nat)
    requires i < |ls|
    ensures |Verdicts(p, table, ls)| == |ls|
    ensures Verdicts(p, table, ls)[i] == Decide(p, TableAfter(p, table, ls[..i]), ls[i])
    decreases |ls|
  {
    var n := |ls| - 1;
    VerdictsLength(p, table, ls[..n]);
    if i < n {
      VerdictAt(p, table, ls[..n], i);
      assert ls[..n][..i] == ls[..i];
    }
  }

  lemma TableGrows(p: Policy, table: BindTable, ls: seq<Login>, i: nat)
    requires i < |ls|
    ensures TableAfter(p, table, ls[..i + 1]) == Bind(p, TableAfter(p, table, ls[..i]), ls[i])
  {
    assert ls[..i + 1][..i] == ls[..i];
  }

  /** In every run the lists come first: skipped logins, the whitelist, then the blocklist, none of which binds. */
  lemma ListsComeFirst(p: Policy, table: BindTable, ls: seq<Login>, i: nat)
    requires i < |ls|
    ensures |Verdicts(p, table, ls)| == |ls|
    ensures
      var l, v := ls[i], Verdicts(p, table, ls)[i];
      && (v.Skipped? <==> l.logonType != "3" || l.address == "-" || l.address == "")
      && (!v.Skipped? && l.workstation in p.whitelist ==> v.Allowed?)
      && (!v.Skipped? && l.workstation !in p.whitelist && l.workstation in p.blocklist ==> v.Blocked?)
      && (!v.Skipped? && l.workstation !in p.whitelist && l.workstation !in p.blocklist && !p.checkBind ==> v.Allowed?)
      && (v.Skipped? || l.workstation in p.whitelist || l.workstation in p.blocklist || !p.checkBind ==>
            TableAfter(p, table, ls[..i + 1]) == TableAfter(p, table, ls[..i]))
  {
    VerdictAt(p, table, ls, i);
    TableGrows(p, table, ls, i);
  }

  /** What decides a login that needs a binding: the configured name, or that of the first such login of the user. */
  lemma VerdictOfBinding(p: Policy, table: BindTable, ls: seq<Login>, i: nat, k: nat)
    requires i < |ls| && NeedsBinding(p, ls[i]) && IsFirstBinding(p, ls, ls[i].user, k)
    ensures |Verdicts(p, table, ls)| == |ls|
    ensures Verdicts(p, table, ls)[i].Allowed? <==>
            if ls[i].user in table then p.matches(table[ls[i].user], ls[i].workstation)
            else p.autoBind && p.matches(ls[k].workstation, ls[i].workstation)
    ensures !Verdicts(p, table, ls)[i].Skipped?
  {
    VerdictAt(p, table, ls, i);
    TableGrows(p, table, ls, i);
    var upTo := ls[..i + 1];
    assert upTo[i] == ls[i] && HasBinding(p, upTo, ls[i].user);
    assert IsFirstBinding(p, upTo, ls[i].user, k);
    BindingAfterRun(p, table, upTo, ls[i].user);
  }

  /**
   * Every login of the same user from the same workstation gets the same verdict, whatever happens
   * in between, however often, and whatever the matcher.
   */
  lemma DecisionsAreStable(p: Policy, table: BindTable, ls: seq<Login>, i: nat, j: nat)
    requires i < |ls| && j < |ls| && IsChecked(ls[i]) && IsChecked(ls[j])
    requires ls[i].user == ls[j].user && ls[i].workstation == ls[j].workstation
    ensures |Verdicts(p, table, ls)| == |ls|
    ensures Verdicts(p, table, ls)[i] == Verdicts(p, table, ls)[j]
  {
    VerdictAt(p, table, ls, i);
    VerdictAt(p, table, ls, j);
    if NeedsBinding(p, ls[i]) {
      assert HasBinding(p, ls, ls[i].user);
      var k := FirstBinding(p, ls, ls[i].user);
      VerdictOfBinding(p, table, ls, i, k);
      VerdictOfBinding(p, table, ls, j, k);
    }
  }

  /** A user without a configured name is let in the first time exactly if the name matches itself as a pattern. */
  lemma FirstLogin(p: Policy, table: BindTable, ls: seq<Login>, k: nat)
    requires k < |ls| && IsFirstBinding(p, ls, ls[k].user, k) && ls[k].user !in table && p.autoBind
    ensures |Verdicts(p, table, ls)| == |ls|
    ensures Verdicts(p, table, ls)[k].Allowed? <==> p.matches(ls[k].workstation, ls[k].workstation)
  {
    VerdictOfBinding(p, table, ls, k, k);
  }

  function LoginsOf(ls: seq<Login>, user: string): seq<Login> {
    if ls == [] then []
    else LoginsOf(ls[..|ls| - 1], user) + if ls[|ls| - 1].user == user then [ls[|ls| - 1]] else []
  }

  /** The verdicts of a run on the logins of one user. */
  function VerdictsOf(p: Policy, table: BindTable, ls: seq<Login>, user: string): seq<Verdict> {
    if ls == [] then []
    else
      var before, l := ls[..|ls| - 1], ls[|ls| - 1];
      VerdictsOf(p, table, before, user)
      + if l.user == user then [Decide(p, TableAfter(p, table, before), l)] else []
  }

  ghost predicate SameFor(a: BindTable, b: BindTable, user: string) {
    (user in a <==> user in b) && (user in a ==> a[user] == b[user])
  }

  lemma LoginIsLocal(p: Policy, a: BindTable, b: BindTable, l: Login, user: string)
    requires SameFor(a, b, user)
    ensures l.user == user ==> Decide(p, a, l) == Decide(p, b, l) && SameFor(Bind(p, a, l), Bind(p, b, l), user)
    ensures l.user != user ==> SameFor(Bind(p, a, l), b, user)
  {
  }

  lemma RunGrows(p: Policy, table: BindTable, ls: seq<Login>, l: Login)
    ensures Verdicts(p, table, ls + [l]) == Verdicts(p, table, ls) + [Decide(p, TableAfter(p, table, ls), l)]
    ensures TableAfter(p, table, ls + [l]) == Bind(p, TableAfter(p, table, ls), l)
  {
    assert (ls + [l])[..|ls|] == ls;
  }

  /** The verdicts on the logins of one user are those of a run in which nobody else logs in. */
  lemma {:induction false} UsersAreIndependent(p: Policy, table: BindTable, ls: seq<Login>, user: string)
    ensures VerdictsOf(p, table, ls, user) == Verdicts(p, table, LoginsOf(ls, user))
    ensures SameFor(TableAfter(p, table, ls), TableAfter(p, table, LoginsOf(ls, user)), user)
  {
    if ls != [] {
      var before, l := ls[..|ls| - 1], ls[|ls| - 1];
      var own := LoginsOf(before, user);
      UsersAreIndependent(p, table, before, user);
      LoginIsLocal(p, TableAfter(p, table, before), TableAfter(p, table, own), l, user);
      if l.user == user {
        RunGrows(p, table, own, l);
      } else {
        assert LoginsOf(ls, user) == own;
      }
    }
  }
}
