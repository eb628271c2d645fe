// internal/pbr/drivers.go: the one ip rule of the linux-edge driver, kept in a
// rule list it shares with others.
module IpRules {
  import opened Strings
  import opened Packets
  import opened Commands

  // selectors stands for everything a rule tests or carries beyond what the
  // driver's own rule does; it is empty for a rule with none of that.
  datatype IpRule = IpRule(priority: int, selectors: string, mark: Option<Word>, mask: Option<Word>, table: string)

  datatype RuleSpec = RuleSpec(priority: int, mark: Word, mask: Word, table: string)

  function MaskOf(r: IpRule): Word {
    if r.mask.Some? then r.mask.value else Word(0xffff_ffff)
  }

  // What `ip rule del pref P fwmark V/K lookup T` matches: it ignores selectors.
  predicate Deletable(s: RuleSpec, r: IpRule) {
    r.priority == s.priority && r.mark == Some(s.mark) && MaskOf(r) == s.mask && r.table == s.table
  }

  predicate Owned(s: RuleSpec, r: IpRule) {
    r.selectors == "" && Deletable(s, r)
  }

  // Owned is what `ip rule add` leaves and nothing else; a full mask may be
  // listed as none.
  lemma OwnedExactly(s: RuleSpec, r: IpRule)
    ensures Owned(s, r) <==>
      || r == IpRule(s.priority, "", Some(s.mark), Some(s.mask), s.table)
      || (s.mask == Word(0xffff_ffff) && r == IpRule(s.priority, "", Some(s.mark), None, s.table))
  {
  }

  // scanIPRuleJSON: None is a rule of somebody else's at the priority.
  function Scan(s: RuleSpec, rules: seq<IpRule>): Option<nat> {
    if rules == [] then Some(0)
    else
      var last := rules[|rules| - 1];
      match Scan(s, rules[..|rules| - 1])
      case None => None
      case Some(n) => if last.priority != s.priority then Some(n) else if Owned(s, last) then Some(n + 1) else None
  }

  // The rules at a priority, or all the others, in order.
  function Select(rules: seq<IpRule>, priority: int, at: bool): seq<IpRule> {
    if rules == [] then []
    else (if (rules[0].priority == priority) == at then [rules[0]] else []) + Select(rules[1..], priority, at)
  }

  predicate AllOwned(s: RuleSpec, rules: seq<IpRule>) {
    forall r | r in rules :: r.priority == s.priority ==> Owned(s, r)
  }

  lemma {:induction false} SelectConcat(a: seq<IpRule>, b: seq<IpRule>, priority: int, at: bool)
    ensures Select(a + b, priority, at) == Select(a, priority, at) + Select(b, priority, at)
  {
    if a == [] {
      assert a + b == b;
    } else {
      assert (a + b)[1..] == a[1..] + b;
      SelectConcat(a[1..], b, priority, at);
    }
  }

  // The scan accepts exactly the lists without foreign rules at the priority,
  // and then counts the owned ones.
  lemma {:induction false} ScanMeaning(s: RuleSpec, rules: seq<IpRule>)
    ensures Scan(s, rules).Some? <==> AllOwned(s, rules)
    ensures Scan(s, rules).Some? ==> Scan(s, rules).value == |Select(rules, s.priority, true)|
  {
    if rules == [] {
    } else {
      var front, last := rules[..|rules| - 1], rules[|rules| - 1];
      assert rules == front + [last];
      ScanMeaning(s, front);
      SelectConcat(front, [last], s.priority, true);
      assert [last][1..] == [];
    }
  }

  // ---- the kernel's two commands ----

  function DeleteMatch(s: RuleSpec, rules: seq<IpRule>): Option<seq<IpRule>> {
    if rules == [] then None
    else if Deletable(s, rules[0]) then Some(rules[1..])
    else match DeleteMatch(s, rules[1..])
      case None => None
      case Some(rest) => Some([rules[0]] + rest)
  }

  // A new rule goes after the rules of its own priority.
  function AddRule(s: RuleSpec, rules: seq<IpRule>): seq<IpRule> {
    if rules == [] || rules[0].priority > s.priority
    then [IpRule(s.priority, "", Some(s.mark), Some(s.mask), s.table)] + rules
    else [rules[0]] + AddRule(s, rules[1..])
  }

  lemma {:induction false} DeleteMeaning(s: RuleSpec, rules: seq<IpRule>)
    requires AllOwned(s, rules)
    ensures DeleteMatch(s, rules).Some? <==> Select(rules, s.priority, true) != []
    ensures DeleteMatch(s, rules).Some? ==>
              var left := DeleteMatch(s, rules).value;
              && AllOwned(s, left)
              && Select(left, s.priority, false) == Select(rules, s.priority, false)
              && |Select(left, s.priority, true)| == |Select(rules, s.priority, true)| - 1
  {
    if rules == [] {
    } else {
      assert rules[0] in rules;
      forall r | r in rules[1..] ensures r in rules {}
      DeleteMeaning(s, rules[1..]);
      if !Deletable(s, rules[0]) && DeleteMatch(s, rules[1..]).Some? {
        var rest := DeleteMatch(s, rules[1..]).value;
        assert ([rules[0]] + rest)[1..] == rest;
        assert forall r | r in [rules[0]] + rest :: r == rules[0] || r in rest;
      }
    }
  }

  lemma {:induction false} AddMeaning(s: RuleSpec, rules: seq<IpRule>)
    requires AllOwned(s, rules)
    ensures var more := AddRule(s, rules);
            && AllOwned(s, more)
            && Select(more, s.priority, false) == Select(rules, s.priority, false)
            && |Select(more, s.priority, true)| == |Select(rules, s.priority, true)| + 1
  {
    var own := IpRule(s.priority, "", Some(s.mark), Some(s.mask), s.table);
    if rules == [] || rules[0].priority > s.priority {
      assert ([own] + rules)[1..] == rules;
      assert forall r | r in [own] + rules :: r == own || r in rules;
    } else {
      assert rules[0] in rules;
      forall r | r in rules[1..] ensures r in rules {}
      AddMeaning(s, rules[1..]);
      var rest := AddRule(s, rules[1..]);
      assert ([rules[0]] + rest)[1..] == rest;
      assert forall r | r in [rules[0]] + rest :: r == rules[0] || r in rest;
    }
  }

  // ---- the driver ----

  class PolicyRules {
    var rules: seq<IpRule>

    constructor (rules: seq<IpRule>)
      ensures this.rules == rules
    {
      this.rules := rules;
    }

    // inspectIPRule; listed tells whether one of the two listings can be read.
    method Inspect(s: RuleSpec, listed: bool) returns (exact: Option<nat>)
      ensures exact == if listed then Scan(s, rules) else None
    {
      if !listed {
        return None;
      }
      var n := 0;
      for i := 0 to |rules|
        invariant Scan(s, rules[..i]) == Some(n)
      {
        assert rules[..i + 1][..i] == rules[..i];
        if rules[i].priority == s.priority {
          if !Owned(s, rules[i]) {
            ForeignFound(s, rules, i);
            return None;
          }
          n := n + 1;
        }
      }
      assert rules[..|rules|] == rules;
      return Some(n);
    }

    // One `ip rule del` of the loops below.
    method Delete(s: RuleSpec, answer: Answer) returns (ok: bool)
      requires AllOwned(s, rules)
      modifies this
      ensures AllOwned(s, rules) && Select(rules, s.priority, false) == old(Select(rules, s.priority, false))
      ensures ok ==> |Select(rules, s.priority, true)| == old(|Select(rules, s.priority, true)|) - 1
      ensures |Select(rules, s.priority, true)| <= old(|Select(rules, s.priority, true)|)
      ensures answer.Works? && old(Select(rules, s.priority, true)) != [] ==> ok
    {
      DeleteMeaning(s, rules);
      var left := DeleteMatch(s, rules);
      ok := left.Some? && answer.Works?;
      if left.Some? && answer != Refused {
        rules := left.value;
      }
    }

    method DeleteAll(s: RuleSpec, exact: nat, answers: seq<Answer>) returns (ok: bool)
      requires AllOwned(s, rules) && exact == |Select(rules, s.priority, true)|
      modifies this
      ensures AllOwned(s, rules) && Select(rules, s.priority, false) == old(Select(rules, s.priority, false))
      ensures |Select(rules, s.priority, true)| <= exact
      ensures ok ==> Select(rules, s.priority, true) == []
      ensures AllWork(answers, exact) ==> ok
    {
      for i := 0 to exact
        invariant AllOwned(s, rules) && Select(rules, s.priority, false) == old(Select(rules, s.priority, false))
        invariant |Select(rules, s.priority, true)| == exact - i
      {
        ok := Delete(s, Nth(answers, i));
        if !ok {
          return;
        }
      }
      return true;
    }

    // ensureIPRule. Rules at other priorities stay as they are and in order; a
    // foreign rule at the priority means an error and no change; a failure on
    // the way leaves owned rules only; and where nothing fails and nothing
    // foreign is there it succeeds, however many copies it finds.
    method EnsureIPRule(s: RuleSpec, listed: bool, answers: seq<Answer>) returns (ok: bool)
      modifies this
      ensures (exists r | r in old(rules) :: r.priority == s.priority && r.selectors != "") ==> !ok && rules == old(rules)
      ensures Select(rules, s.priority, false) == old(Select(rules, s.priority, false))
      ensures !AllOwned(s, old(rules)) ==> !ok && rules == old(rules)
      ensures AllOwned(s, old(rules)) ==> AllOwned(s, rules)
      ensures ok ==> |Select(rules, s.priority, true)| == 1
      ensures |Select(rules, s.priority, true)| <= 1 || |Select(rules, s.priority, true)| <= old(|Select(rules, s.priority, true)|)
      ensures !listed || (AllOwned(s, old(rules)) && old(|Select(rules, s.priority, true)|) == 1) ==> rules == old(rules)
      ensures !listed ==> !ok
      ensures listed && AllOwned(s, old(rules)) && AllWork(answers, old(|Select(rules, s.priority, true)|) + 1) ==> ok
    {
      ScanMeaning(s, rules);
      var exact := Inspect(s, listed);
      if exact.None? {
        return false;
      }
      if exact.value == 1 {
        return true;
      }
      ok := DeleteAll(s, exact.value, answers);
      if !ok {
        return;
      }
      AddMeaning(s, rules);
      var answer := Nth(answers, exact.value);
      if answer != Refused {
        rules := AddRule(s, rules);
      }
      return answer.Works?;
    }

    method DeleteOwnedIPRule(s: RuleSpec, listed: bool, answers: seq<Answer>) returns (ok: bool)
      modifies this
      ensures (exists r | r in old(rules) :: r.priority == s.priority && r.selectors != "") ==> !ok && rules == old(rules)
      ensures Select(rules, s.priority, false) == old(Select(rules, s.priority, false))
      ensures !AllOwned(s, old(rules)) ==> !ok && rules == old(rules)
      ensures AllOwned(s, old(rules)) ==> AllOwned(s, rules)
      ensures ok ==> Select(rules, s.priority, true) == []
      ensures |Select(rules, s.priority, true)| <= old(|Select(rules, s.priority, true)|)
      ensures !listed ==> !ok && rules == old(rules)
      ensures listed && AllOwned(s, old(rules)) && AllWork(answers, old(|Select(rules, s.priority, true)|)) ==> ok
    {
      ScanMeaning(s, rules);
      var exact := Inspect(s, listed);
      if exact.None? {
        return false;
      }
      ok := DeleteAll(s, exact.value, answers);
    }
  }

  lemma {:induction false} ForeignFound(s: RuleSpec, rules: seq<IpRule>, i: nat)
    requires i < |rules| && rules[i].priority == s.priority && !Owned(s, rules[i])
    ensures Scan(s, rules) == None
  {
    ScanMeaning(s, rules);
    assert rules[i] in rules;
  }
}
