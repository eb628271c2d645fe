// An iptables table: the commands the drivers issue on it, and what they keep.
module Tables {
  import opened Strings
  import opened Packets
  import opened Commands

  // ---- kernel tables ----

  type Table = map<string, seq<Rule>>

  function RemoveFirst(rules: seq<Rule>, r: Rule): (s: seq<Rule>)
    requires r in rules
    ensures multiset(s) == multiset(rules) - multiset{r}
  {
    assert rules == [rules[0]] + rules[1..];
    if rules[0] == r then rules[1..] else [rules[0]] + RemoveFirst(rules[1..], r)
  }

  // None where the kernel refuses the command.
  function NewChain(t: Table, chain: string): Option<Table> {
    if chain in t then None else Some(t[chain := []])
  }

  function InsertRule(t: Table, chain: string, r: Rule): Option<Table> {
    if chain in t && (r.target.Jump? ==> r.target.chain in t) then Some(t[chain := [r] + t[chain]]) else None
  }

  function DeleteRule(t: Table, chain: string, r: Rule): Option<Table> {
    if chain in t && r in t[chain] then Some(t[chain := RemoveFirst(t[chain], r)]) else None
  }

  function FlushChain(t: Table, chain: string): Option<Table> {
    if chain in t then Some(t[chain := []]) else None
  }

  predicate Referenced(t: Table, chain: string) {
    exists name | name in t :: exists r | r in t[name] :: r.target == Jump(chain)
  }

  function RemoveChain(t: Table, chain: string): Option<Table> {
    if chain in t && t[chain] == [] && !Referenced(t, chain) then Some(t - {chain}) else None
  }

  // One table of an iptables-restore input that flushes and refills a chain.
  function ReplaceChain(t: Table, chain: string, rules: seq<Rule>): Option<Table> {
    if chain in t then Some(t[chain := rules]) else None
  }

  // ---- what a built-in chain does to a packet ----

  // First match, following jumps to chains that do not jump themselves. The
  // built-in chain's policy applies where this returns.
  function Walk(t: Table, rules: seq<Rule>, p: Packet): Decision {
    if rules == [] then Returned
    else if !Matches(rules[0], p) then Walk(t, rules[1..], p)
    else match rules[0].target
      case Accept => Accepted
      case Drop => Dropped
      case Masquerade => Masqueraded
      case Return => Returned
      case Jump(chain) =>
        if chain in t && Decide(t[chain], p) != Returned then Decide(t[chain], p) else Walk(t, rules[1..], p)
      case _ => Walk(t, rules[1..], p)
  }

  // The rule decides nothing about the packet.
  predicate Silent(t: Table, r: Rule, p: Packet) {
    !Matches(r, p) ||
    match r.target
    case Jump(chain) => chain in t ==> Decide(t[chain], p) == Returned
    case SetXMark(_, _) => true
    case Other(_) => true
    case _ => false
  }

  lemma {:induction false} WalkSilent(t: Table, rules: seq<Rule>, p: Packet)
    requires forall r | r in rules :: Silent(t, r, p)
    ensures Walk(t, rules, p) == Returned
  {
    hide Matches, Decide;
    if rules == [] {
    } else {
      assert rules[0] in rules;
      forall r | r in rules[1..] ensures r in rules {}
      WalkSilent(t, rules[1..], p);
    }
  }

  // Where every other rule is silent, the walk is decided by the one that is
  // not, if it matches.
  lemma {:induction false} WalkOne(t: Table, rules: seq<Rule>, one: Rule, p: Packet)
    requires one in rules && Matches(one, p)
    requires forall r | r in rules && r != one :: Silent(t, r, p)
    ensures Walk(t, rules, p) == Walk(t, [one], p)
  {
    hide Matches, Decide;
    assert [one][1..] == [];
    if Silent(t, one, p) {
      WalkSilent(t, rules, p);
      WalkSilent(t, [one], p);
    } else if rules[0] == one {
    } else {
      assert rules[0] in rules;
      forall r | r in rules[1..] ensures r in rules {}
      WalkOne(t, rules[1..], one, p);
    }
  }

  // ---- what holds at every instant ----

  // Where a driver works: its chain, the rule by which a built-in chain jumps
  // to it, every rule in the built-in chain it owns, and the complete contents
  // it ever compiles for its chain.
  datatype Place = Place(builtin: string, chain: string, hook: Rule, owned: set<Rule>, full: set<seq<Rule>>)

  predicate IsPlace(at: Place) {
    at.hook.target == Jump(at.chain) && at.hook in at.owned && at.chain != at.builtin
  }

  function Copies(rules: seq<Rule>, r: Rule): nat {
    multiset(rules)[r]
  }

  // The built-in chain jumps to the driver's chain at most once, and only while
  // that holds one of the complete rule lists.
  predicate TableSafe(t: Table, at: Place) {
    && at.builtin in t && Copies(t[at.builtin], at.hook) <= 1
    && (at.hook in t[at.builtin] ==> at.chain in t && t[at.chain] in at.full)
  }

  predicate HookedOnce(t: Table, at: Place, rules: seq<Rule>) {
    at.builtin in t && Copies(t[at.builtin], at.hook) == 1 && at.chain in t && t[at.chain] == rules
  }

  predicate Unhooked(t: Table, at: Place) {
    at.builtin in t && at.hook !in t[at.builtin]
  }

  function Without(rules: seq<Rule>, owned: set<Rule>): seq<Rule> {
    if rules == [] then []
    else (if rules[0] in owned then [] else [rules[0]]) + Without(rules[1..], owned)
  }

  lemma {:induction false} WithoutKeeps(rules: seq<Rule>, owned: set<Rule>, r: Rule)
    ensures r in Without(rules, owned) <==> r in rules && r !in owned
  {
    if rules == [] {
    } else {
      WithoutKeeps(rules[1..], owned, r);
      assert rules == [rules[0]] + rules[1..];
    }
  }

  // What a table holds besides the driver's own chain and rules, in order.
  function Rest(t: Table, at: Place): (seq<Rule>, Table)
    requires at.builtin in t
  {
    (Without(t[at.builtin], at.owned), t - {at.builtin, at.chain})
  }

  lemma {:induction false} WithoutRemoved(rules: seq<Rule>, r: Rule, owned: set<Rule>)
    requires r in rules && r in owned
    ensures Without(RemoveFirst(rules, r), owned) == Without(rules, owned)
  {
    if rules[0] != r {
      WithoutRemoved(rules[1..], r, owned);
      assert ([rules[0]] + RemoveFirst(rules[1..], r))[1..] == RemoveFirst(rules[1..], r);
    }
  }

  lemma WithoutInserted(rules: seq<Rule>, r: Rule, owned: set<Rule>)
    requires r in owned
    ensures Without([r] + rules, owned) == Without(rules, owned)
  {
    assert ([r] + rules)[1..] == rules;
  }

  // The table after each command, while its condition holds, is safe again and
  // keeps everything foreign.
  ghost predicate TableKept(t: Table, u: Table, at: Place) {
    TableSafe(u, at) && at.builtin in t && Rest(u, at) == Rest(t, at)
  }

  lemma NewKeeps(t: Table, at: Place)
    requires IsPlace(at) && TableSafe(t, at) && NewChain(t, at.chain).Some?
    ensures TableKept(t, NewChain(t, at.chain).value, at)
  {
    assert NewChain(t, at.chain).value - {at.builtin, at.chain} == t - {at.builtin, at.chain};
  }

  lemma ReplaceKeeps(t: Table, at: Place, rules: seq<Rule>)
    requires IsPlace(at) && TableSafe(t, at) && rules in at.full && ReplaceChain(t, at.chain, rules).Some?
    ensures TableKept(t, ReplaceChain(t, at.chain, rules).value, at)
  {
    assert ReplaceChain(t, at.chain, rules).value - {at.builtin, at.chain} == t - {at.builtin, at.chain};
  }

  // Hooking needs a complete chain and no earlier hook.
  lemma HookKeeps(t: Table, at: Place)
    requires IsPlace(at) && TableSafe(t, at)
    requires at.hook !in t[at.builtin] && InsertRule(t, at.builtin, at.hook).Some?
    requires at.chain in t && t[at.chain] in at.full
    ensures TableKept(t, InsertRule(t, at.builtin, at.hook).value, at)
    ensures Copies(InsertRule(t, at.builtin, at.hook).value[at.builtin], at.hook) == 1
  {
    assert InsertRule(t, at.builtin, at.hook).value - {at.builtin, at.chain} == t - {at.builtin, at.chain};
    WithoutInserted(t[at.builtin], at.hook, at.owned);
  }

  // The hook's probe, in which every error reads as absent, and its insertion.
  function HookStep(t: Table, at: Place, probe: Probe, insert: Answer): Table {
    var next := InsertRule(t, at.builtin, at.hook);
    if Found(probe, at.builtin in t && at.hook in t[at.builtin]) || insert.Refused? || next.None? then t else next.value
  }

  // On a safe table with a complete chain, the hook stays single and the table
  // safe exactly if the probe is truthful, the hook is absent or the insertion
  // is refused.
  lemma HookedOnceExactly(t: Table, at: Place, probe: Probe, insert: Answer)
    requires IsPlace(at) && TableSafe(t, at) && at.chain in t && t[at.chain] in at.full
    ensures var u := HookStep(t, at, probe, insert);
            && at.builtin in u
            && (Copies(u[at.builtin], at.hook) <= 1 <==> probe.Honest? || at.hook !in t[at.builtin] || insert.Refused?)
            && (TableSafe(u, at) <==> probe.Honest? || at.hook !in t[at.builtin] || insert.Refused?)
            && Rest(u, at) == Rest(t, at)
  {
    var u := HookStep(t, at, probe, insert);
    assert u - {at.builtin, at.chain} == t - {at.builtin, at.chain};
    WithoutInserted(t[at.builtin], at.hook, at.owned);
  }

  lemma DeleteKeeps(t: Table, at: Place, r: Rule)
    requires IsPlace(at) && TableSafe(t, at) && r in at.owned && DeleteRule(t, at.builtin, r).Some?
    ensures TableKept(t, DeleteRule(t, at.builtin, r).value, at)
    ensures r == at.hook ==> at.hook !in DeleteRule(t, at.builtin, r).value[at.builtin]
  {
    hide Without, RemoveFirst;
    assert DeleteRule(t, at.builtin, r).value - {at.builtin, at.chain} == t - {at.builtin, at.chain};
    WithoutRemoved(t[at.builtin], r, at.owned);
  }

  // Flushing and removing need the hook gone.
  lemma FlushKeeps(t: Table, at: Place)
    requires IsPlace(at) && TableSafe(t, at)
    requires at.hook !in t[at.builtin] && FlushChain(t, at.chain).Some?
    ensures TableKept(t, FlushChain(t, at.chain).value, at)
  {
    assert FlushChain(t, at.chain).value - {at.builtin, at.chain} == t - {at.builtin, at.chain};
  }

  lemma RemoveKeeps(t: Table, at: Place)
    requires IsPlace(at) && TableSafe(t, at)
    requires at.hook !in t[at.builtin] && RemoveChain(t, at.chain).Some?
    ensures TableKept(t, RemoveChain(t, at.chain).value, at)
  {
    assert RemoveChain(t, at.chain).value - {at.builtin, at.chain} == t - {at.builtin, at.chain};
  }

  // ---- one table, as successive runs of a driver see it ----

  ghost predicate HistorySafe(history: seq<Table>, at: Place, foreign: (seq<Rule>, Table)) {
    forall t | t in history :: TableSafe(t, at) && Rest(t, at) == foreign
  }

  lemma HistoryGrows(history: seq<Table>, at: Place, foreign: (seq<Rule>, Table), t: Table)
    ensures HistorySafe(history + [t], at, foreign) <==>
            HistorySafe(history, at, foreign) && TableSafe(t, at) && Rest(t, at) == foreign
  {
    assert (history + [t])[|history|] == t;
    assert forall u :: u in history + [t] <==> u in history || u == t;
  }

  lemma HistoryLast(history: seq<Table>, at: Place, foreign: (seq<Rule>, Table))
    requires HistorySafe(history, at, foreign) && history != []
    ensures TableSafe(history[|history| - 1], at) && Rest(history[|history| - 1], at) == foreign
  {
  }

  class ChainTable {
    const builtin: string
    const chain: string
    const hook: Rule
    const owned: set<Rule>
    var rules: Table
    // What the driver does not own, the chain contents it has ever compiled,
    // and every state of the table so far.
    ghost const foreign: (seq<Rule>, Table)
    ghost var full: set<seq<Rule>>
    ghost var history: seq<Table>

    ghost function Here(): Place
      reads this
    {
      Place(builtin, chain, hook, owned, full)
    }

    // Every state so far was safe and left everything foreign alone.
    ghost predicate Valid()
      reads this
    {
      && IsPlace(Here()) && history != [] && history[|history| - 1] == rules
      && HistorySafe(history, Here(), foreign)
    }

    // Any state of the kernel in which the driver is not hooked.
    constructor (t: Table, builtin: string, chain: string, hook: Rule, owned: set<Rule>)
      requires IsPlace(Place(builtin, chain, hook, owned, {})) && TableSafe(t, Place(builtin, chain, hook, owned, {}))
      ensures Valid() && rules == t && full == {} && history == [t]
      ensures this.builtin == builtin && this.chain == chain && this.hook == hook && this.owned == owned
    {
      this.builtin, this.chain, this.hook, this.owned := builtin, chain, hook, owned;
      rules, full, history := t, {}, [t];
      foreign := Rest(t, Place(builtin, chain, hook, owned, {}));
    }

    // The built-in chain holds the rule.
    predicate Held(r: Rule)
      reads this
    {
      builtin in rules && r in rules[builtin]
    }

    lemma Now()
      requires Valid()
      ensures TableSafe(rules, Here()) && Rest(rules, Here()) == foreign
    {
      HistoryLast(history, Here(), foreign);
    }

    ghost method Allow(contents: seq<Rule>)
      requires Valid()
      modifies this`full
      ensures Valid() && full == old(full) + {contents}
    {
      full := full + {contents};
    }

    // A command: next is None where the kernel refuses it.
    method Change(next: Option<Table>, answer: Answer) returns (ok: bool)
      requires Valid()
      requires next.Some? ==> TableKept(rules, next.value, Here())
      modifies this`rules, this`history
      ensures Valid() && old(history) <= history
      ensures rules == if next.Some? && answer != Refused then next.value else old(rules)
      ensures ok <==> next.Some? && answer == Works
    {
      Now();
      if next.Some? && answer != Refused {
        HistoryGrows(history, Here(), foreign, next.value);
        rules := next.value;
        history := history + [rules];
      }
      return next.Some? && answer == Works;
    }

    // ensureChain: any error of the probe reads as absent.
    method EnsureChain(probe: Probe, create: Answer) returns (ok: bool)
      requires Valid()
      modifies this`rules, this`history
      ensures Valid() && old(history) <= history
      ensures probe.Honest? && create.Works? ==> ok && chain in rules
      ensures Unhooked(old(rules), Here()) ==> Unhooked(rules, Here())
      ensures ok ==> chain in rules
      ensures rules == old(rules) || Some(rules) == NewChain(old(rules), chain)
    {
      Now();
      if Found(probe, chain in rules) {
        return true;
      }
      if chain !in rules {
        NewKeeps(rules, Here());
      }
      ok := Change(NewChain(rules, chain), create);
    }

    // The table's part of an iptables-restore input.
    method Restore(contents: seq<Rule>, done: bool) returns (ok: bool)
      requires Valid() && contents in full
      modifies this`rules, this`history
      ensures Valid() && old(history) <= history
      ensures ok <==> done && chain in old(rules)
      ensures rules == if ok then old(rules)[chain := contents] else old(rules)
      ensures Unhooked(old(rules), Here()) ==> Unhooked(rules, Here())
    {
      Now();
      if chain in rules {
        ReplaceKeeps(rules, Here(), contents);
      }
      ok := Change(ReplaceChain(rules, chain, contents), if done then Works else Refused);
    }

    // Deletes one copy of an owned rule if its probe finds one; any error of
    // the probe reads as absent.
    method DropRule(r: Rule, probe: Probe, delete: Answer) returns (ok: bool)
      requires Valid() && r in owned
      modifies this`rules, this`history
      ensures Valid() && old(history) <= history
      ensures rules.Keys == old(rules).Keys
      ensures probe.Honest? && delete.Works? ==> ok
      ensures rules == old(rules) || Some(rules) == DeleteRule(old(rules), builtin, r)
      ensures ok && probe.Honest? && old(Held(r)) ==> Some(rules) == DeleteRule(old(rules), builtin, r)
    {
      Now();
      if !Found(probe, r in rules[builtin]) {
        return true;
      }
      DeleteKeeps(rules, Here(), r);
      ok := Change(DeleteRule(rules, builtin, r), delete);
    }

    // The hook's probe and its insertion. The hook stays single, and every
    // instant safe, exactly if the probe is truthful, the hook absent or the
    // insertion refused.
    method HookChain(probe: Probe, insert: Answer) returns (ok: bool)
      requires Valid() && chain in rules && rules[chain] in full
      modifies this`rules, this`history
      ensures old(history) <= history && history != [] && history[|history| - 1] == rules
      ensures rules == HookStep(old(rules), Here(), probe, insert)
      ensures builtin in old(rules) && builtin in rules && rules[builtin] in {old(rules)[builtin], [hook] + old(rules)[builtin]}
      ensures Valid() <==> probe.Honest? || !old(Held(hook)) || insert.Refused?
      ensures Valid() && (ok || !Unhooked(rules, Here())) ==> HookedOnce(rules, Here(), old(rules)[chain])
      ensures insert.Works? ==> ok
    {
      hide HistorySafe, TableSafe, Rest;
      HookFacts(probe, insert);
      if Found(probe, hook in rules[builtin]) {
        return true;
      }
      var next := InsertRule(rules, builtin, hook);
      if next.Some? && insert != Refused {
        HistoryGrows(history, Here(), foreign, next.value);
        rules := next.value;
        history := history + [rules];
      }
      return next.Some? && insert == Works;
    }

    lemma HookFacts(probe: Probe, insert: Answer)
      requires Valid() && chain in rules && rules[chain] in full
      ensures var u := HookStep(rules, Here(), probe, insert);
              && builtin in rules && builtin in u && Rest(u, Here()) == foreign && TableSafe(rules, Here())
              && (TableSafe(u, Here()) <==> probe.Honest? || !Held(hook) || insert.Refused?)
              && (TableSafe(u, Here()) && hook in u[builtin] ==> HookedOnce(u, Here(), rules[chain]))
              && InsertRule(rules, builtin, hook).Some? && hook in InsertRule(rules, builtin, hook).value[builtin]
    {
      Now();
      HookedOnceExactly(rules, Here(), probe, insert);
    }

    // Cleanup's removal of the hook, on a probe that answers truthfully or with
    // an error that does not read as missing.
    method UnhookChain(probe: Probe, delete: Answer) returns (ok: bool)
      requires Valid() && !probe.Missing?
      modifies this`rules, this`history
      ensures Valid() && old(history) <= history
      ensures ok ==> Unhooked(rules, Here())
      ensures probe.Honest? && delete.Works? ==> ok
      ensures rules == old(rules) || Some(rules) == DeleteRule(old(rules), builtin, hook)
    {
      Now();
      if probe.Broken? {
        return false;
      }
      if hook !in rules[builtin] {
        return true;
      }
      DeleteKeeps(rules, Here(), hook);
      ok := Change(DeleteRule(rules, builtin, hook), delete);
    }

    // The flush and the removal, once the hook is gone.
    method EmptyChain(flush: Answer) returns (ok: bool)
      requires Valid() && Unhooked(rules, Here()) && chain in rules
      modifies this`rules, this`history
      ensures Valid() && old(history) <= history && Unhooked(rules, Here())
      ensures rules == if flush.Refused? then old(rules) else old(rules)[chain := []]
      ensures ok <==> flush.Works?
    {
      Now();
      FlushKeeps(rules, Here());
      ok := Change(FlushChain(rules, chain), flush);
    }

    method RemoveEmptied(remove: Answer) returns (ok: bool)
      requires Valid() && Unhooked(rules, Here()) && chain in rules && rules[chain] == []
      modifies this`rules, this`history
      ensures Valid() && old(history) <= history && Unhooked(rules, Here())
      ensures rules == old(rules) || Some(rules) == RemoveChain(old(rules), chain)
      ensures ok ==> chain !in rules
      ensures remove.Works? ==> ok || Referenced(rules, chain)
    {
      Now();
      if RemoveChain(rules, chain).Some? {
        RemoveKeeps(rules, Here());
      }
      ok := Change(RemoveChain(rules, chain), remove);
    }

    // Cleanup's removal of the chain.
    method DropChain(probe: Probe, flush: Answer, remove: Answer) returns (ok: bool)
      requires Valid() && Unhooked(rules, Here())
      modifies this`rules, this`history
      ensures Valid() && old(history) <= history && Unhooked(rules, Here())
      ensures ok && !probe.Missing? ==> chain !in rules
      ensures probe.Honest? && flush.Works? && remove.Works? ==> ok || Referenced(rules, chain)
      ensures rules == old(rules) || rules == old(rules)[chain := []]
              || Some(rules) == RemoveChain(old(rules)[chain := []], chain)
    {
      Now();
      if probe.Broken? {
        return false;
      }
      if !Found(probe, chain in rules) {
        return true;
      }
      ok := EmptyChain(flush);
      if !ok {
        return;
      }
      ok := RemoveEmptied(remove);
    }
  }
}
