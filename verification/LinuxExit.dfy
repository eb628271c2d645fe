// internal/pbr/drivers.go and operations.go: the linux-exit driver, one
// iptables command at a time. Any command may fail, and the kernel may refuse.
module LinuxExit {
  import opened Strings
  import opened Networks
  import opened Packets
  import opened Commands
  import opened Tables

  datatype ExitConfig = ExitConfig(chain: string, sourceNet: string, wan: string)

  function FilterChain(c: ExitConfig): string {
    if c.chain == "" then "STREAM_EXIT" else c.chain
  }

  function NatChain(c: ExitConfig): string {
    FilterChain(c) + "_NAT"
  }

  const FORWARD := "FORWARD"
  const POSTROUTING := "POSTROUTING"

  // The jump to an owned chain.
  function Hook(chain: string): Rule {
    Rule(None, None, None, None, Jump(chain))
  }

  function Legacy(c: ExitConfig): Rule {
    Rule(None, Some(c.sourceNet), None, Some(c.wan), Masquerade)
  }

  // ---- the compiled chains ----

  function ExitFilter(c: ExitConfig, nets: seq<string>): seq<Rule> {
    PerNetwork(Some(c.sourceNet), nets, None, Accept) + [Rule(None, Some(c.sourceNet), None, None, Drop)] + [Rule(None, None, None, None, Return)]
  }

  function ExitNat(c: ExitConfig, nets: seq<string>): seq<Rule> {
    PerNetwork(Some(c.sourceNet), nets, Some(c.wan), Masquerade) + [Rule(None, None, None, None, Return)]
  }

  // The text applyExit builds for iptables-restore, one table each.
  method RestoreInput(c: ExitConfig, nets: seq<string>) returns (filterRules: seq<Rule>, natRules: seq<Rule>)
    ensures filterRules == ExitFilter(c, nets) && natRules == ExitNat(c, nets)
  {
    filterRules := [];
    for i := 0 to |nets|
      invariant filterRules == PerNetwork(Some(c.sourceNet), nets[..i], None, Accept)
    {
      filterRules := filterRules + [Rule(None, Some(c.sourceNet), Some(nets[i]), None, Accept)];
      assert nets[..i + 1][..i] == nets[..i];
    }
    assert nets[..|nets|] == nets;
    filterRules := filterRules + [Rule(None, Some(c.sourceNet), None, None, Drop)];
    filterRules := filterRules + [Rule(None, None, None, None, Return)];
    natRules := [];
    for i := 0 to |nets|
      invariant natRules == PerNetwork(Some(c.sourceNet), nets[..i], Some(c.wan), Masquerade)
    {
      natRules := natRules + [Rule(None, Some(c.sourceNet), Some(nets[i]), Some(c.wan), Masquerade)];
      assert nets[..i + 1][..i] == nets[..i];
    }
    natRules := natRules + [Rule(None, None, None, None, Return)];
  }

  // For every packet: from source_net to the union is accepted, the rest of
  // source_net is dropped, everything else is left to the rules that follow.
  lemma ExitFilterMeaning(c: ExitConfig, nets: seq<string>, p: Packet)
    ensures Decide(ExitFilter(c, nets), p) ==
            if !Covers(c.sourceNet, p.src) then Returned
            else if InUnion(nets, p.dst) then Accepted
            else Dropped
  {
    hide Covers, Named;
    var accepts := PerNetwork(Some(c.sourceNet), nets, None, Accept);
    var drop, ret := Rule(None, Some(c.sourceNet), None, None, Drop), Rule(None, None, None, None, Return);
    AllTarget(Some(c.sourceNet), nets, None, Accept);
    PerNetworkDecides(Some(c.sourceNet), nets, None, Accept, p);
    DecideConcat(accepts, [drop] + [ret], p);
    DecideConcat([drop], [ret], p);
    assert ExitFilter(c, nets) == accepts + ([drop] + [ret]);
  }

  // Exactly the accepted destinations are masqueraded, on the WAN interface.
  lemma ExitNatMeaning(c: ExitConfig, nets: seq<string>, p: Packet)
    ensures Decide(ExitNat(c, nets), p) ==
            if Covers(c.sourceNet, p.src) && InUnion(nets, p.dst) && Named(c.wan, p.output) then Masqueraded else Returned
    ensures Decide(ExitNat(c, nets), p) == Masqueraded <==>
            Decide(ExitFilter(c, nets), p) == Accepted && Named(c.wan, p.output)
  {
    hide Covers, Named;
    var rules := PerNetwork(Some(c.sourceNet), nets, Some(c.wan), Masquerade);
    AllTarget(Some(c.sourceNet), nets, Some(c.wan), Masquerade);
    PerNetworkDecides(Some(c.sourceNet), nets, Some(c.wan), Masquerade, p);
    DecideConcat(rules, [Rule(None, None, None, None, Return)], p);
    ExitFilterMeaning(c, nets, p);
  }

  lemma AllTarget(source: Option<string>, nets: seq<string>, output: Option<string>, target: Target)
    ensures forall r | r in PerNetwork(source, nets, output, target) :: r.target == target
  {
    forall r | r in PerNetwork(source, nets, output, target) ensures r.target == target {
      PerNetworkRules(source, nets, output, target, r);
    }
  }

  // ---- the environment ----

  // How far a restore gets: the tables commit one after the other.
  datatype RestoreAnswer = RestoreAnswer(filterDone: bool, natDone: bool, reported: bool)

  datatype ApplyAnswers = ApplyAnswers(
    filterProbe: Probe, newFilter: Answer, natProbe: Probe, newNat: Answer,
    legacyProbe: Probe, legacyDelete: Answer, restore: RestoreAnswer,
    hookProbe: Probe, hookFilter: Answer, natHookProbe: Probe, hookNat: Answer)

  datatype CleanupAnswers = CleanupAnswers(
    hookProbe: Probe, unhookFilter: Answer, natHookProbe: Probe, unhookNat: Answer,
    filterProbe: Probe, flushFilter: Answer, removeFilter: Answer,
    natProbe: Probe, flushNat: Answer, removeNat: Answer)

  predicate ApplyFaultless(a: ApplyAnswers) {
    && a.filterProbe.Honest? && a.newFilter.Works? && a.natProbe.Honest? && a.newNat.Works?
    && a.legacyProbe.Honest? && a.legacyDelete.Works? && a.restore == RestoreAnswer(true, true, true)
    && a.hookFilter.Works? && a.hookNat.Works?
  }

  predicate CleanupFaultless(a: CleanupAnswers) {
    && a.hookProbe.Honest? && a.unhookFilter.Works? && a.natHookProbe.Honest? && a.unhookNat.Works?
    && a.filterProbe.Honest? && a.flushFilter.Works? && a.removeFilter.Works?
    && a.natProbe.Honest? && a.flushNat.Works? && a.removeNat.Works?
  }

  // ---- what holds at every instant ----

  function Filters(c: ExitConfig, given: set<seq<string>>): set<seq<Rule>> {
    set nets | nets in given :: ExitFilter(c, nets)
  }

  function Nats(c: ExitConfig, given: set<seq<string>>): set<seq<Rule>> {
    set nets | nets in given :: ExitNat(c, nets)
  }

  function FilterPlace(c: ExitConfig, given: set<seq<string>>): Place {
    Place(FORWARD, FilterChain(c), Hook(FilterChain(c)), {Hook(FilterChain(c))}, Filters(c, given))
  }

  function NatPlace(c: ExitConfig, given: set<seq<string>>): Place {
    Place(POSTROUTING, NatChain(c), Hook(NatChain(c)), {Hook(NatChain(c)), Legacy(c)}, Nats(c, given))
  }

  // At every instant at which FORWARD jumps to the owned chain, that chain
  // decides every packet as one of the given lists says.
  lemma SafeMeaning(c: ExitConfig, given: set<seq<string>>, t: Table) returns (nets: seq<string>)
    requires TableSafe(t, FilterPlace(c, given)) && Hook(FilterChain(c)) in t[FORWARD]
    ensures nets in given && t[FilterChain(c)] != []
    ensures forall p ::
      Decide(t[FilterChain(c)], p) ==
        if !Covers(c.sourceNet, p.src) then Returned else if InUnion(nets, p.dst) then Accepted else Dropped
  {
    nets :| nets in given && t[FilterChain(c)] == ExitFilter(c, nets);
    forall p
      ensures Decide(t[FilterChain(c)], p) ==
        if !Covers(c.sourceNet, p.src) then Returned else if InUnion(nets, p.dst) then Accepted else Dropped
    {
      ExitFilterMeaning(c, nets, p);
    }
  }

  // The rule earlier versions installed: everything from source_net that leaves
  // on the WAN is masqueraded, and nothing else.
  lemma LegacyMatches(c: ExitConfig, p: Packet)
    ensures Legacy(c).target == Masquerade
    ensures Matches(Legacy(c), p) <==> Covers(c.sourceNet, p.src) && Named(c.wan, p.output)
  {
  }

  // The rules of a built-in chain that the driver does not own are silent.
  ghost predicate OthersSilent(t: Table, at: Place, p: Packet)
    requires at.builtin in t
  {
    forall r | r in Without(t[at.builtin], at.owned) :: Silent(t, r, p)
  }

  // The whole of POSTROUTING, where foreign rules decide nothing: without the
  // legacy rule it masquerades exactly the packets from source_net to the union
  // that leave on the WAN; with it, all that leave there.
  lemma PostroutingDecides(c: ExitConfig, nets: seq<string>, t: Table, p: Packet)
    requires HookedOnce(t, NatPlace(c, {}), ExitNat(c, nets)) && OthersSilent(t, NatPlace(c, {}), p)
    ensures Walk(t, t[POSTROUTING], p) ==
            if && Covers(c.sourceNet, p.src) && Named(c.wan, p.output)
               && (InUnion(nets, p.dst) || Copies(t[POSTROUTING], Legacy(c)) > 0)
            then Masqueraded else Returned
  {
    hide Covers, Named, InUnion, ExitNat, NatChain, Decide;
    var rules, hook, legacy := t[POSTROUTING], Hook(NatChain(c)), Legacy(c);
    ExitNatMeaning(c, nets, p);
    LegacyMatches(c, p);
    forall r | r in rules && r != hook && r != legacy ensures Silent(t, r, p) {
      WithoutKeeps(rules, {hook, legacy}, r);
    }
    assert Matches(hook, p) && [hook][1..] == [] && [legacy][1..] == [];
    if Decide(t[NatChain(c)], p) == Returned {
      if legacy in rules && Matches(legacy, p) {
        WalkOne(t, rules, legacy, p);
      } else {
        forall r | r in rules ensures Silent(t, r, p) {}
        WalkSilent(t, rules, p);
      }
    } else {
      WalkTwo(t, rules, hook, legacy, p);
    }
  }

  // Two rules that masquerade the packet, among silent ones.
  lemma {:induction false} WalkTwo(t: Table, rules: seq<Rule>, hook: Rule, legacy: Rule, p: Packet)
    requires hook in rules && Walk(t, [hook], p) == Masqueraded && Matches(hook, p)
    requires legacy.target == Masquerade
    requires forall r | r in rules && r != hook && r != legacy :: Silent(t, r, p)
    ensures Walk(t, rules, p) == Masqueraded
  {
    hide Matches, Decide;
    assert [hook][1..] == [];
    assert rules[0] in rules;
    if rules[0] == hook || (rules[0] == legacy && Matches(legacy, p)) {
    } else {
      forall r | r in rules[1..] ensures r in rules {}
      WalkTwo(t, rules[1..], hook, legacy, p);
    }
  }

  // The whole of FORWARD, where foreign rules decide nothing.
  lemma ForwardDecides(c: ExitConfig, nets: seq<string>, t: Table, p: Packet)
    requires HookedOnce(t, FilterPlace(c, {}), ExitFilter(c, nets)) && OthersSilent(t, FilterPlace(c, {}), p)
    ensures Walk(t, t[FORWARD], p) ==
            if !Covers(c.sourceNet, p.src) then Returned else if InUnion(nets, p.dst) then Accepted else Dropped
  {
    hide Covers, Named, InUnion, ExitFilter, FilterChain, Decide;
    var rules, hook := t[FORWARD], Hook(FilterChain(c));
    ExitFilterMeaning(c, nets, p);
    forall r | r in rules && r != hook ensures Silent(t, r, p) {
      WithoutKeeps(rules, {hook}, r);
    }
    assert Matches(hook, p) && [hook][1..] == [];
    WalkOne(t, rules, hook, p);
  }

  // Where the hook comes first, as the driver inserts it, foreign rules decide
  // nothing about source_net, whatever they are.
  lemma FrontHookDecides(c: ExitConfig, nets: seq<string>, t: Table, p: Packet)
    requires HookedOnce(t, FilterPlace(c, {}), ExitFilter(c, nets)) && t[FORWARD][0] == Hook(FilterChain(c))
    requires Covers(c.sourceNet, p.src)
    ensures Walk(t, t[FORWARD], p) == if InUnion(nets, p.dst) then Accepted else Dropped
  {
    hide Covers, InUnion, ExitFilter, FilterChain, Decide;
    ExitFilterMeaning(c, nets, p);
  }

  // The nat chain is named after the filter chain and is never the built-in one.
  lemma NatChainName(c: ExitConfig)
    ensures NatChain(c) == (if c.chain == "" then "STREAM_EXIT_NAT" else c.chain + "_NAT")
    ensures NatChain(c) == FilterChain(c) + "_NAT" != POSTROUTING
  {
    var n := NatChain(c);
    assert n[|n| - 1] == "_NAT"[3] == 'T';
    assert POSTROUTING[|POSTROUTING| - 1] == 'G';
  }

  // ---- where the conditions are needed ----

  // Cleanup deletes one hook and then flushes. That empties a hooked chain
  // exactly when the hook was there twice.
  lemma CleanupOpensExactly(t: Table, builtin: string, chain: string, p: Packet)
    requires builtin in t && chain in t && chain != builtin && Hook(chain) in t[builtin]
    ensures var unhooked := DeleteRule(t, builtin, Hook(chain)).value;
            var flushed := FlushChain(unhooked, chain).value;
            && Decide(flushed[chain], p) == Returned
            && (Hook(chain) in flushed[builtin] <==> Copies(t[builtin], Hook(chain)) >= 2)
  {
    var rest := RemoveFirst(t[builtin], Hook(chain));
    var unhooked := DeleteRule(t, builtin, Hook(chain)).value;
    assert unhooked[builtin] == rest && chain in unhooked;
    assert multiset(rest)[Hook(chain)] == Copies(t[builtin], Hook(chain)) - 1;
  }

  // ---- the driver ----

  class ExitDriver {
    const c: ExitConfig
    const filterTable: ChainTable
    const natTable: ChainTable
    // Every list ever handed to ApplyExit.
    ghost var given: set<seq<string>>

    // Both tables have been safe at every instant since the start.
    ghost predicate Valid()
      reads this, filterTable, natTable
    {
      && filterTable != natTable && filterTable.Valid() && natTable.Valid()
      && filterTable.Here() == FilterPlace(c, given) && natTable.Here() == NatPlace(c, given)
    }

    constructor (c: ExitConfig, filterTable: ChainTable, natTable: ChainTable)
      requires filterTable != natTable && filterTable.Valid() && natTable.Valid()
      requires filterTable.Here() == FilterPlace(c, {}) && natTable.Here() == NatPlace(c, {})
      ensures Valid() && given == {} && this.c == c && this.filterTable == filterTable && this.natTable == natTable
    {
      this.c, this.filterTable, this.natTable, given := c, filterTable, natTable, {};
    }

    // How often POSTROUTING holds the legacy rule.
    function LegacyCopies(): nat
      reads natTable
    {
      if POSTROUTING in natTable.rules then Copies(natTable.rules[POSTROUTING], Legacy(c)) else 0
    }

    ghost method Give(nets: seq<string>)
      requires Valid()
      modifies this, filterTable`full, natTable`full
      ensures Valid() && given == old(given) + {nets}
    {
      filterTable.Allow(ExitFilter(c, nets));
      natTable.Allow(ExitNat(c, nets));
      given := given + {nets};
      assert Filters(c, given) == old(filterTable.full) + {ExitFilter(c, nets)};
      assert Nats(c, given) == old(natTable.full) + {ExitNat(c, nets)};
    }

    method EnsureChains(a: ApplyAnswers) returns (ok: bool)
      requires Valid()
      modifies filterTable`rules, filterTable`history, natTable`rules, natTable`history
      ensures Valid() && old(filterTable.history) <= filterTable.history && old(natTable.history) <= natTable.history
      ensures ok ==> FilterChain(c) in filterTable.rules && NatChain(c) in natTable.rules
      ensures ApplyFaultless(a) ==> ok
      ensures LegacyCopies() == old(LegacyCopies())
    {
      hide TableSafe, Rest;
      ok := filterTable.EnsureChain(a.filterProbe, a.newFilter);
      if !ok {
        return;
      }
      ok := natTable.EnsureChain(a.natProbe, a.newNat);
    }

    // One copy of the legacy rule goes, if its probe finds one.
    method DropLegacy(a: ApplyAnswers) returns (ok: bool)
      requires Valid()
      modifies natTable`rules, natTable`history
      ensures Valid() && old(natTable.history) <= natTable.history && natTable.rules.Keys == old(natTable.rules).Keys
      ensures ApplyFaultless(a) ==> ok
      ensures ok && a.legacyProbe.Honest? ==> LegacyCopies() == if old(LegacyCopies()) > 0 then old(LegacyCopies()) - 1 else 0
      ensures LegacyCopies() <= old(LegacyCopies())
    {
      hide TableSafe, Rest;
      ok := natTable.DropRule(Legacy(c), a.legacyProbe, a.legacyDelete);
    }

    // The commands before the restore.
    method Prepare(a: ApplyAnswers) returns (ok: bool)
      requires Valid()
      modifies filterTable`rules, filterTable`history, natTable`rules, natTable`history
      ensures Valid() && old(filterTable.history) <= filterTable.history && old(natTable.history) <= natTable.history
      ensures ok ==> FilterChain(c) in filterTable.rules && NatChain(c) in natTable.rules
      ensures ApplyFaultless(a) ==> ok
      ensures ok && a.legacyProbe.Honest? ==> LegacyCopies() == if old(LegacyCopies()) > 0 then old(LegacyCopies()) - 1 else 0
      ensures LegacyCopies() <= old(LegacyCopies())
    {
      hide ApplyFaultless, LegacyCopies, FilterPlace, NatPlace;
      ok := EnsureChains(a);
      if !ok {
        return;
      }
      ok := DropLegacy(a);
    }

    // iptables-restore with both tables.
    method RestoreChains(nets: seq<string>, a: RestoreAnswer) returns (ok: bool)
      requires Valid() && nets in given
      modifies filterTable`rules, filterTable`history, natTable`rules, natTable`history
      ensures Valid() && old(filterTable.history) <= filterTable.history && old(natTable.history) <= natTable.history
      ensures ok ==> FilterChain(c) in filterTable.rules && filterTable.rules[FilterChain(c)] == ExitFilter(c, nets)
      ensures ok ==> NatChain(c) in natTable.rules && natTable.rules[NatChain(c)] == ExitNat(c, nets)
      ensures FilterChain(c) in old(filterTable.rules) && NatChain(c) in old(natTable.rules) && a == RestoreAnswer(true, true, true) ==> ok
      ensures LegacyCopies() == old(LegacyCopies())
    {
      var filterRules, natRules := RestoreInput(c, nets);
      ok := filterTable.Restore(filterRules, a.filterDone);
      if ok {
        ok := natTable.Restore(natRules, a.natDone);
        ok := ok && a.reported;
      }
    }

    // The hooks, with both chains complete.
    method HookChains(nets: seq<string>, a: ApplyAnswers) returns (ok: bool)
      requires Valid() && a.hookProbe.Honest? && a.natHookProbe.Honest? && nets in given
      requires FilterChain(c) in filterTable.rules && filterTable.rules[FilterChain(c)] == ExitFilter(c, nets)
      requires NatChain(c) in natTable.rules && natTable.rules[NatChain(c)] == ExitNat(c, nets)
      modifies filterTable`rules, filterTable`history, natTable`rules, natTable`history
      ensures Valid() && old(filterTable.history) <= filterTable.history && old(natTable.history) <= natTable.history
      ensures ok ==> HookedOnce(filterTable.rules, filterTable.Here(), ExitFilter(c, nets))
      ensures ok ==> HookedOnce(natTable.rules, natTable.Here(), ExitNat(c, nets))
      ensures a.hookFilter.Works? && a.hookNat.Works? ==> ok
      ensures LegacyCopies() == old(LegacyCopies())
    {
      hide TableSafe, Rest, IsPlace, ExitFilter, ExitNat, HookStep;
      ok := filterTable.HookChain(a.hookProbe, a.hookFilter);
      if !ok {
        return;
      }
      ok := natTable.HookChain(a.natHookProbe, a.hookNat);
    }

    // applyExit, on truthful probes of the two hooks. A success leaves exactly this list installed; a failure leaves
    // every instant safe; and a run in which nothing fails succeeds, whatever
    // earlier runs left.
    method ApplyExit(nets: seq<string>, a: ApplyAnswers) returns (ok: bool)
      requires Valid() && a.hookProbe.Honest? && a.natHookProbe.Honest?
      modifies this, filterTable, natTable
      ensures Valid() && given == old(given) + {nets}
      ensures old(filterTable.history) <= filterTable.history && old(natTable.history) <= natTable.history
      ensures ok ==> HookedOnce(filterTable.rules, filterTable.Here(), ExitFilter(c, nets))
      ensures ok ==> HookedOnce(natTable.rules, natTable.Here(), ExitNat(c, nets))
      ensures ApplyFaultless(a) ==> ok
      ensures ok && a.legacyProbe.Honest? ==> LegacyCopies() == if old(LegacyCopies()) > 0 then old(LegacyCopies()) - 1 else 0
      ensures LegacyCopies() <= old(LegacyCopies())
    {
      hide TableSafe, Rest, IsPlace, ExitFilter, ExitNat;
      Give(nets);
      ok := Prepare(a);
      if !ok {
        return;
      }
      ok := RestoreChains(nets, a.restore);
      if !ok {
        return;
      }
      ok := HookChains(nets, a);
    }

    // cleanupLinuxExit: the hooks go first. Only another chain's reference to an
    // owned chain keeps a run in which nothing fails from succeeding.
    method CleanupLinuxExit(a: CleanupAnswers) returns (ok: bool)
      requires Valid() && !a.hookProbe.Missing? && !a.natHookProbe.Missing?
      modifies filterTable`rules, filterTable`history, natTable`rules, natTable`history
      ensures Valid()
      ensures old(filterTable.history) <= filterTable.history && old(natTable.history) <= natTable.history
      ensures ok ==> Unhooked(filterTable.rules, filterTable.Here()) && Unhooked(natTable.rules, natTable.Here())
      ensures ok && !a.filterProbe.Missing? ==> FilterChain(c) !in filterTable.rules
      ensures ok && !a.natProbe.Missing? ==> NatChain(c) !in natTable.rules
      ensures CleanupFaultless(a) ==>
        ok || Referenced(filterTable.rules, FilterChain(c)) || Referenced(natTable.rules, NatChain(c))
      ensures LegacyCopies() == old(LegacyCopies())
    {
      ok := filterTable.UnhookChain(a.hookProbe, a.unhookFilter);
      if !ok {
        return;
      }
      ok := natTable.UnhookChain(a.natHookProbe, a.unhookNat);
      if !ok {
        return;
      }
      ok := filterTable.DropChain(a.filterProbe, a.flushFilter, a.removeFilter);
      if !ok {
        return;
      }
      ok := natTable.DropChain(a.natProbe, a.flushNat, a.removeNat);
    }
  }

  // A driver on two tables in which it is not hooked yet.
  method NewExitDriver(c: ExitConfig, filterRules: Table, natRules: Table) returns (d: ExitDriver)
    requires FilterChain(c) != FORWARD
    requires Unhooked(filterRules, FilterPlace(c, {})) && Unhooked(natRules, NatPlace(c, {}))
    ensures fresh(d) && d.Valid() && d.c == c && d.given == {}
    ensures fresh(d.filterTable) && d.filterTable.rules == filterRules && fresh(d.natTable) && d.natTable.rules == natRules
  {
    NatChainName(c);
    assert Filters(c, {}) == {} && Nats(c, {}) == {};
    var chain, natChain := FilterChain(c), NatChain(c);
    var f := new ChainTable(filterRules, FORWARD, chain, Hook(chain), {Hook(chain)});
    var n := new ChainTable(natRules, POSTROUTING, natChain, Hook(natChain), {Hook(natChain), Legacy(c)});
    d := new ExitDriver(c, f, n);
  }
}
