// internal/pbr/drivers.go: the nft-exit driver, one atomic transaction on a
// table of its own, and its removal in operations.go.
module NftExit {
  import opened Strings
  import opened Networks
  import opened Packets
  import opened Commands
  import opened LinuxExit

  // A rule of the owned table; inSet tests the destination against its set.
  datatype SetRule = SetRule(source: string, inSet: bool, output: Option<string>, target: Target)

  datatype NftTable = NftTable(elements: Option<seq<string>>, chains: map<string, seq<SetRule>>)

  datatype NftCommand =
    | DeleteTable
    | AddTable
    | AddSet
    | AddElements(nets: seq<string>)
    | AddChain(name: string)
    | AddRule(name: string, rule: SetRule)

  const FORWARD_CHAIN := "forward"
  const POSTROUTING_CHAIN := "postrouting"

  // Adding a table, set or chain that is there already changes nothing. None is
  // a refused transaction.
  function Execute(t: Option<NftTable>, command: NftCommand): Option<Option<NftTable>> {
    match command
    case DeleteTable => if t.Some? then Some(None) else None
    case AddTable => if t.Some? then Some(t) else Some(Some(NftTable(None, map[])))
    case AddSet =>
      if t.None? then None
      else if t.value.elements.Some? then Some(t)
      else Some(Some(t.value.(elements := Some([]))))
    case AddElements(nets) =>
      if t.None? || t.value.elements.None? then None
      else Some(Some(t.value.(elements := Some(t.value.elements.value + nets))))
    case AddChain(name) =>
      if t.None? then None
      else if name in t.value.chains then Some(t)
      else Some(Some(t.value.(chains := t.value.chains[name := []])))
    case AddRule(name, rule) =>
      if t.None? || name !in t.value.chains then None
      else Some(Some(t.value.(chains := t.value.chains[name := t.value.chains[name] + [rule]])))
  }

  function ExecuteAll(t: Option<NftTable>, script: seq<NftCommand>): Option<Option<NftTable>>
    decreases script
  {
    if script == [] then Some(t)
    else match Execute(t, script[0])
      case None => None
      case Some(next) => ExecuteAll(next, script[1..])
  }

  function AcceptRule(c: ExitConfig): SetRule {
    SetRule(c.sourceNet, true, None, Accept)
  }

  function DropRule(c: ExitConfig): SetRule {
    SetRule(c.sourceNet, false, None, Drop)
  }

  function MasqueradeRule(c: ExitConfig): SetRule {
    SetRule(c.sourceNet, true, Some(c.wan), Masquerade)
  }

  // ---- what the table does to a packet ----

  predicate SetMatches(r: SetRule, elements: seq<string>, p: Packet) {
    Covers(r.source, p.src) && (r.inSet ==> InUnion(elements, p.dst)) && (r.output.Some? ==> Named(r.output.value, p.output))
  }

  function SetDecide(rules: seq<SetRule>, elements: seq<string>, p: Packet): Decision {
    if rules == [] then Returned
    else if !SetMatches(rules[0], elements, p) then SetDecide(rules[1..], elements, p)
    else match rules[0].target
      case Accept => Accepted
      case Drop => Dropped
      case Masquerade => Masqueraded
      case Return => Returned
      case _ => SetDecide(rules[1..], elements, p)
  }

  // The rules as n runs that found no table leave them.
  function Repeat(rules: seq<SetRule>, n: nat): seq<SetRule> {
    if n == 0 then [] else rules + Repeat(rules, n - 1)
  }

  lemma {:induction false} RepeatMore(rules: seq<SetRule>, n: nat)
    ensures Repeat(rules, n) + rules == Repeat(rules, n + 1)
  {
    if n > 0 {
      RepeatMore(rules, n - 1);
      assert rules + Repeat(rules, n - 1) + rules == rules + (Repeat(rules, n - 1) + rules);
    } else {
      assert Repeat(rules, 1) == rules + [];
    }
  }

  predicate Compiled(c: ExitConfig, t: NftTable, n: nat) {
    && t.elements.Some? && t.chains.Keys == {FORWARD_CHAIN, POSTROUTING_CHAIN}
    && t.chains[FORWARD_CHAIN] == Repeat([AcceptRule(c), DropRule(c)], n)
    && t.chains[POSTROUTING_CHAIN] == Repeat([MasqueradeRule(c)], n)
  }

  lemma {:induction false} ForwardDecides(c: ExitConfig, elements: seq<string>, n: nat, p: Packet)
    requires n > 0
    ensures SetDecide(Repeat([AcceptRule(c), DropRule(c)], n), elements, p) ==
            if !Covers(c.sourceNet, p.src) then Returned else if InUnion(elements, p.dst) then Accepted else Dropped
  {
    hide Covers, InUnion, Named;
    var rules := Repeat([AcceptRule(c), DropRule(c)], n);
    var rest := Repeat([AcceptRule(c), DropRule(c)], n - 1);
    assert rules[0] == AcceptRule(c) && rules[1..] == [DropRule(c)] + rest && rules[1..][1..] == rest;
    assert SetDecide(rules[1..], elements, p) == if Covers(c.sourceNet, p.src) then Dropped else SetDecide(rest, elements, p);
    if n == 1 {
      assert rest == [];
    } else {
      ForwardDecides(c, elements, n - 1, p);
    }
  }

  lemma {:induction false} PostroutingDecides(c: ExitConfig, elements: seq<string>, n: nat, p: Packet)
    requires n > 0
    ensures SetDecide(Repeat([MasqueradeRule(c)], n), elements, p) ==
            if Covers(c.sourceNet, p.src) && InUnion(elements, p.dst) && Named(c.wan, p.output) then Masqueraded else Returned
  {
    hide Covers, InUnion, Named;
    var rules := Repeat([MasqueradeRule(c)], n);
    assert rules[1..] == Repeat([MasqueradeRule(c)], n - 1);
    if n > 1 {
      PostroutingDecides(c, elements, n - 1, p);
    } else {
      assert rules[1..] == [];
    }
  }

  // Chain for chain the table decides every packet like the linux-exit chains
  // compiled from the set's elements.
  lemma SameDecisions(c: ExitConfig, t: NftTable, n: nat, p: Packet)
    requires n > 0 && Compiled(c, t, n)
    ensures SetDecide(t.chains[FORWARD_CHAIN], t.elements.value, p) == Decide(ExitFilter(c, t.elements.value), p)
    ensures SetDecide(t.chains[POSTROUTING_CHAIN], t.elements.value, p) == Decide(ExitNat(c, t.elements.value), p)
  {
    hide Covers, InUnion, Named;
    ForwardDecides(c, t.elements.value, n, p);
    PostroutingDecides(c, t.elements.value, n, p);
    ExitFilterMeaning(c, t.elements.value, p);
    ExitNatMeaning(c, t.elements.value, p);
  }

  // ---- the transaction ----

  function Script(c: ExitConfig, found: bool, nets: seq<string>): seq<NftCommand> {
    (if found then [DeleteTable] else [])
    + [AddTable, AddSet]
    + (if |nets| > 0 then [AddElements(nets)] else [])
    + [AddChain(FORWARD_CHAIN), AddRule(FORWARD_CHAIN, AcceptRule(c)), AddRule(FORWARD_CHAIN, DropRule(c)),
       AddChain(POSTROUTING_CHAIN), AddRule(POSTROUTING_CHAIN, MasqueradeRule(c))]
  }

  lemma {:induction false} ExecuteConcat(t: Option<NftTable>, a: seq<NftCommand>, b: seq<NftCommand>)
    ensures ExecuteAll(t, a + b) == match ExecuteAll(t, a) case None => None case Some(u) => ExecuteAll(u, b)
    decreases a
  {
    if a == [] {
      assert a + b == b;
    } else {
      assert (a + b)[1..] == a[1..] + b;
      if Execute(t, a[0]).Some? {
        ExecuteConcat(Execute(t, a[0]).value, a[1..], b);
      }
    }
  }

  // What the table held before the transaction, as far as it survives.
  function Carried(t: Option<NftTable>, found: bool): seq<string> {
    if found || t.None? || t.value.elements.None? then [] else t.value.elements.value
  }

  predicate NftGood(c: ExitConfig, t: Option<NftTable>, n: nat) {
    t.Some? ==> n > 0 && Compiled(c, t.value, n)
  }

  // The copies of the rules a transaction leaves.
  function CopiesAfter(t: Option<NftTable>, found: bool, n: nat): nat {
    if found || t.None? then 1 else n + 1
  }

  lemma Prepared(c: ExitConfig, t: Option<NftTable>, found: bool, nets: seq<string>) returns (u: NftTable)
    requires found ==> t.Some?
    requires t.Some? ==> t.value.elements.Some?
    ensures ExecuteAll(t, (if found then [DeleteTable] else []) + [AddTable, AddSet] + (if |nets| > 0 then [AddElements(nets)] else []))
            == Some(Some(u))
    ensures u.elements == Some(Carried(t, found) + nets)
    ensures u.chains == if found || t.None? then map[] else t.value.chains
  {
    var first := if found then None else t;
    var start: seq<NftCommand> := if found then [DeleteTable] else [];
    assert found ==> [DeleteTable][1..] == [];
    assert ExecuteAll(t, start) == Some(first);
    var added := if first.Some? then first.value else NftTable(Some([]), map[]);
    assert [AddTable, AddSet][1..] == [AddSet] && [AddSet][1..] == [];
    assert ExecuteAll(first, [AddTable, AddSet]) == Some(Some(added));
    ExecuteConcat(t, start, [AddTable, AddSet]);
    u := added.(elements := Some(added.elements.value + nets));
    var fill: seq<NftCommand> := if |nets| > 0 then [AddElements(nets)] else [];
    assert |nets| > 0 ==> [AddElements(nets)][1..] == [];
    assert |nets| == 0 ==> added.elements.value + nets == added.elements.value;
    assert ExecuteAll(Some(added), fill) == Some(Some(u));
    ExecuteConcat(t, start + [AddTable, AddSet], fill);
    assert Carried(t, found) == added.elements.value;
  }

  lemma RulesAdded(c: ExitConfig, u: NftTable)
    requires u.elements.Some? && (u.chains == map[] || u.chains.Keys == {FORWARD_CHAIN, POSTROUTING_CHAIN})
    ensures var old0 := if FORWARD_CHAIN in u.chains then u.chains[FORWARD_CHAIN] else [];
            var old1 := if POSTROUTING_CHAIN in u.chains then u.chains[POSTROUTING_CHAIN] else [];
            ExecuteAll(Some(u), [AddChain(FORWARD_CHAIN), AddRule(FORWARD_CHAIN, AcceptRule(c)), AddRule(FORWARD_CHAIN, DropRule(c)),
                                 AddChain(POSTROUTING_CHAIN), AddRule(POSTROUTING_CHAIN, MasqueradeRule(c))])
            == Some(Some(u.(chains := map[FORWARD_CHAIN := old0 + [AcceptRule(c), DropRule(c)],
                                          POSTROUTING_CHAIN := old1 + [MasqueradeRule(c)]])))
  {
    hide AcceptRule, DropRule, MasqueradeRule;
    var last := [AddRule(POSTROUTING_CHAIN, MasqueradeRule(c))];
    var four := [AddChain(POSTROUTING_CHAIN)] + last;
    var three := [AddRule(FORWARD_CHAIN, DropRule(c))] + four;
    var two := [AddRule(FORWARD_CHAIN, AcceptRule(c))] + three;
    var one := [AddChain(FORWARD_CHAIN)] + two;
    assert one == [AddChain(FORWARD_CHAIN), AddRule(FORWARD_CHAIN, AcceptRule(c)), AddRule(FORWARD_CHAIN, DropRule(c)),
                   AddChain(POSTROUTING_CHAIN), AddRule(POSTROUTING_CHAIN, MasqueradeRule(c))];
    assert one[1..] == two && two[1..] == three && three[1..] == four && four[1..] == last && last[1..] == [];
    var old0 := if FORWARD_CHAIN in u.chains then u.chains[FORWARD_CHAIN] else [];
    var old1 := if POSTROUTING_CHAIN in u.chains then u.chains[POSTROUTING_CHAIN] else [];
    assert old0 + [AcceptRule(c)] + [DropRule(c)] == old0 + [AcceptRule(c), DropRule(c)];
    var u1 := u.(chains := u.chains[FORWARD_CHAIN := old0]);
    assert FORWARD_CHAIN in u.chains ==> u.chains[FORWARD_CHAIN := old0] == u.chains;
    assert Execute(Some(u), one[0]) == Some(Some(u1));
    var u3 := u1.(chains := u1.chains[FORWARD_CHAIN := old0 + [AcceptRule(c), DropRule(c)]]);
    var u2 := u1.(chains := u1.chains[FORWARD_CHAIN := old0 + [AcceptRule(c)]]);
    assert u2.chains[FORWARD_CHAIN := old0 + [AcceptRule(c), DropRule(c)]] == u3.chains;
    assert Execute(Some(u1), two[0]) == Some(Some(u2)) && Execute(Some(u2), three[0]) == Some(Some(u3));
    var u4 := u3.(chains := u3.chains[POSTROUTING_CHAIN := old1]);
    assert POSTROUTING_CHAIN in u.chains ==> u3.chains[POSTROUTING_CHAIN := old1] == u3.chains;
    assert Execute(Some(u3), four[0]) == Some(Some(u4));
    var u5 := u4.(chains := u4.chains[POSTROUTING_CHAIN := old1 + [MasqueradeRule(c)]]);
    assert Execute(Some(u4), last[0]) == Some(Some(u5));
    assert u5.chains == map[FORWARD_CHAIN := old0 + [AcceptRule(c), DropRule(c)], POSTROUTING_CHAIN := old1 + [MasqueradeRule(c)]];
    assert ExecuteAll(Some(u4), last) == Some(Some(u5));
    assert ExecuteAll(Some(u3), four) == Some(Some(u5));
    assert ExecuteAll(Some(u2), three) == Some(Some(u5));
    assert ExecuteAll(Some(u1), two) == Some(Some(u5));
  }

  // The whole transaction on a table the driver left. After a probe that finds
  // the table it replaces the set; after one that wrongly does not, the old
  // destinations stay in it.
  lemma ScriptResult(c: ExitConfig, t: Option<NftTable>, n: nat, found: bool, nets: seq<string>)
    requires NftGood(c, t, n) && (found ==> t.Some?)
    ensures var r := ExecuteAll(t, Script(c, found, nets));
            && r.Some? && r.value.Some? && r.value.value.elements == Some(Carried(t, found) + nets)
            && NftGood(c, r.value, CopiesAfter(t, found, n))
  {
    hide Execute, ExecuteAll;
    var u := Prepared(c, t, found, nets);
    RulesAdded(c, u);
    ExecuteConcat(t, (if found then [DeleteTable] else []) + [AddTable, AddSet] + (if |nets| > 0 then [AddElements(nets)] else []),
      [AddChain(FORWARD_CHAIN), AddRule(FORWARD_CHAIN, AcceptRule(c)), AddRule(FORWARD_CHAIN, DropRule(c)),
       AddChain(POSTROUTING_CHAIN), AddRule(POSTROUTING_CHAIN, MasqueradeRule(c))]);
    if found || t.None? {
      RepeatMore([AcceptRule(c), DropRule(c)], 0);
      RepeatMore([MasqueradeRule(c)], 0);
    } else {
      RepeatMore([AcceptRule(c), DropRule(c)], n);
      RepeatMore([MasqueradeRule(c)], n);
    }
  }

  // ---- the driver ----

  class NftKernel {
    const c: ExitConfig
    var table: Option<NftTable>
    ghost var copies: nat
    ghost var given: set<seq<string>>

    // The table is absent, or it holds complete rules and a set whose elements
    // all come from the lists handed to the driver.
    ghost predicate Valid()
      reads this
    {
      NftGood(c, table, copies) &&
      (table.Some? ==> forall x | x in table.value.elements.value :: exists nets | nets in given :: x in nets)
    }

    constructor (c: ExitConfig)
      ensures Valid() && this.c == c && table == None && given == {}
    {
      this.c := c;
      table, copies, given := None, 0, {};
    }

    // The text handed to nft -f -.
    method Transaction(found: bool, nets: seq<string>) returns (script: seq<NftCommand>)
      ensures script == Script(c, found, nets)
    {
      script := [];
      if found {
        script := script + [DeleteTable];
      }
      script := script + [AddTable];
      script := script + [AddSet];
      if |nets| > 0 {
        script := script + [AddElements(nets)];
      }
      script := script + [AddChain(FORWARD_CHAIN)];
      script := script + [AddRule(FORWARD_CHAIN, AcceptRule(c))];
      script := script + [AddRule(FORWARD_CHAIN, DropRule(c))];
      script := script + [AddChain(POSTROUTING_CHAIN)];
      script := script + [AddRule(POSTROUTING_CHAIN, MasqueradeRule(c))];
    }

    // applyNFTExit. The set refuses overlapping intervals, which is one way for
    // answer not to be Works.
    method ApplyNFTExit(nets: seq<string>, probe: Probe, answer: Answer) returns (ok: bool)
      requires Valid()
      modifies this
      ensures Valid() && given == old(given) + {nets}
      ensures ok <==> answer.Works?
      ensures answer.Refused? ==> table == old(table)
      ensures !answer.Refused? ==>
        table.Some? && table.value.elements == Some(Carried(old(table), Found(probe, old(table).Some?)) + nets)
      ensures !answer.Refused? && probe.Honest? ==> table.value.elements == Some(nets)
    {
      given := given + {nets};
      var found := Found(probe, table.Some?);
      var script := Transaction(found, nets);
      ScriptResult(c, table, copies, found, nets);
      assert [] + nets == nets;
      if answer != Refused {
        copies := CopiesAfter(table, found, copies);
        table := ExecuteAll(table, script).value;
      }
      return answer.Works?;
    }

    // The nft-exit case of Cleanup.
    method CleanupNFTExit(probe: Probe, answer: Answer) returns (ok: bool)
      requires Valid()
      modifies this`table
      ensures Valid() && table in {None, old(table)}
      ensures ok && !probe.Missing? ==> table == None
      ensures probe.Honest? && answer.Works? ==> ok
    {
      if probe.Broken? {
        return false;
      }
      if Found(probe, table.Some?) {
        if answer != Refused {
          table := None;
        }
        return answer.Works?;
      }
      return true;
    }
  }
}
