// internal/pbr/drivers.go and operations.go: the linux-edge driver. It marks
// packets to the networks, and an ip rule sends marked packets to a table.
module Edge {
  import opened Strings
  import opened Networks
  import opened Packets
  import opened Commands
  import opened Tables
  import opened IpRules

  // None is a field left out of the configuration file.
  datatype EdgeConfig = EdgeConfig(
    interface: string, nextHop: string, sourceNet: string, baseAllowed: seq<string>,
    chain: Option<string>, table: Option<string>, mark: Option<Word>, mask: Option<Word>,
    priority: Option<int>, input: Option<string>)

  function Or<T>(value: Option<T>, default: T): T {
    if value.Some? then value.value else default
  }

  // withEdgeDefaults
  function MarkChain(c: EdgeConfig): string {
    Or(c.chain, "STREAM_PBR")
  }

  function Spec(c: EdgeConfig): RuleSpec {
    RuleSpec(Or(c.priority, 12020), Or(c.mark, Word(0x2000_0000)), Or(c.mask, Word(0xff00_0000)), Or(c.table, "202"))
  }

  const PREROUTING := "PREROUTING"

  function EdgeHook(c: EdgeConfig): Rule {
    Rule(Some(Or(c.input, "br+")), Some(c.sourceNet), None, None, Jump(MarkChain(c)))
  }

  function DefaultRoute(c: EdgeConfig): string {
    if c.nextHop != "" then "via " + c.nextHop + " dev " + c.interface + " onlink" else "dev " + c.interface
  }

  function EdgeMarks(c: EdgeConfig, nets: seq<string>): seq<Rule> {
    PerNetwork(None, nets, None, SetXMark(Spec(c).mark, Spec(c).mask))
  }

  // ---- what the chain does to a mark ----

  function ClearBits(a: bv32, mask: bv32): bv32 {
    a & !mask
  }

  function XorBits(a: bv32, b: bv32): bv32 {
    a ^ b
  }

  // --set-xmark value/mask
  function XMark(m: Word, value: Word, mask: Word): Word {
    Word(XorBits(ClearBits(m.bits, mask.bits), value.bits))
  }

  // MARK does not end the walk, so every matching rule applies.
  function MarkAfter(rules: seq<Rule>, p: Packet, m: Word): Word {
    if rules == [] then m
    else
      var last := rules[|rules| - 1];
      var before := MarkAfter(rules[..|rules| - 1], p, m);
      if Matches(last, p) && last.target.SetXMark? then XMark(before, last.target.value, last.target.mask) else before
  }

  function Hits(nets: seq<string>, x: IPv4): nat {
    if nets == [] then 0
    else Hits(nets[..|nets| - 1], x) + if Covers(nets[|nets| - 1], x) then 1 else 0
  }

  // fwmark value/mask
  predicate Selects(s: RuleSpec, m: Word) {
    m.bits & s.mask.bits == s.mark.bits & s.mask.bits
  }

  // The bits the rule's mask leaves out.
  function Outside(s: RuleSpec, m: Word): Word {
    Word(ClearBits(m.bits, s.mask.bits))
  }

  function Xor(a: Word, b: Word): Word {
    Word(XorBits(a.bits, b.bits))
  }

  lemma {:induction false} HitsMeaning(nets: seq<string>, x: IPv4)
    ensures Hits(nets, x) > 0 <==> InUnion(nets, x)
  {
    hide Covers;
    if nets == [] {
    } else {
      var front, last := nets[..|nets| - 1], nets[|nets| - 1];
      assert nets == front + [last];
      HitsMeaning(front, x);
    }
  }

  lemma MaskedBits(m: bv32, value: bv32, mask: bv32)
    ensures XorBits(ClearBits(m, mask), value) & mask == value & mask
  {
  }

  lemma ClearDistributes(a: bv32, b: bv32, mask: bv32)
    ensures ClearBits(XorBits(a, b), mask) == XorBits(ClearBits(a, mask), ClearBits(b, mask))
  {
  }

  lemma ClearTwice(a: bv32, mask: bv32)
    ensures ClearBits(ClearBits(a, mask), mask) == ClearBits(a, mask)
  {
  }

  lemma XMarkSelects(s: RuleSpec, m: Word)
    ensures Selects(s, XMark(m, s.mark, s.mask))
  {
    hide XorBits, ClearBits;
    MaskedBits(m.bits, s.mark.bits, s.mask.bits);
  }

  lemma XMarkOutside(s: RuleSpec, m: Word)
    ensures Outside(s, XMark(m, s.mark, s.mask)) == Xor(Outside(s, m), Outside(s, s.mark))
  {
    hide XorBits, ClearBits;
    ClearDistributes(ClearBits(m.bits, s.mask.bits), s.mark.bits, s.mask.bits);
    ClearTwice(m.bits, s.mask.bits);
  }

  lemma XorCancels(a: bv32, b: bv32)
    ensures (a ^ b) ^ b == a && a ^ 0 == a
  {
  }

  lemma XorMoves(a: bv32, b: bv32)
    requires a ^ b == a
    ensures b == 0
  {
  }

  lemma XorTwice(a: Word, b: Word)
    ensures Xor(Xor(a, b), b) == a && Xor(a, Word(0)) == a
  {
    XorCancels(a.bits, b.bits);
  }

  lemma XorSame(a: Word, b: Word)
    requires Xor(a, b) == a
    ensures b == Word(0)
  {
    XorMoves(a.bits, b.bits);
  }

  lemma MarkStep(c: EdgeConfig, front: seq<string>, last: string, p: Packet, m: Word)
    ensures var before := MarkAfter(EdgeMarks(c, front), p, m);
            MarkAfter(EdgeMarks(c, front + [last]), p, m) ==
            if Covers(last, p.dst) then XMark(before, Spec(c).mark, Spec(c).mask) else before
  {
    hide Covers, XMark, Spec, Named;
    var rules := EdgeMarks(c, front);
    var rule := Rule(None, None, Some(last), None, SetXMark(Spec(c).mark, Spec(c).mask));
    assert (front + [last])[..|front|] == front;
    assert EdgeMarks(c, front + [last]) == rules + [rule] && (rules + [rule])[..|rules|] == rules;
  }

  // For every list, packet and starting mark: without a matching network the
  // mark stays; with one it is a mark the ip rule selects; and the bits outside
  // the mask flip with every match by the value's bits there.
  lemma {:induction false} MarkMeaning(c: EdgeConfig, nets: seq<string>, p: Packet, m: Word)
    ensures var after, s, n := MarkAfter(EdgeMarks(c, nets), p, m), Spec(c), Hits(nets, p.dst);
            && (n == 0 ==> after == m)
            && (n > 0 ==> Selects(s, after))
            && Outside(s, after) == if n % 2 == 0 then Outside(s, m) else Xor(Outside(s, m), Outside(s, s.mark))
  {
    hide Covers, XMark, Selects, Spec, EdgeMarks, Outside, Xor;
    if nets == [] {
      NoMarks(c, p, m);
    } else {
      var front, last, s := nets[..|nets| - 1], nets[|nets| - 1], Spec(c);
      assert nets == front + [last];
      MarkMeaning(c, front, p, m);
      MarkStep(c, front, last, p, m);
      // One match: the masked bits become the value's, the others flip by its bits.
      XMarkSelects(s, MarkAfter(EdgeMarks(c, front), p, m));
      XMarkOutside(s, MarkAfter(EdgeMarks(c, front), p, m));
      XorTwice(Outside(s, m), Outside(s, s.mark));
    }
  }

  lemma NoMarks(c: EdgeConfig, p: Packet, m: Word)
    ensures MarkAfter(EdgeMarks(c, []), p, m) == m
  {
    hide Matches, XMark;
  }

  // The bits outside the mask survive exactly when an even number of networks
  // match or the mark has no bits there; then however many overlap.
  lemma OutsideKeptExactly(c: EdgeConfig, nets: seq<string>, p: Packet, m: Word)
    ensures Outside(Spec(c), MarkAfter(EdgeMarks(c, nets), p, m)) == Outside(Spec(c), m) <==>
            Hits(nets, p.dst) % 2 == 0 || Outside(Spec(c), Spec(c).mark) == Word(0)
  {
    hide Outside, Xor, Spec, EdgeMarks, MarkAfter;
    MarkMeaning(c, nets, p, m);
    var o, v := Outside(Spec(c), m), Outside(Spec(c), Spec(c).mark);
    XorTwice(o, v);
    if Xor(o, v) == o {
      XorSame(o, v);
    }
  }

  predicate DefaultSpec(s: RuleSpec) {
    s.mark == Word(0x2000_0000) && s.mask == Word(0xff00_0000)
  }

  lemma DefaultMarks(c: EdgeConfig)
    requires c.mark == c.mask == None
    ensures DefaultSpec(Spec(c)) && Outside(Spec(c), Spec(c).mark) == Word(0)
  {
  }

  function Low(m: Word): Word {
    Word(m.bits & 0x00ff_ffff)
  }

  function High(m: Word): Word {
    Word(m.bits & 0xff00_0000)
  }

  lemma DefaultLow(s: RuleSpec, after: Word, m: Word)
    requires DefaultSpec(s) && Outside(s, after) == Outside(s, m)
    ensures Low(after) == Low(m)
  {
  }

  lemma DefaultHigh(s: RuleSpec, m: Word)
    requires DefaultSpec(s) && Selects(s, m)
    ensures High(m) == Word(0x2000_0000)
  {
  }

  // The default mark lies inside the default mask, so the low three octets of
  // every mark survive, and the high one tells whether a network matched.
  lemma DefaultsKeepOutside(c: EdgeConfig, nets: seq<string>, p: Packet, m: Word)
    requires c.mark == c.mask == None
    ensures var after := MarkAfter(EdgeMarks(c, nets), p, m);
            Low(after) == Low(m) && (if InUnion(nets, p.dst) then High(after) == Word(0x2000_0000) else after == m)
  {
    hide *;
    var after := MarkAfter(EdgeMarks(c, nets), p, m);
    DefaultMarks(c);
    MarkMeaning(c, nets, p, m);
    HitsMeaning(nets, p.dst);
    OutsideKeptExactly(c, nets, p, m);
    DefaultLow(Spec(c), after, m);
    if InUnion(nets, p.dst) {
      DefaultHigh(Spec(c), after);
    }
  }

  // ---- the driver ----

  datatype EdgeAnswers = EdgeAnswers(
    route: Answer, listed: bool, rules: seq<Answer>, chainProbe: Probe, newChain: Answer, restored: bool,
    hookProbe: Probe, hook: Answer)

  datatype EdgeCleanupAnswers = EdgeCleanupAnswers(
    hookProbe: Probe, unhook: Answer, chainProbe: Probe, flush: Answer, remove: Answer,
    listed: bool, rules: seq<Answer>, routesListed: bool, route: Answer, peer: Answer)

  function Marks(c: EdgeConfig, given: set<seq<string>>): set<seq<Rule>> {
    set nets | nets in given :: EdgeMarks(c, nets)
  }

  function EdgePlace(c: EdgeConfig, given: set<seq<string>>): Place {
    Place(PREROUTING, MarkChain(c), EdgeHook(c), {EdgeHook(c)}, Marks(c, given))
  }

  class EdgeDriver {
    const c: EdgeConfig
    const mangle: ChainTable
    const policy: PolicyRules
    // The default route of each routing table, and the peer's allowed-ips.
    var routes: map<string, string>
    var allowedIps: seq<string>
    ghost var given: set<seq<string>>

    // PREROUTING has jumped to the chain at most once, and only while it held
    // the complete marks of a list handed to ApplyEdge, at every instant.
    ghost predicate Valid()
      reads this, mangle
    {
      mangle.Valid() && mangle.Here() == EdgePlace(c, given)
    }

    constructor (c: EdgeConfig, mangle: ChainTable, policy: PolicyRules, routes: map<string, string>, allowedIps: seq<string>)
      requires mangle.Valid() && mangle.Here() == EdgePlace(c, {})
      ensures Valid() && this.c == c && this.mangle == mangle && this.policy == policy
      ensures this.routes == routes && this.allowedIps == allowedIps && given == {}
    {
      this.c, this.mangle, this.policy, this.routes, this.allowedIps, given := c, mangle, policy, routes, allowedIps, {};
    }

    ghost predicate Routed()
      reads this, policy
    {
      && Spec(c).table in routes && routes[Spec(c).table] == DefaultRoute(c)
      && AllOwned(Spec(c), policy.rules) && |Select(policy.rules, Spec(c).priority, true)| == 1
    }

    ghost method Give(nets: seq<string>)
      requires Valid()
      modifies this`given, mangle`full
      ensures Valid() && given == old(given) + {nets}
    {
      mangle.Allow(EdgeMarks(c, nets));
      given := given + {nets};
      assert Marks(c, given) == old(mangle.full) + {EdgeMarks(c, nets)};
    }

    // The marks as the loop writes them.
    method MarkInput(nets: seq<string>) returns (rules: seq<Rule>)
      ensures rules == EdgeMarks(c, nets)
    {
      rules := [];
      for i := 0 to |nets|
        invariant rules == EdgeMarks(c, nets[..i])
      {
        rules := rules + [Rule(None, None, Some(nets[i]), None, SetXMark(Spec(c).mark, Spec(c).mask))];
        assert nets[..i + 1][..i] == nets[..i];
      }
      assert nets[..|nets|] == nets;
    }

    predicate RouteFaultless(a: EdgeAnswers, rules: seq<IpRule>) {
      && a.route.Works? && a.listed && AllOwned(Spec(c), rules)
      && AllWork(a.rules, |Select(rules, Spec(c).priority, true)| + 1)
    }

    // The route and the rule, before any packet is marked.
    method EnsureRoute(a: EdgeAnswers) returns (ok: bool)
      modifies this`routes, policy
      ensures ok ==> Routed()
      ensures routes - {Spec(c).table} == old(routes) - {Spec(c).table}
      ensures Select(policy.rules, Spec(c).priority, false) == old(Select(policy.rules, Spec(c).priority, false))
      ensures !AllOwned(Spec(c), old(policy.rules)) ==> !ok && policy.rules == old(policy.rules)
      ensures RouteFaultless(a, old(policy.rules)) ==> ok
    {
      if a.route != Refused {
        routes := routes[Spec(c).table := DefaultRoute(c)];
      }
      if a.route != Works {
        return false;
      }
      ok := policy.EnsureIPRule(Spec(c), a.listed, a.rules);
    }

    // applyEdge, on a truthful probe of the hook. The chain is hooked only by a run that has put the route, the
    // rule and the complete chain in place, and the peer is left alone.
    method ApplyEdge(nets: seq<string>, a: EdgeAnswers) returns (ok: bool)
      requires Valid() && a.hookProbe.Honest?
      modifies this`routes, this`given, policy, mangle
      ensures Valid() && given == old(given) + {nets} && old(mangle.history) <= mangle.history
      ensures ok ==> Routed() && HookedOnce(mangle.rules, mangle.Here(), EdgeMarks(c, nets))
      ensures old(Unhooked(mangle.rules, mangle.Here())) && !Unhooked(mangle.rules, mangle.Here()) ==>
                Routed() && HookedOnce(mangle.rules, mangle.Here(), EdgeMarks(c, nets))
      ensures Select(policy.rules, Spec(c).priority, false) == old(Select(policy.rules, Spec(c).priority, false))
      ensures routes - {Spec(c).table} == old(routes) - {Spec(c).table}
      ensures RouteFaultless(a, old(policy.rules)) && a.chainProbe.Honest? && a.newChain.Works? && a.restored && a.hook.Works? ==> ok
    {
      Give(nets);
      ok := EnsureRoute(a);
      if !ok {
        return;
      }
      ok := mangle.EnsureChain(a.chainProbe, a.newChain);
      if !ok {
        return;
      }
      var rules := MarkInput(nets);
      ok := mangle.Restore(rules, a.restored);
      if !ok {
        return;
      }
      ok := mangle.HookChain(a.hookProbe, a.hook);
    }

    // The linux-edge case of Cleanup. It ends by giving the peer its base list.
    method CleanupEdge(a: EdgeCleanupAnswers) returns (ok: bool)
      requires Valid() && !a.hookProbe.Missing?
      modifies this`routes, this`allowedIps, policy, mangle`rules, mangle`history
      ensures Valid() && old(mangle.history) <= mangle.history
      ensures ok ==> Unhooked(mangle.rules, mangle.Here())
      ensures ok && !a.chainProbe.Missing? ==> MarkChain(c) !in mangle.rules
      ensures ok ==> Select(policy.rules, Spec(c).priority, true) == [] && Spec(c).table !in routes && allowedIps == c.baseAllowed
      ensures Select(policy.rules, Spec(c).priority, false) == old(Select(policy.rules, Spec(c).priority, false))
      ensures routes - {Spec(c).table} == old(routes) - {Spec(c).table}
    {
      ok := mangle.UnhookChain(a.hookProbe, a.unhook);
      if !ok {
        return;
      }
      ok := mangle.DropChain(a.chainProbe, a.flush, a.remove);
      if !ok {
        return;
      }
      ok := policy.DeleteOwnedIPRule(Spec(c), a.listed, a.rules);
      if !ok || !a.routesListed {
        return false;
      }
      if Spec(c).table in routes {
        if a.route != Refused {
          routes := routes - {Spec(c).table};
        }
        if a.route != Works {
          return false;
        }
      }
      if a.peer != Refused {
        allowedIps := c.baseAllowed;
      }
      return a.peer.Works?;
    }
  }

  // The hook takes exactly the packets from source_net that enter on the
  // configured interface.
  lemma HookMatchesExactly(c: EdgeConfig, p: Packet)
    ensures EdgeHook(c).target == Jump(MarkChain(c))
    ensures Matches(EdgeHook(c), p) <==> Covers(c.sourceNet, p.src) && Named(Or(c.input, "br+"), p.input)
  {
  }

  // The values of configuration fields, and what fields left out stand for.
  lemma EdgeDefaults(c: EdgeConfig)
    ensures MarkChain(c) == if c.chain.Some? then c.chain.value else "STREAM_PBR"
    ensures Spec(c).mark == if c.mark.Some? then c.mark.value else Word(0x2000_0000)
    ensures Spec(c).mask == if c.mask.Some? then c.mask.value else Word(0xff00_0000)
    ensures Spec(c).priority == if c.priority.Some? then c.priority.value else 12020
    ensures Spec(c).table == if c.table.Some? then c.table.value else "202"
    ensures c.input == None ==> forall n :: Named(Or(c.input, "br+"), n) <==> "br" <= n
    ensures c.nextHop == "" ==> DefaultRoute(c) == "dev " + c.interface
    ensures c.nextHop != "" ==> DefaultRoute(c) == "via " + c.nextHop + " dev " + c.interface + " onlink"
  {
    assert "br+"[..2] == "br";
  }

  // The mark after PREROUTING: rules that set marks apply in order, a jump
  // applies the marks of its chain, a verdict ends the walk.
  function MarkWalk(t: Table, rules: seq<Rule>, p: Packet, m: Word): Word
    decreases rules
  {
    if rules == [] then m
    else if !Matches(rules[0], p) then MarkWalk(t, rules[1..], p, m)
    else match rules[0].target
      case SetXMark(value, mask) => MarkWalk(t, rules[1..], p, XMark(m, value, mask))
      case Jump(chain) => MarkWalk(t, rules[1..], p, if chain in t then MarkAfter(t[chain], p, m) else m)
      case Other(_) => MarkWalk(t, rules[1..], p, m)
      case _ => m
  }

  // The rule neither changes the packet's mark nor ends the walk.
  predicate LeavesMark(r: Rule, p: Packet) {
    !Matches(r, p) || r.target.Other?
  }

  lemma {:induction false} WalkOnce(t: Table, rules: seq<Rule>, hook: Rule, p: Packet, m: Word)
    requires hook.target.Jump? && hook.target.chain in t && Copies(rules, hook) <= 1
    requires forall r | r in rules && r != hook :: LeavesMark(r, p)
    ensures MarkWalk(t, rules, p, m) ==
            if hook in rules && Matches(hook, p) then MarkAfter(t[hook.target.chain], p, m) else m
    decreases rules
  {
    hide Matches, MarkAfter, XMark;
    if rules == [] {
    } else {
      assert rules == [rules[0]] + rules[1..] && rules[0] in rules;
      assert multiset(rules) == multiset{rules[0]} + multiset(rules[1..]);
      forall r | r in rules[1..] ensures r in rules {}
      var now := if rules[0] == hook && Matches(hook, p) then MarkAfter(t[hook.target.chain], p, m) else m;
      WalkOnce(t, rules[1..], hook, p, now);
      if rules[0] == hook {
        assert multiset(rules[1..])[hook] == 0;
      }
    }
  }

  // The whole of PREROUTING after a successful run, where foreign rules leave
  // the packet's mark alone: packets from source_net on the input interface get
  // the marks of the chain, all others keep theirs.
  lemma PreroutingMarks(c: EdgeConfig, nets: seq<string>, t: Table, p: Packet, m: Word)
    requires HookedOnce(t, EdgePlace(c, {}), EdgeMarks(c, nets))
    requires forall r | r in Without(t[PREROUTING], {EdgeHook(c)}) :: LeavesMark(r, p)
    ensures MarkWalk(t, t[PREROUTING], p, m) ==
            if Covers(c.sourceNet, p.src) && Named(Or(c.input, "br+"), p.input)
            then MarkAfter(EdgeMarks(c, nets), p, m) else m
  {
    hide Covers, Named, EdgeMarks, MarkAfter, EdgeHook, MarkChain, LeavesMark;
    var rules, hook := t[PREROUTING], EdgeHook(c);
    HookMatchesExactly(c, p);
    forall r | r in rules && r != hook ensures LeavesMark(r, p) {
      WithoutKeeps(rules, {hook}, r);
    }
    WalkOnce(t, rules, hook, p, m);
  }

  // From the client to the table, after a successful run and where foreign rules
  // leave the mark alone: a packet from source_net on the input interface to a
  // network of the list comes out of PREROUTING with a mark that the one owned
  // rule selects into the table that routes to the interface. Every other packet
  // comes out with the mark it had.
  lemma EdgeRoutes(d: EdgeDriver, nets: seq<string>, p: Packet, m: Word)
    requires d.Valid() && d.Routed() && HookedOnce(d.mangle.rules, d.mangle.Here(), EdgeMarks(d.c, nets))
    requires forall r | r in Without(d.mangle.rules[PREROUTING], {EdgeHook(d.c)}) :: LeavesMark(r, p)
    ensures var after := MarkWalk(d.mangle.rules, d.mangle.rules[PREROUTING], p, m);
            if Covers(d.c.sourceNet, p.src) && Named(Or(d.c.input, "br+"), p.input) && InUnion(nets, p.dst)
            then exists r | r in d.policy.rules ::
                   Owned(Spec(d.c), r) && Selects(Spec(d.c), after) && r.table in d.routes && d.routes[r.table] == DefaultRoute(d.c)
            else after == m
  {
    hide Covers, Named, InUnion, EdgeMarks, MarkAfter, MarkWalk, LeavesMark, Selects, Spec, DefaultRoute;
    var own := Select(d.policy.rules, Spec(d.c).priority, true);
    SelectIn(d.policy.rules, Spec(d.c).priority, own[0]);
    PreroutingMarks(d.c, nets, d.mangle.rules, p, m);
    MarkMeaning(d.c, nets, p, m);
    HitsMeaning(nets, p.dst);
  }

  // The same for the defaults, written out: clients on a bridge, the mark in the
  // high octet, the one rule and the one route.
  lemma DefaultEdgeRoutes(d: EdgeDriver, nets: seq<string>, p: Packet, m: Word)
    requires d.Valid() && d.Routed() && HookedOnce(d.mangle.rules, d.mangle.Here(), EdgeMarks(d.c, nets))
    requires forall r | r in Without(d.mangle.rules[PREROUTING], {EdgeHook(d.c)}) :: LeavesMark(r, p)
    requires d.c.mark == d.c.mask == None && d.c.priority == None && d.c.table == d.c.input == None
    ensures IpRule(12020, "", Some(Word(0x2000_0000)), Some(Word(0xff00_0000)), "202") in d.policy.rules
    ensures "202" in d.routes
    ensures d.routes["202"] == (if d.c.nextHop == "" then "dev " + d.c.interface else "via " + d.c.nextHop + " dev " + d.c.interface + " onlink")
    ensures var after := MarkWalk(d.mangle.rules, d.mangle.rules[PREROUTING], p, m);
            if Covers(d.c.sourceNet, p.src) && "br" <= p.input && InUnion(nets, p.dst)
            then High(after) == Word(0x2000_0000) && Low(after) == Low(m) else after == m
  {
    hide Covers, Named, InUnion, EdgeMarks, MarkAfter, MarkWalk, LeavesMark, Spec, DefaultRoute, High, Low;
    EdgeDefaults(d.c);
    var own := Select(d.policy.rules, Spec(d.c).priority, true);
    SelectIn(d.policy.rules, Spec(d.c).priority, own[0]);
    OwnedExactly(Spec(d.c), own[0]);
    PreroutingMarks(d.c, nets, d.mangle.rules, p, m);
    DefaultsKeepOutside(d.c, nets, p, m);
  }

  lemma {:induction false} SelectIn(rules: seq<IpRule>, priority: int, r: IpRule)
    requires r in Select(rules, priority, true)
    ensures r in rules && r.priority == priority
  {
    if rules[0] == r && rules[0].priority == priority {
    } else {
      SelectIn(rules[1..], priority, r);
    }
  }
}
