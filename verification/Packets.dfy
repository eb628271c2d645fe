// What the drivers' iptables rules mean for a packet.
module Packets {
  import opened Strings
  import opened Networks

  // A 32-bit packet mark, or a mask over one.
  datatype Word = Word(bits: bv32)

  datatype Packet = Packet(input: string, output: string, src: IPv4, dst: IPv4)

  datatype Target =
    | Accept
    | Drop
    | Return
    | Masquerade
    | SetXMark(value: Word, mask: Word)
    | Jump(chain: string)
    | Other(id: nat)

  // -i, -s, -d, -o and -j; None where the rule does not test.
  datatype Rule = Rule(
    input: Option<string>, source: Option<string>, destination: Option<string>, output: Option<string>, target: Target)

  datatype Decision = Accepted | Dropped | Masqueraded | Returned

  predicate Within(network: Option<string>, x: IPv4) {
    network.Some? ==> Covers(network.value, x)
  }

  // A trailing plus stands for any rest of the name.
  predicate Named(interface: string, name: string) {
    if interface != "" && interface[|interface| - 1] == '+'
    then |name| >= |interface| - 1 && name[..|interface| - 1] == interface[..|interface| - 1]
    else interface == name
  }

  predicate Matches(r: Rule, p: Packet) {
    && (r.input.Some? ==> Named(r.input.value, p.input)) && (r.output.Some? ==> Named(r.output.value, p.output))
    && Within(r.source, p.src) && Within(r.destination, p.dst)
  }

  // First match; targets that decide nothing are passed over.
  function Decide(rules: seq<Rule>, p: Packet): Decision {
    if rules == [] then Returned
    else if !Matches(rules[0], p) then Decide(rules[1..], p)
    else match rules[0].target
      case Accept => Accepted
      case Drop => Dropped
      case Masquerade => Masqueraded
      case Return => Returned
      case _ => Decide(rules[1..], p)
  }

  // The addresses a list of networks stands for together.
  predicate InUnion(nets: seq<string>, x: IPv4) {
    exists n | n in nets :: Covers(n, x)
  }

  // One rule per network, as the drivers' loops write them.
  function PerNetwork(source: Option<string>, nets: seq<string>, output: Option<string>, target: Target): seq<Rule> {
    if nets == [] then []
    else PerNetwork(source, nets[..|nets| - 1], output, target) + [Rule(None, source, Some(nets[|nets| - 1]), output, target)]
  }

  lemma {:induction false} DecideConcat(a: seq<Rule>, b: seq<Rule>, p: Packet)
    requires forall r | r in a :: Matches(r, p) ==> r.target in {Accept, Drop, Masquerade, Return}
    ensures Decide(a + b, p) == if exists r | r in a :: Matches(r, p) then Decide(a, p) else Decide(b, p)
  {
    if a == [] {
      assert a + b == b;
    } else {
      assert (a + b)[1..] == a[1..] + b;
      assert a[0] in a;
      forall r | r in a[1..] ensures r in a {}
      assert forall r | r in a :: r == a[0] || r in a[1..];
      DecideConcat(a[1..], b, p);
    }
  }

  lemma {:induction false} PerNetworkRules(source: Option<string>, nets: seq<string>, output: Option<string>, target: Target, r: Rule)
    ensures r in PerNetwork(source, nets, output, target) <==>
            r.destination.Some? && r.destination.value in nets && r == Rule(None, source, r.destination, output, target)
  {
    if nets == [] {
    } else {
      var front, last := nets[..|nets| - 1], nets[|nets| - 1];
      PerNetworkRules(source, front, output, target, r);
      assert nets == front + [last];
    }
  }

  // Rules of one terminating target decide exactly the packets to the union.
  lemma {:induction false} PerNetworkDecides(source: Option<string>, nets: seq<string>, output: Option<string>, target: Target, p: Packet)
    requires target.Accept? || target.Masquerade?
    ensures var rules := PerNetwork(source, nets, output, target);
            var hit := Within(source, p.src) && InUnion(nets, p.dst) && (output.Some? ==> Named(output.value, p.output));
            && ((exists r | r in rules :: Matches(r, p)) <==> hit)
            && (hit ==> Decide(rules, p) == if target.Accept? then Accepted else Masqueraded)
  {
    hide Covers;
    if nets == [] {
    } else {
      var front, last := nets[..|nets| - 1], nets[|nets| - 1];
      assert nets == front + [last];
      PerNetworkDecides(source, front, output, target, p);
      var rules := PerNetwork(source, front, output, target);
      var rule := Rule(None, source, Some(last), output, target);
      forall r | r in rules ensures r.target == target {
        PerNetworkRules(source, front, output, target, r);
      }
      DecideConcat(rules, [rule], p);
    }
  }
}
