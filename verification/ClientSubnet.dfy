// internal/pbr/dns_proxy.go: the client subnet option of a forwarded query.
module ClientSubnet {
  import opened Strings
  import opened Networks

  datatype EdnsOption = Subnet(family: nat, netmask: nat, address: IPv4) | OtherOption(code: nat, data: seq<bv8>)

  // The other options, in order.
  function Others(options: seq<EdnsOption>): seq<EdnsOption> {
    if options == [] then []
    else Others(options[..|options| - 1]) + if options[|options| - 1].Subnet? then [] else [options[|options| - 1]]
  }

  // None is a query without an OPT record, or a client without an IPv4 address.
  function WithSubnet(options: Option<seq<EdnsOption>>, client: Option<IPv4>): Option<seq<EdnsOption>> {
    if client.None? then options
    else Some(Others(if options.Some? then options.value else []) + [Subnet(1, 32, client.value)])
  }

  lemma {:induction false} OthersOf(options: seq<EdnsOption>)
    ensures forall o :: o in Others(options) <==> o in options && !o.Subnet?
    ensures |Others(options)| <= |options|
    ensures (forall o | o in options :: !o.Subnet?) ==> Others(options) == options
  {
    if options == [] {
    } else {
      var front, last := options[..|options| - 1], options[|options| - 1];
      assert options == front + [last];
      OthersOf(front);
    }
  }

  // What is kept is kept in order, and the query of a client without an IPv4
  // address is not touched.
  lemma {:induction false} OthersInOrder(a: seq<EdnsOption>, b: seq<EdnsOption>, o: EdnsOption)
    ensures Others(a + b) == Others(a) + Others(b)
    ensures Others([o]) == if o.Subnet? then [] else [o]
    ensures WithSubnet(Some(a), None) == Some(a) && WithSubnet(None, None) == None
  {
    assert [o][..0] == [];
    if b == [] {
      assert a + b == a;
    } else {
      assert (a + b)[..|a + b| - 1] == a + b[..|b| - 1];
      OthersInOrder(a, b[..|b| - 1], o);
    }
  }

  // The query carries one subnet option, the client's own, whatever the client
  // sent; adding it again changes nothing.
  lemma OneSubnet(options: Option<seq<EdnsOption>>, client: IPv4)
    ensures var sent := WithSubnet(options, Some(client)).value;
            && (forall i | 0 <= i < |sent| :: sent[i].Subnet? <==> i == |sent| - 1)
            && sent[|sent| - 1] == Subnet(1, 32, client)
            && sent[..|sent| - 1] == Others(if options.Some? then options.value else [])
            && WithSubnet(Some(sent), Some(client)) == Some(sent)
  {
    hide Others;
    var had := if options.Some? then options.value else [];
    var kept, own := Others(had), Subnet(1, 32, client);
    OthersOf(had);
    OthersOf(kept);
    OthersInOrder(kept, [own], own);
    assert Others(kept + [own]) == kept + [] == kept;
    forall i | 0 <= i < |kept| ensures !kept[i].Subnet? {
      assert kept[i] in kept;
    }
    assert (kept + [own])[..|kept|] == kept;
  }

  // The loop of addClientSubnet: it filters the slice within its own array and
  // appends, in place when the filter has freed a cell.
  method AddClientSubnet(options: array<EdnsOption>, client: IPv4) returns (sent: array<EdnsOption>, n: nat)
    modifies options
    ensures sent == options || fresh(sent)
    ensures n <= sent.Length && Some(sent[..n]) == WithSubnet(Some(old(options[..])), Some(client))
  {
    ghost var had := options[..];
    n := 0;
    for i := 0 to options.Length
      invariant n <= i
      invariant options[..n] == Others(had[..i])
      invariant forall j | i <= j < options.Length :: options[j] == had[j]
    {
      assert had[..i + 1][..i] == had[..i];
      if !options[i].Subnet? {
        options[n] := options[i];
        n := n + 1;
      }
    }
    assert had[..options.Length] == had;
    var own := Subnet(1, 32, client);
    if n < options.Length {
      options[n] := own;
      sent := options;
    } else {
      sent := new EdnsOption[n + 1](i requires 0 <= i <= n reads options => if i < options.Length then options[i] else own);
    }
    n := n + 1;
    assert sent[..n] == Others(had) + [own];
  }
}
