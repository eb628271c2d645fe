// internal/pbr/dns_proxy.go: which answers ServeDNS writes, whatever fails.
module Serving {
  import opened Strings
  import opened Networks
  import opened NetworkSets
  import opened Node
  import opened Dns
  import opened Inspection
  import opened Protocol

  // Serving an answer with nothing to learn writes it and touches nothing else:
  // no driver, no file and no message to the controller.
  lemma NothingToLearn(s: Setup, w: World, i: nat, env: Env, rpc: Rpc)
    requires w.agent.up && i < |w.inbox|
    requires forall x :: !Learnable(w.inbox[i].message, w.inbox[i].trusted, x)
    ensures var v := Next(s, w, Serve(i, env, rpc));
            && v.served == w.served + [w.inbox[i]] && v.everServed == w.everServed + [w.inbox[i]]
            && v.agent == w.agent && v.ctrl == w.ctrl && v.aliases == w.aliases && v.inbox == w.inbox[..i] + w.inbox[i + 1..]
  {
    hide Learnable, Extracted, Converse;
    var networks := Extracted(w.inbox[i].message, w.inbox[i].trusted);
    if networks != [] {
      InspectedExactly(w.inbox[i].message, w.inbox[i].trusted, networks[0]);
    }
  }

  // An answer is written exactly when there is nothing to learn from it or
  // learning all of it succeeds, which takes the agent's drivers and, where it
  // is news, the controller's acknowledgement.
  lemma ServedExactly(s: Setup, w: World, i: nat, env: Env, rpc: Rpc, networks: seq<string>)
    requires w.agent.up && i < |w.inbox|
    requires StrictlySorted(networks)
    requires forall x :: x in networks <==> Learnable(w.inbox[i].message, w.inbox[i].trusted, x)
    ensures var v := Next(s, w, Serve(i, env, rpc));
            var e := Converse(s, w.agent.local, w.ctrl, Learn(networks), env, rpc);
            && v.served == (if networks == [] || e.ok then w.served + [w.inbox[i]] else w.served)
            && v.inbox == w.inbox[..i] + w.inbox[i + 1..]
            && (networks != [] ==> v.agent == Machine(true, e.agent) && v.ctrl == e.ctrl)
            && (networks == [] ==> v.agent == w.agent && v.ctrl == w.ctrl)
  {
    hide Learnable, Extracted, Converse, StrictlySorted, CanonList;
    OneList(w.inbox[i].message, w.inbox[i].trusted, networks);
  }

  lemma OneList(message: Message, trusted: set<string>, networks: seq<string>)
    requires StrictlySorted(networks) && forall x :: x in networks <==> Learnable(message, trusted, x)
    ensures networks == Extracted(message, trusted)
  {
    hide Learnable, Extracted, StrictlySorted;
    forall x ensures x in Extracted(message, trusted) <==> x in networks {
      InspectedExactly(message, trusted, x);
    }
    ExtractedSorted(message, trusted);
    assert Elems(networks) == Elems(Extracted(message, trusted));
    SortedUnique(networks, Extracted(message, trusted));
  }

  lemma ExtractedSorted(message: Message, trusted: set<string>)
    ensures StrictlySorted(Extracted(message, trusted))
  {
    ExtractedMeaning(message, trusted, "");
  }
}
