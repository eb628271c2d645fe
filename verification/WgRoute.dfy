// internal/pbr/drivers.go and operations.go: the wg-route driver, and what is
// left of it after Cleanup.
module WgRoute {
  import opened Strings
  import opened Networks
  import opened Packets
  import opened Commands

  datatype WgConfig = WgConfig(interface: string, baseAllowed: seq<string>)

  const EVERYTHING := "0.0.0.0/0"

  // The list given to the peer, before it is joined with commas.
  function Allowed(c: WgConfig, nets: seq<string>): seq<string> {
    if EVERYTHING in c.baseAllowed then c.baseAllowed else c.baseAllowed + nets
  }

  lemma EverythingCovers(x: IPv4)
    ensures Covers(EVERYTHING, x)
  {
    var zero: IPv4 := [0, 0, 0, 0];
    assert Decimal(0) == "0";
    assert zero[1..] == [0, 0, 0] && [0, 0, 0][1..] == [0, 0] && [0, 0][1..] == [0];
    assert RenderIP([0, 0]) == "0.0";
    assert RenderIP([0, 0, 0]) == "0.0.0";
    assert RenderIP(zero) == "0.0.0.0";
    RenderRoundTrip(zero, 0);
    assert Render(zero, 0) == EVERYTHING;
    var mask := CIDRMask(0);
    forall i | 0 <= i < 4 ensures x[i] & mask[i] == zero[i] & mask[i] {
      assert mask[i] == MaskBits(OctetBits(0, i)) == 0;
    }
    SameMask(x, zero, mask);
  }

  // Leaving the networks out of a list with 0.0.0.0/0 changes no decision, and
  // no other list leaves them out.
  lemma AllowedMeaning(c: WgConfig, nets: seq<string>, x: IPv4)
    ensures InUnion(Allowed(c, nets), x) <==> InUnion(c.baseAllowed, x) || InUnion(nets, x)
    ensures c.baseAllowed <= Allowed(c, nets)
    ensures Allowed(c, nets)[|c.baseAllowed|..] == if "0.0.0.0/0" in c.baseAllowed then [] else nets
  {
    hide Covers;
    if EVERYTHING in c.baseAllowed {
      EverythingCovers(x);
    }
  }

  // Gone is a failed deletion whose error reads as missing, of a route that
  // something else has removed.
  datatype RouteAnswer = Removed(answer: Answer) | Gone

  datatype WgCleanupAnswers = WgCleanupAnswers(peer: Answer, shown: seq<bool>, routes: seq<RouteAnswer>)

  predicate CleanupFaultless(state: seq<string>, a: WgCleanupAnswers) {
    && a.peer.Works? && |a.shown| >= |state| && |a.routes| >= |state|
    && forall i | 0 <= i < |state| :: a.shown[i] && a.routes[i] == Removed(Works)
  }

  // What the driver or another program has done to the main table since before
  // the driver's first run, in terms of the routes that are there now.
  ghost predicate Accounted(interface: string, base: map<string, string>, installed: set<string>, routes: map<string, string>) {
    && installed <= routes.Keys
    && forall n | n in routes :: if n in installed then routes[n] == interface else n in base && routes[n] == base[n]
  }

  class WgDriver {
    const c: WgConfig
    // The peer's allowed-ips, and the device of each prefix of the main table.
    var allowedIps: seq<string>
    var routes: map<string, string>
    // The table before the first run, the networks whose route there now the
    // driver has installed, and every network it was ever handed.
    ghost const base: map<string, string>
    ghost var installed: set<string>
    ghost var offered: set<string>

    ghost predicate Valid()
      reads this
    {
      installed <= offered && Accounted(c.interface, base, installed, routes)
    }

    constructor (c: WgConfig, allowedIps: seq<string>, routes: map<string, string>)
      ensures Valid() && this.c == c && this.allowedIps == allowedIps && this.routes == base == routes
      ensures installed == {} && offered == {}
    {
      this.c, this.allowedIps, this.routes, base, installed, offered := c, allowedIps, routes, routes, {}, {};
    }

    // allowed
    method AllowedList(nets: seq<string>) returns (list: seq<string>)
      ensures list == Allowed(c, nets)
    {
      for i := 0 to |c.baseAllowed|
        invariant EVERYTHING !in c.baseAllowed[..i]
      {
        if c.baseAllowed[i] == EVERYTHING {
          return c.baseAllowed;
        }
      }
      return c.baseAllowed + nets;
    }

    // ip -force -batch: every line is tried, and any failing line fails it all.
    method RouteBatch(nets: seq<string>, answers: seq<Answer>) returns (ok: bool)
      requires Valid() && Elems(nets) <= offered
      modifies this`routes, this`installed
      ensures Valid() && old(installed) <= installed <= old(installed) + Elems(nets)
      ensures ok ==> Elems(nets) <= installed
      ensures old(routes).Keys <= routes.Keys && forall n | n in routes && n !in nets :: n in old(routes) && routes[n] == old(routes)[n]
      ensures AllWork(answers, |nets|) ==> ok
    {
      ok := true;
      for i := 0 to |nets|
        invariant Valid() && old(installed) <= installed <= old(installed) + Elems(nets)
        invariant ok ==> Elems(nets[..i]) <= installed
        invariant old(routes).Keys <= routes.Keys && forall n | n in routes && n !in nets :: n in old(routes) && routes[n] == old(routes)[n]
        invariant AllWork(answers, |nets|) ==> ok
      {
        assert nets[i] in nets;
        if Nth(answers, i) != Refused {
          routes := routes[nets[i] := c.interface];
          installed := installed + {nets[i]};
        }
        ok := ok && Nth(answers, i) == Works;
        assert nets[..i + 1] == nets[..i] + [nets[i]];
      }
      assert nets[..|nets|] == nets;
    }

    // applyWGRoute: it adds routes and never deletes one.
    method ApplyWGRoute(nets: seq<string>, peer: Answer, lines: seq<Answer>) returns (ok: bool)
      requires Valid()
      modifies this
      ensures Valid() && offered == old(offered) + Elems(nets)
      ensures old(installed) <= installed <= old(installed) + Elems(nets)
      ensures ok ==> allowedIps == Allowed(c, nets) && Elems(nets) <= installed
      ensures old(routes).Keys <= routes.Keys && forall n | n in routes && n !in nets :: n in old(routes) && routes[n] == old(routes)[n]
      ensures allowedIps in {old(allowedIps), Allowed(c, nets)}
      ensures !peer.Works? ==> !ok && routes == old(routes)
      ensures peer.Works? && AllWork(lines, |nets|) ==> ok
    {
      offered := offered + Elems(nets);
      var list := AllowedList(nets);
      if peer != Refused {
        allowedIps := list;
      }
      if peer != Works {
        return false;
      }
      ok := RouteBatch(nets, lines);
    }

    // One turn of Cleanup's loop over the state file.
    method DropRoute(network: string, shown: bool, answer: RouteAnswer) returns (ok: bool)
      requires Valid()
      modifies this`routes, this`installed
      ensures Valid()
      ensures ok ==> routes == old(routes) - {network} && installed == old(installed) - {network}
      ensures !ok && routes != old(routes) - {network} ==> routes == old(routes)
      ensures shown && answer == Removed(Works) && (network in old(routes) ==> old(routes)[network] == c.interface) ==> ok
    {
      if !shown {
        return false;
      }
      if network !in routes {
        assert routes - {network} == routes && installed - {network} == installed;
        return true;
      }
      if answer.Gone? {
        routes, installed := routes - {network}, installed - {network};
        return true;
      }
      // The kernel refuses to delete the route of another device.
      if routes[network] != c.interface {
        return false;
      }
      if answer.answer != Refused {
        routes, installed := routes - {network}, installed - {network};
      }
      return answer.answer.Works?;
    }

    // The wg-route case of Cleanup, on the lines of the state file. A success
    // leaves the peer its base list, and it leaves a route the driver installed
    // exactly when the state file misses an installed network; otherwise only
    // routes from before the first run are left.
    method CleanupWGRoute(state: seq<string>, a: WgCleanupAnswers) returns (ok: bool)
      requires Valid()
      modifies this`routes, this`installed, this`allowedIps
      ensures Valid()
      ensures ok ==> allowedIps == c.baseAllowed
      ensures ok ==> routes == old(routes) - Elems(state) && installed == old(installed) - Elems(state)
      ensures ok ==> ((exists n | n in old(installed) :: n in routes) <==> (exists n | n in old(installed) :: n !in state))
      ensures ok && old(installed) <= Elems(state) ==> forall n | n in routes :: n in base && routes[n] == base[n]
      ensures old(routes) - Elems(state) == routes - Elems(state)
      ensures !a.peer.Works? ==> !ok && routes == old(routes)
      ensures CleanupFaultless(state, a) && (forall n | n in state && n in old(routes) :: old(routes)[n] == c.interface) ==> ok
    {
      if a.peer != Refused {
        allowedIps := c.baseAllowed;
      }
      if a.peer != Works {
        return false;
      }
      ghost var before, had := routes, installed;
      assert before - Elems(state[..0]) == before && had - Elems(state[..0]) == had;
      for i := 0 to |state|
        invariant Valid() && allowedIps == c.baseAllowed
        invariant routes == before - Elems(state[..i]) && installed == had - Elems(state[..i])
      {
        ok := DropRoute(state[i], i < |a.shown| && a.shown[i], if i < |a.routes| then a.routes[i] else Removed(Refused));
        assert Elems(state[..i + 1]) == Elems(state[..i]) + {state[i]};
        assert before - Elems(state[..i + 1]) == before - Elems(state[..i]) - {state[i]};
        assert had - Elems(state[..i + 1]) == had - Elems(state[..i]) - {state[i]};
        assert Elems(state[..i + 1]) <= Elems(state);
        assert state[i] in state;
        if !ok {
          return;
        }
      }
      assert state[..|state|] == state;
      return true;
    }
  }
}
