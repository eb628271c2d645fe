// The protocol and the drivers together: what the controller's guarantees mean
// for packets and for what Cleanup leaves.
module EndToEnd {
  import opened Strings
  import opened Networks
  import opened NetworkSets
  import opened Node
  import opened NodeInvariant
  import opened Recovery
  import opened RuntimeModel
  import opened Dns
  import opened Protocol
  import opened ProtocolSafety
  import opened Progress
  import opened Provenance
  import opened Commands
  import opened Packets
  import opened Tables
  import opened LinuxExit
  import opened WgRoute

  // In every reachable state, at every instant of the exit driver, whatever a
  // hooked chain accepts goes to a network the controller desires.
  lemma AcceptedIsDesired(s: Setup, w: World, events: seq<Event>, c: ExitConfig, given: set<seq<string>>, t: Table, p: Packet)
    requires Initial(s, w)
    requires forall nets | nets in given :: Elems(nets) <= Run(s, w, events).ctrl.local.offered
    requires TableSafe(t, FilterPlace(c, given)) && Hook(FilterChain(c)) in t[FORWARD]
    requires Decide(t[FilterChain(c)], p) == Accepted
    ensures Covers(c.sourceNet, p.src)
    ensures exists n | n in Known(s.ctrl, Run(s, w, events).ctrl) :: Covers(n, p.dst)
  {
    hide Run, Known, Initial, Decide, Covers, FilterPlace;
    OfferedIsDesired(s, w, events);
    var nets := SafeMeaning(c, given, t);
    var n :| n in nets && Covers(n, p.dst);
    assert n in Elems(nets);
  }

  // Every address ever released to a client is accepted, and masqueraded on the
  // way to the WAN, once the exit driver has succeeded with the desired list,
  // however often either node has restarted since.
  lemma ReleasedIsAccepted(s: Setup, w: World, events: seq<Event>, a: Response, x: string, c: ExitConfig, t: Table, u: Table, p: Packet)
    requires Initial(s, w) && a in Run(s, w, events).everServed && x in Released(a) && Covers(x, p.dst)
    requires Run(s, w, events).ctrl.up
    requires HookedOnce(t, FilterPlace(c, {}), ExitFilter(c, Run(s, w, events).ctrl.local.memory.desired))
    requires HookedOnce(u, NatPlace(c, {}), ExitNat(c, Run(s, w, events).ctrl.local.memory.desired))
    requires Covers(c.sourceNet, p.src) && Named(c.wan, p.output)
    ensures Decide(t[FilterChain(c)], p) == Accepted && Decide(u[NatChain(c)], p) == Masqueraded
  {
    hide Run, Released, Initial, Decide, Covers, Named, ExitFilter, ExitNat;
    ReleaseLasts(s, w, events, a);
    var desired := Run(s, w, events).ctrl.local.memory.desired;
    assert x in desired;
    ExitFilterMeaning(c, desired, p);
    ExitNatMeaning(c, desired, p);
  }

  // Cleanup after any run of the protocol, failed batches included, on a driver
  // that was handed only what the controller's passes offered: once the state
  // file lists what is desired, no route the driver installed is left, and the
  // peer has its base list. It rests on desired never shrinking.
  method ControllerLeavesNothing(ghost s: Setup, ghost w: World, ghost events: seq<Event>,
                                 d: WgDriver, state: seq<string>, a: WgCleanupAnswers) returns (ok: bool)
    requires Initial(s, w) && d.Valid()
    requires var m := Run(s, w, events).ctrl;
             m.up && d.offered <= m.local.offered && state == LoadState(m.local.disk.state) == m.local.memory.desired
    modifies d
    ensures ok ==> d.allowedIps == d.c.baseAllowed && d.installed == {}
    ensures ok ==> forall n | n in d.routes :: n in d.base && d.routes[n] == d.base[n]
  {
    OfferedIsDesired(s, w, events);
    ok := d.CleanupWGRoute(state, a);
  }

  lemma {:induction false} DesiredOnlyGrows(c: Config, l: Local, steps: seq<Step>)
    requires Good(c, l) && c.role.Controller?
    ensures Elems(l.memory.desired) <= Elems(RunSteps(c, l, steps).memory.desired)
    decreases steps
  {
    hide Perform, Good;
    if steps == [] {
    } else {
      PerformGood(c, l, steps[0].op, steps[0].env);
      DesiredOnlyGrows(c, Perform(c, l, steps[0].op, steps[0].env).local, steps[1..]);
    }
  }

  lemma UnchangedUnwritten(c: Config, l: Local, op: Op, env: Env)
    requires Perform(c, l, op, env).local.memory.desired == l.memory.desired
    ensures Perform(c, l, op, env).local.disk.state == l.disk.state
  {
    hide Validated, Merged, PlanSync, PlanLearn, PlanAccept, Discovered, SaveState;
    var s := Persist(c, l.memory, l.disk, op, env);
    ContinueKeepsLists(c, l.(memory := s.memory, disk := s.disk), s.proceed, s.complete, env);
    ContinueKeepsDisk(c, l, op, env);
  }

  // Over any run, a controller whose desired list ends as it began has not
  // written its state file: seeds alone are never saved.
  lemma {:induction false} SeedsNeverSaved(c: Config, l: Local, steps: seq<Step>)
    requires Good(c, l) && c.role.Controller? && RunSteps(c, l, steps).memory.desired == l.memory.desired
    ensures RunSteps(c, l, steps).disk.state == l.disk.state
    decreases steps
  {
    hide Perform, Good, ListsGood;
    if steps == [] {
    } else {
      var next := Perform(c, l, steps[0].op, steps[0].env).local;
      PerformGood(c, l, steps[0].op, steps[0].env);
      DesiredOnlyGrows(c, next, steps[1..]);
      DesiredCanonical(c, l);
      DesiredCanonical(c, next);
      EqualIsSetEquality(l.memory.desired, next.memory.desired);
      UnchangedUnwritten(c, l, steps[0].op, steps[0].env);
      SeedsNeverSaved(c, next, steps[1..]);
    }
  }

  lemma DesiredCanonical(c: Config, l: Local)
    requires Good(c, l)
    ensures CanonList(l.memory.desired)
  {
  }

  lemma SeedsAlone(config: Config)
    requires Recover(config, Disk(None, None)).Some?
    ensures Elems(Recover(config, Disk(None, None)).value.0) == CanonSet(config.seeds)
  {
    hide Recover;
    RecoverMeaning(config, Disk(None, None));
    assert LoadState(None) == [] && CanonSet([]) == {};
  }

  // A controller with seeds and no files starts.
  method StartOnSeeds(config: Config) returns (r: Runtime)
    requires config.role.Controller? && Recover(config, Disk(None, None)).Some?
    ensures fresh(r) && r.config == config && r.calls == [Never] && r.stateFile == None
    ensures Elems(r.desired) == CanonSet(config.seeds) && !r.appliedKnown
  {
    hide Recover, CanonSet;
    SeedsAlone(config);
    r := NewRuntime(config, Disk(None, None), [Never], {}, {}, 0);
  }

  // Its one driver succeeds, and the pass counts as applied.
  method ApplySeeds(r: Runtime, ok: bool) returns (applied: bool)
    requires r.config.role.Controller? && r.calls == [Never] && !r.appliedKnown && ok
    modifies r
    ensures applied && r.applied == r.desired == old(r.desired) && r.stateFile == old(r.stateFile)
  {
    hide RunDrivers;
    DriversSucceed([Never], [ok], r.desired, 0);
    applied := r.ReconcileLocked(Env(0, 0, [ok], true, true, true));
  }

  // On a machine without routes the driver then installs the seeds. The state
  // file is still unwritten, so Cleanup succeeds and leaves every route.
  method SeedsStay(config: Config, c: WgConfig) returns (d: WgDriver, applied: bool, cleaned: bool)
    requires config.role.Controller? && Recover(config, Disk(None, None)).Some? && CanonSet(config.seeds) != {}
    ensures fresh(d) && d.Valid() && applied && cleaned
    ensures d.installed == d.routes.Keys == CanonSet(config.seeds) != {}
    ensures forall n | n in d.routes :: d.routes[n] == c.interface
  {
    hide Recover, CanonSet, Allowed;
    var r := StartOnSeeds(config);
    d := new WgDriver(c, c.baseAllowed, map[]);
    var lines := seq(|r.desired|, i => Works);
    var ok := d.ApplyWGRoute(r.desired, Works, lines);
    applied := ApplySeeds(r, ok);
    assert LoadState(r.stateFile) == [];
    cleaned := d.CleanupWGRoute(LoadState(r.stateFile), WgCleanupAnswers(Works, [], []));
  }
}
