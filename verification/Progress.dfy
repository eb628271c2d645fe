// The other half of release safety: an answer is withheld only when something
// failed or a limit was reached.
module Progress {
  import opened Strings
  import opened Networks
  import opened NetworkSets
  import opened Node
  import opened NodeInvariant
  import opened Recovery
  import opened Retry
  import opened Dns
  import opened Protocol
  import opened ProtocolSafety

  ghost predicate AllSucceed(calls: seq<Call>, env: Env) {
    env.saveLearned && env.saveState && forall i | 0 <= i < |calls| :: Succeeds(env.drivers, i)
  }

  lemma {:induction false} DriversSucceed(calls: seq<Call>, drivers: seq<bool>, nets: seq<string>, i: nat)
    requires i <= |calls| && forall j | 0 <= j < |calls| :: Succeeds(drivers, j)
    ensures RunDrivers(calls, drivers, nets, i).1
    decreases |calls| - i
  {
    if i == |calls| {
    } else {
      DriversSucceed(calls[i := Call(nets, true)], drivers, nets, i + 1);
    }
  }

  lemma ApplySucceeds(c: Config, l: Local, env: Env)
    requires AllSucceed(l.calls, env)
    ensures Apply(c, l, env).ok
    ensures Apply(c, l, env).local.memory.learned == l.memory.learned
  {
    DriversSucceed(l.calls, env.drivers, l.memory.desired, 0);
  }

  // The limits learning these networks runs into.
  ghost predicate LearnFits(c: Config, m: Memory, networks: seq<string>) {
    && |CanonSet(networks)| <= Max(c)
    && |Elems(m.learned) + CanonSet(networks)| <= Max(c)
    && |Elems(m.desired) + CanonSet(networks)| <= Max(c)
  }

  lemma MergeHosts(c: Config, learned: seq<string>, added: seq<string>)
    requires BoundedList(learned, c) && AllHosts(learned) && BoundedList(added, c) && AllHosts(added)
    requires |Elems(learned) + Elems(added)| <= Max(c)
    ensures var nl := Merged([learned, added]);
            && Validated(nl, true, Max(c)) == Some(nl) && BoundedList(nl, c) && AllHosts(nl)
            && Elems(nl) == Elems(learned) + Elems(added)
  {
    hide Validated;
    MergedPair(learned, added);
    var nl := Merged([learned, added]);
    SortedSize(nl);
    forall x | x in nl ensures IsHost(x) {
      assert x in Elems(nl);
    }
    ValidatedSelf(nl, true, Max(c));
  }

  lemma MergeSeeds(c: Config, m: Memory, nl: seq<string>)
    requires ListsGood(c, m) && CanonList(nl) && |Elems(m.desired) + Elems(nl)| <= Max(c)
    ensures Validated(Merged([m.desired, nl, c.seeds]), false, Max(c)).Some?
  {
    hide Validated;
    MergedMeaning([m.desired, nl, c.seeds]);
    CanonSets3(m.desired, nl, c.seeds);
    CanonListSet(m.desired);
    CanonListSet(nl);
    var next := Merged([m.desired, nl, c.seeds]);
    SortedSize(next);
    assert Elems(next) == Elems(m.desired) + Elems(nl);
    ValidatedSelf(next, false, Max(c));
  }

  lemma AcceptableValidates(networks: seq<string>, max: int)
    requires AllAcceptable(networks, true) && |CanonSet(networks)| <= Limit(max)
    ensures Validated(networks, true, max).Some?
  {
  }

  lemma LimitTwice(c: Config)
    ensures Limit(Max(c)) == Max(c)
  {
  }

  lemma PlanLearnSucceeds(c: Config, m: Memory, networks: seq<string>)
    requires ListsGood(c, m) && AllAcceptable(networks, true) && LearnFits(c, m, networks)
    ensures PlanLearn(c, m, networks).Some?
  {
    hide Validated, AllAcceptable, CanonSet, Merged, CanonList, Max, Limit;
    LimitTwice(c);
    AcceptableValidates(networks, Max(c));
    var learned := Validated(networks, true, Max(c)).value;
    ValidatedList(networks, true, Max(c));
    MergeHosts(c, m.learned, learned);
    var nl := Merged([m.learned, learned]);
    assert Elems(m.desired) + Elems(nl) == Elems(m.desired) + CanonSet(networks);
    MergeSeeds(c, m, nl);
  }

  lemma PlanAcceptSucceeds(c: Config, m: Memory, report: seq<string>)
    requires ListsGood(c, m) && BoundedList(report, c) && AllHosts(report)
    requires |Elems(m.desired) + Elems(report)| <= Max(c)
    ensures Validated(report, true, Max(c)) == Some(report)
    ensures Validated(Merged([m.desired, report]), false, Max(c)).Some?
    ensures PlanAccept(c, m, report).Some?
  {
    ValidatedSelf(report, true, Max(c));
    MergedPair(m.desired, report);
    SortedSize(Merged([m.desired, report]));
    ValidatedSelf(Merged([m.desired, report]), false, Max(c));
  }

  lemma PostSucceeds(c: Config, m: Machine, report: seq<string>, env: Env)
    requires CtrlGood(c, m) && m.up && BoundedList(report, c) && AllHosts(report)
    requires |Elems(m.local.memory.desired) + Elems(report)| <= Max(c)
    requires AllSucceed(m.local.calls, env)
    ensures HandlePost(c, m.local, report, env).ok
  {
    hide Validated, Merged, Good, Apply, Persist, PlanAccept, BoundedList, AllHosts;
    GoodLists(c, m.local);
    PlanAcceptSucceeds(c, m.local.memory, report);
    var s := Persist(c, m.local.memory, m.local.disk, Accept(report), env);
    AcceptStaged(c, m.local, report, env);
    ApplySucceeds(c, m.local.(memory := s.memory, disk := s.disk), env);
    ReportBound(report, c);
  }

  lemma ReportBound(report: seq<string>, c: Config)
    requires BoundedList(report, c)
    ensures |report| <= Max(c)
  {
  }

  lemma AcceptStaged(c: Config, l: Local, report: seq<string>, env: Env)
    requires PlanAccept(c, l.memory, report).Some? && env.saveState
    ensures var s := Persist(c, l.memory, l.disk, Accept(report), env); s.proceed && s.complete
  {
    hide PlanAccept;
  }

  lemma LearnStaged(c: Config, l: Local, networks: seq<string>, env: Env)
    requires PlanLearn(c, l.memory, networks).Some? && env.saveState && env.saveLearned
    ensures var s := Persist(c, l.memory, l.disk, Learn(networks), env);
            s.proceed && s.complete && s.memory.learned == PlanLearn(c, l.memory, networks).value.0
  {
    hide PlanLearn;
  }

  lemma LearnSucceeds(c: Config, l: Local, networks: seq<string>, env: Env)
    requires Good(c, l) && c.role.Agent?
    requires AllAcceptable(networks, true) && LearnFits(c, l.memory, networks) && AllSucceed(l.calls, env)
    requires env.ack || Sends(c, l, Learn(networks), env).None?
    ensures Perform(c, l, Learn(networks), env).ok
    ensures Sends(c, l, Learn(networks), env).Some? ==>
              var learned := Sends(c, l, Learn(networks), env).value;
              BoundedList(learned, c) && AllHosts(learned) && Elems(learned) == Elems(l.memory.learned) + CanonSet(networks)
  {
    hide Validated, Merged, Good, Apply, Persist, PlanLearn, LearnFits, AllAcceptable;
    GoodLists(c, l);
    PlanLearnSucceeds(c, l.memory, networks);
    PlanLearnMeaning(c, l.memory, networks);
    LearnStaged(c, l, networks, env);
    var s := Persist(c, l.memory, l.disk, Learn(networks), env);
    ApplySucceeds(c, l.(memory := s.memory, disk := s.disk), env);
    ReportIsWhole(s.memory.learned);
  }

  // The texts of IPv4 addresses hold no slash, so inspect learns hosts only.
  lemma ExtractedHosts(message: Message, trusted: set<string>)
    requires forall r | r in Records(message) && r.Address? :: '/' !in r.address
    ensures AllHosts(Extracted(message, trusted)) && AllAcceptable(Extracted(message, trusted), true)
  {
    hide Extracted, CanonicalNetwork, CanonicalName, TrimSpace, IsHost;
    ExtractedMeaning(message, trusted, "");
    forall x | x in Extracted(message, trusted) ensures IsHost(x) && Canonical(x) {
      ExtractedMeaning(message, trusted, x);
      var r :| r in Records(message) && r.Address? && CanonicalNetwork(r.address) == Some(x);
      TrimKeeps(r.address, '/');
      BareIsHost(r.address);
    }
  }

  lemma TrimKeeps(s: string, c: char)
    requires c !in s
    ensures c !in TrimSpace(s)
  {
    TrimLeftKeeps(s, c);
    TrimRightKeeps(TrimLeft(s), c);
  }

  lemma {:induction false} TrimLeftKeeps(s: string, c: char)
    requires c !in s
    ensures c !in TrimLeft(s)
  {
    if s == "" || s[0] !in SPACES {
    } else {
      TrimLeftKeeps(s[1..], c);
    }
  }

  lemma {:induction false} TrimRightKeeps(s: string, c: char)
    requires c !in s
    ensures c !in TrimRight(s)
  {
    if s == "" || s[|s| - 1] !in SPACES {
    } else {
      TrimRightKeeps(s[..|s| - 1], c);
    }
  }

  // With both nodes up, room within both limits, and saves, drivers and the
  // exchange all working, the answer is written.
  lemma ServeSucceeds(s: Setup, w: World, i: nat, env: Env, rpc: Rpc)
    requires WorldGood(s, w) && w.agent.up && w.ctrl.up && i < |w.inbox|
    requires AllSucceed(w.agent.local.calls, env) && AllSucceed(w.ctrl.local.calls, rpc.env)
    requires rpc.before == [] && rpc.delivered && !rpc.lost
    requires var networks := Extracted(w.inbox[i].message, w.inbox[i].trusted);
             && AllAcceptable(networks, true) && LearnFits(s.agent, w.agent.local.memory, networks)
             && |Elems(w.agent.local.memory.learned) + Elems(networks)| <= Max(s.ctrl)
             && |Elems(w.ctrl.local.memory.desired) + Elems(w.agent.local.memory.learned) + Elems(networks)| <= Max(s.ctrl)
    ensures ServeStep(s, w, i, env, rpc).served == w.served + [w.inbox[i]]
  {
    hide Perform, Good, HandlePost, Sends, AllAcceptable, LearnFits, AllSucceed, Extracted;
    var answer := w.inbox[i];
    var networks := Extracted(answer.message, answer.trusted);
    var l := w.agent.local;
    ReleasedIncoming(answer);
    var sent := Sends(s.agent, l, Learn(networks), env);
    SendsBeforeAck(s.agent, l, Learn(networks), env, true);
    SendsBeforeAck(s.agent, l, Learn(networks), env, false);
    LearnSucceeds(s.agent, l, networks, SendEnv(env, sent.Some?, l.calls));
    if sent.Some? {
      SortedSize(sent.value);
      var learned := Elems(l.memory.learned);
      assert Elems(sent.value) == learned + Elems(networks);
      assert Elems(w.ctrl.local.memory.desired) + learned + Elems(networks) == Elems(w.ctrl.local.memory.desired) + Elems(sent.value);
      PostSucceeds(s.ctrl, w.ctrl, sent.value, rpc.env);
    }
  }

  ghost function SendEnv(env: Env, ack: bool, calls: seq<Call>): (e: Env)
    requires AllSucceed(calls, env)
    ensures AllSucceed(calls, e) && e == env.(ack := ack)
  {
    env.(ack := ack)
  }

  // ---- from nothing ----

  lemma StartsEmpty(c: Config)
    requires c.seeds == []
    ensures Recover(c, Disk(None, None)) == Some(([], []))
  {
    hide Validated;
    var d := Disk(None, None);
    assert LoadState(None) == [] && CanonSet([]) == {};
    ValidatedSelf([], false, Max(c));
    ValidatedSelf([], true, Max(c));
    RecoverIs(c, d, [], []);
  }

  lemma FourEvents(s: Setup, w: World, a: Event, b: Event, c: Event, d: Event)
    ensures Run(s, w, [a, b, c]) == Next(s, Next(s, Next(s, w, a), b), c)
    ensures Run(s, w, [a, b, c, d]) == Next(s, Run(s, w, [a, b, c]), d)
  {
    hide Next;
    assert [a, b, c, d][..3] == [a, b, c] && [a, b, c][..2] == [a, b] && [a, b][..1] == [a] && [a][..0] == [];
    assert Run(s, w, [a]) == Next(s, w, a);
    assert Run(s, w, [a, b]) == Next(s, Next(s, w, a), b);
  }

  // Both nodes up from empty files, with one inspected answer waiting.
  lemma Waiting(s: Setup, w: World, message: Message)
    requires Initial(s, w) && w.agent.local.disk == w.ctrl.local.disk == Disk(None, None)
    requires s.agent.seeds == s.ctrl.seeds == []
    ensures var v := Run(s, w, [AtController(Boot), AgentBoot, Event.Inspect(message)]);
            && v.agent == Machine(true, w.agent.local.(memory := BLANK)) && v.ctrl == Machine(true, w.ctrl.local.(memory := BLANK))
            && v.inbox == [Response(message, Trusted(s.proxy, {}, message))] && v.served == []
  {
    hide Recover, Trusted, AliasesAfter;
    StartsEmpty(s.agent);
    StartsEmpty(s.ctrl);
    FourEvents(s, w, AtController(Boot), AgentBoot, Event.Inspect(message), AgentCrash);
  }

  lemma ExtractedFits(c: Config, message: Message, trusted: set<string>)
    requires |Extracted(message, trusted)| <= Max(c)
    ensures LearnFits(c, BLANK, Extracted(message, trusted))
    ensures |Elems<string>([]) + Elems(Extracted(message, trusted))| <= Max(c)
    ensures |Elems<string>([]) + Elems<string>([]) + Elems(Extracted(message, trusted))| <= Max(c)
  {
    hide Extracted;
    var networks := Extracted(message, trusted);
    ExtractedMeaning(message, trusted, "");
    CanonListSet(networks);
    SortedSize(networks);
    assert Elems<string>([]) == {};
    assert {} + CanonSet(networks) == CanonSet(networks);
    assert {} + {} + CanonSet(networks) == CanonSet(networks);
  }

  lemma BlankServes(s: Setup, v: World, message: Message, trusted: set<string>, env: Env, rpc: Rpc)
    requires WorldGood(s, v) && v.agent.up && v.ctrl.up && v.agent.local.memory == v.ctrl.local.memory == BLANK
    requires v.inbox == [Response(message, trusted)] && v.served == []
    requires forall r | r in Records(message) && r.Address? :: '/' !in r.address
    requires |Extracted(message, trusted)| <= Max(s.agent) && |Extracted(message, trusted)| <= Max(s.ctrl)
    requires AllSucceed(v.agent.local.calls, env) && AllSucceed(v.ctrl.local.calls, rpc.env)
    requires rpc.before == [] && rpc.delivered && !rpc.lost
    ensures Next(s, v, Serve(0, env, rpc)).served == [Response(message, trusted)]
  {
    hide Extracted, AllSucceed, AllAcceptable, WorldGood, ServeStep, LearnFits, Max;
    ExtractedHosts(message, trusted);
    ExtractedFits(s.agent, message, trusted);
    ExtractedFits(s.ctrl, message, trusted);
    ServeSucceeds(s, v, 0, env, rpc);
  }

  // From empty files on both sides, the first answer a client asks for is
  // released: release safety is not kept by releasing nothing.
  lemma FirstAnswerServed(s: Setup, w: World, message: Message, env: Env, rpc: Rpc)
    requires Initial(s, w) && w.agent.local.disk == w.ctrl.local.disk == Disk(None, None)
    requires s.agent.seeds == s.ctrl.seeds == []
    requires forall r | r in Records(message) && r.Address? :: '/' !in r.address
    requires var networks := Extracted(message, Trusted(s.proxy, {}, message));
             |networks| <= Max(s.agent) && |networks| <= Max(s.ctrl)
    requires AllSucceed(w.agent.local.calls, env) && AllSucceed(w.ctrl.local.calls, rpc.env)
    requires rpc.before == [] && rpc.delivered && !rpc.lost
    ensures Run(s, w, [AtController(Boot), AgentBoot, Event.Inspect(message), Serve(0, env, rpc)]).served ==
            [Response(message, Trusted(s.proxy, {}, message))]
  {
    hide Trusted, Extracted, AllSucceed, WorldGood, Initial, Run, Next, Max, Records;
    var three := [AtController(Boot), AgentBoot, Event.Inspect(message)];
    Waiting(s, w, message);
    RunGood(s, w, three);
    FourEvents(s, w, AtController(Boot), AgentBoot, Event.Inspect(message), Serve(0, env, rpc));
    BlankServes(s, Run(s, w, three), message, Trusted(s.proxy, {}, message), env, rpc);
  }

  // ---- convergence ----

  // One fetch that arrives, fits and can be saved leaves the agent desiring
  // exactly the controller's list, its own learned hosts and its seeds,
  // whatever it desired before; and one working pass then applies that.
  lemma SyncConverges(s: Setup, w: World, fetch: Fetch, env: Env, rpc: Rpc)
    requires WorldGood(s, w) && w.agent.up && fetch.reached && env.saveState
    requires var there := NodeRun(s.ctrl, w.ctrl, fetch.before);
             && there.up && |there.local.memory.desired| <= Max(s.agent)
             && |Elems(there.local.memory.desired) + Elems(w.agent.local.memory.learned) + CanonSet(s.agent.seeds)| <= Max(s.agent)
    ensures var there := NodeRun(s.ctrl, w.ctrl, fetch.before);
            var v := Next(s, w, AgentSync(fetch, env, rpc));
            && v.fetched && v.agent.up
            && Elems(v.agent.local.memory.desired) ==
                 Elems(there.local.memory.desired) + Elems(w.agent.local.memory.learned) + CanonSet(s.agent.seeds)
            && (AllSucceed(w.agent.local.calls, env) ==>
                  v.agent.local.memory.appliedKnown && v.agent.local.memory.applied == v.agent.local.memory.desired)
  {
    hide *;
    SyncNext(s, w, fetch, env, rpc);
    var there := NodeRun(s.ctrl, w.ctrl, fetch.before);
    var l, desired := w.agent.local, there.local.memory.desired;
    NodeRunGood(s, w, fetch.before);
    AgentParts(s, w);
    var op := Sync(Some(desired));
    ConverseAck(s, l, there, op, env, rpc);
    var ack :| Converse(s, l, there, op, env, rpc).agent == Perform(s.agent, l, op, env.(ack := ack)).local;
    ConvergesLocally(s.agent, l, desired, env.(ack := ack));
    AckApart(l.calls, env, ack);
    Adopted(s, l, desired, env);
  }

  lemma SyncNext(s: Setup, w: World, fetch: Fetch, env: Env, rpc: Rpc)
    requires w.agent.up && fetch.reached && NodeRun(s.ctrl, w.ctrl, fetch.before).up
    ensures var there := NodeRun(s.ctrl, w.ctrl, fetch.before);
            var op := Sync(Some(there.local.memory.desired));
            var v := Next(s, w, AgentSync(fetch, env, rpc));
            && v.agent == Machine(true, Converse(s, w.agent.local, there, op, env, rpc).agent)
            && v.fetched == (w.fetched || Adopts(s, w.agent.local, op, env))
  {
    hide NodeRun, Converse, Adopts;
  }

  lemma AgentParts(s: Setup, w: World)
    requires WorldGood(s, w) && w.agent.up
    ensures Good(s.agent, w.agent.local) && s.agent.role.Agent?
  {
  }

  lemma AckApart(calls: seq<Call>, env: Env, ack: bool)
    ensures AllSucceed(calls, env) == AllSucceed(calls, env.(ack := ack))
  {
  }

  lemma Adopted(s: Setup, l: Local, desired: seq<string>, env: Env)
    requires Good(s.agent, l) && s.agent.role.Agent? && env.saveState && CanonList(desired) && |desired| <= Max(s.agent)
    requires |Elems(desired) + Elems(l.memory.learned) + CanonSet(s.agent.seeds)| <= Max(s.agent)
    ensures Adopts(s, l, Sync(Some(desired)), env)
  {
    hide Persist, Good, Max;
    SyncFits(s.agent, l, desired, env);
  }

  lemma ConvergesLocally(c: Config, l: Local, desired: seq<string>, env: Env)
    requires Good(c, l) && c.role.Agent? && env.saveState && CanonList(desired) && |desired| <= Max(c)
    requires |Elems(desired) + Elems(l.memory.learned) + CanonSet(c.seeds)| <= Max(c)
    ensures var m := Perform(c, l, Sync(Some(desired)), env).local.memory;
            && Elems(m.desired) == Elems(desired) + Elems(l.memory.learned) + CanonSet(c.seeds)
            && (AllSucceed(l.calls, env) ==> m.appliedKnown && m.applied == m.desired)
  {
    hide Perform, Persist, Good, AllSucceed, Max;
    SyncFits(c, l, desired, env);
    SyncReplaces(c, l, Some(desired), env);
    if AllSucceed(l.calls, env) {
      SyncApplies(c, l, Sync(Some(desired)), env);
    }
  }

  lemma NodeRunGood(s: Setup, w: World, events: seq<NodeEvent>)
    requires WorldGood(s, w)
    ensures var there := NodeRun(s.ctrl, w.ctrl, events);
            there.up ==> CanonList(there.local.memory.desired) && CanonSet(there.local.memory.desired) == Elems(there.local.memory.desired)
  {
    hide NodeRun;
    CtrlRunGood(s.ctrl, w.ctrl, events);
    var there := NodeRun(s.ctrl, w.ctrl, events);
    if there.up {
      LearnedSetOf(s.ctrl, there.local);
    }
  }

  lemma ConverseAck(s: Setup, agent: Local, ctrl: Machine, op: Op, env: Env, rpc: Rpc)
    ensures exists ack :: Converse(s, agent, ctrl, op, env, rpc).agent == Perform(s.agent, agent, op, env.(ack := ack)).local
  {
    hide Perform, HandlePost, Sends, NodeRun;
    var sent := Sends(s.agent, agent, op, env);
    var there := NodeRun(s.ctrl, ctrl, rpc.before);
    var handled := if sent.Some? && rpc.delivered && there.up
                   then HandlePost(s.ctrl, there.local, sent.value, rpc.env)
                   else Outcome(there.local, false);
    var ack := handled.ok && !rpc.lost;
    assert Converse(s, agent, ctrl, op, env, rpc).agent == Perform(s.agent, agent, op, env.(ack := ack)).local;
  }

  lemma SyncFits(c: Config, l: Local, desired: seq<string>, env: Env)
    requires Good(c, l) && c.role.Agent? && env.saveState && CanonList(desired) && |desired| <= Max(c)
    requires |Elems(desired) + Elems(l.memory.learned) + CanonSet(c.seeds)| <= Max(c)
    ensures var s := Persist(c, l.memory, l.disk, Sync(Some(desired)), env); s.proceed && s.complete
    ensures CanonSet(desired) == Elems(desired)
  {
    hide Validated, Merged, PlanSync, Good, CanonList, CanonSet, ListsGood, Max, LoadState, SaveState;
    GoodLists(c, l);
    CanonicalDesired(desired);
    LimitTwice(c);
    ValidatedSelf(desired, false, Max(c));
    UnionFits(c, l.memory, Some(desired));
  }

  lemma CanonicalDesired(desired: seq<string>)
    requires CanonList(desired)
    ensures CanonSet(desired) == Elems(desired)
  {
    CanonListSet(desired);
  }

  lemma SyncApplies(c: Config, l: Local, op: Op, env: Env)
    requires AllSucceed(l.calls, env) && Persist(c, l.memory, l.disk, op, env).proceed
    ensures var m := Perform(c, l, op, env).local.memory; m.appliedKnown && m.applied == m.desired
  {
    hide Persist, RunDrivers;
    var s := Persist(c, l.memory, l.disk, op, env);
    var ready := l.(memory := s.memory, disk := s.disk);
    DriversSucceed(ready.calls, env.drivers, ready.memory.desired, 0);
  }
}
