// What every run of the two-node protocol keeps.
module ProtocolSafety {
  import opened Strings
  import opened Networks
  import opened NetworkSets
  import opened Node
  import opened NodeInvariant
  import opened Retry
  import opened Dns
  import opened Protocol

  // ---- the controller ----

  lemma StartGood(c: Config, m: Machine)
    requires !m.up && Recover(c, m.local.disk).Some? && m.local.passed <= m.local.offered && m.local.clock >= 0
    ensures var n := BootMachine(c, m);
            && n.up && Good(c, n.local) && !n.local.memory.appliedKnown && n.local.memory.lastReported == []
            && Known(c, n) == Known(c, m) && OwnLearned(n) == OwnLearned(m)
  {
    RecoverMeaning(c, m.local.disk);
    BootGood(c, m.local.disk, m.local.calls, m.local.offered, m.local.passed, m.local.clock);
  }

  lemma StopGrows(c: Config, m: Machine)
    requires m.up ==> Good(c, m.local)
    ensures Known(c, m) <= Known(c, Stop(m))
  {
  }

  lemma StopDuringGrows(c: Config, m: Machine, op: Op, env: Env, k: nat)
    requires m.up && Good(c, m.local) && Grows(c, op)
    ensures Known(c, m) <= Known(c, StopDuring(c, m, op, env, k))
  {
    var disks := DisksDuring(c, m.local, op, env);
    if k < |disks| {
      DisksFollow(c, m.local, op, env, disks[k]);
    }
  }

  lemma CtrlDoGood(c: Config, m: Machine, op: Op, env: Env)
    requires CtrlGood(c, m) && m.up
    ensures var r := Perform(c, m.local, op, env);
            var n := Machine(true, r.local);
            && CtrlGood(c, n) && CtrlGrows(c, m, n)
            && (r.ok && (op.Learn? || op.Accept?) ==> Installed(c, n, Incoming(op)))
  {
    hide Perform, Good, Remembers, AppliedWithin, Forgets;
    PerformGood(c, m.local, op, env);
    PassesKept(c, m.local, op, env);
    GoodHistory(c, Perform(c, m.local, op, env).local);
  }

  lemma GoodHistory(c: Config, l: Local)
    requires Good(c, l)
    ensures Elems(l.memory.applied) <= l.passed <= l.offered
  {
  }

  lemma PostGood(c: Config, m: Machine, payload: seq<string>, env: Env)
    requires CtrlGood(c, m) && m.up
    ensures var r := HandlePost(c, m.local, payload, env);
            var n := Machine(true, r.local);
            && CtrlGood(c, n) && CtrlGrows(c, m, n) && (r.ok ==> Installed(c, n, CanonSet(payload)))
  {
    hide Perform, CtrlGood, CtrlGrows, Installed, Validated, Merged;
    CtrlDoGood(c, m, Accept(payload), env);
    Same(c, m);
  }

  lemma Same(c: Config, m: Machine)
    ensures CtrlGrows(c, m, m)
  {
  }

  lemma CtrlStepGood(c: Config, m: Machine, event: NodeEvent)
    requires CtrlGood(c, m)
    ensures CtrlGood(c, NodeStep(c, m, event)) && CtrlGrows(c, m, NodeStep(c, m, event))
  {
    hide Perform, HandlePost, Good, Durable, Recover;
    match event
    case Boot => if !m.up && Recover(c, m.local.disk).Some? { StartGood(c, m); StartUnapplied(c, m); }
    case Crash => StopGrows(c, m);
    case Do(op, env) => if m.up { CtrlDoGood(c, m, op, env); }
    case Post(payload, env) => if m.up { PostGood(c, m, payload, env); }
    case CrashDuring(op, env, k) => if m.up { StopDuringGrows(c, m, op, env, k); }
  }

  lemma StartUnapplied(c: Config, m: Machine)
    requires !m.up && Recover(c, m.local.disk).Some?
    ensures AppliedWithin(BootMachine(c, m).local.memory) && Remembers(c, BootMachine(c, m).local)
    ensures BootMachine(c, m).local == m.local.(memory := BootMachine(c, m).local.memory)
  {
  }

  lemma {:induction false} CtrlRunGood(c: Config, m: Machine, events: seq<NodeEvent>)
    requires CtrlGood(c, m)
    ensures CtrlGood(c, NodeRun(c, m, events)) && CtrlGrows(c, m, NodeRun(c, m, events))
    decreases events
  {
    hide CtrlGood, NodeStep;
    if events == [] {
    } else {
      CtrlStepGood(c, m, events[0]);
      CtrlRunGood(c, NodeStep(c, m, events[0]), events[1..]);
    }
  }

  lemma InstalledGrows(c: Config, m: Machine, n: Machine, networks: set<string>)
    requires Installed(c, m, networks) && CtrlGrows(c, m, n)
    ensures Installed(c, n, networks)
  {
  }

  // ---- the agent ----

  lemma ConverseGood(s: Setup, agent: Local, ctrl: Machine, op: Op, env: Env, rpc: Rpc) returns (ack: bool)
    requires Good(s.agent, agent) && CtrlGood(s.ctrl, ctrl)
    requires Installed(s.ctrl, ctrl, Elems(agent.memory.lastReported))
    ensures var e := Converse(s, agent, ctrl, op, env, rpc);
            && Outcome(e.agent, e.ok) == Perform(s.agent, agent, op, env.(ack := ack))
            && CtrlGood(s.ctrl, e.ctrl) && CtrlGrows(s.ctrl, ctrl, e.ctrl)
            && Installed(s.ctrl, e.ctrl, Elems(e.agent.memory.lastReported))
  {
    hide Perform, HandlePost, Good, CtrlGood, Sends, NodeRun, CtrlGrows, Installed;
    var sent := Sends(s.agent, agent, op, env);
    var there := NodeRun(s.ctrl, ctrl, rpc.before);
    CtrlRunGood(s.ctrl, ctrl, rpc.before);
    var handled := if sent.Some? && rpc.delivered && there.up
                   then HandlePost(s.ctrl, there.local, sent.value, rpc.env)
                   else Outcome(there.local, false);
    ack := handled.ok && !rpc.lost;
    var after := there.(local := handled.local);
    SameGrows(s.ctrl, there);
    if sent.Some? && rpc.delivered && there.up {
      PostGood(s.ctrl, there, sent.value, rpc.env);
    }
    CtrlRunGood(s.ctrl, after, rpc.after);
    var e := Converse(s, agent, ctrl, op, env, rpc);
    GrowsTransitive(s.ctrl, ctrl, there, after);
    GrowsTransitive(s.ctrl, ctrl, after, e.ctrl);
    InstalledGrows(s.ctrl, ctrl, e.ctrl, Elems(agent.memory.lastReported));
    if ack {
      InstalledGrows(s.ctrl, after, e.ctrl, CanonSet(sent.value));
    }
    var done := Perform(s.agent, agent, op, env.(ack := ack));
    SendsBeforeAck(s.agent, agent, op, env, ack);
    ReportedIsSent(s.agent, agent, op, env.(ack := ack));
    PerformGood(s.agent, agent, op, env.(ack := ack));
    LearnedSetOf(s.agent, done.local);
  }

  lemma LearnedSetOf(c: Config, l: Local)
    requires Good(c, l)
    ensures CanonSet(l.memory.learned) == Elems(l.memory.learned) && CanonSet(l.memory.desired) == Elems(l.memory.desired)
  {
    CanonListSet(l.memory.learned);
    CanonListSet(l.memory.desired);
  }

  ghost predicate FromController(op: Op, there: Machine) {
    op.Reconcile? || op.Learn? ||
    (op.Sync? && (op.reply.Some? ==> there.up && op.reply.value == there.local.memory.desired))
  }

  // The agent's desired list stays within what the controller knows, and once
  // it has adopted the controller's list it never shrinks.
  lemma DesiredFollows(s: Setup, w: World, there: Machine, op: Op, env: Env)
    requires w.agent.up && Good(s.agent, w.agent.local) && s.agent.role.Agent?
    requires CtrlGood(s.ctrl, there) && CtrlGrows(s.ctrl, w.ctrl, there) && FromController(op, there)
    requires w.fetched ==> Known(s.agent, w.agent) <= Known(s.ctrl, w.ctrl) + OwnLearned(w.agent) + CanonSet(s.agent.seeds)
    ensures var m := Machine(true, Perform(s.agent, w.agent.local, op, env).local);
            && (w.fetched || Adopts(s, w.agent.local, op, env) ==>
                  Known(s.agent, m) <= Known(s.ctrl, there) + OwnLearned(m) + CanonSet(s.agent.seeds))
            && (w.fetched ==> Known(s.agent, w.agent) <= Known(s.agent, m))
  {
    hide Perform, Good, CtrlGood, Persist;
    var l := w.agent.local;
    PerformGood(s.agent, l, op, env);
    if op.Sync? {
      SyncReplaces(s.agent, l, op.reply, env);
      if there.up {
        CtrlDesiredCanonical(s.ctrl, there);
      }
    }
  }

  lemma CtrlDesiredCanonical(c: Config, m: Machine)
    requires CtrlGood(c, m) && m.up
    ensures CanonSet(m.local.memory.desired) == Elems(m.local.memory.desired)
  {
    LearnedSetOf(c, m.local);
  }

  lemma AdoptsBeforeAck(s: Setup, l: Local, op: Op, env: Env, ack: bool)
    ensures Adopts(s, l, op, env) == Adopts(s, l, op, env.(ack := ack))
  {
    hide Validated, Merged, PlanSync, PlanLearn, PlanAccept, Discovered;
  }

  // Nothing served so far leaves applied, whatever the operation does.
  lemma ServedKept(c: Config, l: Local, op: Op, env: Env, networks: set<string>)
    requires Good(c, l) && networks <= Elems(l.memory.applied) && networks <= Elems(l.memory.learned)
    ensures var m := Perform(c, l, op, env).local.memory; networks <= Elems(m.applied) && networks <= Elems(m.learned)
  {
    hide Perform;
    PerformGood(c, l, op, env);
  }

  // An operation that keeps the desired list keeps what is remembered of passes.
  lemma PassesKept(c: Config, l: Local, op: Op, env: Env)
    requires Good(c, l) && AppliedWithin(l.memory) && Remembers(c, l)
    requires Elems(l.memory.desired) <= Elems(Perform(c, l, op, env).local.memory.desired)
    ensures var r := Perform(c, l, op, env).local; AppliedWithin(r.memory) && Remembers(c, r)
  {
    hide Perform, Good, Remembers, AppliedWithin, Forgets;
    GrowingNeverForgets(c, l, op, env);
    ForgetsExactly(c, l, op, env);
  }

  lemma LearnedKept(c: Config, m: Machine, op: Op, env: Env)
    requires m.up && Good(c, m.local)
    ensures OwnLearned(m) <= OwnLearned(Machine(true, Perform(c, m.local, op, env).local))
  {
    hide Perform, Good;
    PerformGood(c, m.local, op, env);
  }

  lemma GrowsTransitive(c: Config, m: Machine, n: Machine, o: Machine)
    requires CtrlGrows(c, m, n) && CtrlGrows(c, n, o)
    ensures CtrlGrows(c, m, o)
  {
  }

  lemma InstalledPart(c: Config, m: Machine, networks: set<string>, part: set<string>)
    requires Installed(c, m, networks) && part <= networks
    ensures Installed(c, m, part)
  {
  }

  lemma KnownGrows(c: Config, m: Machine, n: Machine)
    requires CtrlGrows(c, m, n)
    ensures Known(c, m) <= Known(c, n)
  {
  }

  lemma KnownIsDesired(c: Config, m: Machine)
    requires m.up
    ensures Known(c, m) == Elems(m.local.memory.desired)
  {
  }

  lemma AgentOpGood(s: Setup, w: World, there: Machine, op: Op, env: Env, rpc: Rpc)
    requires WorldGood(s, w) && w.agent.up
    requires CtrlGood(s.ctrl, there) && CtrlGrows(s.ctrl, w.ctrl, there) && FromController(op, there)
    ensures var e := Converse(s, w.agent.local, there, op, env, rpc);
            var v := w.(agent := Machine(true, e.agent), ctrl := e.ctrl, fetched := w.fetched || Adopts(s, w.agent.local, op, env));
            && WorldGood(s, v) && WorldGrows(s, w, v)
            && (e.ok && op.Learn? ==>
                  && Installed(s.ctrl, e.ctrl, Incoming(op))
                  && Incoming(op) <= Elems(e.agent.memory.applied) && Incoming(op) <= Elems(e.agent.memory.learned))
  {
    hide Perform, Converse, Good, CtrlGood, Adopts, Installed, CtrlGrows, Known, OwnLearned, Extracted;
    var l := w.agent.local;
    InstalledGrows(s.ctrl, w.ctrl, there, Elems(l.memory.lastReported));
    var ack := ConverseGood(s, l, there, op, env, rpc);
    var e := Converse(s, l, there, op, env, rpc);
    AdoptsBeforeAck(s, l, op, env, ack);
    PerformGood(s.agent, l, op, env.(ack := ack));
    GoodHistory(s.agent, e.agent);
    DesiredFollows(s, w, there, op, env.(ack := ack));
    LearnedKept(s.agent, w.agent, op, env.(ack := ack));
    if w.startedFetched {
      KnownIsDesired(s.agent, w.agent);
      KnownIsDesired(s.agent, Machine(true, e.agent));
      PassesKept(s.agent, l, op, env.(ack := ack));
    }
    GrowsTransitive(s.ctrl, w.ctrl, there, e.ctrl);
    KnownGrows(s.ctrl, there, e.ctrl);
    forall a | a in w.served ensures Released(a) <= Elems(e.agent.memory.applied) && Released(a) <= Elems(e.agent.memory.learned) {
      ServedKept(s.agent, l, op, env.(ack := ack), Released(a));
    }
    forall a | a in w.everServed ensures Installed(s.ctrl, e.ctrl, Released(a)) {
      InstalledGrows(s.ctrl, w.ctrl, e.ctrl, Released(a));
    }
    if e.ok && op.Learn? {
      InstalledPart(s.ctrl, e.ctrl, Elems(e.agent.memory.lastReported), Incoming(op));
    }
  }

  // ---- crashes and starts of the agent ----

  lemma AgentCrashGood(s: Setup, w: World, there: Machine, op: Op, env: Env, k: nat)
    requires WorldGood(s, w) && w.agent.up
    requires CtrlGood(s.ctrl, there) && CtrlGrows(s.ctrl, w.ctrl, there) && FromController(op, there)
    ensures var v := Down(w, Stop(StopDuring(s.agent, w.agent, op, env, k))).(ctrl := there);
            WorldGood(s, v) && WorldGrows(s, w, v)
  {
    hide DisksDuring, Good, CtrlGood, Installed, CtrlGrows, Extracted;
    var m, l := w.agent, w.agent.local;
    var disks := DisksDuring(s.agent, l, op, env);
    var disk := if k < |disks| then disks[k] else l.disk;
    DiskBound(s, w, there, op, env, disk);
    KnownGrows(s.ctrl, w.ctrl, there);
    forall a | a in w.everServed ensures Installed(s.ctrl, there, Released(a)) {
      InstalledGrows(s.ctrl, w.ctrl, there, Released(a));
    }
  }

  // A crash loses no desired network of an agent that has adopted the
  // controller's list, and what it keeps is within what the controller knows.
  lemma DiskBound(s: Setup, w: World, there: Machine, op: Op, env: Env, disk: Disk)
    requires WorldGood(s, w) && w.agent.up
    requires CtrlGood(s.ctrl, there) && CtrlGrows(s.ctrl, w.ctrl, there) && FromController(op, there)
    requires disk == w.agent.local.disk || disk in DisksDuring(s.agent, w.agent.local, op, env)
    ensures Elems(w.agent.local.memory.learned) <= LearnedSet(disk)
    ensures w.fetched ==> Elems(w.agent.local.memory.desired) <= Durable(s.agent, disk)
    ensures w.fetched ==> Durable(s.agent, disk) <= Known(s.ctrl, there) + LearnedSet(disk) + CanonSet(s.agent.seeds)
  {
    hide DisksDuring, Good, CtrlGood, Installed, Durable;
    var l := w.agent.local;
    SomeDisk(s.agent, l, op, env);
    DisksFollow(s.agent, l, op, env, disk);
    GoodFiles(s.agent, l);
    if op.Sync? && there.up {
      CtrlDesiredCanonical(s.ctrl, there);
    }
    BoundSets(s, w, there, op, disk);
  }

  lemma SomeDisk(c: Config, l: Local, op: Op, env: Env)
    ensures l.disk in DisksDuring(c, l, op, env)
  {
    hide Persist;
    assert DisksDuring(c, l, op, env)[0] == l.disk;
  }

  lemma GoodFiles(c: Config, l: Local)
    requires Good(c, l)
    ensures Elems(l.memory.desired) <= Durable(c, l.disk)
  {
  }

  lemma BoundSets(s: Setup, w: World, there: Machine, op: Op, disk: Disk)
    requires w.agent.up && s.agent.role.Agent? && FromController(op, there)
    requires DiskFollows(s.agent, w.agent.local.memory, w.agent.local.disk, op, disk)
    requires Elems(w.agent.local.memory.desired) <= Durable(s.agent, w.agent.local.disk)
    requires Known(s.ctrl, w.ctrl) <= Known(s.ctrl, there)
    requires w.fetched ==> Known(s.agent, w.agent) <= Known(s.ctrl, w.ctrl) + OwnLearned(w.agent) + CanonSet(s.agent.seeds)
    requires op.Sync? && there.up ==> CanonSet(there.local.memory.desired) == Elems(there.local.memory.desired)
    ensures Elems(w.agent.local.memory.learned) <= LearnedSet(disk)
    ensures w.fetched ==> Elems(w.agent.local.memory.desired) <= Durable(s.agent, disk)
    ensures w.fetched ==> Durable(s.agent, disk) <= Known(s.ctrl, there) + LearnedSet(disk) + CanonSet(s.agent.seeds)
  {
    hide LoadState, CanonSet;
  }

  lemma AgentBootGood(s: Setup, w: World)
    requires WorldGood(s, w)
    ensures var v := BootAgent(s, w); WorldGood(s, v) && WorldGrows(s, w, v)
  {
    hide CtrlGood, Good, Recover, Durable, LearnedSet, Extracted;
    if !w.agent.up && Recover(s.agent, w.agent.local.disk).Some? {
      StartGood(s.agent, w.agent);
      StartUnapplied(s.agent, w.agent);
    }
  }

  // ---- one event ----

  lemma ServeGood(s: Setup, w: World, i: nat, env: Env, rpc: Rpc)
    requires WorldGood(s, w) && w.agent.up && i < |w.inbox|
    ensures var v := ServeStep(s, w, i, env, rpc); WorldGood(s, v) && WorldGrows(s, w, v)
  {
    hide Perform, Converse, Good, CtrlGood, Installed, CtrlGrows, Known, OwnLearned, Extracted;
    var answer := w.inbox[i];
    var networks := Extracted(answer.message, answer.trusted);
    if networks == [] {
      NothingInstalled(s.ctrl, w.ctrl);
      SameGrows(s.ctrl, w.ctrl);
      assert Released(answer) == {};
    } else {
      SameGrows(s.ctrl, w.ctrl);
      AgentOpGood(s, w, w.ctrl, Learn(networks), env, rpc);
      ReleasedIncoming(answer);
    }
  }

  lemma NothingInstalled(c: Config, m: Machine)
    ensures Installed(c, m, {})
  {
  }

  lemma SameGrows(c: Config, m: Machine)
    ensures CtrlGrows(c, m, m)
  {
  }

  lemma ReleasedIncoming(a: Response)
    ensures Incoming(Learn(Extracted(a.message, a.trusted))) == Released(a)
  {
    ExtractedMeaning(a.message, a.trusted, "");
    CanonListSet(Extracted(a.message, a.trusted));
  }

  lemma CtrlEventGood(s: Setup, w: World, event: NodeEvent)
    requires WorldGood(s, w)
    ensures var v := w.(ctrl := NodeStep(s.ctrl, w.ctrl, event)); WorldGood(s, v) && WorldGrows(s, w, v)
  {
    hide CtrlGood, NodeStep, Good, Installed, CtrlGrows, Extracted;
    CtrlStepGood(s.ctrl, w.ctrl, event);
    var n := NodeStep(s.ctrl, w.ctrl, event);
    KnownGrows(s.ctrl, w.ctrl, n);
    if w.agent.up {
      InstalledGrows(s.ctrl, w.ctrl, n, Elems(w.agent.local.memory.lastReported));
    }
    forall a | a in w.everServed ensures Installed(s.ctrl, n, Released(a)) {
      InstalledGrows(s.ctrl, w.ctrl, n, Released(a));
    }
  }

  lemma Unmoved(s: Setup, w: World)
    ensures WorldGrows(s, w, w)
  {
    hide Known, OwnLearned;
  }

  // Every event, whatever fails in it, keeps the invariant and what must grow.
  lemma NextGood(s: Setup, w: World, event: Event)
    requires WorldGood(s, w)
    ensures WorldGood(s, Next(s, w, event)) && WorldGrows(s, w, Next(s, w, event))
  {
    hide WorldGood, WorldGrows, CtrlGood, Converse, Known, NodeRun, NodeStep, ServeStep, StopDuring, BootAgent, Adopts, Extracted;
    Unmoved(s, w);
    match event
    case AtController(e) => CtrlEventGood(s, w, e);
    case AgentBoot => AgentBootGood(s, w);
    case AgentCrash => CrashGood(s, w);
    case AgentReconcile(env, rpc) =>
      if w.agent.up {
        WorldParts(s, w);
        AgentOpGood(s, w, w.ctrl, Reconcile, env, rpc);
        ReconcileNeverAdopts(s, w.agent.local, env);
      }
    case AgentSync(fetch, env, rpc) =>
      if w.agent.up {
        WorldParts(s, w);
        var there := NodeRun(s.ctrl, w.ctrl, fetch.before);
        CtrlRunGood(s.ctrl, w.ctrl, fetch.before);
        AgentOpGood(s, w, there, Sync(Reply(fetch, there)), env, rpc);
      }
    case AgentSyncCrash(fetch, env, k) =>
      if w.agent.up {
        WorldParts(s, w);
        var there := NodeRun(s.ctrl, w.ctrl, fetch.before);
        CtrlRunGood(s.ctrl, w.ctrl, fetch.before);
        AgentCrashGood(s, w, there, Sync(Reply(fetch, there)), env, k);
      }
    case Inspect(message) => InspectGood(s, w, message);
    case Serve(i, env, rpc) => if w.agent.up && i < |w.inbox| { ServeGood(s, w, i, env, rpc); }
    case ServeCrash(i, env, k) =>
      if w.agent.up && i < |w.inbox| {
        WorldParts(s, w);
        AgentCrashGood(s, w, w.ctrl, Learn(Extracted(w.inbox[i].message, w.inbox[i].trusted)), env, k);
      }
  }

  lemma WorldParts(s: Setup, w: World)
    requires WorldGood(s, w)
    ensures CtrlGood(s.ctrl, w.ctrl) && CtrlGrows(s.ctrl, w.ctrl, w.ctrl)
  {
  }

  lemma ReconcileNeverAdopts(s: Setup, l: Local, env: Env)
    ensures !Adopts(s, l, Reconcile, env)
  {
  }

  lemma CrashGood(s: Setup, w: World)
    requires WorldGood(s, w)
    ensures var v := Down(w, Stop(w.agent)); WorldGood(s, v) && WorldGrows(s, w, v)
  {
    hide CtrlGood, Extracted;
    if w.agent.up {
      AgentCrashGood(s, w, w.ctrl, Reconcile, Env(0, 0, [], false, false, false), 1);
    }
  }

  lemma InspectGood(s: Setup, w: World, message: Message)
    requires WorldGood(s, w)
    ensures WorldGood(s, Next(s, w, Inspect(message))) && WorldGrows(s, w, Next(s, w, Inspect(message)))
  {
    hide CtrlGood, Extracted, Trusted, AliasesAfter, Good, Known, OwnLearned, Installed, CtrlGrows;
    SameGrows(s.ctrl, w.ctrl);
  }

  // ---- every run ----

  lemma InitialGood(s: Setup, w: World)
    requires Initial(s, w)
    ensures WorldGood(s, w)
  {
  }

  lemma {:induction false} RunGood(s: Setup, w: World, events: seq<Event>)
    requires Initial(s, w)
    ensures WorldGood(s, Run(s, w, events))
  {
    hide WorldGood, Next, Initial;
    if events == [] {
      InitialGood(s, w);
    } else {
      RunGood(s, w, events[..|events| - 1]);
      NextGood(s, Run(s, w, events[..|events| - 1]), events[|events| - 1]);
    }
  }

  // Release safety: in every reachable state, every public address of a trusted
  // owner, in every answer written to a client since the agent started, is in
  // the agent's applied list and in the controller's desired list, and some
  // pass of the controller's drivers has completed with it.
  lemma ReleaseSafety(s: Setup, w: World, events: seq<Event>, a: Response, r: Record, x: string)
    requires Initial(s, w)
    requires a in Run(s, w, events).served
    requires r in Records(a.message) && r.Address? && CanonicalName(r.owner) in a.trusted
    requires CanonicalNetwork(r.address) == Some(x)
    ensures var v := Run(s, w, events);
            && v.agent.up && x in v.agent.local.memory.applied
            && x in Known(s.ctrl, v.ctrl) && x in v.ctrl.local.passed
  {
    hide Run, Known, CtrlGood, Good, Extracted;
    RunGood(s, w, events);
    ServedOnce(s, w, events, a);
    ExtractedMeaning(a.message, a.trusted, x);
    assert x in Released(a);
  }

  // Restarts of either side do not take a release back.
  lemma ReleaseLasts(s: Setup, w: World, events: seq<Event>, a: Response)
    requires Initial(s, w) && a in Run(s, w, events).everServed
    ensures Installed(s.ctrl, Run(s, w, events).ctrl, Released(a))
  {
    hide Run, CtrlGood, Good;
    RunGood(s, w, events);
  }

  lemma {:induction false} ServedOnce(s: Setup, w: World, events: seq<Event>, a: Response)
    requires Initial(s, w) && a in Run(s, w, events).served
    ensures a in Run(s, w, events).everServed
  {
    hide Converse, NodeRun, NodeStep, StopDuring, BootMachine, Adopts, Extracted, Trusted, AliasesAfter;
    if events == [] {
    } else {
      var before := Run(s, w, events[..|events| - 1]);
      if a in before.served {
        ServedOnce(s, w, events[..|events| - 1], a);
      }
    }
  }

  // Between any two points of a run neither the controller's list nor what the
  // agent has learned shrinks, and from the agent's first adopted fetch on
  // neither does its desired list; restarts of both sides included.
  lemma {:induction false} NeverShrinks(s: Setup, w: World, events: seq<Event>, n: nat)
    requires Initial(s, w) && n <= |events|
    ensures var early, late := Run(s, w, events[..n]), Run(s, w, events);
            && Known(s.ctrl, early.ctrl) <= Known(s.ctrl, late.ctrl)
            && OwnLearned(early.agent) <= OwnLearned(late.agent)
            && (early.fetched ==> late.fetched && Known(s.agent, early.agent) <= Known(s.agent, late.agent))
    decreases |events| - n
  {
    hide Run, Next, WorldGood, Known, CtrlGood, Initial;
    if n < |events| {
      RunStep(s, w, events, n);
      RunGood(s, w, events[..n]);
      NextGood(s, Run(s, w, events[..n]), events[n]);
      KnownGrows(s.ctrl, Run(s, w, events[..n]).ctrl, Run(s, w, events[..n + 1]).ctrl);
      NeverShrinks(s, w, events, n + 1);
    } else {
      assert events[..n] == events;
    }
  }

  lemma RunStep(s: Setup, w: World, events: seq<Event>, n: nat)
    requires n < |events|
    ensures Run(s, w, events[..n + 1]) == Next(s, Run(s, w, events[..n]), events[n])
  {
    hide Next;
    assert events[..n + 1][..n] == events[..n];
  }

  // No forgotten failure: whenever the controller would leave its drivers
  // alone, every driver's last call succeeded with exactly the desired list.
  lemma NoForgottenFailure(s: Setup, w: World, events: seq<Event>)
    requires Initial(s, w)
    ensures var m := Run(s, w, events).ctrl;
            m.up && Settled(s.ctrl, m.local) ==> InstalledEverywhere(m.local, m.local.memory.desired)
  {
    hide Run;
    RunGood(s, w, events);
  }

  // In every reachable state, and between the locks of any operation either
  // node may be in the middle of, the counts decide the sets: the controller's
  // count test passes exactly when everything desired is applied, the agent's
  // report test exactly when everything learned has been acknowledged.
  lemma CountsDecide(s: Setup, w: World, events: seq<Event>, op: Op, env: Env, m: Memory)
    requires Initial(s, w)
    ensures var v := Run(s, w, events);
            && (v.ctrl.up && m in MemoriesDuring(s.ctrl, v.ctrl.local, op, env) ==>
                  (LearnedIsApplied(StatusOf(s.ctrl, m)) <==> m.appliedKnown && m.applied == m.desired))
            && (v.agent.up && m in MemoriesDuring(s.agent, v.agent.local, op, env) ==>
                  (LearnedIsReported(StatusOf(s.agent, m)) <==> m.lastReported == m.learned))
  {
    hide Run, Initial, MemoriesDuring, ListsGood, AppliedWithin;
    RunGood(s, w, events);
    var v := Run(s, w, events);
    if v.ctrl.up && m in MemoriesDuring(s.ctrl, v.ctrl.local, op, env) {
      DuringGood(s.ctrl, v.ctrl.local, op, env, m);
      ControllerCountDecides(s.ctrl, m);
    }
    if v.agent.up && m in MemoriesDuring(s.agent, v.agent.local, op, env) {
      DuringGood(s.agent, v.agent.local, op, env, m);
      AgentCountDecides(s.agent, m);
    }
  }

  // An agent process that was started after the first adopted fetch forgets no
  // failed pass either: from then on its desired list never shrinks.
  lemma AgentNoForgottenFailure(s: Setup, w: World, events: seq<Event>)
    requires Initial(s, w)
    ensures var v := Run(s, w, events);
            v.startedFetched && Settled(s.agent, v.agent.local) ==>
              InstalledEverywhere(v.agent.local, v.agent.local.memory.desired)
  {
    hide Run;
    RunGood(s, w, events);
  }

  // Everything the controller's drivers were ever given is still desired.
  lemma OfferedIsDesired(s: Setup, w: World, events: seq<Event>)
    requires Initial(s, w)
    ensures var m := Run(s, w, events).ctrl; m.local.offered <= Known(s.ctrl, m)
  {
    hide Run;
    RunGood(s, w, events);
  }
}
