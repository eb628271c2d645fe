// What an agent learns and reports is its own: nothing fetched from the
// controller is ever echoed back.
module Provenance {
  import opened Strings
  import opened Networks
  import opened NetworkSets
  import opened Node
  import opened NodeInvariant
  import opened Dns
  import opened Protocol
  import opened ProtocolSafety

  ghost function LearnedFrom(op: Op): set<string> {
    if op.Learn? then Incoming(op) else {}
  }

  lemma AdoptKeepsLearnedFile(m: Memory, d: Disk, next: seq<string>, env: Env, w: Disk)
    requires w in AdoptDesired(m, d, next, env).writes || w == AdoptDesired(m, d, next, env).disk
    ensures w.learned == d.learned
  {
  }

  lemma AdoptWritesLearnedFile(m: Memory, d: Disk, nextLearned: seq<string>, next: seq<string>, env: Env, w: Disk)
    requires w in AdoptLearned(m, d, nextLearned, next, env).writes || w == AdoptLearned(m, d, nextLearned, next, env).disk
    ensures w.learned == d.learned || w.learned == Some(SaveState(nextLearned))
  {
    hide SaveState;
    var saved := d.(learned := Some(SaveState(nextLearned)));
    if m.learned == nextLearned {
      AdoptKeepsLearnedFile(m, d, next, env, w);
    } else if env.saveLearned && w != saved {
      AdoptKeepsLearnedFile(m, saved, next, env, w);
    }
  }

  // The learned file grows by what the operation learns and by nothing else,
  // at every save.
  lemma LearnedFileGrows(c: Config, l: Local, op: Op, env: Env, w: Disk)
    requires Good(c, l)
    requires w in DisksDuring(c, l, op, env) || w == Perform(c, l, op, env).local.disk
    ensures LearnedSet(w) <= LearnedSet(l.disk) + LearnedFrom(op)
  {
    hide Validated, Merged, PlanSync, PlanLearn, PlanAccept, Discovered, AdoptDesired, AdoptLearned, CanonSet, ListsGood;
    ContinueKeepsDisk(c, l, op, env);
    var m, d := l.memory, l.disk;
    match op
    case Reconcile =>
    case Sync(reply) =>
      if c.role.Agent? && Discovered(c, reply).Some? && PlanSync(c, m, Discovered(c, reply).value).Some? && w != d {
        AdoptKeepsLearnedFile(m, d, PlanSync(c, m, Discovered(c, reply).value).value, env, w);
      }
    case Accept(networks) =>
      if PlanAccept(c, m, networks).Some? && w != d {
        AdoptKeepsLearnedFile(m, d, PlanAccept(c, m, networks).value, env, w);
      }
    case Learn(networks) =>
      if PlanLearn(c, m, networks).Some? && w != d {
        var (nextLearned, next) := PlanLearn(c, m, networks).value;
        PlanLearnMeaning(c, m, networks);
        AdoptWritesLearnedFile(m, d, nextLearned, next, env, w);
        SavedLearned(c, nextLearned, w);
      }
  }

  lemma SavedLearned(c: Config, nextLearned: seq<string>, w: Disk)
    requires BoundedList(nextLearned, c)
    ensures w.learned == Some(SaveState(nextLearned)) ==> LearnedSet(w) == Elems(nextLearned)
  {
    ReadBackSet(nextLearned);
  }

  lemma ContinueKeepsDisk(c: Config, l: Local, op: Op, env: Env)
    ensures Perform(c, l, op, env).local.disk == Persist(c, l.memory, l.disk, op, env).disk
  {
    hide Persist, RunDrivers;
  }

  // The networks of every answer the agent has inspected.
  ghost function Heard(s: Setup, w: World, events: seq<Event>): set<string> {
    if events == [] then {}
    else
      var before := Run(s, w, events[..|events| - 1]);
      var last := events[|events| - 1];
      Heard(s, w, events[..|events| - 1])
      + if last.Inspect? then Released(Response(last.message, Trusted(s.proxy, before.aliases, last.message))) else {}
  }

  ghost predicate OwnOnly(v: World, own: set<string>) {
    LearnedSet(v.agent.local.disk) <= own && forall a | a in v.inbox :: Released(a) <= own
  }

  lemma OwnOnlyMonotone(v: World, own: set<string>, more: set<string>)
    requires OwnOnly(v, own) && own <= more
    ensures OwnOnly(v, more)
  {
  }

  lemma ConverseOwn(s: Setup, v: World, there: Machine, op: Op, env: Env, rpc: Rpc, own: set<string>)
    requires Good(s.agent, v.agent.local) && OwnOnly(v, own) && LearnedFrom(op) <= own
    ensures LearnedSet(Converse(s, v.agent.local, there, op, env, rpc).agent.disk) <= own
  {
    hide Perform, HandlePost, NodeRun, Good, LearnedSet, Sends, LearnedFrom, Released;
    var sent := Sends(s.agent, v.agent.local, op, env);
    var mid := NodeRun(s.ctrl, there, rpc.before);
    var handled := if sent.Some? && rpc.delivered && mid.up
                   then HandlePost(s.ctrl, mid.local, sent.value, rpc.env)
                   else Outcome(mid.local, false);
    var e := env.(ack := handled.ok && !rpc.lost);
    LearnedFileGrows(s.agent, v.agent.local, op, e, Perform(s.agent, v.agent.local, op, e).local.disk);
  }

  lemma StopOwn(s: Setup, v: World, op: Op, env: Env, k: nat, own: set<string>)
    requires v.agent.up && Good(s.agent, v.agent.local) && OwnOnly(v, own) && LearnedFrom(op) <= own
    ensures LearnedSet(Stop(StopDuring(s.agent, v.agent, op, env, k)).local.disk) <= own
  {
    hide Good, LearnedSet, DisksDuring, LearnedFrom, Released;
    var disks := DisksDuring(s.agent, v.agent.local, op, env);
    if k < |disks| {
      LearnedFileGrows(s.agent, v.agent.local, op, env, disks[k]);
    }
  }

  lemma LearnsOwn(v: World, i: nat, own: set<string>)
    requires OwnOnly(v, own) && i < |v.inbox|
    ensures LearnedFrom(Learn(Extracted(v.inbox[i].message, v.inbox[i].trusted))) <= own
  {
    hide Extracted, LearnedSet;
    ReleasedIncoming(v.inbox[i]);
    assert v.inbox[i] in v.inbox;
  }

  lemma NextOwn(s: Setup, v: World, event: Event, own: set<string>)
    requires WorldGood(s, v) && OwnOnly(v, own) && !event.Inspect?
    ensures OwnOnly(Next(s, v, event), own)
  {
    hide Converse, NodeRun, NodeStep, StopDuring, Adopts, Extracted, Released, LearnedSet, Good, CtrlGood, Recover, LearnedFrom, Installed, Known, OwnLearned;
    match event
    case AtController(e) =>
    case AgentBoot =>
    case AgentCrash =>
    case AgentReconcile(env, rpc) =>
      if v.agent.up {
        NothingLearned(Reconcile);
        ConverseOwn(s, v, v.ctrl, Reconcile, env, rpc, own);
      }
    case AgentSync(fetch, env, rpc) =>
      if v.agent.up {
        var there := NodeRun(s.ctrl, v.ctrl, fetch.before);
        NothingLearned(Sync(Reply(fetch, there)));
        ConverseOwn(s, v, there, Sync(Reply(fetch, there)), env, rpc, own);
      }
    case AgentSyncCrash(fetch, env, k) =>
      if v.agent.up {
        var there := NodeRun(s.ctrl, v.ctrl, fetch.before);
        NothingLearned(Sync(Reply(fetch, there)));
        StopOwn(s, v, Sync(Reply(fetch, there)), env, k, own);
      }
    case Serve(i, env, rpc) =>
      if v.agent.up && i < |v.inbox| {
        LearnsOwn(v, i, own);
        ConverseOwn(s, v, v.ctrl, Learn(Extracted(v.inbox[i].message, v.inbox[i].trusted)), env, rpc, own);
      }
    case ServeCrash(i, env, k) =>
      if v.agent.up && i < |v.inbox| {
        LearnsOwn(v, i, own);
        StopOwn(s, v, Learn(Extracted(v.inbox[i].message, v.inbox[i].trusted)), env, k, own);
      }
  }

  lemma NothingLearned(op: Op)
    requires !op.Learn?
    ensures LearnedFrom(op) == {}
  {
  }

  lemma {:induction false} RunOwn(s: Setup, w: World, events: seq<Event>)
    requires Initial(s, w)
    ensures OwnOnly(Run(s, w, events), LearnedSet(w.agent.local.disk) + Heard(s, w, events))
  {
    hide Next, OwnOnly, LearnedSet, Released, Initial, WorldGood;
    if events == [] {
      StartOwn(s, w);
    } else {
      var front, last := events[..|events| - 1], events[|events| - 1];
      var v := Run(s, w, front);
      var own, more := LearnedSet(w.agent.local.disk) + Heard(s, w, front), LearnedSet(w.agent.local.disk) + Heard(s, w, events);
      RunOwn(s, w, front);
      RunGood(s, w, front);
      OwnOnlyMonotone(v, own, more);
      if last.Inspect? {
        InspectOwn(s, v, last.message, more);
      } else {
        NextOwn(s, v, last, more);
      }
    }
  }

  lemma StartOwn(s: Setup, w: World)
    requires Initial(s, w)
    ensures OwnOnly(w, LearnedSet(w.agent.local.disk) + {})
  {
  }

  lemma InspectOwn(s: Setup, v: World, message: Message, own: set<string>)
    requires OwnOnly(v, own) && Released(Response(message, Trusted(s.proxy, v.aliases, message))) <= own
    ensures OwnOnly(Next(s, v, Inspect(message)), own)
  {
    hide Released, LearnedSet, AliasesAfter, Trusted;
  }

  // In every reachable state, what the agent holds as learned, what it has
  // reported, and what any next operation would report, all come from its own
  // learned file at the start or from answers it inspected itself.
  lemma ReportsAreOwn(s: Setup, w: World, events: seq<Event>)
    requires Initial(s, w)
    ensures var v := Run(s, w, events);
            var own := LearnedSet(w.agent.local.disk) + Heard(s, w, events);
            v.agent.up ==> Elems(v.agent.local.memory.learned) <= own && Elems(v.agent.local.memory.lastReported) <= own
  {
    hide Run, Heard, Initial, Released, LearnedSet;
    RunOwn(s, w, events);
    RunGood(s, w, events);
  }
}
