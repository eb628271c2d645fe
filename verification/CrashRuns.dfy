// Exact crash recovery over whole runs of one node, of either role: operations,
// crashes inside them or between them, and starts from what is on disk.
module CrashRuns {
  import opened Strings
  import opened Networks
  import opened NetworkSets
  import opened Node
  import opened NodeInvariant
  import opened Recovery
  import opened Protocol
  import opened ProtocolSafety

  // A running node whose restart would give back its memory, or a stopped one
  // that can start.
  ghost predicate Restartable(c: Config, m: Machine) {
    && m.local.passed <= m.local.offered && m.local.clock >= 0
    && (if m.up then Good(c, m.local) && Exact(c, m.local) else Recover(c, m.local.disk).Some?)
  }

  // Every save works, or the node crashes before the operation ends.
  ghost predicate SavesWork(events: seq<NodeEvent>) {
    forall e | e in events ::
      && (e.Do? ==> e.env.saveLearned && e.env.saveState)
      && (e.Post? ==> e.env.saveLearned && e.env.saveState)
  }

  ghost predicate EventSavesEmpty(c: Config, m: Machine, e: NodeEvent) {
    m.up && (e.Do? || e.CrashDuring?) && SavesEmpty(c, m.local, e.op)
  }

  ghost predicate NeverSavesEmpty(c: Config, m: Machine, events: seq<NodeEvent>)
    decreases events
  {
    events == [] || (!EventSavesEmpty(c, m, events[0]) && NeverSavesEmpty(c, NodeStep(c, m, events[0]), events[1..]))
  }

  lemma StartExact(c: Config, m: Machine)
    requires !m.up && Restartable(c, m)
    ensures Restartable(c, BootMachine(c, m)) && BootMachine(c, m).up
  {
    StartGood(c, m);
  }

  lemma DoExact(c: Config, l: Local, op: Op, env: Env)
    requires Good(c, l) && Exact(c, l) && l.clock >= 0 && env.saveLearned && env.saveState && !SavesEmpty(c, l, op)
    ensures Restartable(c, Machine(true, Perform(c, l, op, env).local))
  {
    hide Perform, Good, Exact, SavesEmpty;
    PerformGood(c, l, op, env);
    ExactKept(c, l, op, env);
    GoodHistory(c, Perform(c, l, op, env).local);
  }

  lemma PostExact(c: Config, l: Local, payload: seq<string>, env: Env)
    requires Good(c, l) && Exact(c, l) && l.clock >= 0 && env.saveLearned && env.saveState
    ensures Restartable(c, Machine(true, HandlePost(c, l, payload, env).local))
  {
    hide Perform, Good, Exact, Validated, Merged;
    GoodHistory(c, l);
    AcceptSavesNothingEmpty(c, l, payload);
    DoExact(c, l, Accept(payload), env);
  }

  lemma AcceptSavesNothingEmpty(c: Config, l: Local, payload: seq<string>)
    ensures !SavesEmpty(c, l, Accept(payload))
  {
  }

  lemma CrashExact(c: Config, m: Machine, op: Op, env: Env, k: nat)
    requires m.up && Restartable(c, m) && !SavesEmpty(c, m.local, op)
    ensures Restartable(c, StopDuring(c, m, op, env, k))
  {
    hide Good, Exact, SavesEmpty, DisksDuring, Recover;
    var disks := DisksDuring(c, m.local, op, env);
    if k < |disks| {
      CrashRecovery(c, m.local, op, env, disks[k]);
    }
  }

  lemma StepExact(c: Config, m: Machine, e: NodeEvent)
    requires Restartable(c, m) && SavesWork([e]) && !EventSavesEmpty(c, m, e)
    ensures Restartable(c, NodeStep(c, m, e))
  {
    hide Restartable, Perform, HandlePost, Good, Exact, SavesEmpty, StopDuring, BootMachine;
    assert e in [e];
    RestartableParts(c, m);
    match e
    case Boot => if !m.up { StartExact(c, m); } else { BootedAlready(c, m); }
    case Crash => CrashIdle(c, m);
    case Do(op, env) => if m.up { DoExact(c, m.local, op, env); }
    case Post(payload, env) => if m.up { PostExact(c, m.local, payload, env); }
    case CrashDuring(op, env, k) => if m.up { CrashExact(c, m, op, env, k); } else { NothingToStop(c, m, op, env, k); }
  }

  lemma RestartableParts(c: Config, m: Machine)
    requires Restartable(c, m)
    ensures m.local.clock >= 0 && (m.up ==> Good(c, m.local) && Exact(c, m.local))
  {
  }

  lemma BootedAlready(c: Config, m: Machine)
    requires m.up
    ensures BootMachine(c, m) == m
  {
  }

  lemma NothingToStop(c: Config, m: Machine, op: Op, env: Env, k: nat)
    requires !m.up
    ensures StopDuring(c, m, op, env, k) == m
  {
  }

  lemma CrashIdle(c: Config, m: Machine)
    requires Restartable(c, m)
    ensures Restartable(c, Stop(m))
  {
  }

  // If every save works or the node crashes, and no empty list is saved, then at
  // every point of every run a stopped node can start, and a running one would
  // give back exactly its memory if it were restarted.
  lemma {:induction false} ExactRun(c: Config, m: Machine, events: seq<NodeEvent>, n: nat)
    requires Restartable(c, m) && SavesWork(events) && NeverSavesEmpty(c, m, events) && n <= |events|
    ensures Restartable(c, NodeRun(c, m, events[..n]))
    decreases n
  {
    hide Restartable, NodeStep, EventSavesEmpty;
    if n == 0 {
      assert events[..n] == [];
    } else {
      var first, rest := events[0], events[1..];
      FirstWorks(events);
      StepExact(c, m, first);
      assert events[..n][0] == first && events[..n][1..] == rest[..n - 1];
      ExactRun(c, NodeStep(c, m, first), rest, n - 1);
    }
  }

  lemma FirstWorks(events: seq<NodeEvent>)
    requires SavesWork(events) && events != []
    ensures SavesWork([events[0]]) && SavesWork(events[1..])
  {
    assert events[0] in events;
    assert forall e | e in events[1..] :: e in events;
  }

  // A controller never saves an empty list, so there the condition is free.
  lemma {:induction false} ControllerNeverSavesEmpty(c: Config, m: Machine, events: seq<NodeEvent>)
    requires c.role.Controller?
    ensures NeverSavesEmpty(c, m, events)
    decreases events
  {
    hide NodeStep;
    if events == [] {
    } else {
      ControllerNeverSavesEmpty(c, NodeStep(c, m, events[0]), events[1..]);
    }
  }

  // A crash, wherever it falls, and the start after it take a node back to the
  // lists before the operation or forward to those after it.
  lemma CrashThenStart(c: Config, m: Machine, op: Op, env: Env, k: nat)
    requires m.up && Restartable(c, m) && !SavesEmpty(c, m.local, op) && k < |DisksDuring(c, m.local, op, env)|
    ensures var again := NodeRun(c, m, [CrashDuring(op, env, k), Boot]);
            again.up && (Lists(again.local.memory) == Lists(m.local.memory) || Lists(again.local.memory) == PlannedLists(c, m.local, op, env))
  {
    hide Good, Exact, SavesEmpty, DisksDuring, Recover, PlannedLists;
    var disks := DisksDuring(c, m.local, op, env);
    var down := StopDuring(c, m, op, env, k);
    CrashRecovery(c, m.local, op, env, disks[k]);
    assert [CrashDuring(op, env, k), Boot][1..] == [Boot] && [Boot][1..] == [];
    assert NodeRun(c, m, [CrashDuring(op, env, k), Boot]) == NodeRun(c, down, [Boot]) == BootMachine(c, down);
  }
}
