// internal/pbr/runtime.go: what one node's operations do to its memory, its
// two files and its drivers, as functions of the state before and of what the
// environment answers. Runtime.dfy proves the code against these functions.
module Node {
  import opened Strings
  import opened Networks
  import opened NetworkSets

  datatype Role = Controller | Agent

  datatype Config = Config(role: Role, seeds: seq<string>, maxNetworks: int, reapplyEvery: nat)

  datatype Memory = Memory(
    desired: seq<string>, learned: seq<string>,
    applied: seq<string>, appliedKnown: bool, appliedAt: int,
    lastReported: seq<string>)

  // state_file and state_file.learned
  datatype Disk = Disk(state: Option<string>, learned: Option<string>)

  // The last call of a configured driver.
  datatype Call = Never | Call(nets: seq<string>, ok: bool)

  // calls has one entry per configured driver. offered collects every network
  // ever handed to a driver, passed every network of a pass in which all
  // drivers succeeded; both outlive the process, like the kernel's state.
  datatype Local = Local(
    memory: Memory, disk: Disk, calls: seq<Call>,
    offered: set<string>, passed: set<string>, clock: int)

  // The environment's answers during one operation: the time before and during
  // the apply pass, each driver's result, each save's result, and whether the
  // controller acknowledges a report.
  datatype Env = Env(wait: nat, took: nat, drivers: seq<bool>, saveLearned: bool, saveState: bool, ack: bool)

  // reply is the controller's decoded answer to a fetch, or None for a failed one.
  datatype Op =
    | Reconcile
    | Sync(reply: Option<seq<string>>)
    | Learn(networks: seq<string>)
    | Accept(networks: seq<string>)

  const BLANK := Memory([], [], [], false, 0, [])

  function Max(c: Config): nat {
    Limit(c.maxNetworks)
  }

  // ---- newRuntime ----

  // The desired and learned lists a start from these files would have.
  ghost function Recover(c: Config, d: Disk): Option<(seq<string>, seq<string>)> {
    match Validated(LoadState(d.state), false, Max(c))
    case None => None
    case Some(state) =>
      match Validated(LoadState(d.learned), true, Max(c))
      case None => None
      case Some(learned) =>
        match Validated(Merged([state, learned, c.seeds]), false, Max(c))
        case None => None
        case Some(desired) => Some((desired, learned))
  }

  // ---- what an operation does before reconciling ----

  // writes lists the disk after each completed save, in order. proceed tells
  // whether reconcileLocked is reached, complete whether the operation can
  // still return without an error.
  datatype Staged = Staged(memory: Memory, disk: Disk, writes: seq<Disk>, proceed: bool, complete: bool)

  function Refused(m: Memory, d: Disk, writes: seq<Disk>): Staged {
    Staged(m, d, writes, false, false)
  }

  // fetch
  ghost function Discovered(c: Config, reply: Option<seq<string>>): Option<seq<string>> {
    match reply
    case None => None
    case Some(networks) => Validated(networks, false, Max(c))
  }

  // The desired list a fetch leads to; None when the union does not validate.
  ghost function PlanSync(c: Config, m: Memory, discovered: seq<string>): Option<seq<string>> {
    Validated(Merged([discovered, m.learned, c.seeds]), false, Max(c))
  }

  // The learned and desired lists that learning the networks leads to.
  ghost function PlanLearn(c: Config, m: Memory, networks: seq<string>): Option<(seq<string>, seq<string>)> {
    match Validated(networks, true, Max(c))
    case None => None
    case Some(learned) =>
      match Validated(Merged([m.learned, learned]), true, Max(c))
      case None => None
      case Some(nextLearned) =>
        match Validated(Merged([m.desired, nextLearned, c.seeds]), false, Max(c))
        case None => None
        case Some(next) => Some((nextLearned, next))
  }

  ghost function PlanAccept(c: Config, m: Memory, networks: seq<string>): Option<seq<string>> {
    match Validated(networks, true, Max(c))
    case None => None
    case Some(report) => Validated(Merged([m.desired, report]), false, Max(c))
  }

  // Saving a changed desired list, then adopting it.
  function AdoptDesired(m: Memory, d: Disk, next: seq<string>, env: Env): Staged {
    if m.desired == next then Staged(m, d, [], true, true)
    else if !env.saveState then Refused(m, d, [])
    else
      var saved := d.(state := Some(SaveState(next)));
      Staged(m.(desired := next), saved, [saved], true, true)
  }

  // Saving what was learned, then saving and adopting the desired list.
  function AdoptLearned(m: Memory, d: Disk, nextLearned: seq<string>, next: seq<string>, env: Env): Staged {
    if m.learned == nextLearned then
      var s := AdoptDesired(m, d, next, env);
      if s.proceed then s.(memory := s.memory.(learned := nextLearned)) else s
    else if !env.saveLearned then Refused(m, d, [])
    else
      var saved := d.(learned := Some(SaveState(nextLearned)));
      var s := AdoptDesired(m, saved, next, env);
      if s.proceed
      then s.(memory := s.memory.(learned := nextLearned), writes := [saved] + s.writes)
      else s.(writes := [saved] + s.writes)
  }

  ghost function PersistSync(c: Config, m: Memory, d: Disk, reply: Option<seq<string>>, env: Env): Staged {
    match Discovered(c, reply)
    case None => Staged(m, d, [], true, false)
    case Some(discovered) =>
      match PlanSync(c, m, discovered)
      case None => Refused(m, d, [])
      case Some(next) => AdoptDesired(m, d, next, env)
  }

  ghost function PersistLearn(c: Config, m: Memory, d: Disk, networks: seq<string>, env: Env): Staged {
    match PlanLearn(c, m, networks)
    case None => Refused(m, d, [])
    case Some((nextLearned, next)) => AdoptLearned(m, d, nextLearned, next, env)
  }

  ghost function PersistAccept(c: Config, m: Memory, d: Disk, networks: seq<string>, env: Env): Staged {
    match PlanAccept(c, m, networks)
    case None => Refused(m, d, [])
    case Some(next) => AdoptDesired(m, d, next, env)
  }

  ghost function Persist(c: Config, m: Memory, d: Disk, op: Op, env: Env): Staged {
    match op
    case Reconcile => Staged(m, d, [], true, true)
    case Sync(reply) => if c.role.Controller? then Staged(m, d, [], true, true) else PersistSync(c, m, d, reply, env)
    case Learn(networks) => PersistLearn(c, m, d, networks, env)
    case Accept(networks) => PersistAccept(c, m, d, networks, env)
  }

  // ---- reconcileLocked ----

  predicate Succeeds(drivers: seq<bool>, i: nat) {
    i < |drivers| && drivers[i]
  }

  // The pass over config.Apply from driver i on: it stops at the first failure.
  function RunDrivers(calls: seq<Call>, drivers: seq<bool>, nets: seq<string>, i: nat): (r: (seq<Call>, bool))
    requires i <= |calls|
    ensures |r.0| == |calls|
    ensures forall j | 0 <= j < i :: r.0[j] == calls[j]
    ensures r.1 ==> forall j | i <= j < |calls| :: r.0[j] == Call(nets, true)
    ensures !r.1 ==> exists j | i <= j < |calls| :: r.0[j] == Call(nets, false)
    decreases |calls| - i
  {
    if i == |calls| then (calls, true)
    else
      var next := calls[i := Call(nets, Succeeds(drivers, i))];
      assert next[i] == Call(nets, Succeeds(drivers, i));
      if Succeeds(drivers, i) then RunDrivers(next, drivers, nets, i + 1) else (next, false)
  }

  predicate Changed(m: Memory) {
    !m.appliedKnown || m.desired != m.applied
  }

  predicate PassRuns(c: Config, m: Memory, now: int) {
    Changed(m) || now - m.appliedAt >= c.reapplyEvery
  }

  datatype Outcome = Outcome(local: Local, ok: bool)

  // One pass over the drivers; only a complete one updates what is recorded.
  function Pass(l: Local, drivers: seq<bool>, done: int): Outcome {
    var m := l.memory;
    var (calls, ok) := RunDrivers(l.calls, drivers, m.desired, 0);
    var tried := l.(calls := calls, offered := l.offered + Elems(m.desired), clock := done);
    if !ok then Outcome(tried, false)
    else Outcome(tried.(memory := m.(applied := m.desired, appliedKnown := true, appliedAt := done),
                        passed := l.passed + Elems(m.desired)), true)
  }

  function Apply(c: Config, l: Local, env: Env): Outcome {
    var now := l.clock + env.wait;
    if PassRuns(c, l.memory, now) then Pass(l, env.drivers, now + env.took)
    else Outcome(l.(clock := now), true)
  }

  predicate NeedsReport(c: Config, m: Memory) {
    c.role.Agent? && m.learned != m.lastReported
  }

  // The networks report puts in its payload.
  function Hosts(networks: seq<string>): seq<string> {
    if networks == [] then []
    else (if IsHost(networks[0]) then [networks[0]] else []) + Hosts(networks[1..])
  }

  function Report(c: Config, l: Local, env: Env): Outcome {
    if !NeedsReport(c, l.memory) then Outcome(l, true)
    else if !env.ack then Outcome(l, false)
    else Outcome(l.(memory := l.memory.(lastReported := l.memory.learned)), true)
  }

  // The payload reconcileLocked sends, if its pass succeeds and there is news.
  function SendsReport(c: Config, l: Local, env: Env): Option<seq<string>> {
    var applied := Apply(c, l, env);
    if applied.ok && NeedsReport(c, applied.local.memory) then Some(Hosts(applied.local.memory.learned)) else None
  }

  function Reconciled(c: Config, l: Local, env: Env): Outcome {
    var applied := Apply(c, l, env);
    if !applied.ok then applied else Report(c, applied.local, env)
  }

  // ---- whole operations ----

  function Continue(c: Config, l: Local, proceed: bool, complete: bool, env: Env): Outcome {
    if !proceed then Outcome(l, false)
    else
      var r := Reconciled(c, l, env);
      Outcome(r.local, r.ok && complete)
  }

  ghost function Perform(c: Config, l: Local, op: Op, env: Env): Outcome {
    var staged := Persist(c, l.memory, l.disk, op, env);
    Continue(c, l.(memory := staged.memory, disk := staged.disk), staged.proceed, staged.complete, env)
  }

  // The disks a crash during the operation can leave, oldest first.
  ghost function DisksDuring(c: Config, l: Local, op: Op, env: Env): seq<Disk> {
    [l.disk] + Persist(c, l.memory, l.disk, op, env).writes
  }

  // The payload of the report the operation sends, if it gets that far.
  ghost function Sends(c: Config, l: Local, op: Op, env: Env): Option<seq<string>> {
    var staged := Persist(c, l.memory, l.disk, op, env);
    if staged.proceed then SendsReport(c, l.(memory := staged.memory, disk := staged.disk), env) else None
  }

  // Everything memory holds at some time during the operation, between the
  // locks it takes: recordStatus may run at any of these times.
  ghost function MemoriesDuring(c: Config, l: Local, op: Op, env: Env): seq<Memory> {
    var staged := Persist(c, l.memory, l.disk, op, env);
    var ready := l.(memory := staged.memory, disk := staged.disk);
    if !staged.proceed then [l.memory, staged.memory]
    else [l.memory, staged.memory, Apply(c, ready, env).local.memory, Reconciled(c, ready, env).local.memory]
  }

  // The POST branch of handler: true is 204.
  ghost function HandlePost(c: Config, l: Local, payload: seq<string>, env: Env): Outcome {
    if c.role.Agent? then Outcome(l, false)
    else if |payload| > Max(c) then Outcome(l, false)
    else if Validated(payload, true, Max(c)).None? then Outcome(l, false)
    else if Validated(Merged([l.memory.desired, payload]), false, Max(c)).None? then Outcome(l, false)
    else Perform(c, l, Accept(payload), env)
  }

  // ---- recordStatus and the count tests of Doctor ----

  datatype Status = Status(desired: nat, learned: nat, applied: nat, reported: nat, appliedKnown: bool)

  function StatusOf(c: Config, m: Memory): Status {
    Status(|m.desired|, if c.role.Controller? then |m.desired| else |m.learned|, |m.applied|, |m.lastReported|, m.appliedKnown)
  }

  predicate LearnedIsApplied(s: Status) {
    s.appliedKnown && s.applied >= s.learned
  }

  predicate LearnedIsReported(s: Status) {
    s.reported >= s.learned
  }
}
