// internal/pbr/runtime.go: the daemon's object. Each method does what the
// source does, field by field and save by save; its contract equates the new
// state with the function of Node.dfy.
module RuntimeModel {
  import opened Strings
  import opened Networks
  import opened NetworkSets
  import opened Node

  class Runtime {
    const config: Config
    var desired: seq<string>
    var learned: seq<string>
    var applied: seq<string>
    var appliedKnown: bool
    var appliedAt: int
    var lastReported: seq<string>
    var stateFile: Option<string>
    var learnedFile: Option<string>
    var calls: seq<Call>
    var clock: int
    ghost var offered: set<string>
    ghost var passed: set<string>
    // The disk after each save since the process started.
    ghost var writes: seq<Disk>
    // The payload that the last operation sent, if it sent one.
    ghost var sent: Option<seq<string>>

    ghost function Memory(): Memory
      reads this
    {
      Node.Memory(desired, learned, applied, appliedKnown, appliedAt, lastReported)
    }

    ghost function Files(): Disk
      reads this
    {
      Disk(stateFile, learnedFile)
    }

    ghost function Snapshot(): Local
      reads this
    {
      Local(Memory(), Files(), calls, offered, passed, clock)
    }

    constructor (config: Config, desired: seq<string>, learned: seq<string>, disk: Disk, calls: seq<Call>,
                 ghost offered: set<string>, ghost passed: set<string>, clock: int)
      ensures this.config == config && writes == []
      ensures Snapshot() == Local(BLANK.(desired := desired, learned := learned), disk, calls, offered, passed, clock)
    {
      this.config := config;
      this.desired, this.learned := desired, learned;
      this.applied, this.appliedKnown, this.appliedAt, this.lastReported := [], false, 0, [];
      this.stateFile, this.learnedFile := disk.state, disk.learned;
      this.calls, this.clock := calls, clock;
      this.offered, this.passed, this.writes, this.sent := offered, passed, [], None;
    }

    // SaveState on state_file: a failed save leaves the old file.
    method SaveStateFile(values: seq<string>, works: bool) returns (saved: bool)
      modifies this`stateFile, this`writes
      ensures saved == works
      ensures stateFile == if works then Some(NetworkSets.SaveState(values)) else old(stateFile)
      ensures writes == if works then old(writes) + [Files()] else old(writes)
    {
      if works {
        stateFile := Some(NetworkSets.SaveState(values));
        writes := writes + [Disk(stateFile, learnedFile)];
      }
      return works;
    }

    method SaveLearnedFile(values: seq<string>, works: bool) returns (saved: bool)
      modifies this`learnedFile, this`writes
      ensures saved == works
      ensures learnedFile == if works then Some(NetworkSets.SaveState(values)) else old(learnedFile)
      ensures writes == if works then old(writes) + [Files()] else old(writes)
    {
      if works {
        learnedFile := Some(NetworkSets.SaveState(values));
        writes := writes + [Disk(stateFile, learnedFile)];
      }
      return works;
    }

    // The merges and checks of learn, before its first save.
    method LearnPlan(networks: seq<string>) returns (plan: Option<(seq<string>, seq<string>)>)
      ensures plan == PlanLearn(config, Memory(), networks)
    {
      var max := Max(config);
      var valid := ValidateNetworks(networks, true, max);
      if valid.None? {
        return None;
      }
      var merged := Merge([learned, valid.value]);
      var nextLearned := ValidateNetworks(merged, true, max);
      if nextLearned.None? {
        return None;
      }
      merged := Merge([desired, nextLearned.value, config.seeds]);
      var next := ValidateNetworks(merged, false, max);
      if next.None? {
        return None;
      }
      return Some((nextLearned.value, next.value));
    }

    // The save of a changed desired list, as sync, learn and acceptReport do it.
    method SaveDesired(next: seq<string>, env: Env) returns (saved: bool)
      modifies this`stateFile, this`writes
      ensures var s := AdoptDesired(old(Memory()), old(Files()), next, env);
              Files() == s.disk && saved == s.proceed && writes == old(writes) + s.writes
    {
      var same := Equal(desired, next);
      saved := true;
      if !same {
        saved := SaveStateFile(next, env.saveState);
      }
    }

    // The two saves of learn, in their order, and the adoption of both lists.
    method SaveBoth(nextLearned: seq<string>, next: seq<string>, env: Env) returns (saved: bool)
      modifies this`desired, this`learned, this`stateFile, this`learnedFile, this`writes
      ensures var s := AdoptLearned(old(Memory()), old(Files()), nextLearned, next, env);
              Memory() == s.memory && Files() == s.disk && saved == s.proceed == s.complete && writes == old(writes) + s.writes
    {
      var same := Equal(learned, nextLearned);
      if !same {
        saved := SaveLearnedFile(nextLearned, env.saveLearned);
        if !saved {
          return;
        }
      }
      saved := SaveDesired(next, env);
      if saved {
        desired, learned := next, nextLearned;
      }
    }

    method LearnStage(networks: seq<string>, env: Env) returns (proceed: bool)
      modifies this`desired, this`learned, this`stateFile, this`learnedFile, this`writes
      ensures var s := PersistLearn(config, old(Memory()), old(Files()), networks, env);
              Memory() == s.memory && Files() == s.disk && proceed == s.proceed == s.complete && writes == old(writes) + s.writes
    {
      var plan := LearnPlan(networks);
      if plan.None? {
        return false;
      }
      proceed := SaveBoth(plan.value.0, plan.value.1, env);
    }

    method Learn(networks: seq<string>, env: Env) returns (ok: bool)
      modifies this
      ensures Outcome(Snapshot(), ok) == Perform(config, old(Snapshot()), Op.Learn(networks), env)
      ensures writes == old(writes) + Persist(config, old(Memory()), old(Files()), Op.Learn(networks), env).writes
      ensures sent == Sends(config, old(Snapshot()), Op.Learn(networks), env)
    {
      ghost var before := Snapshot();
      var proceed := LearnStage(networks, env);
      ghost var staged := Persist(config, before.memory, before.disk, Op.Learn(networks), env);
      assert Snapshot() == before.(memory := staged.memory, disk := staged.disk);
      ok := Continue(proceed, proceed, env);
    }

    // fetch, on the controller's decoded reply
    method Fetch(reply: Option<seq<string>>) returns (discovered: Option<seq<string>>)
      ensures discovered == Discovered(config, reply)
    {
      if reply.None? {
        return None;
      }
      discovered := ValidateNetworks(reply.value, false, Max(config));
    }

    method SyncPlan(discovered: seq<string>) returns (plan: Option<seq<string>>)
      ensures plan == PlanSync(config, Memory(), discovered)
    {
      var merged := Merge([discovered, learned, config.seeds]);
      plan := ValidateNetworks(merged, false, Max(config));
    }

    method SyncStage(reply: Option<seq<string>>, env: Env) returns (proceed: bool, complete: bool)
      modifies this`desired, this`stateFile, this`writes
      ensures var s := PersistSync(config, old(Memory()), old(Files()), reply, env);
              Memory() == s.memory && Files() == s.disk && proceed == s.proceed && complete == s.complete &&
              writes == old(writes) + s.writes
    {
      var discovered := Fetch(reply);
      if discovered.None? {
        return true, false;
      }
      var plan := SyncPlan(discovered.value);
      if plan.None? {
        return false, false;
      }
      proceed := SaveAndAdopt(plan.value, env);
      complete := proceed;
    }

    method Sync(reply: Option<seq<string>>, env: Env) returns (ok: bool)
      modifies this
      ensures Outcome(Snapshot(), ok) == Perform(config, old(Snapshot()), Op.Sync(reply), env)
      ensures writes == old(writes) + Persist(config, old(Memory()), old(Files()), Op.Sync(reply), env).writes
      ensures sent == Sends(config, old(Snapshot()), Op.Sync(reply), env)
    {
      if config.role == Controller {
        ok := ReconcileLocked(env);
        return;
      }
      ghost var before := Snapshot();
      var proceed, complete := SyncStage(reply, env);
      ghost var staged := Persist(config, before.memory, before.disk, Op.Sync(reply), env);
      assert Snapshot() == before.(memory := staged.memory, disk := staged.disk);
      ok := Continue(proceed, complete, env);
    }

    // The merge and checks of acceptReport, before its save.
    method AcceptPlan(networks: seq<string>) returns (plan: Option<seq<string>>)
      ensures plan == PlanAccept(config, Memory(), networks)
    {
      var report := ValidateNetworks(networks, true, Max(config));
      if report.None? {
        return None;
      }
      var merged := Merge([desired, report.value]);
      plan := ValidateNetworks(merged, false, Max(config));
    }

    // Saving and adopting a planned desired list.
    method SaveAndAdopt(next: seq<string>, env: Env) returns (saved: bool)
      modifies this`desired, this`stateFile, this`writes
      ensures var s := AdoptDesired(old(Memory()), old(Files()), next, env);
              Memory() == s.memory && Files() == s.disk && saved == s.proceed == s.complete && writes == old(writes) + s.writes
    {
      saved := SaveDesired(next, env);
      if saved {
        desired := next;
      }
    }

    method AcceptReportStage(networks: seq<string>, env: Env) returns (proceed: bool)
      modifies this`desired, this`stateFile, this`writes
      ensures var s := PersistAccept(config, old(Memory()), old(Files()), networks, env);
              Memory() == s.memory && Files() == s.disk && proceed == s.proceed == s.complete && writes == old(writes) + s.writes
    {
      var plan := AcceptPlan(networks);
      if plan.None? {
        return false;
      }
      proceed := SaveAndAdopt(plan.value, env);
    }

    method AcceptReport(networks: seq<string>, env: Env) returns (ok: bool)
      modifies this
      ensures Outcome(Snapshot(), ok) == Perform(config, old(Snapshot()), Accept(networks), env)
      ensures writes == old(writes) + Persist(config, old(Memory()), old(Files()), Accept(networks), env).writes
      ensures sent == Sends(config, old(Snapshot()), Accept(networks), env)
    {
      ghost var before := Snapshot();
      var proceed := AcceptReportStage(networks, env);
      ghost var staged := Persist(config, before.memory, before.disk, Accept(networks), env);
      assert Snapshot() == before.(memory := staged.memory, disk := staged.disk);
      ok := Continue(proceed, proceed, env);
    }

    // The POST branch of the API handler; ok is 204.
    method HandlePost(payload: seq<string>, env: Env) returns (ok: bool)
      modifies this
      ensures Outcome(Snapshot(), ok) == Node.HandlePost(config, old(Snapshot()), payload, env)
    {
      if config.role != Controller || |payload| > Max(config) {
        return false;
      }
      var valid := ValidateNetworks(payload, true, Max(config));
      if valid.None? {
        return false;
      }
      var merged := Merge([desired, payload]);
      valid := ValidateNetworks(merged, false, Max(config));
      if valid.None? {
        return false;
      }
      ok := AcceptReport(payload, env);
    }

    // The loop over config.Apply in reconcileLocked.
    method CallDrivers(drivers: seq<bool>) returns (ok: bool)
      modifies this`calls
      ensures (calls, ok) == RunDrivers(old(calls), drivers, desired, 0)
    {
      var i := 0;
      while i < |calls|
        invariant i <= |calls|
        invariant RunDrivers(old(calls), drivers, desired, 0) == RunDrivers(calls, drivers, desired, i)
      {
        var works := Succeeds(drivers, i);
        calls := calls[i := Call(desired, works)];
        if !works {
          return false;
        }
        i := i + 1;
      }
      return true;
    }

    method RunPass(drivers: seq<bool>, done: int) returns (ok: bool)
      modifies this`applied, this`appliedKnown, this`appliedAt, this`calls, this`clock, this`offered, this`passed
      ensures Outcome(Snapshot(), ok) == Pass(old(Snapshot()), drivers, done)
    {
      hide RunDrivers, Elems;
      offered := offered + Elems(desired);
      clock := done;
      ok := CallDrivers(drivers);
      if ok {
        applied, appliedKnown, appliedAt := desired, true, done;
        passed := passed + Elems(desired);
      }
    }

    // The first half of reconcileLocked.
    method ApplyDesired(env: Env) returns (ok: bool)
      modifies this`applied, this`appliedKnown, this`appliedAt, this`calls, this`clock, this`offered, this`passed
      ensures Outcome(Snapshot(), ok) == Apply(config, old(Snapshot()), env)
    {
      ghost var before := Snapshot();
      var now := clock + env.wait;
      var same := Equal(desired, applied);
      var changed := !appliedKnown || !same;
      var periodic := !changed && now - appliedAt >= config.reapplyEvery;
      assert (changed || periodic) == PassRuns(config, before.memory, now);
      if changed || periodic {
        ok := RunPass(drivers := env.drivers, done := now + env.took);
      } else {
        clock := now;
        ok := true;
      }
    }

    method ReconcileLocked(env: Env) returns (ok: bool)
      modifies this`applied, this`appliedKnown, this`appliedAt, this`lastReported, this`calls, this`clock
      modifies this`offered, this`passed, this`sent
      ensures Outcome(Snapshot(), ok) == Reconciled(config, old(Snapshot()), env)
      ensures sent == SendsReport(config, old(Snapshot()), env)
    {
      sent := None;
      ok := ApplyDesired(env);
      if !ok {
        return;
      }
      var same := Equal(learned, lastReported);
      if config.role == Agent && !same {
        ok := Report(learned, env);
        if !ok {
          return;
        }
        lastReported := learned;
      }
      return true;
    }

    // report: the controller's answer is 204 or it is an error.
    method Report(networks: seq<string>, env: Env) returns (ok: bool)
      modifies this`sent
      ensures ok == env.ack && sent == Some(Hosts(networks))
    {
      var hosts := ReportPayload(networks);
      sent := Some(hosts);
      return env.ack;
    }

    // The end of sync, learn and acceptReport.
    method Continue(proceed: bool, complete: bool, env: Env) returns (ok: bool)
      modifies this`applied, this`appliedKnown, this`appliedAt, this`lastReported, this`calls, this`clock
      modifies this`offered, this`passed, this`sent
      ensures Outcome(Snapshot(), ok) == Node.Continue(config, old(Snapshot()), proceed, complete, env)
      ensures sent == if proceed then SendsReport(config, old(Snapshot()), env) else None
    {
      if !proceed {
        sent := None;
        return false;
      }
      ok := ReconcileLocked(env);
      ok := ok && complete;
    }

    // The payload of report.
    method ReportPayload(networks: seq<string>) returns (hosts: seq<string>)
      ensures hosts == Hosts(networks)
    {
      hosts := [];
      for i := 0 to |networks|
        invariant hosts + Hosts(networks[i..]) == Hosts(networks)
      {
        if IsHost(networks[i]) {
          hosts := hosts + [networks[i]];
        }
        assert networks[i..][1..] == networks[i + 1..];
      }
    }
  }

  // newRuntime: null is any of its errors.
  method NewRuntime(config: Config, disk: Disk, calls: seq<Call>,
                    ghost offered: set<string>, ghost passed: set<string>, clock: int) returns (r: Runtime?)
    ensures r == null <==> Recover(config, disk).None?
    ensures r != null ==> fresh(r) && r.config == config && r.writes == []
    ensures r != null ==>
              var (desired, learned) := Recover(config, disk).value;
              r.Snapshot() == Local(BLANK.(desired := desired, learned := learned), disk, calls, offered, passed, clock)
  {
    var max := Max(config);
    var state := ValidateNetworks(LoadState(disk.state), false, max);
    if state.None? {
      return null;
    }
    var learned := ValidateNetworks(LoadState(disk.learned), true, max);
    if learned.None? {
      return null;
    }
    var merged := Merge([state.value, learned.value, config.seeds]);
    var desired := ValidateNetworks(merged, false, max);
    if desired.None? {
      return null;
    }
    r := new Runtime(config, desired.value, learned.value, disk, calls, offered, passed, clock);
  }
}
