// Crash recovery: what newRuntime makes of the disk at every instant.
module Recovery {
  import opened Strings
  import opened Networks
  import opened NetworkSets
  import opened Node
  import opened NodeInvariant

  ghost function Lists(m: Memory): (seq<string>, seq<string>) {
    (m.desired, m.learned)
  }

  // A restart right now would give back exactly what memory holds.
  ghost predicate Exact(c: Config, l: Local) {
    Recover(c, l.disk) == Some(Lists(l.memory))
  }

  ghost predicate Loadable(c: Config, d: Disk) {
    Validated(LoadState(d.state), false, Max(c)).Some? && Validated(LoadState(d.learned), true, Max(c)).Some?
  }

  // The lists memory holds after the operation when its saves work.
  ghost function PlannedLists(c: Config, l: Local, op: Op, env: Env): (seq<string>, seq<string>) {
    Lists(Persist(c, l.memory, l.disk, op, env.(saveLearned := true, saveState := true)).memory)
  }

  // The one operation that writes an empty list: an agent's sync.
  ghost predicate SavesEmpty(c: Config, l: Local, op: Op) {
    && c.role.Agent? && op.Sync? && l.memory.desired != []
    && Discovered(c, op.reply).Some? && PlanSync(c, l.memory, Discovered(c, op.reply).value) == Some([])
  }

  lemma SavesEmptyExactly(c: Config, l: Local, op: Op)
    requires Good(c, l)
    ensures SavesEmpty(c, l, op) <==>
      c.role.Agent? && op == Sync(Some([])) && l.memory.desired != [] && l.memory.learned == [] && CanonSet(c.seeds) == {}
  {
    if SavesEmpty(c, l, op) {
      PlanSyncMeaning(c, l.memory, op.reply);
      ElemsEmpty<string>([]);
      ElemsEmpty(l.memory.learned);
      NonEmptyCanon(op.reply.value);
    } else if c.role.Agent? && op == Sync(Some([])) && l.memory.desired != [] && l.memory.learned == [] && CanonSet(c.seeds) == {} {
      EmptyUnion(c);
    }
  }

  lemma NonEmptyCanon(networks: seq<string>)
    ensures networks != [] && AllAcceptable(networks, false) ==> CanonSet(networks) != {}
  {
    if networks != [] && AllAcceptable(networks, false) {
      assert networks[0] in networks;
      assert CanonicalNetwork(networks[0]).value in CanonSet(networks);
    }
  }

  lemma EmptyUnion(c: Config)
    requires CanonSet(c.seeds) == {}
    ensures Discovered(c, Some([])) == Some([])
    ensures Validated(Merged([[], [], c.seeds]), false, Max(c)) == Some([])
  {
    assert CanonList([]);
    ValidatedSelf([], false, Max(c));
    CanonSets3([], [], c.seeds);
    CanonListSet([]);
    assert CanonSets([[], [], c.seeds]) == {};
    assert Merged([[], [], c.seeds]) == [];
  }

  lemma RecoverIs(c: Config, d: Disk, desired: seq<string>, learned: seq<string>)
    requires Loadable(c, d)
    requires BoundedList(desired, c) && Elems(desired) == Durable(c, d)
    requires BoundedList(learned, c) && Elems(learned) == LearnedSet(d)
    ensures Recover(c, d) == Some((desired, learned))
  {
    hide Validated, LoadState, StrictlySorted, IsHost;
    ValidatedList(LoadState(d.state), false, Max(c));
    ValidatedList(LoadState(d.learned), true, Max(c));
    var s := Validated(LoadState(d.state), false, Max(c)).value;
    var t := Validated(LoadState(d.learned), true, Max(c)).value;
    EqualIsSetEquality(t, learned);
    MergedMeaning([s, t, c.seeds]);
    CanonSets3(s, t, c.seeds);
    CanonListSet(s);
    CanonListSet(t);
    EqualIsSetEquality(Merged([s, t, c.seeds]), desired);
    ValidatedSelf(desired, false, Max(c));
  }

  lemma RecoverLoadable(c: Config, d: Disk)
    requires Recover(c, d).Some?
    ensures Loadable(c, d)
  {
    hide Validated;
  }

  // A node starts if and only if both files validate and their union with the
  // seeds fits the limit.
  lemma RecoverExactly(c: Config, d: Disk)
    ensures Recover(c, d).Some? <==> Loadable(c, d) && |Durable(c, d)| <= Max(c)
  {
    if Loadable(c, d) {
      ValidatedList(LoadState(d.state), false, Max(c));
      ValidatedList(LoadState(d.learned), true, Max(c));
      hide Validated;
      var s, t := Validated(LoadState(d.state), false, Max(c)).value, Validated(LoadState(d.learned), true, Max(c)).value;
      CanonSets3(s, t, c.seeds);
      CanonListSet(s);
      CanonListSet(t);
      MergedMeaning([s, t, c.seeds]);
      SortedSize(Merged([s, t, c.seeds]));
      ValidatedSelf(Merged([s, t, c.seeds]), false, Max(c));
    }
  }

  // Saving a desired list: the disk then restarts to it, unless it is empty.
  lemma AdoptRecovers(c: Config, m: Memory, d: Disk, next: seq<string>, learned: seq<string>, env: Env, w: Disk)
    requires Loadable(c, d) && BoundedList(learned, c) && Elems(learned) == LearnedSet(d)
    requires BoundedList(next, c) && LearnedSet(d) + CanonSet(c.seeds) <= Elems(next)
    requires w in AdoptDesired(m, d, next, env).writes
    ensures Recover(c, w) == if next == [] then None else Some((next, learned))
  {
    hide Validated;
    assert w == d.(state := Some(SaveState(next)));
    SavedValidates(next, false, Max(c));
    if next != [] {
      ReadBackSet(next);
      assert StateSet(w) == Elems(next) && LearnedSet(w) == LearnedSet(d);
      assert Durable(c, w) == Elems(next);
      RecoverIs(c, w, next, learned);
    }
  }

  // Saving the learned list alone already restarts to the lists after learn.
  lemma LearnedFirst(c: Config, m: Memory, d: Disk, nextLearned: seq<string>, next: seq<string>)
    requires Recover(c, d) == Some(Lists(m)) && ListsGood(c, m) && FilesGood(c, m, d)
    requires BoundedList(nextLearned, c) && AllHosts(nextLearned) && Elems(m.learned) <= Elems(nextLearned)
    requires m.learned != nextLearned
    requires BoundedList(next, c) && Elems(next) == Elems(m.desired) + Elems(nextLearned) + CanonSet(c.seeds)
    ensures var saved := d.(learned := Some(SaveState(nextLearned)));
            Recover(c, saved) == Some((next, nextLearned)) && Loadable(c, saved) && LearnedSet(saved) == Elems(nextLearned)
  {
    hide Validated;
    var saved := d.(learned := Some(SaveState(nextLearned)));
    RecoverMeaning(c, d);
    RecoverLoadable(c, d);
    LearnedSaved(c, m, d, nextLearned);
    EqualIsSetEquality(m.learned, nextLearned);
    assert nextLearned == [] ==> Elems(nextLearned) == {};
    SavedValidates(nextLearned, true, Max(c));
    assert Durable(c, saved) == Elems(next);
    RecoverIs(c, saved, next, nextLearned);
  }

  // From an exact state, whatever fails and wherever the node crashes, the disk
  // restarts to the lists before the operation or to the lists after it. The
  // exception is an agent's sync that saves an empty list: then it does not
  // restart at all.
  lemma CrashRecovery(c: Config, l: Local, op: Op, env: Env, w: Disk)
    requires Good(c, l) && Exact(c, l) && w in DisksDuring(c, l, op, env)
    ensures Recover(c, w).None? <==> SavesEmpty(c, l, op) && w != l.disk
    ensures Recover(c, w).Some? ==>
              Recover(c, w).value == Lists(l.memory) || Recover(c, w).value == PlannedLists(c, l, op, env)
    ensures Recover(c, w).Some? ==>
              |Recover(c, w).value.0| <= Max(c) && |Recover(c, w).value.1| <= Max(c)
  {
    hide Validated;
    if Recover(c, w).Some? {
      RecoverMeaning(c, w);
    }
    if w != l.disk {
      assert w in Persist(c, l.memory, l.disk, op, env).writes;
      CrashAfterSave(c, l, op, env, w);
    }
  }

  lemma CrashAfterSave(c: Config, l: Local, op: Op, env: Env, w: Disk)
    requires Good(c, l) && Exact(c, l) && w in Persist(c, l.memory, l.disk, op, env).writes
    ensures Recover(c, w) == if SavesEmpty(c, l, op) then None else Some(PlannedLists(c, l, op, env))
  {
    hide Validated;
    match op
    case Reconcile =>
    case Sync(reply) => SyncCrash(c, l, reply, env, w);
    case Learn(networks) => LearnCrash(c, l, networks, env, w);
    case Accept(networks) => AcceptCrash(c, l, networks, env, w);
  }

  lemma SyncCrash(c: Config, l: Local, reply: Option<seq<string>>, env: Env, w: Disk)
    requires Good(c, l) && Exact(c, l) && w in Persist(c, l.memory, l.disk, Sync(reply), env).writes
    ensures SavesEmpty(c, l, Sync(reply)) ==> Recover(c, w) == None
    ensures !SavesEmpty(c, l, Sync(reply)) ==> Recover(c, w) == Some(PlannedLists(c, l, Sync(reply), env))
  {
    hide Validated;
    RecoverMeaning(c, l.disk);
    RecoverLoadable(c, l.disk);
    PlanSyncMeaning(c, l.memory, reply);
    var next := PlanSync(c, l.memory, Discovered(c, reply).value).value;
    AdoptRecovers(c, l.memory, l.disk, next, l.memory.learned, env, w);
  }

  lemma AcceptCrash(c: Config, l: Local, networks: seq<string>, env: Env, w: Disk)
    requires Good(c, l) && Exact(c, l) && w in Persist(c, l.memory, l.disk, Accept(networks), env).writes
    ensures Recover(c, w) == Some(PlannedLists(c, l, Accept(networks), env))
  {
    hide Validated, Recover, PlanAccept, Durable, LearnedSet, CanonSet, SavesEmpty;
    RecoverMeaning(c, l.disk);
    RecoverLoadable(c, l.disk);
    PlanAcceptMeaning(c, l.memory, networks);
    var next := PlanAccept(c, l.memory, networks).value;
    AdoptRecovers(c, l.memory, l.disk, next, l.memory.learned, env, w);
    if next == [] {
      assert Elems(l.memory.desired) == {};
      EqualIsSetEquality(l.memory.desired, next);
    }
  }

  lemma LearnCrash(c: Config, l: Local, networks: seq<string>, env: Env, w: Disk)
    requires Good(c, l) && Exact(c, l) && w in Persist(c, l.memory, l.disk, Learn(networks), env).writes
    ensures Recover(c, w) == Some(PlannedLists(c, l, Learn(networks), env))
  {
    hide Validated;
    var m, d := l.memory, l.disk;
    RecoverMeaning(c, d);
    RecoverLoadable(c, d);
    PlanLearnMeaning(c, m, networks);
    var (nextLearned, next) := PlanLearn(c, m, networks).value;
    assert w in AdoptLearned(m, d, nextLearned, next, env).writes;
    if next == [] {
      assert Elems(m.desired) == {} == Elems(m.learned);
      EqualIsSetEquality(m.desired, next);
      EqualIsSetEquality(m.learned, nextLearned);
    }
    if m.learned == nextLearned {
      AdoptRecovers(c, m, d, next, nextLearned, env, w);
    } else {
      var saved := d.(learned := Some(SaveState(nextLearned)));
      LearnedFirst(c, m, d, nextLearned, next);
      if w != saved {
        AdoptRecovers(c, m, saved, next, nextLearned, env, w);
      }
    }
  }

  // An operation whose saves all work leaves an exact state again, except
  // after saving an empty list.
  lemma ExactKept(c: Config, l: Local, op: Op, env: Env)
    requires Good(c, l) && Exact(c, l) && env.saveLearned && env.saveState
    ensures Exact(c, Perform(c, l, op, env).local) <==> !SavesEmpty(c, l, op)
  {
    var w := LastDisk(c, l, op, env);
    if w != None {
      CrashAfterSave(c, l, op, env, w.value);
    }
  }

  // Where a working operation's last save leaves the disk; None without one.
  lemma LastDisk(c: Config, l: Local, op: Op, env: Env) returns (w: Option<Disk>)
    requires Good(c, l) && env.saveLearned && env.saveState
    ensures var r := Perform(c, l, op, env).local;
            match w
            case None => r.disk == l.disk && Lists(r.memory) == Lists(l.memory) && !SavesEmpty(c, l, op)
            case Some(d) => d in Persist(c, l.memory, l.disk, op, env).writes && r.disk == d &&
                            Lists(r.memory) == PlannedLists(c, l, op, env)
  {
    hide Validated;
    var s := Persist(c, l.memory, l.disk, op, env);
    var ready := l.(memory := s.memory, disk := s.disk);
    PersistGood(c, l.memory, l.disk, op, env);
    ReconciledGood(c, ready, env);
    assert env.(saveLearned := true, saveState := true) == env;
    WritesTell(c, l, op, env);
    w := if s.writes == [] then None else Some(s.disk);
  }

  lemma WritesTell(c: Config, l: Local, op: Op, env: Env)
    requires env.saveLearned && env.saveState
    ensures var s := Persist(c, l.memory, l.disk, op, env);
            && (s.writes == [] ==> s.disk == l.disk && Lists(s.memory) == Lists(l.memory) && !SavesEmpty(c, l, op))
            && (s.writes != [] ==> s.disk in s.writes)
  {
    hide Validated, Merged, PlanSync, PlanLearn, PlanAccept, Discovered, AdoptLearned, AdoptDesired;
    match op
    case Reconcile =>
    case Sync(reply) =>
      if c.role.Agent? && Discovered(c, reply).Some? && PlanSync(c, l.memory, Discovered(c, reply).value).Some? {
        AdoptTells(l.memory, l.disk, [], PlanSync(c, l.memory, Discovered(c, reply).value).value, env);
      }
    case Learn(networks) =>
      if PlanLearn(c, l.memory, networks).Some? {
        var (nextLearned, next) := PlanLearn(c, l.memory, networks).value;
        AdoptTells(l.memory, l.disk, nextLearned, next, env);
      }
    case Accept(networks) =>
      if PlanAccept(c, l.memory, networks).Some? {
        AdoptTells(l.memory, l.disk, [], PlanAccept(c, l.memory, networks).value, env);
      }
  }

  lemma AdoptTells(m: Memory, d: Disk, nextLearned: seq<string>, next: seq<string>, env: Env)
    requires env.saveLearned && env.saveState
    ensures var s := AdoptDesired(m, d, next, env);
            && (s.writes == [] ==> s.disk == d && Lists(s.memory) == Lists(m) && m.desired == next)
            && (s.writes != [] ==> s.disk in s.writes)
    ensures var s := AdoptLearned(m, d, nextLearned, next, env);
            && (s.writes == [] ==> s.disk == d && Lists(s.memory) == Lists(m))
            && (s.writes != [] ==> s.disk in s.writes)
  {
  }

  // ---- whole runs ----

  datatype Step = Step(op: Op, env: Env)

  ghost function RunSteps(c: Config, l: Local, steps: seq<Step>): Local
    decreases steps
  {
    if steps == [] then l else RunSteps(c, Perform(c, l, steps[0].op, steps[0].env).local, steps[1..])
  }

  lemma {:induction false} GoodRun(c: Config, l: Local, steps: seq<Step>)
    requires Good(c, l)
    ensures Good(c, RunSteps(c, l, steps))
    decreases steps
  {
    hide Perform, Good;
    if steps == [] {
    } else {
      PerformGood(c, l, steps[0].op, steps[0].env);
      GoodRun(c, Perform(c, l, steps[0].op, steps[0].env).local, steps[1..]);
    }
  }

  // When saves may fail and the daemon lives on, the files and the seeds still
  // cover everything desired.
  lemma CoveredRun(c: Config, l: Local, steps: seq<Step>)
    requires Good(c, l)
    ensures var r := RunSteps(c, l, steps); Elems(r.memory.desired) <= Durable(c, r.disk)
  {
    hide RunSteps;
    GoodRun(c, l, steps);
  }
}
