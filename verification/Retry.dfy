// Failed apply passes: what a node remembers of them, and what the operator's
// counts tell.
module Retry {
  import opened Strings
  import opened Networks
  import opened NetworkSets
  import opened Node
  import opened NodeInvariant

  // The last call of every configured driver succeeded with exactly nets.
  ghost predicate InstalledEverywhere(l: Local, nets: seq<string>) {
    forall i | 0 <= i < |l.calls| :: l.calls[i] == Call(nets, true)
  }

  // reconcileLocked would not touch the drivers now.
  predicate Settled(c: Config, l: Local) {
    l.memory.appliedKnown && l.memory.desired == l.memory.applied && l.clock - l.memory.appliedAt < c.reapplyEvery
  }

  // Whatever a pass left undone, reconcileLocked will try again.
  ghost predicate Remembers(c: Config, l: Local) {
    Settled(c, l) ==> InstalledEverywhere(l, l.memory.desired)
  }

  // An operation forgets a failed pass exactly when the desired list it adopts
  // is the one last recorded as applied, the reapply is not due, and some
  // driver's last call was not a success with that list.
  ghost predicate Forgets(c: Config, l: Local, op: Op, env: Env) {
    var s := Persist(c, l.memory, l.disk, op, env);
    && s.proceed && l.memory.appliedKnown && s.memory.desired == l.memory.applied
    && l.clock + env.wait - l.memory.appliedAt < c.reapplyEvery
    && !InstalledEverywhere(l, l.memory.applied)
  }

  lemma ApplyRemembers(c: Config, l: Local, env: Env)
    requires PassRuns(c, l.memory, l.clock + env.wait)
    ensures Remembers(c, Apply(c, l, env).local)
  {
  }

  lemma ForgetsExactly(c: Config, l: Local, op: Op, env: Env)
    requires Good(c, l) && Remembers(c, l)
    ensures Remembers(c, Perform(c, l, op, env).local) <==> !Forgets(c, l, op, env)
  {
    hide Validated, Merged, Persist;
    var s := Persist(c, l.memory, l.disk, op, env);
    PersistGood(c, l.memory, l.disk, op, env);
    if s.proceed {
      ContinueRemembers(c, l.(memory := s.memory, disk := s.disk), s.complete, env);
    } else {
      RefusedKeeps(c, l, op, env);
    }
  }

  lemma ContinueRemembers(c: Config, l: Local, complete: bool, env: Env)
    ensures Remembers(c, Continue(c, l, true, complete, env).local) <==>
            (PassRuns(c, l.memory, l.clock + env.wait) || InstalledEverywhere(l, l.memory.applied))
  {
    if PassRuns(c, l.memory, l.clock + env.wait) {
      ApplyRemembers(c, l, env);
    }
  }

  lemma RefusedKeeps(c: Config, l: Local, op: Op, env: Env)
    requires !Persist(c, l.memory, l.disk, op, env).proceed
    ensures Persist(c, l.memory, l.disk, op, env).memory == l.memory
  {
    hide Validated, Merged;
  }

  // A node whose desired list only grows keeps applied within desired, so
  // adopting the applied list again means nothing had moved on.
  ghost predicate AppliedWithin(m: Memory) {
    Elems(m.applied) <= Elems(m.desired)
  }

  // No operation forgets that leaves the desired list as large as it was.
  lemma GrowingNeverForgets(c: Config, l: Local, op: Op, env: Env)
    requires Good(c, l) && Remembers(c, l) && AppliedWithin(l.memory)
    requires Elems(l.memory.desired) <= Elems(Perform(c, l, op, env).local.memory.desired)
    ensures !Forgets(c, l, op, env)
    ensures AppliedWithin(Perform(c, l, op, env).local.memory)
  {
    hide Validated, Merged, Persist;
    PersistGood(c, l.memory, l.disk, op, env);
    var s := Persist(c, l.memory, l.disk, op, env);
    var ready := l.(memory := s.memory, disk := s.disk);
    ReconciledGood(c, ready, env);
    if Forgets(c, l, op, env) {
      EqualIsSetEquality(l.memory.desired, l.memory.applied);
    }
  }

  // A success means that every driver holds exactly the desired list, unless
  // the operation forgot a failed pass.
  lemma SuccessIsInstalledExactly(c: Config, l: Local, op: Op, env: Env)
    requires Good(c, l) && Remembers(c, l) && Perform(c, l, op, env).ok
    ensures var r := Perform(c, l, op, env).local;
            InstalledEverywhere(r, r.memory.desired) <==> !Forgets(c, l, op, env)
  {
    hide Validated, Merged, Persist;
    var s := Persist(c, l.memory, l.disk, op, env);
    PersistGood(c, l.memory, l.disk, op, env);
    AppliedIsInstalled(c, l.(memory := s.memory, disk := s.disk), env);
  }

  lemma AppliedIsInstalled(c: Config, l: Local, env: Env)
    requires Reconciled(c, l, env).ok
    ensures var r := Reconciled(c, l, env).local;
            InstalledEverywhere(r, r.memory.desired) <==>
              PassRuns(c, l.memory, l.clock + env.wait) || InstalledEverywhere(l, l.memory.applied)
  {
  }

  ghost predicate Due(c: Config, l: Local, now: int) {
    now - l.memory.appliedAt >= c.reapplyEvery
  }

  // Once the reapply is due, whatever was forgotten before: an operation that
  // reaches the drivers brings every one of them to exactly the desired list, or
  // leaves the reapply due; and one that succeeds has done the first.
  lemma DueRepairs(c: Config, l: Local, op: Op, env: Env)
    requires Good(c, l) && Due(c, l, l.clock + env.wait)
    ensures var r := Perform(c, l, op, env);
            && (Persist(c, l.memory, l.disk, op, env).proceed ==>
                  InstalledEverywhere(r.local, r.local.memory.desired) || Due(c, r.local, r.local.clock))
            && (r.ok ==> InstalledEverywhere(r.local, r.local.memory.desired))
  {
    hide Validated, Merged, Persist, Good;
    var s := Persist(c, l.memory, l.disk, op, env);
    GoodParts(c, l);
    PersistGood(c, l.memory, l.disk, op, env);
    if s.proceed {
      PassRepairs(c, l.(memory := s.memory, disk := s.disk), s.complete, env);
    }
  }

  lemma GoodParts(c: Config, l: Local)
    requires Good(c, l)
    ensures ListsGood(c, l.memory) && FilesGood(c, l.memory, l.disk)
  {
  }

  lemma PassRepairs(c: Config, l: Local, complete: bool, env: Env)
    requires Due(c, l, l.clock + env.wait)
    ensures var r := Continue(c, l, true, complete, env);
            && (InstalledEverywhere(r.local, r.local.memory.desired) || Due(c, r.local, r.local.clock))
            && (r.ok ==> InstalledEverywhere(r.local, r.local.memory.desired))
  {
  }

  // A pass that had to run and completed is dated by its end and not repeated
  // before the interval has passed.
  lemma QuietAfterPass(c: Config, l: Local, op: Op, env: Env, later: Env)
    requires Good(c, l) && Perform(c, l, op, env).ok && later.wait < c.reapplyEvery
    requires !l.memory.appliedKnown || Perform(c, l, op, env).local.memory.desired != l.memory.applied
    ensures var r := Perform(c, l, op, env).local;
            && r.memory.appliedAt == r.clock == l.clock + env.wait + env.took
            && Perform(c, r, Reconcile, later).local.calls == r.calls
            && Perform(c, r, Reconcile, later).local.memory.applied == r.memory.applied
  {
    hide Validated, Merged, Persist, RunDrivers, Good, Reconciled, ListsGood, FilesGood;
    GoodParts(c, l);
    PersistGood(c, l.memory, l.disk, op, env);
    var s, r := Persist(c, l.memory, l.disk, op, env), Perform(c, l, op, env).local;
    PassDated(c, l.(memory := s.memory, disk := s.disk), env);
    ReconcileStages(c, r, later);
    assert Staged(r.memory, r.disk, [], true, true).memory == r.memory;
    NothingDue(c, r.(memory := r.memory, disk := r.disk), later);
  }

  lemma PassDated(c: Config, l: Local, env: Env)
    requires Reconciled(c, l, env).ok
    requires !l.memory.appliedKnown || Reconciled(c, l, env).local.memory.desired != l.memory.applied
    ensures var r := Reconciled(c, l, env).local;
            && r.memory.appliedKnown && r.memory.applied == r.memory.desired
            && r.memory.appliedAt == r.clock == l.clock + env.wait + env.took
  {
    hide RunDrivers;
  }

  lemma NothingDue(c: Config, l: Local, env: Env)
    requires l.memory.appliedKnown && l.memory.applied == l.memory.desired && l.memory.appliedAt == l.clock
    requires env.wait < c.reapplyEvery
    ensures var r := Reconciled(c, l, env).local;
            r.calls == l.calls && r.memory.applied == l.memory.applied
  {
    hide RunDrivers;
  }

  lemma ReconcileStages(c: Config, l: Local, env: Env)
    ensures Persist(c, l.memory, l.disk, Reconcile, env) == Staged(l.memory, l.disk, [], true, true)
  {
  }

  // When an agent's sync gets as far as its drivers: always after a failed
  // fetch; after a successful one only if the union fits the limit and, where
  // it differs from what is desired, can be saved.
  lemma SyncReachesDrivers(c: Config, l: Local, reply: Option<seq<string>>, env: Env)
    requires Good(c, l) && c.role.Agent?
    ensures Persist(c, l.memory, l.disk, Sync(reply), env).proceed <==>
      || Discovered(c, reply).None?
      || (var union := CanonSet(reply.value) + Elems(l.memory.learned) + CanonSet(c.seeds);
          |union| <= Max(c) && (union == Elems(l.memory.desired) || env.saveState))
  {
    hide Validated;
    if Discovered(c, reply).Some? {
      UnionFits(c, l.memory, reply);
      if PlanSync(c, l.memory, Discovered(c, reply).value).Some? {
        PlanSyncMeaning(c, l.memory, reply);
        EqualIsSetEquality(l.memory.desired, PlanSync(c, l.memory, Discovered(c, reply).value).value);
      }
    }
  }

  lemma UnionFits(c: Config, m: Memory, reply: Option<seq<string>>)
    requires ListsGood(c, m) && Discovered(c, reply).Some?
    ensures reply.Some?
    ensures PlanSync(c, m, Discovered(c, reply).value).Some? <==>
            |CanonSet(reply.value) + Elems(m.learned) + CanonSet(c.seeds)| <= Max(c)
  {
    var discovered := Discovered(c, reply).value;
    ValidatedList(reply.value, false, Max(c));
    hide Validated;
    CanonSets3(discovered, m.learned, c.seeds);
    CanonListSet(discovered);
    CanonListSet(m.learned);
    var union := Merged([discovered, m.learned, c.seeds]);
    MergedMeaning([discovered, m.learned, c.seeds]);
    SortedSize(union);
    ValidatedSelf(union, false, Max(c));
  }

  // ---- the counts Doctor compares ----

  // On a controller the test decides whether everything desired is applied.
  lemma ControllerCountDecides(c: Config, m: Memory)
    requires ListsGood(c, m) && c.role.Controller? && AppliedWithin(m)
    ensures LearnedIsApplied(StatusOf(c, m)) <==> m.appliedKnown && m.applied == m.desired
  {
    EqualIsSetEquality(m.applied, m.desired);
  }

  // On an agent the report test decides whether the controller has
  // acknowledged everything learned.
  lemma AgentCountDecides(c: Config, m: Memory)
    requires ListsGood(c, m) && c.role.Agent?
    ensures LearnedIsReported(StatusOf(c, m)) <==> m.lastReported == m.learned
  {
    EqualIsSetEquality(m.lastReported, m.learned);
  }

  // The agent's other test compares how much of learned is not applied with how
  // much else is applied.
  lemma AgentAppliedCountExactly(c: Config, m: Memory)
    requires ListsGood(c, m) && c.role.Agent?
    ensures LearnedIsApplied(StatusOf(c, m)) <==>
            m.appliedKnown && |Elems(m.learned) - Elems(m.applied)| <= |Elems(m.applied) - Elems(m.learned)|
  {
    SortedSize(m.learned);
    SortedSize(m.applied);
    SplitSize(Elems(m.learned), Elems(m.applied));
    SplitSize(Elems(m.applied), Elems(m.learned));
    assert Elems(m.learned) * Elems(m.applied) == Elems(m.applied) * Elems(m.learned);
  }

  lemma SplitSize<T>(a: set<T>, b: set<T>)
    ensures |a| == |a - b| + |a * b|
  {
    assert a == (a - b) + a * b;
  }

  // It decides whether everything learned is applied if and only if applied
  // holds all of learned or too little else to make up for what is missing;
  // where the last pass was for the list now desired, as after every success,
  // it always does.
  lemma AgentAppliedCountDecides(c: Config, m: Memory)
    requires ListsGood(c, m) && c.role.Agent?
    ensures (LearnedIsApplied(StatusOf(c, m)) <==> m.appliedKnown && Elems(m.learned) <= Elems(m.applied)) <==>
            !m.appliedKnown || Elems(m.learned) <= Elems(m.applied)
              || |Elems(m.applied) - Elems(m.learned)| < |Elems(m.learned) - Elems(m.applied)|
    ensures m.desired == m.applied ==>
            (LearnedIsApplied(StatusOf(c, m)) <==> m.appliedKnown && Elems(m.learned) <= Elems(m.applied))
  {
    AgentAppliedCountExactly(c, m);
    if Elems(m.learned) <= Elems(m.applied) {
      assert Elems(m.learned) - Elems(m.applied) == {};
    }
  }

  // Between the locks of an operation memory is as good as before and after it.
  lemma DuringGood(c: Config, l: Local, op: Op, env: Env, m: Memory)
    requires Good(c, l) && m in MemoriesDuring(c, l, op, env)
    ensures ListsGood(c, m)
    ensures Grows(c, op) && AppliedWithin(l.memory) ==> AppliedWithin(m)
  {
    hide Validated, Merged, Persist, ListsGood, FilesGood, Apply, Reconciled;
    PersistGood(c, l.memory, l.disk, op, env);
    var s := Persist(c, l.memory, l.disk, op, env);
    var ready := l.(memory := s.memory, disk := s.disk);
    ApplyGood(c, ready, env);
    ReconciledGood(c, ready, env);
  }
}
