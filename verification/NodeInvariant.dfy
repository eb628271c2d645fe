// What every operation of one node keeps, whatever fails.
module NodeInvariant {
  import opened Strings
  import opened Networks
  import opened NetworkSets
  import opened Node

  ghost function StateSet(d: Disk): set<string> {
    CanonSet(LoadState(d.state))
  }

  ghost function LearnedSet(d: Disk): set<string> {
    CanonSet(LoadState(d.learned))
  }

  // What a restart has to work with.
  ghost function Durable(c: Config, d: Disk): set<string> {
    StateSet(d) + LearnedSet(d) + CanonSet(c.seeds)
  }

  ghost predicate BoundedList(list: seq<string>, c: Config) {
    CanonList(list) && |list| <= Max(c)
  }

  ghost predicate AllHosts(list: seq<string>) {
    forall x | x in list :: IsHost(x)
  }

  // Every list is canonical, strictly sorted and within the limit; learned
  // holds hosts only; what was learned, and the seeds, stay desired.
  ghost predicate ListsGood(c: Config, m: Memory) {
    && BoundedList(m.desired, c) && BoundedList(m.learned, c) && AllHosts(m.learned)
    && Elems(m.learned) <= Elems(m.desired) && CanonSet(c.seeds) <= Elems(m.desired)
    && CanonList(m.applied) && CanonList(m.lastReported) && Elems(m.lastReported) <= Elems(m.learned)
    && (!m.appliedKnown ==> m.applied == [])
  }

  // The state file never runs ahead of memory, the learned file never behind,
  // and together with the seeds they cover everything desired.
  ghost predicate FilesGood(c: Config, m: Memory, d: Disk) {
    && StateSet(d) <= Elems(m.desired) <= StateSet(d) + Elems(m.learned) + CanonSet(c.seeds)
    && Elems(m.learned) <= LearnedSet(d)
  }

  ghost predicate Good(c: Config, l: Local) {
    && ListsGood(c, l.memory) && FilesGood(c, l.memory, l.disk)
    && Elems(l.memory.applied) <= l.passed <= l.offered
    && l.memory.appliedAt <= l.clock
  }

  ghost predicate Grows(c: Config, op: Op) {
    op.Sync? ==> c.role.Controller?
  }

  // The networks an operation brings in from outside the node.
  ghost function Incoming(op: Op): set<string> {
    match op
    case Reconcile => {}
    case Sync(reply) => if reply.Some? then CanonSet(reply.value) else {}
    case Learn(networks) => CanonSet(networks)
    case Accept(networks) => CanonSet(networks)
  }

  // ---- starting ----

  lemma RecoverMeaning(c: Config, d: Disk)
    requires Recover(c, d).Some?
    ensures var (desired, learned) := Recover(c, d).value;
            && BoundedList(desired, c) && Elems(desired) == Durable(c, d)
            && BoundedList(learned, c) && Elems(learned) == LearnedSet(d) && AllHosts(learned)
  {
    var (desired, learned) := Recover(c, d).value;
    ValidatedList(LoadState(d.state), false, Max(c));
    ValidatedList(LoadState(d.learned), true, Max(c));
    var state := Validated(LoadState(d.state), false, Max(c)).value;
    MergedMeaning([state, learned, c.seeds]);
    CanonSets3(state, learned, c.seeds);
    CanonListSet(state);
    CanonListSet(learned);
    ValidatedList(Merged([state, learned, c.seeds]), false, Max(c));
  }

  // A started node satisfies the invariant, whatever its files hold.
  lemma BootGood(c: Config, d: Disk, calls: seq<Call>, offered: set<string>, passed: set<string>, clock: nat)
    requires Recover(c, d).Some? && passed <= offered
    ensures var (desired, learned) := Recover(c, d).value;
            Good(c, Local(BLANK.(desired := desired, learned := learned), d, calls, offered, passed, clock))
  {
    RecoverMeaning(c, d);
  }

  // ---- planning ----

  lemma PlanSyncMeaning(c: Config, m: Memory, reply: Option<seq<string>>)
    requires ListsGood(c, m) && Discovered(c, reply).Some? && PlanSync(c, m, Discovered(c, reply).value).Some?
    ensures reply.Some?
    ensures var next := PlanSync(c, m, Discovered(c, reply).value).value;
            BoundedList(next, c) && Elems(next) == CanonSet(reply.value) + Elems(m.learned) + CanonSet(c.seeds)
  {
    var discovered := Discovered(c, reply).value;
    ValidatedList(reply.value, false, Max(c));
    MergedMeaning([discovered, m.learned, c.seeds]);
    CanonSets3(discovered, m.learned, c.seeds);
    CanonListSet(discovered);
    CanonListSet(m.learned);
    ValidatedList(Merged([discovered, m.learned, c.seeds]), false, Max(c));
  }

  lemma PlanLearnMeaning(c: Config, m: Memory, networks: seq<string>)
    requires ListsGood(c, m) && PlanLearn(c, m, networks).Some?
    ensures var (nextLearned, next) := PlanLearn(c, m, networks).value;
            && BoundedList(nextLearned, c) && AllHosts(nextLearned)
            && Elems(nextLearned) == Elems(m.learned) + CanonSet(networks)
            && BoundedList(next, c)
            && Elems(next) == Elems(m.desired) + Elems(nextLearned) + CanonSet(c.seeds)
  {
    var learned := Validated(networks, true, Max(c)).value;
    var (nextLearned, next) := PlanLearn(c, m, networks).value;
    ValidatedList(networks, true, Max(c));
    MergedPair(m.learned, learned);
    CanonListSet(Merged([m.learned, learned]));
    ValidatedList(Merged([m.learned, learned]), true, Max(c));
    MergedMeaning([m.desired, nextLearned, c.seeds]);
    CanonSets3(m.desired, nextLearned, c.seeds);
    CanonListSet(m.desired);
    CanonListSet(nextLearned);
    ValidatedList(Merged([m.desired, nextLearned, c.seeds]), false, Max(c));
  }

  lemma PlanAcceptMeaning(c: Config, m: Memory, networks: seq<string>)
    requires ListsGood(c, m) && PlanAccept(c, m, networks).Some?
    ensures var next := PlanAccept(c, m, networks).value;
            BoundedList(next, c) && Elems(next) == Elems(m.desired) + CanonSet(networks)
  {
    var report := Validated(networks, true, Max(c)).value;
    ValidatedList(networks, true, Max(c));
    MergedPair(m.desired, report);
    CanonListSet(Merged([m.desired, report]));
    ValidatedList(Merged([m.desired, report]), false, Max(c));
  }

  // The handler checks a report against the desired list before it takes the
  // lock. A list that has grown meanwhile would refuse the report as well, so
  // that early check refuses nothing acceptReport would take.
  lemma StaleCheck(c: Config, early: Memory, m: Memory, payload: seq<string>)
    requires ListsGood(c, early) && ListsGood(c, m) && Elems(early.desired) <= Elems(m.desired)
    requires Validated(Merged([early.desired, payload]), false, Max(c)).None?
    ensures PlanAccept(c, m, payload).None?
  {
    hide Validated;
    MergedMeaning([early.desired, payload]);
    CanonSets2(early.desired, payload);
    CanonListSet(early.desired);
    var union := Merged([early.desired, payload]);
    ValidatedSelf(union, false, Max(c));
    SortedSize(union);
    if PlanAccept(c, m, payload).Some? {
      PlanAcceptMeaning(c, m, payload);
      var next := PlanAccept(c, m, payload).value;
      SortedSize(next);
      SubsetSize(Elems(union), Elems(next));
    }
  }

  // The POST branch takes exactly what acceptReport takes, on a controller and
  // up to the limit; otherwise it changes nothing.
  lemma HandlePostExactly(c: Config, l: Local, payload: seq<string>, env: Env)
    requires Good(c, l)
    ensures HandlePost(c, l, payload, env) ==
            if c.role.Controller? && |payload| <= (if c.maxNetworks <= 0 then 4096 else c.maxNetworks)
            then Perform(c, l, Accept(payload), env) else Outcome(l, false)
  {
    hide Validated, Merged, Good, ListsGood;
    GoodLists(c, l);
    if Validated(Merged([l.memory.desired, payload]), false, Max(c)).None? {
      StaleCheck(c, l.memory, l.memory, payload);
    }
  }

  lemma GoodLists(c: Config, l: Local)
    requires Good(c, l)
    ensures ListsGood(c, l.memory)
  {
  }

  // ---- saving ----

  // A disk that a crash may leave, given the memory and the disk before.
  ghost predicate DiskFollows(c: Config, m: Memory, d: Disk, op: Op, w: Disk) {
    && Elems(m.learned) <= LearnedSet(w)
    && (Grows(c, op) ==> Elems(m.desired) <= Durable(c, w))
    && StateSet(w) <= Elems(m.desired) + LearnedSet(w) + CanonSet(c.seeds) + (if op.Learn? then {} else Incoming(op))
    && (!Grows(c, op) ==>
          w == d || (op.reply.Some? && StateSet(w) == Incoming(op) + Elems(m.learned) + CanonSet(c.seeds)))
  }

  lemma AdoptDesiredGood(c: Config, m: Memory, d: Disk, next: seq<string>, env: Env)
    requires ListsGood(c, m) && FilesGood(c, m, d)
    requires BoundedList(next, c) && Elems(m.learned) + CanonSet(c.seeds) <= Elems(next)
    ensures var s := AdoptDesired(m, d, next, env);
            && ListsGood(c, s.memory) && FilesGood(c, s.memory, s.disk)
            && s.memory == m.(desired := if s.proceed then next else m.desired)
            && (s.writes == [] ==> s.disk == d)
            && (forall w | w in s.writes :: w == s.disk && w.learned == d.learned && StateSet(w) == Elems(next))
  {
    if m.desired != next && env.saveState {
      var saved := d.(state := Some(SaveState(next)));
      ReadBackSet(next);
      assert StateSet(saved) == Elems(next) && LearnedSet(saved) == LearnedSet(d);
    }
  }

  // Saving a larger learned list first leaves the disk ahead of memory, not behind.
  lemma LearnedSaved(c: Config, m: Memory, d: Disk, nextLearned: seq<string>)
    requires FilesGood(c, m, d) && CanonList(nextLearned) && Elems(m.learned) <= Elems(nextLearned)
    ensures var saved := d.(learned := Some(SaveState(nextLearned)));
            && FilesGood(c, m, saved) && StateSet(saved) == StateSet(d) && LearnedSet(saved) == Elems(nextLearned)
  {
    ReadBackSet(nextLearned);
  }

  lemma AdoptLearnedGood(c: Config, m: Memory, d: Disk, nextLearned: seq<string>, next: seq<string>, env: Env)
    requires ListsGood(c, m) && FilesGood(c, m, d)
    requires BoundedList(nextLearned, c) && AllHosts(nextLearned) && Elems(m.learned) <= Elems(nextLearned)
    requires BoundedList(next, c) && Elems(next) == Elems(m.desired) + Elems(nextLearned) + CanonSet(c.seeds)
    ensures var s := AdoptLearned(m, d, nextLearned, next, env);
            && ListsGood(c, s.memory) && FilesGood(c, s.memory, s.disk)
            && s.memory == (if s.proceed then m.(desired := next, learned := nextLearned) else m)
            && forall w | w in s.writes :: Elems(nextLearned) <= LearnedSet(w) && (StateSet(w) == StateSet(d) || StateSet(w) == Elems(next))
  {
    if m.learned == nextLearned {
      AdoptDesiredGood(c, m, d, next, env);
    } else if env.saveLearned {
      var saved := d.(learned := Some(SaveState(nextLearned)));
      LearnedSaved(c, m, d, nextLearned);
      AdoptDesiredGood(c, m, saved, next, env);
      var s, t := AdoptLearned(m, d, nextLearned, next, env), AdoptDesired(m, saved, next, env);
      assert s.writes == [saved] + t.writes;
      forall w | w in s.writes
        ensures Elems(nextLearned) <= LearnedSet(w) && (StateSet(w) == StateSet(d) || StateSet(w) == Elems(next))
      {
        assert w == saved || w in t.writes;
      }
    }
  }

  // What an operation has kept and gained when it comes to reconciling.
  ghost predicate Persisted(c: Config, m: Memory, op: Op, s: Staged) {
    && ListsGood(c, s.memory) && FilesGood(c, s.memory, s.disk)
    && s.memory == m.(desired := s.memory.desired, learned := s.memory.learned)
    && Elems(m.learned) <= Elems(s.memory.learned)
    && (Grows(c, op) ==> Elems(m.desired) <= Elems(s.memory.desired))
    && (s.proceed && op.Learn? ==> Incoming(op) <= Elems(s.memory.learned))
    && (s.proceed && op.Accept? ==> Incoming(op) <= Elems(s.memory.desired))
    && Elems(s.memory.desired) <=
         Elems(m.desired) + Elems(s.memory.learned) + CanonSet(c.seeds) + (if op.Learn? then {} else Incoming(op))
  }

  lemma PersistSyncGood(c: Config, m: Memory, d: Disk, reply: Option<seq<string>>, env: Env)
    requires ListsGood(c, m) && FilesGood(c, m, d) && c.role.Agent?
    ensures Persisted(c, m, Sync(reply), PersistSync(c, m, d, reply, env))
  {
    hide Validated, Merged, PlanSync, Discovered, AdoptDesired, FilesGood, CanonList, AllHosts, CanonSet;
    if Discovered(c, reply).Some? && PlanSync(c, m, Discovered(c, reply).value).Some? {
      PlanSyncMeaning(c, m, reply);
      AdoptDesiredGood(c, m, d, PlanSync(c, m, Discovered(c, reply).value).value, env);
    }
  }

  lemma PersistLearnGood(c: Config, m: Memory, d: Disk, networks: seq<string>, env: Env)
    requires ListsGood(c, m) && FilesGood(c, m, d)
    ensures Persisted(c, m, Learn(networks), PersistLearn(c, m, d, networks, env))
  {
    hide Validated, Merged, PlanLearn, AdoptLearned, FilesGood, CanonList, AllHosts, CanonSet;
    if PlanLearn(c, m, networks).Some? {
      PlanLearnMeaning(c, m, networks);
      var (nextLearned, next) := PlanLearn(c, m, networks).value;
      AdoptLearnedGood(c, m, d, nextLearned, next, env);
    }
  }

  lemma PersistAcceptGood(c: Config, m: Memory, d: Disk, networks: seq<string>, env: Env)
    requires ListsGood(c, m) && FilesGood(c, m, d)
    ensures Persisted(c, m, Accept(networks), PersistAccept(c, m, d, networks, env))
  {
    hide Validated, Merged, PlanAccept, AdoptDesired, FilesGood, CanonList, AllHosts, CanonSet;
    if PlanAccept(c, m, networks).Some? {
      PlanAcceptMeaning(c, m, networks);
      AdoptDesiredGood(c, m, d, PlanAccept(c, m, networks).value, env);
    }
  }

  lemma PersistGood(c: Config, m: Memory, d: Disk, op: Op, env: Env)
    requires ListsGood(c, m) && FilesGood(c, m, d)
    ensures Persisted(c, m, op, Persist(c, m, d, op, env))
  {
    match op
    case Reconcile => Unstaged(c, m, d, op);
    case Sync(reply) => if c.role.Agent? { PersistSyncGood(c, m, d, reply, env); } else { Unstaged(c, m, d, op); }
    case Learn(networks) => PersistLearnGood(c, m, d, networks, env);
    case Accept(networks) => PersistAcceptGood(c, m, d, networks, env);
  }

  lemma Unstaged(c: Config, m: Memory, d: Disk, op: Op)
    requires ListsGood(c, m) && FilesGood(c, m, d) && (op.Reconcile? || op.Sync?)
    ensures Persisted(c, m, op, Staged(m, d, [], true, true))
  {
    hide FilesGood, CanonSet;
  }

  // The one disk that saving a desired list adds.
  lemma AdoptDisks(c: Config, m: Memory, d: Disk, op: Op, next: seq<string>, env: Env, w: Disk)
    requires ListsGood(c, m) && FilesGood(c, m, d) && BoundedList(next, c)
    requires w in AdoptDesired(m, d, next, env).writes
    requires op.Sync? && !Grows(c, op) ==>
               op.reply.Some? && Elems(next) == Incoming(op) + Elems(m.learned) + CanonSet(c.seeds)
    requires op.Accept? ==> Elems(next) == Elems(m.desired) + Incoming(op)
    requires op.Accept? || (op.Sync? && !Grows(c, op))
    ensures DiskFollows(c, m, d, op, w)
  {
    ReadBackSet(next);
    assert w == d.(state := Some(SaveState(next)));
    assert LearnedSet(w) == LearnedSet(d) && StateSet(w) == Elems(next);
  }

  lemma SyncDisks(c: Config, m: Memory, d: Disk, reply: Option<seq<string>>, env: Env, w: Disk)
    requires ListsGood(c, m) && FilesGood(c, m, d) && c.role.Agent?
    requires w in PersistSync(c, m, d, reply, env).writes
    ensures DiskFollows(c, m, d, Sync(reply), w)
  {
    hide Validated;
    PlanSyncMeaning(c, m, reply);
    AdoptDisks(c, m, d, Sync(reply), PlanSync(c, m, Discovered(c, reply).value).value, env, w);
  }

  lemma LearnDisks(c: Config, m: Memory, d: Disk, networks: seq<string>, env: Env, w: Disk)
    requires ListsGood(c, m) && FilesGood(c, m, d)
    requires w in PersistLearn(c, m, d, networks, env).writes
    ensures DiskFollows(c, m, d, Learn(networks), w)
  {
    PlanLearnMeaning(c, m, networks);
    var (nextLearned, next) := PlanLearn(c, m, networks).value;
    AdoptLearnedGood(c, m, d, nextLearned, next, env);
    assert Elems(nextLearned) <= LearnedSet(w) && (StateSet(w) == StateSet(d) || StateSet(w) == Elems(next));
  }

  lemma AcceptDisks(c: Config, m: Memory, d: Disk, networks: seq<string>, env: Env, w: Disk)
    requires ListsGood(c, m) && FilesGood(c, m, d)
    requires w in PersistAccept(c, m, d, networks, env).writes
    ensures DiskFollows(c, m, d, Accept(networks), w)
  {
    hide Validated, Merged, ListsGood, FilesGood, DiskFollows, PlanAccept;
    PlanAcceptMeaning(c, m, networks);
    AdoptDisks(c, m, d, Accept(networks), PlanAccept(c, m, networks).value, env, w);
  }

  // Every disk of an operation can be restarted from without losing anything.
  lemma DisksFollow(c: Config, l: Local, op: Op, env: Env, w: Disk)
    requires Good(c, l) && w in DisksDuring(c, l, op, env)
    ensures DiskFollows(c, l.memory, l.disk, op, w)
  {
    var m, d := l.memory, l.disk;
    if w != d {
      assert w in Persist(c, m, d, op, env).writes;
      match op
      case Reconcile =>
      case Sync(reply) => SyncDisks(c, m, d, reply, env, w);
      case Learn(networks) => LearnDisks(c, m, d, networks, env, w);
      case Accept(networks) => AcceptDisks(c, m, d, networks, env, w);
    }
  }

  // ---- applying and reporting ----

  // The files answer for the desired and learned lists alone.
  lemma FilesOfLists(c: Config, m: Memory, n: Memory, d: Disk)
    requires m.desired == n.desired && m.learned == n.learned
    ensures FilesGood(c, m, d) == FilesGood(c, n, d)
  {
  }

  lemma ApplyGood(c: Config, l: Local, env: Env)
    requires Good(c, l)
    ensures var r := Apply(c, l, env);
            && Good(c, r.local) && r.local.disk == l.disk && l.clock <= r.local.clock
            && r.local.memory == l.memory.(applied := r.local.memory.applied,
                 appliedKnown := r.local.memory.appliedKnown, appliedAt := r.local.memory.appliedAt)
            && l.passed <= r.local.passed && r.local.offered <= l.offered + Elems(l.memory.desired)
            && (r.local.memory.applied == l.memory.applied || r.local.memory.applied == l.memory.desired)
            && (r.ok ==> r.local.memory.appliedKnown && r.local.memory.applied == l.memory.desired)
  {
    hide RunDrivers, FilesGood, CanonList, CanonSet;
    FilesOfLists(c, l.memory, Apply(c, l, env).local.memory, l.disk);
  }

  lemma ReconciledGood(c: Config, l: Local, env: Env)
    requires Good(c, l)
    ensures var r := Reconciled(c, l, env);
            && Good(c, r.local) && r.local.disk == l.disk && l.clock <= r.local.clock
            && r.local.memory.desired == l.memory.desired && r.local.memory.learned == l.memory.learned
            && l.passed <= r.local.passed && r.local.offered <= l.offered + Elems(l.memory.desired)
            && (r.local.memory.applied == l.memory.applied || r.local.memory.applied == l.memory.desired)
            && (r.ok ==> r.local.memory.appliedKnown && r.local.memory.applied == l.memory.desired)
            && (r.ok && c.role.Agent? ==> r.local.memory.lastReported == l.memory.learned)
  {
    ApplyGood(c, l, env);
  }

  // The filter in report drops nothing: the controller is sent all of learned.
  lemma {:induction false} ReportIsWhole(list: seq<string>)
    requires AllHosts(list)
    ensures Hosts(list) == list
  {
    if list == [] {
    } else {
      assert list[0] in list;
      forall x | x in list[1..] ensures IsHost(x) { assert x in list; }
      ReportIsWhole(list[1..]);
    }
  }

  lemma {:induction false} HostsExactly(list: seq<string>, more: seq<string>, x: string)
    ensures x in Hosts(list) <==> x in list && IsHost(x)
    ensures Hosts(list + more) == Hosts(list) + Hosts(more)
  {
    hide IsHost;
    if list == [] {
      assert list + more == more;
    } else {
      assert (list + more)[1..] == list[1..] + more && list == [list[0]] + list[1..];
      HostsExactly(list[1..], more, x);
    }
  }

  // A pass calls the drivers in order and stops at the first that fails.
  lemma {:induction false} PassExactly(calls: seq<Call>, drivers: seq<bool>, nets: seq<string>, i: nat)
    requires i <= |calls|
    ensures var (r, ok) := RunDrivers(calls, drivers, nets, i);
            if ok then (forall j | i <= j < |calls| :: Succeeds(drivers, j) && r[j] == Call(nets, true))
            else exists j :: StopsAt(calls, drivers, nets, i, j, r)
    decreases |calls| - i
  {
    if i == |calls| {
    } else if Succeeds(drivers, i) {
      var next := calls[i := Call(nets, true)];
      PassExactly(next, drivers, nets, i + 1);
      var (r, ok) := RunDrivers(next, drivers, nets, i + 1);
      if !ok {
        var j :| StopsAt(next, drivers, nets, i + 1, j, r);
        assert StopsAt(calls, drivers, nets, i, j, r);
      }
    } else {
      assert StopsAt(calls, drivers, nets, i, i, calls[i := Call(nets, false)]);
    }
  }

  ghost predicate StopsAt(calls: seq<Call>, drivers: seq<bool>, nets: seq<string>, i: nat, j: nat, r: seq<Call>) {
    && i <= j < |calls| == |r| && !Succeeds(drivers, j) && r[j] == Call(nets, false)
    && (forall k | i <= k < j :: Succeeds(drivers, k) && r[k] == Call(nets, true))
    && (forall k | j < k < |calls| :: r[k] == calls[k])
  }

  // ---- whole operations ----

  // Kept by every operation, succeeding or failing at any point.
  lemma PerformGood(c: Config, l: Local, op: Op, env: Env)
    requires Good(c, l)
    ensures var r := Perform(c, l, op, env);
            && Good(c, r.local) && l.clock <= r.local.clock && l.passed <= r.local.passed
            && r.local.offered <= l.offered + Elems(r.local.memory.desired)
            && Elems(l.memory.learned) <= Elems(r.local.memory.learned)
            && (Grows(c, op) ==> Elems(l.memory.desired) <= Elems(r.local.memory.desired))
            && Elems(r.local.memory.desired) <=
                 Elems(l.memory.desired) + Elems(r.local.memory.learned) + CanonSet(c.seeds) + (if op.Learn? then {} else Incoming(op))
            && (r.local.memory.applied == l.memory.applied || r.local.memory.applied == r.local.memory.desired)
            && (r.ok && op.Learn? ==> Incoming(op) <= Elems(r.local.memory.learned))
            && (r.ok ==> r.local.memory.appliedKnown && r.local.memory.applied == r.local.memory.desired)
            && (r.ok && c.role.Agent? ==> r.local.memory.lastReported == r.local.memory.learned)
            && (r.ok && (op.Learn? || op.Accept?) ==> Incoming(op) <= Elems(r.local.memory.applied))
  {
    PersistGood(c, l.memory, l.disk, op, env);
    var s := Persist(c, l.memory, l.disk, op, env);
    var ready := l.(memory := s.memory, disk := s.disk);
    ReconciledGood(c, ready, env);
  }

  // An agent's sync replaces the desired list by what the controller sent, its
  // own learned hosts and the seeds, or leaves it alone.
  lemma SyncReplaces(c: Config, l: Local, reply: Option<seq<string>>, env: Env)
    requires Good(c, l) && c.role.Agent?
    ensures var staged := Persist(c, l.memory, l.disk, Sync(reply), env);
            var r := Perform(c, l, Sync(reply), env).local.memory;
            && r.learned == l.memory.learned
            && (if staged.proceed && staged.complete
                then reply.Some? && Elems(r.desired) == CanonSet(reply.value) + Elems(l.memory.learned) + CanonSet(c.seeds)
                else r.desired == l.memory.desired)
  {
    hide Validated, Merged, PlanSync, Discovered, Good, ListsGood, FilesGood;
    var staged := Persist(c, l.memory, l.disk, Sync(reply), env);
    SyncStages(c, l, reply, env);
    ContinueKeepsLists(c, l.(memory := staged.memory, disk := staged.disk), staged.proceed, staged.complete, env);
  }

  lemma SyncStages(c: Config, l: Local, reply: Option<seq<string>>, env: Env)
    requires Good(c, l)
    ensures var s := PersistSync(c, l.memory, l.disk, reply, env);
            && s.memory.learned == l.memory.learned
            && (if s.proceed && s.complete
                then reply.Some? && Elems(s.memory.desired) == CanonSet(reply.value) + Elems(l.memory.learned) + CanonSet(c.seeds)
                else s.memory.desired == l.memory.desired)
  {
    hide Validated, Merged, PlanSync, Discovered;
    if Discovered(c, reply).Some? && PlanSync(c, l.memory, Discovered(c, reply).value).Some? {
      PlanSyncMeaning(c, l.memory, reply);
    }
  }

  lemma ContinueKeepsLists(c: Config, l: Local, proceed: bool, complete: bool, env: Env)
    ensures var m := Continue(c, l, proceed, complete, env).local.memory;
            m.desired == l.memory.desired && m.learned == l.memory.learned
  {
  }

  // lastReported changes only to the learned list, and only when a report of
  // all of it was sent and acknowledged.
  lemma ReportedIsSent(c: Config, l: Local, op: Op, env: Env)
    requires Good(c, l)
    ensures var r := Perform(c, l, op, env).local.memory;
            || r.lastReported == l.memory.lastReported
            || (env.ack && r.lastReported == r.learned && Sends(c, l, op, env) == Some(r.learned))
  {
    hide Persist;
    var s := Persist(c, l.memory, l.disk, op, env);
    var ready := l.(memory := s.memory, disk := s.disk);
    PersistGood(c, l.memory, l.disk, op, env);
    ApplyGood(c, ready, env);
    ReportIsWhole(s.memory.learned);
  }

  // An operation sends a report exactly when an agent has something learned that
  // is not acknowledged yet and every driver holds the list; it then sends all
  // that was learned.
  lemma SendsExactly(c: Config, l: Local, op: Op, env: Env)
    requires Good(c, l)
    ensures var s := Persist(c, l.memory, l.disk, op, env);
            Sends(c, l, op, env) ==
              if && s.proceed && Apply(c, l.(memory := s.memory, disk := s.disk), env).ok
                 && c.role.Agent? && s.memory.learned != l.memory.lastReported
              then Some(s.memory.learned) else None
  {
    hide Persist, RunDrivers;
    PersistGood(c, l.memory, l.disk, op, env);
    ReportIsWhole(Persist(c, l.memory, l.disk, op, env).memory.learned);
  }

  lemma SendsBeforeAck(c: Config, l: Local, op: Op, env: Env, ack: bool)
    ensures Sends(c, l, op, env) == Sends(c, l, op, env.(ack := ack))
  {
    hide Apply, Persist;
    PersistBeforeAck(c, l.memory, l.disk, op, env, ack);
    var staged := Persist(c, l.memory, l.disk, op, env);
    ApplyBeforeAck(c, l.(memory := staged.memory, disk := staged.disk), env, ack);
  }

  lemma PersistBeforeAck(c: Config, m: Memory, d: Disk, op: Op, env: Env, ack: bool)
    ensures Persist(c, m, d, op, env) == Persist(c, m, d, op, env.(ack := ack))
  {
    hide Validated, Merged, PlanSync, PlanLearn, PlanAccept, Discovered;
  }

  lemma ApplyBeforeAck(c: Config, l: Local, env: Env, ack: bool)
    ensures Apply(c, l, env) == Apply(c, l, env.(ack := ack))
  {
    hide RunDrivers;
  }
}
