// Runs on which the daemon does less than its documentation says, with
// concrete addresses. The exact conditions are in Recovery.dfy and Retry.dfy.
module Findings {
  import opened Strings
  import opened Networks
  import opened NetworkSets
  import opened Node
  import opened NodeInvariant
  import opened Recovery
  import opened Retry

  const A: string := Render([8, 8, 8, 8], 32)
  const B: string := Render([9, 9, 9, 9], 32)

  lemma Addresses()
    ensures Canonical(A) && Canonical(B) && IsHost(A) && IsHost(B) && A != B
  {
    hide Render, CanonicalNetwork, IsHost, ParseCIDR;
    HostIsCanonical([8, 8, 8, 8]);
    HostIsCanonical([9, 9, 9, 9]);
    RenderRoundTrip([8, 8, 8, 8], 32);
    RenderRoundTrip([9, 9, 9, 9], 32);
  }

  lemma Lists1(x: string)
    requires Canonical(x)
    ensures CanonList([x]) && Elems([x]) == {x}
  {
  }

  lemma MergeInto(c: Config, m: Memory, reply: seq<string>)
    requires CanonList(reply) && |reply| <= Max(c) && m.learned == [] && c.seeds == []
    ensures Discovered(c, Some(reply)) == Some(reply) && PlanSync(c, m, reply) == Some(reply)
  {
    ValidatedSelf(reply, false, Max(c));
    CanonSets3(reply, [], []);
    CanonListSet(reply);
    assert CanonSet([]) == {};
    SortedOfElems(reply);
    assert CanonSets([reply, [], []]) == Elems(reply);
  }

  // ---- a failed pass an agent forgets ----

  lemma TwoDrivers(calls: seq<Call>, drivers: seq<bool>, nets: seq<string>)
    requires |calls| == 2
    ensures RunDrivers(calls, drivers, nets, 0) ==
            if !Succeeds(drivers, 0) then ([Call(nets, false), calls[1]], false)
            else ([Call(nets, true), Call(nets, Succeeds(drivers, 1))], Succeeds(drivers, 1))
  {
    var c1 := calls[0 := Call(nets, Succeeds(drivers, 0))];
    var c2 := c1[1 := Call(nets, Succeeds(drivers, 1))];
    assert RunDrivers(c1, drivers, nets, 1) ==
           if Succeeds(drivers, 1) then RunDrivers(c2, drivers, nets, 2) else (c2, false);
    assert c1 == [Call(nets, Succeeds(drivers, 0)), calls[1]];
    assert c2 == [Call(nets, Succeeds(drivers, 0)), Call(nets, Succeeds(drivers, 1))];
  }

  const AGENT := Config(Agent, [], 0, 300)
  const FINE := Env(0, 0, [true, true], true, true, true)
  const HALF := Env(0, 0, [true, false], true, true, true)

  // The agent's state file holds the list both; it has two drivers.
  function Started(both: seq<string>): Local {
    Local(BLANK.(desired := both), Disk(Some(SaveState(both)), None), [Never, Never], {}, {}, 0)
  }

  // It applies both. A fetch then brings one, a shorter list, and the pass
  // fails after the first driver. The next fetch brings both again, as when
  // another agent has reported the rest meanwhile.
  function ForgetfulRun(both: seq<string>, one: seq<string>): seq<Step> {
    [Step(Reconcile, FINE), Step(Sync(Some(one)), HALF), Step(Sync(Some(both)), FINE)]
  }

  lemma FirstPass(both: seq<string>) returns (l: Local)
    ensures l == Perform(AGENT, Started(both), Reconcile, FINE).local
    ensures l.memory == BLANK.(desired := both, applied := both, appliedKnown := true)
    ensures |l.calls| == 2 && l.clock == 0
  {
    TwoDrivers([Never, Never], [true, true], both);
    l := Perform(AGENT, Started(both), Reconcile, FINE).local;
  }

  lemma HalfPass(l0: Local, one: seq<string>) returns (l: Local)
    requires l0.memory.learned == [] && |l0.calls| == 2 && l0.clock == 0
    requires CanonList(one) && |one| <= Max(AGENT) && l0.memory.desired != one && l0.memory.applied != one
    ensures l == Perform(AGENT, l0, Sync(Some(one)), HALF).local
    ensures l.memory == l0.memory.(desired := one) && l.calls == [Call(one, true), Call(one, false)] && l.clock == 0
  {
    hide Validated, Merged;
    MergeInto(AGENT, l0.memory, one);
    TwoDrivers(l0.calls, [true, false], one);
    l := Perform(AGENT, l0, Sync(Some(one)), HALF).local;
  }

  lemma NoPass(l0: Local, both: seq<string>) returns (l: Local)
    requires l0.memory.learned == [] && l0.clock == 0 && l0.memory.lastReported == []
    requires CanonList(both) && |both| <= Max(AGENT)
    requires l0.memory.appliedKnown && l0.memory.applied == both && l0.memory.appliedAt == 0
    ensures l == Perform(AGENT, l0, Sync(Some(both)), FINE).local
    ensures l.memory == l0.memory.(desired := both) && l.calls == l0.calls && l.clock == 0
  {
    hide Validated, Merged;
    MergeInto(AGENT, l0.memory, both);
    l := Perform(AGENT, l0, Sync(Some(both)), FINE).local;
  }

  lemma ThreeSteps(c: Config, l: Local, s: Step, t: Step, u: Step)
    ensures RunSteps(c, l, [s, t, u]) ==
            Perform(c, Perform(c, Perform(c, l, s.op, s.env).local, t.op, t.env).local, u.op, u.env).local
  {
    hide Perform;
    var l1 := Perform(c, l, s.op, s.env).local;
    var l2 := Perform(c, l1, t.op, t.env).local;
    assert [s, t, u][1..] == [t, u] && [t, u][1..] == [u] && [u][1..] == [];
    assert RunSteps(c, l1, [t, u]) == RunSteps(c, l2, [u]);
  }

  lemma ForgetfulEnd(both: seq<string>, one: seq<string>) returns (l: Local)
    requires CanonList(both) && |both| <= Max(AGENT) && CanonList(one) && |one| <= Max(AGENT) && both != one
    ensures l == RunSteps(AGENT, Started(both), ForgetfulRun(both, one))
    ensures l.memory == BLANK.(desired := both, applied := both, appliedKnown := true)
    ensures l.calls == [Call(one, true), Call(one, false)] && l.clock == 0
  {
    hide Perform, RunSteps;
    var l1 := FirstPass(both);
    var l2 := HalfPass(l1, one);
    l := NoPass(l2, both);
    ThreeSteps(AGENT, Started(both), Step(Reconcile, FINE), Step(Sync(Some(one)), HALF), Step(Sync(Some(both)), FINE));
  }

  // After that run the agent takes both as applied and would not call a driver
  // before the reapply falls due, yet its first driver was last given one alone.
  lemma AgentForgets(both: seq<string>, one: seq<string>)
    requires CanonList(both) && |both| <= Max(AGENT) && CanonList(one) && |one| <= Max(AGENT) && both != one
    ensures var l := RunSteps(AGENT, Started(both), ForgetfulRun(both, one));
            && Settled(AGENT, l) && l.memory.applied == both && Call(one, true) in l.calls && !Remembers(AGENT, l)
  {
    hide Perform, RunSteps;
    var l := ForgetfulEnd(both, one);
    assert l.calls[0] == Call(one, true);
  }

  lemma OneHost(c: Config, b: string)
    requires Canonical(b) && IsHost(b) && 1 <= Max(c)
    ensures Validated([b], true, Max(c)) == Some([b]) && Validated(Merged([[], [b]]), true, Max(c)) == Some([b])
  {
    hide Validated, IsHost;
    Lists1(b);
    ValidatedSelf([b], true, Max(c));
    assert CanonList([]);
    MergedPair([], [b]);
    assert Elems<string>([]) + {b} == {b};
    SortedOfElems([b]);
  }

  lemma OneMore(c: Config, desired: seq<string>, b: string)
    requires CanonList(desired) && Canonical(b) && |Elems(desired) + {b}| <= Max(c)
    ensures var union := SortedOf(Elems(desired) + {b}); Validated(Merged([desired, [b], []]), false, Max(c)) == Some(union)
  {
    hide Validated, Canonical;
    Lists1(b);
    CanonSets3(desired, [b], []);
    CanonListSet([b]);
    CanonListSet(desired);
    assert CanonSet([]) == {};
    var union := Elems(desired) + {b};
    assert CanonSets([desired, [b], []]) == union;
    SortedCanon(union);
    ValidatedSelf(SortedOf(union), false, Max(c));
  }

  lemma PlanOne(c: Config, m: Memory, b: string)
    requires m.learned == [] && c.seeds == [] && CanonList(m.desired) && Canonical(b) && IsHost(b)
    requires |Elems(m.desired) + {b}| <= Max(c)
    ensures PlanLearn(c, m, [b]) == Some(([b], SortedOf(Elems(m.desired) + {b})))
  {
    hide Validated, Merged, IsHost, Canonical, CanonList;
    assert b in Elems(m.desired) + {b};
    OneHost(c, b);
    OneMore(c, m.desired, b);
  }

  // Learning a network that is desired and taken as applied calls no driver.
  lemma LearnsQuietly(l: Local, b: string)
    requires CanonList(l.memory.desired) && |l.memory.desired| <= Max(AGENT) && b in l.memory.desired && IsHost(b)
    requires l.memory == BLANK.(desired := l.memory.desired, applied := l.memory.desired, appliedKnown := true) && l.clock == 0
    ensures var r := Perform(AGENT, l, Learn([b]), FINE);
            r.ok && r.local.calls == l.calls && r.local.memory.applied == l.memory.applied
  {
    hide Perform, PlanLearn, IsHost, Canonical;
    var both := l.memory.desired;
    assert Elems(both) + {b} == Elems(both);
    SortedOfElems(both);
    SortedSize(both);
    PlanOne(AGENT, l.memory, b);
    PlannedQuietly(l, b);
  }

  lemma PlannedQuietly(l: Local, b: string)
    requires PlanLearn(AGENT, l.memory, [b]) == Some(([b], l.memory.desired))
    requires l.memory == BLANK.(desired := l.memory.desired, applied := l.memory.desired, appliedKnown := true) && l.clock == 0
    ensures var r := Perform(AGENT, l, Learn([b]), FINE);
            r.ok && r.local.calls == l.calls && r.local.memory.applied == l.memory.applied
  {
    hide PlanLearn, SaveState, RunDrivers;
  }

  // An answer with the address the driver lacks is released all the same.
  lemma ForgottenRelease(both: seq<string>, one: seq<string>, b: string)
    requires CanonList(both) && |both| <= Max(AGENT) && CanonList(one) && |one| <= Max(AGENT)
    requires IsHost(b) && b in both && b !in one
    ensures var l := RunSteps(AGENT, Started(both), ForgetfulRun(both, one));
            var r := Perform(AGENT, l, Learn([b]), FINE);
            && r.ok && r.local.calls == l.calls && Call(one, true) in r.local.calls && b in r.local.memory.applied
  {
    hide RunSteps, Perform, IsHost, CanonList, Started;
    var l := ForgetfulEnd(both, one);
    assert l.calls[0] == Call(one, true);
    LearnsQuietly(l, b);
  }

  // ---- a count that misleads ----

  // One network applied and another learned: the count test passes on an agent
  // whose drivers refused what it learned.
  lemma AgentCountMisleads(env: Env)
    requires !Succeeds(env.drivers, 0) && env.saveLearned && env.saveState && env.wait == 0
    ensures var l := Perform(AGENT, Started([A]), Reconcile, FINE).local;
            var r := Perform(AGENT, l, Learn([B]), env);
            && !r.ok && LearnedIsApplied(StatusOf(AGENT, r.local.memory)) && !(Elems(r.local.memory.learned) <= Elems(r.local.memory.applied))
  {
    hide Render, Perform, Started, Canonical, IsHost;
    Addresses();
    Lists1(A);
    var l := FirstPass([A]);
    CountOf(l, A, B, env);
    assert B in Elems([B]) && B !in Elems([A]);
  }

  lemma CountOf(l: Local, a: string, b: string, env: Env)
    requires Canonical(a) && Canonical(b) && IsHost(b) && a != b
    requires l.memory == BLANK.(desired := [a], applied := [a], appliedKnown := true) && |l.calls| == 2
    requires !Succeeds(env.drivers, 0) && env.saveLearned && env.saveState
    ensures var r := Perform(AGENT, l, Learn([b]), env);
            && !r.ok && r.local.memory.learned == [b] && r.local.memory.applied == [a] && r.local.memory.appliedKnown
  {
    hide PlanLearn, SaveState, Canonical, IsHost;
    Lists1(a);
    assert |{a} + {b}| == 2;
    PlanOne(AGENT, l.memory, b);
    var next := SortedOf({a} + {b});
    assert b in next && b !in [a];
    TwoDrivers(l.calls, env.drivers, next);
  }

  lemma TwoLists(x: string, y: string)
    requires Canonical(x) && Canonical(y) && x != y
    ensures var both := SortedOf({x, y});
            CanonList(both) && |both| == 2 && y in both && CanonList([x])
  {
    hide CanonicalNetwork;
    SortedCanon({x, y});
    Lists1(x);
  }

  // The same with the two addresses above, starting from the state file.
  lemma AgentForgetsConcretely()
    ensures var both := SortedOf({A, B});
            var l := RunSteps(AGENT, Started(both), ForgetfulRun(both, [A]));
            && Recover(AGENT, Started(both).disk) == Some((both, []))
            && Settled(AGENT, l) && B in l.memory.applied && Call([A], true) in l.calls
  {
    hide RunSteps, Settled, Recover, CanonList, Started, ForgetfulRun, Remembers, Render, Canonical;
    Addresses();
    TwoLists(A, B);
    var both := SortedOf({A, B});
    AgentForgets(both, [A]);
    StartsSo(both);
  }

  lemma StartsSo(both: seq<string>)
    requires CanonList(both) && both != [] && |both| <= Max(AGENT)
    ensures Recover(AGENT, Started(both).disk) == Some((both, []))
  {
    hide Validated;
    SavedValidates(both, false, Max(AGENT));
    assert LoadState(None) == [];
    ValidatedSelf([], true, Max(AGENT));
    ReadBackSet(both);
    assert CanonSet([]) == {};
    RecoverIs(AGENT, Started(both).disk, both, []);
  }

  // ---- a restart that fails ----

  // With a limit of one: learning A saves the learned file, but the state file
  // cannot be written. The daemon lives on and syncs to B. Both files are now
  // valid, and their union is over the limit.
  const SMALL := Config(Agent, [], 1, 300)

  lemma LearnedAheadBlocksRestart(l: Local, env: Env)
    requires l.memory == BLANK && l.disk == Disk(None, None)
    requires env.saveLearned && !env.saveState
    ensures var failed := Perform(SMALL, l, Learn([A]), env).local;
            var synced := Perform(SMALL, failed, Sync(Some([B])), env.(saveState := true)).local;
            && failed.memory == l.memory && failed.disk == Disk(None, Some(SaveState([A])))
            && synced.memory.desired == [B]
            && synced.disk == Disk(Some(SaveState([B])), Some(SaveState([A])))
            && Recover(SMALL, synced.disk) == None
  {
    hide Validated, Merged, SaveState, Render;
    Addresses();
    Lists1(A);
    Lists1(B);
    LearnsAlone(l, env);
    var failed := Perform(SMALL, l, Learn([A]), env).local;
    MergeInto(SMALL, failed.memory, [B]);
    SyncsAlone(failed, env.(saveState := true));
    OverLimit();
  }

  lemma LearnsAlone(l: Local, env: Env)
    requires l.memory == BLANK && l.disk == Disk(None, None) && env.saveLearned && !env.saveState
    ensures var failed := Perform(SMALL, l, Learn([A]), env).local;
            failed.memory == l.memory && failed.disk == Disk(None, Some(SaveState([A])))
  {
    hide Render, SaveState, PlanLearn, IsHost, Canonical;
    Addresses();
    Lists1(A);
    assert Elems<string>([]) + {A} == {A};
    SortedOfElems([A]);
    PlanOne(SMALL, BLANK, A);
    assert PlanLearn(SMALL, BLANK, [A]) == Some(([A], [A]));
  }

  lemma SyncsAlone(l: Local, env: Env)
    requires l.memory == BLANK && env.saveState
    requires Discovered(SMALL, Some([B])) == Some([B]) && PlanSync(SMALL, l.memory, [B]) == Some([B])
    ensures var synced := Perform(SMALL, l, Sync(Some([B])), env).local;
            synced.memory.desired == [B] && synced.disk == l.disk.(state := Some(SaveState([B])))
  {
    hide Validated, Merged, Discovered, PlanSync;
    ContinueKeepsLists(SMALL, l.(memory := l.memory.(desired := [B]), disk := l.disk.(state := Some(SaveState([B])))), true, true, env);
  }

  lemma OverLimit()
    ensures Recover(SMALL, Disk(Some(SaveState([B])), Some(SaveState([A])))) == None
  {
    hide Render, SaveState;
    var d := Disk(Some(SaveState([B])), Some(SaveState([A])));
    Addresses();
    Lists1(A);
    Lists1(B);
    ReadBackSet([A]);
    ReadBackSet([B]);
    assert |{A, B}| == 2;
    if Recover(SMALL, d).Some? {
      RecoverMeaning(SMALL, d);
      SortedSize(Recover(SMALL, d).value.0);
      SubsetSize({A, B}, Durable(SMALL, d));
    }
  }
}
