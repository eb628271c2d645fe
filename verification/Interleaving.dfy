// applyExit and cleanupLinuxExit running at the same time, as the daemon and
// the cleanup command can: both programs command by command, in any schedule.
module Interleaving {
  import opened Strings
  import opened Packets
  import opened Commands
  import opened Tables
  import opened LinuxExit

  // ---- the two programs ----

  // The command each program is about to issue.
  datatype ApplyPc =
    | Idle
    | FilterProbe | FilterCreate
    | NatProbe | NatCreate
    | LegacyProbe | LegacyDelete
    | FilterRestore | NatRestore
    | HookProbe | HookInsert
    | NatHookProbe | NatHookInsert

  datatype CleanPc =
    | Resting
    | UnhookProbe | UnhookDelete
    | NatUnhookProbe | NatUnhookDelete
    | ChainProbe | ChainFlush | ChainRemove
    | NatChainProbe | NatChainFlush | NatChainRemove

  // What took effect on the filter table, and when a cleanup got past its hook:
  // it found none or deleted the one it found.
  datatype Effect = Restored | Inserted | Flushed | PassedHook

  // nets is the list of the daemon's present run, given those of all its runs.
  datatype System = System(
    filterTable: Table, natTable: Table, nets: seq<string>, given: set<seq<string>>,
    apply: ApplyPc, clean: CleanPc, log: seq<Effect>)

  // One program issues its next command, or is killed. An idle program starts a
  // new run; nets is the list the daemon then applies. The two probes of the
  // filter hook are truthful, or the operator's fails with an error that does
  // not read as missing; all other answers are arbitrary.
  datatype Turn =
    | Daemon(nets: seq<string>, probe: Probe, answer: Answer)
    | Operator(probe: Probe, answer: Answer)
    | DaemonDies
    | OperatorDies

  predicate Holds(t: Table, builtin: string, r: Rule) {
    builtin in t && r in t[builtin]
  }

  predicate Effective(next: Option<Table>, answer: Answer) {
    next.Some? && !answer.Refused?
  }

  predicate Succeeded(next: Option<Table>, answer: Answer) {
    next.Some? && answer.Works?
  }

  function After(t: Table, next: Option<Table>, answer: Answer): Table {
    if Effective(next, answer) then next.value else t
  }

  function Logged(log: seq<Effect>, e: Effect, happened: bool): seq<Effect> {
    if happened then log + [e] else log
  }

  // applyExit, on the filter table.
  function ApplyFilter(c: ExitConfig, s: System, probe: Probe, answer: Answer): System {
    var chain := FilterChain(c);
    match s.apply
    case FilterProbe => s.(apply := if Found(probe, chain in s.filterTable) then NatProbe else FilterCreate)
    case FilterCreate =>
      var next := NewChain(s.filterTable, chain);
      s.(filterTable := After(s.filterTable, next, answer), apply := if Succeeded(next, answer) then NatProbe else Idle)
    case FilterRestore =>
      var next := ReplaceChain(s.filterTable, chain, ExitFilter(c, s.nets));
      s.(filterTable := After(s.filterTable, next, answer), apply := if Succeeded(next, answer) then NatRestore else Idle,
         log := Logged(s.log, Restored, Effective(next, answer)))
    case HookProbe => s.(apply := if Holds(s.filterTable, FORWARD, Hook(chain)) then NatHookProbe else HookInsert)
    case HookInsert =>
      var next := InsertRule(s.filterTable, FORWARD, Hook(chain));
      s.(filterTable := After(s.filterTable, next, answer), apply := if Succeeded(next, answer) then NatHookProbe else Idle,
         log := Logged(s.log, Inserted, Effective(next, answer)))
    case _ => s
  }

  // Its commands on the nat table, which only decide whether it goes on.
  function ApplyNat(c: ExitConfig, s: System, probe: Probe, answer: Answer): System {
    var chain := NatChain(c);
    match s.apply
    case NatProbe => s.(apply := if Found(probe, chain in s.natTable) then LegacyProbe else NatCreate)
    case NatCreate =>
      var next := NewChain(s.natTable, chain);
      s.(natTable := After(s.natTable, next, answer), apply := if Succeeded(next, answer) then LegacyProbe else Idle)
    case LegacyProbe =>
      s.(apply := if Found(probe, Holds(s.natTable, POSTROUTING, Legacy(c))) then LegacyDelete else FilterRestore)
    case LegacyDelete =>
      var next := DeleteRule(s.natTable, POSTROUTING, Legacy(c));
      s.(natTable := After(s.natTable, next, answer), apply := if Succeeded(next, answer) then FilterRestore else Idle)
    case NatRestore =>
      var next := ReplaceChain(s.natTable, chain, ExitNat(c, s.nets));
      s.(natTable := After(s.natTable, next, answer), apply := if Succeeded(next, answer) then HookProbe else Idle)
    case NatHookProbe => s.(apply := if Found(probe, Holds(s.natTable, POSTROUTING, Hook(chain))) then Idle else NatHookInsert)
    case NatHookInsert => s.(natTable := After(s.natTable, InsertRule(s.natTable, POSTROUTING, Hook(chain)), answer), apply := Idle)
    case _ => s
  }

  predicate OnFilter(pc: ApplyPc) {
    pc in {FilterProbe, FilterCreate, FilterRestore, HookProbe, HookInsert}
  }

  function DaemonTurn(c: ExitConfig, s: System, nets: seq<string>, probe: Probe, answer: Answer): System {
    if s.apply.Idle? then s.(nets := nets, given := s.given + {nets}, apply := FilterProbe)
    else if OnFilter(s.apply) then ApplyFilter(c, s, probe, answer)
    else ApplyNat(c, s, probe, answer)
  }

  // cleanupLinuxExit, on the filter table.
  function CleanFilter(c: ExitConfig, s: System, probe: Probe, answer: Answer): System {
    var chain := FilterChain(c);
    match s.clean
    case UnhookProbe =>
      if probe.Broken? then s.(clean := Resting)
      else if Holds(s.filterTable, FORWARD, Hook(chain)) then s.(clean := UnhookDelete)
      else s.(clean := NatUnhookProbe, log := s.log + [PassedHook])
    case UnhookDelete =>
      var next := DeleteRule(s.filterTable, FORWARD, Hook(chain));
      s.(filterTable := After(s.filterTable, next, answer), clean := if Succeeded(next, answer) then NatUnhookProbe else Resting,
         log := Logged(s.log, PassedHook, Succeeded(next, answer)))
    case ChainProbe =>
      s.(clean := if probe.Broken? then Resting else if Found(probe, chain in s.filterTable) then ChainFlush else NatChainProbe)
    case ChainFlush =>
      var next := FlushChain(s.filterTable, chain);
      s.(filterTable := After(s.filterTable, next, answer), clean := if Succeeded(next, answer) then ChainRemove else Resting,
         log := Logged(s.log, Flushed, Effective(next, answer)))
    case ChainRemove =>
      var next := RemoveChain(s.filterTable, chain);
      s.(filterTable := After(s.filterTable, next, answer), clean := if Succeeded(next, answer) then NatChainProbe else Resting)
    case _ => s
  }

  function CleanNat(c: ExitConfig, s: System, probe: Probe, answer: Answer): System {
    var chain := NatChain(c);
    match s.clean
    case NatUnhookProbe =>
      s.(clean := if probe.Broken? then Resting
                  else if Found(probe, Holds(s.natTable, POSTROUTING, Hook(chain))) then NatUnhookDelete else ChainProbe)
    case NatUnhookDelete =>
      var next := DeleteRule(s.natTable, POSTROUTING, Hook(chain));
      s.(natTable := After(s.natTable, next, answer), clean := if Succeeded(next, answer) then ChainProbe else Resting)
    case NatChainProbe =>
      s.(clean := if !probe.Broken? && Found(probe, chain in s.natTable) then NatChainFlush else Resting)
    case NatChainFlush =>
      var next := FlushChain(s.natTable, chain);
      s.(natTable := After(s.natTable, next, answer), clean := if Succeeded(next, answer) then NatChainRemove else Resting)
    case NatChainRemove => s.(natTable := After(s.natTable, RemoveChain(s.natTable, chain), answer), clean := Resting)
    case _ => s
  }

  function OperatorTurn(c: ExitConfig, s: System, probe: Probe, answer: Answer): System {
    if s.clean.Resting? then s.(clean := UnhookProbe)
    else if s.clean in {UnhookProbe, UnhookDelete, ChainProbe, ChainFlush, ChainRemove} then CleanFilter(c, s, probe, answer)
    else CleanNat(c, s, probe, answer)
  }

  function Take(c: ExitConfig, s: System, t: Turn): System {
    match t
    case Daemon(nets, probe, answer) => DaemonTurn(c, s, nets, probe, answer)
    case Operator(probe, answer) => OperatorTurn(c, s, probe, answer)
    case DaemonDies => s.(apply := Idle)
    case OperatorDies => s.(clean := Resting)
  }

  function Play(c: ExitConfig, s: System, turns: seq<Turn>): System {
    if turns == [] then s else Take(c, Play(c, s, turns[..|turns| - 1]), turns[|turns| - 1])
  }

  // ---- when a schedule opens the filter ----

  // what has happened, and reset has not happened since.
  predicate Since(log: seq<Effect>, what: Effect, reset: Effect) {
    log != [] &&
    (log[|log| - 1] == what || (log[|log| - 1] != reset && Since(log[..|log| - 1], what, reset)))
  }

  // The last effect is a hook inserted after a flush that no restore followed,
  // or a flush after a hook inserted since the cleanup got past its own.
  predicate Opens(log: seq<Effect>) {
    log != [] &&
    var before := log[..|log| - 1];
    match log[|log| - 1]
    case Inserted => Since(before, Flushed, Restored)
    case Flushed => Since(before, Inserted, PassedHook)
    case _ => false
  }

  predicate Opened(log: seq<Effect>) {
    log != [] && (Opens(log) || Opened(log[..|log| - 1]))
  }

  predicate InstantSafe(c: ExitConfig, s: System) {
    TableSafe(s.filterTable, FilterPlace(c, s.given))
  }

  // Neither program is running and the hook, if there, is single and complete.
  predicate Start(c: ExitConfig, s: System) {
    FilterChain(c) != FORWARD && InstantSafe(c, s) && s.apply.Idle? && s.clean.Resting? && s.log == []
  }

  predicate AfterRestore(pc: ApplyPc) {
    pc in {NatRestore, HookProbe, HookInsert}
  }

  predicate PastHook(pc: CleanPc) {
    pc !in {Resting, UnhookProbe, UnhookDelete}
  }

  predicate Emptied(t: Table, chain: string) {
    chain in t ==> t[chain] == []
  }

  // What holds as long as the schedule has not opened the filter.
  predicate Orderly(c: ExitConfig, s: System) {
    && InstantSafe(c, s)
    && (!s.apply.Idle? ==> s.nets in s.given)
    && (AfterRestore(s.apply) ==>
          if Since(s.log, Flushed, Restored) then Emptied(s.filterTable, FilterChain(c))
          else FilterChain(c) in s.filterTable && s.filterTable[FilterChain(c)] == ExitFilter(c, s.nets))
    && (s.apply.HookInsert? ==> !Holds(s.filterTable, FORWARD, Hook(FilterChain(c))))
    && (PastHook(s.clean) ==> (Holds(s.filterTable, FORWARD, Hook(FilterChain(c))) <==> Since(s.log, Inserted, PassedHook)))
  }

  // One turn from an orderly state either opens the filter at that very
  // instant, and the log says so, or leaves the state orderly.
  ghost predicate Kept(c: ExitConfig, s: System, u: System) {
    (u.log == s.log && Orderly(c, u)) ||
    (|u.log| == |s.log| + 1 && u.log[..|s.log|] == s.log && (if Opens(u.log) then !InstantSafe(c, u) else Orderly(c, u)))
  }

  lemma Snoc(log: seq<Effect>, e: Effect)
    ensures |log + [e]| == |log| + 1 && (log + [e])[..|log|] == log && (log + [e])[|log|] == e
  {
  }

  lemma NeverEmpty(c: ExitConfig, given: set<seq<string>>)
    ensures [] !in Filters(c, given)
  {
    assert forall nets: seq<string> :: ExitFilter(c, nets) != [];
  }

  lemma PlaceFacts(c: ExitConfig, s: System)
    requires FilterChain(c) != FORWARD
    ensures IsPlace(FilterPlace(c, s.given)) && [] !in FilterPlace(c, s.given).full
    ensures s.nets in s.given ==> ExitFilter(c, s.nets) in FilterPlace(c, s.given).full && ExitFilter(c, s.nets) != []
  {
    NeverEmpty(c, s.given);
  }

  lemma CreateKeeps(c: ExitConfig, s: System, answer: Answer)
    requires FilterChain(c) != FORWARD && Orderly(c, s) && s.apply.FilterCreate?
    ensures Kept(c, s, ApplyFilter(c, s, Honest, answer))
  {
    hide ExitFilter, FilterChain, Rest, Filters;
    PlaceFacts(c, s);
    if NewChain(s.filterTable, FilterChain(c)).Some? {
      NewKeeps(s.filterTable, FilterPlace(c, s.given));
    }
  }

  lemma RestoreKeeps(c: ExitConfig, s: System, answer: Answer)
    requires FilterChain(c) != FORWARD && Orderly(c, s) && s.apply.FilterRestore?
    ensures Kept(c, s, ApplyFilter(c, s, Honest, answer))
  {
    hide ExitFilter, FilterChain, Rest, Filters;
    PlaceFacts(c, s);
    Snoc(s.log, Restored);
    if ReplaceChain(s.filterTable, FilterChain(c), ExitFilter(c, s.nets)).Some? {
      ReplaceKeeps(s.filterTable, FilterPlace(c, s.given), ExitFilter(c, s.nets));
    }
  }

  lemma InsertKeeps(c: ExitConfig, s: System, answer: Answer)
    requires FilterChain(c) != FORWARD && Orderly(c, s) && s.apply.HookInsert?
    ensures Kept(c, s, ApplyFilter(c, s, Honest, answer))
  {
    hide ExitFilter, FilterChain, Rest, Filters;
    PlaceFacts(c, s);
    Snoc(s.log, Inserted);
    var next := InsertRule(s.filterTable, FORWARD, Hook(FilterChain(c)));
    if next.Some? && !Since(s.log, Flushed, Restored) {
      HookKeeps(s.filterTable, FilterPlace(c, s.given));
    }
  }

  lemma ApplyFilterKeeps(c: ExitConfig, s: System, probe: Probe, answer: Answer)
    requires FilterChain(c) != FORWARD && Orderly(c, s) && OnFilter(s.apply)
    ensures Kept(c, s, ApplyFilter(c, s, probe, answer))
  {
    hide ExitFilter, FilterChain, InstantSafe;
    match s.apply
    case FilterCreate => CreateKeeps(c, s, answer);
    case FilterRestore => RestoreKeeps(c, s, answer);
    case HookInsert => InsertKeeps(c, s, answer);
    case _ => SameSafe(c, s, ApplyFilter(c, s, probe, answer));
  }

  lemma ApplyNatKeeps(c: ExitConfig, s: System, probe: Probe, answer: Answer)
    requires Orderly(c, s) && !OnFilter(s.apply)
    ensures Kept(c, s, ApplyNat(c, s, probe, answer))
  {
    hide ExitFilter, ExitNat, FilterChain, NatChain, InstantSafe;
    SameSafe(c, s, ApplyNat(c, s, probe, answer));
  }

  lemma SameSafe(c: ExitConfig, s: System, u: System)
    requires InstantSafe(c, s) && u.filterTable == s.filterTable && s.given <= u.given
    ensures InstantSafe(c, u)
  {
  }

  lemma DaemonKeeps(c: ExitConfig, s: System, nets: seq<string>, probe: Probe, answer: Answer)
    requires FilterChain(c) != FORWARD && Orderly(c, s)
    ensures Kept(c, s, DaemonTurn(c, s, nets, probe, answer))
  {
    hide ApplyFilter, ApplyNat, InstantSafe, ExitFilter;
    if s.apply.Idle? {
      SameSafe(c, s, DaemonTurn(c, s, nets, probe, answer));
    } else if OnFilter(s.apply) {
      ApplyFilterKeeps(c, s, probe, answer);
    } else {
      ApplyNatKeeps(c, s, probe, answer);
    }
  }

  lemma UnhookFacts(c: ExitConfig, s: System)
    requires FilterChain(c) != FORWARD && InstantSafe(c, s) && DeleteRule(s.filterTable, FORWARD, Hook(FilterChain(c))).Some?
    ensures var u, chain := DeleteRule(s.filterTable, FORWARD, Hook(FilterChain(c))).value, FilterChain(c);
            && TableSafe(u, FilterPlace(c, s.given)) && !Holds(u, FORWARD, Hook(chain))
            && (chain in u <==> chain in s.filterTable) && (chain in u ==> u[chain] == s.filterTable[chain])
  {
    hide FilterChain, Rest, Filters, RemoveFirst;
    DeleteKeeps(s.filterTable, FilterPlace(c, s.given), Hook(FilterChain(c)));
  }

  lemma UnhookKeeps(c: ExitConfig, s: System, answer: Answer)
    requires FilterChain(c) != FORWARD && Orderly(c, s) && s.clean.UnhookDelete?
    ensures Kept(c, s, CleanFilter(c, s, Honest, answer))
  {
    hide ExitFilter, FilterChain, FilterPlace, DeleteRule, TableSafe, Holds;
    Snoc(s.log, PassedHook);
    if DeleteRule(s.filterTable, FORWARD, Hook(FilterChain(c))).Some? {
      UnhookFacts(c, s);
    }
  }

  lemma FlushFacts(c: ExitConfig, s: System)
    requires FilterChain(c) != FORWARD && InstantSafe(c, s) && FlushChain(s.filterTable, FilterChain(c)).Some?
    ensures var u, chain := FlushChain(s.filterTable, FilterChain(c)).value, FilterChain(c);
            && (TableSafe(u, FilterPlace(c, s.given)) <==> !Holds(s.filterTable, FORWARD, Hook(chain)))
            && (Holds(u, FORWARD, Hook(chain)) <==> Holds(s.filterTable, FORWARD, Hook(chain)))
            && Emptied(u, chain)
  {
    hide FilterChain, Filters;
    NeverEmpty(c, s.given);
  }

  lemma FlushedKeeps(c: ExitConfig, s: System, answer: Answer)
    requires FilterChain(c) != FORWARD && Orderly(c, s) && s.clean.ChainFlush?
    ensures Kept(c, s, CleanFilter(c, s, Honest, answer))
  {
    hide ExitFilter, FilterChain, FilterPlace, FlushChain, TableSafe, Holds, Emptied;
    Snoc(s.log, Flushed);
    if FlushChain(s.filterTable, FilterChain(c)).Some? {
      FlushFacts(c, s);
    }
  }

  // The kernel does not remove a chain that is hooked or holds a rule.
  lemma RemovedKeeps(c: ExitConfig, s: System, answer: Answer)
    requires FilterChain(c) != FORWARD && Orderly(c, s) && s.clean.ChainRemove?
    ensures Kept(c, s, CleanFilter(c, s, Honest, answer))
  {
    hide ExitFilter, FilterChain, Rest, Filters;
    PlaceFacts(c, s);
    if RemoveChain(s.filterTable, FilterChain(c)).Some? {
      assert !Holds(s.filterTable, FORWARD, Hook(FilterChain(c)));
      RemoveKeeps(s.filterTable, FilterPlace(c, s.given));
    }
  }

  lemma CleanFilterKeeps(c: ExitConfig, s: System, probe: Probe, answer: Answer)
    requires FilterChain(c) != FORWARD && Orderly(c, s)
    ensures Kept(c, s, CleanFilter(c, s, probe, answer))
  {
    hide ExitFilter, FilterChain, InstantSafe;
    Snoc(s.log, PassedHook);
    match s.clean
    case UnhookDelete => UnhookKeeps(c, s, answer);
    case ChainFlush => FlushedKeeps(c, s, answer);
    case ChainRemove => RemovedKeeps(c, s, answer);
    case _ => SameSafe(c, s, CleanFilter(c, s, probe, answer));
  }

  lemma CleanNatKeeps(c: ExitConfig, s: System, probe: Probe, answer: Answer)
    requires Orderly(c, s)
    ensures Kept(c, s, CleanNat(c, s, probe, answer))
  {
    hide ExitFilter, FilterChain, NatChain, InstantSafe;
    SameSafe(c, s, CleanNat(c, s, probe, answer));
  }

  lemma TakeKeeps(c: ExitConfig, s: System, t: Turn)
    requires FilterChain(c) != FORWARD && Orderly(c, s)
    ensures Kept(c, s, Take(c, s, t))
  {
    hide DaemonTurn, CleanFilter, CleanNat, InstantSafe, ExitFilter;
    match t
    case Daemon(nets, probe, answer) => DaemonKeeps(c, s, nets, probe, answer);
    case Operator(probe, answer) =>
      CleanFilterKeeps(c, s, probe, answer);
      CleanNatKeeps(c, s, probe, answer);
      SameSafe(c, s, OperatorTurn(c, s.(clean := Resting), probe, answer));
    case DaemonDies => SameSafe(c, s, s.(apply := Idle));
    case OperatorDies => SameSafe(c, s, s.(clean := Resting));
  }

  lemma LogGrows(c: ExitConfig, s: System, t: Turn)
    ensures var u := Take(c, s, t);
            u.log == s.log || (|u.log| == |s.log| + 1 && u.log[..|s.log|] == s.log)
  {
    hide ExitFilter, ExitNat, FilterChain, NatChain, NewChain, ReplaceChain, InsertRule, DeleteRule, FlushChain, RemoveChain, Holds;
    Snoc(s.log, Restored);
    Snoc(s.log, Inserted);
    Snoc(s.log, Flushed);
    Snoc(s.log, PassedHook);
  }

  ghost predicate EverUnsafe(c: ExitConfig, s: System, turns: seq<Turn>) {
    exists n | 0 <= n <= |turns| :: !InstantSafe(c, Play(c, s, turns[..n]))
  }

  lemma EverUnsafeSnoc(c: ExitConfig, s: System, turns: seq<Turn>)
    requires turns != []
    ensures EverUnsafe(c, s, turns) <==>
            EverUnsafe(c, s, turns[..|turns| - 1]) || !InstantSafe(c, Play(c, s, turns))
  {
    hide InstantSafe, Play;
    var front := turns[..|turns| - 1];
    assert turns[..|turns|] == turns;
    assert forall n | 0 <= n <= |front| :: front[..n] == turns[..n];
    if n :| 0 <= n <= |turns| && !InstantSafe(c, Play(c, s, turns[..n])) {
      assert n <= |front| ==> front[..n] == turns[..n];
    }
  }

  lemma {:induction false} OrderlyUntilOpened(c: ExitConfig, s: System, turns: seq<Turn>)
    requires Start(c, s)
    ensures var u := Play(c, s, turns);
            && (EverUnsafe(c, s, turns) <==> Opened(u.log))
            && (!Opened(u.log) ==> Orderly(c, u))
  {
    hide Take, InstantSafe, EverUnsafe, Opens;
    if turns == [] {
      StartOrderly(c, s);
    } else {
      var front, last := turns[..|turns| - 1], turns[|turns| - 1];
      var before := Play(c, s, front);
      OrderlyUntilOpened(c, s, front);
      EverUnsafeSnoc(c, s, turns);
      LogGrows(c, before, last);
      if !Opened(before.log) {
        TakeKeeps(c, before, last);
        OrderlyIsSafe(c, Take(c, before, last));
      }
    }
  }

  lemma OrderlyIsSafe(c: ExitConfig, s: System)
    ensures Orderly(c, s) ==> InstantSafe(c, s)
  {
  }

  lemma StartOrderly(c: ExitConfig, s: System)
    requires Start(c, s)
    ensures Orderly(c, s) && !Opened(s.log) && !EverUnsafe(c, s, [])
  {
    var none: seq<Turn> := [];
    assert forall n | 0 <= n <= 0 :: none[..n] == none;
  }

  // For every schedule of any number of runs of both programs, with any command
  // refused, cut short or killed: some instant is unsafe if and only if a hook
  // took effect after a flush that no restore followed, or a flush took effect
  // after a hook that was inserted since the cleanup got past its own.
  lemma UnsafeExactly(c: ExitConfig, s: System, turns: seq<Turn>)
    requires Start(c, s)
    ensures (exists n | 0 <= n <= |turns| :: !InstantSafe(c, Play(c, s, turns[..n]))) <==> Opened(Play(c, s, turns).log)
  {
    OrderlyUntilOpened(c, s, turns);
  }

  // ---- runs that do not overlap ----

  // A program takes a turn only while the other is not running.
  predicate Serial(c: ExitConfig, s: System, turns: seq<Turn>) {
    turns == [] ||
    var before := Play(c, s, turns[..|turns| - 1]);
    && Serial(c, s, turns[..|turns| - 1])
    && (turns[|turns| - 1].Daemon? ==> before.clean.Resting?)
    && (turns[|turns| - 1].Operator? ==> before.apply.Idle?)
  }

  predicate Apart(s: System) {
    && (s.apply.Idle? || s.clean.Resting?) && !Opened(s.log)
    && (AfterRestore(s.apply) ==> !Since(s.log, Flushed, Restored))
    && (PastHook(s.clean) ==> !Since(s.log, Inserted, PassedHook))
  }

  lemma FilterApart(c: ExitConfig, s: System, probe: Probe, answer: Answer)
    requires Apart(s) && s.clean.Resting?
    ensures Apart(ApplyFilter(c, s, probe, answer))
  {
    hide ExitFilter, FilterChain, NewChain, ReplaceChain, InsertRule, Holds, Found, After;
    Snoc(s.log, Restored);
    Snoc(s.log, Inserted);
  }

  lemma NatApart(c: ExitConfig, s: System, probe: Probe, answer: Answer)
    requires Apart(s) && s.clean.Resting? && !OnFilter(s.apply)
    ensures Apart(ApplyNat(c, s, probe, answer))
  {
    hide ExitNat, NatChain, NewChain, ReplaceChain, InsertRule, DeleteRule, Holds, Found, Effective, Succeeded, After, Since, Opened, Legacy;
  }

  lemma DaemonApart(c: ExitConfig, s: System, nets: seq<string>, probe: Probe, answer: Answer)
    requires Apart(s) && s.clean.Resting?
    ensures Apart(DaemonTurn(c, s, nets, probe, answer))
  {
    hide ApplyFilter, ApplyNat, Since, Opened;
    if s.apply.Idle? {
    } else if OnFilter(s.apply) {
      FilterApart(c, s, probe, answer);
    } else {
      NatApart(c, s, probe, answer);
    }
  }

  lemma CleanFilterApart(c: ExitConfig, s: System, probe: Probe, answer: Answer)
    requires Apart(s) && s.apply.Idle?
    ensures Apart(CleanFilter(c, s, probe, answer))
  {
    hide FilterChain, DeleteRule, FlushChain, RemoveChain, Holds, Found, After;
    Snoc(s.log, PassedHook);
    Snoc(s.log, Flushed);
  }

  lemma CleanNatApart(c: ExitConfig, s: System, probe: Probe, answer: Answer)
    requires Apart(s) && s.apply.Idle?
    ensures Apart(CleanNat(c, s, probe, answer))
  {
    hide NatChain, DeleteRule, FlushChain, RemoveChain, Holds, Found, Effective, Succeeded, After, Since, Opened;
  }

  lemma OperatorApart(c: ExitConfig, s: System, probe: Probe, answer: Answer)
    requires Apart(s) && s.apply.Idle?
    ensures Apart(OperatorTurn(c, s, probe, answer))
  {
    hide CleanFilter, CleanNat, Since, Opened;
    CleanFilterApart(c, s, probe, answer);
    CleanNatApart(c, s, probe, answer);
  }

  lemma {:induction false} SerialApart(c: ExitConfig, s: System, turns: seq<Turn>)
    requires Start(c, s) && Serial(c, s, turns)
    ensures Apart(Play(c, s, turns))
  {
    hide DaemonTurn, OperatorTurn, InstantSafe;
    if turns == [] {
    } else {
      var before := Play(c, s, turns[..|turns| - 1]);
      SerialApart(c, s, turns[..|turns| - 1]);
      match turns[|turns| - 1]
      case Daemon(nets, probe, answer) => DaemonApart(c, before, nets, probe, answer);
      case Operator(probe, answer) => OperatorApart(c, before, probe, answer);
      case DaemonDies =>
      case OperatorDies =>
    }
  }

  // Runs that do not overlap keep every instant safe.
  lemma SerialIsSafe(c: ExitConfig, s: System, turns: seq<Turn>, n: nat)
    requires Start(c, s) && Serial(c, s, turns) && n <= |turns|
    ensures InstantSafe(c, Play(c, s, turns[..n]))
  {
    hide InstantSafe, Play, Serial;
    SerialApart(c, s, turns);
    OrderlyUntilOpened(c, s, turns);
  }

  // ---- two schedules that open the filter ----

  const CLEAN := Operator(Honest, Works)

  function Times(t: Turn, n: nat): seq<Turn> {
    if n == 0 then [] else Times(t, n - 1) + [t]
  }

  // A machine with the two built-in chains and nothing else.
  function Bare(): System {
    System(map[FORWARD := []], map[POSTROUTING := []], [], {}, Idle, Resting, [])
  }

  // The daemon about to probe for its hook, after eight commands that worked.
  function AtHook(c: ExitConfig, nets: seq<string>): System {
    System(map[FORWARD := [], FilterChain(c) := ExitFilter(c, nets)], map[POSTROUTING := [], NatChain(c) := ExitNat(c, nets)],
           nets, {nets}, HookProbe, Resting, [Restored])
  }

  lemma {:induction false} PlayConcat(c: ExitConfig, s: System, a: seq<Turn>, b: seq<Turn>)
    ensures Play(c, s, a + b) == Play(c, Play(c, s, a), b)
  {
    hide Take;
    if b == [] {
      assert a + b == a;
    } else {
      var front := b[..|b| - 1];
      assert (a + b)[..|a + b| - 1] == a + front;
      PlayConcat(c, s, a, front);
    }
  }

  lemma PlayTimes(c: ExitConfig, s: System, t: Turn, n: nat)
    ensures Play(c, s, Times(t, n + 1)) == Take(c, Play(c, s, Times(t, n)), t)
    ensures Play(c, s, Times(t, 0)) == s
  {
    hide Take;
    assert Times(t, n + 1)[..|Times(t, n + 1)| - 1] == Times(t, n);
  }

  // The daemon about to restore, with both chains created.
  function AtRestore(c: ExitConfig, nets: seq<string>): System {
    System(map[FORWARD := [], FilterChain(c) := []], map[POSTROUTING := [], NatChain(c) := []],
           nets, {nets}, FilterRestore, Resting, [])
  }

  lemma UpToCreate(c: ExitConfig, nets: seq<string>)
    requires FilterChain(c) != FORWARD
    ensures Play(c, Bare(), Times(Daemon(nets, Honest, Works), 3)) ==
            AtRestore(c, nets).(natTable := map[POSTROUTING := []], apply := NatProbe)
  {
    hide FilterChain, Play, Times;
    var t := Daemon(nets, Honest, Works);
    var s := Bare().(nets := nets, given := {nets});
    assert {} + {nets} == {nets};
    PlayTimes(c, Bare(), t, 0);
    assert Play(c, Bare(), Times(t, 1)) == s.(apply := FilterProbe);
    PlayTimes(c, Bare(), t, 1);
    assert Play(c, Bare(), Times(t, 2)) == s.(apply := FilterCreate);
    PlayTimes(c, Bare(), t, 2);
    assert s.filterTable[FilterChain(c) := []] == AtRestore(c, nets).filterTable;
  }

  lemma UpToRestore(c: ExitConfig, nets: seq<string>)
    requires FilterChain(c) != FORWARD
    ensures Play(c, Bare(), Times(Daemon(nets, Honest, Works), 6)) == AtRestore(c, nets)
  {
    hide NatChain, FilterChain, Legacy, Play, Times;
    NatChainName(c);
    var t, r := Daemon(nets, Honest, Works), AtRestore(c, nets);
    var s := r.(natTable := map[POSTROUTING := []]);
    UpToCreate(c, nets);
    PlayTimes(c, Bare(), t, 3);
    assert Play(c, Bare(), Times(t, 4)) == s.(apply := NatCreate);
    PlayTimes(c, Bare(), t, 4);
    assert s.natTable[NatChain(c) := []] == r.natTable;
    assert Play(c, Bare(), Times(t, 5)) == r.(apply := LegacyProbe);
    PlayTimes(c, Bare(), t, 5);
  }

  lemma RestoreToHook(c: ExitConfig, nets: seq<string>)
    requires FilterChain(c) != FORWARD
    ensures Play(c, AtRestore(c, nets), Times(Daemon(nets, Honest, Works), 2)) == AtHook(c, nets)
  {
    hide ExitFilter, ExitNat, FilterChain, NatChain, Play, Times;
    NatChainName(c);
    var t, r, h := Daemon(nets, Honest, Works), AtRestore(c, nets), AtHook(c, nets);
    PlayTimes(c, r, t, 0);
    assert r.filterTable[FilterChain(c) := ExitFilter(c, nets)] == h.filterTable;
    assert Play(c, r, Times(t, 1)) == r.(filterTable := h.filterTable, apply := NatRestore, log := [Restored]);
    PlayTimes(c, r, t, 1);
    assert r.natTable[NatChain(c) := ExitNat(c, nets)] == h.natTable;
  }

  lemma {:induction false} TimesPlus(t: Turn, m: nat, n: nat)
    ensures Times(t, m + n) == Times(t, m) + Times(t, n)
  {
    if n == 0 {
    } else {
      TimesPlus(t, m, n - 1);
      assert Times(t, m + n) == Times(t, m + (n - 1)) + [t];
    }
  }

  lemma UpToHook(c: ExitConfig, nets: seq<string>)
    requires FilterChain(c) != FORWARD
    ensures Play(c, Bare(), Times(Daemon(nets, Honest, Works), 8)) == AtHook(c, nets)
  {
    hide FilterChain, Play, Times, Take, AtHook, AtRestore;
    var t := Daemon(nets, Honest, Works);
    UpToRestore(c, nets);
    RestoreToHook(c, nets);
    TimesPlus(t, 6, 2);
    PlayConcat(c, Bare(), Times(t, 6), Times(t, 2));
  }

  // The operator about to flush, having found no hook.
  lemma UpToFlush(c: ExitConfig, nets: seq<string>)
    requires FilterChain(c) != FORWARD
    ensures Play(c, AtHook(c, nets), Times(CLEAN, 4)) == AtHook(c, nets).(clean := ChainFlush, log := [Restored, PassedHook])
  {
    hide ExitFilter, ExitNat, FilterChain, NatChain, Play, Times;
    NatChainName(c);
    var s := AtHook(c, nets);
    PlayTimes(c, s, CLEAN, 0);
    PlayTimes(c, s, CLEAN, 1);
    PlayTimes(c, s, CLEAN, 2);
    PlayTimes(c, s, CLEAN, 3);
    assert Play(c, s, Times(CLEAN, 1)) == s.(clean := UnhookProbe);
    assert Play(c, s, Times(CLEAN, 2)) == s.(clean := NatUnhookProbe, log := [Restored, PassedHook]);
    assert Play(c, s, Times(CLEAN, 3)) == s.(clean := ChainProbe, log := [Restored, PassedHook]);
  }

  // FORWARD jumps to an empty chain, which decides no packet.
  ghost predicate Open(c: ExitConfig, s: System) {
    && !InstantSafe(c, s) && Holds(s.filterTable, FORWARD, Hook(FilterChain(c)))
    && FilterChain(c) in s.filterTable && forall p :: Decide(s.filterTable[FilterChain(c)], p) == Returned
  }

  lemma HookedEmpty(c: ExitConfig, s: System)
    requires FilterChain(c) != FORWARD
    requires s.filterTable == map[FORWARD := [Hook(FilterChain(c))], FilterChain(c) := []]
    ensures Open(c, s)
  {
    hide FilterChain;
    NeverEmpty(c, s.given);
  }

  // The daemon restores its chain, a cleanup that saw no hook flushes it, and
  // the daemon hooks it. Every command works and every probe is truthful.
  lemma FlushThenHook(c: ExitConfig, nets: seq<string>)
    requires FilterChain(c) != FORWARD
    ensures var t := Daemon(nets, Honest, Works);
            Start(c, Bare()) && Open(c, Play(c, Bare(), Times(t, 8) + Times(CLEAN, 5) + Times(t, 2)))
  {
    hide ExitFilter, ExitNat, FilterChain, NatChain, Play, Times, Open;
    var t := Daemon(nets, Honest, Works);
    UpToHook(c, nets);
    UpToFlush(c, nets);
    PlayConcat(c, Bare(), Times(t, 8), Times(CLEAN, 5));
    PlayConcat(c, Bare(), Times(t, 8) + Times(CLEAN, 5), Times(t, 2));
    var s := AtHook(c, nets);
    PlayTimes(c, s, CLEAN, 4);
    var flushed := s.(filterTable := map[FORWARD := [], FilterChain(c) := []], clean := ChainRemove, log := [Restored, PassedHook, Flushed]);
    assert s.filterTable[FilterChain(c) := []] == flushed.filterTable;
    assert Play(c, s, Times(CLEAN, 5)) == flushed;
    PlayTimes(c, flushed, t, 0);
    PlayTimes(c, flushed, t, 1);
    assert Play(c, flushed, Times(t, 1)) == flushed.(apply := HookInsert);
    var u := Play(c, flushed, Times(t, 2));
    assert [Hook(FilterChain(c))] + [] == [Hook(FilterChain(c))];
    assert flushed.filterTable[FORWARD := [Hook(FilterChain(c))] + []] == map[FORWARD := [Hook(FilterChain(c))], FilterChain(c) := []];
    HookedEmpty(c, u);
  }

  // Hooking and unhooking where the built-in chain holds nothing else.
  lemma OneCopy(builtin: string, chain: string, rules: seq<Rule>)
    requires builtin != chain
    ensures var r := Hook(chain);
            var without, with := map[builtin := [], chain := rules], map[builtin := [r], chain := rules];
            && InsertRule(without, builtin, r) == Some(with) && DeleteRule(with, builtin, r) == Some(without)
            && !Holds(without, builtin, r) && Holds(with, builtin, r)
  {
    var r := Hook(chain);
    var without, with := map[builtin := [], chain := rules], map[builtin := [r], chain := rules];
    assert [r] + [] == [r] && without[builtin := [r]] == with;
    assert RemoveFirst([r], r) == [r][1..] == [] && with[builtin := []] == without;
  }

  // The daemon hooks its complete chain after the cleanup has looked for a hook,
  // and the cleanup then flushes it.
  lemma HookThenFlush(c: ExitConfig, nets: seq<string>)
    requires FilterChain(c) != FORWARD
    ensures var t := Daemon(nets, Honest, Works);
            Open(c, Play(c, Bare(), Times(t, 8) + Times(CLEAN, 4) + Times(t, 2) + Times(CLEAN, 1)))
  {
    hide ExitFilter, ExitNat, FilterChain, NatChain, Play, Times, Open, InsertRule, Holds, ApplyNat, CleanNat;
    var t := Daemon(nets, Honest, Works);
    UpToHook(c, nets);
    UpToFlush(c, nets);
    PlayConcat(c, Bare(), Times(t, 8), Times(CLEAN, 4));
    PlayConcat(c, Bare(), Times(t, 8) + Times(CLEAN, 4), Times(t, 2));
    PlayConcat(c, Bare(), Times(t, 8) + Times(CLEAN, 4) + Times(t, 2), Times(CLEAN, 1));
    var s := AtHook(c, nets).(clean := ChainFlush, log := [Restored, PassedHook]);
    OneCopy(FORWARD, FilterChain(c), ExitFilter(c, nets));
    PlayTimes(c, s, t, 0);
    PlayTimes(c, s, t, 1);
    assert Play(c, s, Times(t, 1)) == s.(apply := HookInsert);
    var hooked := s.(filterTable := map[FORWARD := [Hook(FilterChain(c))], FilterChain(c) := ExitFilter(c, nets)],
                     apply := NatHookProbe, log := [Restored, PassedHook, Inserted]);
    assert Play(c, s, Times(t, 2)) == hooked;
    PlayTimes(c, hooked, CLEAN, 0);
    var u := Play(c, hooked, Times(CLEAN, 1));
    assert hooked.filterTable[FilterChain(c) := []] == map[FORWARD := [Hook(FilterChain(c))], FilterChain(c) := []];
    HookedEmpty(c, u);
  }

  // ---- one run of each, alone ----

  // A machine an earlier version was installed on.
  function Upgraded(c: ExitConfig): System {
    Bare().(natTable := map[POSTROUTING := [Legacy(c)]])
  }

  lemma UpgradedToLegacy(c: ExitConfig, nets: seq<string>)
    requires FilterChain(c) != FORWARD
    ensures Play(c, Upgraded(c), Times(Daemon(nets, Honest, Works), 5)) ==
            AtRestore(c, nets).(natTable := map[POSTROUTING := [Legacy(c)], NatChain(c) := []], apply := LegacyProbe)
  {
    hide FilterChain, NatChain, Legacy, Play, Times;
    NatChainName(c);
    var t, s0 := Daemon(nets, Honest, Works), Upgraded(c);
    var s := s0.(nets := nets, given := {nets});
    assert {} + {nets} == {nets};
    PlayTimes(c, s0, t, 0);
    assert Play(c, s0, Times(t, 1)) == s.(apply := FilterProbe);
    PlayTimes(c, s0, t, 1);
    assert Play(c, s0, Times(t, 2)) == s.(apply := FilterCreate);
    PlayTimes(c, s0, t, 2);
    var created := s.(filterTable := AtRestore(c, nets).filterTable);
    assert s.filterTable[FilterChain(c) := []] == created.filterTable;
    assert Play(c, s0, Times(t, 3)) == created.(apply := NatProbe);
    PlayTimes(c, s0, t, 3);
    assert Play(c, s0, Times(t, 4)) == created.(apply := NatCreate);
    PlayTimes(c, s0, t, 4);
    assert s.natTable[NatChain(c) := []] == map[POSTROUTING := [Legacy(c)], NatChain(c) := []];
  }

  lemma UpgradedToRestore(c: ExitConfig, nets: seq<string>)
    requires FilterChain(c) != FORWARD
    ensures Play(c, Upgraded(c), Times(Daemon(nets, Honest, Works), 7)) == AtRestore(c, nets)
  {
    hide FilterChain, NatChain, Legacy, Play, Times, Upgraded;
    NatChainName(c);
    var t, s0 := Daemon(nets, Honest, Works), Upgraded(c);
    UpgradedToLegacy(c, nets);
    var s := AtRestore(c, nets).(natTable := map[POSTROUTING := [Legacy(c)], NatChain(c) := []]);
    PlayTimes(c, s0, t, 5);
    assert Play(c, s0, Times(t, 6)) == s.(apply := LegacyDelete);
    PlayTimes(c, s0, t, 6);
    assert RemoveFirst([Legacy(c)], Legacy(c)) == [Legacy(c)][1..] == [];
    assert s.natTable[POSTROUTING := []] == AtRestore(c, nets).natTable;
  }

  function Installed(c: ExitConfig, nets: seq<string>): System {
    System(map[FORWARD := [Hook(FilterChain(c))], FilterChain(c) := ExitFilter(c, nets)],
           map[POSTROUTING := [Hook(NatChain(c))], NatChain(c) := ExitNat(c, nets)],
           nets, {nets}, Idle, Resting, [Restored, Inserted])
  }

  function FilterHooked(c: ExitConfig, nets: seq<string>): System {
    Installed(c, nets).(natTable := AtHook(c, nets).natTable, apply := NatHookProbe)
  }

  lemma HookToFilterHooked(c: ExitConfig, nets: seq<string>)
    requires FilterChain(c) != FORWARD
    ensures Play(c, AtHook(c, nets), Times(Daemon(nets, Honest, Works), 2)) == FilterHooked(c, nets)
  {
    hide ExitFilter, ExitNat, FilterChain, NatChain, Play, Times, InsertRule, Holds, ApplyNat;
    var t, h := Daemon(nets, Honest, Works), AtHook(c, nets);
    OneCopy(FORWARD, FilterChain(c), ExitFilter(c, nets));
    PlayTimes(c, h, t, 0);
    assert Play(c, h, Times(t, 1)) == h.(apply := HookInsert);
    PlayTimes(c, h, t, 1);
    assert [Restored] + [Inserted] == [Restored, Inserted];
  }

  lemma FilterHookedToInstalled(c: ExitConfig, nets: seq<string>)
    ensures Play(c, FilterHooked(c, nets), Times(Daemon(nets, Honest, Works), 2)) == Installed(c, nets)
  {
    hide ExitFilter, ExitNat, FilterChain, NatChain, Play, Times, InsertRule, Holds, ApplyFilter;
    NatChainName(c);
    var t, h := Daemon(nets, Honest, Works), FilterHooked(c, nets);
    OneCopy(POSTROUTING, NatChain(c), ExitNat(c, nets));
    PlayTimes(c, h, t, 0);
    assert Play(c, h, Times(t, 1)) == h.(apply := NatHookInsert);
    PlayTimes(c, h, t, 1);
  }

  lemma HookToInstalled(c: ExitConfig, nets: seq<string>)
    requires FilterChain(c) != FORWARD
    ensures Play(c, AtHook(c, nets), Times(Daemon(nets, Honest, Works), 4)) == Installed(c, nets)
  {
    hide FilterChain, Play, Times, Take, AtHook, FilterHooked, Installed;
    var t := Daemon(nets, Honest, Works);
    HookToFilterHooked(c, nets);
    FilterHookedToInstalled(c, nets);
    TimesPlus(t, 2, 2);
    PlayConcat(c, AtHook(c, nets), Times(t, 2), Times(t, 2));
  }

  function FilterUnhooked(c: ExitConfig, nets: seq<string>): System {
    Installed(c, nets).(filterTable := AtHook(c, nets).filterTable, clean := NatUnhookProbe,
                        log := [Restored, Inserted, PassedHook])
  }

  lemma InstalledToFilterUnhooked(c: ExitConfig, nets: seq<string>)
    requires FilterChain(c) != FORWARD
    ensures Play(c, Installed(c, nets), Times(CLEAN, 3)) == FilterUnhooked(c, nets)
  {
    hide ExitFilter, ExitNat, FilterChain, NatChain, Play, Times, DeleteRule, Holds, CleanNat;
    var s := Installed(c, nets);
    OneCopy(FORWARD, FilterChain(c), ExitFilter(c, nets));
    PlayTimes(c, s, CLEAN, 0);
    assert Play(c, s, Times(CLEAN, 1)) == s.(clean := UnhookProbe);
    PlayTimes(c, s, CLEAN, 1);
    assert Play(c, s, Times(CLEAN, 2)) == s.(clean := UnhookDelete);
    PlayTimes(c, s, CLEAN, 2);
    assert [Restored, Inserted] + [PassedHook] == [Restored, Inserted, PassedHook];
  }

  function Unhooked(c: ExitConfig, nets: seq<string>): System {
    AtHook(c, nets).(apply := Idle, clean := ChainProbe, log := [Restored, Inserted, PassedHook])
  }

  lemma FilterUnhookedToUnhooked(c: ExitConfig, nets: seq<string>)
    ensures Play(c, FilterUnhooked(c, nets), Times(CLEAN, 2)) == Unhooked(c, nets)
  {
    hide ExitFilter, ExitNat, FilterChain, NatChain, Play, Times, DeleteRule, Holds, CleanFilter;
    NatChainName(c);
    var s := FilterUnhooked(c, nets);
    OneCopy(POSTROUTING, NatChain(c), ExitNat(c, nets));
    PlayTimes(c, s, CLEAN, 0);
    assert Play(c, s, Times(CLEAN, 1)) == s.(clean := NatUnhookDelete);
    PlayTimes(c, s, CLEAN, 1);
  }

  // The operator about to look for the chains, with both hooks deleted.
  lemma InstalledToUnhooked(c: ExitConfig, nets: seq<string>)
    requires FilterChain(c) != FORWARD
    ensures Play(c, Installed(c, nets), Times(CLEAN, 5)) == Unhooked(c, nets)
  {
    hide FilterChain, Play, Times, Take, Unhooked, FilterUnhooked, Installed;
    InstalledToFilterUnhooked(c, nets);
    FilterUnhookedToUnhooked(c, nets);
    TimesPlus(CLEAN, 3, 2);
    PlayConcat(c, Installed(c, nets), Times(CLEAN, 3), Times(CLEAN, 2));
  }

  lemma NoReference(builtin: string, chain: string)
    ensures !Referenced(map[builtin := [], chain := []], chain)
  {
  }

  // Flushing and removing a chain nothing refers to.
  lemma ChainGone(builtin: string, chain: string, rules: seq<Rule>)
    requires builtin != chain
    ensures var flushed := map[builtin := [], chain := []];
            && FlushChain(map[builtin := [], chain := rules], chain) == Some(flushed)
            && RemoveChain(flushed, chain) == Some(map[builtin := []])
  {
    hide Referenced;
    NoReference(builtin, chain);
    var flushed := map[builtin := [], chain := []];
    assert map[builtin := [], chain := rules][chain := []] == flushed;
    assert flushed - {chain} == map[builtin := []];
  }

  lemma UnhookedToFilterGone(c: ExitConfig, nets: seq<string>)
    requires FilterChain(c) != FORWARD
    ensures Play(c, Unhooked(c, nets), Times(CLEAN, 3)) ==
            Unhooked(c, nets).(filterTable := map[FORWARD := []], clean := NatChainProbe, log := [Restored, Inserted, PassedHook, Flushed])
  {
    hide ExitFilter, ExitNat, FilterChain, NatChain, Play, Times, FlushChain, RemoveChain, CleanNat;
    var s := Unhooked(c, nets);
    ChainGone(FORWARD, FilterChain(c), ExitFilter(c, nets));
    PlayTimes(c, s, CLEAN, 0);
    assert Play(c, s, Times(CLEAN, 1)) == s.(clean := ChainFlush);
    PlayTimes(c, s, CLEAN, 1);
    var flushed := map[FORWARD := [], FilterChain(c) := []];
    assert s.log + [Flushed] == [Restored, Inserted, PassedHook, Flushed];
    assert Play(c, s, Times(CLEAN, 2)) == s.(filterTable := flushed, clean := ChainRemove, log := [Restored, Inserted, PassedHook, Flushed]);
    PlayTimes(c, s, CLEAN, 2);
  }

  lemma FilterGoneToClean(c: ExitConfig, nets: seq<string>, s: System)
    requires s.clean.NatChainProbe? && s.natTable == map[POSTROUTING := [], NatChain(c) := ExitNat(c, nets)]
    ensures Play(c, s, Times(CLEAN, 3)) == s.(natTable := map[POSTROUTING := []], clean := Resting)
  {
    hide ExitNat, NatChain, Play, Times, FlushChain, RemoveChain, CleanFilter;
    NatChainName(c);
    ChainGone(POSTROUTING, NatChain(c), ExitNat(c, nets));
    PlayTimes(c, s, CLEAN, 0);
    assert Play(c, s, Times(CLEAN, 1)) == s.(clean := NatChainFlush);
    PlayTimes(c, s, CLEAN, 1);
    var flushed := map[POSTROUTING := [], NatChain(c) := []];
    assert Play(c, s, Times(CLEAN, 2)) == s.(natTable := flushed, clean := NatChainRemove);
    PlayTimes(c, s, CLEAN, 2);
  }

  // Where nothing fails, the daemon alone replaces the legacy rule by its two
  // hooked chains, and a cleanup after it leaves a bare machine.
  lemma ThereAndBack(c: ExitConfig, nets: seq<string>)
    requires FilterChain(c) != FORWARD
    ensures var t := Daemon(nets, Honest, Works);
            var there := Play(c, Upgraded(c), Times(t, 13));
            var back := Play(c, Upgraded(c), Times(t, 13) + Times(CLEAN, 11));
            && there == Installed(c, nets)
            && back.filterTable == Bare().filterTable && back.natTable == Bare().natTable
            && back.apply.Idle? && back.clean.Resting?
  {
    hide Play, Times, Take, FilterChain, NatChain, ExitFilter, ExitNat;
    var t, s := Daemon(nets, Honest, Works), Upgraded(c);
    UpgradedToRestore(c, nets);
    RestoreToHook(c, nets);
    HookToInstalled(c, nets);
    TimesPlus(t, 7, 2);
    TimesPlus(t, 9, 4);
    PlayConcat(c, s, Times(t, 7), Times(t, 2));
    PlayConcat(c, s, Times(t, 9), Times(t, 4));
    InstalledToUnhooked(c, nets);
    UnhookedToFilterGone(c, nets);
    TimesPlus(CLEAN, 5, 3);
    TimesPlus(CLEAN, 8, 3);
    PlayConcat(c, Installed(c, nets), Times(CLEAN, 5), Times(CLEAN, 3));
    PlayConcat(c, Installed(c, nets), Times(CLEAN, 8), Times(CLEAN, 3));
    FilterGoneToClean(c, nets, Play(c, Installed(c, nets), Times(CLEAN, 8)));
    PlayConcat(c, s, Times(t, 13), Times(CLEAN, 11));
  }
}
