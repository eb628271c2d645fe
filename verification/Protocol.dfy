// One agent and one controller: every run with lost messages, failing drivers
// and saves, crashes between any two saves, and restarts of either side.
module Protocol {
  import opened Strings
  import opened Networks
  import opened NetworkSets
  import opened Node
  import opened NodeInvariant
  import opened Retry
  import opened Dns

  // The memory of a machine that is down means nothing.
  datatype Machine = Machine(up: bool, local: Local)

  datatype Setup = Setup(agent: Config, ctrl: Config, proxy: ProxyConfig)

  // An upstream answer and the names inspect trusted when it read it.
  datatype Response = Response(message: Message, trusted: set<string>)

  // inbox holds the answers inspected and not yet served; served the answers
  // written to clients since the agent started, everServed all of them. fetched
  // tells whether some sync has adopted the controller's list, startedFetched
  // whether the running agent process was started after that.
  datatype World = World(
    agent: Machine, ctrl: Machine,
    aliases: set<string>, inbox: seq<Response>,
    served: seq<Response>, everServed: seq<Response>, fetched: bool, startedFetched: bool)

  // What happens to one node on its own. Post is a report from some agent; the
  // operation of CrashDuring ends after its kth save.
  datatype NodeEvent =
    | Boot
    | Crash
    | Do(op: Op, env: Env)
    | Post(payload: seq<string>, env: Env)
    | CrashDuring(op: Op, env: Env, k: nat)

  // What happens around the report an operation sends: controller events
  // before and after it, whether it arrives, and whether its answer does.
  datatype Rpc = Rpc(before: seq<NodeEvent>, delivered: bool, env: Env, lost: bool, after: seq<NodeEvent>)

  // A fetch: controller events before it is served, and whether it succeeds.
  datatype Fetch = Fetch(before: seq<NodeEvent>, reached: bool)

  datatype Event =
    | AtController(event: NodeEvent)
    | AgentBoot
    | AgentCrash
    | AgentReconcile(env: Env, rpc: Rpc)
    | AgentSync(fetch: Fetch, env: Env, rpc: Rpc)
    | AgentSyncCrash(fetch: Fetch, env: Env, k: nat)
    | Inspect(message: Message)
    | Serve(i: nat, env: Env, rpc: Rpc)
    | ServeCrash(i: nat, env: Env, k: nat)

  // ---- one machine ----

  ghost function BootMachine(c: Config, m: Machine): Machine {
    if m.up then m
    else match Recover(c, m.local.disk)
      case None => m
      case Some((desired, learned)) => Machine(true, m.local.(memory := BLANK.(desired := desired, learned := learned)))
  }

  function Stop(m: Machine): Machine {
    Machine(false, m.local.(memory := BLANK))
  }

  ghost function StopDuring(c: Config, m: Machine, op: Op, env: Env, k: nat): Machine {
    if m.up && k < |DisksDuring(c, m.local, op, env)|
    then Stop(m.(local := m.local.(disk := DisksDuring(c, m.local, op, env)[k])))
    else m
  }

  ghost function NodeStep(c: Config, m: Machine, event: NodeEvent): Machine {
    match event
    case Boot => BootMachine(c, m)
    case Crash => Stop(m)
    case Do(op, env) => if m.up then Machine(true, Perform(c, m.local, op, env).local) else m
    case Post(payload, env) => if m.up then Machine(true, HandlePost(c, m.local, payload, env).local) else m
    case CrashDuring(op, env, k) => StopDuring(c, m, op, env, k)
  }

  ghost function NodeRun(c: Config, m: Machine, events: seq<NodeEvent>): Machine
    decreases events
  {
    if events == [] then m else NodeRun(c, NodeStep(c, m, events[0]), events[1..])
  }

  // ---- an agent's operation with its report ----

  datatype Exchange = Exchange(agent: Local, ctrl: Machine, ok: bool)

  ghost function Converse(s: Setup, agent: Local, ctrl: Machine, op: Op, env: Env, rpc: Rpc): Exchange {
    var sent := Sends(s.agent, agent, op, env);
    var there := NodeRun(s.ctrl, ctrl, rpc.before);
    var handled := if sent.Some? && rpc.delivered && there.up
                   then HandlePost(s.ctrl, there.local, sent.value, rpc.env)
                   else Outcome(there.local, false);
    var done := Perform(s.agent, agent, op, env.(ack := handled.ok && !rpc.lost));
    Exchange(done.local, NodeRun(s.ctrl, there.(local := handled.local), rpc.after), done.ok)
  }

  function Reply(fetch: Fetch, ctrl: Machine): Option<seq<string>> {
    if fetch.reached && ctrl.up then Some(ctrl.local.memory.desired) else None
  }

  ghost predicate Adopts(s: Setup, agent: Local, op: Op, env: Env) {
    var staged := Persist(s.agent, agent.memory, agent.disk, op, env);
    op.Sync? && staged.proceed && staged.complete
  }

  function Drop<T>(q: seq<T>, i: nat): seq<T>
    requires i < |q|
  {
    q[..i] + q[i + 1..]
  }

  // ServeDNS from inspect on: nothing to learn is written at once.
  ghost function ServeStep(s: Setup, w: World, i: nat, env: Env, rpc: Rpc): World
    requires i < |w.inbox| && w.agent.up
  {
    var answer := w.inbox[i];
    var networks := Extracted(answer.message, answer.trusted);
    var rest := w.(inbox := Drop(w.inbox, i));
    if networks == [] then rest.(served := w.served + [answer], everServed := w.everServed + [answer])
    else
      var e := Converse(s, w.agent.local, w.ctrl, Learn(networks), env, rpc);
      var learned := rest.(agent := Machine(true, e.agent), ctrl := e.ctrl);
      if e.ok then learned.(served := w.served + [answer], everServed := w.everServed + [answer]) else learned
  }

  function Down(w: World, agent: Machine): World {
    w.(agent := agent, aliases := {}, inbox := [], served := [], startedFetched := false)
  }

  ghost function BootAgent(s: Setup, w: World): World {
    var m := BootMachine(s.agent, w.agent);
    w.(agent := m, startedFetched := if w.agent.up then w.startedFetched else m.up && w.fetched)
  }

  ghost function Next(s: Setup, w: World, event: Event): World {
    match event
    case AtController(e) => w.(ctrl := NodeStep(s.ctrl, w.ctrl, e))
    case AgentBoot => BootAgent(s, w)
    case AgentCrash => Down(w, Stop(w.agent))
    case AgentReconcile(env, rpc) =>
      if !w.agent.up then w
      else
        var e := Converse(s, w.agent.local, w.ctrl, Reconcile, env, rpc);
        w.(agent := Machine(true, e.agent), ctrl := e.ctrl)
    case AgentSync(fetch, env, rpc) =>
      if !w.agent.up then w
      else
        var there := NodeRun(s.ctrl, w.ctrl, fetch.before);
        var op := Sync(Reply(fetch, there));
        var e := Converse(s, w.agent.local, there, op, env, rpc);
        w.(agent := Machine(true, e.agent), ctrl := e.ctrl, fetched := w.fetched || Adopts(s, w.agent.local, op, env))
    case AgentSyncCrash(fetch, env, k) =>
      if !w.agent.up then w
      else
        var there := NodeRun(s.ctrl, w.ctrl, fetch.before);
        Down(w, Stop(StopDuring(s.agent, w.agent, Sync(Reply(fetch, there)), env, k))).(ctrl := there)
    case Inspect(message) =>
      if !w.agent.up then w
      else w.(aliases := AliasesAfter(s.proxy, w.aliases, message),
              inbox := w.inbox + [Response(message, Trusted(s.proxy, w.aliases, message))])
    case Serve(i, env, rpc) => if w.agent.up && i < |w.inbox| then ServeStep(s, w, i, env, rpc) else w
    case ServeCrash(i, env, k) =>
      if !(w.agent.up && i < |w.inbox|) then w
      else
        var networks := Extracted(w.inbox[i].message, w.inbox[i].trusted);
        Down(w, Stop(StopDuring(s.agent, w.agent, Learn(networks), env, k)))
  }

  ghost function Run(s: Setup, w: World, events: seq<Event>): World {
    if events == [] then w else Next(s, Run(s, w, events[..|events| - 1]), events[|events| - 1])
  }

  // Both machines down, with any files, and kernels the daemon has not touched.
  ghost predicate Initial(s: Setup, w: World) {
    && s.agent.role.Agent? && s.ctrl.role.Controller?
    && !w.agent.up && w.agent.local.offered == {} == w.agent.local.passed && w.agent.local.clock >= 0
    && !w.ctrl.up && w.ctrl.local.offered == {} == w.ctrl.local.passed && w.ctrl.local.clock >= 0
    && w.aliases == {} && w.inbox == [] && w.served == [] && w.everServed == [] && !w.fetched && !w.startedFetched
  }

  // ---- the invariant ----

  // What a machine desires, or would desire if it started now.
  ghost function Known(c: Config, m: Machine): set<string> {
    if m.up then Elems(m.local.memory.desired) else Durable(c, m.local.disk)
  }

  ghost predicate CtrlGood(c: Config, m: Machine) {
    && c.role.Controller? && m.local.clock >= 0
    && m.local.passed <= m.local.offered <= Known(c, m)
    && (m.up ==> Good(c, m.local) && AppliedWithin(m.local.memory) && Remembers(c, m.local))
  }

  // What controller steps never lose.
  ghost predicate CtrlGrows(c: Config, m: Machine, n: Machine) {
    Known(c, m) <= Known(c, n) && m.local.passed <= n.local.passed
  }

  // The controller keeps these networks and has completed a pass with them.
  ghost predicate Installed(c: Config, m: Machine, networks: set<string>) {
    networks <= Known(c, m) && networks <= m.local.passed
  }

  ghost function Released(a: Response): set<string> {
    Elems(Extracted(a.message, a.trusted))
  }

  // The agent's own learned hosts, as memory or else the disk has them.
  ghost function OwnLearned(m: Machine): set<string> {
    if m.up then Elems(m.local.memory.learned) else LearnedSet(m.local.disk)
  }

  ghost predicate AgentGood(s: Setup, w: World) {
    && s.agent.role.Agent? && w.agent.local.clock >= 0 && w.agent.local.passed <= w.agent.local.offered
    && (w.agent.up ==> Good(s.agent, w.agent.local) && Installed(s.ctrl, w.ctrl, Elems(w.agent.local.memory.lastReported)))
    && (!w.agent.up ==> w.served == [])
    && (w.startedFetched ==>
          w.fetched && w.agent.up && AppliedWithin(w.agent.local.memory) && Remembers(s.agent, w.agent.local))
    && (w.fetched ==> Known(s.agent, w.agent) <= Known(s.ctrl, w.ctrl) + OwnLearned(w.agent) + CanonSet(s.agent.seeds))
  }

  ghost predicate ResponseGood(s: Setup, w: World, a: Response) {
    Installed(s.ctrl, w.ctrl, Released(a))
  }

  ghost predicate ServedGood(s: Setup, w: World) {
    && (forall a | a in w.everServed :: ResponseGood(s, w, a))
    && (forall a | a in w.served :: Released(a) <= Elems(w.agent.local.memory.applied) && Released(a) <= Elems(w.agent.local.memory.learned))
  }

  ghost predicate WorldGood(s: Setup, w: World) {
    CtrlGood(s.ctrl, w.ctrl) && AgentGood(s, w) && ServedGood(s, w)
  }

  // What no event ever takes back.
  ghost predicate WorldGrows(s: Setup, w: World, v: World) {
    && CtrlGrows(s.ctrl, w.ctrl, v.ctrl)
    && OwnLearned(w.agent) <= OwnLearned(v.agent)
    && (w.fetched ==> v.fetched && Known(s.agent, w.agent) <= Known(s.agent, v.agent))
    && (forall a | a in w.everServed :: a in v.everServed)
  }
}
