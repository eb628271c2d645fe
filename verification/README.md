# netflix-pbrd, modelled and verified

netflix-pbrd learns IPv4 addresses from DNS answers and withholds each answer
until routing and firewall state has been applied locally and acknowledged by a
controller. This project models that logic in Dafny and proves what it keeps:
for one node over every run of its operations, for an agent and a controller
over every run of the two, and for the packet filters, marks, routes and rules
the drivers compile.

`dafny verify dfyconfig.toml` checks everything.

## How the model is built

* `Strings`, `Networks`, `NetworkSets` are `networks.go`: addresses are four
  octets, networks are the text the program itself compares, sorts and saves,
  and masks are bit operations. `AddressSpace` says the same in texts and address
  bits: which texts parse, which addresses a block holds, which are public.
* `Node` gives each operation of `runtime.go` as a function of the state before
  and of what the environment answers; `Runtime` is the daemon's object, whose
  methods do the same field by field and save by save and are proved equal to
  those functions. `NodeInvariant`, `Recovery`, `Retry` and `Findings` are about
  one node, `CrashRuns` about its runs with crashes and starts.
* `Protocol` lets an agent and a controller run together. Reports and fetches can
  be lost on the way there or back; controller events can happen between any
  two messages; drivers and saves can fail; either side can crash between any two
  saves and start again from its files. `ProtocolSafety`, `Progress` and
  `Provenance` hold for every such run.
* `Dns`, `Inspection`, `Serving` and `ClientSubnet` are `dns_proxy.go`. `Dns` follows
  inspect step by step; `Inspection` says what it trusts and returns in terms of the
  message as it arrives, `Serving` which answers are written.
* `Commands`, `Packets` and `Tables` are a small kernel: first-match chains, hooks,
  and commands it may refuse. `LinuxExit`, `NftExit`, `Edge`, `IpRules`,
  `WgRoute` and `OpenWrt` are the drivers of `drivers.go` and their part of
  `Cleanup` in `operations.go`, one command at a time. A command can work, be
  refused, or take effect and be reported as failed. `Interleaving` runs
  `applyExit` and `cleanupLinuxExit` at the same time, command by command.
* `EndToEnd` joins the protocol and the drivers.

Some environment facts are hypotheses. The probes for iptables hooks
(`iptables -C`) answer truthfully in `applyExit` and `applyEdge`; in the cleanup
they may also fail, as long as the error does not read as missing. A save either
replaces the file or leaves it. Each node's configuration stays the same.

## Where the code does less than its documentation says

The model follows the code. Each of these is a lemma, with the exact condition
or a concrete run or both.

* README.md:164-165 says failed applies are retried. A controller never forgets
  one (`ProtocolSafety.NoForgottenFailure`). An agent can: its sync replaces the
  desired list, and once that is again the list last recorded as applied, nothing
  is left to show the failed pass (`Retry.ForgetsExactly`,
  `Findings.AgentForgets`). An answer is then released although a driver lacks
  its address (`Findings.ForgottenRelease`). The periodic reapply repairs it
  (`Retry.DueRepairs`), and an agent process started after the first adopted fetch
  never forgets (`ProtocolSafety.AgentNoForgottenFailure`).
* README.md:160-161 calls state monotonic. What an agent has learned never
  shrinks; its desired list may, until its first fetch has been adopted
  (`ProtocolSafety.NeverShrinks`, `NodeInvariant.SyncReplaces`).
* An empty list is saved as one newline, which reads back as one empty line and is
  rejected: the daemon does not start again (`NetworkSets.SavedValidates`). Only
  an agent's sync ever saves one (`Recovery.SavesEmptyExactly`).
* A failed save of the state file after a successful save of the learned file
  can leave two valid files whose union is over the limit, and then the daemon
  does not start (`Findings.LearnedAheadBlocksRestart`, `Recovery.RecoverExactly`).
* The agent's "learned -> applied" count can pass with nothing learned applied
  (`Findings.AgentCountMisleads`). It is right whenever the list applied is the
  list desired (`Retry.AgentAppliedCountDecides`).
* A hook probe that fails duplicates the hook (`Tables.HookedOnceExactly`), and
  cleanup then opens the filter (`LinuxExit.CleanupOpensExactly`).
* `cleanup` beside a running daemon can open the filter with every probe truthful
  and every command working (`Interleaving.FlushThenHook`,
  `Interleaving.HookThenFlush`); `Interleaving.UnsafeExactly` says for every
  schedule whether it does. Runs that do not overlap never do.
* Mark bits outside the mask flip with every matching network
  (`Edge.OutsideKeptExactly`).
* `route replace` never deletes and Cleanup reads only the state file, which is
  not written for seeds alone (`EndToEnd.SeedsNeverSaved`, `EndToEnd.SeedsStay`,
  `WgRoute.WgDriver.CleanupWGRoute`).
* Cleanup of a linux-edge driver sets the peer's allowed-ips, which the comment in
  `applyEdge` says this driver must not do (`Edge.EdgeDriver.CleanupEdge`).
* UCI settings are read as staged, so a periodic check whose commit failed leaves
  them looking in place to the next one (`OpenWrt.StagedLooksInPlace`); and the error of the
  list's deletion is ignored (`OpenWrt.WrittenDenotes`).

## Model

| member | source | states |
|---|---|---|
| Strings.SpacesAre | internal/pbr/networks.go:20 | white space is the twenty-five characters of Unicode's White_Space property |
| Strings.TrimExactly | internal/pbr/networks.go:20 | trimming takes away the outer white space and nothing else |
| Strings.SplitExactly | internal/pbr/dns_proxy.go:243 | splitting at a character gives the one list of parts without it that joins to the text |
| Strings.LessExactly | internal/pbr/networks.go:80 | one text is before another if and only if it is a proper prefix of it or smaller at the first character they differ in |
| Networks.RenderRoundTrip | internal/pbr/networks.go:31-39 | the text of a network parses back to its address and prefix length, and holds no white space |
| Networks.BlockBounds | internal/pbr/networks.go:42-49 | the masked address and lastIPv4 are the least and the greatest address of the block in every octet |
| Networks.FillLastIPv4 | internal/pbr/networks.go:42-49 | the loop fills a fresh buffer with exactly the last address |
| Networks.AcceptedIffAllPublic | internal/pbr/networks.go:31-39 | a CIDR of at least 24 bits is accepted if and only if every address of its block is public, though the code looks at two |
| Networks.CanonicalIdempotent | internal/pbr/networks.go:19-40 | whatever CanonicalNetwork returns is its own canonical form |
| Networks.CanonicalIsFaithful | internal/pbr/networks.go:19-40 | two canonical texts are equal if and only if they cover the same addresses |
| Networks.NestedOrDisjoint | internal/pbr/networks.go:31-39 | any two networks are nested or disjoint |
| Networks.BareIsHost | internal/pbr/networks.go:24-30 | an accepted text without a slash becomes a /32 |
| Networks.HostIsCanonical | internal/pbr/networks.go:24-30 | every public address has a canonical /32 text |
| Networks.CanonicalText | internal/pbr/networks.go:19-40 | canonical text is not empty and survives splitting into lines or fields |
| Networks.AcceptedIsGlobal | internal/pbr/networks.go:51-65 | no accepted network meets a block of section 2.2.2 of RFC 6890 that is not globally reachable |
| AddressSpace.ParseIPExactly | internal/pbr/networks.go:25-29 | a text reads as an address exactly when it is the four octets in decimal without leading zeros, joined by dots |
| AddressSpace.BlockExactly | internal/pbr/networks.go:31-49 | a block holds exactly the addresses that agree with its own in the leading bits the prefix counts |
| AddressSpace.PublicExactly | internal/pbr/networks.go:51-65 | an address is public if and only if it lies in none of twelve blocks, given by base and mask |
| AddressSpace.AcceptedExactly | internal/pbr/networks.go:19-40 | up to outer white space, accepted are exactly the address texts outside all those blocks and the blocks of 24 or more bits that meet none of them |
| AddressSpace.CanonicalCovers | internal/pbr/networks.go:31-39 | the canonical form of an accepted block covers exactly the addresses of the block as written |
| AddressSpace.AddressCovers | internal/pbr/networks.go:25-30 | the canonical form of an accepted address covers that address alone |
| AddressSpace.HostExactly | internal/pbr/networks.go:94-97 | a canonical text passes the host test if and only if it covers a single address |
| NetworkSets.SortedSlice | internal/pbr/networks.go:76-81 | whatever order a set is walked in, inserting and sorting gives its one strictly increasing list |
| NetworkSets.Merge | internal/pbr/networks.go:67-82 | the nested loops compute the sorted list of the canonical forms of all groups |
| NetworkSets.MergedMeaning | internal/pbr/networks.go:67-82 | the result is strictly sorted and canonical and holds exactly the canonical forms of the members that have one |
| NetworkSets.MergeAssociative | internal/pbr/networks.go:67-82 | on canonical lists merging is associative |
| NetworkSets.MergeIsJoin | internal/pbr/networks.go:67-82 | on canonical lists merging commutes, and absorbs a list if and only if it is a subset |
| NetworkSets.ValidateNetworks | internal/pbr/networks.go:84-108 | despite leaving the loop early it fails exactly when a member is not acceptable or the whole set exceeds the limit, and otherwise returns the sorted set |
| NetworkSets.ValidatedList | internal/pbr/networks.go:84-108 | a result is canonical, sorted, within the limit, has the members' canonical forms, and is all hosts when hosts are demanded |
| NetworkSets.ValidatedExactly | internal/pbr/networks.go:84-108 | a list validates if and only if every member has a canonical form, a host where hosts are demanded, and there are no more distinct ones than the limit, 4096 where none is set |
| NetworkSets.ValidatedMerge | internal/pbr/networks.go:84-108 | validating a merge with a positive limit returns that merge if and only if it is no longer than the limit |
| NetworkSets.ValidatedSelf | internal/pbr/networks.go:84-108 | a canonical list validates to itself up to the limit |
| NetworkSets.Equal | internal/pbr/networks.go:138-148 | the scan decides equality of lists |
| NetworkSets.EqualIsSetEquality | internal/pbr/networks.go:138-148 | on canonical lists equality is set equality, and between a subset and its superset so is comparing lengths |
| NetworkSets.LinesRead | internal/pbr/networks.go:110-124 | from any file LoadState reads its lines, ended or not, each without a carriage return at its end |
| NetworkSets.ReadBack | internal/pbr/networks.go:110-136 | LoadState undoes SaveState on every canonical list except the empty one, which reads back as one empty line |
| NetworkSets.SavedValidates | internal/pbr/networks.go:110-136 | a saved list within the limit validates to itself at the next start if and only if it is not empty |
| Node.RunDrivers | internal/pbr/runtime.go:235-243 | a pass touches the drivers in order, stops at the first failure, and succeeds only if every driver got exactly the list |
| NodeInvariant.PassExactly | internal/pbr/runtime.go:235-243 | a pass succeeds if and only if every driver does; otherwise the drivers before the first failure got the list, that one failed on it, and those after it were not called |
| RuntimeModel.NewRuntime | internal/pbr/runtime.go:49-88 | starting fails exactly where Recover has no lists, and otherwise begins with those lists and empty records |
| RuntimeModel.Runtime.LearnPlan | internal/pbr/runtime.go:173-188 | the merges and checks before learn's first save give the two lists of PlanLearn |
| RuntimeModel.Runtime.SaveBoth | internal/pbr/runtime.go:189-208 | the learned file is saved before the state file, each only if changed, and both lists are adopted only after both saves |
| RuntimeModel.Runtime.Learn | internal/pbr/runtime.go:164-210 | the method's result, memory, drivers, every intermediate disk and the payload it sends are those of Perform and Sends |
| RuntimeModel.Runtime.Fetch | internal/pbr/runtime.go:317-339 | the controller's networks, if they validate |
| RuntimeModel.Runtime.SyncPlan | internal/pbr/runtime.go:142-145 | the union of a fetch, what was learned and the seeds, if it validates |
| RuntimeModel.Runtime.SaveAndAdopt | internal/pbr/runtime.go:146-155 | a changed desired list is saved first and adopted only if the save works |
| RuntimeModel.Runtime.Sync | internal/pbr/runtime.go:123-162 | the method's result, memory, drivers, every intermediate disk and the payload it sends are those of Perform and Sends |
| RuntimeModel.Runtime.AcceptPlan | internal/pbr/runtime.go:379-389 | the union of a report and the desired list, if both validate |
| RuntimeModel.Runtime.AcceptReport | internal/pbr/runtime.go:376-400 | the method's result, memory, drivers and every intermediate disk are those of Perform |
| RuntimeModel.Runtime.HandlePost | internal/pbr/runtime.go:423-450 | 204 exactly when the report passes every check and acceptReport succeeds; a refused report changes nothing |
| NodeInvariant.HandlePostExactly | internal/pbr/runtime.go:423-450 | a report is applied exactly at a controller and up to the limit, 4096 where none is set; any other changes nothing |
| RuntimeModel.Runtime.CallDrivers | internal/pbr/runtime.go:235-243 | the loop over the drivers is RunDrivers |
| RuntimeModel.Runtime.ApplyDesired | internal/pbr/runtime.go:232-250 | the drivers are called exactly when the list changed or the reapply is due, and only a complete pass is recorded |
| RuntimeModel.Runtime.ReconcileLocked | internal/pbr/runtime.go:223-263 | applying comes before reporting, the payload sent is the one of SendsReport, and only an acknowledged report is recorded |
| RuntimeModel.Runtime.Report | internal/pbr/runtime.go:341-367 | what is sent is the hosts of the list, and success is the controller's acknowledgement |
| RuntimeModel.Runtime.ReportPayload | internal/pbr/runtime.go:341-347 | the payload is the hosts of the list, in order |
| NodeInvariant.RecoverMeaning | internal/pbr/runtime.go:58-77 | a start gives the union of both files and the seeds as desired and the learned file as learned, canonical and within the limit |
| NodeInvariant.BootGood | internal/pbr/runtime.go:58-87 | every start, from any files it accepts, establishes the invariant |
| NodeInvariant.PerformGood | internal/pbr/runtime.go:123-263 | every operation, failing anywhere, keeps the invariant: learned and seeds stay desired, all lists canonical and bounded, learned all hosts, the files cover what is desired; a success has applied and reported it |
| NodeInvariant.DisksFollow | internal/pbr/runtime.go:189-208 | every disk that a crash inside an operation leaves still covers what was learned, and where the list may not shrink what was desired |
| NodeInvariant.SyncReplaces | internal/pbr/runtime.go:135-156 | an agent's sync makes desired exactly the fetch, its own learned hosts and the seeds, or leaves it alone |
| NodeInvariant.ReportIsWhole | internal/pbr/runtime.go:341-347 | the host filter drops nothing from a learned list |
| NodeInvariant.ReportedIsSent | internal/pbr/runtime.go:252-260 | lastReported changes only to the learned list, and only when all of it was sent and acknowledged |
| NodeInvariant.SendsExactly | internal/pbr/runtime.go:252-260 | an operation sends a report exactly when it got past its drivers on an agent that has learned something other than what was acknowledged, and then sends all of it |
| NodeInvariant.StaleCheck | internal/pbr/runtime.go:438-448 | the handler's early check, against a desired list that may have grown since, refuses nothing acceptReport would take |
| Recovery.RecoverExactly | internal/pbr/runtime.go:58-77 | a node starts if and only if both files validate and their union with the seeds fits the limit |
| Recovery.SavesEmptyExactly | internal/pbr/runtime.go:142-150 | an operation saves an empty list if and only if it is an agent's sync of an empty fetch with nothing learned, no seeds and something desired |
| Recovery.CrashRecovery | internal/pbr/runtime.go:58-77 | after a crash anywhere inside any operation the files restart to the lists before it or after it, within the limit, unless an empty list was saved |
| Recovery.ExactKept | internal/pbr/runtime.go:146-208 | when its saves work, an operation leaves files that restart to exactly its memory if and only if it saves no empty list |
| CrashRuns.ExactRun | internal/pbr/runtime.go:58-77 | over every run of operations, crashes inside or between them and starts, if every save works or the node crashes and no empty list is saved, at every point a stopped node can start and a running one would be given back exactly its memory |
| CrashRuns.CrashThenStart | internal/pbr/runtime.go:58-77 | a crash after any save of an operation and the start after it give the lists before the operation or those after it |
| CrashRuns.ControllerNeverSavesEmpty | internal/pbr/runtime.go:132-134 | for a controller the exception never arises, in any such run |
| Recovery.CoveredRun | internal/pbr/runtime.go:189-208 | when saves fail and the daemon lives on, desired stays within state file, learned file and seeds |
| Retry.ForgetsExactly | internal/pbr/runtime.go:232-234 | a node stays aware of every unfinished pass if and only if no operation readopts the applied list, before the reapply is due, while a driver does not hold it |
| Retry.GrowingNeverForgets | internal/pbr/runtime.go:386-397 | an operation that leaves the desired list as large as it was, on a node that applied no more than it desires, never does that |
| Retry.SuccessIsInstalledExactly | internal/pbr/runtime.go:232-251 | a success means the last call of every driver succeeded with exactly the desired list, if and only if nothing was forgotten |
| Retry.DueRepairs | internal/pbr/runtime.go:233-243 | at or after appliedAt plus the reapply interval, whatever was forgotten, an operation that reaches the drivers installs exactly the desired list everywhere or leaves the reapply due, and one that succeeds has installed it |
| Retry.QuietAfterPass | internal/pbr/runtime.go:232-248 | a pass that had to run and completed is dated by its end, and no driver is called again before the interval has passed |
| Retry.SyncReachesDrivers | internal/pbr/runtime.go:137-158 | an agent's sync reaches its drivers if and only if the fetch failed or the union fits the limit and need not or can be saved |
| Retry.ControllerCountDecides | internal/pbr/operations.go:83-83 | the controller's count test passes if and only if desired is known to be applied |
| Retry.AgentCountDecides | internal/pbr/operations.go:84-86 | the agent's report count test passes if and only if everything learned was acknowledged |
| Retry.AgentAppliedCountExactly | internal/pbr/operations.go:83-83 | on an agent the other test passes if and only if no more of learned is unapplied than there is else applied |
| Retry.AgentAppliedCountDecides | internal/pbr/operations.go:83-83 | so it tells whether everything learned is applied if and only if that is so or what else is applied is too little to make up for it; and always when the list applied is the list desired |
| Findings.AgentForgets | internal/pbr/runtime.go:142-154 | for any two different lists there is a run after which the agent would leave its drivers alone although one holds only the other list |
| Findings.AgentForgetsConcretely | internal/pbr/runtime.go:142-154 | the same with two addresses, from a state file the daemon starts from |
| Findings.ForgottenRelease | internal/pbr/runtime.go:232-251 | after that run learning a missing address succeeds without calling a driver |
| Findings.AgentCountMisleads | internal/pbr/operations.go:83-83 | the agent's count test passes with nothing learned applied |
| Findings.LearnedAheadBlocksRestart | internal/pbr/runtime.go:192-199 | a failed second save and a later sync leave two valid files from which the daemon does not start |
| Dns.NetflixByLabels | internal/pbr/dns_proxy.go:233-250 | the suffix, substring and prefix tests on text are tests on whole labels |
| Dns.ClosureIsReach | internal/pbr/dns_proxy.go:200-218 | a name is in the closure if and only if a finite chain of CNAME records leads to it |
| Dns.ClosureIsClosed | internal/pbr/dns_proxy.go:200-218 | the closure follows every CNAME record |
| Dns.ClosureIsLeast | internal/pbr/dns_proxy.go:200-218 | it is within every set that holds the starting names and follows every record |
| Dns.ClosureByContents | internal/pbr/dns_proxy.go:200-218 | record order and repetition do not change it |
| Dns.Learner.StartNames | internal/pbr/dns_proxy.go:189-198 | the starting names are the old aliases and the accepted question names |
| Dns.Learner.OnePass | internal/pbr/dns_proxy.go:203-217 | a pass that reads the set it is growing stays within the closure, remembers exactly what it adds, and changes nothing only if the set is closed |
| Dns.Learner.Close | internal/pbr/dns_proxy.go:201-218 | the loop terminates with exactly the closure and remembers exactly what it added |
| Dns.Learner.Collect | internal/pbr/dns_proxy.go:220-229 | the addresses of the records of trusted owners, in order |
| Dns.Learner.Inspect | internal/pbr/dns_proxy.go:185-231 | inspect returns the merged addresses of the closure's names and adds to the aliases exactly the names CNAME records led to |
| Dns.ExtractedMeaning | internal/pbr/dns_proxy.go:219-230 | the result holds exactly the canonical forms of public addresses of trusted owners |
| Inspection.CanonicalNameExactly | internal/pbr/dns_proxy.go:252-254 | the canonical name is the one name a text spells: any ASCII letter case, with or without outer white space and one final dot |
| Inspection.PlainName | internal/pbr/dns_proxy.go:252-254 | a small name without outer white space and final dot is its own canonical name |
| Inspection.NetflixExactly | internal/pbr/dns_proxy.go:233-250 | accepted are exactly the names whose labels end in those of a trusted suffix, however it is spelled, and Amazon load balancers whose first label starts with a service prefix in any letter case |
| Inspection.TrustedExactly | internal/pbr/dns_proxy.go:189-217 | a name is trusted if and only if a chain of CNAME records of answer and extra leads to it from an old alias or an accepted question |
| Inspection.RememberedExactly | internal/pbr/dns_proxy.go:201-217 | kept for later messages are the old aliases and exactly the names that a chain of CNAME records made trusted and nothing else did |
| Inspection.InspectedExactly | internal/pbr/dns_proxy.go:219-230 | returned are exactly the canonical networks of address records, in answer or extra, whose owner spells a trusted name |
| Inspection.QuestionLearned | internal/pbr/dns_proxy.go:185-231 | a question that spells a trusted suffix, or a name under one, has the public addresses of its own records returned |
| Inspection.SpellingIgnored | internal/pbr/dns_proxy.go:185-231 | spelling any name of a message differently changes neither networks nor aliases |
| Dns.AliasProvenance | internal/pbr/dns_proxy.go:185-230 | over any history every alias goes back, through CNAME records of processed messages, to an accepted question name |
| Dns.InspectAgain | internal/pbr/dns_proxy.go:185-230 | aliases only grow, and the same message again gives the same addresses and no alias |
| ClientSubnet.AddClientSubnet | internal/pbr/dns_proxy.go:171-182 | the in-place filter and append give the other options in order and then the client's subnet |
| ClientSubnet.OneSubnet | internal/pbr/dns_proxy.go:154-183 | the query sent carries exactly one subnet option, last and the client's own, and adding it again changes nothing |
| ClientSubnet.OthersInOrder | internal/pbr/dns_proxy.go:164-182 | the options kept stay in order, and the query of a client without an IPv4 address is not touched |
| ProtocolSafety.CtrlStepGood | internal/pbr/runtime.go:376-400 | every controller event keeps its invariant, and neither its list nor the record of completed passes shrinks |
| ProtocolSafety.ConverseGood | internal/pbr/runtime.go:252-260 | whatever is lost around a report, what the agent records as reported the controller holds and has installed |
| ProtocolSafety.NextGood | internal/pbr/runtime.go:123-263 | every event of the two nodes keeps the joint invariant |
| ProtocolSafety.RunGood | internal/pbr/runtime.go:90-121 | the joint invariant holds in every reachable state |
| ProtocolSafety.ReleaseSafety | internal/pbr/dns_proxy.go:89-102 | every public address of a trusted owner in every answer written since the agent started is applied on the agent, desired on the controller, and part of a completed pass of the controller's drivers |
| ProtocolSafety.ReleaseLasts | internal/pbr/dns_proxy.go:89-102 | restarts of either side do not take that back on the controller |
| ProtocolSafety.NeverShrinks | internal/pbr/runtime.go:135-156 | between any two points of a run the controller's list and the agent's learned list do not shrink, nor does the agent's desired list once it has adopted a fetch, restarts included |
| ProtocolSafety.NoForgottenFailure | internal/pbr/runtime.go:232-251 | whenever the controller would leave its drivers alone, each driver's last call succeeded with exactly the desired list |
| ProtocolSafety.AgentNoForgottenFailure | internal/pbr/runtime.go:135-156 | the same for every agent process started after the agent first adopted the controller's list |
| ProtocolSafety.OfferedIsDesired | internal/pbr/runtime.go:386-397 | everything the controller's drivers were ever given is still desired |
| ProtocolSafety.CountsDecide | internal/pbr/runtime.go:265-304 | in every reachable state, and at every time inside an operation at which a snapshot can be recorded, the controller's applied count and the agent's reported count decide equality of the lists |
| Progress.ServeSucceeds | internal/pbr/dns_proxy.go:80-102 | where nothing fails and both limits have room, the answer is written |
| Serving.NothingToLearn | internal/pbr/dns_proxy.go:89-102 | an answer without a public address of a trusted owner is written whatever fails, and neither node changes |
| Serving.ServedExactly | internal/pbr/dns_proxy.go:89-102 | an answer is written if and only if there is nothing to learn from it or learning exactly that succeeds |
| Progress.FirstAnswerServed | internal/pbr/dns_proxy.go:80-102 | from empty files on both sides the first answer is released when nothing fails, so release safety is not met by releasing nothing |
| Progress.SyncConverges | internal/pbr/runtime.go:135-156 | one fetch that arrives, fits and can be saved makes the agent desire exactly the controller's list, its own learned hosts and its seeds, and a working pass applies that |
| Progress.ExtractedHosts | internal/pbr/dns_proxy.go:219-230 | inspect yields only networks that learn accepts as hosts |
| Provenance.LearnedFileGrows | internal/pbr/runtime.go:189-195 | at every save the learned file gains nothing but what learn was given |
| Provenance.ReportsAreOwn | internal/pbr/runtime.go:252-260 | in every reachable state what the agent holds as learned or has reported comes from its first learned file or from answers it inspected; nothing fetched is echoed |
| Packets.PerNetworkDecides | internal/pbr/drivers.go:391-393 | one rule per network decides exactly the packets from the source to the union of the networks |
| Tables.ChainTable.EnsureChain | internal/pbr/drivers.go:78-87 | success means the chain is there, nothing else changes, and a wrong answer of its probe is harmless |
| Tables.ChainTable.Restore | internal/pbr/drivers.go:68-76 | the chain is refilled at once or left alone, and success tells which |
| Tables.ChainTable.HookChain | internal/pbr/drivers.go:404-409 | every instant stays safe if and only if the probe is truthful, the hook absent or the insertion refused; success then leaves the chain hooked exactly once |
| Tables.HookedOnceExactly | internal/pbr/drivers.go:57-59 | the hook stays single under that same condition, since any error of its probe reads as absent |
| Tables.ChainTable.DropRule | internal/pbr/drivers.go:383-388 | one copy of an owned rule goes, nothing else |
| Tables.ChainTable.UnhookChain | internal/pbr/operations.go:354-360 | a success leaves no hook |
| Tables.ChainTable.DropChain | internal/pbr/operations.go:368-377 | an unhooked chain is emptied and removed; only a foreign reference stops it |
| LinuxExit.RestoreInput | internal/pbr/drivers.go:389-400 | the loops write exactly the two compiled chains |
| LinuxExit.ExitFilterMeaning | internal/pbr/drivers.go:389-395 | for every packet and list: from source_net to the union is accepted, the rest of source_net dropped, everything else returned |
| LinuxExit.ExitNatMeaning | internal/pbr/drivers.go:396-400 | masqueraded are exactly the accepted packets that leave on the WAN interface |
| LinuxExit.LegacyMatches | internal/pbr/drivers.go:383-386 | the legacy rule masquerades exactly what leaves source_net on the WAN interface |
| LinuxExit.PostroutingDecides | internal/pbr/drivers.go:383-415 | where foreign rules decide nothing, the whole of POSTROUTING masquerades exactly the packets from source_net to the union that leave on the WAN, or all that leave there while a legacy rule is left |
| LinuxExit.ForwardDecides | internal/pbr/drivers.go:389-409 | where foreign rules decide nothing, the whole of FORWARD accepts from source_net exactly what goes to the union, drops the rest and leaves other sources alone |
| LinuxExit.FrontHookDecides | internal/pbr/drivers.go:404-409 | with the hook in front, as it is inserted, foreign rules have no say about source_net |
| LinuxExit.SafeMeaning | internal/pbr/drivers.go:404-409 | at every instant at which FORWARD jumps to the chain, the chain decides every packet as one synchronized list says |
| LinuxExit.ExitDriver.EnsureChains | internal/pbr/drivers.go:377-382 | success leaves both chains there; the legacy rule is not touched |
| LinuxExit.ExitDriver.DropLegacy | internal/pbr/drivers.go:383-388 | on a truthful probe success leaves one copy of the legacy rule fewer, so none where there was one |
| LinuxExit.ExitDriver.Prepare | internal/pbr/drivers.go:377-388 | success leaves both chains there and, on a truthful probe, one copy of the legacy rule fewer; every instant stays safe and foreign rules stay |
| LinuxExit.ExitDriver.RestoreChains | internal/pbr/drivers.go:401-403 | both tables are refilled in order, and a partial restore is safe |
| LinuxExit.ExitDriver.HookChains | internal/pbr/drivers.go:404-415 | complete chains end up hooked once each |
| LinuxExit.ExitDriver.ApplyExit | internal/pbr/drivers.go:372-417 | after any runs in any order every instant stays safe and leaves foreign rules alone; a success has exactly this list hooked once in both tables and, on a truthful probe, one copy of the legacy rule fewer; a run without failures succeeds |
| LinuxExit.ExitDriver.CleanupLinuxExit | internal/pbr/operations.go:349-389 | the same for cleanup; a success leaves no hook and no chain |
| LinuxExit.CleanupOpensExactly | internal/pbr/operations.go:354-377 | deleting one hook and flushing leaves a hooked empty chain if and only if the hook was there at least twice |
| Interleaving.UnsafeExactly | internal/pbr/drivers.go:372-417 | for every schedule of any runs of applyExit and cleanupLinuxExit, command by command, with any command refused, cut short or killed: some instant is unsafe if and only if a hook takes effect after a flush that no restore followed, or a flush after a hook inserted since the cleanup got past its own |
| Interleaving.SerialIsSafe | internal/pbr/operations.go:349-389 | in a schedule of runs that do not overlap every instant is safe |
| Interleaving.FlushThenHook | internal/pbr/operations.go:368-373 | a schedule of the two programs, with every command working, that ends with an empty chain hooked by the daemon |
| Interleaving.HookThenFlush | internal/pbr/operations.go:354-373 | another that ends with a hooked chain emptied by the cleanup |
| Interleaving.ThereAndBack | internal/pbr/drivers.go:372-417 | alone and without failures the daemon's program replaces a legacy rule by two complete chains, each hooked once, and the cleanup's then leaves bare tables |
| NftExit.SameDecisions | internal/pbr/drivers.go:49-53 | chain for chain the nftables table decides every packet like the linux-exit chains |
| NftExit.ScriptResult | internal/pbr/drivers.go:40-53 | the transaction replaces the set, or extends it after a probe that wrongly found no table |
| NftExit.NftKernel.ApplyNFTExit | internal/pbr/drivers.go:34-55 | whatever the probe says the table is absent or complete, with elements of lists it was given; on a truthful probe exactly of this one |
| NftExit.NftKernel.CleanupNFTExit | internal/pbr/operations.go:251-263 | the table goes whole or stays whole |
| IpRules.OwnedExactly | internal/pbr/drivers.go:138-148 | owned is a rule without selectors that has the priority, mark, mask and table, a mask of all ones printed or not |
| IpRules.ScanMeaning | internal/pbr/drivers.go:133-153 | the scan accepts exactly the lists with no foreign rule at the priority and counts the owned ones |
| IpRules.PolicyRules.Inspect | internal/pbr/drivers.go:114-154 | the loop computes that scan |
| IpRules.PolicyRules.DeleteAll | internal/pbr/drivers.go:227-231 | the deletions, though they ignore selectors, touch owned rules only |
| IpRules.PolicyRules.EnsureIPRule | internal/pbr/drivers.go:98-104 | success leaves one owned rule and all other rules in order; a foreign rule means an error and no change; a failure leaves owned rules only; a run without failures converges |
| IpRules.PolicyRules.DeleteOwnedIPRule | internal/pbr/drivers.go:235-247 | the same, converging to none |
| Edge.MarkMeaning | internal/pbr/drivers.go:282-286 | for every list and mark: no match leaves the mark, a match makes it one the rule selects, and the other bits flip once per match |
| Edge.OutsideKeptExactly | internal/pbr/drivers.go:282-286 | the bits outside the mask survive if and only if the number of matches is even or the mark has no bits there |
| Edge.DefaultsKeepOutside | internal/pbr/drivers.go:299-318 | with the default mark and mask the low three octets always survive, and the high one becomes the mark's if a network matches |
| Edge.HookMatchesExactly | internal/pbr/drivers.go:291-296 | the hook matches a packet if and only if its source lies in source_net and it came in on the configured interface |
| Edge.EdgeDriver.MarkInput | internal/pbr/drivers.go:282-287 | the loop writes those marks |
| Edge.EdgeDriver.EnsureRoute | internal/pbr/drivers.go:269-278 | the route and the rule are in place before any packet is marked |
| Edge.EdgeDriver.ApplyEdge | internal/pbr/drivers.go:260-297 | success installs route, rule, marks and one hook; the chain becomes hooked only once all of these are there; every instant is safe |
| Edge.EdgeDriver.CleanupEdge | internal/pbr/operations.go:282-320 | success removes all of them and gives the peer its base list; other rules and tables stay |
| Edge.PreroutingMarks | internal/pbr/drivers.go:282-296 | where foreign rules leave the mark alone, the whole of PREROUTING gives packets from source_net on the input interface the marks of the chain and leaves all others theirs |
| Edge.EdgeRoutes | internal/pbr/drivers.go:260-297 | after a success, where foreign rules leave the mark alone, a packet from source_net on the input interface to the union leaves PREROUTING with a mark that selects the table that routes to the interface; every other packet leaves with the mark it had |
| Edge.DefaultEdgeRoutes | internal/pbr/drivers.go:260-318 | the same with every default in place, all values written out: bridge clients, rule 12020, mark 0x20000000/0xff000000, table 202 and its route |
| WgRoute.AllowedMeaning | internal/pbr/drivers.go:89-96 | the peer admits exactly the base list and the networks; beside 0.0.0.0/0 they need not be listed and are not |
| WgRoute.WgDriver.AllowedList | internal/pbr/drivers.go:89-96 | the loop computes that list |
| WgRoute.WgDriver.RouteBatch | internal/pbr/drivers.go:61-66 | every line is tried and any failing line fails the batch |
| WgRoute.WgDriver.ApplyWGRoute | internal/pbr/drivers.go:249-258 | success installs a route for every network; over any runs every route is one the driver installed or one from before, and none is deleted |
| WgRoute.WgDriver.DropRoute | internal/pbr/operations.go:268-281 | one network's route goes, or an error |
| WgRoute.WgDriver.CleanupWGRoute | internal/pbr/operations.go:264-281 | after any runs, failed batches included, success gives the peer its base list and leaves a route the driver installed if and only if the state file misses an installed network; otherwise only routes from before the first run remain |
| EndToEnd.AcceptedIsDesired | internal/pbr/drivers.go:389-409 | at every instant of every run whatever the exit accepts goes to a network the controller desires |
| EndToEnd.ReleasedIsAccepted | internal/pbr/dns_proxy.go:89-102 | every address ever released is accepted and masqueraded once the exit holds the desired list |
| EndToEnd.ControllerLeavesNothing | internal/pbr/operations.go:244-281 | in every reachable state whose state file lists what is desired, a successful Cleanup of a driver handed what the controller's passes offered leaves no installed route and resets the peer |
| EndToEnd.SeedsNeverSaved | internal/pbr/runtime.go:386-397 | over any run a controller whose desired list ends as it began has not written its state file |
| EndToEnd.SeedsStay | internal/pbr/operations.go:244-281 | a controller with seeds and no files starts, applies them and is cleaned up with success, and every route it installed is left |
| OpenWrt.ReadMeaning | internal/pbr/drivers.go:363-369 | reading a list succeeds exactly on acceptable fields and gives them sorted; its limit never matters |
| OpenWrt.ReadIsDenotes | internal/pbr/drivers.go:341-346 | the comparison with nets holds if and only if the text denotes nets as a set |
| OpenWrt.JoinedReadsBack | internal/pbr/drivers.go:358-370 | any ordering of a canonical list, joined by spaces, reads back as the list |
| OpenWrt.UciKernel.ReadUCIList | internal/pbr/drivers.go:358-370 | the method computes that reading |
| OpenWrt.UciKernel.StageLists | internal/pbr/drivers.go:321-329 | the address text is nets, the list nets after whatever the ignored deletion left |
| OpenWrt.UciKernel.CommitAndReload | internal/pbr/drivers.go:330-338 | success commits and loads what is staged |
| OpenWrt.UciKernel.ApplyOpenWrt | internal/pbr/drivers.go:320-339 | success leaves staged, committed and running settings equal |
| OpenWrt.UciKernel.ReconcileOpenWrt | internal/pbr/drivers.go:341-356 | no setting is written exactly when both lists denote nets; success leaves the staged settings committed and running if and only if they did not, or were committed and each service ran them or was reloaded |
| OpenWrt.WrittenDenotes | internal/pbr/drivers.go:324-329 | what is written denotes nets if and only if the deletion left nothing beyond nets |
| OpenWrt.StagedLooksInPlace | internal/pbr/drivers.go:341-356 | two periodic checks of drifted settings, the first failing at its commit: the second succeeds with the drifted settings still committed and running |

## Left out

- ParseIPv4: only dotted decimals, without leading zeros, which Go refuses since 1.17. Of the texts net.ParseIP and net.ParseCIDR read, IPv6 and IPv4-mapped IPv6 forms are not part of this model, so a mapped address the program would accept is refused here.
- ToLower: ASCII letters only; strings.ToLower also maps other letters, which DNS names do not carry.
- ValidateNetworks: its three kinds of error are one None; which comes first does not matter to any caller.
- HandlePost: its checks and acceptReport are one step; StaleCheck shows that a list growing in between changes no outcome.
- Inspect: the lock is not modelled; inspecting and learning are separate events of the protocol, so answers may be inspected and served in any order.
- UnsafeExactly: about the filter table, and about one daemon beside one cleanup. Nat commands only decide whether a program goes on; syncMu keeps runs of applyExit apart.
- PolicyRules.Inspect: the structured list stands for both listings of ip; the text scanner, which also refuses its own rule where ip prints the mark differently, is not part of this model.
- The text of the listings that the drivers and Cleanup read; reading one works or fails, and then shows the truth.
- Sockets, TLS, HTTP and DNS transport, DoH, JSON and DNS wire formats, tokens: replies arrive decoded, or not at all.
- The size limit of a request body and the line limit of bufio.Scanner.
- I/O errors of LoadState other than an absent file; the temporary file and rename of SaveState, taken as atomic and durable.
- Configuration loading and validation; the model takes any configuration, and a linux-exit chain named FORWARD is the one excluded.
- The text of iptables, nft, ip, wg and uci commands; the model has their effects. Overlapping intervals in the nftables set are one way a transaction is refused.
- What foreign rules decide, except that PostroutingDecides, ForwardDecides and PreroutingMarks hold where they are silent about the packet and FrontHookDecides wherever the hook comes first.
- The wall clock: only the time of the last complete pass and the reapply interval. The status file, log lines, `updated` and `reportedAt`.
- Several agents: reports of others appear as arbitrary posts to the controller.
- Doctor's and SmokeTest's probes other than the count comparisons, onboarding, bundle generation, installation and packaging.
