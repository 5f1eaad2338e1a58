# ProxyHub, modelled and proved

ProxyHub is a proxy router. Operators save nodes, nested groups, chains and port mappings; the service
checks that graph, compiles every mapping into outbounds and balancers, brings a running core to the plan,
and keeps health records in a write-behind cache. This project models the logic between the database and
the network in Dafny and proves what each part is for.

`dafny verify dfyconfig.toml` checks everything.

## Modules

| module | models |
|---|---|
| Wrappers, Ids, Text | options, identifiers, de-duplication, trimming |
| GroupGraph | cycle search, reachability closure, upward fixpoint over nested groups |
| ConfigModel, ConfigWrites, ConfigStore, ConfigEffects, ConfigAcceptance | the tables, the chain-group invariant, every write as a step and as the loops that run it, what accepted writes achieve and which are refused half way |
| Impact, ImpactExact | which mappings a change affects, and when that is all of them |
| TagCodec | outbound tags: printers, the terminal-tag parser, the route view's group identifier |
| Outbounds, ChainCompiler, ChainMeaning, ChainTheorems, ChainBuilder | the chain compiler, what emitted outbounds mean, and the in-place builder |
| DirectExits, ChainBalancers, ChainPlans | when a chain is one node per member; handing its groups to balancers, and the loops that do so |
| NodeHealth, NodeRuns, Balancing, GroupEvents, DynamicGroup | a balancer member and its counters over runs, the balancer's choices, its events, and the object itself |
| Draining | connections of one member under every interleaving of goroutines |
| RoundRobin | the 64-bit round-robin counter and fairness |
| Reconcile, Convergence, CoreRuns, RuntimeCore | bringing a core to a plan; outbounds shared by members; runs of a core |
| Planner, PlanRevival, Retry | the plan of a mapping, whom it wakes, and exclude-and-retry |
| HealthLog, HealthBatcher | one node's health memory and the write-behind cache |
| Backup, BackupTheorems | settings export, validation and restore |
| Base64, Utf8, ImportText | base64 and UTF-8 decoding, and import expansion |

Code that changes state in place is a class or a loop proved against a function of the old state; the
properties are proved about those functions. Database tables are finite maps and transactions are single
steps. Time is an integer in which zero, or the constructor Never, means unset. Identifiers are trimmed,
dash-free, non-empty strings, fresh when a row is created (`utils/id.go:7`).

## What the proofs found

Where the code does not keep a promise on all inputs, the exact condition is proved, with an example.

- An accepted node update can put a chain inside a chain (`ConfigEffects.UpdateKeepsChainsFlatIff`,
  `ConfigEffects.ChainInChainHappens`).
- The impact analysis follows member lists, the planner also reads the primary-group column of nodes. Where no
  chain lists a chain, the analysis of changed nodes is exact exactly when the nodes a group holds by that column
  alone are found through the group too (`ImpactExact.NodeImpactIsExactIff`, `ImpactExact.FlatLinksKeepNodesIff`),
  and that of changed groups when chains known by that column bring what they use
  (`ImpactExact.FlatLinksKeepGroupsIff`). Mappings are missed otherwise (`ImpactExact.ColumnHidesMapping`,
  `ImpactExact.ColumnChainHidesMapping`, and with a chain in a chain `ImpactExact.ChainInChainHidesMapping`).
- An accepted node update loses a requested group that held the node only through its primary column and is
  not the first one requested (`ConfigEffects.UpdateGivesRequestedGroupsIff`, `ConfigEffects.RequestedGroupLost`).
- An accepted group update keeps a node that was not requested when the node names the group as its primary
  one without being on its list (`ConfigEffects.GroupUpdateGivesRequestedNodesIff`,
  `ConfigEffects.UnrequestedNodeKept`).
- A direct exit inside a chain's group drops the members before it, exactly when every later member can be passed
  (`DirectExits.ChainIsOneNodePerMemberIff`, `DirectExits.LeakingChain`).
- A rewritten terminal group of more than a hundred nodes loses members (`TagCodec.NoMemberLostIff`,
  `TagCodec.LargeGroupLosesMember`), and the chain loses their routes exactly when anything can be dialled before
  the group (`ChainBalancers.BalancersKeepRoutesIff`, `ChainBalancers.LargeChainLosesRoute`).
- A member that fails while its selection is forced stays dead after the policy is lifted
  (`GroupEvents.DeadStaysDeadUnless`, `GroupEvents.ForcedFailureOutlivesPolicy`).
- Draining after a failure, unlike after a disable or remove, does not keep new connections out: what a finished
  drain leaves is exactly what was dialled after its snapshot (`Draining.FinishedDrainLeavesOnlyNewer`,
  `Draining.FailureDrainMissesNewConnections`).
- A round-robin balancer fails after 2^63 draws (`RoundRobin.OrderIsRotationIff`, `RoundRobin.FirstFailure`).
- A sync skips a planned member that is tombstoned and then collects it (`Convergence.SyncConverges`,
  `Convergence.PlannedTombstoneIsLost`); this needs a removal that is still releasing connections, as no
  sequential run leaves a tombstone (`CoreRuns.SyncAfterRunIsExact`).
- Excluding a node from a starting runtime sets its last failure time without a record
  (`HealthLog.LastFailureIsRecountIff`, `HealthLog.ExclusionIsNoRecordedFailure`); a failure at the threshold can
  shorten a longer manual blacklist (`HealthLog.FailureShortensIff`, `HealthLog.ManualBlacklistShortened`).
- Rows with equal check times come back in any order, so a reload gives the stored window back exactly when check
  times decide its order (`HealthBatcher.ReloadRestoresWindowIff`, `HealthBatcher.EqualTimesAreMixed`).
- A node deleted between a flush's existence check and its commit leaves rows behind
  (`HealthBatcher.OrphansComeFromLateDeletes`, `HealthBatcher.LateDeleteLeavesRow`).
- A backup may hold two mappings under one identifier; the restore keeps one
  (`BackupTheorems.RestoreKeepsMappingsIff`, `BackupTheorems.DuplicateMappingDropped`).
- Strategy overrides whose keys trim to one group are read in the order the map happens to be visited in, so the
  result depends on it exactly when such keys disagree (`BackupTheorems.OverridesOrderFreeIff`,
  `BackupTheorems.OverrideDependsOnOrder`).
- A node update writes memberships one by one while the old row still stands. It is refused half way exactly when
  the old row is a chain and a chain uses a group it is to join; it has left its other groups by then
  (`ConfigAcceptance.CheckedUpdateAcceptedIff`, `ConfigAcceptance.UpdateRefusedHalfWay`).
- A latency probe counts by the limits of the policy its round began under, so it can blacklist a member of a group
  that was forced meanwhile (`GroupEvents.ForcedStep`, `GroupEvents.LateProbeBlacklistsForced`).

## Model

| member | source | states |
|---|---|---|
| ChainTheorems.ChainCompilesIff | service/proxy/runtime_chain.go:156-219 | A chain compiles, with or without the terminal rewrite, exactly when it has at least two members, every node is known, plain and buildable, and no group below it is on a cycle; what is emitted then has distinct tags and links only to built-ins or to earlier outbounds |
| ChainTheorems.ChainMeansItsMembers | service/proxy/runtime_chain.go:156-219 | The hop sequences reached by following detour and selector links from the chain's tag are exactly the ones the member list denotes, direct exits included |
| ChainTheorems.RewriteChangesNothing | service/proxy/runtime_chain.go:396-486 | Distributing the terminal node over the group before it, and the alias outbound, leave the set of hop sequences as it is |
| DirectExits.ChainIsOneNodePerMemberIff | service/proxy/runtime_chain.go:156-394 | A compiled chain leaves through exactly one node per member, in order, if and only if no member leaks: no group of the chain with a direct exit at or below it has only passable members after it |
| DirectExits.ChainLeavesWholeOrAfterExit | service/proxy/runtime_chain.go:221-270 | Every way out of a compiled chain is one node per member, or one node per member after a group with a direct exit |
| DirectExits.ChainIsOneNodePerMember | service/proxy/runtime_chain.go:221-270 | A chain over groups without direct exits leaves through one node per member, whatever exits other groups have |
| DirectExits.DirectExitDropsPrefix | service/proxy/runtime_chain.go:302-394 | Any leaking group lets traffic out through the later members alone: everything up to the group is dropped |
| DirectExits.LeakingChain | service/proxy/runtime_chain.go:302-394 | A compiled chain over a group with a direct exit and a node, and traffic that leaves through the node alone |
| ChainTheorems.AliasMeans | service/proxy/runtime_chain.go:136-154 | The alias of the last outbound routes exactly as that outbound does |
| ChainTheorems.GroupNodesBelong | service/proxy/service.go:952-990 | The nodes the compiler reads for a group are those that list the group or are listed by it |
| ChainTheorems.SafeChainsCompile | service/proxy/service.go:1327-1369 | Tables that keep the chain-group invariant compile every chain of existing plain members whose nodes can be built |
| Outbounds.FollowingEnds | service/proxy/runtime_chain.go:272-300 | In an ordered outbound list every walk along links ends after at most as many steps as there are earlier outbounds |
| ChainMeaning.BuildGroupLevel | service/proxy/runtime_chain.go:302-394 | A built group tag means the nodes of all groups at or below it behind the detour, and earlier tags keep their meaning |
| ChainBuilder.Builder.AllMemberOutbounds | service/proxy/runtime_chain.go:156-219 | The member loop, leaving early when the terminal rewrite is done, emits exactly the outbounds of the functional build or fails with the same error |
| ChainBuilder.Builder.ChainOutbounds | service/proxy/runtime_chain.go:67-154 | With the chain's alias the in-place builder emits exactly what the functional compiler does |
| ChainBuilder.Builder.TerminalOutbounds | service/proxy/runtime_chain.go:396-486 | The in-place terminal rewrite does what the compiler's rewrite does, declining in the same cases |
| ChainBuilder.Builder.GroupOutbounds | service/proxy/runtime_chain.go:302-394 | The in-place recursion over nested groups, with its visiting set, agrees with the compiler |
| ChainBalancers.BalancersKeepRoutesIff | service/proxy/runtime_plan.go:622-731 | Handing the groups of a compiled chain to balancers keeps all its hop sequences exactly when the rewritten group at its end is small enough to lose no member, or nothing can be dialled before it; every other group loses nobody |
| ChainBalancers.BalancersAddNoRoute | service/proxy/runtime_plan.go:622-731 | No hop sequence is added by the hand-over |
| ChainBalancers.LargeChainLosesRoute | service/proxy/runtime_plan.go:688-731 | A compiled chain over a group of 102 nodes and a hop sequence that it offers and its balancers do not |
| ChainPlans.ChainCache.MemberForChain | service/proxy/runtime_plan.go:566-604 | Planning a chain for the first time compiles it, stores its outbounds and hands its groups over; what these loops leave is the compiled chain with balanced groups, so it keeps all hop sequences exactly under the condition of BalancersKeepRoutesIff; other tags and plans stay as they were |
| ChainPlans.ChainCache.CacheChain | service/proxy/runtime_plan.go:622-637 | The loop hands over exactly the groups at or below the chain's members: each gets a balancer offering what its selector listed, and its selector leaves the outbounds |
| ChainPlans.ChainCache.CacheGroup | service/proxy/runtime_plan.go:639-675 | The recursion over child groups, with its visiting set, hands over exactly the groups reachable from this one that were not handed over before |
| ChainBalancers.SecondIsLost | service/proxy/runtime_plan.go:688-731 | Of two members with one identifier the second is not offered |
| TagCodec.PrintersAreInjective | service/proxy/runtime_chain.go:674-692 | All tag printers together are injective on dash-free identifiers, for indices of any size |
| TagCodec.ParserInvertsPrinterIff | service/proxy/runtime_chain.go:694-708 | The terminal-tag parser inverts its printer exactly when both indices are below 100, and accepts no other printed tag |
| TagCodec.RouteGroupInvertsPrinters | service/proxy/runtime_route.go:47-60 | The route view recovers the group identifier from every kind of group tag |
| TagCodec.NoMemberLostIff | service/proxy/runtime_plan.go:688-731 | De-duplication by identifier keeps all members of a rewritten terminal group exactly below index 100 with at most 100 nodes, or 101 with the final node not among the first hundred, or a single node |
| TagCodec.LargeGroupLosesMember | service/proxy/runtime_plan.go:688-731 | A group of 102 nodes whose rewritten form loses one |
| GroupGraph.HasChainGroupCycle | service/proxy/service.go:1539-1588 | The white/grey/black search answers true exactly when a cycle is reachable from a seed |
| GroupGraph.ChainMemberGroupClosure | service/proxy/service.go:1445-1475 | The closure is exactly the known groups reachable from the seeds |
| GroupGraph.ExpandAffectedGroups | service/proxy/runtime_reconcile.go:189-206 | The upward fixpoint ends with exactly the seeds and the groups that lead to one |
| GroupGraph.GreyHitIsCycle | service/proxy/service.go:1557-1562 | Meeting a grey group closes a cycle below the root of the search |
| ConfigWrites.StepKeepsChainsSafe | service/proxy/service.go:1327-1369 | Every single write (create, update, delete, import, sync, restore), accepted or refused part way, keeps the invariant: from no chain's groups is a cycle or a chain node reachable |
| ConfigWrites.RunKeepsChainsSafe | service/proxy/service.go:1371-1393 | The invariant holds after every run of writes |
| ConfigModel.CutCheckSuffices | service/proxy/group_service.go:280-320 | Checking a group with its child list cut off is enough when only nodes are added, because the previous state was valid |
| ConfigModel.SelfLinkCheckSuffices | service/proxy/service.go:640-662 | Checking an appended group without its link to itself is enough |
| ConfigWrites.NodeCreateKeeps | service/proxy/service.go:21-66 | Creating a node keeps the invariant, memberships included |
| ConfigWrites.NodeUpdateKeeps | service/proxy/service.go:68-118 | Updating a node keeps the invariant although memberships are rewritten after the check |
| ConfigAcceptance.CheckedUpdateAcceptedIff | service/proxy/service.go:68-118 | An update that passes its checks is carried out in full exactly when the stored row is plain, or no chain uses a group the node is to join |
| ConfigAcceptance.StayingChainRefusedByItself | service/proxy/service.go:1151-1167 | A row that stays a chain is refused half way only for a group that its own old members use |
| ConfigAcceptance.RefusedHalfWayHasLeft | service/proxy/service.go:1151-1167 | A refusal half way leaves every row as it was and the node outside every group it was to leave |
| ConfigAcceptance.UpdateRefusedHalfWay | service/proxy/service.go:68-118 | Valid tables and an update whose checks pass, that is refused, and that has taken the node out of its group |
| ConfigWrites.ImportOverNodeKeeps | service/proxy/service.go:561-605 | Importing over an existing node keeps the invariant |
| ConfigWrites.AppendToGroupKeeps | service/proxy/service.go:640-662 | Appending imported members to a group keeps the invariant |
| ConfigWrites.PlainRowsKeep | service/proxy/subscription_service.go:525-549 | A subscription sync's upsert of plain rows keeps the invariant |
| ConfigStore.ChainMemberGroupsInvalid | service/proxy/service.go:1395-1409 | The code's check answers true exactly when the invariant is broken |
| ConfigStore.GroupsContainChainNode | service/proxy/service.go:1411-1443 | The node part of the check finds a chain node exactly when one belongs to a reachable group |
| ConfigStore.Store.Update | service/proxy/service.go:68-118 | The update as it runs, row loops and membership loops included, takes the specified step and reports its status |
| ConfigStore.Store.Create | service/proxy/service.go:21-66 | The create as it runs takes the specified step |
| ConfigStore.Store.Delete | service/proxy/service.go:191-250 | The delete as it runs clears mappings and groups and takes the specified step |
| ConfigStore.Store.DeleteGroup | service/proxy/group_service.go:119-151 | The group delete as it runs clears every reference and takes the specified step |
| ConfigStore.Store.UpdateGroup | service/proxy/group_service.go:45-85 | The group update as it runs, clearing primary columns of nodes that left, takes the specified step |
| ConfigStore.Store.AddNodes | service/proxy/group_service.go:230-264 | Adding nodes to a group as it runs takes the specified step |
| ConfigStore.Store.SyncMembership | service/proxy/service.go:1151-1167 | The membership loops remove the node from groups it left and add it to those it joined |
| ConfigEffects.DeletedNodeIsNowhere | service/proxy/service.go:191-250 | After an accepted delete no mapping, as list or as active node, and no group or chain mentions the node |
| ConfigEffects.DeletedGroupIsNowhere | service/proxy/group_service.go:177-228 | After an accepted group delete no mapping, as list or as active group, and no group, node or chain mentions the group |
| ConfigEffects.UpdateKeepsChainsFlatIff | service/proxy/service.go:1246-1303 | An accepted update keeps chains free of chains exactly when it does not turn a node that another chain lists into a chain |
| ConfigEffects.ChainInChainHappens | service/proxy/service.go:1246-1303 | Valid tables and an accepted update that put a chain inside a chain |
| ConfigEffects.UpdateGivesRequestedGroupsIff | service/proxy/service.go:1151-1167 | After an accepted update the node is in exactly the requested groups, unless one held it only through the primary column and is no longer first in the request |
| ConfigEffects.RequestedGroupLost | service/proxy/service.go:1151-1167 | An accepted update after which a requested group does not hold the node |
| ConfigEffects.GroupUpdateGivesRequestedNodesIff | service/proxy/group_service.go:45-85 | After an accepted group update the group has no child group and holds exactly the requested nodes, unless an unrequested node names it as primary group without being listed |
| ConfigEffects.UnrequestedNodeKept | service/proxy/group_service.go:45-85 | An accepted group update after which the group still holds a node that was not requested |
| Impact.AffectedByNodes | service/proxy/runtime_reconcile.go:14-111 | The node analysis ends with exactly the mappings that follow down chains, then up groups, to a changed node |
| Impact.AffectedByGroups | service/proxy/runtime_reconcile.go:113-164 | The group analysis ends with exactly the mappings that reach a changed group directly or through a chain over it |
| ImpactExact.NodeImpactIsExactIff | service/proxy/runtime_reconcile.go:14-111 | Over all mappings and changed nodes, what the analysis returns is what depends on the node by lists or by the primary-group column, if and only if no single link loses what is found behind it |
| ImpactExact.FlatLinksKeepNodesIff | service/proxy/runtime_reconcile.go:72-96 | Where no chain lists a chain, that holds exactly when every node a group holds by its primary column alone is found through the group |
| ImpactExact.ListedColumnsAreFound | service/proxy/runtime_reconcile.go:72-96 | Tables in which every node is on the list of its primary group meet that condition |
| ImpactExact.ImpactOfNodesIsExact | service/proxy/runtime_reconcile.go:14-111 | Under both conditions the analysis returns exactly the mappings that depend on a changed node |
| ImpactExact.GroupImpactIsExactIff | service/proxy/runtime_reconcile.go:113-164 | The same equivalence for changed groups |
| ImpactExact.FlatLinksKeepGroupsIff | service/proxy/runtime_reconcile.go:113-164 | Where no chain lists a chain, it holds for groups exactly when chains known by their primary column bring what they use |
| ImpactExact.ImpactOfGroupsIsExact | service/proxy/runtime_reconcile.go:113-164 | Under both conditions the analysis returns exactly the mappings that depend on a changed group |
| ImpactExact.ColumnHidesMapping | service/proxy/runtime_reconcile.go:72-96 | Tables without a chain in a chain where a mapping that serves a node, known to its group by the primary column only, is missed |
| ImpactExact.ColumnChainHidesMapping | service/proxy/runtime_reconcile.go:113-164 | The same for a changed group below such a chain |
| ImpactExact.ChainInChainHidesMapping | service/proxy/runtime_reconcile.go:72-96 | With a chain inside a chain a mapping that depends on the changed node is missed |
| NodeHealth.RevivalOrderIsStrictTotal | core/singboxcore/group.go:648-692 | The revival order is irreflexive, transitive and total between different positions |
| NodeHealth.NodeState.RecordTrafficFailure | core/singboxcore/node.go:363-390 | Counts the failure, blacklists from the threshold on, and reports exactly the step into an active blacklist |
| NodeHealth.NodeState.RecordProbeSuccess | core/singboxcore/node.go:291-326 | An answered probe clears blacklist and failures; slow answers in a row unmake the candidate |
| NodeHealth.NodeState.ReviveBlacklist | core/singboxcore/node.go:402-422 | Only an enabled, untombstoned, blacklisted member is revived, and starts without failures |
| NodeHealth.NodeState.RecordFailed | core/singboxcore/node.go:253-278 | An explicit failure blacklists for its lifetime, or makes the member dead without one |
| NodeHealth.NodeState.MarkTombstone | core/singboxcore/node.go:280-289 | A removal disables the member for good and sets when it may be collected at the latest |
| NodeRuns.ProbesRecount | core/singboxcore/node.go:291-361 | For every run of probes the failure count is the misses since the last answer, the member is blacklisted exactly from the threshold on, and it is a latency candidate exactly after a fast answer followed only by slow ones below the threshold |
| Balancing.NoAvoidableOutage | core/singboxcore/group.go:494-530 | Outside forced mode candidates are found exactly when some enabled, untombstoned, non-dead member exists; they are eligible and listed once |
| Balancing.RevivalWakesTheLeast | core/singboxcore/group.go:551-606 | A revival wakes min(limit, count) blacklisted members, each ranking before every one left asleep |
| Balancing.OrderedIsASelection | core/singboxcore/group.go:494-530 | Every strategy's order lists eligible members only, without repeats, and all of them unless latency decides |
| Balancing.LatencyOrderIsSorted | core/singboxcore/group.go:694-718 | Under least latency no member stands after a slower one |
| Balancing.ManualTriesSelectedFirst | core/singboxcore/group.go:514-526 | A manual balancer tries the selected member first, then the others in the group's order |
| GroupEvents.DialTakesFirstConnected | core/singboxcore/group.go:362-401 | A dial goes to the first candidate that connects and fails exactly when none does |
| GroupEvents.StepKeepsOrder | core/singboxcore/group.go:178-202 | Every event keeps the order listing every member exactly once |
| GroupEvents.ForcedDialTriesSelected | core/singboxcore/group.go:499-504 | Under a forced policy a dial tries the selected member and nobody else |
| GroupEvents.ForcedStep | core/singboxcore/group.go:244-282 | Under a forced manual policy an event blacklists somebody exactly when it is a probe begun under another policy that misses once too often, and the selection moves only by selecting, by removal of the selected member, or by the first add into an empty selection |
| GroupEvents.ForcedRunIsIsolated | core/singboxcore/group.go:1033-1066 | No run of dials, failures, probes, disables and adds moves a forced selection, nor blacklists anyone unless a probe misses |
| GroupEvents.LateProbeBlacklistsForced | core/singboxcore/group.go:980-1015 | A probe that began before the policy was forced blacklists the selected member and closes its connections |
| GroupEvents.ProbedGroupSelectsFastest | core/singboxcore/group.go:809-836 | After an undisturbed probe round of a least-latency group the selected member is an eligible candidate, and no member that answered within the limit was faster |
| GroupEvents.DeadStaysDeadUnless | core/singboxcore/group.go:267-282 | A dead member comes back exactly by an explicit mark alive, an explicit failure with a lifetime, a traffic failure that reaches the threshold, or a probe under way that is answered or reaches its threshold |
| GroupEvents.ForcedFailureOutlivesPolicy | core/singboxcore/group.go:273-276 | A member that failed while forced leaves the group without candidates after the policy is lifted |
| DynamicGroup.Balancer.CandidateList | core/singboxcore/group.go:494-530 | The loops return the specified candidates and make at most one revival |
| DynamicGroup.Balancer.ReviveBlacklisted | core/singboxcore/group.go:551-606 | The revival loop wakes exactly the specified members |
| DynamicGroup.Balancer.CollectReady | core/singboxcore/group.go:314-360 | The collection loop removes exactly the members that are ready and repairs the selection |
| DynamicGroup.Balancer.DialCandidates | core/singboxcore/group.go:362-401 | The dial loop takes the specified step and hands out at most one connection |
| DynamicGroup.Balancer.TrafficFailed | core/singboxcore/group.go:1033-1066 | A pre-first-byte failure counts against the member, gives back the failing connection and takes the specified step |
| DynamicGroup.Balancer.TakeTurn | core/singboxcore/group.go:494-530 | Insertion by latency, rotation and shuffle in place give the order the strategy is specified to give |
| DynamicGroup.Balancer.ProbeRound | core/singboxcore/core.go:327-335 | The probe loop and the selection that follows do what a probe round is specified to do |
| DynamicGroup.Balancer.ProbeReturned | core/singboxcore/group.go:980-1015 | A returned probe counts by the limits its round began with, and closes connections when it blacklists |
| DynamicGroup.Balancer.SetPolicy | core/singboxcore/group.go:204-220 | A policy refresh keeps the turn of a strategy that does not change |
| DynamicGroup.Balancer.Add | core/singboxcore/group.go:178-202 | Adding re-enables a known member and appends an unknown one, which an empty selection selects |
| DynamicGroup.Balancer.Disable | core/singboxcore/group.go:222-231 | Disabling drains the member and repairs the selection |
| DynamicGroup.Balancer.Remove | core/singboxcore/group.go:233-242 | Removing tombstones, drains and collects at once |
| DynamicGroup.Balancer.Select | core/singboxcore/group.go:244-257 | Selecting succeeds exactly for an eligible member, by health unless the policy is forced |
| Draining.CounterIsExact | core/singboxcore/node.go:117-147 | In every interleaving activeCount is the registered connections plus those between the two halves of their release, and never negative |
| Draining.ReleasedOnce | core/singboxcore/group.go:1115-1147 | In every interleaving a connection gives its count back at most once, exactly when its release has finished |
| Draining.DrainedUntilReopened | core/singboxcore/group.go:222-242 | Once a disable or remove has closed its snapshot no connection is registered until the member is enabled again, whatever ran meanwhile |
| Draining.RemovedStaysDrained | core/singboxcore/node.go:464-479 | For a removed member no later event registers anything; it is collectable exactly when no release is under way or its removal time has passed |
| Draining.DrainCanFinish | core/singboxcore/node.go:149-164 | From every reachable point some continuation finishes a drain |
| Draining.FinishedDrainLeavesOnlyNewer | core/singboxcore/group.go:222-282 | When any drain has finished, a failure drain included, the connections still registered are exactly those dialled after its snapshot that are open or leaving; so none is registered if and only if there is no such connection |
| Draining.FailureDrainMissesNewConnections | core/singboxcore/group.go:267-282 | A run in which a finished failure drain leaves a connection dialled meanwhile |
| Draining.Connections.CloseAll | core/singboxcore/node.go:149-164 | Without other goroutines closing all connections leaves none registered |
| RoundRobin.OrderIsRotationIff | core/singboxcore/balancer.go:25-34 | An answer is a rotation; there is one exactly for a draw below 2^63, or above it when the member count divides the rest |
| RoundRobin.FirstFailure | core/singboxcore/balancer.go:25-34 | No draw below 2^63 fails, and 2^63 or the next draw does for every number of members |
| RoundRobin.FairOverRounds | core/singboxcore/balancer.go:25-34 | Over k*n consecutive draws every position is first exactly k times |
| RoundRobin.FairAlways | core/singboxcore/balancer.go:25-34 | Over any number of draws two positions differ by at most one |
| RoundRobin.GroupIsFair | core/singboxcore/group.go:204-217 | While the 64-bit counter stays below 2^63, k*n calls of a group, policy refreshes in between included, are all answered in the counter's order and each member is first exactly k times |
| RoundRobin.RoundRobinBalancer.Arrange | core/singboxcore/balancer.go:25-34 | The balancer advances its 64-bit counter by one and lists the members as its draw says |
| Convergence.SyncConverges | service/proxy/runtime_plan.go:346-416 | After a successful sync the members that are not built in are exactly the planned ones except a planned member already tombstoned and ready; survivors keep their health, newcomers start afresh |
| Convergence.SequentialSyncIsExact | service/proxy/runtime_plan.go:346-416 | Without tombstones a successful sync leaves exactly the planned members, built-ins apart |
| CoreRuns.RunKeepsClean | core/singboxcore/group.go:178-282 | From a clean core every run of group events, upserts, group removals and syncs, failed ones included, ends without tombstones and with every group in order |
| CoreRuns.SyncAfterRunIsExact | service/proxy/runtime_plan.go:346-416 | After every such run from an empty core a successful sync leaves exactly the planned members, built-ins apart |
| Convergence.PlannedTombstoneIsLost | service/proxy/runtime_plan.go:346-416 | A sound core on which a successful sync loses a planned member |
| Convergence.SyncReleasesExactlyUnused | core/singboxcore/core.go:354-378 | A successful sync leaves the old and new outbounds less exactly those a departed member held and nobody references; direct and block never go |
| Convergence.StepLeavesNoTombstone | core/singboxcore/group.go:233-242 | Between sequential events no member is tombstoned |
| Reconcile.SweptTwice | core/singboxcore/core.go:354-398 | Releasing in two goes is releasing once: a tag two departed members shared goes with the second |
| Reconcile.CollectSweeps | core/singboxcore/group.go:314-360 | Collecting a group forgets ready members and takes down exactly their unreferenced outbounds |
| RuntimeCore.Runtime.SyncMembers | service/proxy/runtime_plan.go:346-416 | The sync loops do what the specification describes, failing at the same outbound |
| RuntimeCore.Runtime.RemoveTagsIfUnused | core/singboxcore/core.go:354-378 | The release loop takes down exactly the given tags nobody references, built-ins apart |
| RuntimeCore.Runtime.TagsReferenced | core/singboxcore/core.go:380-398 | The references are the group tags and the tags of all members |
| Planner.PlanBuilder.MappingMembers | service/proxy/runtime_plan.go:61-189 | The plan fails as cyclic only when the mapping's groups reach a cycle and never succeeds when they do; its list holds no excluded node, every node that may serve and all known groups |
| Planner.PlanBuilder.MemberForGroup | service/proxy/runtime_plan.go:805-897 | The memoised recursion ends on every graph; each planned group holds no excluded node, all nodes never blacklisted, somebody when a revival finds anybody, and all its child groups |
| Planner.PlanBuilder.ReviveIfAllBlacklisted | service/proxy/runtime_plan.go:472-504 | A revival happens exactly when all nodes are blacklisted, none excluded, and somebody can be woken |
| PlanRevival.WakesTheLeast | service/proxy/runtime_plan.go:506-564 | At most three blacklisted nodes of a list are woken, all when there are no more, and each ranks before every one left asleep |
| PlanRevival.ReviverPicks | service/proxy/runtime_plan.go:506-564 | The pick the service makes is one the plan builder's results allow for: only listed nodes are woken |
| Planner.UniqueKeepsTidy | service/proxy/runtime_plan.go:1022-1040 | De-duplication by key keeps exactly the members it was given |
| Planner.PlanBuilder.FixedChoiceNeverFallsBack | service/proxy/runtime_plan.go:154-161 | A fixed choice routes to the chosen group if the mapping has it, else to the chosen node unless excluded, else nowhere |
| Retry.CreateInstance | service/proxy/runtime_lifecycle.go:401-423 | At most one attempt per node and one more; each exclusion recorded once; no excluded node is a direct member of a started mapping or of its groups; a fixed choice never falls back |
| Retry.Exclude | service/proxy/runtime_lifecycle.go:364-399 | A node is excluded once; blaming it again ends the loop |
| Retry.Attempt | service/proxy/runtime_lifecycle.go:425-450 | An attempt yields an instance, a node to blame, or neither; an instance has no excluded direct member and no cycle below it |
| HealthLog.MemoryRecountsTheLog | service/proxy/health_batcher.go:541-608 | For every run the window is the last thirty accepted records, and counters, times, streak and availability are a recount of the log |
| HealthLog.LastFailureIsRecountIff | service/proxy/health.go:396-414 | The last failure time is the window's exactly when no exclusion came after the last accepted result, or at the same time |
| HealthLog.ExclusionIsNoRecordedFailure | service/proxy/health.go:396-414 | An excluded node has a last failure without any recorded failure |
| HealthLog.StreakIsTheTail | service/proxy/health_batcher.go:574-579 | The streak is the length of the longest tail of accepted failures since the last success or reset |
| HealthLog.WindowIsSpaced | service/proxy/health_batcher.go:610-624 | No two failures in the window from the two traffic sources lie within two seconds |
| HealthLog.FailureBlacklistsIff | service/proxy/health_batcher.go:590-605 | A failure blacklists exactly when the log's streak reaches the threshold or a blacklist still runs |
| HealthLog.FailureShortensIff | service/proxy/health_batcher.go:594-602 | A failure never lifts a running blacklist, and shortens it exactly when the threshold sets an earlier end |
| HealthLog.ManualBlacklistShortened | service/proxy/health_batcher.go:594-602 | A memory and a failure that ends a manual blacklist early |
| HealthLog.FindDuplicate | service/proxy/health_batcher.go:610-624 | The backward scan finds a duplicate exactly when one is in the window |
| HealthLog.Summarize | service/proxy/health_batcher.go:637-658 | The backward scan counts successes and failures and finds the latest time of each |
| HealthLog.NodeMemory.RecordResult | service/proxy/health_batcher.go:541-608 | Recording in place takes the specified step, duplicates leaving everything as it is |
| HealthLog.NodeMemory.Reset | service/proxy/health.go:178-226 | The reset steps in place take the specified step |
| HealthBatcher.RunKeepsSound | service/proxy/health_batcher.go:422-524 | In every interleaving of writes, node changes and flush phases an existing node that is not dirty has its columns and history stored |
| HealthBatcher.RunFromStartIsStored | service/proxy/health_batcher.go:70-149 | The same over every run from a start on stored tables |
| HealthBatcher.FlushCleansExactlyUnwritten | service/proxy/health_batcher.go:508-522 | An acknowledge leaves dirty exactly what was written during the flush; the rest is clean, or forgotten when the node was gone |
| HealthBatcher.QuiescentFlushStoresAll | service/proxy/health_batcher.go:422-524 | An uninterrupted flush leaves nothing dirty and every existing node stored |
| HealthBatcher.OrphansComeFromLateDeletes | service/proxy/health_batcher.go:447-505 | A transaction leaves a row without a node exactly when a node was deleted after the flush had looked; no other step can |
| HealthBatcher.LateDeleteLeavesRow | service/proxy/health_batcher.go:447-505 | A run in which this happens |
| HealthBatcher.ReloadRestoresWindowIff | service/proxy/health_batcher.go:70-149 | However the query lists the rows of a stored window, loading gives that window back if and only if check times decide its order |
| HealthBatcher.EqualTimesAreMixed | service/proxy/health_batcher.go:70-149 | Two records of one time that may be listed in the other order and then load as another window |
| HealthBatcher.Batcher.ReviveNodes | service/proxy/health_batcher.go:368-399 | The loop revives every listed node once and touches no other |
| HealthBatcher.Batcher.Snapshot | service/proxy/health_batcher.go:430-445 | The snapshot holds exactly the dirty memories with their revisions |
| HealthBatcher.Batcher.Settle | service/proxy/health_batcher.go:508-522 | The acknowledge loop cleans, forgets or leaves alone as specified |
| Backup.Validate | service/proxy/settings_backup.go:123-212 | A document, missing entries included, is accepted exactly when its rows have unique identifiers and listen ports, a parsable listen address, no dangling reference, overrides of listed groups only once trimmed, and a valid chain-group graph, and then yields those rows |
| Backup.ReadRows | service/proxy/settings_backup.go:136-199 | The reading loops accept exactly rows that are complete and without repeats |
| Backup.CheckReferences | service/proxy/settings_backup.go:443-493 | The reference loops accept exactly rows without dangling references |
| BackupTheorems.ExportImportsIff | service/proxy/settings_backup.go:55-84 | A normal-form database exports to a document that can be imported exactly when it has integrity, and the import restores the same rows |
| BackupTheorems.ImportExportImportIff | service/proxy/settings_backup.go:258-441 | Exporting and importing what an accepted document left changes nothing, exactly when the listen addresses read back as they are printed |
| BackupTheorems.RestoreKeepsMappingsIff | service/proxy/settings_backup.go:248-252 | Every accepted mapping is restored exactly when mapping identifiers differ |
| BackupTheorems.DuplicateMappingDropped | service/proxy/settings_backup.go:180-194 | An accepted document of which the restore drops a mapping |
| BackupTheorems.OverridesOrderFreeIff | service/proxy/service.go:1868-1892 | What a mapping's strategy overrides are read as does not depend on the order of the map's keys, exactly when keys that trim to one group agree |
| BackupTheorems.OverrideDependsOnOrder | service/proxy/service.go:1868-1892 | Two spellings of one group with different strategies, read in two orders with two results |
| BackupTheorems.NodeBack | service/proxy/dto.go:371-412 | A node row comes back from its transfer object, chain members included |
| BackupTheorems.RestoreIsValid | service/proxy/settings_backup.go:214-256 | The restored tables hold every node and keep the chain-group invariant |
| Base64.FlexibleInvertsEncode | service/proxyuri/uri.go:335-352 | The flexible decoder inverts the padded and unpadded, standard and URL-safe encodings of every byte string (sections 3.2, 4 and 5 of RFC 4648) |
| Base64.SpellingsAgree | service/proxyuri/uri.go:337-347 | Two spellings that accept a text decode it to the same bytes, so the order of attempts does not matter |
| Base64.FlexibleShortens | service/proxyuri/uri.go:335-352 | A decoded text has at most three quarters of the bytes, so the expansion ends |
| Base64.DecodeFlexible | service/proxyuri/uri.go:335-352 | The loop over the spellings, then the padded retry, gives the specified answer |
| ImportText.OutputsFinalIff | service/proxyuri/uri.go:558-587 | Every output of a text expands to itself, if and only if the same holds for the URIs of every Clash document met on the way |
| ImportText.OutputsExpandToThemselves | service/proxyuri/uri.go:558-587 | A text in which no Clash document is met has only outputs that expand to themselves |
| ImportText.EncodedUriExpands | service/proxyuri/uri.go:576-586 | Every URI that is not a Clash document, its UTF-8 bytes pasted in any base64 spelling, expands to the URI |
| Utf8.TextBack | service/proxyuri/uri.go:576-586 | Every text comes back from its UTF-8 bytes (section 3 of RFC 3629) |
| ImportText.ExpandImportValue | service/proxyuri/uri.go:558-587 | The recursion with its line loop ends and gives the specified list |
| Text.UniqueNonEmpty | service/proxyuri/uri.go:440-455 | The loop keeps exactly the trimmed values that are not empty, each once, in order of first occurrence |

## Left out

- sing-box, the database, HTTP, YAML, JSON, ZIP, logging and the user interface: libraries and I/O. Creating
  an outbound is a call that may be refused; a failing database call aborts its step.
- How a probe measures latency, and the goroutines that run probes; rounds, answers and misses are events.
- Clocks, random shuffles and random identifiers: time is a parameter, a shuffle any permutation, an
  identifier fresh.
- Members handed out by a balancer as shared objects: a balancer holds member values, so a removed member that a
  caller still uses is modelled only in Draining, where one member's connections are followed alone.
- Options of each protocol, URI and Clash parsing; a Clash document is a function from text to URIs.
- Text is a sequence of characters: bytes that are not well-formed UTF-8 stand as replacement characters.
- Backup columns with spelling normalisers (protocol, group type, strategies) are taken as already normalised;
  how an IP address is parsed and printed is a parameter; untouched columns stand together as one list of texts;
  the wording of errors is not modelled; chain members are those the row denotes, so a row in the older
  node-list form comes back in the newer one.
- Left-over members of a row that is not a chain are kept by the model's rows but play no part.
- Planner.PlanBuilder.MappingMembers: covers the mapping and its proxy groups; the balancers of a chain's own groups
  are planned by ChainPlans.ChainCache; which nodes cannot be built is a parameter, and so is whom a revival picks,
  which PlanRevival.ReviverPicks fills in with the service's choice.
- ChainPlans.ChainCache.MemberForChain: speaks of a chain planned for the first time; when it is planned again its
  balancers stay as they are, which CacheChain states, and its selectors are stored beside them.
- ChainBalancers.BalancersKeepRoutesIff: speaks of which members a balancer offers, not of the one first selected nor
  of the outbounds collected for each member (service/proxy/runtime_plan.go:733-767).
- Convergence.SyncConverges: speaks of successful syncs; a refused outbound leaves the members added so far.
- The retry loop around a membership sync (service/proxy/runtime_plan.go:234), the same loop as Retry.CreateInstance
  around Convergence's sync instead of a start.
- The rotation of probed groups (service/proxy/health.go:1407) and the walk through nested route selections
  (service/proxy/runtime_route.go:127), which only read what is modelled here.
- Re-enabling a built-in member that an earlier sync disabled, which the code does not do.
- HealthBatcher.RunKeepsSound: revisions are unbounded, so a wrap after 2^64 writes between two phases is not
  modelled; a shutdown racing with a flush is not either.
- Balancing's turn is an unbounded number: below 2^63 draws it lists what the 64-bit counter does
  (RoundRobin.FirstsFollowTheCounter); beyond, RoundRobin.OrderIsRotationIff says which draws have an answer.
- RoundRobin.GroupIsFair: assumes that the same members are eligible at every call, as fairness is not promised
  otherwise.
- Draining.DrainedUntilReopened: health enters only as the answer to whether a dial may register.
- Status texts, route snapshots, paging, tokens, users, version checks and configuration files: easy members.
