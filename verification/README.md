# NOX core in Dafny

A model, with proofs, of the most intricate parts of the NOX network controller: the kernel that
installs components with their dependencies, the OpenFlow handshake, the registry of connections,
the packet classifier, the clipping of plots in the web front end, and the packed bitmap.

Each part is a set of functions or a transition system with its laws, and, where the source
changes objects in place, a class whose methods are proved against those functions.

| file | part |
|---|---|
| `KernelModel.dfy` | the component kernel as a transition system, and what each step keeps |
| `KernelRuns.dfy` | whole runs: they end, they are topological, cycles never start, errors are explained |
| `KernelOutcome.dfy` | exactly when a request succeeds, and exactly when it meets a missing description |
| `Kernel.dfy` | class `Kernel`: install, change, resolve |
| `HandshakeModel.dfy` | the handshake against an arbitrary peer, authenticator and clock, and what each step keeps |
| `HandshakeRuns.dfy` | whole runs: what a registration proves, and which runs end in one |
| `Handshake.dfy` | class `HandshakeFsm` |
| `Registry.dfy` | connection maps and connection lifetimes; class `ConnectionRegistry` |
| `RegistryTrace.dfy` | the join and leave notices over every run |
| `Cnode.dfy` | packet expressions and the classifier tree |
| `RuleNodes.dfy` | the pointers from rules to the nodes they are on |
| `CnodeResult.dfy` | the lazy merge of rule lists; class `CnodeResult` |
| `Classifier.dfy` | class `Classifier`: identifiers, adding, deleting, building, dispatch |
| `Clip.dfy`, `PlotLine.dfy` | clipping of segments and drawing of lines over the reals |
| `PlotArea.dfy`, `PlotAreas.dfy` | the outline of one segment of a filled area, and the filling of a whole series |
| `Bitmap.dfy` | 64-bit words bit by bit, and class `Bitmap` as a set of indices |
| `Wrappers.dfy` | the `Option` type |

Main results, each for all inputs or all runs:

- `Kernel.Kernel.Install`: from a kernel at rest, a request for INSTALLED succeeds if and only if
  the component is new and described and every chain of its dependencies is free of repetition,
  of missing descriptions, of failing actions, and of components that the kernel already has but
  that are not INSTALLED. `KernelOutcome.RequestDoesExactly` says for every component whether it is
  deployed and whether it is installed. `KernelRuns` adds termination with a bound, the
  topological order of every run, and that an error message names a genuine cause.
- `HandshakeRuns.RegistrationHasStory`: whatever the other side does, a registration is made only
  after the machine has read the replies it stands for, in the phases that wait for them, in order
  and in time, and has then been approved in answer to its own question or for want of an
  authenticator. `HandshakeRuns.PromptPeerRegisters` is the converse: every run without harm in
  which the machine gets what it waits for ends in a registration. `HandshakeRuns.LateExits`,
  `HandshakeRuns.ExitsTalking` and `HandshakeRuns.ExitsRegistering` give every exit and its code.
- `RegistryModel.StepInv`, `RegistryTrace.LawfulIffUnspoiled`, `RegistryTrace.LifetimesHold`: ids
  are unique, notices match the registry, and connections are deleted once and never while polled.
- `CnodeResult.DrainedIsFilterSort`, `CnodeTree.TraversalCovers`, `CnodeTree.BuildCorrect`,
  `RuleNodes.RemoveAtIsRemove`, `Classifier.Classifier.HandlePacketIn`,
  `Classifier.Classifier.DeleteRules`: tree, node pointers and lazy merge together do what a filter
  and a sort of all rules would do, whatever the shape of the tree.
- `PlotLine.LineExact`: a line inks exactly what the axes show of the data.
  `PlotAreas.DrawArea`: the outlines of the filled areas go through all of the data that the x axis
  shows, pressed into the y range, and otherwise only along the sides of the axes.
- `Bitmap.Bitmap.*`: the packed words are a set of indices.

Promises that the code does not keep, with the exact condition, or, for dispatch, with a bound on
either side:

- A dependency without a description makes `install` throw out of the middle of `resolve`, so the
  kernel goes on believing that it is installing. This is exactly when the request is `Unfindable`
  (`Kernel.Kernel.Install`; the smallest case is `KernelOutcome.UnfindableExample`).
- A switch that gives its own datapath id as its management id joins as a datapath and leaves as a
  manager (`RegistryTrace.SelfManagedExample`). Notices are right if and only if no such switch has
  been closed (`RegistryTrace.LawfulIffUnspoiled`), and are right and stay right when an id is
  closed if and only if no switch did so (`RegistryTrace.LawfulIffProper`).
- A manager whose config update cannot be read is registered all the same
  (`HandshakeRuns.PromptManagerRegisters` gives the run). Whatever is registered after a config
  update was read has a config if and only if that update was readable
  (`HandshakeRuns.ConfigDecides`).
- A rule on a field that packets do not have fails an assertion when a packet is tested against it
  (`PacketExpr.UnsupportedExample`, `CnodeResult.AbortExample`); the test is agreement with the
  packet if and only if the rule has no such field (`PacketExpr.SupportedIffExact`). Deleting by a
  packet aborts exactly if the traversal meets such a rule, or a node split on the destination
  access point (`Classifier.Classifier.DeleteRules`). Dispatch aborts only then, and does, unless
  only such rules are met and some rule that fires without being a top one comes no later than any
  of them (`Classifier.Classifier.HandlePacketIn`). In that case the rules alone do not decide:
  the same two can abort in one order of their lists and not in the other
  (`CnodeResult.OrderDecides`).
- A filled area is closed below its last vertex unless the last segment runs to the left and
  leaves the y range (`PlotArea.ClosedBelowLastVertex`, `PlotArea.ClosedElsewhereExample`).
- `&=` of bitmaps of different sizes is an intersection if and only if the longer one meets no
  stray bit past the end of the shorter one (`Bitmap.Bitmap.AndWith`, `Bitmap.StrayBitMet`); `|=`
  makes such bits (`Bitmap.StrayBitExample`).

## Model

| member | source | states |
|---|---|---|
| `KernelModel.StepValid` | nox/src/builtin/kernel.cc:353-482 | every step keeps each context exactly once in the vector of its current state, and everything that has left NOT_INSTALLED with all its dependencies INSTALLED |
| `KernelModel.StepKeeps` | nox/src/builtin/kernel.cc:389-466 | one step takes nothing out of INSTALLED, keeps every description and required state, and changes no context but the one it advances |
| `KernelModel.StepOrder` | nox/src/builtin/kernel.cc:372-462 | one step puts its component at the end of the vector of its new state, and all others keep their order |
| `KernelModel.FirstUnmet` | nox/src/builtin/kernel.cc:128-137 | the check of a component comes to its first dependency that is not INSTALLED; all before it are |
| `KernelModel.LookupErase` | nox/src/builtin/deployer.cc:32-45 | handing over one description changes no other lookup |
| `KernelModel.OfferedErase` | nox/src/builtin/deployer.cc:32-45 | a deployment uses up exactly one description |
| `KernelModel.AdvancedPartition` | nox/src/builtin/kernel.cc:440-466 | moving a component between vectors, to the next state or to ERROR, keeps the vectors a partition |
| `KernelRuns.RunValid` | nox/src/builtin/kernel.cc:353-482 | the invariant holds after every run |
| `KernelRuns.RunKeeps` | nox/src/builtin/kernel.cc:389-466 | over every run components only move up, INSTALLED is never left, and descriptions and required states stay |
| `KernelRuns.RunBrings` | nox/src/builtin/kernel.cc:52-61 | a component that comes in as a dependency is what the first deployer that offers it describes, and is wanted INSTALLED |
| `KernelRuns.RunBounded` | nox/src/builtin/kernel.cc:423-438 | every run, whatever its graph and failures, has at most one deployment and six moves per description |
| `KernelRuns.TopologicalOrder` | nox/src/builtin/kernel.cc:440-482 | in every run every move of a dependency comes before every move of the component that needs it |
| `KernelRuns.KnotNeverStarts` | nox/src/builtin/kernel.cc:128-137 | a set of components that each need another of the set stays NOT_INSTALLED |
| `KernelRuns.CycleNeverStarts` | nox/src/builtin/kernel.cc:128-137 | whatever is on a dependency cycle or leads into one stays NOT_INSTALLED in every run |
| `KernelRuns.ExplainIsGenuine` | nox/src/builtin/kernel.cc:226-250 | at rest the explanation of a component that is not INSTALLED is a real chain, each component the first unmet dependency of the one before, ending in a failed component or in a repetition |
| `KernelRuns.ExplainFrom` | nox/src/builtin/kernel.cc:84-98 | the same for the walk with the components visited so far |
| `KernelOutcome.SoundIffInstallable` | nox/src/builtin/kernel.cc:52-61 | soundness over all dependency chains is the same as being installable by finitely many layers |
| `KernelOutcome.RequestSucceedsIffSound` | nox/src/builtin/kernel.cc:389-438 | a request served to rest ends with the component INSTALLED if and only if it was sound |
| `KernelOutcome.MissingIsUnfindable` | nox/src/builtin/kernel.cc:52-61 | a check that comes to a dependency nobody describes shows the request to be unfindable |
| `KernelOutcome.RestIsFindable` | nox/src/builtin/kernel.cc:423-482 | a request after which the kernel is at rest was not unfindable |
| `KernelOutcome.SoundIsFindable` | nox/src/builtin/kernel.cc:353-370 | a sound request is not unfindable |
| `KernelOutcome.UnfindableExample` | nox/src/builtin/kernel.cc:52-61 | one component with one undescribed dependency is an unfindable request to a kernel at rest |
| `KernelOutcome.RequestStaysInClosure` | nox/src/builtin/kernel.cc:353-482 | at every point of serving a request, only what it needs has been deployed and nothing the kernel had has moved |
| `KernelOutcome.RequestDoesExactly` | nox/src/builtin/kernel.cc:353-482 | a request that ends at rest has deployed exactly the components it looks for, and of the components in the kernel exactly those are INSTALLED that could be |
| `KernelOutcome.InstalledClosure` | nox/src/builtin/kernel.cc:128-137 | whatever an INSTALLED component needs, directly or not, is INSTALLED |
| `Kernel.OutcomeOfRequest` | nox/src/builtin/kernel.cc:389-421 | a request ends without error exactly if sound, and leaves the kernel installing exactly if unfindable |
| `Kernel.Kernel.constructor` | nox/src/builtin/kernel.cc:251-254 | a new kernel is at rest and has no component |
| `Kernel.Kernel.Install` | nox/src/builtin/kernel.cc:353-370 | the error for a known name and for an undescribed one leaves the kernel unchanged; otherwise the component is held with its description and the state asked for, the kernel settles, and succeeds exactly on sound requests |
| `Kernel.Kernel.Deploy` | nox/src/builtin/deployer.cc:32-45 | a deployer that has the description loses it and registers the context NOT_INSTALLED |
| `Kernel.Kernel.InstallContext` | nox/src/builtin/kernel.cc:372-387 | a context under a known name is refused unchanged; a new one is registered and brought up |
| `Kernel.Kernel.Change` | nox/src/builtin/kernel.cc:389-421 | equal states do nothing, downward changes and contexts the kernel does not have are refused unchanged, upward ones wait while installing and otherwise settle with the error explained |
| `Kernel.Kernel.Resolve` | nox/src/builtin/kernel.cc:423-438 | terminates in a run that ends at rest, or with a missing description and the kernel still installing |
| `Kernel.Kernel.ResolvePass` | nox/src/builtin/kernel.cc:427-435 | one pass over the states without progress means that the kernel is at rest; with progress it has moved components of a single state only |
| `Kernel.Kernel.ResolveStates` | nox/src/builtin/kernel.cc:440-466 | after deployments, all components of the state that are ready move, in their order; no progress in a state means that everything in it waits for a component the kernel has |
| `Kernel.Kernel.MoveUp` | nox/src/builtin/kernel.cc:445-462 | one component takes exactly one step and the invariant stays |
| `Kernel.Kernel.Scan` | nox/src/builtin/kernel.cc:468-482 | collects exactly the components whose dependencies are met, in their order, also those appended while scanning |
| `Kernel.Kernel.ResolveContext` | nox/src/builtin/kernel.cc:128-137 | answers whether all dependencies are met and deploys at most the first unmet one |
| `Kernel.Kernel.ResolveDependency` | nox/src/builtin/kernel.cc:52-61 | answers whether the dependency is INSTALLED, and deploys it if the kernel does not have it |
| `HandshakeModel.StepSane` | nox/src/builtin/nox.cc:1281-1350 | every step keeps the state consistent: features before anything later, resources before a manager registers, at most one exit, 0 only with a registration, whoever waits woken exactly by an error, stored resources freed; phases only advance |
| `HandshakeRuns.After` | nox/src/builtin/nox.cc:1281-1335 | the same after every run from a consistent state |
| `HandshakeRuns.BackedStep` | nox/src/builtin/nox.cc:1020-1187 | every event keeps the phase backed by earlier moments at which the machine read the right message in the right phase, in time and in order, and got the decision it acts on |
| `HandshakeRuns.RegistrationHasStory` | nox/src/builtin/nox.cc:1189-1278 | a switch registers only after it has read its features reply and the answer to the capability question and was approved; a manager only after five such moments; ids are not 0 and the exit code is 0 |
| `HandshakeRuns.RefusedNeverRegisters` | nox/src/builtin/nox.cc:1166-1194 | a peer that the authenticator refuses is never registered, whatever comes before or after |
| `HandshakeRuns.ConfigDecides` | nox/src/builtin/nox.cc:962-976 | after a config update is read, whatever is registered is that manager with that config, readable if and only if the update was |
| `HandshakeRuns.PromptPeerRegisters` | nox/src/builtin/nox.cc:882-1335 | every run without error, refusal, delay or id 0 in which the machine gets what it waits for, whatever else comes in between, ends in a registration |
| `HandshakeRuns.ExitsOnce` | nox/src/builtin/nox.cc:1337-1350 | in every run at most one exit and one registration, exit code 0 exactly with a registration, and the semaphore raised once exactly by an exit with an error |
| `HandshakeRuns.ExitsWithZeroExactlyWhen` | nox/src/builtin/nox.cc:1166-1335 | one event makes the machine exit with 0 if and only if it is on time, approved and the id is not 0 |
| `HandshakeRuns.LateExits` | nox/src/builtin/nox.cc:1281-1289 | a wake-up past the deadline exits with ETIMEDOUT in whatever phase, wakes whoever waits and registers nothing |
| `HandshakeRuns.ExitsTalking` | nox/src/builtin/nox.cc:882-1164 | a wake-up on time that sends or receives exits exactly on a failed send or receive, with its error, or on an error message outside the capability question, with EINVAL |
| `HandshakeRuns.ExitsRegistering` | nox/src/builtin/nox.cc:1166-1278 | a wake-up on time that checks or registers exits with EPERM if refused, EINVAL for id 0, ETIMEDOUT if an immediate approval comes too late, and 0 otherwise, and does not exit while it asks |
| `HandshakeRuns.SpoiledNeverRegisters` | nox/src/builtin/nox.cc:1138-1287 | after a late wake-up, or an error message outside the capability question, no run registers anything, and the exit code stays ETIMEDOUT or EINVAL |
| `HandshakeRuns.SleepsThrough` | nox/src/builtin/nox.cc:1166-1187 | while the authenticator is asked nothing but its answer changes the machine, and an answer to no question changes nothing |
| `HandshakeRuns.StepDetails` | nox/src/builtin/nox.cc:882-1164 | a request that is sent moves the machine to the very next phase, an echo request that is read is answered and changes nothing else, and a message out of place changes nothing |
| `HandshakeRuns.RunForward` | nox/src/builtin/nox.cc:790-803 | over every run the phase only moves forward, and nothing happens after an exit |
| `HandshakeRuns.PromptSwitchRegisters` | nox/src/builtin/nox.cc:1225-1278 | for any ids there is a run that registers the switch |
| `HandshakeRuns.PromptManagerRegisters` | nox/src/builtin/nox.cc:962-976 | for any id and any config, an unreadable one included, there is a run that registers the manager |
| `Handshake.HandshakeFsm.constructor` | nox/src/builtin/nox.cc:865-880 | the machine starts by sending the features request, unapproved |
| `Handshake.HandshakeFsm.DoExit` | nox/src/builtin/nox.cc:1337-1350 | the exit code is reported, whoever waits is woken, and a stored resources update is freed |
| `Handshake.HandshakeFsm.SendMessage` | nox/src/builtin/nox.cc:882-918 | a phase that does not send exits with EINVAL, a send that would block changes nothing, an error exits with it, success advances |
| `Handshake.HandshakeFsm.HandleCapability` | nox/src/builtin/nox.cc:920-949 | a readable reply sets the management id and chooses the switch or the manager side |
| `Handshake.HandshakeFsm.HandleVendor` | nox/src/builtin/nox.cc:1020-1097 | management messages count only in the phase that waits for them |
| `Handshake.HandshakeFsm.RecvMessage` | nox/src/builtin/nox.cc:1099-1164 | one message is one step of the model, of which `ExitsTalking` and `StepDetails` say: an error message means no management support in one phase and exit with EINVAL in the others, echo requests are answered, and messages out of place are ignored |
| `Handshake.HandshakeFsm.CheckAuth` | nox/src/builtin/nox.cc:1166-1181 | asks the authenticator, or approves at once and goes on without one |
| `Handshake.HandshakeFsm.SwitchAuthCallback` | nox/src/builtin/nox.cc:1183-1187 | the answer decides and restarts the machine |
| `Handshake.HandshakeFsm.RegisterMgmtChannel` | nox/src/builtin/nox.cc:1189-1223 | EPERM unless approved, EINVAL for id 0, otherwise a manager is registered and the exit code is 0 |
| `Handshake.HandshakeFsm.RegisterDatapath` | nox/src/builtin/nox.cc:1225-1278 | the same for a switch |
| `Handshake.HandshakeFsm.RunOnce` | nox/src/builtin/nox.cc:1281-1335 | one activation is one step of the model, of which `LateExits`, `ExitsTalking` and `ExitsRegistering` give every exit and its code |
| `RegistryModel.CloseInv` | nox/src/builtin/nox.cc:227-249 | closing keeps the registry invariant |
| `RegistryModel.EnterInv` | nox/src/builtin/nox.cc:1417-1433 | entering a connection under a free id keeps it |
| `RegistryModel.RegisterConnIs` | nox/src/builtin/nox.cc:1417-1433 | creating, closing the holder of the id and reinserting is the same as evicting first and entering then |
| `RegistryModel.EvictedClears` | nox/src/builtin/nox.cc:1417-1433 | after the holder of an id has been closed no map knows the id |
| `RegistryModel.ReplacementOrder` | nox/src/builtin/nox.cc:1417-1433 | a replaced connection's leave is posted before the join of its replacement, and nothing else is |
| `RegistryModel.PollEndedInv` | nox/src/builtin/nox.cc:215-225 | the end of a poll, with or without deletion, keeps the invariant |
| `RegistryModel.StepInv` | nox/src/builtin/nox.cc:215-287 | every event keeps it: an id leads to its one open connection, switches and managers share out the ids, poll counts are exact, and every connection exists or was deleted once |
| `Registry.ConnectionRegistry.constructor` | nox/src/builtin/nox.cc:87-97 | the registry starts empty |
| `Registry.ConnectionRegistry.CloseConn` | nox/src/builtin/nox.cc:227-249 | a connection leaves maps, poll loop and switch managers with one notice, and is deleted unless it is being polled; a second close does nothing |
| `Registry.ConnectionRegistry.Enroll` | nox/src/builtin/nox.cc:1417-1433 | the new connection holds the id and the old holder is closed |
| `Registry.ConnectionRegistry.RegisterDatapath` | nox/src/builtin/nox.cc:1225-1278 | enrols, records the manager and posts the join |
| `Registry.ConnectionRegistry.RegisterMgmt` | nox/src/builtin/nox.cc:1189-1223 | enrols, creates the switch manager and posts its join |
| `Registry.ConnectionRegistry.CloseOpenflowConnection` | nox/src/builtin/nox.cc:438-448 | ESRCH and no change for an unknown id, otherwise the holder is closed |
| `Registry.ConnectionRegistry.PollStart` | nox/src/builtin/nox.cc:215-219 | the poll is counted |
| `Registry.ConnectionRegistry.PollFinish` | nox/src/builtin/nox.cc:219-225 | the last poll of a closing connection deletes it |
| `Registry.ConnectionRegistry.Happen` | nox/src/builtin/nox.cc:215-287 | whatever happens, the object takes the step of the model and keeps the invariant |
| `RegistryTrace.After` | nox/src/builtin/nox.cc:215-287 | the invariant holds after every sequence of events from the empty registry |
| `RegistryTrace.StepLawful` | nox/src/builtin/nox.cc:227-249 | an event that closes no self-managed switch keeps joins and leaves in agreement with the registry |
| `RegistryTrace.StepSelfManaged` | nox/src/builtin/nox.cc:1225-1278 | only a registration of that kind makes a self-managed switch and only closing it ends it |
| `RegistryTrace.ProperRunIsLawful` | nox/src/builtin/nox.cc:227-249 | if no switch names itself as its manager, joins and leaves of each id alternate at every point and end joined exactly for the registered ids |
| `RegistryTrace.ImproperRunBreaks` | nox/src/builtin/nox.cc:227-249 | once one has, the notices are wrong or become wrong when it is closed |
| `RegistryTrace.SelfManagedExample` | nox/src/builtin/nox.cc:230-238 | a self-managed switch joins as a datapath and leaves as a manager |
| `RegistryTrace.LawfulIffUnspoiled` | nox/src/builtin/nox.cc:227-249 | notices are right if and only if no event has closed a self-managed switch |
| `RegistryTrace.LawfulIffProper` | nox/src/builtin/nox.cc:227-249 | notices are right, and stay right when any one id is closed, if and only if no switch named itself as its manager |
| `RegistryTrace.FreedExactlyWhen` | nox/src/builtin/nox.cc:215-249 | one event deletes a connection if and only if it closes it while no poll is in flight or ends the last poll of a closing one |
| `RegistryTrace.LifetimesHold` | nox/src/builtin/nox.cc:215-249 | in every run nothing is deleted twice or while polled, and a closing connection lives only while polled |
| `PacketExpr.SupportedIffExact` | nox/src/lib/expr.cc:216-246 | the test of packets is agreement on every constrained field if and only if the rule passes the assertion |
| `PacketExpr.UnsupportedExample` | nox/src/lib/expr.cc:220-222 | a rule on the destination access point fails the assertion, and without it would match every packet |
| `PacketExpr.TestableIffHeaders` | nox/src/lib/expr.cc:216-246 | a rule can be tested against a packet if and only if it constrains only the eleven header fields |
| `PacketExpr.QueryCovers` | nox/src/lib/expr.cc:248-283 | an expression matches a rule if and only if it covers every packet that the rule covers |
| `PacketExpr.KeysOfPacket` | nox/src/lib/expr.cc:32-80 | a packet must not be asked for its destination access point alone, has a key for every header field and none for groups |
| `PacketExpr.KeysOfQuery` | nox/src/lib/expr.cc:82-91 | an expression can be asked for every field and has a key exactly for those it constrains |
| `PacketExpr.SameKey` | nox/src/lib/expr.cc:56-61 | values with the same key are equal, or are hardware addresses with the same last four octets |
| `PacketExpr.MatchHasKey` | nox/src/lib/expr.cc:32-80 | a rule that matches has the key of the data in every field it constrains, or the data has none |
| `CnodeTree.InsertSorted` | nox/src/include/cnode.hh:185-198 | inserting keeps the list sorted by priority |
| `CnodeTree.InsertAt` | nox/src/include/cnode.hh:185-198 | a rule goes behind exactly the rules of lower priority number, and the others keep their order |
| `CnodeTree.AddRuleBag` | nox/src/include/cnode.hh:216-255 | adding a rule adds exactly that rule to the tree |
| `CnodeTree.AddRulePlaced` | nox/src/include/cnode.hh:216-255 | and puts it where its expression belongs |
| `CnodeTree.AddRuleSifted` | nox/src/include/cnode.hh:216-255 | of the rules at or below a split, those on its own list stay exactly the ones that constrain no field beyond the path |
| `CnodeTree.RemoveBag` | nox/src/include/cnode.hh:289-306 | removing takes out exactly the rule with the identifier |
| `CnodeTree.RemovePlaced` | nox/src/include/cnode.hh:289-306 | and leaves all others in place |
| `CnodeTree.RemoveSifted` | nox/src/include/cnode.hh:289-306 | and at the same depth |
| `CnodeTree.RemoveOnto` | nox/src/include/cnode.hh:289-306 | every list position behind the removed rule, or on another list, stays a position of a list in the tree |
| `RuleNodes.AddPoints` | nox/src/include/cnode.hh:216-255 | the pointer of a new rule leads to the node that has it |
| `RuleNodes.AddKeeps` | nox/src/include/cnode.hh:216-255 | adding a rule leaves every other on the node its pointer leads to |
| `RuleNodes.RemoveKeeps` | nox/src/include/cnode.hh:289-306 | and so does removing one |
| `RuleNodes.RemoveAtIsRemove` | nox/src/include/classifier.hh:269-287 | removing a rule from the list of the node its pointer leads to removes it from the tree |
| `RuleNodes.SetNodePointersLead` | nox/src/include/cnode.hh:545-571 | a walk over a tree leads every pointer to a node that has its rule |
| `CnodeTree.Below` | nox/src/include/cnode.hh:713-755 | what is pushed for a node is smaller than the node, so traversals end |
| `CnodeTree.BelowIs` | nox/src/include/cnode.hh:713-755 | a traversal goes to the child for unconstrained rules and to exactly those others that have the key of the data, or to all if the data has none |
| `CnodeTree.UnanswerableExample` | nox/src/lib/expr.cc:45-46 | a tree split on the destination access point fails the assertion for every packet |
| `CnodeTree.TraversalCovers` | nox/src/include/cnode.hh:713-755 | a traversal meets every rule that matches exactly as often as the tree holds it, for packets and for expressions |
| `CnodeTree.VisitedWithin` | nox/src/include/cnode.hh:713-755 | and meets nothing that is not in the tree |
| `CnodeTree.BuildCorrect` | nox/src/include/cnode.hh:333-370 | building keeps the rules and their places, whatever field the heuristic chooses |
| `CnodeTree.BuildAllCorrect` | nox/src/include/cnode.hh:380-420 | the same for the children |
| `CnodeTree.AddRulesPlaced` | nox/src/include/cnode.hh:478-537 | splitting a node puts every rule where it belongs |
| `CnodeTree.BuildSplits` | nox/src/include/cnode.hh:478-537 | a leaf becomes a split on the field chosen if that can be split on and the path has not been, and stays as it is otherwise |
| `CnodeTree.BuildSettles` | nox/src/include/cnode.hh:333-420 | after a build no leaf anywhere is left for which the heuristic names a field to split on |
| `CnodeTree.BuildSifted` | nox/src/include/cnode.hh:333-420 | a build sends every rule down as far as the fields it constrains lead |
| `CnodeTree.FieldsSplitOn` | nox/src/include/expr.hh:67-68 | trees are split on the thirteen lowest fields alone |
| `CnodeResult.PassedPending` | nox/src/include/cnode-result.hh:144-160 | moving a cursor, with the last slot taking over an exhausted one, takes exactly one rule out of what is pending |
| `CnodeResult.SearchDelivers` | nox/src/include/cnode-result.hh:125-166 | a search delivers the pending matching rule of lowest priority number and loses no other; none exactly if none matches |
| `CnodeResult.SearchAborts` | nox/src/include/cnode-result.hh:133-152 | a search aborts only at a pending rule that fails the assertion |
| `CnodeResult.AbortExample` | nox/src/include/cnode-result.hh:137-137 | a single rule on the destination access point aborts the search for a packet |
| `CnodeResult.OrderDecides` | nox/src/include/cnode-result.hh:133-152 | with a rule that fires and a later one that fails the assertion, the order of their lists decides whether the search aborts |
| `CnodeResult.DrainedIsFilterSort` | nox/src/include/cnode-result.hh:125-166 | repeated searches abort exactly if some pending rule fails the assertion, and otherwise deliver every pending rule that matches, each as often as it is pending, sorted by priority, and no other |
| `CnodeResult.CnodeResult.constructor` | nox/src/include/cnode-result.hh:51-52 | a new result has no list |
| `CnodeResult.CnodeResult.SetData` | nox/src/include/cnode-result.hh:56-56 | the data is replaced and the lists stay; remembered matches are right for the new data exactly if those rules fire for it too |
| `CnodeResult.CnodeResult.Clear` | nox/src/include/cnode-result.hh:57-57 | no list is left |
| `CnodeResult.CnodeResult.Push` | nox/src/include/cnode-result.hh:101-114 | a list that is not empty is appended, into a stale slot if there is one |
| `CnodeResult.CnodeResult.Next` | nox/src/include/cnode-result.hh:125-166 | delivers the next matching rule in priority order, skipping only rules that do not match; aborts only if some pending rule fails the assertion, and does if no rule before it matches |
| `Classifier.CollectedInSync` | nox/src/include/classifier.hh:353-364 | after a traversal every rule of the tree that matches is pending once |
| `Classifier.DeletedInSync` | nox/src/include/classifier.hh:297-317 | deleting the rule just delivered keeps the pending rules in step with the tree |
| `Classifier.DeletedOnTree` | nox/src/include/classifier.hh:297-317 | and leaves every cursor on a rule that is still in the tree |
| `Classifier.DeletedThroughPointer` | nox/src/include/classifier.hh:269-287 | deleting through the node pointer keeps tree, identifiers and pointers in agreement |
| `Classifier.PointedWalk` | nox/src/include/cnode.hh:333-370 | after a build every rule has a pointer to the node that has it |
| `Classifier.QueryIsSafe` | nox/src/lib/expr.cc:82-91 | deleting by an expression meets no assertion |
| `Classifier.SupportedIsSafe` | nox/src/lib/expr.cc:216-246 | nor does a packet, if the rules constrain header fields alone and no node is split on the destination access point |
| `Classifier.FiringEnd` | nox/src/builtin/packet-classifier.cc:35-57 | when the priority changes, exactly the top rules have fired |
| `Classifier.Classifier.constructor` | nox/src/include/classifier.hh:105-110 | no rule, identifiers from 1 |
| `Classifier.Classifier.GetId` | nox/src/include/classifier.hh:169-193 | the first free identifier from the counter on, wrapping at 2^32-1; none if and only if all are taken |
| `Classifier.Classifier.AddRule` | nox/src/include/classifier.hh:200-227 | the rule is held under a new identifier and every other rule stays; fails exactly if no identifier is free |
| `Classifier.Classifier.DeleteRule` | nox/src/include/classifier.hh:269-287 | through the node pointer, removes exactly the rule with the identifier and tells whether there was one |
| `Classifier.Classifier.BuildTree` | nox/src/include/classifier.hh:323-331 | the tree changes shape, the rules stay, and their pointers follow |
| `Classifier.Classifier.GetRules` | nox/src/include/classifier.hh:353-364 | adds to the result every list the data leads to, and terminates; aborts exactly at a node that asks a packet for its destination access point |
| `Classifier.Classifier.Traverse` | nox/src/include/cnode.hh:713-755 | the list of the node goes to the result and the nodes below it onto the stack, unless the field may not be asked for |
| `Classifier.Classifier.NodesBelow` | nox/src/include/cnode.hh:726-754 | the child for unconstrained rules and the child for the key; all children if the data has no key |
| `Classifier.Classifier.DeleteRules` | nox/src/include/classifier.hh:297-317 | deletes exactly the rules that match, which `SupportedIffExact` and `QueryCovers` tie to the packets covered, and returns how many; aborts exactly if the traversal meets a rule or a node that fails an assertion |
| `Classifier.Classifier.HandlePacketIn` | nox/src/builtin/packet-classifier.cc:35-57 | fires exactly the matching rules of lowest priority number, each once, and leaves the result empty; aborts only if the traversal meets a rule or a node that fails an assertion, and does unless only rules do and some rule that fires without being a top one comes no later than any of them; what has fired before an abort are top rules |
| `Clip.ClipYMinExact` | frontend/www/js_templates/yui.flot.js:1333-1346 | the lower edge leaves exactly the points on or above it |
| `Clip.ClipYMaxExact` | frontend/www/js_templates/yui.flot.js:1348-1360 | the upper edge leaves exactly the points on or below it |
| `Clip.ClipXMinExact` | frontend/www/js_templates/yui.flot.js:1362-1374 | the left edge leaves exactly the points on or right of it |
| `Clip.ClipXMaxExact` | frontend/www/js_templates/yui.flot.js:1376-1388 | the right edge leaves exactly the points on or left of it |
| `Clip.ClippedExact` | frontend/www/js_templates/yui.flot.js:1330-1388 | the four together leave exactly the intersection with the rectangle, and nothing exactly if they do not meet |
| `PlotLine.CanvasRoundTrip` | frontend/www/js_templates/yui.flot.js:605-614 | canvas and data coordinates are inverse to each other on both axes |
| `PlotLine.PlaceCorners` | frontend/www/js_templates/yui.flot.js:605-614 | the top left of the axes goes to the offset, and the bottom right a scaled range to the right and below |
| `PlotLine.PlaceRoundTrip` | frontend/www/js_templates/yui.flot.js:605-614 | every data point is found again from its place on the canvas |
| `PlotLine.PlaceUpright` | frontend/www/js_templates/yui.flot.js:605-614 | to the right stays to the right and up stays up |
| `PlotLine.PlacedOn` | frontend/www/js_templates/yui.flot.js:605-614 | placing a segment places exactly its points |
| `PlotLine.MoveElided` | frontend/www/js_templates/yui.flot.js:1390-1395 | a move to where the pen already is changes no stroke |
| `PlotLine.Draw` | frontend/www/js_templates/yui.flot.js:1319-1398 | the strokes are those of the clipped pairs of neighbouring points, gaps included, on the canvas, and the pen is never moved to where it already is |
| `PlotLine.StrokeAtExact` | frontend/www/js_templates/yui.flot.js:1326-1395 | one pair inks exactly the placed points of its line that the axes show |
| `PlotLine.LineExact` | frontend/www/js_templates/yui.flot.js:1319-1398 | the whole line inks exactly the polyline of the data as far as the axes show it |
| `PlotArea.OutlineTraces` | frontend/www/js_templates/yui.flot.js:1466-1533 | the vertices trace exactly the segment with its y values clamped, one way |
| `PlotArea.OutlineOfSegment` | frontend/www/js_templates/yui.flot.js:1426-1533 | the same after the cut to the x range, inside the axes |
| `PlotArea.ClosedBelowLastVertex` | frontend/www/js_templates/yui.flot.js:1535-1541 | the area is closed straight below its last vertex if and only if the segment runs to the right, is wholly above or below the y range, or ends in it |
| `PlotArea.ClosedElsewhereExample` | frontend/www/js_templates/yui.flot.js:1535-1535 | a segment to the left that leaves the y range at the top is closed elsewhere |
| `PlotArea.AreaSegment` | frontend/www/js_templates/yui.flot.js:1426-1535 | for one pair of points: no vertices exactly if the x axis shows no point, otherwise the outline and where it would be closed |
| `PlotAreas.OutlineMeets` | frontend/www/js_templates/yui.flot.js:1431-1533 | an outline starts and ends where the axes put the two data points, so neighbouring outlines share a vertex or a side of the axes |
| `PlotAreas.PlacedPath` | frontend/www/js_templates/yui.flot.js:605-614 | a path on the canvas goes through exactly the placed points of the path |
| `PlotAreas.DrawArea` | frontend/www/js_templates/yui.flot.js:1400-1542 | over the whole series the outlines pass through every shown point of the data, clamped, and otherwise only along the sides of the axes; each area strings together all outlines between two gaps in the order of the data, goes up from the bottom and down to it, straight down exactly as its last drawn segment allows, and is placed on the canvas |
| `Words.WordRange` | nox/src/include/bitmap.hh:68-68 | a word has 64 bits |
| `Words.AndBit` | nox/src/include/bitmap.hh:123-133 | the bits of a conjunction |
| `Words.OrBit` | nox/src/include/bitmap.hh:135-141 | the bits of a disjunction |
| `Words.NotBit` | nox/src/include/bitmap.hh:98-102 | the bits of a complement |
| `Words.Pow2Bit` | nox/src/lib/bitmap.cc:23-38 | the k-th part value has bit k and no other |
| `Words.HasBitIsBit` | nox/src/include/bitmap.hh:81-85 | a word masked with a part value is not zero if and only if it has the bit |
| `Words.SameBits` | nox/src/include/bitmap.hh:110-121 | words with the same bits are equal |
| `Bitmap.DataLen` | nox/src/include/bitmap.hh:165-168 | the fewest words that hold the bits |
| `Bitmap.StoredSet` | nox/src/include/bitmap.hh:104-108 | one write of 1 adds one index and changes no other |
| `Bitmap.StoredClear` | nox/src/include/bitmap.hh:98-102 | one write of 0 removes one index and changes no other |
| `Bitmap.StoredSame` | nox/src/include/bitmap.hh:110-121 | equal words are equal sets |
| `Bitmap.Bitmap.constructor` | nox/src/include/bitmap.hh:39-39 | storage of the right length, contents not determined |
| `Bitmap.Bitmap.Copy` | nox/src/include/bitmap.hh:41-45 | a copy has storage of its own and the same bits |
| `Bitmap.Bitmap.IsSet` | nox/src/include/bitmap.hh:81-85 | whether the index is a member |
| `Bitmap.Bitmap.Set0` | nox/src/include/bitmap.hh:98-102 | removes the index and nothing else |
| `Bitmap.Bitmap.Set1` | nox/src/include/bitmap.hh:104-108 | adds the index and nothing else |
| `Bitmap.Bitmap.Set` | nox/src/include/bitmap.hh:87-96 | adds or removes the index as told |
| `Bitmap.Bitmap.Equals` | nox/src/include/bitmap.hh:110-121 | true if and only if sizes and stored bits, those past the end included, agree; then the members agree |
| `Bitmap.Bitmap.AndWith` | nox/src/include/bitmap.hh:123-133 | intersection of the stored bits for all sizes, also with itself; of the members exactly if no stray bit of the other is met |
| `Bitmap.Bitmap.OrWith` | nox/src/include/bitmap.hh:135-141 | union, cut at the end of this bitmap; of the members for equal sizes |
| `Bitmap.StrayBitExample` | nox/src/include/bitmap.hh:135-141 | a union with a longer bitmap leaves a stray bit past the end |
| `Bitmap.StrayBitMet` | nox/src/include/bitmap.hh:123-133 | intersecting with a bitmap that stores a stray bit keeps an index that it does not hold, so the result is not the intersection |
| `Bitmap.Bitmap.Get0Indices` | nox/src/include/bitmap.hh:143-152 | the indices that are not members, ascending |
| `Bitmap.Bitmap.Get1Indices` | nox/src/include/bitmap.hh:154-163 | the members, ascending |

## Left out

- Kernel: contexts and deployers are records kept by name, so pointer identity is not modelled; `nox/src/builtin/static-deployer.cc` and `nox/src/builtin/dso-deployer.cc` differ only in where the descriptions come from.
- Kernel: a state whose vector was never created counts as an empty vector; the source would follow a null pointer there, for instance when the only component fails at its first action.
- Kernel: an install action either succeeds or puts its component into ERROR; actions that call the kernel back, attached deployers, arguments, the info file, the UUID and the status listing are not modelled.
- Kernel: `Explain` gives the structure of an error message, not its text and indentation.
- Handshake.HandshakeFsm.HandleVendor: does not model the reassembly of extended data, which rests on wire-level encodings.
- Handshake.HandshakeFsm.RecvMessage: likewise; the contents of echo replies, byte order and the text of log messages are not modelled either.
- Handshake: a resources update too short for its header, connectors and threads are not modelled; the authenticator answers at most once per question and not after the machine is gone.
- Registry: connection objects sit in a table so that deleting them is visible; the event dispatcher, the poll loop and the decoding of messages are reduced to which polls are in flight and what was posted.
- Classifier: the tree is a value and not a graph of nodes updated in place, and the pointer from a rule to its node is the way to that node from the root, set for the whole tree after a build; copying before a build and clean-up after exceptions are not captured, and hash buckets are one list of children.
- Classifier: the choice of the field to split on is an arbitrary function; `unbuild`, `clean`, `change_rule_priority` and `reset` would add only easy members.
- Classifier: actions that change the classifier while a packet is dispatched are not modelled.
- Classifier.Classifier.HandlePacketIn: does not state the order among rules of equal priority, because the source promises none, and says of an abort when it can and when it must happen; in between (a rule that fires without being a top one comes no later than any rule that fails the assertion) it depends on the order in which the lists are looked at.
- Plotting: coordinates are real numbers, so rounding is not modelled; nor are axes, ticks, legends, bars, points and the canvas itself.
- Bitmap: a 64-bit word is a number below 2^64 with bitwise operations defined on its binary digits; the `int` loop counters of the source are not bounded, so bitmaps of 2^31 bits and more are treated like smaller ones.
- The applications, the Python bindings, the packet parsers, the storage and the rest of the front end are not part of this model.
