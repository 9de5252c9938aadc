# Verified model of the Rack MCP bridge

The repository lets a client edit a live modular-synth patch: a TypeScript server speaks to
the client, and a C++ plugin, over a loopback bridge, does the editing. This project models
the parts of both that decide something - what the patch graph means, which edit is allowed
and how it is disclosed, who may write, how bytes are framed and signed, how often and how
many times a thing may happen - and proves what the code promises about them, for all inputs,
all plans, all runs or all interleavings. Check it with `dafny verify dfyconfig.toml`
(Dafny 4.11).

Code that changes state in place is modelled by methods and classes that change state in
place; each is proved against a function on values, and the properties are proved about that
function. Concurrent protocols are step systems, one lock-protected or atomic action a step.

| file | models |
|---|---|
| `Basics.dfy` | what several modules share: optional values, lists without repeats |
| `Graph.dfy` | patches, walks and reachability, defined without reference to any algorithm |
| `CycleSearch.dfy` | the iterative Tarjan search for feedback modules |
| `LongestPath.dfy` | the iterative longest-path search with its memo |
| `SignalFlow.dfy` | reverse reachability and the description of a destination |
| `Seqlock.dfy`, `Queues.dfy` | the lock-free telemetry buffer and the bounded queue |
| `DecimalIds.dfy`, `Layout.dfy`, `Plan.dfy` | ids, panel geometry, cable and Bridge accounting, the risk verdict |
| `Validate.dfy`, `PreviewState.dfy` | validation of a plan into a preview, as functions and in place |
| `PlanRules.dfy`, `PlanChanges.dfy` | when each operation is accepted, what each refusal complains of and what each acceptance changes, told from the snapshot |
| `PlanProperties.dfy`, `PlanSafety.dfy`, `PlanFlags.dfy` | what every accepted plan satisfies, and its risk verdict flag by flag |
| `Commit.dfy`, `CommitProperties.dfy`, `CommitTop.dfy` | applying a plan, how that relates to its preview, and where a "top" makes them differ |
| `CommitEffects.dfy`, `CommitSucceeds.dfy` | exactly what a commit leaves, and exactly when it goes through |
| `Lease.dfy`, `Bridge.dfy`, `BridgeSafety.dfy`, `BridgeOutcomes.dfy`, `Service.dfy` | the writer lease, the request protocol, the command pump, and why each reply is what it is |
| `OpCache.dfy` | the idempotency cache |
| `Framing.dfy`, `Sha256.dfy`, `ShaConstants.dfy`, `Hex.dfy` | the frame codecs, SHA-256 and HMAC, where its constants come from, hex |
| `RateLimit.dfy` | the sliding-window limit on parameter changes |
| `LoadTokens.dfy` | single-use confirmation of loads, clears and restores |
| `Telemetry.dfy`, `Probe.dfy`, `ProbeRuns.dfy` | probe statistics over windows of samples, and over whole runs of ticks and rate changes |

## What is assumed

- Clocks do not go back, and a lock-protected call reads the clock in the step in which it holds the lock.
- Drawn ids (lease ids, token ids, the engine's ids for new modules and cables) are new when drawn.
- A confirmation token's signature is genuine or it is not; a request's fingerprint tells any two different requests apart.
- Samples, voltages and panel coordinates are real numbers; rounding is not modelled. An infinite panel size is a case of its own.
- The atomic operations of the telemetry buffer are sequentially consistent; its fences are not modelled.
- JSON is already parsed: operations, requests and frames are datatypes. A field that is absent or unreadable is a case of that datatype.
- In a snapshot, module ids, cable ids and the module ids of panels are distinct and not negative.
- The patch a plan is committed to is the one its preview looked at, with cables in the same order; a commit checks this by fingerprint.
- The plugin is stopped between frames of its UI thread, not while that thread carries out a command.
- Ids, paths and names that are only compared are abstract types or type parameters.

## Where the code and its documentation differ

- `plugins/RackMCP/src/core/queues.hpp:115` says a read fails when nothing has been published yet. The 32-bit counter also returns to zero after 2^31 publishes, and reads then fail until the next one: `Seqlock.FirstLoadOutcome` gives the exact condition, `Seqlock.WrapHidesPublishes` an instance.
- `plugins/RackMCP/src/core/framing.hpp:32` bounds the buffered bytes by one frame. That is the bound after draining (`Framing.Residue`); a push admits up to two. `Framing.PushedBound` says for every residue and chunk when the bound holds in between, and `Framing.PushPastOneFrame` breaks it by one byte at every cap from 1 to 2^32-1.
- `plugins/RackMCP/src/core/validate.cpp:339` says the preview of a disconnect_port lists exactly what the commit removes. For policy "top" on a port where the plan itself put a cable last, the commit takes the plan's cable and leaves the disclosed one: `CommitTop.TopTakesThePlansCable` is such a plan. `CommitProperties.ExactIffEveryTopSees` gives the exact condition for whole plans, and `CommitTop.UntouchedPlanIsExact` one that needs the plan alone. Nothing undisclosed is ever taken (`CommitProperties.CommitTakesOnlyDisclosed`).
- `plugins/RackMCP/src/core/telemetry.hpp:53` keeps the gate across windows so that no edge counts twice, and none is lost where one window ends and the next begins. But a change of sample rate begins a new window without publishing the old one (`plugins/RackMCP/src/rackside/ProbeModule.cpp:33-39`), and the edges in it are reported nowhere: `ProbeRuns.NoEdgeLostIff` gives the exact condition, `ProbeRuns.RateChangeLosesAnEdge` an instance.
- `plugins/RackMCP/src/core/validate.cpp:213-215` takes care that no preview rejects a plan that would have committed. The other way round an accepted plan need not commit, even if the engine fails nothing: `CommitSucceeds.RemovedTwice` is such a plan, and `CommitSucceeds.CommitSucceedsIff` gives the exact condition.
- A cable whose end is no declared module hides a cycle from the feedback search: `CycleSearch.ModulesInCycles` states the answer for every snapshot, and that it is exact when endpoints resolve.

## Model

| member | source | states |
|---|---|---|
| CycleSearch.ModulesInCycles | apps/mcp-server/src/analysis.ts:155-212 | the loop ends, and returns exactly the modules with a cable into themselves or a cable path back to themselves; exact over all cables when every endpoint resolves |
| CycleSearch.BuildAdjacency | apps/mcp-server/src/analysis.ts:156-162 | the adjacency lists hold exactly the cables between declared modules, and the self-loop set exactly the modules cabled to themselves |
| CycleSearch.TurnKeeps | apps/mcp-server/src/analysis.ts:179-209 | every turn of the work loop keeps the Tarjan invariant: low links are reachable, unfinished ones reach their root, finished components are answered |
| CycleSearch.TurnProgress | apps/mcp-server/src/analysis.ts:179-209 | every turn discovers a module or leaves less to look at, so the loop ends |
| CycleSearch.PopAnswers | apps/mcp-server/src/analysis.ts:195-204 | when a root is popped its component is a whole strongly connected component, and is marked exactly if it has more than one module |
| CycleSearch.FinalAnswer | apps/mcp-server/src/analysis.ts:163-211 | when all modules are indexed the marked set is the set of modules on a cycle |
| CycleSearch.DanglingCableHidesCycle | apps/mcp-server/src/analysis.ts:157-162 | a patch with a cable to an undeclared module in which a cycle is not found |
| LongestPath.LongestCablePathTo | apps/mcp-server/src/analysis.ts:101-130 | ends, pushing each module at most once; the path ends at the destination, repeats no module and follows real cables; on every patch it starts where nothing feeds in that is not on a loop with its start, and no path to the destination without feedback cables is longer; on an acyclic patch no path at all is |
| LongestPath.FinishedFrame | apps/mcp-server/src/analysis.ts:120-127 | a finished frame's path is simple and real, starts at a source up to loops, and is at least as long as every path to its module without feedback cables |
| LongestPath.AcyclicForward | apps/mcp-server/src/analysis.ts:94-100 | without a cycle no cable is a feedback cable, so the path is the longest |
| SignalFlow.BuildIncoming | apps/mcp-server/src/analysis.ts:217-220 | the incoming lists hold exactly the cables into each module |
| SignalFlow.ModulesFeeding | apps/mcp-server/src/analysis.ts:231-239 | the ancestors are exactly the modules with a cable path to a start, the starts included |
| SignalFlow.ModulesFeedingDestinations | apps/mcp-server/src/analysis.ts:133-149 | exactly the modules from which a cable path leads to an audio destination |
| SignalFlow.DescribeDestination | apps/mcp-server/src/analysis.ts:228-255 | every joined pair inside the ancestor set is told exactly once, as a step of the headline path or as one extra edge, and nothing else is told |
| SignalFlow.Extras | apps/mcp-server/src/analysis.ts:245-255 | the extra edges are exactly the joined pairs inside the ancestors that are not steps of the path, each once |
| SignalFlow.PathKeys | apps/mcp-server/src/analysis.ts:242-243 | the keys recorded are exactly those of the path's steps |
| SignalFlow.PairKeyInjective | apps/mcp-server/src/analysis.ts:251-253 | two pairs of module ids share a text key only if they are the same pair |
| SignalFlow.PairKeyAmbiguousWithoutShape | apps/mcp-server/src/analysis.ts:251-253 | ids of another shape could share a key, so the id shape is needed |
| Seqlock.ReadIsLatestPublish | plugins/RackMCP/src/core/queues.hpp:104-130 | linearizability: in every interleaving of word-by-word copies, a read that succeeds returns, untorn, the latest publish completed at its second counter load, unless 2^31 or more publishes overlapped it |
| Seqlock.RecheckFailsIffOverlapped | plugins/RackMCP/src/core/queues.hpp:117-128 | an attempt's second load succeeds exactly if no publish is under way and the number completed since the first load is a multiple of 2^31; short of that many, exactly if no publish overlapped the attempt |
| Seqlock.ReadFailsExactly | plugins/RackMCP/src/core/queues.hpp:116-130 | in every interleaving, a whole read that returns comes back with nothing if and only if an attempt's first look found the publish count at a multiple of 2^31, or publishes spoiled all 1000 attempts |
| Seqlock.FirstLoadOutcome | plugins/RackMCP/src/core/queues.hpp:118-122 | an attempt's first load retries exactly during a publish, and reports an empty buffer exactly when the number of publishes is a multiple of 2^31 |
| Seqlock.WrapHidesPublishes | plugins/RackMCP/src/core/queues.hpp:118-120 | a reachable state, after 2^31 publishes, in which a read reports an empty buffer |
| Seqlock.LappedReadIsStale | plugins/RackMCP/src/core/queues.hpp:117-128 | a reachable state in which exactly 2^31 overlapping publishes make a read return a stale value, so the bound is tight |
| Seqlock.StepKeeps | plugins/RackMCP/src/core/queues.hpp:104-130 | every step of the writer or a reader keeps the invariant on counter, slots and partial copies |
| Queues.TelemetrySnapshotBuffer.Publish | plugins/RackMCP/src/core/queues.hpp:104-113 | stores the value in the slot readers are not sent to, and makes it the latest publish |
| Queues.TelemetrySnapshotBuffer.ReadAttempt | plugins/RackMCP/src/core/queues.hpp:116-130 | an undisturbed attempt returns the latest value, and fails exactly when the publish count is a multiple of 2^31 |
| Queues.BoundedQueue.TryPush | plugins/RackMCP/src/core/queues.hpp:25-34 | succeeds exactly when neither closed nor full, and then appends and keeps the depth mark |
| Queues.BoundedQueue.TryPop | plugins/RackMCP/src/core/queues.hpp:37-44 | takes the oldest item, or fails on an empty queue |
| Queues.BoundedQueue.Close | plugins/RackMCP/src/core/queues.hpp:60-64 | later pushes fail, and what is queued stays |
| DecimalIds.ParseDecimalId | plugins/RackMCP/src/core/plan.cpp:42-70 | computes the parse without the accumulator ever leaving the signed 64-bit range |
| DecimalIds.ParsesExactlyNumerals | plugins/RackMCP/src/core/plan.cpp:42-70 | the texts that parse are exactly the canonical numerals of 0 to 2^63-1, each to its own number |
| Layout.IntersectsIffSharedPoint | plugins/RackMCP/src/core/layout.cpp:22-28 | panels of positive size overlap exactly when they share a point; shared edges do not count |
| Layout.PositionFree | plugins/RackMCP/src/core/layout.cpp:53-71 | a place is free exactly when it is clear of every other panel as the plan leaves them |
| Layout.MoveKeepsNoOverlaps | plugins/RackMCP/src/core/layout.cpp:53-71 | moving a panel to a free place keeps all panels apart |
| Plan.CablesOnModule | plugins/RackMCP/src/core/plan.cpp:320-332 | lists, in cable order, the cables on a module that are not already removed |
| Plan.CablesOnPort | plugins/RackMCP/src/core/plan.cpp:334-351 | the same for one port |
| Plan.OnModuleIs | plugins/RackMCP/src/core/plan.cpp:320-332 | an id is listed exactly if it is not removed and belongs to a cable touching the module |
| Plan.OnPortIs | plugins/RackMCP/src/core/plan.cpp:334-351 | the same for one port |
| Plan.FindModule | plugins/RackMCP/src/core/plan.cpp:418-423 | the first snapshot module with the id, if any |
| Plan.FindWidget | plugins/RackMCP/src/core/plan.cpp:425-430 | the first panel of the module, if any |
| Plan.FindCable | plugins/RackMCP/src/core/plan.cpp:432-437 | whether some snapshot cable has the id |
| Plan.RemainingBridgeCount | plugins/RackMCP/src/core/plan.cpp:17-31 | counts the Bridges that outlive the removals |
| Plan.BridgesLeftPositive | plugins/RackMCP/src/core/plan.cpp:17-31 | the count is positive exactly if some Bridge is not removed |
| Plan.OneRemoval | plugins/RackMCP/src/core/plan.cpp:17-31 | one more removal lowers the count by at most one, and not at all if it removes no Bridge |
| Plan.ComputeRisk | plugins/RackMCP/src/core/plan.cpp:360-416 | lists exactly the raised flags in order; asks for confirmation exactly when something is taken away or randomised; is "high" exactly for a Bridge |
| PreviewStates.PreviewState.ValidateOne | plugins/RackMCP/src/core/validate.cpp:68-378 | checks one operation and changes the preview in place exactly as its meaning on values says, refusals included |
| PreviewStates.PreviewState.RemoveCable | plugins/RackMCP/src/core/validate.hpp:79-82 | records a removed cable once |
| PreviewStates.PreviewState.CableRemoved | plugins/RackMCP/src/core/validate.hpp:83-88 | whether the plan has listed the cable as removed |
| PreviewStates.PreviewState.ModuleRemoved | plugins/RackMCP/src/core/validate.hpp:89-94 | whether the plan has removed the module |
| PreviewStates.PreviewState.InputClaimed | plugins/RackMCP/src/core/validate.hpp:95-100 | whether an earlier operation took the input |
| PreviewStates.PreviewState.AddModuleOp | plugins/RackMCP/src/core/validate.cpp:82-105 | declares an alias under a new negative id, or refuses with the code's error; marks the layout uncertain |
| PreviewStates.PreviewState.RemoveModuleOp | plugins/RackMCP/src/core/validate.cpp:107-149 | refuses the last Bridge as the plan leaves it, or attached cables the policy keeps; otherwise lists the module and its cables |
| PreviewStates.PreviewState.TweakOp | plugins/RackMCP/src/core/validate.cpp:151-183 | records a modified module, after the parameter bounds for set_parameter |
| PreviewStates.PreviewState.MoveModuleOp | plugins/RackMCP/src/core/validate.cpp:185-230 | refuses only an occupied place in a layout known exactly; records the place or the uncertainty |
| PreviewStates.PreviewState.ConnectOp | plugins/RackMCP/src/core/validate.cpp:232-301 | checks both ends, then the input's occupants by policy; lists replaced cables and claims the input |
| PreviewStates.PreviewState.DisconnectOp | plugins/RackMCP/src/core/validate.cpp:303-322 | lists an existing cable that is not removed yet, and refuses any other |
| PreviewStates.PreviewState.DisconnectPortOp | plugins/RackMCP/src/core/validate.cpp:324-365 | lists the cables on the port, all or the last, as the policy says |
| PreviewStates.PreviewPlan | plugins/RackMCP/src/rackside/Transaction.cpp:283-293 | folds validation over a plan and stops at the first refusal |
| PlanRules.VerdictIs | plugins/RackMCP/src/core/validate.cpp:68-378 | for every operation, world and plan so far: accepted if and only if the module, port, parameter or cable it names stands, the last-Bridge, attached-cable and occupied-input policies allow it and the place is free; refused with each error code if and only if that code's complaint holds |
| PlanRules.ConnectRuled | plugins/RackMCP/src/core/validate.cpp:232-301 | a connect is accepted if and only if both ends stand and have their ports, and the input holds no standing snapshot cable and no earlier claim unless it replaces; VALIDATION_FAILED and UNSUPPORTED_OPERATION exactly for "fail" and "stack" onto an occupied input |
| PlanRules.RemoveRuled | plugins/RackMCP/src/core/validate.cpp:107-149 | a removal is accepted if and only if another Bridge stands or is not needed, and no standing cable is attached if it is to fail on one |
| PlanRules.LastBridgeIs | plugins/RackMCP/src/core/validate.cpp:119-136 | the Bridge count is at most one exactly if no other Bridge stands |
| PlanChanges.ChangesAre | plugins/RackMCP/src/core/validate.cpp:82-365 | an accepted operation changes the preview in exactly the ways told: which cables it lists, the module it removes, the input it claims or replaces, the alias, the place, the records and the risk notes |
| PlanChanges.PlanAcceptedIff | plugins/RackMCP/src/rackside/Transaction.cpp:283-293 | a plan is accepted exactly if each of its operations is allowed after those before it |
| PlanChanges.ListedExactly | plugins/RackMCP/src/core/validate.cpp:107-365 | over a whole accepted plan the cables listed as removed are those its operations list at their turns, and no others |
| PlanChanges.RemovedExactly | plugins/RackMCP/src/core/validate.cpp:107-149 | over a whole accepted plan a module is removed exactly if some remove_module names it |
| PlanChanges.GentlePlan | plugins/RackMCP/src/core/validate.cpp:138-148 | in an accepted plan whose connects do not replace, no input is replaced, no connect lists a cable, and no removal that is to fail on attached cables lists one |
| PlanChanges.NotesAreExact | plugins/RackMCP/src/core/validate.cpp:82-365 | from the plan and the snapshot alone: audio is touched exactly if some operation is about an audio interface, an adapter is uncertain exactly if a third-party module is added, and no accepted plan misses a model |
| PlanFlags.FlagsAreExact | plugins/RackMCP/src/core/plan.cpp:360-416 | for every accepted plan, each flag of its risk verdict is raised if and only if what the flag says is true of the plan and the snapshot |
| PlanFlags.ReplacedIff | plugins/RackMCP/src/core/validate.cpp:270-301 | some input is replaced exactly if some connect, at its turn, finds a standing cable on it |
| PlanProperties.PlanDiscloses | plugins/RackMCP/src/core/validate.cpp:68-365 | after any accepted prefix: removed modules and cables are snapshot entities listed once; every cable on a removed module or a claimed input is listed; replaced inputs are distinct; aliases stand for distinct negative ids |
| PlanProperties.StepDiscloses | plugins/RackMCP/src/core/validate.cpp:107-365 | every single operation, accepted or refused, keeps that disclosure |
| PlanSafety.ABridgeSurvives | plugins/RackMCP/src/core/validate.cpp:119-146 | an accepted plan that never sets allowLastBridge leaves some Bridge unremoved if there was one |
| PlanSafety.PlanKeepsBridge | plugins/RackMCP/src/core/plan.cpp:17-31 | the same, by the count the code takes |
| PlanSafety.VerdictIsExact | plugins/RackMCP/src/core/plan.cpp:360-416 | an accepted plan asks for confirmation exactly if it removes a snapshot module or cable or randomises; the Bridge flag is raised exactly if a Bridge is removed |
| PlanSafety.PlanKeepsLayout | plugins/RackMCP/src/core/validate.cpp:185-230 | after an accepted plan that adds nothing and moves only with policy "fail", panels that were apart are still apart, and keep their sizes |
| PlanSafety.PlacedWhereAsked | plugins/RackMCP/src/core/validate.cpp:202-225 | the planned place of each panel is the one its last accepted move asked for, and unmoved panels have none |
| CommitProperties.CommitTakesOnlyDisclosed | plugins/RackMCP/src/rackside/Transaction.cpp:430-879 | whatever ids and places the engine chooses, a successful commit leaves every snapshot module and cable that the preview did not list as removed; what it adds is in CommitEffects |
| CommitProperties.CommitTakesAllDisclosed | plugins/RackMCP/src/rackside/Transaction.cpp:430-879 | if every "top" that lists a cable finds a cable of the snapshot's last on its port, a successful commit takes away everything the preview listed |
| CommitProperties.StepExactIff | plugins/RackMCP/src/rackside/Transaction.cpp:749-879 | from an exact preview, any accepted operation keeps it exact if and only if it is no "top" that takes a cable of the plan's own instead of the one listed |
| CommitProperties.ExactIffEveryTopSees | plugins/RackMCP/src/rackside/Transaction.cpp:430-879 | for every plan and every choice of the engine: each prefix of the commit removes exactly what its preview lists if and only if every "top" that lists a cable sees one of the snapshot's last on its port |
| CommitTop.NoConnectBeforeTopSees | plugins/RackMCP/src/rackside/Transaction.cpp:832-861 | if no "top" follows a connect onto the port it names, every "top" sees a cable of the snapshot's, whatever the world and the engine |
| CommitTop.UntouchedPlanIsExact | plugins/RackMCP/src/core/validate.cpp:339-364 | the preview of such a plan is exact after every prefix: a condition a client can look up in the plan before it asks for the commit |
| CommitTop.TopTakesThePlansCable | plugins/RackMCP/src/rackside/Transaction.cpp:832-861 | a plan of a connect and a "top" whose preview lists the snapshot's cable and whose commit succeeds and leaves that cable |
| CommitProperties.NoConfirmationNoLoss | plugins/RackMCP/src/core/plan.cpp:360-416 | if a plan needs no confirmation, every snapshot module and cable survives its commit and it randomises nothing |
| CommitProperties.CommitKeepsABridge | plugins/RackMCP/src/rackside/Transaction.cpp:863-879 | a plan that never sets allowLastBridge leaves a Bridge in the committed patch if there was one |
| CommitProperties.TakenDisclosed | plugins/RackMCP/src/rackside/Transaction.cpp:749-879 | every snapshot cable that one applied operation takes is among those its validation lists |
| CommitEffects.ModulesExact | plugins/RackMCP/src/rackside/Transaction.cpp:487-586 | after every plan that commits the modules are exactly the snapshot's and the one of each add_module, less those a remove_module meant, names told from the plan alone |
| CommitEffects.CablesExact | plugins/RackMCP/src/rackside/Transaction.cpp:749-879 | after every plan that commits the cables are exactly the snapshot's and those each connect made between the modules and ports it named, less those a later operation takes, for each operation told which |
| CommitEffects.MeansIs | plugins/RackMCP/src/rackside/Transaction.cpp:420-425 | a reference resolves to a module exactly if it is its numeral, or the alias under which the last such add_module made it |
| CommitSucceeds.CarriedOutIff | plugins/RackMCP/src/rackside/Transaction.cpp:427-879 | an accepted operation that the engine does not fail is carried out if and only if its target is not a plan-made module removed again, no "fail" policy meets a cable of the plan's own or one listed but still there, and no field is unreadable that the preview reads only for snapshot modules |
| CommitSucceeds.CommitSucceedsIff | plugins/RackMCP/src/rackside/Transaction.cpp:427-461 | for every accepted plan and every choice of the engine the commit goes through if and only if every operation is carried out so |
| CommitSucceeds.PlainPlanCommits | plugins/RackMCP/src/rackside/Transaction.cpp:427-461 | an accepted plan without removals by alias, "fail" removals, "top" or unreadable fields commits exactly if the engine fails none of its operations |
| CommitSucceeds.RemovedTwice | plugins/RackMCP/src/rackside/Transaction.cpp:863-879 | a plan that removes its own module twice: the preview accepts it, and no commit of it goes through |
| Lease.LeaseManager.Acquire | plugins/RackMCP/src/core/lease.cpp:6-25 | refused while another connection's lease is live; refreshed for the same connection; otherwise a new lease |
| Lease.LeaseManager.Renew | plugins/RackMCP/src/core/lease.cpp:27-36 | extends exactly a live lease of this connection and id |
| Lease.LeaseManager.Release | plugins/RackMCP/src/core/lease.cpp:38-44 | clears exactly the lease of this connection and id, live or expired |
| Lease.LeaseManager.OnDisconnect | plugins/RackMCP/src/core/lease.cpp:46-50 | clears the lease of the connection that went |
| Lease.LeaseManager.IsWriter | plugins/RackMCP/src/core/lease.cpp:52-55 | true exactly for the connection of a live lease |
| Lease.LeaseManager.HolderAt | plugins/RackMCP/src/core/lease.cpp:57-63 | the holder, with an expired one counting as none |
| Lease.OneWriter | plugins/RackMCP/src/core/lease.cpp:52-55 | at any moment at most one connection is the writer |
| Lease.ReplyIsTrue | plugins/RackMCP/src/core/service.cpp:458-502 | the reply to a lease request is true of the state it leaves: granted or extended means the connection holds that lease, a refused acquire that another connection's live lease stands, a refused renewal that the named lease is not held |
| Lease.ServedHeldBefore | plugins/RackMCP/src/core/lease.cpp:6-44 | no lease request revives a lease: one that holds after it held before, or is newly drawn |
| Lease.HoldsAfter | plugins/RackMCP/src/core/lease.cpp:6-44 | who holds what, and until when, after each lease request: a grant, a refresh and a renewal give exactly the lifetime from now, a release ends exactly the lease it names, anything else stays as it was |
| Lease.HoldsAfterDrop | plugins/RackMCP/src/core/lease.cpp:46-50 | when a connection goes, exactly its lease goes |
| BridgeSafety.WriterThroughout | plugins/RackMCP/src/rackside/CommandPump.cpp:59-69 | in every interleaving, a mutating command that passes the re-check was checked by its own session, and from that check on its connection held that very lease without a break and was the only writer |
| BridgeSafety.HeldSince | plugins/RackMCP/src/core/lease.cpp:6-63 | a lease that holds now has held at every step since it was drawn |
| BridgeSafety.SettledExactlyOnce | plugins/RackMCP/src/core/service.cpp:350-456 | in every interleaving each request with a valid id is answered at once exactly once, or queued exactly once, or still in its session's hands; never two of these |
| BridgeSafety.RepliedInOrder | plugins/RackMCP/src/rackside/CommandPump.cpp:52-114 | each queued command is still queued, or was popped once and has one reply, or is being carried out, or was dropped unanswered by a stop (RackBridge.cpp:81-100); replies are given in the order of queueing, and a stop drops only commands queued after all the answered ones |
| BridgeSafety.WritersCommandRuns | plugins/RackMCP/src/core/service.cpp:350-456 | from any quiet state, the writer's well-formed mutating request is queued and reaches execution |
| BridgeOutcomes.DecisionIs | plugins/RackMCP/src/core/service.cpp:350-456 | for every request and holder: each refusal, the lease service and the queueing happen exactly under the conditions told, and a queued command carries its request's deadline and its writer's lease |
| BridgeOutcomes.EnqueueIs | plugins/RackMCP/src/rackside/RackBridge.cpp:102-108 | a command is queued exactly if a pump is attached and the queue is open and not full; else its request is answered at once |
| BridgeOutcomes.EveryReplyDeserved | plugins/RackMCP/src/rackside/CommandPump.cpp:48-69 | in every interleaving: "timeout" is replied only past the deadline, a lost lease only to a mutating command whose lease was not held at its re-check, and only commands checked in time, with no lease to lose or one still held, are carried out |
| BridgeOutcomes.ReadersCommandRuns | plugins/RackMCP/src/core/service.cpp:536-538 | from any quiet state a well-formed reading request of any connection, with or without a lease, reaches execution |
| BridgeOutcomes.LeaseLasts | plugins/RackMCP/src/core/lease.cpp:6-63 | in every interleaving a lease that runs until some time is still held before then, unless its own connection has gone or released it |
| BridgeOutcomes.NoLeaseOutlivesConnection | plugins/RackMCP/src/core/lease.cpp:46-50 | in every interleaving only a connected client holds the lease |
| BridgeOutcomes.PumpAttachedIs | plugins/RackMCP/src/rackside/RackBridge.cpp:102-108 | in every interleaving a pump is attached exactly if that was last said of it |
| Service.BridgeServer.HandleRequest | plugins/RackMCP/src/core/service.cpp:350-456 | takes the decisions in the code's order of checks; answers at once, or queues and does not answer |
| Service.BridgeServer.HandleLeaseRequest | plugins/RackMCP/src/core/service.cpp:458-502 | hands an acquire, renew or release to the lease manager, and answers with the grant, the refusal and the holder's name as the manager decided |
| Service.BridgeServer.CommandLeaseStillValid | plugins/RackMCP/src/core/service.cpp:536-541 | true exactly if the command mutates nothing or its own lease is live for its connection |
| Service.BridgeServer.EnqueueCommand | plugins/RackMCP/src/rackside/RackBridge.cpp:102-108 | fails without an attached pump, and otherwise as the queue does |
| Service.BridgeServer.Step | plugins/RackMCP/src/rackside/CommandPump.cpp:48-114 | one frame pops a prefix of the queue within the count and time budget and sends one reply for each |
| Service.FrameIsPrefix | plugins/RackMCP/src/rackside/CommandPump.cpp:48-114 | a frame answers at most four commands, each once, in queue order |
| Service.FrameIsExact | plugins/RackMCP/src/rackside/CommandPump.cpp:48-69 | each command of a frame is answered late, lease lost or carried out exactly as what the pump reads for it says, and the frame ends only at four commands, an empty queue or past its time |
| Service.QueuedOrAnswered | plugins/RackMCP/src/core/service.cpp:433-455 | a request is queued exactly if it is admitted, a pump is attached and the queue is open and not full; otherwise it is answered at once, as told |
| OpCache.OperationCache.LookupOperation | plugins/RackMCP/src/rackside/RackBridge.cpp:323-338 | finds the first unexpired entry of the id, and tells replay from mismatch |
| OpCache.OperationCache.RecordOperation | plugins/RackMCP/src/rackside/RackBridge.cpp:340-361 | drops expired entries, then the oldest if still full, then appends |
| OpCache.OperationCache.ExecuteCommand | plugins/RackMCP/src/rackside/Handlers.cpp:441-525 | answers from the cache without running the handler, or runs it and records a cacheable result |
| OpCache.RunBounded | plugins/RackMCP/src/rackside/RackBridge.cpp:340-361 | in every run the cache holds at most 512 results, no two under one id, oldest first |
| OpCache.StaysCached | plugins/RackMCP/src/rackside/RackBridge.cpp:340-361 | a recorded result stays while it is within its lifetime and fewer than 512 later ones were recorded |
| OpCache.ReuseIsAnsweredFromCache | plugins/RackMCP/src/rackside/Handlers.cpp:441-525 | in every run, until then a command reusing the id runs no handler: it is replayed if the request is the same and refused if not |
| OpCache.AnswersExactly | plugins/RackMCP/src/rackside/Handlers.cpp:441-525 | in every run a command with an id runs its handler if and only if no cacheable result of an earlier run of that id is both younger than its lifetime and followed by fewer than 512 others; else it is replayed or refused |
| OpCache.EntryIsRecorded | plugins/RackMCP/src/rackside/RackBridge.cpp:340-361 | every entry was recorded by some command of the run and has behind it exactly the results recorded since |
| OpCache.NoIdAlwaysRuns | plugins/RackMCP/src/rackside/Handlers.cpp:441-525 | a command without an id always runs its handler, and is not recorded |
| Framing.EncodeFrame | plugins/RackMCP/src/core/framing.cpp:7-21 | a big-endian 32-bit length and the payload, or a refusal above the cap |
| Framing.OffsetDecoder.PushBytes | plugins/RackMCP/src/core/framing.cpp:25-39 | buffers the bytes unless the live bytes would exceed two longest frames; a buffer that is not empty stays below twice the live bytes |
| Framing.OffsetDecoder.NextFrame | plugins/RackMCP/src/core/framing.cpp:45-63 | takes the next whole frame off the live bytes, or fails for good on an oversized length; a buffer that is not empty stays below twice the live bytes |
| Framing.OffsetDecoder.Compact | plugins/RackMCP/src/core/framing.cpp:65-78 | changes no live byte and leaves dead bytes in less than half the buffer |
| Framing.ChunkDecoder.PushChunk | packages/protocol/src/framing.ts:33-42 | the same as the plugin's push, on a list of chunks |
| Framing.ChunkDecoder.NextFrame | packages/protocol/src/framing.ts:44-56 | the same as the plugin's next, on a list of chunks |
| Framing.DriveBoth | packages/protocol/src/framing.ts:22-57 | the two decoders give the same replies to every sequence of pushes and pulls |
| Framing.LiveBounded | plugins/RackMCP/src/core/framing.cpp:25-63 | whatever is pushed and pulled, the live bytes never exceed two longest frames |
| Framing.FailsExactly | plugins/RackMCP/src/core/framing.cpp:25-63 | a decoder has failed exactly if some push or frame so far was too long, and from then on it takes and gives nothing; until then it refuses no bytes |
| Framing.Residue | plugins/RackMCP/src/core/framing.cpp:45-63 | what draining leaves, unless it failed, is shorter than one frame |
| Framing.PushedBound | plugins/RackMCP/src/core/framing.hpp:32-33 | after an accepted push onto a drained decoder the live bytes are within one frame exactly if residue and chunk are together |
| Framing.PushPastOneFrame | plugins/RackMCP/src/core/framing.hpp:32-33 | for every cap from 1 to 2^32-1 a residue and a chunk within one frame whose push is accepted and leaves more than one frame |
| Framing.FeedIsDrain | plugins/RackMCP/src/core/framing.cpp:25-63 | for any bytes, well formed or not, in chunks of at most a frame drained after each push, frames and error do not depend on the chunking |
| Framing.RoundTrip | plugins/RackMCP/src/core/framing.cpp:7-78 | any payloads within the cap come out whole, in order, with no error, for every such chunking of their frames |
| Framing.HeaderRoundTrip | plugins/RackMCP/src/core/framing.cpp:10-17 | the declared length is read back exactly if it fits 32 bits |
| Sha256.ProcessBlock | plugins/RackMCP/src/core/crypto.cpp:41-78 | computes the hash computation of section 6.2.2 of FIPS 180-4 on one block |
| Sha256.Expand | plugins/RackMCP/src/core/crypto.cpp:42-51 | the forward loop computes the recursive message schedule |
| Sha256.Hasher.Update | plugins/RackMCP/src/core/crypto.cpp:80-96 | takes in exactly the bytes given, however they meet block boundaries |
| Sha256.Hasher.Finish | plugins/RackMCP/src/core/crypto.cpp:98-117 | the padding loop ends, the buffer is empty after the length, and the result is the block fold of the padded message of sections 5.1.1 and 6.2.2 |
| Sha256.AbsorbAppend | plugins/RackMCP/src/core/crypto.cpp:80-96 | bytes taken in in two pieces are the same as bytes taken in in one |
| Sha256.AbsorbBlocks | plugins/RackMCP/src/core/crypto.cpp:80-96 | streaming whole blocks is the fold over blocks |
| Sha256.HashPieces | plugins/RackMCP/src/core/crypto.cpp:80-117 | every way of cutting a message into updates gives the hash of the message |
| Sha256.HashOf | plugins/RackMCP/src/core/crypto.cpp:119-124 | the one-shot hash is the hash of the message |
| Sha256.LengthReadsBack | plugins/RackMCP/src/core/crypto.cpp:106-109 | the eight length bytes, most significant first, read back as the length |
| Sha256.HmacSha256 | plugins/RackMCP/src/core/crypto.cpp:126-153 | computes the HMAC of section 2 of RFC 2104, long keys hashed first |
| Sha256.ConstantTimeEqual | plugins/RackMCP/src/core/crypto.cpp:161-168 | true exactly for equal byte strings |
| ShaConstants.ConstantsAreCubeRoots | plugins/RackMCP/src/core/crypto.cpp:15-24 | every round constant is the first 32 bits of the fractional part of the cube root of its prime, as section 4.2.2 of FIPS 180-4 says |
| ShaConstants.InitialIsSquareRoots | plugins/RackMCP/src/core/crypto.cpp:30-39 | the initial hash value is from the square roots of the first eight primes, as section 5.3.3 of FIPS 180-4 says |
| ShaConstants.FirstRoundOfAbc | plugins/RackMCP/src/core/crypto.cpp:41-78 | the first round on the message "abc" gives the published working variables |
| ShaConstants.SmallSigmaBits | plugins/RackMCP/src/core/crypto.cpp:42-51 | where the functions of the message schedule send their lowest bits |
| Hex.FromHex | plugins/RackMCP/src/core/crypto.cpp:191-204 | accepts exactly text of even length and hex digits of either case |
| Hex.ToHex | plugins/RackMCP/src/core/crypto.cpp:170-179 | two lower-case digits for each byte |
| Hex.DecodeEncode | plugins/RackMCP/src/core/crypto.cpp:170-204 | decoding what was encoded gives it back |
| Hex.EncodeDecode | plugins/RackMCP/src/core/crypto.cpp:170-204 | encoding what was decoded gives the text back in lower case |
| RateLimit.RateLimiter.Admit | apps/mcp-server/src/ratelimit.ts:40-58 | prunes, then records all of a batch or none of it |
| RateLimit.WindowBound | apps/mcp-server/src/ratelimit.ts:40-58 | over every run with a positive limit, no interval of one window holds more admitted changes than the limit |
| RateLimit.AdmitsExactly | apps/mcp-server/src/ratelimit.ts:40-58 | after every run a batch is admitted exactly when all changes ever admitted in the window leave room, although pruned ones are forgotten |
| RateLimit.RetryHint | apps/mcp-server/src/ratelimit.ts:44-54 | a refusal records nothing; once its retry time has passed an old change has left the window, and before then, unless the hint is the least one, none has |
| LoadTokens.TokenStore.Mint | apps/mcp-server/src/transactions.ts:282-289 | forgets expired bindings and holds the new one for its lifetime |
| LoadTokens.TokenStore.Lookup | apps/mcp-server/src/transactions.ts:323-345 | refuses a malformed, forged, unknown or expired token, and forgets an expired one |
| LoadTokens.TokenStore.Consume | apps/mcp-server/src/transactions.ts:310-321 | the same, and burns the token |
| LoadTokens.OneDestructionPerToken | apps/mcp-server/src/patchfiles.ts:300-415 | in every interleaving of commits at their awaits, a token leads to at most one destructive request |
| LoadTokens.DestructionIsJustified | apps/mcp-server/src/patchfiles.ts:300-415 | each destructive request does what its token's preview said, on the instance it was said of, within the token's lifetime, after a reply in its own call that showed the described patch live and then a saved recovery copy |
| LoadTokens.UndisturbedCommitSucceeds | apps/mcp-server/src/patchfiles.ts:300-415 | from any state, a commit alone with a held, genuine token, no path expected or the token's own, and the described patch live sends exactly the previewed request and spends the token |
| LoadTokens.RunIsSafe | apps/mcp-server/src/patchfiles.ts:300-415 | the invariant behind both holds in every reachable state |
| LoadTokens.HeldUntilSpent | apps/mcp-server/src/transactions.ts:282-345 | in every interleaving a minted token that is not too old is held, with the binding it was minted with, exactly until a commit with it has saved its recovery copy |
| LoadTokens.AcceptedIff | apps/mcp-server/src/transactions.ts:323-345 | in every interleaving a genuine token is accepted if and only if it was minted, is not too old and is unspent, and it stands for what it was minted for |
| LoadTokens.MintedIs | apps/mcp-server/src/transactions.ts:282-289 | a minted binding is what some preview described, for five minutes from that preview |
| Telemetry.ChannelAccumulator.Accumulate | plugins/RackMCP/src/core/telemetry.hpp:62-89 | takes in one sample as the function on values says, non-finite ones only counted |
| Telemetry.ChannelAccumulator.Reset | plugins/RackMCP/src/core/telemetry.hpp:43-54 | empties everything but the gate |
| Telemetry.ChannelAccumulator.ResetAll | plugins/RackMCP/src/core/telemetry.hpp:56-59 | empties everything, the gate too |
| Telemetry.AccumulateHolds | plugins/RackMCP/src/core/telemetry.hpp:62-89 | after every sample the accumulator holds the true extremes, peak, sums, clip count, edges and gate of the finite samples, and finite plus non-finite counts equal the samples fed |
| Telemetry.FinalizeReports | plugins/RackMCP/src/core/telemetry.hpp:122-141 | the finalized statistics report exactly the samples of the window |
| Telemetry.MeanIsSound | plugins/RackMCP/src/core/telemetry.hpp:122-141 | min <= mean <= max, and the squared mean is at most the mean square |
| Telemetry.EdgesAdd | plugins/RackMCP/src/core/telemetry.hpp:43-89 | rising edges add up over any cut of the stream |
| Telemetry.GateIs | plugins/RackMCP/src/core/telemetry.hpp:79-88 | the gate is high after the samples exactly if it was raised by one at 1 V or above, or at the start, and none since is at 0.1 V or below |
| Probe.ProbeModule.constructor | plugins/RackMCP/src/rackside/ProbeModule.cpp:12-31 | a new probe is valid, with an empty window of 2205 ticks and every gate low |
| Probe.ProbeModule.Process | plugins/RackMCP/src/rackside/ProbeModule.cpp:41-83 | one tick does to every input, its channels, mask and window what the step on one input says |
| Probe.FeedRow | plugins/RackMCP/src/rackside/ProbeModule.cpp:45-64 | the channel loop feeds each channel once, "first" decided per channel by the mask |
| Probe.ProbeModule.BeginWindow | plugins/RackMCP/src/rackside/ProbeModule.cpp:23-31 | empties every input's window and keeps the gates |
| Probe.ProbeModule.Publish | plugins/RackMCP/src/rackside/ProbeModule.cpp:66-80 | publishes one snapshot per input, with the sample rate and with zeros above its channel count |
| Probe.ProbeModule.OnSampleRateChange | plugins/RackMCP/src/rackside/ProbeModule.cpp:33-39 | the window is 50 ms of ticks rounded down, 64 exactly if that is less, and starts over |
| ProbeRuns.CutIs | plugins/RackMCP/src/rackside/ProbeModule.cpp:33-83 | the windows published and dropped and the open one are the ticks in order, and each published window has exactly the length in force |
| ProbeRuns.RunHolds | plugins/RackMCP/src/rackside/ProbeModule.cpp:33-83 | over every run of ticks and rate changes, each full window was published in order and reports, per channel, exactly that window's samples; the open window holds the samples since |
| ProbeRuns.RunNumbers | plugins/RackMCP/src/rackside/ProbeModule.cpp:66-70 | over every run the snapshots are only added to, and numbered one after the other in 32 bits |
| ProbeRuns.EdgesConserved | plugins/RackMCP/src/rackside/ProbeModule.cpp:23-83 | over every such run the edges published, dropped by rate changes and pending add up to those of the uncut stream |
| ProbeRuns.NoEdgeLostIff | plugins/RackMCP/src/rackside/ProbeModule.cpp:33-39 | published and pending edges are those of the uncut stream if and only if at every rate change the open window had counted none |
| ProbeRuns.RateChangeLosesAnEdge | plugins/RackMCP/src/rackside/ProbeModule.cpp:33-39 | a run of one tick and one rate change in which an edge is reported nowhere |

## Left out

- Queues.TelemetrySnapshotBuffer.ReadAttempt: is one attempt with no publish under way; the retry loop, its limit of 1000 attempts and the interleaving with publishes are in the step system of `Seqlock`.
- Sha256.Hasher.Finish: for messages of 2^61 bytes or more the length wraps at 64 bits as in the code, where FIPS 180-4 defines no hash.
- Telemetry.FinalizeReports: the root that turns the mean square into the rms is not taken.
- Telemetry.MeanIsSound: the same, and the 32-bit counters are unbounded.
- CommitTop.NoConnectBeforeTopSees: the condition on the plan alone is sufficient, not necessary; a later operation can take the plan's cable away again. The exact condition is in `CommitProperties.ExactIffEveryTopSees`.
- Probe.ProbeModule.Process: the accumulators are records in an array rather than objects, and the seen mask is a set of channels rather than bits.
- Service.BridgeServer.HandleRequest: a request without a valid id, which closes the connection, is not a request of the model; the reply text is left out.
- BridgeSafety.RepliedInOrder: a reply is an attempt to send; a session that is gone, or whose outbound queue is full, drops it, as the code does.
- CommitProperties.CommitTakesOnlyDisclosed: Rack's engine is represented by its effect on module ids and cables; parameter values, bypass, positions, history and the text of failures are not.
- CommitSucceeds.CarriedOutIff: what the patch of the model does not hold - widgets, the port and parameter counts of modules the plan makes, initial parameters, a place that is taken at commit time - is the engine's choice to fail the operation.
- ShaConstants.FirstRoundOfAbc: one round is worked out, not the whole published digest; that the listed primes are the first 64 is not proved.
- Rolling back a failed commit, undo, and the fingerprint checks around a commit.
- The lists `stackedInputs`, `possibleFeedback` and `warnings` of a preview, which validation never fills.
- Sessions before authentication, the nonce challenge, sockets, timeouts of threads, and outbound queues.
- The shape checks of operation and request fields, which decide only whether an operation is well formed.
- Text for people: names, arrows, truncation and wrapping of descriptions, error messages, panel lights and drawing.
- The checks of port roles and polyphony in `analysis.ts`, adapters and recipes, path resolution, manifests, audit logs, schemas and generated code.
- UTF-8 decoding in the server's frame decoder; frames are byte sequences.
- The chat, tutorial and user-interface modules of the plugin.
