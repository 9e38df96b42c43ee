# Verified model of the agent around Docker

This project models the parts of the agent that hold invariants across several functions, and proves
them for all inputs, all runs and all interleavings:

- **Start order and deployments** (`StartOrder`, `Deploy`, `Deployed`). The recursive three-colour sort over
  `depends_on`, with every map iteration order, and both deployments that consume its result. The Docker
  daemon is an object in which container names are unique and which may refuse any request. The labels a
  deployment leaves lead back to its compose file and into the list of apps.
- **Deploy sessions** (`DeploySession`). The lossy queue of fifty events, its producer and the
  direct-mode WebSocket reader, interleaved one channel operation at a time.
- **Stack store** (`Paths`, `StackStore`, `StackClient`). Files on disk, one system call at a time with a
  record of everything a crash could leave, refined by a map from stack names to contents, also for a client
  whose calls sometimes fail.
- **Stack locks** (`StackLock`, `StackDeploy`). What one lifecycle call does, and any number of them
  interleaved over the shared lock table.
- **Exec output** (`ExecStream`). The decoder of the Docker Engine API stream format, with its chunk
  size and its cap.
- **Compose labels** (`ComposeLabels`, `ComposeNodes`, `AutoUpdate`). The meaning of setting and
  removing a label, the rewriter that edits YAML nodes in place, and the auto-update switch: the file is
  rewritten, deployed over the containers that are there, and the list of apps shows what they carry.
- **Edge answers** (`EdgeFrames`, `EdgeDeploy`, `EdgeRoutes`, `EdgeStacks`, `EdgeConnection`). The frames
  each handler hands over for its request, the edge reader interleaved with the producer of a deploy
  session, where stack requests are routed and what they do to the stacks of this host, and the
  mutex-protected connection that all handlers and the heartbeat share.
- **App list and file writes** (`Apps`, `FileCommand`, `Base64`). Grouping containers that come in any
  map order, and the shell command that carries a path and a file's content.

Code that changes state step by step is a class or a method with loops here, proved against a
specification; code that only computes is a function. Concurrent code is a state machine whose steps
are the atomic actions of the program.

Some results say exactly where the code falls short of what one might expect:

- When removals work, a failed streamed deployment leaves the containers as they were, except exactly when
  a start was refused: then that service's container is left over, created and not running
  (`Deploy.LeftoverExactlyWhenStartRefused`; `Deploy.LeftoverOccurs` is such a run for any project).
- Whether a plain deployment completes is told by the state before it (`Deploy.DeployCompose`): where
  nothing else is in the way, it does exactly if none of its containers exists yet
  (`Deploy.CompletesExactlyOnFreshNames`). The auto-update switch redeploys over the app's own containers;
  `AutoUpdate.SwitchThenList` says exactly when the list of apps then agrees with the switch.
- Stack deployments never close Done, so their reader never leaves through the drain
  (`StackDeploy.StackDeploymentsAreNeverDrained`). Nothing closes Events, over which the edge reader ranges
  after Done: it returns exactly if it notices the context before Done (`EdgeDeploy.ReturnsExactlyOnContext`),
  and after Done it only sends chunks, never an end marker (`EdgeDeploy.AfterDoneOnlyChunks`).
- Exec output above the cap is cut at the first chunk that does not fit exactly when every later chunk is
  empty or does not fit there either (`ExecStream.CutAtFirstMissExactly`); otherwise a smaller chunk is kept
  after the gap (`ExecStream.KeptOutputNeedNotBeAPrefix`).
- Setting a label in a sequence agrees with reading exactly when the key has no '=' and no later item wins
  over it (`ComposeLabels.ItemUpdate`). Removing agrees, for a key without '=', exactly when no later item
  has it, and for a key with '=' exactly when the item that is dropped instead did not decide what is read
  (`ComposeLabels.ItemRemoval`): removing "a=b" can delete the label "a"
  (`ComposeLabels.RemovalCanDeleteAnotherLabel`). Setting then removing is removing exactly when the labels
  are not a scalar (`ComposeLabels.SetThenRemove`).
- The edge dispatcher strips "/docker/stacks" from a path and then looks for "stacks" again. So no stack
  request that the direct mode serves reaches the same operation on the same path in the edge mode
  (`EdgeRoutes.NothingIsMirrored`). A path does exactly if it has "stacks" once more in front and the request
  neither follows a deployment nor recreates containers (`EdgeRoutes.SameOperationExactly`): the edge switch
  refuses "recreate" (`EdgeRoutes.RecreateIsRefused`).
- A base directory that cleans to `/` or `.` can hold no stack at all (`StackStore.StackDirExact`).
- The check for ".." in paths refuses only names with two dots in them; going up is resolved
  (`FileCommand.RefusedForDots`).

## Model

| member | source | states |
|---|---|---|
| StartOrder.Sorter.Visit | internal/docker/compose.go:209-227 | terminates on every finite graph, measured by the nodes neither visited nor open; an error names a node on a cycle, otherwise the order grows by whole dependencies and stays without duplicates and dependency-ordered |
| StartOrder.TopologicalSort | internal/docker/compose.go:204-235 | for every iteration order: fails if and only if the graph has a cycle (self-loops included); else exactly the nodes reachable from the keys, once each, every node after all it depends on |
| StartOrder.NodesAreReachable | internal/docker/compose.go:218-233 | keys and names depended on are exactly the nodes that a path from some key reaches |
| StartOrder.OrderedGraphIsAcyclic | internal/docker/compose.go:209-213 | a graph all of whose keys are in a dependency order has no cycle |
| StartOrder.PrefixIsClosed | internal/docker/compose.go:218-225 | every prefix of a dependency order holds the dependencies of its nodes |
| StartOrder.ParseDependsOn | internal/docker/compose.go:183-202 | a name is read exactly if it is a string item of the list, or a key of the map; from any other form nothing |
| StartOrder.FormsAgree | internal/docker/compose.go:183-202 | a list and a map ask for the same exactly if they hold the same names |
| StartOrder.ResolveStartOrder | internal/docker/compose.go:175-181 | on the declarations: fails exactly if services name each other in a circle, with a service on one; else every service is there once and after everything it names, in a list or in a map |
| Deploy.ParseComposeFile | internal/docker/compose.go:71-80 | succeeds exactly for a decoded file with at least one service |
| Deploy.PullImageIfNeeded | internal/docker/compose.go:259-268 | success leaves the image present, and images never disappear |
| Deploy.CreateAndStartService | internal/docker/compose.go:282-412 | succeeds exactly if the entry parses, the name is free and neither request is refused; the container stays, created and not running, exactly if only the start was refused; it carries the labels it must |
| Deploy.LabelsAreCarried | internal/docker/compose.go:283-298 | a container carries every label of the file; where the file does not set them, the marker of the agent, the project, the service's own name, and where the compose file is written |
| Deploy.ComposePathIsWritten | internal/docker/compose.go:270-283 | the path in the label is the path to which the file is written, for every base directory |
| Deploy.StartNext | internal/docker/compose.go:433-448 | the next service of the order is started, or the run is blocked there, with or without the service's own container |
| Deploy.DeployCompose | internal/docker/compose.go:415-451 | each outcome and what it has done: rejection, write, parse and cycle failures leave the containers alone; otherwise exactly the services before the failing one run; completes if and only if name, file, graph and pulls are in order and, told before the run, every container can be created and started; what was made carries its labels; removes nothing |
| Deploy.PullAndStartEach | internal/docker/compose.go:433-448 | the loop: containers, start log and images after every prefix of the order |
| Deploy.PlainRunIsAlwaysClosed | internal/docker/compose.go:428-448 | at every moment of every plain run, failing ones too, the started services are closed under `depends_on` |
| Deploy.CompletesExactlyOnFreshNames | internal/docker/compose.go:386-411 | a plain deployment that nothing else is in the way of completes if and only if none of its containers exists before it |
| Deploy.MadeExactly | internal/docker/compose.go:433-448 | which containers a plain run makes, told by the state before it |
| Deploy.ContainersAfter | internal/docker/compose.go:433-448 | after a plain run every container is the one from before or one that was made, with its labels |
| Deploy.DeployComposeStreamed | internal/docker/deploy_stream.go:84-174 | each outcome with its exact effect on containers, start log, removals and images; completes if and only if file, graph, pulls and write are in order and every container can be created and started; what stays carries its labels; the steps and statuses of all its events, in order, advice included, for each outcome; Done is closed once, last |
| Deploy.RunStreamed | internal/docker/deploy_stream.go:87-173 | the body before the deferred close: same effects, Done still open |
| Deploy.ParseAndResolve | internal/docker/deploy_stream.go:87-102 | parse and cycle failures end the run with an error event before the daemon is touched |
| Deploy.PullAndWrite | internal/docker/deploy_stream.go:116-152 | on success every image is present; an error changes no container |
| Deploy.PullWriteAndStart | internal/docker/deploy_stream.go:104-173 | the part after the start order is known, with its outcome and rollback |
| Deploy.ReportPullFailure | internal/docker/deploy_stream.go:128-142 | the error, then advice exactly for the known problems, then a word about credentials exactly if access was refused; never a close |
| Deploy.AdviceExactly | internal/docker/deploy_stream.go:177-198 | there is advice exactly for the twelve texts it looks for |
| Deploy.PullAll | internal/docker/deploy_stream.go:116-145 | pulls in order up to the first failure; succeeds exactly when no pull failed |
| Deploy.StartAll | internal/docker/deploy_stream.go:154-170 | creates and starts in order; on failure removes what was started, and leaves the failing service's own container exactly if its start was refused |
| Deploy.StartUntilFailure | internal/docker/deploy_stream.go:154-169 | the started containers are exactly those of the order before the failure, plus the failing one, not running, exactly if only its start was refused |
| Deploy.Cleanup | internal/docker/deploy_stream.go:105-114 | tries to remove exactly the started containers, once each; none from before the run |
| Deploy.RemoveAll | internal/docker/deploy_stream.go:110-112 | one removal per name, in order; what is left is what could not be removed |
| Deploy.StreamedRunIsAlwaysClosed | internal/docker/deploy_stream.go:97-170 | at every moment before the rollback the started services are closed under `depends_on` |
| Deploy.RemovalUndoes | internal/docker/deploy_stream.go:105-114 | removing what was started gives the containers from before, with what could not be removed and a leftover of a refused start |
| Deploy.LeftoverExactlyWhenStartRefused | internal/docker/deploy_stream.go:104-170 | if removals work, a failed run leaves the containers as they were if and only if no start was refused; else it leaves that one container besides, created and not running |
| Deploy.LeftoverOccurs | internal/docker/compose.go:403-411 | for every project and service name, a run that ends with such a leftover |
| Deploy.DeploymentsOfTenServicesAreFullyReported | internal/docker/deploy_stream.go:46-50 | up to ten services, a reader that drains has taken every event, and an error event exactly if the deployment failed |
| Deployed.DeployedAreServices | internal/docker/compose.go:283-298 | after a plain deployment to an empty daemon, the containers name their project, their compose file and their services, each service once |
| Deployed.ServicesAreListed | internal/docker/apps.go:70-154 | from such containers the list of apps shows one project with exactly these services |
| Deployed.DeployThenFind | internal/server/apps.go:103-122 | deploying to an empty daemon, listing, and resolving the compose file: each service is listed under its own name, and the file is found where it was written |
| DeploySession.Session.Emit | internal/docker/deploy_stream.go:70-81 | appends when there is room, else drops the new event; never blocks, never closes |
| DeploySession.EveryRunConserves | internal/docker/deploy_stream.go:70-81 | in every interleaving: at most 50 buffered, taken is an in-order subsequence of emitted, emitted equals taken plus buffered plus dropped |
| DeploySession.DropsOnlyWhenFull | internal/docker/deploy_stream.go:71-80 | a step drops an event if and only if it emits into a full channel |
| DeploySession.DrainIsComplete | internal/server/routes.go:369-381 | if Done closes last, leaving through the drain means an empty buffer and every emission taken or dropped |
| DeploySession.SmallDeploysLoseNothing | internal/server/routes.go:359-383 | with at most 50 emissions the drained reader took all of them in order |
| DeploySession.DrainFinishes | internal/server/routes.go:371-381 | after the last emission the drain takes the buffer in order and ends after one step more |
| DeploySession.UnclosedSessionNeverDrains | internal/server/routes.go:369-370 | if Done is never closed, the reader never leaves through the drain |
| Paths.CleanIsIdempotent | internal/docker/stack_store.go:117-118 | cleaning a clean path changes nothing and keeps it absolute or relative |
| Paths.CleanChild | internal/docker/stack_store.go:118 | the clean path of an ordinary name under a clean base |
| Paths.UpUndoesDown | internal/docker/files.go:37 | going into an ordinary directory and up again can be left out of any path |
| Paths.DotsAndBlanksSayNothing | internal/docker/files.go:37 | so can "." and empty pieces, anywhere in a path |
| Paths.EndsSayNothing | internal/docker/files.go:37 | so can a slash at the end, and "./" before a relative path |
| Paths.NothingAboveTheRoot | internal/docker/files.go:37 | going up from the root stays there |
| Paths.RelativePathsGoUp | internal/docker/files.go:37 | before a clean relative path ".." is kept |
| Paths.NamesStay | internal/docker/stack_store.go:117-118 | an ordinary name is clean, alone, below the root, and below a clean path |
| Paths.CleanTheFirstPart | internal/docker/stack_store.go:117-118 | cleaning the first part of a path beforehand makes no difference |
| StackStore.StackNamesExactly | internal/docker/stack_store.go:57-107 | the stack names are exactly the nonempty texts of a-z, 0-9, "_" and "-" |
| StackStore.ProjectNamesExactly | internal/docker/compose.go:23-34 | the project names are exactly the texts of 1 to 64 letters, digits, "_" and "-" that begin with a letter or digit |
| StackStore.StackDirExact | internal/docker/stack_store.go:110-123 | a stack has a directory exactly when its name is valid and the base is not `/` or `.`, and which one |
| StackStore.StackDirsAreDisjoint | internal/docker/stack_store.go:110-123 | different stacks have different directories, never the base, never nested |
| StackStore.FirstFileOf | internal/docker/stack_store.go:60-65 | the order of preference among the accepted compose file names |
| StackStore.WrittenFiles | internal/docker/stack_store.go:226-287 | by file name, what each successful operation has put on disk |
| StackStore.ViewReads | internal/docker/stack_store.go:248-257 | by file name, what a stack shows of its files |
| StackStore.ComposeFilePathIn | internal/docker/stack_store.go:127-135 | finds the preferred compose file, folders not counted |
| StackStore.WriteFileAtomic | internal/docker/stack_store.go:173-192 | at every moment the target is all old or all new; an error leaves it old |
| StackStore.SaveStack | internal/docker/stack_store.go:197-233 | rejected exactly for the stated reasons and then without any effect; success stores both files; at every moment one of the stages untouched, prepared, compose written, both written |
| StackStore.WriteStack | internal/docker/stack_store.go:220-231 | the writes of a save and the stages they pass through |
| StackStore.CrashShowsOldOrNew | internal/docker/stack_store.go:226-231 | a crash in a save of an existing stack leaves (old, old), (new, old) or (new, new), everything else unchanged |
| StackStore.GetStack | internal/docker/stack_store.go:238-259 | reads the stack's content from disk, temporary files disregarded, nothing when there is no directory |
| StackStore.GetGlobalEnv | internal/docker/stack_store.go:267-276 | the file's content, empty when it is missing, an error for a folder in its place |
| StackStore.SetGlobalEnv | internal/docker/stack_store.go:279-287 | a rejected content changes nothing; otherwise all old or all new at every moment |
| StackStore.RemoveStackDir | internal/docker/stack_store.go:605 | success removes this stack's directory, failure at most some of its files; nothing outside it changes in any case |
| StackStore.WriteComposeFile | internal/docker/compose.go:270-280 | for every base: a failure leaves the directories as far as they were made, and the file, once its writing began, with any content; success leaves the given content; nothing else changes |
| StackStore.StepRefines | internal/docker/stack_store.go:197-287 | one successful operation on disk is the same operation on a map of stacks and one string; a legacy file shows only where nothing preferred hides it |
| StackStore.RunsRefine | internal/docker/stack_store.go:197-287 | the same for every sequence of successful operations |
| StackStore.ReadsAgreeWithStore | internal/docker/stack_store.go:238-276 | from an empty disk, after any sequence of operations, what is read is what the map says |
| StackClient.Perform | internal/docker/stack_store.go:197-287 | one call on the disk: rejected exactly when the map says so, and what it leaves in each case |
| StackClient.CallRefines | internal/docker/stack_store.go:197-287 | whatever a call leaves on disk is one of the allowed changes of the map, failed saves, deletions and legacy files included |
| StackClient.RunCalls | internal/docker/stack_store.go:197-287 | for every list of calls on one disk, some of which fail: rejections are those the map tells, and after each call what is read is what the map says |
| StackLock.Host.TryLock | internal/composecli/composecli.go:51-61 | acquires exactly when the lock is free; a refusal leaves it as it was |
| StackLock.Host.Unlock | internal/composecli/composecli.go:64-73 | frees this stack's lock only |
| StackLock.Host.StackRun | internal/docker/stack_store.go:508-525 | refused without a trace, or acquire, command, release with the lock given back on every path |
| StackLock.Host.StackUpdate | internal/docker/stack_store.go:559-587 | a whole operation: pull, then, if it worked, a look at the listing, and up exactly if that shows the stack running, which it does only if it runs |
| StackLock.Host.StackDelete | internal/docker/stack_store.go:590-606 | a whole operation: down exactly if the directory existed, then its removal, whose result decides; on disk the stack is gone, or after a failed removal some of its files are, and nothing else changes |
| StackLock.AtMostOneInside | internal/composecli/composecli.go:51-73 | in every interleaving at most one call per stack is between acquire and release, and the lock is held exactly then |
| StackLock.StackTraceIsSerial | internal/docker/stack_store.go:508-606 | each stack's trace is a concatenation of whole operations and at most one unfinished one; nobody releases twice |
| StackLock.EveryReturnIsClean | internal/docker/stack_store.go:516-519 | a refused call has done nothing, a finished one its whole operation |
| StackLock.RefusedExactlyWhenBusy | internal/docker/stack_store.go:516-518 | a call is refused exactly when another is inside the same stack |
| StackDeploy.SpacesExactly | internal/composecli/composecli.go:121-124 | blank are exactly the characters that Unicode calls white space |
| StackDeploy.LineEventsExactly | internal/composecli/composecli.go:115-129 | lines are told one after the other, each by one event with its text unless it is all white space |
| StackDeploy.StreamLines | internal/composecli/composecli.go:115-129 | emits one event per output line that is not blank, in order, and never closes the session |
| StackDeploy.StackUpStreamed | internal/composecli/bridge.go:40-57 | keeps the lock discipline of every other operation; emits nothing when refused, else first its start and last "done" or "error" as it ended, with the output in between; never closes the session |
| StackDeploy.StackDeploymentsAreNeverDrained | internal/composecli/bridge.go:40-57 | the reader of such a session never leaves through the drain |
| ExecStream.SizeRoundTrip | internal/docker/exec.go:88-89 | the four big-endian bytes give the size back |
| ExecStream.Demultiplex | internal/docker/exec.go:81-112 | the nested loops keep, of the payload reads, exactly what keeping whole chunks under the cap keeps; terminates on every byte stream |
| ExecStream.CaptureIsFaithful | internal/docker/exec.go:94-110 | both buffers are in-order whole chunks of their streams, together under the cap; truncated exactly when something was discarded, exactly when more was read than the cap |
| ExecStream.SmallStreamsAreWhole | internal/docker/exec.go:101-105 | up to the cap everything read is kept |
| ExecStream.EveryByteIsAccountedFor | internal/docker/exec.go:84-110 | every byte is in a complete header, in a payload read, or in a cut header |
| ExecStream.ReadsAreBounded | internal/docker/exec.go:95-99 | no payload read is longer than 64 KiB |
| ExecStream.DecodeEncode | internal/docker/exec.go:81-111 | for well-formed frames up to the cap: stderr is the payloads of type 2, stdout all others, in order, untruncated |
| ExecStream.TruncatedExactlyAboveCap | internal/docker/exec.go:101-105 | for well-formed frames: truncated if and only if the payloads exceed the cap |
| ExecStream.CutAtFirstMissExactly | internal/docker/exec.go:101-105 | for every list of chunks that exceeds the cap: the capture is what was kept before the first chunk that does not fit if and only if every later chunk is empty or does not fit there |
| ExecStream.OutputIsCutExactly | internal/docker/exec.go:101-105 | every output above the cap has a first chunk that does not fit; all before it is kept, and nothing after it if and only if every later chunk is empty or does not fit there |
| ExecStream.KeptOutputNeedNotBeAPrefix | internal/docker/exec.go:101-105 | concrete streams whose kept output has a gap |
| ComposeLabels.FirstKeyIs | internal/docker/compose_labels.go:59-63 | the search position is the first entry with the key |
| ComposeLabels.FirstItemIs | internal/docker/compose_labels.go:134-142 | the search position is the first scalar item for the key |
| ComposeLabels.MatchIsKeyPart | internal/docker/compose_labels.go:138 | for a key without '=', the rewriter's test and the reader's split agree |
| ComposeLabels.EntryUpdate | internal/docker/compose_labels.go:116-127 | setting in a mapping updates the map that is read |
| ComposeLabels.EntryRemoval | internal/docker/compose_labels.go:107-115 | removing from a mapping removes the key from the map that is read |
| ComposeLabels.ItemUpdate | internal/docker/compose_labels.go:153-162 | setting in a sequence updates the map that is read if and only if the key has no '=' and no later item for it says otherwise |
| ComposeLabels.ItemRemoval | internal/docker/compose_labels.go:144-152 | for every key and every sequence, removing removes the key from the map that is read if and only if: no later item has it, or, for a key with '=', the dropped item binds nothing or a later one binds its key part to what was read |
| ComposeLabels.RemovalCanDeleteAnotherLabel | internal/docker/compose_labels.go:144-152 | removing the key "a=b" from the one item "a=b=c" deletes the label "a" |
| ComposeLabels.RewriteThenRead | internal/docker/compose_labels.go:88-189 | for every supported shape with the key at most once: rewriting then reading is reading then updating |
| ComposeLabels.SetIsIdempotent | internal/docker/compose_labels.go:88-189 | setting the same label twice is setting it once |
| ComposeLabels.SetThenRemove | internal/docker/compose_labels.go:88-189 | set then remove equals remove, duplicates or not, if and only if the labels are not a scalar |
| ComposeLabels.OneEntryIsSet | internal/docker/compose_labels.go:116-127 | setting touches the first entry with the key and no other, or adds one at the end; the value becomes a quoted string node |
| ComposeLabels.OneItemIsSet | internal/docker/compose_labels.go:153-162 | setting touches the first item for the key and keeps its style, or adds a plain one at the end |
| ComposeLabels.LastEntryDecides | internal/docker/compose.go:240-243 | in a mapping the last entry with a key decides what is read; a string reads as itself, whatever its style |
| ComposeLabels.LastItemDecides | internal/docker/compose.go:244-255 | in a sequence the last string for a key decides; it reads as what follows the first '=', or as empty |
| ComposeLabels.ReadSequence | internal/docker/compose.go:244-255 | the reading loop binds each string item at its first '=', the last one winning |
| ComposeNodes.FindKey | internal/docker/compose_labels.go:55-65 | finds the first entry with the key |
| ComposeNodes.FindItem | internal/docker/compose_labels.go:131-142 | finds the first scalar item for the key |
| ComposeNodes.SetInMapping | internal/docker/compose_labels.go:100-127 | the entries become exactly those with the label set or removed; new nodes are fresh |
| ComposeNodes.SetInSequence | internal/docker/compose_labels.go:130-162 | the items become exactly those with the label set or removed; new nodes are fresh |
| ComposeNodes.RemoveLabels | internal/docker/compose_labels.go:67-77 | the labels entry goes, the other entries keep their order |
| ComposeNodes.AddLabels | internal/docker/compose_labels.go:90-106 | a labels mapping with one label is appended |
| ComposeNodes.EditMapping | internal/docker/compose_labels.go:98-128 | mapping labels as specified; an empty mapping takes its entry with it |
| ComposeNodes.EditSequence | internal/docker/compose_labels.go:130-165 | sequence labels as specified; an empty sequence takes its entry with it |
| ComposeNodes.EditScalar | internal/docker/compose_labels.go:167-180 | a scalar becomes a mapping with the one label |
| ComposeNodes.SetServiceLabelOnNode | internal/docker/compose_labels.go:88-189 | in place: fails exactly for unsupported kinds; else the labels are what the specification says, every other entry keeps its place, no node is shared with outside, and the service is a tree the rewriter can be called on again |
| ComposeNodes.SetLabelOnServices | internal/docker/compose_labels.go:38-46 | succeeds exactly when every service can be rewritten, and then each is, while services that are no mappings stay as they are; the services remain separate trees |
| ComposeNodes.SetServiceLabel | internal/docker/compose_labels.go:12-53 | rewritten exactly when there is a key, a document with services, and only supported labels; service names and order never change; its own precondition holds again afterwards |
| ComposeNodes.SetTwice | internal/docker/compose_labels.go:12-189 | a second call with the same label on the same nodes succeeds and leaves every service as the first did |
| ComposeNodes.SetAndRemove | internal/docker/compose_labels.go:12-189 | a call that removes the label just set succeeds, and leaves a service as removing alone would if and only if its labels were no scalar |
| AutoUpdate.MadeContainerShows | internal/docker/compose.go:284-298 | a container made from rewritten labels shows its project and the switch as set |
| AutoUpdate.ResolveAppCompose | internal/server/apps.go:103-122 | the first listed container of the project decides: the file it names, and none if it names no readable one or there is no such container |
| AutoUpdate.SetAppAutoUpdate | internal/server/apps.go:20-68 | the handler: without a usable request, file or labels nothing is deployed; else the rewritten file is deployed plainly over the containers there are, and the answer tells whether that completed |
| AutoUpdate.RunShowsExactly | internal/docker/compose.go:415-451 | after a plain run some container shows the label if and only if one did before or one that does could be made; with the first container there already nothing changes |
| AutoUpdate.ListShowsContainers | internal/docker/apps.go:70-154 | the list shows a project as switched on if and only if one of the daemon's containers of that project carries the label |
| AutoUpdate.LabelledAreMadeExactly | internal/server/apps.go:41-62 | for ordinary files a container that carries the label is made exactly if it was switched on and a service with labels can be made |
| AutoUpdate.SwitchThenList | internal/server/apps.go:20-68 | for every state before: the list afterwards shows the app as switched on if and only if a container carried the label or one that will could be made; for ordinary files, when exactly that agrees with the switch |
| EdgeFrames.HandleContainerLogs | internal/edge/client.go:403-434 | a plain error reply, or one chunk per read that brought bytes, the one that failed included, and an end marker exactly when the loop is left |
| EdgeFrames.HandleStatsStream | internal/edge/client.go:436-466 | an error end marker alone, or chunks 0, 1, ... and an end marker exactly when sampling stops |
| EdgeFrames.StreamEvents | internal/edge/client.go:500-526 | the shared deploy loop, for all observations: returns exactly when the context ends or Events is closed, also inside the range after Done; chunks are numbered without gaps |
| EdgeDeploy.ReturnsExactlyOnContext | internal/edge/client.go:499-526 | in every interleaving with the producer, the reader has returned if and only if it noticed the context while selecting, and its frames are then a whole answer |
| EdgeDeploy.AfterDoneOnlyChunks | internal/edge/client.go:511-520 | once it noticed Done the reader never returns and sends chunks only, never an end marker |
| EdgeDeploy.TheRangeBlocks | internal/edge/client.go:513-517 | with nothing buffered and the producer through, the range has no step left |
| EdgeDeploy.ChunksCarryTheEmissions | internal/edge/client.go:499-517 | in every interleaving the chunks carry emissions in order; with at most 50 emissions none is lost: all are taken or waiting once the producer is through |
| EdgeDeploy.RunsAreStreams | internal/edge/stacks.go:264-287 | every interleaving is a run of `EdgeFrames.StreamEvents` that never sees Events closed |
| EdgeDeploy.StreamSession | internal/edge/client.go:499-526 | for every interleaving the loop hands over exactly what the machine did, and returns if and only if it noticed the context |
| EdgeDeploy.HandleDeployStream | internal/edge/client.go:468-527 | a plain error reply, or for every interleaving a plain reply and the stream |
| EdgeDeploy.StackReadersNeverRange | internal/edge/stacks.go:255-287 | the reader of a stack deployment selects until it notices the context, and then has returned |
| EdgeRoutes.NothingIsMirrored | internal/edge/stacks.go:38-206 | for every request that the direct mode serves, the same path in the edge mode reaches another operation or none |
| EdgeRoutes.MirroredBehindASecondPrefix | internal/server/stacks.go:20-50 | with "stacks" once more in front, each is answered alike if and only if it neither follows a deployment nor recreates a stack or a service |
| EdgeRoutes.SameOperationExactly | internal/edge/stacks.go:38-206 | for every edge path and every operation of the direct mode: the path reaches it if and only if it is the direct path with "stacks" in front and the operation is none of these |
| EdgeRoutes.RecreateIsRefused | internal/edge/stacks.go:156-196 | the failing inputs: recreating a stack or a service is refused there |
| EdgeStacks.SaveAndShow | internal/edge/stacks.go:93-138 | a reply below 300 shows exactly what was sent, and that is what is stored, everything else unchanged; an unacceptable request changes nothing |
| EdgeStacks.ShowStack | internal/edge/stacks.go:84-91 | 400 exactly for a name that can have no directory, 404 exactly for a missing directory, else the stored content |
| EdgeStacks.SendStackFull | internal/edge/stacks.go:211-218 | always 200, with the stored stack exactly if there is one |
| EdgeStacks.ShowGlobalEnv | internal/edge/stacks.go:59-65 | the stored text, an error exactly for a folder in its place |
| EdgeStacks.ReplaceGlobalEnv | internal/edge/stacks.go:67-82 | a reply below 300 means that the text is stored; a refused text changes nothing |
| EdgeStacks.RefusedExactlyWithoutOperation | internal/edge/stacks.go:152-196 | the switch refuses exactly the actions and services for which there is no lifecycle operation |
| EdgeStacks.AskedIsDone | internal/docker/stack_store.go:528-628 | word by word, the commands that each action of a stack or a service, an update and a deletion run |
| EdgeStacks.PerformAndShow | internal/edge/stacks.go:140-202 | unknown actions and services are refused without a trace; else one lifecycle call, which did word by word what was asked, and the status tells how it ended: 200, 409 if busy, 400 for a bad name, or what a failed command's text says; a deletion that works removes the stack's files, one that fails at most some of them, and nothing else changes what is stored |
| EdgeStacks.AnswerStackRequest | internal/edge/stacks.go:35-207 | a reply below 300 means that what was asked for was achieved, deletions included; reads answer exactly what is stored; only writes and deletions change what is stored, and only lifecycle calls touch the lock |
| EdgeStacks.HandleStackRequest | internal/edge/stacks.go:35-207 | exactly one plain reply with that status in every branch; only an accepted deployment goes on to stream |
| EdgeStacks.HandleEdgeStackDeploy | internal/edge/stacks.go:222-288 | one error reply when the sent stack is not saved or, without one, exactly if the name is invalid; else the stream for every interleaving, what was sent being stored |
| EdgeStacks.SaveThenShow | internal/edge/stacks.go:84-138 | a stack that was created or replaced is shown by the next request exactly as it was sent |
| EdgeStacks.RemoveThenShow | internal/edge/stacks.go:84-146 | a stack that was deleted is not found by the next request |
| EdgeStacks.HandleRequest | internal/edge/client.go:128-401 | whatever a request leads to, its frames are the beginning of an answer, and a whole one when the handler returns |
| EdgeConnection.WritesNeverOverlap | internal/edge/client.go:529-533 | in every interleaving of handlers and heartbeat a write ends before the next begins |
| EdgeConnection.EveryRequestIsAnsweredInOrder | internal/edge/client.go:529-553 | for every request id, whatever the others do, the frames on the connection are a prefix of what its handler hands over, keep to the language, and are all of it, so a whole answer if that is one, once nothing is left |
| EdgeConnection.AnswerOnConnection | internal/edge/client.go:99-137 | from the handler of any request to the connection: in every interleaving its frames there are the beginning of an answer, and a whole one once it has returned and nothing is left |
| EdgeConnection.SomeoneCanMove | internal/edge/client.go:105-126 | the mutex never deadlocks while a handler has frames left |
| Apps.Merge | internal/docker/apps.go:79-95 | the merged list is the first occurrences of nonempty ids over both listings |
| Apps.IdsAreKeptOnce | internal/docker/apps.go:79-95 | every nonempty id is kept, once |
| Apps.FirstIsKept | internal/docker/apps.go:79-95 | a kept container is the first one with its id |
| Apps.OrderIsKept | internal/docker/apps.go:79-95 | merging keeps the order of the listings |
| Apps.Group | internal/docker/apps.go:103-137 | projects are exactly the effective ones; each has its auto-update flag and services as its containers say |
| Apps.FirstOfIsFirst | internal/docker/apps.go:122-136 | a service comes from the container that no other one of the service precedes |
| Apps.ServiceList | internal/docker/apps.go:141-145 | the services of the map, strictly sorted, for every iteration order |
| Apps.MakeApps | internal/docker/apps.go:139-153 | the app list for every iteration order of the projects |
| Apps.LessExactly | internal/docker/apps.go:145-152 | names are sorted by their first difference, a beginning standing before what it begins |
| Apps.ListApps | internal/docker/apps.go:70-154 | strictly sorted apps, one per effective project; told by fields and labels: every named service of every project is listed, with image and state of its first container, and auto-update is true exactly if some container of the project carries it |
| Apps.OneAppList | internal/docker/apps.go:139-153 | only one list meets that description, so map iteration order cannot show |
| FileCommand.AcceptedPaths | internal/docker/files.go:30-48 | an accepted path is absolute, clean, without two dots in a row, and accepted as it stands |
| FileCommand.AcceptedExactly | internal/docker/files.go:30-48 | accepted are exactly the absolute paths without control characters other than tabs whose clean form does not contain ".." |
| FileCommand.DetoursDoNotMatter | internal/docker/files.go:30-48 | a path that goes into a directory and up again is accepted, refused and written as the one without |
| FileCommand.RefusedForDots | internal/docker/files.go:43-45 | of absolute paths without control characters exactly those with two dots in a kept name are refused |
| FileCommand.LexEscaped | internal/docker/files.go:140 | the shell undoes the quote escaping, whatever the text |
| FileCommand.ScriptReadsBack | internal/docker/files.go:137-141 | for every path and every content without a quote the shell reads exactly the eight literal tokens |
| FileCommand.WritesWhatWasAsked | internal/docker/files.go:128-148 | for every accepted path and all bytes, running the script writes exactly these bytes to the cleaned path |
| Base64.RoundTrip | internal/docker/files.go:137 | decoding the encoding gives the content back, and the encoding has no quote |

## Left out

- Deploy.DiagnoseDeployError: abbreviates the advice to its first words; event messages and clock times are not modelled, only steps, statuses and counts.
- Deploy.CreateAndStartService: takes the first port or volume entry that does not parse as given; port, volume, environment, command and network settings of the container are not modelled. What the daemon refuses is told by the name and the kind of the request, or the number of a pull.
- Deploy.DeployComposeStreamed: does not validate the project name, as the code does not; the plain deployment does. Other clients that change containers during a run are not modelled.
- Deploy.PullImageIfNeeded: registry credentials only decide which hint is emitted.
- StackStore.WriteComposeFile: a streamed deployment passes project names unchecked; its effect is stated for valid ones.
- StackStore.SaveStack: takes no lock, as in the code, so the store is refined sequentially; the YAML and environment checks are parameters.
- StackStore.GetStack: read errors on existing files, and a plain file where a stack directory should be, are not modelled; subdirectories are opaque.
- ComposeLabels.RewriteThenRead: mapping labels with duplicate keys, which the decoder rejects later, are excluded; how a value that is not a string prints is a parameter.
- ComposeNodes.SetServiceLabel: requires at most one labels entry per service and no shared nodes; aliases, anchors, merge keys and keys that are not strings are excluded, and YAML parsing and printing are not modelled.
- AutoUpdate.SwitchThenList: container ids are distinct and not empty; writing the rewritten file back to where it was read is not modelled, nor are listings that fail. A file without services, or one that does not decode, is refused by the deployment here and by the rewriter in the code, with the same answer and no effect on containers. Its agreement with the switch is for files whose services name the switch at most once and claim no project of their own.
- EdgeStacks.HandleRequest: which branch a path outside of stacks leads to is a parameter, as is the outcome of every Docker call; removal of sessions is not modelled.
- EdgeStacks.AnswerStackRequest: the status that an operation's error text leads to is a parameter, 400, 404 or 409; the content of listings, run states and services is not modelled. Commands of `docker compose` change no files of a stack.
- EdgeRoutes.NothingIsMirrored: path segments are not empty, and methods other than those routed reach nothing.
- EdgeFrames.StreamEvents: takes what it meets as given; `EdgeDeploy` derives it from the session.
- EdgeConnection.EveryRequestIsAnsweredInOrder: frames are counted when their write begins; write errors, reconnects, enrolment and the bytes on the wire are not modelled.
- ExecStream.Demultiplex: starts from the bytes of the whole stream; exec creation, polling and timeouts are not modelled.
- FileCommand.Tokenize: covers quotes, backslashes, blanks, pipes and plain redirections, and refuses every other construct of the shell.
- Apps.ListApps: containers come with trimmed names and short ids; failing listings are not modelled.
- StackDeploy.StreamLines: lines longer than the scanner's buffer end the output in the code and are not modelled; error texts are abbreviated.
- StackLock.Host.StackUpdate: whether a stack runs is told by the host, but the listing may fail to show it; compose arguments for environment files are not modelled.
- Listing of stacks and their status, networks, images, host statistics, certificates, configuration and token checks would only add easy members.
