# draug: a verified model

draug runs commands in rootless sandboxes. A sandbox is an overlayfs upper layer over a
read-only project directory, a guest process that serves exec connections, and a row in a
registry shared by every draug process of a user. This project models the parts of draug
that are hard to get right and proves what they promise.

| modules | part of draug |
|---|---|
| `Trees`, `Overlay` | trees with whiteouts and opaque directories, and the overlay merge as an independent specification |
| `Diff`, `DiffTheorems`, `PathStrings`, `Sorting`, `DiffWalk` | the structural diff of an upper layer: what it should report, what it reports, and the walker itself |
| `LayerCopy`, `Snapshots` | copying a layer, and capture followed by restore |
| `Framing`, `HostStream` | the length-prefixed wire format, read and written on both sides, and the host's event stream |
| `Router`, `RouterHistory`, `RouterFifo` | routing of exit statuses in PID 1 |
| `ExecProtocol`, `ExecSafety`, `ExecEnding`, `ExecOutcome` | one exec connection as a transition system: main loop, two pumps, completion thread, watchdog, child, clock and the host's end of the socket; what it writes, when it ends, and what it reports |
| `Lifecycle`, `LifecycleSafety`, `LifecycleSpawn`, `LifecycleReaping`, `LifecycleEffects` | spawn, snapshot, destroy and reconcile by several processes, with crashes |
| `Registry`, `Reconciling`, `Quota` | the two tables, an undisturbed reconciliation, and the sandbox quota |
| `Capturing`, `TextLines`, `Utf8`, `Clamp` | capturing the output of an exec, and clamping it |
| `MountText`, `Remount` | the text of mountinfo, and the recursive read-only remount |

Code that changes state is modelled as classes and methods proved against functions of the
old state; protocols are transition systems whose theorems are about every run.

## What the proofs found

Where a promise of the code or its comments does not hold in general, the model keeps the
code's behaviour and the theorem says exactly when the promise holds.

* **Diff is not exact on every layer.** The walker does not remember that a parent was
  opaque. A plain directory nested in an opaque one hides every base entry it does not
  name, and none of these is reported as deleted (`NestedDirectoryLosesDeletion`,
  `UnfaithfulLayerExists`). A base symlink to a directory makes the walker compare with
  the link's target, and an opaque flag on the root of the layer is never read. A lookup in
  the base that fails counts as finding nothing, so below a base directory that the caller
  may not search, deletions are lost and changes are reported as additions
  (`UnsearchableDirectoryIsMisreported`, `UnsearchableLayerExists`). The report is exact if and
  only if `Diff.FaithfulLayer` holds, a structural condition that can be computed from the
  two trees, from what the base's symlinks lead to, which may lie anywhere on the host, and
  from which base entries can be looked up (`ReportIsExactIffFaithful`).
* **A clean end and a torn length look alike.** `read_frame` answers "no more frames" after
  one to three stray bytes as well as at a frame boundary (`CutStream`).
* **The host does not check the frame limit when it writes.** The guest reads such a frame
  back exactly when its body is within the limit. The length is also truncated to 32 bits,
  so a longer body is rejected as oversized exactly when its truncated length is still over
  the limit; otherwise the guest takes a first part of it for a message and the rest for
  further frames (`HostFrameIsReadIffItFits`, `TruncatedLengthIsMisread`, `HugeBodyIsMisread`).
* **A connection can hang after its child is gone.** A host that keeps the connection open
  and stops reading blocks the pumps or the completion thread in a write, and the main loop
  in a read. With the child dead, its pipes closed and nothing further happening outside,
  it returns if and only if
  the host is not stalled before the terminal frame is out, the main loop is not stuck
  writing to a stdin that somebody still holds open, and the child's status was not evicted
  before it was claimed (`ReturnsIffNotHanging`, `StalledHostHangs`, `LostStatusHangs`).
* **A child can be left running.** A host that is gone gets the child killed, unless it was
  done by itself, with exactly two exceptions: the main loop is stuck writing to the child's
  stdin, or the connection broke while `Started` was written (`LeftRunningIff`). In the latter
  case a requested timeout is not enforced either (`AbandonedChildRunsOn`).
* **Evicted statuses and pids.** A connection that claims its child's status after that status
  was evicted waits on a bare pid that may belong to another process by then, even if the
  kernel never reuses a pid that is still in a table. Every connection is answered with its
  own child's status if and only if no evicted status is claimed (`AnsweredRightlyIffInTime`),
  and a status is evicted only after 4096 later ones have been parked (`EvictsOnlyTheOldest`),
  so claims that come before that are all answered rightly (`EarlyClaimsAreAnswered`).
* **Reconcile can reap a live sandbox.** It reads liveness before it takes the lock, so a
  spawn that finishes in between is reaped (`ReconcileCanReapTheLiving`); and liveness that
  cannot be read counts as death (`MisreadGuestIsReaped`). The guest is alive when it is
  reaped if and only if, at that read, it was up and the read failed, or its spawn, holding
  the lock, was between its insert and its guest; and the guest came up and has not died
  since (`ReapedAliveIff`). With reads that succeed, looking at the lock together with
  liveness would be enough.
* **A pending freeze outlives reconcile.** A freeze request that the kernel has not reported
  done after two seconds counts as done for the snapshot, and as not frozen for reconcile. If
  the snapshot dies then, an undisturbed reconcile leaves the request in place and the live
  sandbox freezes afterwards (`PendingFreezeOutlivesReconcile`). No live sandbox is left told
  to freeze if and only if none had such a pending request (`Reconciling.Host.Reconcile`).
* **Clamped lines and carriage returns.** The clamped text reads back as the kept lines if and
  only if no kept line ends in a carriage return (`ClampedLinesReadBack`).
* **Flags that the remount changes.** `nosymfollow` is not among the options parsed, and strict
  atime cannot be told from its absence: asked for `nodiratime` alone, the kernel adds
  relatime. A remounted mount keeps its flags if and only if it has no `nosymfollow`, and has
  no atime flag or exactly one of `noatime` and `relatime` (`FlagsSurviveIff`). Where mounts are
  stacked, a visible mount with strict atime keeps it if and only if no granted call for a
  mount hidden below it asked for an atime flag (`StrictAtimeSurvivesIff`).
* A missing sandbox on snapshot insertion violates the foreign key and surfaces as
  "already exists" (`Registry.Tables.InsertSnapshot`).

## Assumptions

* Trees do not change while they are walked or copied (the freeze worked, or the layer is quiet).
* Which system calls fail, and how, is an arbitrary parameter (`Faults`, `Refusals`, the
  `ok` of a step); so is the order in which directory entries are read.
* A frame write succeeds while the host takes frames, fails once the socket is closed or shut
  down, and otherwise blocks; a frame is written only if it fits the limit. How much the
  socket holds before a host that does not read is stalled is arbitrary.
* The status that a connection reports is the one routed to it. It is the child's own unless
  that was evicted before it was claimed (`Routed`), which the `RouterFifo` theorems bound, for
  pids that are not reused while they are in one of the router's tables.
* The quota's gate belongs to one server process. A second server, or the command-line tool,
  over the same registry inserts rows past it, and then the limit does not hold.
* Removing a state directory is one step, sandbox ids are fresh, and flock itself never fails.
* A codec decodes what it encodes (`Framing.Lawful`); nothing else is assumed about it.
* The model of a run may stop at any step; crashes are steps of their own.

## Model

| member | source | states |
|---|---|---|
| Overlay.MergedChild | draug-ns/src/linux/diff.rs:3-6 | looking up a name in the merged view is merging the two entries of that name, with nothing below an opaque directory |
| Overlay.Markers | draug-ns/src/linux/diff.rs:136-151 | only a character device 0:0 is a whiteout, and only a directory with the value "y" of the opaque attribute in either namespace is opaque |
| Overlay.WhiteoutFreeIsVisible | draug-ns/src/linux/diff.rs:3-6 | a base without whiteouts is shown unchanged |
| Diff.RemovalIsExact | draug-ns/src/linux/diff.rs:112-134 | reporting a removed subtree entry by entry is exact when the base has no whiteouts in it |
| Diff.WalkIsExact | draug-ns/src/linux/diff.rs:27-86 | at every path of a faithful layer the walker reports the true change between the base and the overlay merge |
| Diff.ExactImpliesFaithful | draug-ns/src/linux/diff.rs:27-86 | conversely, a walker exact at every path below an entry means the entry is faithful |
| Diff.ReportDescribes | draug-ns/src/linux/diff.rs:153-161 | an addition or modification has the size, mode and format of the upper layer's node, a deletion those of the base's: the size of a file's content or a link's target, zero for a device, none for a directory |
| Diff.SeeIsFind | draug-ns/src/linux/diff.rs:32-35 | the base's node at a path is the one found by plain lookup wherever that finds any, and everywhere if no base symlink leads to a directory |
| Diff.LinkedNameIsMisreported | draug-ns/src/linux/diff.rs:32-35 | an entry compared with what lies behind a base symlink is always misreported |
| Diff.RefusedNameIsMisreported | draug-ns/src/linux/diff.rs:35-35 | an entry facing a base entry whose lookup fails is always misreported |
| Diff.NameIsExact | draug-ns/src/linux/diff.rs:28-36 | one name of a faithful directory, with whatever its lookup in the base gives, is reported exactly |
| Diff.ReportIsExactIffFaithful | draug-ns/src/linux/diff.rs:16-86 | Deleted, Added and Modified are reported exactly as the merge requires, at every path, if and only if the layer is faithful |
| DiffTheorems.OrdinaryLayersAreExact | draug-ns/src/linux/diff.rs:53-63 | on a base without whiteouts or directory symlinks, all of it reachable, with a root that is not opaque, opaqueness all the way down is enough for exactness |
| DiffTheorems.NestedDirectoryLosesDeletion | draug-ns/src/linux/diff.rs:53-63 | a plain directory nested in an opaque one loses the deletion of every base entry it does not name |
| DiffTheorems.UnfaithfulLayerExists | draug-ns/src/linux/diff.rs:53-63 | such a layer exists over a base without whiteouts |
| DiffTheorems.UnsearchableDirectoryIsMisreported | draug-ns/src/linux/diff.rs:35-46 | below a base directory whose entries cannot be looked up a deletion is lost and a change is reported as an addition |
| DiffTheorems.UnsearchableLayerExists | draug-ns/src/linux/diff.rs:35-46 | such a layer exists over a base without whiteouts, and its walk completes |
| DiffTheorems.MergedProvenance | draug-ns/src/linux/diff.rs:16-19 | what the merge shows at a path comes from the upper layer if that has the path, and else from the base |
| DiffTheorems.PatchRebuildsMerged | draug-ns/src/linux/diff.rs:16-86 | applying the reported change at a path, reading the upper layer only where something was added or modified, gives the merged entry up to metadata of shared directories |
| DiffTheorems.PatchedTreeIsMerged | draug-ns/src/linux/diff.rs:16-86 | a tree patched so at every path is the merged tree, up to the metadata of directories |
| PathStrings.RenderIsInjective | draug-ns/src/linux/diff.rs:163-169 | two different paths never have the same joined string |
| PathStrings.PrecedesIsLexicographic | draug-ns/src/linux/diff.rs:23-23 | the order of the entries is lexicographic by character |
| DiffWalk.DiffLog.Push | draug-ns/src/linux/diff.rs:153-161 | one entry is appended for one path |
| DiffWalk.PushDeleted | draug-ns/src/linux/diff.rs:115-134 | appends the removal of the node and of everything below it, each path once, and completes if and only if all of it can be read |
| DiffWalk.ReportShadowed | draug-ns/src/linux/diff.rs:91-110 | appends the removal of every base child that the opaque directory does not name, and nothing else, and completes if and only if all of these can be read |
| DiffWalk.WalkEntry | draug-ns/src/linux/diff.rs:37-83 | appends exactly the planned report of one upper entry: no path twice, none left out; completes if and only if what it has to read can be read |
| DiffWalk.Walk | draug-ns/src/linux/diff.rs:27-86 | appends exactly the planned report of a directory, in whatever order it is read; completes if and only if what it has to read can be read |
| DiffWalk.TruthIffFaithful | draug-ns/src/linux/diff.rs:16-25 | a list holding the report lists the true changes if and only if the layer is faithful |
| DiffWalk.DiffUpper | draug-ns/src/linux/diff.rs:16-25 | there is a result if and only if what the walk has to read can be read; it is strictly ascending by path, lists exactly the report, each entry with the size and mode of the version that explains it, and lists exactly the true changes if and only if the layer is faithful |
| Sorting.SortIsAscending | draug-ns/src/linux/diff.rs:23-23 | sorting keeps every entry, and distinct paths come out strictly ascending |
| LayerCopy.SetOwnerMode | draug-ns/src/linux/fscopy.rs:243-251 | chown before chmod leaves owner and the full 07777 mode, although chown clears the setuid and setgid bits |
| LayerCopy.CopyXattrs | draug-ns/src/linux/fscopy.rs:330-343 | on success every overlay attribute has arrived, others arrive or are skipped; it fails only if listing or reading an attribute does, or setting one in an overlay namespace |
| LayerCopy.WriteOut | draug-ns/src/linux/fscopy.rs:303-316 | the inner loop writes the whole buffer through short writes |
| LayerCopy.CopyLoop | draug-ns/src/linux/fscopy.rs:291-319 | short reads and writes append all that is left of the source and count it |
| LayerCopy.CopyContents | draug-ns/src/linux/fscopy.rs:259-289 | whichever mechanism runs, success means equal contents and a count equal to the file's size; it fails only if the reflink is refused and the in-kernel copy fails, or that is unsupported from the start and a read or write of the loop fails |
| LayerCopy.CopyEntry | draug-ns/src/linux/fscopy.rs:47-80 | success adds one name equal in kind, contents, target, device, owner, mode and overlay attributes, adds its bytes to the tally, and leaves all other names alone |
| LayerCopy.CopyDir | draug-ns/src/linux/fscopy.rs:46-83 | success copies every entry once and tallies their bytes; it fails with the error of a call that has to succeed for some entry, or for a taken name or an unwritable directory |
| LayerCopy.CopyTree | draug-ns/src/linux/fscopy.rs:22-43 | a copy into an empty or fresh destination is the source up to attributes that may be lost, and the result is the number of regular-file bytes |
| LayerCopy.CopyLayer | draug-ns/src/linux/backend.rs:763-784 | a good copy, whether the direct copy succeeds or fails part-way for lack of permission and the helper copies anew; the helper is called exactly on a denied direct copy, any other error is the direct copy's own, and after a denied one it fails only if the helper's copy has a cause to, into nothing if the partial output was removed |
| LayerCopy.NoFaultNoCause | draug-ns/src/linux/backend.rs:776-780 | into nothing and without failing calls the helper's copy has no cause to fail |
| LayerCopy.EqualEssenceMeans | draug-ns/src/linux/fscopy.rs:22-24 | at every path the copy has the same kind, owner, mode, content, target, device and names, and the same attributes in both overlay namespaces |
| Snapshots.EssenceKeepsMarkers | draug-ns/src/linux/fscopy.rs:321-328 | what a copy may lose never changes a whiteout, an opaque mark or a reported size or mode |
| Snapshots.EssenceIsWalkedAlike | draug-ns/src/linux/diff.rs:27-86 | a layer and its copy have the same diff against every base |
| Snapshots.EssenceCompletesAlike | draug-ns/src/linux/diff.rs:27-86 | the walk of a layer completes if and only if that of its copy does |
| Snapshots.EssenceMergesAlike | draug-ns/src/linux/backend.rs:415-417 | a layer and its copy merge to the same view over every base, up to what a copy may lose |
| Snapshots.SameEssenceSameView | draug-ns/src/linux/backend.rs:441-457 | equal up to what a copy may lose means the same view and the same diff for every base |
| Snapshots.CaptureAndRestore | draug-ns/src/linux/backend.rs:189-201 | after a capture and a restore that both report success, the new sandbox has the merged view and the diff of the original over every base; it fails only if one of the two copies has a cause to |
| Framing.BigEndianRoundTrip | draug-proto/src/lib.rs:90-90 | the length prefix is read as it was written |
| Framing.ReadFrame | draug-proto/src/lib.rs:82-102 | consumes and returns what the wire format says is next: a message, the end, or an oversized, truncated or malformed frame |
| Framing.WriteFrame | draug-proto/src/lib.rs:104-115 | appends one whole frame if the body fits the limit and else nothing |
| Framing.FrameRoundTrip | draug-proto/src/lib.rs:83-115 | a written frame is read back and leaves exactly what follows it |
| Framing.CutStream | draug-proto/src/lib.rs:82-115 | a stream of frames cut anywhere gives exactly the whole frames, then the end if at most three bytes are left over and an error otherwise |
| Framing.WholeStream | draug-proto/src/lib.rs:82-115 | an uncut stream gives back all its messages and then the end |
| Framing.HostFrameIsReadIffItFits | draug-ns/src/linux/backend.rs:961-967 | a frame the host writes unchecked, of any length, is read back if and only if its body is within the limit, and one that is not is oversized if and only if its length modulo 2^32 is over it |
| Framing.TruncatedLengthIsMisread | draug-ns/src/linux/backend.rs:961-967 | otherwise a first part of the body is taken for the whole, and the rest stays to be read as frames |
| Framing.HugeBodyIsMisread | draug-ns/src/linux/backend.rs:964-964 | a body of 4 GiB that arrives as the empty message |
| HostStream.ReadEvents | draug-ns/src/linux/backend.rs:301-343 | whatever bytes arrive, the events are those of the frames up to the first terminal one, any number that do not end the stream and then exactly one that does |
| HostStream.EventsAreFrames | draug-ns/src/linux/backend.rs:304-315 | events and frames correspond one to one: pids, bytes, statuses and error kinds arrive unchanged |
| HostStream.EventsOfFrames | draug-ns/src/linux/backend.rs:303-335 | frames with a terminal at most at their end give their own events, plus one protocol failure if there is none |
| HostStream.WireFits | draug-proto/src/lib.rs:104-115 | since a write of a frame over the limit fails, every frame of every run fits |
| HostStream.HostSeesTheRun | draug-ns/src/linux/backend.rs:301-343 | whatever first bytes of a connection's output the host receives in any run, with part of one more frame if a write broke off, its events are those of the whole frames, ended by the terminal event or by one protocol failure |
| Capturing.Capture.Push | draug-cli/src/mcp.rs:633-639 | the buffer stays the prefix, of the capped length, of all that was ever pushed |
| Capturing.Gather | draug-cli/src/mcp.rs:372-387 | the event loop captures all that the events say of each stream, and ends with the terminal event |
| Capturing.EventsSayWhatTheChildWrote | draug-guest/src/server.rs:308-379 | after a terminal frame without failed reads or writes, the host's events carry exactly what the child wrote, and end with the timeout if and only if that was marked when the terminal frame was chosen, and else with the routed status |
| Router.Router.Route | draug-guest/src/server.rs:152-177 | a status goes to the waiter of its pid, or is parked and the oldest parked ones are evicted down to the cap |
| Router.Router.Claim | draug-guest/src/server.rs:180-191 | takes the parked status of the pid, or registers a waiter |
| Router.QueueIsNotEmpty | draug-guest/src/server.rs:167-174 | while something is parked the queue has a front, so eviction never finds it empty |
| Router.TrimMeetsCap | draug-guest/src/server.rs:167-174 | eviction ends at or under the cap, with every parked pid still queued |
| Router.RouteKeepsWellFormed | draug-guest/src/server.rs:152-177 | routing keeps every parked pid queued, the cap met, and no pid both waited for and parked |
| Router.ClaimKeepsWellFormed | draug-guest/src/server.rs:180-191 | claiming keeps the same |
| Router.ClaimAndRouteCommute | draug-guest/src/server.rs:152-191 | reaping first or claiming first hands over the same status and leaves the same tables |
| RouterHistory.RunsAreSound | draug-guest/src/server.rs:113-191 | in every run, even with pid reuse, each reaped status is delivered once, parked, evicted or overwritten, and only one of these |
| RouterFifo.TrimIsFifo | draug-guest/src/server.rs:167-174 | eviction takes the single oldest status that is still parked, skipping stale queue entries |
| RouterFifo.FreshRunsAreFifo | draug-guest/src/server.rs:117-177 | without pid reuse the queue is a suffix of the order of parking, and evictions come in that order |
| RouterFifo.EvictsOnlyTheOldest | draug-guest/src/server.rs:108-174 | an evicted status was parked before every parked one, and at least 4096 were parked after it |
| RouterFifo.TimelyRunsAreOwned | draug-guest/src/server.rs:152-191 | as long as claims are in time, waiting connections wait for live children and unclaimed statuses are parked or evicted |
| RouterFifo.AnsweredRightlyIffInTime | draug-guest/src/server.rs:179-191 | without pid reuse every connection gets exactly its own child's status if and only if no connection claims a status already evicted |
| RouterFifo.EvictedNeverArrives | draug-guest/src/server.rs:167-191 | a status once evicted never reaches its connection, even when pids are reused |
| RouterFifo.EarlyClaimsAreAnswered | draug-guest/src/server.rs:179-191 | without pid reuse, if every claim comes before 4096 later statuses have been parked, every connection gets its own child's status |
| ExecSafety.RunsAreSafe | draug-guest/src/server.rs:205-353 | the invariant of one connection over every interleaving of its threads |
| ExecSafety.FramesAreLegal | draug-guest/src/server.rs:205-330 | the wire always holds a prefix of one Error of kind "protocol" or "spawn-failed", or of Started, then output, then exactly one Exit or Error |
| ExecSafety.NothingFollowsTheTerminal | draug-guest/src/server.rs:312-328 | once the terminal frame is written nothing is written any more |
| ExecSafety.KillsExactlyWhenUnfinished | draug-guest/src/server.rs:334-350 | the main loop kills the group exactly when it leaves and sees the child unfinished; never after the completion thread's own shutdown, and only if the host closed the connection or broke the protocol |
| ExecSafety.TimeoutMeansTooLate | draug-guest/src/server.rs:283-325 | a child known to be done by the deadline is reported by the status routed to the connection, its own unless that was lost; a terminal error is a timeout whose deadline passed with the child not known to be done |
| ExecSafety.OutputIsCompleteAtTheTerminal | draug-guest/src/server.rs:308-379 | payloads are prefixes of the pipes in chunks within the limit, and, if no write or read failed, both pipes are complete when the terminal frame is written |
| ExecOutcome.ChoiceWasMade | draug-guest/src/server.rs:315-327 | a terminal frame written or to be written goes back to one choice, of the timeout or of the routed status |
| ExecOutcome.TerminalIsTheOutcome | draug-guest/src/server.rs:315-327 | the terminal frame is the timeout if and only if the watchdog had marked it when the frame was chosen, and else the routed status |
| ExecOutcome.WatchdogKillIsReported | draug-guest/src/server.rs:294-318 | a child that the watchdog killed before the terminal frame was chosen is reported as a timeout |
| ExecOutcome.StartWasAsked | draug-guest/src/server.rs:268-300 | a connection with a child goes back to one request: the first frame has its child's pid, and there is a watchdog if and only if it had a timeout |
| ExecOutcome.DeadlineIsEnforced | draug-guest/src/server.rs:283-300 | at rest past the deadline of a request with a timeout, the child was killed or is done |
| ExecEnding.ThreadStepsCostRank | draug-guest/src/server.rs:277-353 | every step of a thread uses up a bounded amount of remaining work |
| ExecEnding.SomeThreadCanMove | draug-guest/src/server.rs:302-353 | with the child dead and its pipes closed, a connection not bound to hang can step until it returns |
| ExecEnding.ThreadsOnly | draug-guest/src/server.rs:302-353 | whether such a connection is bound to hang is not changed by its own threads |
| ExecEnding.ReturnsIffNotHanging | draug-guest/src/server.rs:302-353 | its threads take a bounded number of steps, and when they rest it has returned if and only if it was not bound to hang on a stalled host, a stuck stdin or a lost status |
| ExecEnding.StalledHostHangs | draug-guest/src/server.rs:326-379 | for any amount of output left unread, a run that ends with the child dead, its pipes closed, the host stalled, and no thread able to step |
| ExecEnding.LostStatusHangs | draug-guest/src/server.rs:179-191 | a run that ends so with a host that reads, the child's status having been evicted |
| ExecEnding.LeftRunningIff | draug-guest/src/server.rs:332-350 | at rest with the host gone, the child was neither killed by the main loop nor done if and only if the connection ended before its threads, or the main loop is stuck feeding the child |
| ExecEnding.DeadlineIsKeptIff | draug-guest/src/server.rs:283-300 | at rest past the deadline, the child was neither killed by the watchdog nor done if and only if there is no watchdog and it is not done |
| ExecEnding.AbandonedChildRunsOn | draug-guest/src/server.rs:269-269 | a run in which a failed write of Started leaves a child with a timeout running, unkilled and unwatched |
| LifecycleSafety.StepsKeepLocks | draug-ns/src/linux/backend.rs:71-82 | every step of every process keeps the lock table exact |
| LifecycleSafety.RunsAreConsistent | draug-ns/src/linux/backend.rs:90-233 | in every run locks are held by exactly the operations past acquiring them, and every sandbox frozen or told to freeze is being snapshotted or was abandoned so |
| LifecycleSafety.OperationsExclude | draug-ns/src/linux/backend.rs:71-82 | two processes never hold the lock of one sandbox |
| LifecycleSafety.ReapHoldsTheLock | draug-ns/src/linux/backend.rs:109-120 | reconcile tears down only under the sandbox's lock, so never during a spawn, snapshot or destroy of it |
| LifecycleSafety.ThawHitsOnlyAbandoned | draug-ns/src/linux/backend.rs:125-143 | reconcile thaws only a sandbox whose snapshot crashed or failed to thaw it |
| LifecycleSafety.PendingFreezeOutlivesReconcile | draug-ns/src/linux/cgroup.rs:93-121 | a run in which a live sandbox freezes after an undisturbed reconcile, with no operation left to thaw it |
| LifecycleEffects.AbandonedOnlyThen | draug-ns/src/linux/backend.rs:403-424 | a sandbox comes to be left frozen only by a crash of its snapshot while it is frozen, or by a failing thaw |
| LifecycleEffects.SnapshotThaws | draug-ns/src/linux/backend.rs:419-424 | a snapshot that finishes copying and succeeds in thawing leaves its sandbox neither frozen nor told to freeze |
| LifecycleEffects.FrozenOnlyWhileCopying | draug-ns/src/linux/backend.rs:399-424 | in a run without such crashes and failures, a sandbox is frozen only while a snapshot is copying it |
| LifecycleEffects.SnapshotRechecks | draug-ns/src/linux/backend.rs:353-358 | a snapshot goes on if and only if, with the lock held, its sandbox still has a row |
| LifecycleEffects.ReconcileThaws | draug-ns/src/linux/backend.rs:127-143 | a reported freeze found with the lock free is lifted |
| LifecycleEffects.RowWithoutDirectoryIsDropped | draug-ns/src/linux/backend.rs:101-108 | a row found without its state directory is dropped, and nothing else changes |
| LifecycleEffects.TeardownStartsIff | draug-ns/src/linux/backend.rs:97-120 | a failed spawn with a row, a destroy with the lock and a reconcile that finds a dead sandbox unlocked, and only these, start to tear down, from the guest on |
| LifecycleEffects.TeardownRunsThrough | draug-ns/src/linux/backend.rs:476-496 | four steps that succeed remove exactly that sandbox: guest, cgroup, directory, row |
| LifecycleEffects.RunsTearDown | draug-ns/src/linux/backend.rs:476-496 | in every run what a teardown has removed stays removed until it ends |
| LifecycleEffects.TeardownLeavesNothing | draug-ns/src/linux/backend.rs:476-496 | a teardown that removes the row has left nothing of the sandbox, whoever else was running |
| LifecycleEffects.OperationsEndWell | draug-ns/src/linux/backend.rs:174-233 | every operation ends done, with nothing to do, or after a teardown, and leaves no lock: a spawn with its row and directory, or without a row, or rolled back |
| LifecycleReaping.RunsAreExplained | draug-ns/src/linux/backend.rs:97-120 | in every run each sandbox comes up at most once, and one found dead is alive or coming up only if it was so then |
| LifecycleReaping.ReapedAliveIff | draug-ns/src/linux/backend.rs:97-120 | reconcile reaps a live guest if and only if, when it found it dead, it was up and the read failed or its spawn was between its insert and its guest, and the guest came up and has not died; never if it was down and the lock free at that moment |
| LifecycleSafety.MisreadGuestIsReaped | draug-ns/src/linux/backend.rs:843-850 | a run in which a guest that is up is about to be killed because its liveness could not be read |
| LifecycleSafety.ReconcileCanReapTheLiving | draug-ns/src/linux/backend.rs:97-120 | a run in which reconcile is about to kill a live guest |
| LifecycleSpawn.RunsAreUndisturbed | draug-ns/src/linux/backend.rs:174-233 | in every run, what a spawn has built so far is left alone by every other process |
| LifecycleSpawn.BuildingSandboxesKeepTheirState | draug-ns/src/linux/backend.rs:184-187 | a sandbox being spawned keeps its state directory, and its row from the moment it is inserted |
| Registry.Tables.InsertSandbox | draug-core/src/registry.rs:96-124 | succeeds if and only if neither id nor name is taken, and then adds just that row |
| Registry.Tables.GetSandbox | draug-core/src/registry.rs:126-139 | returns a row with that id or name, and fails only if there is none |
| Registry.Tables.RemoveSandbox | draug-core/src/registry.rs:166-172 | removes the row if present; no snapshot is lost, each keeps its key, name and size, and exactly those of this sandbox are detached |
| Registry.Tables.InsertSnapshot | draug-core/src/registry.rs:176-199 | succeeds if and only if the id is new, the sandbox exists and the label is new for it |
| Registry.OrphaningComposes | draug-core/src/registry.rs:32-32 | unlinking for two sets of sandboxes in turn is unlinking for both |
| Reconciling.Host.DestroyInner | draug-ns/src/linux/backend.rs:476-496 | guest, cgroup, state directory and row are gone and no other sandbox changes |
| Reconciling.Host.ThawIfOrphaned | draug-ns/src/linux/backend.rs:125-143 | a reported freeze is lifted, a pending one is left alone |
| Reconciling.PendingFreezesStay | draug-ns/src/linux/backend.rs:90-143 | what reconcile leaves pending is exactly what was pending |
| Reconciling.Host.Reconcile | draug-ns/src/linux/backend.rs:84-123 | undisturbed and without errors it removes exactly this backend's rows without a live guest and all traces of them, keeps every snapshot and detaches exactly theirs, lifts exactly the reported freezes of the others, changes nothing else, returns the number removed, and leaves no live sandbox told to freeze if and only if no freeze was pending |
| Quota.StepsStayWithinQuota | draug-cli/src/mcp.rs:548-580 | whoever is past the gate is alone and holds it, and whoever was admitted has room |
| Quota.CreatesEndRightly | draug-cli/src/mcp.rs:550-580 | a create is refused only if the registry cannot be read or the rows are at the limit; whenever it ends the gate is free, and a failed one leaves no row |
| Quota.RunsStayWithinQuota | draug-cli/src/mcp.rs:327-338 | in every interleaving of creates, restores and removals the rows never exceed the limit |
| Clamp.FloorBoundary | draug-cli/src/mcp.rs:684-689 | the last character boundary at or before the index |
| Clamp.CeilBoundary | draug-cli/src/mcp.rs:691-696 | the first character boundary at or after the index |
| Clamp.BoundariesAreNear | draug-cli/src/mcp.rs:684-696 | in valid text both are at most three bytes away |
| Clamp.ClampBytes | draug-cli/src/mcp.rs:670-682 | short text is unchanged; longer text keeps a head and a tail cut at the nearest boundaries around a marker counting what is missing |
| Clamp.ClampedBytesAreBounded | draug-cli/src/mcp.rs:670-682 | the result is valid text, is shorter by exactly the count in the marker, and is within the limit plus the marker |
| Clamp.DecimalIsExact | draug-cli/src/mcp.rs:677-681 | the number printed in a marker is the true count |
| Clamp.MarkersSayTheNumber | draug-cli/src/mcp.rs:660-681 | between the fixed texts of a marker stand the digits of the number it is for |
| Clamp.ClampLines | draug-cli/src/mcp.rs:649-668 | up to 200 lines the text is unchanged, beyond that it is the first and last hundred around a marker |
| Clamp.ClampedLinesReadBack | draug-cli/src/mcp.rs:649-668 | read as lines again it is exactly the kept lines and the marker, if and only if no kept line ends in a carriage return |
| Clamp.ClampText | draug-cli/src/mcp.rs:641-647 | clamping valid text by lines and then by bytes gives valid text within the bound |
| Utf8.ScalarIsCharacter | draug-cli/src/mcp.rs:644-644 | every Unicode scalar value is one character of valid text, in the encoding of section 3 of RFC 3629 |
| Utf8.CharacterIsScalar | draug-cli/src/mcp.rs:644-644 | every character of valid text is a Unicode scalar value |
| Utf8.CutAtBoundary | draug-cli/src/mcp.rs:684-696 | valid UTF-8 cut at a boundary is valid on both sides |
| Utf8.CharacterAt | draug-cli/src/mcp.rs:684-696 | every byte of valid UTF-8 lies in one character of at most four bytes |
| TextLines.UnterminatedLine | draug-cli/src/mcp.rs:650-650 | a last line without a newline is kept as it is, carriage return and all |
| TextLines.LinesReadBack | draug-cli/src/mcp.rs:649-668 | written lines are read back if and only if none ends in a carriage return |
| MountText.Unescape | draug-ns/src/linux/setup.rs:384-400 | replaces each backslash with up to three digits by the character they denote, and drops only the backslash otherwise |
| MountText.UnescapeInvertsEscape | draug-ns/src/linux/setup.rs:384-386 | unescaping inverts the kernel's octal escaping for every path, whichever characters are escaped beside the backslash |
| MountText.OctalTextsMean | draug-ns/src/linux/setup.rs:390-392 | octal digits up to 255 are read as their character, with or without one plus sign, and nothing else is |
| MountText.EscapedIsFree | draug-ns/src/linux/setup.rs:353-357 | an escaped path holds no field or line separator |
| MountText.ParseMountOpts | draug-ns/src/linux/setup.rs:368-382 | the flags are those whose option is named |
| MountText.OptionTextsMean | draug-ns/src/linux/setup.rs:371-379 | which flag each option text means, and that others mean none |
| MountText.OptionsReadBack | draug-ns/src/linux/setup.rs:359-382 | the kernel's option list gives back the access and every flag but `nosymfollow` |
| MountText.LineReadsBack | draug-ns/src/linux/setup.rs:352-361 | a mount line gives back mount point, access and known flags for every path |
| MountText.InfoReadsBack | draug-ns/src/linux/setup.rs:349-361 | the whole table gives back one listing per mount, in order |
| Remount.UnderIsByName | draug-ns/src/linux/setup.rs:358-358 | being under a directory is by whole names, not by text |
| Remount.SameIsByName | draug-ns/src/linux/setup.rs:329-329 | two paths are the same if and only if their names are, and depth counts names |
| Remount.ParentsComeFirst | draug-ns/src/linux/setup.rs:363-364 | a mount below another one is listed after it |
| Remount.SortedByDepth | draug-ns/src/linux/setup.rs:363-364 | the sort rearranges, puts parents first, and keeps the order of mounts at one depth |
| Remount.MountsUnder | draug-ns/src/linux/setup.rs:348-366 | returns the sorted listings of the lines at or under the directory |
| Remount.ListedIsExact | draug-ns/src/linux/setup.rs:346-362 | on the kernel's own table these are exactly the mounts at or under the directory |
| Remount.MountTable.RemountReadOnly | draug-ns/src/linux/setup.rs:325-344 | stops at the first refusal that cannot be tolerated, and on success every mount that a path at or under the directory resolves to is read-only |
| Remount.SuccessIsReadOnly | draug-ns/src/linux/setup.rs:320-323 | fail closed under any refusals, even with mounts stacked on one path |
| Remount.SuccessRemountsTop | draug-ns/src/linux/setup.rs:329-331 | on success the mount that the directory resolves to is read-only, with what the kernel makes of the flags that its own, last and granted, call asked for |
| Remount.RemountIsExact | draug-ns/src/linux/setup.rs:325-344 | with distinct mount points the new table is known row by row |
| Remount.FlagsSurviveIff | draug-ns/src/linux/setup.rs:316-318 | a granted remount keeps a mount's flags if and only if they lack `nosymfollow` and hold no atime flag or exactly one of `noatime` and `relatime` |
| Remount.VisibleMountIsTriedLast | draug-ns/src/linux/setup.rs:363-364 | of mounts stacked on one path the visible one is tried last, so a granted call decides its flags by its own listing |
| Remount.StrictAtimeSurvivesIff | draug-ns/src/linux/setup.rs:363-364 | a visible mount with strict atime keeps it if and only if no granted call on its path asked for an atime flag |

## Left out

- Errors on the upper layer during the diff walk, which abort it with no result (a directory there that may not be searched does so as soon as it holds anything), except that a passing failure of the lookup at draug-ns/src/linux/diff.rs:100 counts as absence.
- The octal rendering of modes in diff entries (the mode is compared as a number), names that are not valid UTF-8 and their lossy conversion.
- Which attribute namespace the kernel honours for a given mount option (the code accepts both), `redirect_dir` and metacopy layers, and uid mapping.
- Overflow of 64-bit byte counts, timestamps, hard links, symlink attributes, a write that returns zero, and `copy_file_range` returning zero early.
- LayerCopy.CopyTree: failure is explained by failing calls, taken names or an unwritable directory; root's bypass of directory permissions is not modelled.
- The line protocol of the copy helper and its timeout; the helper is a second copy with its own failures.
- The encoding of messages (an abstract codec), and I/O errors that break a stream in the middle of a frame other than by ending it.
- ExecSafety.OutputIsCompleteAtTheTerminal: nothing is said about connections on which a write or a pipe read failed, beyond the prefix property.
- ExecEnding.ReturnsIffNotHanging: says nothing about connections whose child is alive or whose output pipes are held open by a descendant.
- Stdin contents, the request's validation beyond its outcome, environment and working directory, and the time between checking that a child is done and killing its group.
- A dropped event handle (the host task just stops, and the guest sees the connection closed).
- Lifecycle.SpawnNext: a host without cgroups, where a spawn goes on without one, is not modelled.
- SQLite itself, its write-ahead log, migrations, list order, JSON limits, and the state and size updates of single rows; Registry.Tables.GetSandbox does not say which row wins when one's id is another's name, as the query does not either.
- Lifecycle: partial removal of state directories, replacement of lock files, failing flock, failing registry reads, a failing read of liveness inside the teardown (taken for a guest already gone), and the exec path; a sandbox found without a directory has its row dropped without a lock, as in the code.
- Reconciling.Host.Reconcile: states the outcome with no concurrent operation and no I/O error; interleavings and crashes are covered by the Lifecycle modules.
- Quota.RunsStayWithinQuota: a create that is cancelled while it holds the gate, and rows inserted by other processes, are not modelled.
- Clamp.ClampText: starts from text already decoded; the lossy decoding of invalid bytes is not modelled.
- Remount.MountTable.RemountReadOnly: mounts hidden under a later mount on a parent directory and a mount table that changes during the loop are not modelled.
- Mount namespaces, pivot_root, `/dev` setup, cgroup limits, networking, command-line and MCP schemas, and message texts.
