# konflate: a verified model of the render pipeline

konflate watches a forge for pull requests to a GitOps repository, renders each one
into a diff, and serves the diffs. This project models the parts of it that are easy
to get wrong and proves what they promise:

- the render queue (`Queue`, `Coalescing`, `QueueProtocol`, `QueueRequests`): per-PR coalescing, the
  slot semaphore, the sweep token, the shutdown drain, over every interleaving of
  any number of workers;
- the job store and its off-lock persistence (`Store`, `StoreProtocol`), with file
  operations that may fail and crashes at any point, and exactly which overlapping
  writes and removals are safe (`StoreOverlaps`);
- handlers, store and queue composed (`Pipeline`), for the gate that keeps filtered
  PRs away from the engine;
- the per-key lock and the check-refresh worker (`KeyedMutex`, `CheckRefresh`);
- the mirror's repack, a hand-written mark and sweep over git objects (`Repack`);
- the two diff views and the word highlighting (`DiffViews`, `DiffKinds`,
  `Highlight`, `WordMarks`);
- the "routine" signal, the blast radius and the image changes (`Routine`,
  `BlastRadius`, `Images`, `ImageLaws`);
- cursor paging over a changing list (`Paging`, with the cursor's text in `Decimal`)
  and the jittered staleness deadline (`Staleness`).

## How the model is built

Sequential code keeps its form: an object with mutable fields is a class, a loop is a
loop, and each such method is proved against a function or a predicate that says what
it computes. A concurrent protocol is a transition system whose actions are the
critical sections, channel operations and file operations of the source; `Run` folds
any sequence of enabled actions, and the theorems quantify over all of them. The
functions the transition systems step with (`Admit`, `Decide`, `SetResult`,
`PersistAlone`, `Register`, ...) are the ones the classes' methods are proved equal to.

Conventions and assumptions:

- A Go job pointer is an identity number; `persistRecord` compares it after its write.
- The 64-bit content digest is taken to be injective and never zero, so a digest is
  represented by the content it identifies and "unknown" by `None`.
- Times are integers, and `now` is a parameter. An unset time is `None`.
- The PR filter is a pure function of the PR that may err (`None`).
- The disk is a map from PR number to record that a save replaces atomically; a save
  or a delete may fail, which leaves the map as it was.
- The pack encoder writes exactly the given objects or fails. Tree entries have the
  mode of the object they name.
- Opcode groups come from the diff library: non-empty, contiguous inside a group, in
  order, leaving out only equal runs of one length (`DiffViews.Grouped`).
- Maps are walked in an arbitrary order, so what is proved holds for every order.
- CSS classes contain no `>`, and none is `wd`.
- Strings are sequences of runes. Go orders UTF-8 bytes, which agrees with the order
  of code points used here.

## Where the code and its documentation disagree, or a property has a limit

- The comment on `changedPaths` (internal/diff/routine.go:70-74) says that an array of
  changed length is always rejected by the allowlist. It is reported at its own path,
  which the allowlist may accept. `Routine.ResizedArraysAreRejectedExactly` gives the
  condition: the claim holds at a path if and only if the path is not allowlisted for
  the kind. `Routine.ResizedImageArrayIsRoutine` is one input where it fails, a list at
  `spec.values.image` of a HelmRelease.
- A restored record that the fork gate lets pass and on which the filter errs is kept,
  and can be rendered as stale without having been admitted.
  `Pipeline.GateHoldsExactlyWhenJudged` shows that this is the only gap: only permitted
  snapshots are rendered if and only if no restored open record is of that kind.
- The comment in `persistRecord` (internal/server/store.go:357-359) says that deleting a
  late file is safe because a replacement job persists its own render separately. A
  removal still in flight when the replacement has persisted takes the replacement's
  file: its digest stays on file, so a render of equal content is not written again, and
  the job is gone after a restart (`StoreOverlaps.LateDeleteLosesTheJob`, reachable with
  nothing failing by `StoreOverlaps.LateDeleteIsReachable`). Two overlapping writes of
  different content can likewise leave the wrong digest on file
  (`StoreProtocol.OverlapIsReachable`).
- `StoreOverlaps.OverlapBreaksExactly` states which overlaps are safe. After any run that
  kept to the condition, a step keeps known digests and the disk in agreement, however
  what is in flight interleaves and fails, if and only if the write it starts is skipped,
  or no removal of its number's file is pending (a deletion, or a write whose job is
  gone) and every other write in flight on that number has equal content. Removals,
  failed saves and crashes may overlap anything. Operations that never overlap meet the
  condition (`StoreOverlaps.SerialRunsAreClean`).
- `resolveCommit` tries the branch of the given name first, for the pull request's head
  too. A base branch named `refs/konflate/pull-head` therefore stands in front of the
  fetched head, and every pull request against it renders its base as its head
  (`Repack.BaseShadowsHead`). The head resolves to what was fetched if and only if no
  such branch resolves, or it is at the same commit (`Repack.HeadIsTipExactly`); only
  that name and `refs/heads/refs/konflate/pull-head` can do it
  (`Repack.OrdinaryBasesDoNotShadow`), so over renders against other branches the head
  last fetched is the head found (`Repack.OrdinaryRunsFindTheHead`).
- A staleness cadence so long that cadence plus jitter overflows 64 bits makes a
  fresh render stale. `Staleness.EarlyBoundNeedsRoom` states that the early bound
  holds if and only if there is no overflow.
- Both views are empty without a hunk (`DiffViews.NoHunksNoRows`), so they are
  lossless when there is one.
- When the lexer fails, `docLines` keeps escaped lines but no tokens, and marking a
  replaced line then blanks it: `Highlight.MissingTokensBlankTheLine`. A marked line
  says exactly what its tokens say (`Highlight.MarkSpellsTokens`), so text is kept
  where the tokens spell out their line.
- Stripping the markup of a line gives its text back if and only if the text has no NUL
  rune, which escaping replaces by the replacement character
  (`Highlight.StripsExactly`). No NUL gets that far: YAML allows only printable
  characters in a document (section 5.1 of YAML 1.2) and an emitter writes NUL as the
  escape `\0`, so marshalled text holds none. The YAML library is not part of this model.

## Model

| member | source | states |
|---|---|---|
| Queue.Capacity | internal/server/queue.go:72-78 | at least one worker slot, whatever concurrency is configured |
| Queue.RenderQueue.constructor | internal/server/queue.go:67-83 | an open queue with nothing in flight or pending |
| Queue.RenderQueue.Enqueue | internal/server/queue.go:87-113 | refuses exactly while closing; a number in flight gets this snapshot as its pending one, whatever was pending; any other number is claimed and a worker counted |
| Queue.RenderQueue.FinishRound | internal/server/queue.go:245-255 | take the pending snapshot and go on, or leave the in-flight set, in one section |
| Queue.RenderQueue.Clear | internal/server/queue.go:260-266 | a pre-empted worker forgets its number and its pending snapshot |
| Queue.RenderQueue.Done | internal/server/queue.go:130 | a worker that ends is no longer counted |
| Queue.RenderQueue.Close | internal/server/queue.go:275-279 | from the first half of `wait` on, no work is accepted |
| Coalescing.NewestIsNeverLost | internal/server/queue.go:37-43 | the newest accepted request is waiting, being handled, or was the last one rendered |
| Coalescing.RendersNeverExceedRequests | internal/server/queue.go:37-43 | renders begun, about to begin and waiting never outnumber the requests |
| Coalescing.DuringRender | internal/server/queue.go:99-103 | requests arriving during a render only replace the one successor |
| Coalescing.TrailingRender | internal/server/queue.go:245-252 | without further requests a held snapshot causes at most its own render |
| Coalescing.BurstCollapses | internal/server/queue.go:37-43 | any number of requests during one render cause exactly one more, of the newest |
| QueueProtocol.RunKeepsInv | internal/server/queue.go:87-280 | every reachable state counts its workers, slots and tokens right, has one worker per number in flight, and refines the coalescing cells |
| QueueProtocol.LogOnlyGrows | internal/server/queue.go:87-280 | history is never rewritten and `closing` is never undone |
| QueueProtocol.RendersAreBounded | internal/server/queue.go:129-180 | at most one render per PR, at most the configured number in all, at most one sweeping |
| QueueProtocol.SlotsAreNeverHeldWhileWaiting | internal/server/queue.go:140-171 | a worker waiting for the sweep token holds no slot, and a slot holder never waits for a channel |
| QueueProtocol.Freshness | internal/server/queue.go:87-113 | before shutdown the newest accepted request is the pending entry, the snapshot the live worker holds, or (not in flight) the one last rendered |
| QueueProtocol.BurstCausesOneRender | internal/server/queue.go:129-257 | over whole runs: requests during one render cause exactly one trailing render, of the newest |
| QueueProtocol.RendersWereRequested | internal/server/queue.go:173-180 | whatever reaches the engine was accepted before |
| QueueProtocol.SomeoneCanMove | internal/server/queue.go:149-171 | no deadlock: while a worker exists, one can step without waiting for shutdown |
| QueueProtocol.DrainTerminates | internal/server/queue.go:268-280 | once closing, the outstanding count never rises and only finitely many steps are left, however many requests keep arriving |
| QueueProtocol.DrainedIsEmpty | internal/server/queue.go:268-280 | when nothing is outstanding, nothing is in flight or pending and every channel is empty |
| QueueRequests.OpenQueueAccepts | internal/server/queue.go:87-113 | in every reachable state of an open queue a request is accepted: it becomes the pending snapshot of a number in flight, or starts a worker |
| QueueRequests.AllAreAccepted | internal/server/queue.go:87-113 | until the queue closes the accepted requests are the submitted ones, in number and in the newest |
| QueueRequests.NewestRequestIsNeverLost | internal/server/queue.go:37-43 | until shutdown the newest request submitted for a number is pending, held by its worker, or the one last rendered |
| QueueRequests.BurstOfRequestsCausesOneRender | internal/server/queue.go:129-257 | however many requests are submitted during one render, exactly one more render begins before the number is idle, of the newest submitted |
| Store.RestoreRoundTrip | internal/server/store.go:88-129 | save then load restores every persisted field and recomputes the signals |
| Store.ReloadKeepsPersistedFields | internal/server/store.go:88-129 | a restart loses the hidden flag, the log de-duplication message, both digests and the identity, and nothing else |
| Store.DigestIgnoresTimestampsOnly | internal/server/store.go:131-147 | two records share a digest if and only if they differ in their timestamps at most |
| Store.SignalsCount | internal/server/store.go:365-376 | the signals are the counts of the diff, warnings counted by level |
| Store.Disk.Save | internal/persist/persist.go:127-155 | a save replaces the record whole or leaves the old one |
| Store.Disk.Delete | internal/persist/persist.go:158-163 | a delete removes one record, or nothing when it fails |
| Store.Store.constructor | internal/server/store.go:88-115 | the store of a restart holds exactly the records on disk |
| Store.Store.Upsert | internal/server/store.go:180-191 | metadata and hidden flag are replaced, everything else of a known job stays |
| Store.Store.Reopen | internal/server/store.go:200-216 | as Upsert, but also takes a job off the merged shelf and says so |
| Store.Store.Transition | internal/server/store.go:267-278 | a status change never touches an unknown or a shelved job |
| Store.Store.Fail | internal/server/store.go:385-403 | a failed render keeps a stored result with its status, else becomes the error; reports whether the message is new |
| Store.Store.Persist | internal/server/store.go:327-363 | an effective write of the live job ends with the record on disk and then its digest on file; a failed save leaves both as they were and is not remembered as saved; the file of a job that is gone is removed |
| Store.Store.Succeed | internal/server/store.go:283-312 | a result replaces the render unless the job is unknown or shelved, clears every error, and is persisted |
| Store.Store.Close | internal/server/store.go:525-544 | an open job is frozen as merged at the given time, once, and persisted |
| Store.Store.Drop | internal/server/store.go:549-555 | job and file are removed |
| Store.Store.PruneClosed | internal/server/store.go:561-586 | removes only shelved jobs, each past its age or with at least the cap of others closed no earlier; keeps none past its age, never more than the cap, and none closed before one removed for the cap |
| StoreProtocol.RunNoOrphans | internal/server/store.go:327-363 | at every moment a file without a live job is about to be looked at by an operation in flight, or its deletion failed |
| StoreProtocol.NothingResurrects | internal/server/store.go:327-363 | with nothing in flight and deletes succeeding every file belongs to a live job, so a restart brings none back |
| StoreProtocol.RunWellShaped | internal/server/store.go:193-312 | over every run and crash: ready implies a result, a failure implies none, a refresh error implies one, signals match the result |
| StoreProtocol.ShelfIsFrozen | internal/server/store.go:521-544 | from close to relisting or removal no interleaved step changes result, signals, status, errors, renderedAt or closedAt |
| StoreProtocol.LastGoodRenderSurvives | internal/server/store.go:377-403 | a stored result is never lost before removal and changes only by a newer success |
| StoreProtocol.DeadWritesStayDead | internal/server/store.go:335-361 | an operation whose job is gone never writes to a replacement of it |
| StoreProtocol.SerialRunsAgree | internal/server/store.go:327-363 | for non-overlapping operations, with saves failing and crashes anywhere, a known digest is that of the record on disk |
| StoreProtocol.SkippedWritesAreOnDisk | internal/server/store.go:327-345 | a write is skipped only when the disk holds equal content, so a failed save is retried |
| StoreProtocol.PersistRuns | internal/server/store.go:327-363 | a persist left to itself ends with its record on disk and that record's digest on file |
| StoreProtocol.PersistAloneIsTheProtocol | internal/server/store.go:327-363 | one whole persist, for any job, content and failing operations, is its atomic steps run alone to the end |
| StoreProtocol.OverlapBreaksAgreement | internal/server/store.go:345-361 | from any save caught between write and commit, closing the job ends in disagreement |
| StoreProtocol.OverlapIsReachable | internal/server/store.go:327-363 | such a disagreement is reachable from the empty store, with nothing failing |
| StoreOverlaps.CleanRunsAgree | internal/server/store.go:314-363 | where every effective write fits what is in flight on its number, a known digest is the disk's, across failed saves, removals at any moment and crashes |
| StoreOverlaps.SerialRunsAreClean | internal/server/store.go:327-363 | operations that never overlap on a number are such runs |
| StoreOverlaps.UnfitBreaks | internal/server/store.go:345-361 | a write beside a pending removal, or beside a write of other content, can end in disagreement with nothing failing, whatever else is in flight |
| StoreOverlaps.OverlapBreaksExactly | internal/server/store.go:327-363 | after such a run a step keeps agreement, over every interleaving and failure of what is then in flight, if and only if the write it starts fits |
| StoreOverlaps.LateDeleteLosesTheJob | internal/server/store.go:357-362 | from any state with a deletion in flight of a number whose new job is on disk: the file goes, the digest stays, equal content is skipped and a restart loses the job |
| StoreOverlaps.LateDeleteIsReachable | internal/server/store.go:549-555 | a drop whose deletion runs after the re-created job's first render ends so, from the empty store with nothing failing |
| Pipeline.StepGated | internal/server/handlers.go:400-432 | every handler, store and queue step keeps "open and not hidden implies permitted" for jobs, held, pending and rendering snapshots |
| Pipeline.RunGated | internal/server/handlers.go:446-468 | over whole runs from judged files nothing from a fork reaches the engine unless forks are switched on, and nothing the filter does not say yes to |
| Pipeline.UnjudgedIsRendered | internal/server/server.go:499-516 | a restored open record on which the filter errs can be rendered unadmitted |
| Pipeline.GateHoldsExactlyWhenJudged | internal/server/handlers.go:460-468 | over any past and any run: every rendered snapshot was permitted if and only if no restored open record passes the fork gate and makes the filter err |
| Pipeline.LoadKeepsExactly | internal/server/server.go:499-516 | loading keeps, unchanged, exactly the records neither the fork gate nor the filter cleanly excludes |
| Pipeline.SeenOpenIsHeldExactly | internal/server/handlers.go:571-608 | an open pull request that is fetched or listed is tracked, and held for rendering and shown exactly when permitted |
| Pipeline.SeenClosedIsShelvedOrDropped | internal/server/handlers.go:718-739 | one that is not open is never held: a permitted merge keeps its result and its first close time, anything else is dropped |
| Pipeline.ProgressIsStored | internal/server/queue.go:182-243 | what each stage of a worker stores: pending, running, then the result or the failure, which keeps an older result |
| KeyedMutex.Mutex.Acquire | internal/server/server.go:243-255 | registers on the key's one lock, creating it when the key has none |
| KeyedMutex.Mutex.Release | internal/server/server.go:257-264 | unregisters and drops the entry with its last user |
| KeyedMutex.RunKeepsInv | internal/server/server.go:243-265 | over every interleaving the reference counts equal the registered users, and a lock has at most one holder |
| KeyedMutex.HoldersExclude | internal/server/server.go:228-265 | two holders never share a key, and users share a lock exactly when they share a key, across delete and re-create |
| KeyedMutex.EntriesAreInUse | internal/server/server.go:228-265 | a key has an entry exactly while someone uses it, so the map is empty when idle |
| KeyedMutex.BlockedOnlyByOwnKey | internal/server/server.go:228-231 | whoever waits is waiting for a holder of the same key, who can step |
| CheckRefresh.Refresher.Request | internal/server/server.go:677-688 | adds the SHA and leaves the wake token present; an empty SHA does nothing |
| CheckRefresh.Refresher.Take | internal/server/server.go:704-717 | takes one pending SHA, or none exactly when the set is empty |
| CheckRefresh.NoLostWakeup | internal/server/server.go:677-720 | a pending SHA always has the token, a requester about to send it or a draining worker; and is pending exactly while no poll began after its last request |
| CheckRefresh.PollsAreSerialAndBounded | internal/server/server.go:690-720 | polls never overlap and never outnumber the requests |
| CheckRefresh.WorkEnds | internal/server/server.go:697-720 | without new requests only finitely many steps remain |
| CheckRefresh.StuckMeansAnswered | internal/server/server.go:690-720 | when no step is left every request has been followed by a poll that began after it |
| CheckRefresh.RequestsAreTaken | internal/server/server.go:677-688 | every request for a SHA is recorded and leaves it pending with a nudge to come |
| CheckRefresh.EveryRequestIsPolled | internal/server/server.go:677-720 | when no step is left, each request ever made, repeated or not, has been followed by a poll that began after it |
| Repack.ClosureIsReachable | internal/gitclone/gitclone.go:400-445 | a closed set containing the roots and nothing unreachable is the reachable set |
| Repack.Repository.Walk | internal/gitclone/gitclone.go:405-445 | terminates on any graph, cycles included; marks what is reachable from the hash, closed under links; fails only where an object is missing |
| Repack.Repository.MarkAll | internal/gitclone/gitclone.go:358-377 | on success exactly the objects reachable from a reference are marked; always succeeds on an undamaged store |
| Repack.Repository.WritePack | internal/gitclone/gitclone.go:453-479 | writes exactly the given objects as one pack, or changes nothing |
| Repack.Repository.RepackMirror | internal/gitclone/gitclone.go:358-399 | on every exit path every stored reachable object is still stored; on success one pack holds the least set with every hash reference that has each commit's tree and parents, each tree's entries but gitlinks, and each tag's target |
| Repack.Repository.RootsAreTheReferences | internal/gitclone/gitclone.go:358-377 | the mark starts from every hash reference and from nothing else |
| Repack.BranchRef | internal/gitclone/gitclone.go:233-283 | a base branch's reference never collides with the local head reference |
| Repack.HeadIsTipExactly | internal/gitclone/gitclone.go:43-49 | the head resolves to the fetched reference if and only if no branch named like that reference resolves to another commit |
| Repack.BaseShadowsHead | internal/gitclone/gitclone.go:554-564 | after fetching a base branch of that name the head resolves to the base |
| Repack.OrdinaryBasesDoNotShadow | internal/gitclone/gitclone.go:554-564 | in a mirror of base branches only two branch names can shadow the head |
| Repack.OrdinaryRunsFindTheHead | internal/gitclone/gitclone.go:233-283 | over any sequence of renders against other base branches, whatever their fetches do, the head found is the one last fetched |
| Repack.Mirror.FetchSpec | internal/gitclone/gitclone.go:542-550 | a fetch moves its reference only with everything it needs stored, provided the forge sends what the mirror lacks |
| Repack.Mirror.FetchRefs | internal/gitclone/gitclone.go:233-283 | base first, then head; succeeds exactly when both fetches do; moves exactly the references whose fetch brought an update |
| Repack.Mirror.MaybeRepack | internal/gitclone/gitclone.go:332-344 | below the threshold nothing happens; at or above it a success leaves one pack; the mirror stays undamaged either way |
| Repack.Mirror.ResolveCommit | internal/gitclone/gitclone.go:554-564 | the branch of that name, else the revision itself, each by git's reference rules |
| Repack.Mirror.Resolve | internal/gitclone/gitclone.go:272-282 | succeeds exactly when both names resolve; both commits come from a reference and are whole |
| Repack.Mirror.FetchLocked | internal/gitclone/gitclone.go:233-283 | one cycle of fetch, repack and resolve: the head is the fetched tip exactly when nothing shadows it, the base is the fetched one, and no failure damages the mirror |
| Repack.Mirror.Render | internal/gitclone/gitclone.go:131-180 | the whole critical section down to the merge base: succeeds when nothing fails, reports a gone head exactly then, compares the head with the first common ancestor or the base tip, and both are whole even when this call repacked |
| DiffViews.FoldGaps | internal/diff/render.go:197-217 | one gap per position around the groups, under that position as its id, each the run the grouping left out there |
| DiffViews.UnifiedRows | internal/diff/render.go:222-262 | the unified rows are the gaps and opcodes assembled in order |
| DiffViews.SideRows | internal/diff/render.go:267-325 | likewise the side-by-side rows |
| DiffViews.UnifiedIsLossless | internal/diff/render.go:219-262 | with a hunk, the unified view's old side is lines 1 to n in order and its new side the new file, folded lines included |
| DiffViews.SideIsLossless | internal/diff/render.go:264-325 | likewise both columns of the side-by-side view |
| DiffViews.NoHunksNoRows | internal/diff/render.go:197-325 | without a hunk both views are empty |
| DiffViews.ViewsFoldAlike | internal/diff/render.go:190-217 | both views carry the same fold ids, counts and folded lines in the same order |
| DiffViews.CountChanges | internal/diff/render.go:171-178 | the tally counts exactly the added and removed rows |
| DiffViews.CountsBalance | internal/diff/render.go:171-178 | added minus removed is the growth of the file |
| DiffKinds.UnifiedKindsAreExact | internal/diff/render.go:222-262 | the context rows are exactly the lines of equal opcodes and, folded behind expanders, of the gaps; the removed rows are the old lines of deletions and replacements, the added ones the new lines of insertions and replacements, removed before added |
| DiffKinds.SideKindsAreExact | internal/diff/render.go:267-325 | the side-by-side rows are exactly those: equal and trimmed lines beside each other, the k-th removed line beside the k-th added, blanks where one side runs out |
| DiffKinds.TallyIsExact | internal/diff/render.go:171-178 | the tally is the number of old lines deleted or replaced and of new lines inserted or replacing |
| Highlight.Emit | internal/diff/render.go:560-590 | the builder loop writes each token's markup in order, at its own rune position |
| Highlight.EmitRoundTrip | internal/diff/render.go:555-590 | for every range, stripping the markup gives the text back, and the marked text is exactly the runes in the range |
| Highlight.UnescapeInverts | internal/server/mcp.go:449-453 | unescaping undoes escaping if and only if the text has no NUL |
| Highlight.StripsExactly | internal/server/mcp.go:447-453 | stripping a line's markup gives its text with every NUL replaced, so the text itself if and only if it has none |
| Highlight.StripKeepsBoth | internal/server/mcp.go:447-453 | what the tag pattern leaves is the marked and the unmarked text together |
| Highlight.RuneDiffRange | internal/diff/render.go:353-367 | the loops trim the common prefix and then the common suffix |
| Highlight.RangesCoverTheChange | internal/diff/render.go:350-367 | for lines sharing an affix, deleting the ranges leaves equal text |
| Highlight.RangesAreTight | internal/diff/render.go:350-367 | the ranges start and end at a difference |
| Highlight.TotalChangeIsUnmarked | internal/diff/render.go:350-367 | lines that agree at neither end get no range |
| Highlight.MarksLeaveEqualText | internal/diff/render.go:327-367 | taking the marked text out of both lines of a replaced pair leaves equal text |
| Highlight.MarkIntraline | internal/diff/render.go:330-348 | every line of a replaced pair with something to mark shows such a mark afterwards, every other line is as before |
| Highlight.MarkSpellsTokens | internal/diff/render.go:330-348 | a mark, stripped, says exactly what the tokens of its line say |
| Highlight.MissingTokensBlankTheLine | internal/diff/render.go:501-510 | a replaced line left without tokens by a lexer error, on either side, is blanked by its mark |
| Highlight.MarkingKeepsText | internal/diff/render.go:327-348 | markup of the source before marking is markup of the source after |
| Highlight.MarkedViewIsLossless | internal/diff/render.go:144-180 | from two files through marking to the unified view: both sides, stripped of markup, still are the two files |
| WordMarks.TokenMarkup | internal/diff/render.go:560-590 | a token is its text escaped, in a span of its class, with what lies in the range in a word span |
| WordMarks.LineMarkup | internal/diff/render.go:560-590 | a line is its tokens' markup one after the other, each at its own position |
| WordMarks.TrimsNewlinesOnly | internal/diff/render.go:338 | a line is compared without the newlines it ends in, and nothing else is cut off |
| WordMarks.PairsAreUnique | internal/diff/render.go:330-348 | a line belongs to at most one replaced pair |
| WordMarks.HighlightedIsTheChange | internal/diff/render.go:330-348 | on the arrays: where the k-th lines of a replacement share an affix they are one text with one word changed, and exactly that word, which cannot be made smaller, is highlighted in each |
| WordMarks.TotalChangeIsUntouched | internal/diff/render.go:350-367 | a pair that shares no affix keeps its markup |
| WordMarks.OthersKeepTheirMarkup | internal/diff/render.go:330-348 | so does every line that is no k-th line of a replacement with one on the other side |
| Decimal.ItoaInjective | internal/diff/routine.go:102-104 | array indices make distinct path segments |

| Routine.Walker.Walk | internal/diff/routine.go:77-109 | appends to the shared list, once each, exactly the paths at which the two values diverge |
| Routine.ChangedPaths | internal/diff/routine.go:75-112 | the paths are exactly the divergences, without repeats, in any map order |
| Routine.ReportedPathsDiffer | internal/diff/routine.go:70-112 | a reported path leads to values that differ when null stands for absent |
| Routine.ReportIsExact | internal/diff/routine.go:70-112 | blanking accepted subtrees makes the sides equal if and only if every reported path lies in one |
| Routine.SilentExactlyWhenEqual | internal/diff/routine.go:70-112 | nothing is reported exactly for trees equal up to null entries |
| Routine.OnlyImageOrVersionChanges | internal/diff/routine.go:25-48 | true exactly when there is a change and each is neither added nor removed, differs, and is reported only at allowlisted paths |
| Routine.RoutineHidesNothing | internal/diff/routine.go:12-24 | a routine resource is equal outside allowlisted subtrees and differs inside one |
| Routine.RoutineExactly | internal/diff/routine.go:12-48 | a resource is routine if and only if it changed in place, the sides differ and are equal outside allowlisted subtrees, and each difference is reported at an allowlisted path |
| Routine.FieldsDecideAlone | internal/diff/routine.go:25-48 | a resource is routine if and only if it changed in place, something is reported, and changing any reported field alone would be routine |
| Routine.VerdictOnOneField | internal/diff/routine.go:123-160 | the verdict on one changed field by its last segment: any image, an image's tag or digest, the pinned version of a source or release for its own kind only, the two chart labels, and no other name |
| Routine.ResizingIsRoutineExactly | internal/diff/routine.go:70-112 | a resource that differs only by the length of one array is routine if and only if the array's path is allowlisted |
| Routine.ResizedArraysAreRejectedExactly | internal/diff/routine.go:70-74 | an array of changed length at a path is always rejected if and only if the path is not allowlisted for the kind |
| Routine.ResizedImageArrayIsRoutine | internal/diff/routine.go:70-74 | a HelmRelease whose list at `spec.values.image` changes length is routine |
| BlastRadius.Invert | internal/engine/blast.go:83-88 | the dependents map is the dependsOn graph turned round |
| BlastRadius.Visit | internal/engine/blast.go:96-106 | the search terminates on any graph with any duplicates and visits the seed and exactly what reaches it |
| BlastRadius.SortedLabels | internal/engine/blast.go:107-112 | direct labels sorted, without repeats |
| BlastRadius.BlastRadius | internal/engine/blast.go:76-126 | the result is the first ten of the ranking of all seeds something depends on, each with its downstream count and direct labels, in any map order |
| BlastRadius.ListedEntriesAreReal | internal/engine/blast.go:90-118 | every listed entry describes a seed that something depends on |
| BlastRadius.CapKeepsTheWorst | internal/engine/blast.go:119-124 | no omitted seed ranks above a kept one |
| BlastRadius.EntryMeans | internal/engine/blast.go:90-118 | each entry has the label of an affected seed, its direct dependents' labels once each in order, and the number of other resources that reach it |
| BlastRadius.DownstreamIsLeast | internal/engine/blast.go:96-106 | what reaches a seed is the least set closed under depending on a member, the seed itself not counted |
| BlastRadius.ListedInOrder | internal/engine/blast.go:119-124 | at most ten, counts descending, equal counts by label |
| BlastRadius.OmittedHaveNoMore | internal/engine/blast.go:119-124 | an affected seed is left out only of a full list, none of whose entries has fewer downstream |
| BlastRadius.ListedOnce | internal/engine/blast.go:90-118 | no seed is listed twice where labels tell seeds apart |
| Ordering.LexIsAlphabetical | internal/engine/blast.go:119-124 | labels compare by their first difference, a prefix first |
| BlastRadius.RankingIsUnique | internal/engine/blast.go:119-124 | with distinct labels the ranking does not depend on map order |
| BlastRadius.LabelIsInjective | internal/engine/engine.go:484-497 | labels of well-formed names are distinct |
| BlastRadius.BlastRadiusIsDeterministic | internal/engine/blast.go:76-126 | for well-named parents the result is a function of seeds and graph |
| BlastRadius.SelfDependentSeed | internal/engine/blast.go:92-116 | a seed depending on itself is listed as direct and never counted |
| Images.CollectImages | internal/engine/images.go:221-240 | every repository with its distinct versions in order |
| Images.SetDiff | internal/engine/images.go:194-207 | the sorted elements of one list that the other lacks |
| Images.RepoTransitions | internal/engine/images.go:177-191 | one bump when one version left and one arrived, otherwise discrete removals and additions, nothing for shared versions |
| Images.MergeRefs | internal/engine/images.go:145-162 | the union, sorted, without repeats |
| Images.Aggregate | internal/engine/images.go:21-52 | exactly the moves some resource makes, each with exactly the resources that make it |
| Images.ReconcileRelocations | internal/engine/images.go:85-142 | each relocation is replaced by the transition behind it, with both halves' references, folded into an equal entry where there is one; keys stay unique |
| Images.ReconciledIsUnique | internal/engine/images.go:85-142 | the outcome is determined by the input, whatever order repositories are visited in |
| Images.InventsNothing | internal/engine/images.go:79-84 | every version listed comes from the same repository's input |
| Images.AmbiguousIsUntouched | internal/engine/images.go:79-84 | a repository without exactly one pure addition and one pure removal passes through unchanged |
| Images.ReferencesSurvive | internal/engine/images.go:69-84 | every reference is kept unless it belongs to a relocation at one version |
| Images.ReferencesAreOld | internal/engine/images.go:69-84 | and no reference is new to its repository |
| Images.NothingLeftToFold | internal/engine/images.go:85-142 | after one pass no relocation is left |
| Images.ReconcilingTwice | internal/engine/images.go:85-142 | a second pass changes nothing |
| Images.ImageChanges | internal/engine/images.go:21-67 | the sorted listing, without repeats, of the reconciled moves of the changes; every version in it was one of that repository's, `prior` before some change and `next` after some change |
| Images.ImageListIsDetermined | internal/engine/images.go:21-67 | the final list is a function of the changes |
| ImageLaws.MakesExactly | internal/engine/images.go:177-191 | a resource contributes a bump when one version left it and one arrived, else each removal and addition, never an unnamed image or a move to itself |
| ImageLaws.ListedExactly | internal/engine/images.go:21-142 | a move is listed if and only if a resource made it and it is no half of a lone removal and addition of its repository, or it is the change of version behind such a pair |
| ImageLaws.ReferencesExactly | internal/engine/images.go:21-162 | an entry's references are, sorted and once each, the resources that made its move and those that made either half of its pair |
| ImageLaws.ListedInOrder | internal/engine/images.go:62-66 | by repository, then version left, then version reached, each move once |
| Paging.List | internal/server/store.go:589-606 | every tracked number once, descending |
| Decimal.AtoiInverts | internal/server/mcp.go:126-147 | a cursor written into a footer parses back to its number |
| Decimal.AtoiAcceptsExactly | internal/server/mcp.go:126-130 | exactly digits after at most one sign that name a 64-bit integer parse |
| Paging.ListPRs | internal/server/mcp.go:115-151 | an error exactly for a nonempty cursor that is no 64-bit integer, else the newest PRs below the cursor, with a footer exactly when some are left out; the footer's text parses to the next cursor |
| Paging.ShownAbove | internal/server/mcp.go:122-135 | over a whole walk the numbers shown descend and stay at or above the cursor |
| Paging.NothingRepeats | internal/server/mcp.go:122-124 | no PR is shown twice however the list changes between calls |
| Paging.NothingIsSkipped | internal/server/mcp.go:122-124 | a finished walk has shown every PR tracked at each of its calls |
| Paging.WalkEnds | internal/server/mcp.go:115-151 | each call moves the cursor down, so a walk makes at most n + 1 calls, n counting the numbers from the lowest tracked to the first call's newest, however many PRs open during it |
| Staleness.StalePRs | internal/server/store.go:458-475 | returns once each exactly the due PRs among the open, visible, once-rendered ones; one whose head is unchanged since a clean render is left out before three quarters and listed from five quarters of `rerender`, any other of `interval` |
| Staleness.JitterIsBounded | internal/server/store.go:477-489 | with 64-bit wrapping multiplication the jitter lies in [-due/4, due/4) |
| Staleness.HashIsInjective | internal/server/store.go:477-489 | no two 64-bit PR numbers share a hash |
| Staleness.JitterFollowsTheHash | internal/server/store.go:477-489 | within its bounds the jitter is the hash up to whole spreads, so it varies with the PR |
| Staleness.NeverEarly | internal/server/store.go:440-475 | no PR rendered less than three quarters of its cadence ago, the deadline fitting a duration |
| Staleness.NeverLate | internal/server/store.go:440-475 | every eligible PR rendered at least five quarters of its cadence ago |
| Staleness.EarlyBoundNeedsRoom | internal/server/store.go:470 | the early bound holds for every age if and only if cadence plus jitter does not overflow |
| Staleness.RealCadencesFit | internal/server/store.go:470 | no cadence up to four fifths of the largest duration overflows |
| Staleness.NoCadenceNoJitter | internal/server/store.go:482-486 | without a positive spread the deadline is the cadence |

## Left out

- Forge clients, tokens, webhook signatures, the avatar proxy, HTTP and websocket plumbing, metrics, logging and configuration: foreign I/O and plumbing.
- flate rendering, Helm, CEL evaluation, YAML marshalling, lexing and formatting: libraries taken as parameters or preconditions (manifests are compared in rendered form, tokens spell out their line).
- Manifest normalisation (marshal and parse again) before `changedPaths`: the model starts from its result.
- Image extraction and reference parsing: the model starts from (repository, version) pairs; the aggregation key is the triple itself, not a NUL-joined string.
- References between objects that share a Go pointer: jobs are values with an identity number, so a mutation through a stale pointer to a removed job is not modelled.
- The digest's hash collisions, and persistence being disabled or suspended for one store.
- `loadFrom` skipping unreadable files: the disk map holds the readable ones.
- Queue events, status reports and depth metrics.
- Pipeline: the skip of a re-render whose head and base are unchanged is not modelled; every handler may enqueue, which only adds runs. Staleness in that module ignores the clock for the same reason.
- QueueProtocol: the engine returns a cancellation error only after cancellation, and `Close` may happen at any time, not only after cancellation.
- Mirror cloning, self-healing of a corrupt mirror, tree extraction and fetch deadlines.
- Repack.Mirror.FetchSpec: that a fetched pack completes its tip is a hypothesis about the forge (`Delivers`).
- Repack.Mirror.Render: the merge-base search is a parameter that returns ancestors of the head; writing the two trees to disk is not part of this model.
- Repack.Mirror.ResolveCommit: references name commits, symbolic ones are not followed, and revisions that are hash prefixes are not part of this model; after the two fetches both names are found as references first.
- The sidebar tree, Markdown summaries, lint rules, the resource diff text and status words: mostly single-branch text.
- danglingDependsOn, staleValues and blast seeds: easier members beside the ranking.
- Highlight.UnescapeInverts: `Unescape` decodes the references that escaping writes; other HTML entities, which escaped text never contains, are left as they are.
- The per-check rollup of a pull request and its equality test.
