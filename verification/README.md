# Model of yasb-limitora

yasb-limitora collects quota information from providers through helper and worker processes,
shares it between processes through a cache, and projects it into one bounded JSON document.
This project models the parts whose correctness spans several steps or several processes and
proves what they keep.  One module stands for one component:

| module | component |
|---|---|
| `RefreshProtocol` | the cross-process refresh of one cache key: mutex, marker file, cache file |
| `MarkerLock`, `MarkerCodec` | the marker-file fallback lock and the bytes of its marker |
| `ResourceCore`, `WindowsJob`, `ProcessResources`, `Supervisor`, `Refinement`, `ProviderLease` | ownership of descriptors, Jobs, processes and the provider lease |
| `Decimals`, `Percentage`, `Projection`, `CacheReader` | quantities, remaining percentages, the document, and the cache's reading and recomputation of it |
| `FrameProtocol`, `PipeTransport`, `HelperWire` | framed messages, exact reads and writes over pipes, the helper's wire form |
| `EnvBlock`, `PathCleanup` | the managed block of a `.env` file and the PATH transaction |
| `Json`, `Utf8`, `Digits`, `TextOrder`, `Wrappers` | the text formats the others are written in (sections 4, 6 and 7 of RFC 8259, sections 3 and 4 of RFC 3629) |

The two protocols between processes (`RefreshProtocol`, `MarkerLock`) are transition systems whose
events are single shared accesses and crashes, so every interleaving is covered.  Objects whose
methods update their fields are classes.  Answers of the operating system, clocks, closers and
foreign code are arbitrary values of the kinds the code tells apart.  So that failing is not always
a way out, the methods that may fail take a flag `smooth` (or belong to an object that has one):
it says that from this call on every call they make succeeds, and their contracts then promise
success.  Pipes are also honest or not: honest ones raise no errors, but data may arrive, stall and be
cut in any way.  Parsers and printers are functions, and the loops of the code are loops here, proved
against those functions.

Four results say where the code does not do what one might expect, each with the exact condition.
The cache's number pattern refuses every quantity strictly between zero and one, and with it every
document that shows one (`Decimals.CacheableExactly`, `CacheReader.ReadsBackExactly`). Single flight needs right answers
about live producers and about nothing else (`RefreshProtocol.WrongOracleAllowsTwoProducers`,
`RefreshProtocol.UntruthfulAnswerBreaksFlightExactly`). A crash can block the fallback lock for good; the
name can be freed again unless its marker is incomplete and nobody is left who could complete it
(`MarkerLock.AbandonedIsReachable`, `MarkerLock.FreeableExactlyUnlessAbandoned`). A PATH transaction
whose record and PATH cannot both be put right leaves a record no later operation gets past; which
answers do that is listed case by case (`PathCleanup.GoesStale`, `PathCleanup.RunKeepsBase`,
`PathCleanup.StaleForGood`).

## Model

| member | source | states |
|---|---|---|
| RefreshProtocol.SingleFlight | src/yasb_limitora/cache.py:1169-1222 | in every run with crashes, pid reuse, unknown liveness and failed-but-applied writes, if answers about live producers are truthful (nothing, or the producer's own token), the marker names exactly the claim of each live producer, at most one producer runs, and a call produces at most once and under a granted claim |
| RefreshProtocol.PublicationAuthority | src/yasb_limitora/cache.py:1228-1249 | with any liveness answers, granted claims and publications each carry strictly increasing generations, only granted claims publish, and a call reports success only if the cache was replaced under its claim |
| RefreshProtocol.GenerationsNeverDecrease | src/yasb_limitora/cache.py:1063-1080 | the generation in the marker file never decreases between two states of a run |
| RefreshProtocol.ReplacedOnlyUnderClaim | src/yasb_limitora/cache.py:1228-1242 | the cache file is replaced only by the holder of the key mutex while the marker names its claim, and the marker stays |
| RefreshProtocol.MutexStep | src/yasb_limitora/cache.py:968-1015 | every step keeps the critical sections exclusive, through leases whose release and close fail and are retried |
| RefreshProtocol.AuthorityStep | src/yasb_limitora/cache.py:1029-1080 | every step keeps claims below the marker generation and the logs of claims and publications ordered |
| RefreshProtocol.ProvenanceStep | src/yasb_limitora/cache.py:1165-1167 | every step keeps published claims among the granted ones and confirmed ones among the published ones |
| RefreshProtocol.FlightStep | src/yasb_limitora/cache.py:948-963 | every step, if answers about live processes are truthful, keeps the marker equal to the claim of each live process that holds one |
| RefreshProtocol.FairStep | src/yasb_limitora/cache.py:948-963 | every step, if answers about live producers are truthful, keeps the marker equal to the claim of each live producer, and nobody about to claim has a live producer beside it |
| RefreshProtocol.HonestRunIsFair | src/yasb_limitora/cache.py:948-963 | a run whose answers are truthful about every live process is truthful about every live producer, so single flight needs less than full honesty |
| RefreshProtocol.ClaimsStayNamed | src/yasb_limitora/cache.py:1228-1249 | if answers about all live processes are truthful, whoever holds a claim, finishing included, still finds the marker naming it |
| RefreshProtocol.UntruthfulAnswerBreaksFlightExactly | src/yasb_limitora/cache.py:948-963 | in any state reached with truthful answers about live producers, the next answer can lead to two producers at once, all later ones being truthful, if and only if it is untruthful about a live producer |
| RefreshProtocol.AnswerDecides | src/yasb_limitora/cache.py:948-963 | the owner's own token means waiting, a missing process or another token means a claim of the next generation, anything else gives up |
| RefreshProtocol.UndisturbedFinishPublishes | src/yasb_limitora/cache.py:1228-1249 | whoever produced under the marker's claim and is left alone publishes its document, if it has one, gives the marker back and reports success |
| RefreshProtocol.QuietCallPublishes | src/yasb_limitora/cache.py:1169-1222 | a first call that finds neither document nor owner claims the next generation, produces, publishes and reports success |
| RefreshProtocol.KeptClaimIsGivenBack | src/yasb_limitora/cache.py:1015-1035 | a claim kept because it could not be given back is given back by the next undisturbed call |
| RefreshProtocol.WrongOracleAllowsTwoProducers | src/yasb_limitora/cache.py:948-963 | a run in which a live owner is called dead and two producers run at once |
| MarkerLock.MutualExclusion | src/yasb_limitora/_config_lock.py:110-171 | two live processes never both hold the marker lease, as long as answers about live processes are truthful |
| MarkerLock.HolderIsNamed | src/yasb_limitora/_config_lock.py:595-614 | while a live process holds the lease the name leads to its own, complete and undeleted marker |
| MarkerLock.ReclaimsOnlyTheDead | src/yasb_limitora/_config_lock.py:617-683 | a process other than its creator deletes a file only when the complete content names a process that is dead |
| MarkerLock.AnswerDecides | src/yasb_limitora/_config_lock.py:125-140 | a missing process or another token lets a marker be reclaimed, the named token or no provable answer means the lock is busy |
| MarkerLock.UndisturbedAcquires | src/yasb_limitora/_config_lock.py:595-614 | while the name is free a process with a legal identity acquires the lease under its complete marker |
| MarkerLock.UndisturbedReleases | src/yasb_limitora/_config_lock.py:59-77 | a holder that closes undisturbed leaves the name free |
| MarkerLock.HalfWrittenStaysBusy | src/yasb_limitora/_config_lock.py:547-580 | an incomplete marker that nobody writes any more, or nobody who could, is never reclaimed and never changes |
| MarkerLock.CrashAbandons | src/yasb_limitora/_config_lock.py:595-614 | a crash of the creator before its last byte leaves such a marker |
| MarkerLock.AbandonedIsReachable | src/yasb_limitora/_config_lock.py:595-614 | from the start any process, under any identity, can come to leave one |
| MarkerLock.FreeableExactlyUnlessAbandoned | src/yasb_limitora/_config_lock.py:617-683 | in every reachable state some honest run frees the name, given one process that may still start, if and only if the marker is not such a one |
| MarkerLock.InvStep | src/yasb_limitora/_config_lock.py:59-77 | every step of acquiring, holding and closing, and every crash, keeps what each phase knows about its file |
| MarkerLock.ReadNamesCreator | src/yasb_limitora/_config_lock.py:582-593 | an owner decoded from any partial read is the creator, and the file is complete |
| MarkerLock.WriteMarker | src/yasb_limitora/_config_lock.py:595-614 | success leaves exactly the marker, flushed; failure leaves some prefix of it; a smooth file and a legal size succeed |
| MarkerCodec.DecodeOfEncodeMarker | src/yasb_limitora/_config_lock.py:239-294 | decoding inverts encoding for every legal pid and token |
| MarkerCodec.DecodedIsEncoded | src/yasb_limitora/_config_lock.py:254-294 | no bytes outside the image of the encoder are accepted |
| MarkerCodec.MarkerBytesExactly | src/yasb_limitora/_config_lock.py:239-294 | bytes are a marker exactly if they are the canonical text of a pid from 1 to 4,294,967,295 and 1 to 64 lower-case hexadecimal digits |
| MarkerCodec.EncodingsAreNotPrefixes | src/yasb_limitora/_config_lock.py:239-251 | no marker is a proper prefix of another |
| MarkerCodec.ProperPrefixRejected | src/yasb_limitora/_config_lock.py:254-294 | no proper prefix of a marker is accepted |
| ResourceCore.NoStaleClose | src/yasb_limitora/_codex_resource_core.py:95-134 | for any sequence of pair creations and closes a closer runs only while its identity is current, never again once it closed, raised or answered garbage, and a retired identity is never current again |
| ResourceCore.ApplyKeepsLedger | src/yasb_limitora/_codex_resource_core.py:103-134 | each operation on the registry keeps current and retired identities apart and only adds closer runs of current identities |
| ResourceCore.CloseEndpointMeaning | src/yasb_limitora/_codex_resource_core.py:153-177 | one attempt on an end closes it, makes it terminal for good, or leaves it with its current descriptor; a settled end is never touched |
| ResourceCore.ClosePairMeaning | src/yasb_limitora/_codex_resource_core.py:200-230 | a closed pair is settled, a failed attempt keeps the owner and every unsettled end keeps its descriptor; a stranger changes nothing |
| ResourceCore.ClosePairReport | src/yasb_limitora/_codex_resource_core.py:200-230 | the closer of the write end runs before that of the read end, which runs whatever became of the first, and the worst outcome is reported: an indeterminate end before one to retry, and that before a stale descriptor |
| ResourceCore.SettledPairCloses | src/yasb_limitora/_codex_resource_core.py:200-230 | once both ends are settled a further close succeeds and runs no closer |
| ResourceCore.GenerationRegistry.Close | src/yasb_limitora/_codex_resource_core.py:120-134 | the method does what the ledger function says for whatever answer the closer gave |
| ResourceCore.OwnedEndpoint.Close | src/yasb_limitora/_codex_resource_core.py:153-177 | the end and the registry change as one attempt on the end |
| ResourceCore.IpcPair.Transfer | src/yasb_limitora/_codex_resource_core.py:193-198 | ownership moves only from the current owner of an open pair with two live ends, and nothing else changes |
| ResourceCore.IpcPair.Close | src/yasb_limitora/_codex_resource_core.py:200-230 | the pair and the registry change as one attempt on the pair, write end first |
| ResourceCore.NewIpcPair | src/yasb_limitora/_codex_resource_core.py:237-244 | a pair is built exactly for two registrable identities of different numbers |
| WindowsJob.JobClosedOnlyWhenEmpty | src/yasb_limitora/isolation/windows_job.py:202-275 | the handle of an assigned job is closed only after a successful termination followed by a count of zero |
| WindowsJob.ProcessClosedOnlyWhenSignalled | src/yasb_limitora/isolation/windows_job.py:202-275 | the handle of an owned assigned process is closed only after its last wait signalled |
| WindowsJob.WindowsJobBoundary.FromOwnedJob | src/yasb_limitora/isolation/windows_job.py:179-187 | a boundary around an already configured job starts created and owns nothing else |
| WindowsJob.WindowsJobBoundary.CloseHandles | src/yasb_limitora/isolation/windows_job.py:202-219 | success releases both handles, a handle is gone exactly if it was closed successfully, once, a borrowed handle is never closed, and every close is justified |
| WindowsJob.WindowsJobBoundary.Cleanup | src/yasb_limitora/isolation/windows_job.py:221-274 | a cleanup that succeeds leaves no handle, a late one reports it, and one without failing calls succeeds |
| WindowsJob.WindowsJobBoundary.AssignProcess | src/yasb_limitora/isolation/windows_job.py:276-301 | the assigned state is reached exactly through a yes to the assignment that membership and a positive count bear out, after a no to nesting unless that is allowed, and every other failure ends closed or broken |
| WindowsJob.WindowsJobBoundary.AssignBorrowedHandle | src/yasb_limitora/isolation/windows_job.py:303-328 | the same for a borrowed handle, which is used but no attempt to close it is ever made |
| WindowsJob.WindowsJobBoundary.Authorize | src/yasb_limitora/isolation/windows_job.py:330-333 | only an assigned boundary becomes authorized; in any other state nothing changes |
| WindowsJob.WindowsJobBoundary.Close | src/yasb_limitora/isolation/windows_job.py:335-352 | a close ends closed or broken and retryable, without an error everything is released, an error comes only with a failed call or a timeout, and a retry without failing calls ends closed |
| WindowsJob.WindowsJobBoundary.CloseWithDeadline | src/yasb_limitora/isolation/windows_job.py:354-412 | no error means closed, a late call changes nothing, and a timely one without failing calls ends closed |
| ProcessResources.PopenProcessOwner.AdaptNativeHandle | src/yasb_limitora/codex_process_resources.py:95-103 | a valid handle is taken over once, from a registered owner; otherwise nothing changes |
| ProcessResources.PopenProcessOwner.Close | src/yasb_limitora/codex_process_resources.py:112-136 | a close ends closed, with the process ended and only then its handle released, or stays retryable; one attempt suffices once calls stop failing |
| ProcessResources.HelperProcessResources.AttachJob | src/yasb_limitora/codex_process_resources.py:171-183 | the Job belongs to the helper from then on, even if assigning the process to it fails |
| ProcessResources.HelperProcessResources.Close | src/yasb_limitora/codex_process_resources.py:185-203 | the process owner is not touched unless the Job ends closed, no error means both are closed, and one attempt suffices once calls stop failing |
| Supervisor.MembersDisjoint | src/yasb_limitora/codex_supervisor.py:432-480 | two owners of a conserved collection share no resource |
| Supervisor.ClosingKeeps | src/yasb_limitora/codex_supervisor.py:457-473 | after any attempt to close one owner the rest still adds up, with it or, once it is settled, without it |
| Supervisor.JoiningKeeps | src/yasb_limitora/codex_supervisor.py:803-808 | replacing the process and Job owners by one Job-first helper loses and duplicates nothing |
| Supervisor.UndoneStep | src/yasb_limitora/codex_supervisor.py:457-473 | one more entry tried in reverse keeps the failures in their original order |
| Supervisor.CodexSupervisor.CloseOwner | src/yasb_limitora/codex_process_resources.py:185-203 | one attempt changes only what the owner holds, a helper touches its process only once its Job is closed, and success means settled |
| Supervisor.CodexSupervisor.Rollback | src/yasb_limitora/codex_supervisor.py:457-473 | every entry is tried once in reverse, exactly the failed ones stay in order, the books stay balanced, and an empty remainder means nothing is open |
| Supervisor.CodexSupervisor.Pipes | src/yasb_limitora/codex_supervisor.py:535-586 | two live pairs, or a failure whose leftovers have an owner |
| Supervisor.CodexSupervisor.AttachJob | src/yasb_limitora/codex_job_resources.py:78-95 | a Job that cannot be created, configured or attached is closed or has an owner among the entries |
| Supervisor.CodexSupervisor.Acquire | src/yasb_limitora/codex_supervisor.py:671-827 | success leaves the parent the open write end of the gate and the open read end of the data pipe, its copies of the child's ends closed, and an open Job-first helper; at every outcome each pipe end, process and Job is settled or held by exactly one reachable owner; a failure ends idle with nothing open or keeps the leftovers, and smooth steps acquire |
| Supervisor.CodexSupervisor.Close | src/yasb_limitora/codex_supervisor.py:829-883 | success, and only success, is the closed state, in which nothing is open; no settled resource is touched again; one call suffices once closers stop failing, and only a terminal descriptor then withholds success |
| Supervisor.CodexSupervisor.CloseWithDeadline | src/yasb_limitora/codex_supervisor.py:914-956 | the same against a deadline; a late call changes nothing |
| Refinement.PairAttempt | src/yasb_limitora/_codex_resource_core.py:200-230 | whatever the closers of a pair answer, its close is an attempt the supervisor's books allow, and an end still open there still has its current descriptor |
| Refinement.PairKeepsBooks | src/yasb_limitora/codex_supervisor.py:457-473 | so closing a real pair keeps every resource with exactly one owner, and a pair that reports success can be dropped |
| Refinement.CloseProcess | src/yasb_limitora/codex_process_resources.py:112-136 | the same for the owner of a process |
| Refinement.CloseHelper | src/yasb_limitora/codex_process_resources.py:185-203 | the same for a helper with its Job, whose process closes in the books only once the Job is closed |
| Refinement.CloseJob | src/yasb_limitora/codex_job_resources.py:117-130 | the same for a Job boundary and its owner |
| ProviderLease.Worker.Run | src/yasb_limitora/worker.py:144-251 | through every exception the record never claims more than is true of process, Job, queue and event; if all goes well the process ran and nothing is left |
| ProviderLease.Worker.ReapProcess | src/yasb_limitora/worker.py:262-294 | reaping marks a started process only when it is dead and closes its object only then |
| ProviderLease.Worker.Clean | src/yasb_limitora/worker.py:332-375 | no error means reaped with process, queue and event closed; one pass without failing calls completes the record |
| ProviderLease.RefreshAttempt.CleanupResources | src/yasb_limitora/worker.py:326-390 | success means nothing of any worker of the attempt is left and all helpers are quiescent; once calls stop failing one pass succeeds |
| ProviderLease.RefreshAttempt.AllComplete | src/yasb_limitora/worker.py:128-132 | complete records mean settled workers |
| ProviderLease.RefreshAttempt.ReleaseProviderLease | src/yasb_limitora/worker.py:401-426 | the native release comes before the native close, a finished half is remembered and not repeated, and a lease counts as given back only after both calls; it is only called with everything settled |
| ProviderLease.RefreshAttempt.RetryUnfinalizedLeases | src/yasb_limitora/worker.py:428-434 | success exactly when no lease is outstanding; none is lost |
| ProviderLease.RefreshAttempt.Run | src/yasb_limitora/worker.py:436-564 | every native release happened with everything settled, providers start exactly when enabled and with nothing outstanding, every acquired lease was natively returned or is kept, and a run without cleanup error leaves nothing, and so does every run without failing calls |
| ProviderLease.ExecutionOrchestrator.Run | src/yasb_limitora/worker.py:621-655 | a new attempt replaces the previous one exactly when that has neither resources nor a lease outstanding any more; once calls stop failing it does |
| Decimals.CanonicalDecimal | src/yasb_limitora/model.py:123-148 | the digit loop, the length formula and the final trimming compute the canonical form |
| Decimals.CanonicalKeepsWorth | src/yasb_limitora/model.py:133-148 | canonicalisation keeps the value |
| Decimals.CanonicalDependsOnWorth | src/yasb_limitora/model.py:133-148 | equal values are canonicalised, or refused, alike |
| Decimals.CanonicalIsIdempotent | src/yasb_limitora/model.py:123-148 | canonicalising twice changes nothing |
| Decimals.RenderedLengthIsLength | src/yasb_limitora/model.py:134-141 | the three-case formula is the length of the fixed-point text |
| Decimals.ReadOfFixedText | src/yasb_limitora/model.py:144-148 | fixed-point text reads back as its number |
| Decimals.ParseOfRendered | src/yasb_limitora/model.py:151-162 | the strict reader undoes the rendering of every accepted value |
| Decimals.ParseAcceptsExactly | src/yasb_limitora/model.py:151-162 | it accepts exactly the texts without sign, exponent or superfluous zeros within both limits |
| Decimals.CacheableExactly | src/yasb_limitora/cache.py:295-311 | the text of a canonical quantity matches the cache's pattern if and only if it is zero or at least one |
| Decimals.HalfIsNotCacheable | src/yasb_limitora/cache.py:55 | one half is accepted by the model and refused by the pattern |
| Percentage.RoundingIsMonotone | src/yasb_limitora/projection.py:250-253 | rounding half to even keeps order |
| Percentage.RoundingIsNearest | src/yasb_limitora/projection.py:250-253 | it gives a nearest integer, the even one of two |
| Percentage.QuotientWorth | src/yasb_limitora/projection.py:250-253 | the quotient is off the true ratio by at most half a unit of its last digit |
| Percentage.QuotientIsMonotone | src/yasb_limitora/projection.py:250-253 | a larger ratio never gets a smaller quotient, at any number of digits |
| Percentage.ScalingIsExact | src/yasb_limitora/projection.py:253 | multiplying by 100 in the same precision never rounds |
| Percentage.ComparableExactly | src/yasb_limitora/projection.py:247-249 | a percentage is defined exactly for a positive limit and a remainder that is at most the whole of it |
| Percentage.PercentIsExactAndBounded | src/yasb_limitora/projection.py:250-261 | the percentage is 100 times the quotient, lies in 0..100 and has at most 34 digits |
| Percentage.PercentIsMonotone | src/yasb_limitora/projection.py:239-263 | a share that is no smaller never shows a smaller percentage |
| Percentage.PercentTextMeaning | src/yasb_limitora/projection.py:254-263 | the range and digit guards never fire, the text is refused for its length alone, and it reads back as the percentage |
| Percentage.SmallerTextSmallerShare | src/yasb_limitora/projection.py:239-263 | a strictly smaller shown text stands for a strictly smaller true share |
| Projection.SortingOrders | src/yasb_limitora/projection.py:196-205 | sorting puts windows in key order, keeping exactly the same windows |
| Projection.SortingOrdered | src/yasb_limitora/cache.py:512-513 | sorting windows already in order changes nothing |
| Projection.BeforeIsLexicographic | src/yasb_limitora/projection.py:196-205 | windows are ordered by kind, scope, period, plan and source, absent before present |
| Projection.SelectedIsMostDepleted | src/yasb_limitora/projection.py:339-352 | the selected window shows the least percentage of all eligible ones, and strictly less shown means a strictly smaller share |
| Projection.PresentationShowsMostDepleted | src/yasb_limitora/projection.py:339-364 | the presentation of a snapshot names a most depleted window exactly if some window has a percentage, the first in order among equals, and its short text and summary show that percentage |
| Projection.ProjectionShowsMostDepleted | src/yasb_limitora/projection.py:557-582 | so does every presentation of the projected document, whatever the order of the windows given |
| Projection.WindowShowsPercentage | src/yasb_limitora/projection.py:239-263 | a window shows a percentage exactly when it is known, limit and remainder are measured alike and the remainder is a share of the limit, unless the text is too long |
| Projection.WindowIsListed | src/yasb_limitora/projection.py:365-379 | every window has its line in the tooltip's lines, followed by that of its renewal |
| Projection.WithoutSnapshot | src/yasb_limitora/projection.py:325-336 | a provider without a snapshot shows no window and a dash, and its text tells a missing provider, a timeout, another failure and a run that did not happen apart |
| Projection.GeneralOfTwo | src/yasb_limitora/projection.py:226-236 | of two providers the general texts name each that is not disabled under its own letter, in order, or say that none is enabled |
| Projection.RoomyTooltip | src/yasb_limitora/projection.py:383-389 | a tooltip with room for all its lines has all of them |
| Projection.BoundedSummary | src/yasb_limitora/projection.py:266-269 | at most 128 characters, ending in the whole qualifier after a prefix of the base |
| Projection.BuildTooltip | src/yasb_limitora/projection.py:383-389 | the line loop computes the greedy tooltip |
| Projection.TooltipPrefix | src/yasb_limitora/projection.py:383-389 | the tooltip at a smaller limit is a prefix of the one at a larger limit |
| Projection.TooltipFits | src/yasb_limitora/projection.py:383-389 | a tooltip stays within its limit or is the bare header |
| Projection.OnlyTooltipGrows | src/yasb_limitora/projection.py:314-389 | nothing but the tooltip of a provider depends on the limit |
| Projection.SizeIsMonotone | src/yasb_limitora/projection.py:557-582 | the encoded size of the whole document is monotone in the limit |
| Projection.Search | src/yasb_limitora/projection.py:575-583 | for a monotone size the halving search finds the greatest limit within the budget |
| Projection.ProjectBytes | src/yasb_limitora/projection.py:561-582 | the document at the greatest limit up to 4,096 that fits 65,536 bytes, or the failure envelope exactly when none fits or there are too many windows |
| Projection.PresentationMatches | src/yasb_limitora/cache.py:410-435 | the cache accepts exactly what its own search recomputes, the general block and each provider's presentation included |
| Projection.CacheAgreesWithProjection | src/yasb_limitora/cache.py:372-435 | what the projector emits the cache recomputes identically, and it accepts nothing else |
| CacheReader.StoredExactly | src/yasb_limitora/cache.py:1251-1271 | the byte strings the cache publishes are exactly those the projector emits for storable, publishable documents |
| CacheReader.ReadExactly | src/yasb_limitora/cache.py:1253-1271 | the cache reads a document from exactly the bytes that this document, if storable, is written as: every field stands under its own name, in its place |
| CacheReader.ReadsBackExactly | src/yasb_limitora/cache.py:438-556 | a document comes back whole from its bytes, unless a provider tells an error or an unknown reason for not running, or some number lies strictly between zero and one; such a document is refused |
| CacheReader.DocumentExactly | src/yasb_limitora/cache.py:438-556 | a JSON tree is read as a document exactly if it is the tree that document is written as |
| CacheReader.PublishableExactly | src/yasb_limitora/cache.py:555-571 | with two usable providers a published document is complete, with one partial, and without one, with an error or after a run cut short nothing is published |
| FrameProtocol.DecodeInvertsEncode | src/yasb_limitora/isolation/protocol.py:105-139 | every message that can be encoded decodes to its canonical form |
| FrameProtocol.EncodeInvertsDecode | src/yasb_limitora/isolation/protocol.py:105-139 | every accepted frame is what its message encodes to |
| FrameProtocol.AcceptedFramesAreCanonical | src/yasb_limitora/isolation/protocol.py:111-139 | a frame is accepted if and only if some valid message encodes to it |
| FrameProtocol.LengthFaultsExactly | src/yasb_limitora/isolation/protocol.py:128-138 | a frame cut short and one with something behind it are told apart from all other faults |
| FrameProtocol.ComplaintExactly | src/yasb_limitora/isolation/protocol.py:52-102 | a message is valid exactly if it is addressed by type and nonce and has the fields of its type, no others, with legal values; an unknown field of a known type is told apart from everything else that is wrong |
| FrameProtocol.CanonKeepsComplaint | src/yasb_limitora/isolation/protocol.py:47-102 | sorting the keys of a message, valid or not, changes neither whether it is valid nor which complaint it gets |
| FrameProtocol.EncodingIgnoresOrder | src/yasb_limitora/isolation/protocol.py:105-110 | messages that differ only in the order of keys, at any level, get the same frame or the same complaint |
| FrameProtocol.ReadExact | src/yasb_limitora/isolation/protocol.py:161-167 | whatever the pieces, success is exactly the next bytes; without timeouts and faults it fails only for missing bytes |
| FrameProtocol.ReadFrame | src/yasb_limitora/isolation/protocol.py:169-175 | reading a frame from any chunking gives what the whole stream deserves, message or protocol error |
| FrameProtocol.StreamExactly | src/yasb_limitora/isolation/protocol.py:169-175 | a message is read exactly if a front part of the stream is an accepted frame of it, and the rest stays |
| FrameProtocol.StreamEndsEarly | src/yasb_limitora/isolation/protocol.py:169-175 | the stream ends too early exactly if it is shorter than the frame it announces |
| FrameProtocol.WriteFrame | src/yasb_limitora/isolation/protocol.py:177-186 | success sends exactly the frame, a transport failure a prefix of it, a refused message nothing; a smooth transport takes it all |
| FrameProtocol.WrittenFramesReadBack | src/yasb_limitora/isolation/protocol.py:161-186 | a written frame followed by anything reads back as its message |
| Json.ParseOfPrint | src/yasb_limitora/isolation/protocol.py:47-50 | parsing undoes printing for every value without floating-point numbers, escaped to ASCII or not |
| Json.ParsedIsDict | src/yasb_limitora/isolation/protocol.py:40-45 | with the duplicate hook every parsed object holds each key once, at every level |
| Utf8.DecodeOfEncode | src/yasb_limitora/isolation/protocol.py:111-121 | strict decoding undoes encoding |
| Utf8.EncodeOfDecode | src/yasb_limitora/isolation/protocol.py:111-121 | strict decoding accepts nothing but images of encoding |
| PipeTransport.Pipes.ReadFrame | src/yasb_limitora/codex_supervisor.py:118-159 | exactly the next expected bytes and no more are consumed; every error has its cause, for trailing data and an over-full pipe in what the last look showed; over honest pipes, however data arrives, is cut or stalls, only the clock can withhold a frame that fits; also in the deadline variant of lines 200-233 |
| PipeTransport.Pipes.WriteControl | src/yasb_limitora/codex_supervisor.py:161-185 | the data goes out once and in order; after an error a front part of it is out; over honest pipes, however often a write blocks or is short, only the clock can withhold success, and every other error has its cause |
| PipeTransport.Pipes.ReadResponse | src/yasb_limitora/codex_helper.py:523-543 | an intact response of 1 to 65,536 bytes is recovered; over honest pipes with nothing behind it only the clock can withhold it or, against a deadline, more than 4,096 bytes waiting before the length was read |
| PathCleanup.JoinOfSplit | src/yasb_limitora/_path_cleanup.py:139-144 | joining the parts of a PATH gives it back |
| PathCleanup.RemovingAppended | src/yasb_limitora/_path_cleanup.py:139-145 | taking an appended clean element off gives the text back |
| PathCleanup.ReadOfRecord | src/yasb_limitora/_path_cleanup.py:95-114 | a written record reads back as what was written |
| PathCleanup.AppendKeepsBase | src/yasb_limitora/_path_cleanup.py:117-156 | an append, a correction or a rolled-back one keeps registry and record in step with the base; if record and rollback both raise, the element stays on PATH, without a record or under one that is then stale |
| PathCleanup.AppendExactly | src/yasb_limitora/_path_cleanup.py:117-156 | in step with a base an append succeeds exactly when PATH is safe and lacks the element, a correction is consented to, and both writes work; PATH is then base;element under a record that says so, and every other answer has its own condition |
| PathCleanup.AppendMistrusts | src/yasb_limitora/_path_cleanup.py:126-139 | a record that says nothing is refused as invalid, and one that no longer names PATH or its last element as having lost its ownership |
| PathCleanup.RemoveKeepsBase | src/yasb_limitora/_path_cleanup.py:159-185 | a removal succeeds on every kept record and puts the base back, or changes nothing, unless clearing and rollback both raise, which leaves the record stale over the base |
| PathCleanup.BatchKeepsBase | src/yasb_limitora/_path_cleanup.py:188-247 | the uninstall puts the base back and clears the record, or changes nothing, or leaves the record stale over the base: exactly when its second look raises, when the deleted state's record cannot be cleared, or when after a failed deletion PATH cannot be put back |
| PathCleanup.CleanupExactly | src/yasb_limitora/_path_cleanup.py:250-287 | a cleanup on its own succeeds exactly when there is a record and deletion and clearing work, and never touches PATH |
| PathCleanup.StaleStays | src/yasb_limitora/_path_cleanup.py:117-186 | behind a stale record an append is refused unless PATH already holds the element, a removal does nothing, and no operation changes anything |
| PathCleanup.StaleForGood | src/yasb_limitora/_path_cleanup.py:117-287 | nor does any sequence of operations |
| PathCleanup.RunKeepsBase | src/yasb_limitora/_path_cleanup.py:117-287 | after any sequence of appends, corrections, removals, uninstalls and cleanups, whichever accesses raise, the record is stale if and only if some operation left it so; otherwise it is absent with PATH at its base or names exactly base;element |
| PathCleanup.RemoveRestoresBase | src/yasb_limitora/_path_cleanup.py:159-185 | a removal that succeeds after any run restores the text and type PATH had before the record, the original ones unless a cleanup on its own or an append that failed all the way came between |
| PathCleanup.UserPathRegistry.AppendUserPath | src/yasb_limitora/_path_cleanup.py:117-156 | without foreign edits it is the append step; with any foreign edits it only ever replaces the value it was computed from, and undoes only its own write |
| PathCleanup.UserPathRegistry.RemoveRecordedUserPath | src/yasb_limitora/_path_cleanup.py:159-185 | the same for the removal |
| PathCleanup.UserPathRegistry.CleanupLiteralState | src/yasb_limitora/_path_cleanup.py:250-287 | without foreign edits it is the cleanup step, which gives up the record only with the state deleted; PATH is never written |
| PathCleanup.UserPathRegistry.RemovePathAndCleanupState | src/yasb_limitora/_path_cleanup.py:188-247 | without foreign edits it is the uninstall step; with any foreign edits it replaces only the value it was computed from, and undoes only its own write |
| EnvBlock.EditingSettles | src/yasb_limitora/_env_block.py:177-196 | from any accepted input a third application equals the second |
| EnvBlock.FirstEditIsIdempotent | src/yasb_limitora/_env_block.py:177-196 | without a block at first every byte stays and a line end, where missing, and the block follow; one application is enough and leaves exactly one start and one end line |
| EnvBlock.OutsideIsPreserved | src/yasb_limitora/_env_block.py:187-196 | an accepted file with a block has one start line and a later end line; the bytes of the lines from the one to the other become the new block, and the bytes of all lines before and behind them, with the byte order mark, stay |
| EnvBlock.OutsideLinesStay | src/yasb_limitora/_env_block.py:187-196 | read again, the result has the same lines before and behind, and the new block's lines between them |
| EnvBlock.NextEditAccepted | src/yasb_limitora/_env_block.py:177-196 | after an accepted edit the next one is accepted if and only if the secret filter passes the block with the line ends that prevail then, so whenever the same line ends prevail |
| EnvBlock.InvocationIsShown | src/yasb_limitora/_env_block.py:159-170 | any accepted file comes out with the invocation on the line before the block's end line |
| EnvBlock.CutLines | src/yasb_limitora/_env_block.py:187-193 | a text cut between two of its lines keeps its lines on both sides |
| EnvBlock.MajoritySettles | src/yasb_limitora/_env_block.py:183-184 | the majority of line ends settles after one edit of the block |
| EnvBlock.BlockLinesAreBlock | src/yasb_limitora/_env_block.py:159-170 | with an invocation free of line boundaries the rendered lines hold one start, one end and nothing like them between |
| HelperWire.ViewRoundTrip | src/yasb_limitora/codex_helper.py:356-421 | every view in normal form comes back as it was |
| HelperWire.DecodeIsNormal | src/yasb_limitora/codex_helper.py:792-880 | whatever arrives, the result is a well-formed view in normal form, and writing and reading it again changes nothing |
| HelperWire.PayloadRoundTrip | src/yasb_limitora/codex_helper.py:409-421 | every view in normal form whose payload is not over 65,536 bytes comes back from its bytes as it was |
| HelperWire.DecodeBytesIsNormal | src/yasb_limitora/codex_helper.py:792-831 | whatever bytes arrive, the result is a well-formed view in normal form, and its own bytes, unless too long, read as it again |
| HelperWire.DecodedStateFits | src/yasb_limitora/codex_helper.py:813-827 | a decoded view with a snapshot is a success exactly if that is fresh and available, at least in part; errors, outcomes and snapshots go together |
| HelperWire.ViewAcceptedExactly | src/yasb_limitora/model.py:309-339 | the checks accept exactly the views whose state, error and snapshot are those of their outcome, under a label of 1 to 64 printable characters or none |
| HelperWire.ConsistentExactly | src/yasb_limitora/model.py:219-240 | unless a sum is rounded, the numeric rules accept exactly the windows whose numbers are of one measure, within the limit, and add up to it |
| HelperWire.DecodedNumbersAreSensible | src/yasb_limitora/codex_helper.py:841-859 | so every window of a decoded view has such numbers |
| HelperWire.WindowReadNormal | src/yasb_limitora/codex_helper.py:841-859 | a window that is read satisfies the rules of the view, and one of an untrusted source is scrubbed |
| HelperWire.FieldsOfObject | src/yasb_limitora/codex_helper.py:311-314 | an object with exactly the expected fields gives their values back |

## Left out

- SingleFlight: coordinators are a transition system over values rather than a class, because the property is about interleavings; deadlines appear only as steps that may give up at any time; a marker or cache write in flight when a process dies has settled before the key mutex passes on.
- PublicationAuthority: the bare `publish` of cache.py:909, which bypasses the claim, and removal of the marker file from outside are not modelled.
- MutualExclusion: covers fallback holders among themselves; a holder of the named mutex and a holder of the marker are not excluded from each other. That a lock can be freed means that some run frees it, with a crash of a live creator that gave up where that is what it takes; that it will be is not promised by the code and not claimed. The probe of the parent directory and the Win32 calls are answers; the lease object is part of a process's phase.
- FromOwnedJob: the constructor that creates and configures its own job handle is not modelled, only the one that takes over an owned job.
- CloseHelper: the books of the supervisor number resources as they are created; the deadline variants of the process owner and the helper are not modelled, and the owner state a Job keeps beside its boundary follows the boundary.
- Acquire: the pipe factory never hands out a number still in use, except the same number twice at once; an interruption before the acquisition is prepared is not modelled; the exchange with the helper is one outcome here and is modelled in `PipeTransport`.
- ReleaseProviderLease: a lease is the guard's own object with its `owned` and `closed` flags; stand-ins without them are not modelled.
- RetryHelpers: the executor behind a helper is represented by its flags and the view of its last supervisor.
- ProjectBytes: the contents of the fixed failure envelope, the mapping of provider views to items and the choice of the execution state are not modelled; display of timestamps and `str.capitalize` are parameters.
- CacheAgreesWithProjection: is about order, number and presentation of documents; `CacheReader` adds the bytes, the field names and the numbers. Both sides are given the same texts for timestamps and words, and the search, written out once in each place with the same steps and bounds, is one method here.
- StoredExactly: the cache's checks of text lengths, unsafe words, timestamps and sources, its vocabularies of states, availabilities and metrics, and the model constructors it calls for windows and snapshots are not modelled; each of them can only refuse more. The envelope with schema, time and fingerprint is not modelled.
- ParseAcceptsExactly: spellings of the general decimal reader with spaces, underscores or words are treated as unreadable; they are refused either way. Exponent limits of the decimal context are not modelled.
- ParseOfPrint: floating-point numbers are carried by their spelling, lone surrogates do not occur in texts (the encoder refuses them when writing UTF-8), and nesting is unbounded.
- RunKeepsBase: a compare-and-write is atomic, and a write that raises has not taken effect; looks at the registry before the first write change nothing when they raise and are not modelled as raising; the notification always returns, directory deletion is one answer, and the registry adapter is not modelled.
- ReadFrame: in `PipeTransport` the clock is a number of fruitless polls, and in `FrameProtocol` the variants against a caller's deadline differ only in where the timeout comes from.
- WriteFrame: a transport gives no more bytes than asked for and claims to have taken no more than offered; the code does not check either.
- EditingSettles: line ends are counted on the decoded text, where line feed and carriage return are the same single bytes; the secret filter is a parameter; the file transaction around the edit is not modelled.
- PayloadRoundTrip: for Codex views; timestamps, Unicode normalisation and source trimming are parameters with the stated properties.
- `ProtocolSession`, the guard and deadline internals, path reading, the command line, provider adapters, setup, diagnostics and the build scripts are not part of this model.
