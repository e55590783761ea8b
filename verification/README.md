# Verified model of transcript reading, restoring and publishing

This project models, in Dafny 4.11, the logic by which the repository reads agent transcripts out of
files other programs write, decides which prefixes of them are settled, and moves them between
runtimes; and it proves what that logic promises. `dafny verify dfyconfig.toml` checks everything.

## What is modelled

**Codex lineage and capture** (`Rollout`, `Lineage*`, `Capture*`). A conversation is a chain of
append-only carriers; a carrier's header may continue another one from a byte offset and an ordinal.
A lineage read rebuilds what the model sees: the leaf's header, the cut prefix of each ancestor, the
leaf's body. A capture rebuilds what the thread ever wrote, keeping tails after a rewind and leaving
fork parents cut, with a map from carrier bytes to stream offsets. `CaptureWriter` models the writer
as steps (append to the leaf, continue the thread in a new carrier from any cut, growth of other
threads' carriers) and compares captures at any two moments of any run.

**The cold-rollout restore protocol** (`Restorations`, `RestoreRuns`, `RestoreProofs`, `Carriers`).
The lock-protected `running` set and `failed` table are a class; one restoration is a sequence of
atomic operations; a world holds any number of processes, waiters, background restorations, crashes
and Codex itself, interleaved without restriction. What is assumed of Codex is written out as its
moves: it decodes exactly, only appends to a plain file, removes a compressed copy only while a plain
file exists, and removes a plain file in favour of its compressed copy only while that copy is there
and decodes to the current plain text, at the moment of removal, and no restoration has opened the
copy it would publish. `RestoreProofs.RetiredCopyLoses` and `RestoreProofs.RecompressionInFlightLoses`
show that neither half of the last assumption can be dropped. An error other than "not found" on a
plain name may make it look absent to any step, and every operating-system call may fail.

**Claude Code execution boundaries** (`ClaudeRecord`, `ClaudeCloses*`, `ClaudeEnded`,
`ClaudeBoundaries`). The scan over records that decides where history may be settled, its call
tracking, the boundary wrappers, and the report of open calls.

**Claude sessions** (`ClaudeSession`, `ClaudeRender`, `ClaudeWording`, `ClaudeRoundTrip`,
`ClaudeNormal`, `ClaudeText`, `ClaudeNative`, `Slug`). Reading a transcript into events, writing
events as a transcript, what one pass through both does, and the name of a project's directory.

**The privacy benchmark** (`Pointer*`, `Sorting`, `Ranges`, `Secret`, `Scoring*`). JSON Pointer (RFC
6901, sections 3 and 4) as the benchmark writes and reads it, the partition of each string into
ranges to keep and to protect, its checker, alignment by recovery, and the scoring of a secret case.

**Two smaller algorithms** (`Titles`, `Archive*`). The bounded reverse scan for the newest names, and
link resolution with the deduplicating archive and its extraction.

`Wrappers`, `Sequences`, `Lines`, `Text` and `Numerals` hold what these share.

Loops and objects that change state are methods and classes, each proved equal to a specification
function; the functions are what the lemmas are about. JSON text, zstd frames, digests, the table of
injected openings and the token pattern are function parameters, so every statement holds whatever
they are. Byte and record counts are unbounded: each sum the code checks for overflow is also compared
with a limit of the same width, and both failures are one error. The 32-bit hash of a project name is
the one place where wrap-around matters, and is modelled bit for bit.

## Model

| member | source | states |
|---|---|---|
| Rollout.ValidatedPrefixEnd | src/adapter/codex.rs:356-397 | the loop that validates a cut admits the records one by one, sharing one allowance, and fails with the first error met |
| Rollout.AdmitMeaning | src/adapter/codex.rs:370-393 | admission succeeds exactly when every record has an ordinal, the ordinals climb from the header's, and a finite allowance covers them all; it leaves the last ordinal and the rest of the allowance |
| Lineage.SpliceOne | src/adapter/codex.rs:502-515 | one ancestor's round takes exactly the validated prefix, or stops with the error the whole splice then has |
| Lineage.SpliceNodes | src/adapter/codex.rs:493-518 | the output loop is the splice of leaf header, ancestor prefixes and leaf body under both limits |
| LineageProofs.LeafAloneWhole | src/adapter/codex.rs:465-478 | a leaf that answers alone, unrecognized but wanted raw or without a base, is read exactly as it lies on disk |
| Lineage.LineageBytes | src/adapter/codex.rs:437-518 | the whole read, loop by loop, errors and order of checks included |
| LineageProofs.SplicedForm | src/adapter/codex.rs:493-518 | a successful splice is leaf header, ancestor prefixes oldest first, leaf body, within `bytes` and, with what was retained, within `working_bytes` |
| LineageProofs.AllowanceExact | src/adapter/codex.rs:370-378 | a finite record allowance succeeds exactly when the selected ancestor records fit in it, and then with the bytes an unlimited read returns |
| LineageProofs.AncestorsClimb | src/adapter/codex.rs:370-396 | when each header's ordinal is at least its base's exclusive ordinal, the spliced ancestor records have strictly increasing ordinals across all carriers |
| LineageProofs.LineageGrowsByLeaf | src/adapter/codex.rs:437-518 | once the leaf has its header line: between two successful reads the later is the earlier followed by exactly what the leaf gained; growth of ancestors changes nothing |
| LineageProofs.TornLeafGrows | src/adapter/codex.rs:465-478 | a leaf without a complete header line is read raw; a later read is then the earlier one and what the leaf gained exactly when the leaf answers alone again or its ancestors contribute nothing |
| LineageProofs.TornLeafExample | src/adapter/codex.rs:465-478 | such a leaf and a base for which the later read is not an extension by what the leaf gained: the base's record comes in between |
| LineageProofs.LineageWithinBudgets | src/adapter/codex.rs:449-501 | for an arbitrary, even cyclic, lookup: a spliced read comes from at most 64 carriers with pairwise distinct rollout ids, its output is within `bytes`, and retained input plus output within `working_bytes` |
| Capture.CompleteBodyLen | src/adapter/codex.rs:735-760 | scanning 64 KiB chunks backwards finds the same last newline as searching the whole body |
| Capture.VisitCarrier | src/adapter/codex.rs:575-618 | one round of the walk: identity, depth and repetition, reading, retained budget, splitting |
| Capture.MeasureNode | src/adapter/codex.rs:594-618 | lengths of a carrier, found in the body or by scanning the file, and whether it belongs to the thread |
| Capture.CaptureLineage | src/adapter/codex.rs:560-702 | the whole capture, full or header-only, with the order of its errors |
| Capture.KeptOf | src/adapter/codex.rs:639-662 | how much of a body the stream keeps: everything of the leaf, complete records of the thread's own, the cut of a parent |
| Capture.Assemble | src/adapter/codex.rs:631-664 | the pieces of the stream: first own header, then every body oldest first |
| Capture.CopyOut | src/adapter/codex.rs:666-701 | copies the pieces, or only counts them, into bytes and spans |
| CaptureProofs.WalkFinds | src/adapter/codex.rs:575-629 | for an arbitrary, even cyclic, lookup: a successful walk, full or header-only, is at most 64 carriers with pairwise distinct rollout ids, each where the budgeted lookup of its successor's base found it, the last without a base |
| CaptureProofs.HeaderOnlyRefinesFull | src/adapter/codex.rs:557-559 | on the same carriers, when both succeed the header-only capture has the spans of the full one, and its stream length is the full byte length |
| CaptureSpans.SpansTile | src/adapter/codex.rs:519-527 | spans tile the stream from its start to its end and each copies exactly the carrier bytes it names |
| CaptureSpans.TileOnce | src/adapter/codex.rs:519-527 | every stream position lies in exactly one span |
| CaptureSpans.OffsetExact | src/adapter/codex.rs:529-536 | the offset of a carrier prefix exists exactly when the stream holds its last byte, and is where that byte ends |
| CaptureSpans.CaptureWithinBudgets | src/adapter/codex.rs:666-701 | a full capture keeps output within `bytes` and retained input plus output within `working_bytes` |
| CaptureWriter.CaptureOnlyGrows | src/adapter/codex.rs:548-557 | over every run of the writer, rewinds included, the complete records of an earlier capture are a prefix of every later capture |
| CaptureWriter.OffsetsKept | src/adapter/codex.rs:529-536 | an offset recorded at a complete record keeps its value through every later append and rollover |
| Restorations.Lock.TakeTurn | src/adapter/codex_rollout.rs:53-61 | a waiter takes the turn exactly when no restoration of this carrier runs |
| Restorations.Lock.DropTurn | src/adapter/codex_rollout.rs:64-69 | dropping a turn frees its carrier and touches no failure |
| Restorations.Lock.DropBackground | src/adapter/codex_rollout.rs:82-92 | a background turn records its failure and frees the carrier in one step |
| Restorations.Lock.BeginRestore | src/adapter/codex_rollout.rs:178-190 | hands out and forgets a pending failure; else reports a warm carrier; else claims the turn unless it is taken |
| Restorations.Files.PublishNoclobber | src/adapter/codex_rollout.rs:369-380 | publication fills an empty plain name and never replaces a taken one; it fails only when both attempts do |
| Restorations.Files.RestoreHeld | src/adapter/codex_rollout.rs:222-268 | the restoring routine run alone is its sequence of atomic operations |
| Restorations.WorkKeeps | src/adapter/codex_rollout.rs:222-268 | each atomic operation keeps the readable history, whatever the operating system answers, and keeps what the restoration knows of its carrier |
| Restorations.AloneKeepsHistory | src/adapter/codex_rollout.rs:213-268 | a restoration alone on its carrier ends with the same history and, without an error, a carrier that is not cold |
| RestoreProofs.HistoryOnlyGrows | src/adapter/codex_rollout.rs:213-268 | under every interleaving the readable history of every carrier only grows by extension, no carrier vanishes, and an undecodable one is left untouched |
| RestoreProofs.RecompressionInFlightLoses | src/adapter/codex_rollout.rs:222-268 | for every history and every appended text: recompressing under a restoration that opened the old copy loses exactly what was appended |
| RestoreProofs.UnlinkNeedsCopy | src/adapter/codex_rollout.rs:222-268 | removing a plain file keeps the history exactly when the compressed copy decodes to it or to an extension of it |
| RestoreProofs.RetiredCopyLoses | src/adapter/codex_rollout.rs:222-268 | for every history: between packing and removing the plain file, a restoration to which that file looked absent retires the copy, ends without an error, and a removal then would lose everything |
| RestoreProofs.OneHolder | src/adapter/codex_rollout.rs:50-61 | at most one restoration of a process holds a carrier |
| RestoreProofs.RunningExactly | src/adapter/codex_rollout.rs:50-92 | a carrier is in the running set exactly while some live restoration of the process holds it |
| RestoreProofs.TurnsAreNotLost | src/adapter/codex_rollout.rs:53-92 | whenever a waiter waits, it can take the turn or whoever holds it can make a step |
| RestoreProofs.BackgroundHasNoPending | src/adapter/codex_rollout.rs:71-92 | a carrier held by a background restoration has no failure waiting |
| RestoreProofs.FailuresHandedOnce | src/adapter/codex_rollout.rs:71-92 | over every run each background failure is handed out once, unchanged, before the next background attempt, and waits in memory exactly until then |
| RestoreProofs.ListedOnce | src/adapter/codex_rollout.rs:295-305 | a listing reads the plain name, and reads and later checks the compressed one, at any moments of any run and in either order. It counts the carrier twice exactly when the compressed name was read and the plain file is there when read but not at the check; never exactly when the plain file is not there when read, and is there at the check or the compressed name was not there to be read; once otherwise. Each such change is traced to the last publication or recompression between its two moments |
| RestoreProofs.ListedOnceUndisturbed | src/adapter/codex_rollout.rs:295-305 | whenever the two names are read and the compressed one checked, a carrier whose plain file nobody publishes or removes meanwhile is counted exactly once |
| RestoreProofs.ListedTwice | src/adapter/codex_rollout.rs:295-305 | both names read, then a recompression, then the check: counted twice |
| RestoreProofs.ListedTwiceRestored | src/adapter/codex_rollout.rs:295-305 | the compressed name read and checked, then the carrier restored, then the plain name read: counted twice |
| RestoreProofs.ListedNever | src/adapter/codex_rollout.rs:295-305 | the compressed name read, then the carrier restored, then the check: missed |
| RestoreProofs.ListedNeverRetired | src/adapter/codex_rollout.rs:295-305 | the plain name looked for, then the carrier restored and its copy removed, then the compressed name looked for: missed |
| Carriers.NamesPair | src/adapter/codex_rollout.rs:138-162 | plain and compressed names lead to each other, for exactly the names with the plain extension |
| Carriers.OneEntry | src/adapter/codex_rollout.rs:295-305 | of the two names of a carrier a listing counts exactly one, the plain one if it is there |
| Carriers.FirstLineOf | src/adapter/codex_rollout.rs:275-293 | the loop over frames reads headers frame by frame |
| Carriers.HeaderReadsNoFurther | src/adapter/codex_rollout.rs:270-293 | decoding frame by frame, only as far as needed, reads the first line of the whole decoded text, or as much of it as the limit allows |
| ClaudeCloses.TrackOpenCalls | src/adapter/claude_code.rs:213-255 | which calls are without output after a record |
| ClaudeCloses.ReadRecord | src/adapter/claude_code.rs:118-190 | the effect of one conversation record on the scan |
| ClaudeCloses.ExecutionCloses | src/adapter/claude_code.rs:103-194 | the scan's loop computes the closes of the text |
| ClaudeClosesProofs.RunSound | src/adapter/claude_code.rs:169-190 | at every point a pending boundary is an interrupt exactly when the scan is interrupted, and ends increase |
| ClaudeClosesProofs.OnlineCloses | src/adapter/claude_code.rs:90-194 | reading on keeps fixed boundaries in place; the provisional one stays or gives way to a later one; nothing else is added inside text already read; ends strictly increase |
| ClaudeClosesProofs.TornTail | src/adapter/claude_code.rs:110-114 | a torn last line that does not parse changes no boundary |
| ClaudeClosesProofs.DurationKeepsKind | src/adapter/claude_code.rs:169-176 | a duration record absorbs the provisional boundary and keeps its kind |
| ClaudeClosesProofs.CutsAreClosed | src/adapter/claude_code.rs:131-168 | every boundary ends a line and leaves no tracked call open in the prefix it cuts, of which it is the last boundary |
| ClaudeEnded.EndedSimulatesStrict | src/adapter/claude_code.rs:72-88 | counting given-up executions embeds the strict closes in order and kind, never earlier; the image of a fixed close stays within the text that fixed it |
| ClaudeEnded.EndedAddsOnlyGivenUp | src/adapter/claude_code.rs:183-190 | every other close of the inclusive scan ends at a generated reply or a compaction summary |
| ClaudeEnded.OpenToolCalls | src/adapter/claude_code.rs:1193-1250 | the calls a transcript reports without output |
| ClaudeEnded.TrackedCallsAreReported | src/adapter/claude_code.rs:213-255 | without sidechain records, every call that holds a boundary back is one the transcript reports open |
| ClaudeBoundaries.BoundariesPartition | src/adapter/claude_code.rs:46-76 | completed and interrupted boundaries climb, share no offset, and together are every place an execution ended, the last of them being the ended boundary |
| ClaudeBoundaries.PublishedCutsStay | src/adapter/claude_code.rs:46-60 | a completed boundary before the last end stays one, whatever the transcript gains |
| ClaudeSession.ReadUser | src/adapter/claude_code.rs:789-841 | what a user record becomes, branch by branch |
| ClaudeSession.Parse | src/adapter/claude_code.rs:755-995 | reading a transcript: identity, folder and events with their lines |
| ClaudeRender.Render | src/adapter/claude_code.rs:1003-1191 | writing a session: bodies in event order, chained through the identifiers drawn |
| ClaudeWording.NativeWordingFits | src/adapter/claude_code.rs:1038-1039 | the fixed phrases are not blank and no two calls share a pairing identifier |
| ClaudeRoundTrip.OneUnbrokenChain | src/adapter/claude_code.rs:1013-1191 | each rendered record names the one before it and the first names none |
| ClaudeRoundTrip.NoCallIsOpen | src/adapter/claude_code.rs:1027-1106 | with any tool details, a rendered session leaves no call open for either reader of calls |
| ClaudeNormal.RenderThenParse | src/adapter/claude_code.rs:754-1191 | rendered and read back, a session says its normal form, event by event and in order |
| ClaudeNormal.NormalFormAtOnce | src/adapter/codex.rs:2885-2902 | a second pass changes no kind, text, path or tool; replies and calls are kept one for one, and prompts, interjections and compaction notes become prompts |
| ClaudeNative.HumanNatively | src/adapter/claude_code.rs:1534-1551 | under Claude Code's own tests a text is taken for a person's exactly when it is not blank and opens with no injection: leading reminders are the only thing split off a plain text |
| ClaudeNative.NormalFormNatively | src/adapter/claude_code.rs:754-1191 | with Claude's own tests and phrases, and any table of openings that knows reminders: a session comes back as its normal form if and only if no prompt, interjection or note in it opens with an injection, and then a second pass changes nothing and the totals fold |
| ClaudeNative.InjectedReadBack | src/adapter/claude_code.rs:1360-1390 | a prompt that opens with an injection comes back as something else, so that condition cannot be dropped |
| ClaudeNormal.TargetReadBack | src/adapter/claude_code.rs:774-786 | the session read back has the identity and folder it was written for |
| Slug.HashIsPolynomial | src/adapter/claude_code.rs:468-472 | the wrapping shift-subtract-add fold is the base-31 polynomial modulo 2^32, read as a signed number |
| Slug.HashModulo | src/adapter/claude_code.rs:468-472 | the hash is a signed 32-bit number congruent to the polynomial modulo 2^32 |
| Slug.PrintBase36 | src/adapter/claude_code.rs:480-492 | the loop that pushes and reverses digits prints the base-36 numeral |
| Slug.Base36Reads | src/adapter/claude_code.rs:480-492 | printed digits evaluate back, have no leading zero, and are at most six for a 32-bit magnitude |
| Slug.NamesAreShort | src/adapter/claude_code.rs:444-478 | no path's name exceeds 207 characters, all of them letters, digits or dashes; a long name is 200 slug characters, a dash, and the magnitude of the hash |
| Pointer.Evaluate | scripts/privacy-bench/contracts.py:30-40 | evaluating a pointer step by step, with its index, key and scalar errors |
| PointerProofs.UnescapeEscape | scripts/privacy-bench/contracts.py:22-27 | unescaping an escaped key gives it back, whatever tildes and slashes it holds |
| PointerProofs.EscapeUnescape | scripts/privacy-bench/contracts.py:22-27 | every part a reader accepts is the escaped form of what it reads |
| PointerProofs.PartsOfRender | scripts/privacy-bench/contracts.py:22-27 | reading a rendered pointer gives its keys |
| PointerProofs.PointersReachTheirLeaves | scripts/privacy-bench/contracts.py:50-55 | each pointer written for a leaf evaluates to that leaf |
| PointerProofs.PointersAreDistinct | scripts/privacy-bench/contracts.py:50-55 | distinct leaves have distinct pointers |
| PointerProofs.PointersAreComplete | scripts/privacy-bench/contracts.py:30-55 | every pointer that evaluates to a leaf is the one written for it |
| Ranges.Coverage | scripts/privacy-bench/evaluate.py:16-21 | the sweep answers true exactly when every position of the range is in some span |
| Ranges.OverlapsMeaning | scripts/privacy-bench/evaluate.py:24-25 | overlap is sharing a position with a span, or holding an empty span strictly inside |
| Ranges.PartitionCheck | scripts/privacy-bench/contracts.py:239-245 | the cursor loop accepts exactly a tiling in sorted order |
| Ranges.PartitionMeaning | scripts/privacy-bench/contracts.py:234-245 | the checker accepts valid ranges, in any order, exactly when each position is in exactly one of them |
| Secret.FindAll | benchmarks/privacy/generate.py:48-52 | all occurrences of a value, left to right, none sharing a character with the one before |
| Secret.EmitChecks | benchmarks/privacy/generate.py:59-68 | the loop that turns sorted ranges into checks, failing on an overlap |
| Secret.StringChecksTile | benchmarks/privacy/generate.py:31-68 | the checks of a string tile it in order, are valid, and protect exactly the selected ranges |
| Secret.SecretPartitions | scripts/privacy-bench/contracts.py:234-245 | the ranges a case is built with always pass the partition check |
| Scoring.ProtectedRanges | scripts/privacy-bench/contracts.py:132-147 | the alignment loop: recovered text compared with the original, spans in original coordinates |
| Scoring.Score | scripts/privacy-bench/evaluate.py:88-138 | the secret layer of scoring: shape, alignment of every string, verdicts and their counts; nothing counted on an error |
| ScoringProofs.RecoveryExplains | scripts/privacy-bench/contracts.py:132-147 | any accepted alignment explains every match by the original text it hides |
| ScoringProofs.AlignRedacted | scripts/privacy-bench/contracts.py:132-147 | a text with exactly its protected ranges replaced by recoverable tokens aligns to exactly those ranges |
| ScoringProofs.AlignedIsReplaced | scripts/privacy-bench/contracts.py:132-147 | an output that aligns is the original with exactly the reported ranges replaced, in order, by the tokens matched |
| ScoringProofs.TrueNegativeStands | scripts/privacy-bench/evaluate.py:24-25 | a range to keep that is judged a true negative stands verbatim in the output |
| ScoringProofs.ScoringIsExact | scripts/privacy-bench/evaluate.py:88-108 | then every range to protect is a true positive, every range to keep a true negative, and no other leaf is reported |
| ScoringProofs.TallyOf | scripts/privacy-bench/evaluate.py:136-138 | the counts add up to the verdicts, and are free of false ones exactly when each verdict is true |
| Titles.ReadWindow | src/adapter/codex_titles.rs:44-68 | the arithmetic on offsets and newlines yields exactly the complete records after the window's first newline, or all of them when the window starts the log |
| Titles.ScanBack | src/adapter/codex_titles.rs:67-82 | the reverse loop with early exit writes into each slot the name a forward reading ends with |
| Titles.LatestNames | src/adapter/codex_titles.rs:35-82 | the whole routine, written into the caller's slots |
| Titles.ApplyNames | src/adapter/codex_titles.rs:16-26 | a session is renamed exactly when it is the last with its identity and the window names it |
| Titles.NameOf | src/adapter/codex_titles.rs:28-33 | the newest name of one thread in the window |
| Titles.ReportsTheNewest | src/adapter/codex_titles.rs:16-82 | any reported name is the newest admitted record of its identity in the whole log, and a log within the budget reports one for every identity that has one; unless the log grew meanwhile, what was read ends where the log does |
| Titles.NamesMeaning | src/adapter/codex_titles.rs:66-76 | an identity has a name exactly when some record names it, and it is the last such record's |
| Archive.Table.ResolveLinks | scripts/prepare-git-runtime.py:132-144 | in-place resolution in the order the links are yielded, and the table it leaves behind even on an error |
| ArchiveProofs.ResolveFollows | scripts/prepare-git-runtime.py:133-140 | a name resolves to where its chain ends, fails as dangling or unsafe exactly when it ends there, and as cyclic exactly when it never ends |
| ArchiveProofs.AnyOrderResolves | scripts/prepare-git-runtime.py:142-144 | in any order, resolution succeeds exactly when every link's own chain ends, and then holds each name's own end |
| ArchiveProofs.OrderDoesNotMatter | scripts/prepare-git-runtime.py:142-144 | two orders leave the same table |
| Archive.WriteArchive | scripts/prepare-git-runtime.py:269-282 | the loop that stores each body once per digest and mode |
| Archive.Root.Unpack | scripts/smoke-git-runtime.py:65-79 | extraction, member by member, with names that share contents |
| ArchiveRoundTrip.HardLinksNameEarlier | scripts/prepare-git-runtime.py:269-282 | every hard link names a regular member before it, of its own mode and digest |
| ArchiveRoundTrip.PacksSafeNames | scripts/prepare-git-runtime.py:270-271 | writing succeeds exactly when every name is safe |
| ArchiveRoundTrip.SafeToExtract | scripts/smoke-git-runtime.py:67-68 | a name the writer accepts is one the extraction accepts |
| ArchiveRoundTrip.PlacedUnpacks | scripts/prepare-git-runtime.py:262-285 | safe names that denote the files of one directory tree always pack and unpack, whatever the order and the digest |
| ArchiveRoundTrip.RoundTrip | scripts/prepare-git-runtime.py:262-285 | for every table and order: packing and extraction give every name its own file with its body and mode back if and only if the names are safe and denote the files of one directory tree, and no digest collides among files of one mode |

## Left out

- CaptureWriter.CaptureOnlyGrows: an older segment of the thread is frozen once the thread has continued in a new one, and a lookup leads an id to one path for the whole run; both are how Codex writes, and neither is checked by the reader.
- LineageProofs.LineageGrowsByLeaf: both reads' lookups lead an id to one path, as for the writer above.
- CaptureProofs.HeaderOnlyRefinesFull: compares the two forms on one state of the carriers; the header-only form opens a carrier twice and could see it grow in between.
- RestoreProofs.TurnsAreNotLost: enabledness only; fairness of condition-variable waiters is not modelled.
- ClaudeNormal.NormalFormAtOnce: for texts the target takes for a person's, since the reader classifies any other text as an injection by design; and without tool details.
- Titles.ReportsTheNewest: when the log grows past the budget while it is read, "whole log" is the part up to where reading stopped, which holds everything measured.
- JSON text, zstd frames, Unicode normalisation and regular expressions: parsed records, a decoder, UTF-16 units and match positions are given.
- The table of injected openings: an uninterpreted test on text.
- Identity checks while a file is read, permissions and times of files, and the sweep of stale temporaries, which to a restoration is a publication that fails.
- Python's limits on recursion depth and on the digits of an integer, and the types of fields in hand-written benchmark cases, taken as checked.
- The policy layer of scoring, detector findings, summaries and comparisons of results: single-branch facts.
- Reading of archives, downloading, and assembling of the runtime.
- SQLite queries, the Codex app-server exchange, lock observation, other adapters, the command line and installers.
