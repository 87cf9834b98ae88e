# Verified model of systems-trinkets

This project models the parts of the repository whose correctness spans many
steps, and proves what they promise. It is Dafny 4.11; `dafny verify
dfyconfig.toml` checks all of it.

Go strings are byte strings; here they are Dafny strings whose characters stand
for bytes. Code the repository runs as loops over mutable state is a method with
loop invariants, proved equal to a specification function; the promises are then
lemmas about that function.

| files | subject |
|---|---|
| `JobQueue`, `JobRuns`, `JobScans`, `JobOrder`, `JobSchedules`, `JobRound`, `QueueAdapter` | the job queue's claim protocol, what one claim's scan proves, when jobs are served in order, how long schedules are, one benchmark round, the adapter's tallies and its /stats |
| `JobCounter`, `CounterRunner`, `CounterAdapter` | the exactly-once counter's protocol, its sequential runner, the adapter's tallies and its /stats |
| `Paths`, `OwnedPaths`, `FixtureImage`, `Dockerfiles`, `DockerfileReader`, `CopyProgram`, `ContextNames`, `BuildStream` | the fixture image generator, from an owned path to the built file system, and the build-output reader |
| `Caps`, `DockerSocket`, `EngineConfig`, `Specs`, `Translation`, `TranslationFacts`, `Invariants`, `SafeTranslation`, `MountKeys`, `Observation`, `Tightening` | spec translation, the configuration invariants and the comparison with what the engine recorded |
| `Probeout`, `Polling`, `PeerCred` | the probe line format, waiting for a line, peer credentials end to end |
| `Engine`, `Lifecycle`, `Ledger`, `Sweep`, `Topology`, `TopologySpecs` | container lifecycle, no leak over whole runs, sweeping, the socket topology's cleanup |
| `Text`, `Decimal`, `Json`, `Utf8`, `Quote`, `Names`, `Sorting`, `Sets` | strings, numbers, JSON (RFC 8259), UTF-8 (RFC 3629), `%q`, name patterns, sorting |

## How the outside world is modelled

- **PostgreSQL.** Committed tables, row locks and open transactions; each worker's
  begin, claim, wait, recheck, update, commit and rollback is one step, and any
  finite interleaving is a run. Lock and recheck behaviour is Read Committed,
  section 13.2.1 of the PostgreSQL manual, as restated in
  `knowledge/postgres-go.md:22-35`. A rollback may happen at any point before commit.
- **The Docker builder.** One instruction a line, JSON argument lists; COPY makes
  missing parents as root's and owns only a destination it creates
  (`knowledge/docker-harness.md:94-109`). An argument holding `$` or a backslash is
  refused by the reader, because the builder would expand it.
- **The Docker engine.** Containers, volumes and networks with labels and a "uses"
  relation. Any call may act and answer, act and lose its answer, or fail without
  acting. Other actors may delete anything between two calls. A `reliable` engine
  fails a removal only when the object is in use or missing and loses no reply; on
  an `alone` engine nobody else deletes. What the engine records for a container is its
  own choice, made at creation; an inspect reports it.
- **Libraries.** JSON decoding, `json.Compact`, Unicode printability and `fmt.Sscanf`
  are function parameters with the law each proof needs (`Lawful`). Random suffixes,
  binaries, inspect answers and program output are parameters or arbitrary values.

## Where a promise does not hold as stated

- `Polling.FoundIsFinalExactlyWhen`: a polled line may be cut off; what `Find`
  returns is final exactly when the line had been read to its newline. "listen: OK /so"
  is a well-formed line until "ck" has come (`Polling.PathCutInTheMiddle`).
- An empty claim does not mean the queue is drained, in either mode. It is drained
  exactly when every row inserted since the claim's snapshot, and every row passed while
  another transaction held it, is done (`JobScans.EmptyClaimExactly`). A blocking claim
  passes none, so it proves every row of its snapshot done, and nothing about rows
  inserted later (`JobScans.BlockingEmptyMeansDrained`). From an empty table,
  `JobScans.SkipLockedEmptyCanMissAJob` and `JobScans.BlockingEmptyCanMissANewJob` are
  runs where a pending, unlocked job is missed.
- Blocking claims need not commit in ascending id order: a serial id is drawn before its
  insert commits, so ids can become visible in another order. For any list of inserted
  ids, every run that inserts them in that order commits in ascending id order exactly
  when each id is above all that were there before it, and the same condition decides
  whether two workers can hold rows at once (`JobOrder.OrderKeptExactlyWhen`).
  `JobOrder.LateSmallIdBreaksOrder` is the smallest run that breaks it.
- The two /stats handlers read the tables first and the tallies afterwards. No tally
  exceeds the tables as they are when it is read, but it can exceed the numbers read
  before (`QueueAdapter.ReportExceedsDone`, `QueueAdapter.ReportExceedsRows`,
  `CounterAdapter.ReportExceedsTotal`); `Variant.Stats` gives the exact difference for
  claims, inserts and expected totals: what was reported in between less what the tables
  held unreported.
- `CounterRunner.Connection.RunStrategy`: `total` is a PostgreSQL `integer`; the runner
  ends at its wanted total exactly when that fits.
- `Ledger.LostReplyLeaks`: a container whose create reply is lost has no handle and no
  error naming it; this is the only leak.
- The comment on `FixtureImage.Dirs` (`internal/lab/docker/image.go:77`) says the
  directories are created in the listed order; the code sorts them by path, and
  `CopyProgram.OwnedExactlyWhen` says exactly which orders would have been correct.

## Model

| member | source | states |
|---|---|---|
| JobQueue.RunIsSafe | lessons/go/background-job-queue/core/core.go:37-57 | every run, with enqueues and rollbacks anywhere, keeps the row-ownership and commit-log invariant |
| JobQueue.OneOwnerPerJob | lessons/go/background-job-queue/core/core.go:37-57 | no row is held or committed by two transactions, and a held row is pending |
| JobQueue.RunKeepsRows | lessons/go/background-job-queue/core/core.go:14-20 | workers never add or remove rows: the table is exactly what was inserted |
| JobQueue.EveryRowAccounted | lessons/go/background-job-queue/core/core.go:37-57 | pending plus done equals the rows inserted; done rows are exactly the committed claims, each once |
| JobQueue.RollbackReturnsJob | lessons/go/background-job-queue/core/core.go:42 | a rollback leaves its job pending and unlocked, changes nothing committed, and the next scan of the row claims it |
| JobQueue.NeverStuck | lessons/go/background-job-queue/core/core.go:37-57 | while a transaction is unfinished some transaction can move: a waiter holds no lock |
| JobSchedules.EveryScheduleEnds | lessons/go/background-job-queue/core/core.go:37-57 | after the last insert and call of any run, n calls on R rows have at most n(2R + 5) steps left, rollbacks included, and when no call can move all have committed or rolled back |
| JobOrder.OrderKeptExactlyWhen | lessons/go/background-job-queue/core/core.go:14-16 | with plain `for update`, for any inserted ids: every run that inserts them in that order commits in ascending id order iff each id is above all that were there before it; two workers never hold rows at once iff the same |
| JobOrder.EmptyTableOrder | lessons/go/background-job-queue/core/core.go:14-16 | from the empty table: iff the inserts are ascending |
| JobQueue.BlockingServesInOrder | lessons/go/background-job-queue/core/core.go:16 | the invariant behind it, over every run with ascending inserts: done rows are below pending ones, a held row has only done rows below it, and two workers never hold rows at once |
| JobOrder.LateSmallIdBreaksOrder | lessons/go/background-job-queue/core/core.go:14-16 | the smallest run that commits a greater id before a smaller one |
| JobScans.EmptyClaimExactly | lessons/go/background-job-queue/core/core.go:14-18 | over every run in either mode: the queue is drained after an empty claim iff every row inserted since its snapshot and every row it passed is done |
| JobScans.BlockingEmptyMeansDrained | lessons/go/background-job-queue/core/core.go:16 | in blocking mode an empty claim means every row of its snapshot is done, whatever was inserted or rolled back meanwhile; drained iff the rows inserted since are done too |
| JobScans.SkipLockedEmptyCanMissAJob | lessons/go/background-job-queue/core/core.go:17-18 | with skip locked an empty claim can miss a pending, unlocked job of its own snapshot (a run from the empty table) |
| JobScans.BlockingEmptyCanMissANewJob | lessons/go/background-job-queue/core/core.go:16 | a blocking empty claim can miss a job inserted while it waited (a run from the empty table) |
| JobRound.SomeRowLeft | lessons/go/background-job-queue/main.go:89-109 | pigeonhole: with n workers on n rows, some row belongs to none of the others |
| JobRound.ScanFindsARow | lessons/go/background-job-queue/main.go:89-109 | a scan of the round never comes up empty, even row by row between other workers' steps |
| JobRound.RoundNotStuck | lessons/go/background-job-queue/main.go:89-109 | no reachable unfinished state of a round is stuck, in either mode |
| JobRound.StepFalls | lessons/go/background-job-queue/main.go:89-109 | a measure falls on every step of a round |
| JobRound.EveryRoundEnds | lessons/go/background-job-queue/main.go:89-109 | every schedule is bounded and ends with each worker owning a job of its own and nothing pending |
| JobRound.BlockingRoundCountsUp | lessons/go/background-job-queue/main.go:89-109 | a blocking round commits job i as its i-th commit, rollbacks included |
| JobRound.RunRound | lessons/go/background-job-queue/main.go:87-109 | the round returns pairwise different job ids in 1..n, one per worker, whatever the interleaving |
| QueueAdapter.Variant.Happens | lessons/go/background-job-queue/perf/main.go:91-112 | any database step keeps the tallies consistent with the table |
| QueueAdapter.Variant.Insert | lessons/go/background-job-queue/perf/main.go:91-96 | enqueued counts the inserts that answered; one without an answer may or may not be there |
| QueueAdapter.Variant.ClaimReturned | lessons/go/background-job-queue/perf/main.go:109-112 | a returned claim adds one to claims and one new id to jobs |
| QueueAdapter.Variant.TalliesMatchTable | lessons/go/background-job-queue/perf/main.go:91-112 | in every reachable state claims equals the distinct jobs, never exceeds the done rows, and falls short of them by exactly the commits not yet reported |
| QueueAdapter.Variant.HandleAll | lessons/go/background-job-queue/perf/main.go:91-112 | any sequence of steps and replies of other requests leaves exactly the specified tallies, and they stay valid |
| QueueAdapter.Variant.Stats | lessons/go/background-job-queue/perf/main.go:122-140 | table, then claims, then inserts are read with any steps of other requests between: claims equals distinct jobs and is within the rows done by then, enqueued within the rows there by then; against the counts read first each differs by what was reported in between less what was unreported before |
| QueueAdapter.ReportExceedsDone | lessons/go/background-job-queue/perf/main.go:126-140 | a run of the handler that reports one claim and no done row |
| QueueAdapter.ReportExceedsRows | lessons/go/background-job-queue/perf/main.go:126-143 | a run of the handler that reports one insert and no row |
| JobCounter.RunKeeps | lessons/go/completed-job-counter/core/core.go:44-71 | every interleaving of deliveries, duplicates and rollbacks keeps tables, locks and log consistent |
| JobCounter.ExactlyOnce | lessons/go/completed-job-counter/core/core.go:34-42 | the idempotent total is the number of seen events; an event is seen iff exactly one committed delivery counted it |
| JobCounter.NaiveCountsEveryDelivery | lessons/go/completed-job-counter/core/core.go:29-32 | the naive total is the number of committed naive deliveries |
| JobCounter.TotalsCountUp | lessons/go/completed-job-counter/core/core.go:44-71 | the totals returned by committed applied deliveries are 1, 2, 3, ... in commit order, up to the stored counter |
| JobCounter.NoWaitCycle | lessons/go/completed-job-counter/core/core.go:46-71 | locks are taken seen row first, counter row second, so no chain of waits returns to its start |
| JobCounter.NeverStuck | lessons/go/completed-job-counter/core/core.go:46-71 | while a delivery is unfinished some delivery can move |
| JobCounter.AdvanceFalls | lessons/go/completed-job-counter/core/core.go:46-71 | every step of a delivery's own lowers a measure that starts at six |
| JobCounter.EveryScheduleEnds | lessons/go/completed-job-counter/core/core.go:44-71 | every schedule of n deliveries has at most 6n steps, and one that cannot be extended has every delivery committed or rolled back |
| CounterRunner.Connection.Apply | lessons/go/completed-job-counter/core/core.go:44-71 | on an idle database: the exact effect, and failure exactly on a missing row or an overflowing total |
| CounterRunner.Connection.Deliver | lessons/go/completed-job-counter/main.go:81-105 | the carried-forward total equals the stored counter after every delivery |
| CounterRunner.Connection.RunStrategy | lessons/go/completed-job-counter/main.go:53-59 | the nested loops end at the wanted total exactly when it fits the column |
| CounterRunner.RunLesson | lessons/go/completed-job-counter/main.go:47-67 | for any event and delivery counts the totals are events times deliveries (naive) and events (idempotent) |
| CounterAdapter.Variant.Count | lessons/go/completed-job-counter/perf/main.go:110 | a delivery that returned is counted before its event is noted |
| CounterAdapter.Variant.Record | lessons/go/completed-job-counter/perf/main.go:111-113 | then its event joins the events |
| CounterAdapter.Variant.Confirm | lessons/go/completed-job-counter/perf/main.go:110-113 | both halves: one more delivery and its event |
| CounterAdapter.Variant.TalliesMatchTables | lessons/go/completed-job-counter/perf/main.go:98-113 | in every reachable state the expected total is the stored one less the committed deliveries not counted (naive) or the seen events not noted (idempotent) |
| CounterAdapter.Variant.Stats | lessons/go/completed-job-counter/perf/main.go:126-175 | totals, events and deliveries are read one after the other with any steps between: the expected total is within the total stored by then, and differs from the total read first by exactly what was noted in between less what was missing before |
| CounterAdapter.ReportExceedsTotal | lessons/go/completed-job-counter/perf/main.go:126-175 | a run of the handler that expects one and reports zero |
| Paths.CleanIsResolution | internal/lab/docker/image.go:133 | the one-pass path.Clean scan is segment-stack resolution, for every byte string |
| Paths.CleanIdempotent | internal/lab/docker/image.go:133 | cleaning a cleaned path changes nothing |
| Paths.CleanEqual | internal/lab/docker/spec.go:207-209 | two paths clean to the same text iff they resolve to the same segments from the same start |
| Paths.CleanFixedPoints | internal/lab/docker/image.go:133 | the absolute paths Clean leaves alone are exactly "/" and "/"-joined plain segments |
| OwnedPaths.AcceptableIsGrammar | internal/lab/docker/image.go:107-141 | validateOwnedPath accepts exactly the path grammar: allow-listed segments, none empty, "." or "..", none starting ".wh.", the first not "fixture" |
| OwnedPaths.GrammarIsAcceptable | internal/lab/docker/image.go:107-141 | every path the grammar generates is accepted and splits back into its segments |
| OwnedPaths.MarkFound | internal/lab/docker/image.go:137 | the substring test for a whiteout finds exactly a segment starting with it |
| OwnedPaths.CollisionFound | internal/lab/docker/image.go:135 | the two prefix tests find exactly a path whose first segment is the binary's name |
| OwnedPaths.AncestorSortsFirst | internal/lab/docker/image.go:204-208 | an ancestor's path text sorts before its descendant's |
| FixtureImage.ProblemFreeIsValid | internal/lab/docker/image.go:147-186 | validation finds nothing exactly for the images that are valid field by field, paths pairwise distinct |
| FixtureImage.Validate | internal/lab/docker/image.go:149-186 | reports the first problem in order, and none exactly for valid images |
| Sorting.SortInPlace | internal/lab/docker/image.go:210-211 | the array ends as the sorted arrangement of what it held |
| Sorting.SortedUnique | internal/lab/docker/image.go:211 | without ties, two sorted arrangements of the same elements are the same |
| Dockerfiles.SortedDirs | internal/lab/docker/image.go:209-213 | the clone, sorted by path; the image's list is untouched |
| Dockerfiles.FixtureDockerfile | internal/lab/docker/image.go:224-235 | the builder loop writes exactly the specified lines |
| Dockerfiles.OrderDoesNotMatter | internal/lab/docker/image.go:55-57 | any rearrangement of Dirs is valid and gives the same Dockerfile, byte for byte |
| Dockerfiles.FixtureContext | internal/lab/docker/image.go:245-262 | nothing is generated from an invalid image; a valid one gives its whole context |
| Json.ArrayRoundTrip | internal/lab/docker/image.go:188-197 | reading an exec-form array back gives exactly its strings, with each invalid UTF-8 byte replaced by U+FFFD |
| Json.ArrayRoundTripExactlyWhen | internal/lab/docker/image.go:188-197 | the strings themselves come back iff they are valid UTF-8 |
| Json.ArrayHasNoControl | internal/lab/docker/image.go:188-197 | nothing inside an array can end its line |
| DockerfileReader.DockerfileReadsBack | internal/lab/docker/image.go:220-235 | a valid image's Dockerfile reads as exactly 5 + Dirs instructions with the requested destinations and owners, nothing injected |
| CopyProgram.MakeDirEffect | internal/lab/docker/image.go:55-57 | a COPY succeeds iff no file is in the way, makes exactly the missing part of the path, and owns only the destination it created |
| CopyProgram.MakeAllEffect | internal/lab/docker/image.go:204-208 | over a list of COPYs in any order, the first that needs a path decides what is there |
| CopyProgram.OwnedExactlyWhen | internal/lab/docker/image.go:204-208 | an order gives a directory its owner iff no earlier COPY goes below it, or the owner is root anyway |
| CopyProgram.BuildRealisesOwnership | internal/lab/docker/image.go:52-57 | building the generated text over the generated context gives every listed directory its owner, unlisted ancestors to root, the binary at /fixture, and nothing else |
| ContextNames.ContextNamesClean | internal/lab/docker/invariants.go:29-47 | reports the listed violations in order |
| ContextNames.CleanNames | internal/lab/docker/invariants.go:21-26 | the invariant holds exactly of lists of pairwise different names made of plain segments in plain bytes |
| ContextNames.NameStaysInside | internal/lab/docker/invariants.go:23-24 | below any directory a name resolves to itself iff it is made of plain segments, and then strictly inside |
| ContextNames.GeneratedContextIsClean | internal/lab/docker/image.go:199-202 | a context of any text, any binary and any number of directories satisfies the invariant |
| ContextNames.ImageContextIsClean | internal/lab/docker/image.go:245-262 | so the context of every image does, valid or not |
| BuildStream.ParseBuildStream | internal/lab/docker/image.go:385-419 | the two-accumulator loop computes the verdict over the stream's lines |
| BuildStream.ErrorExactlyWhen | internal/lab/docker/image.go:370-384 | an error iff a line fails, a line is malformed or reading fails; a read error only when no line was at fault |
| BuildStream.FirstFailureWins | internal/lab/docker/image.go:382-384 | the first failure line is the error, whatever malformed lines surround it |
| BuildStream.FirstMalformedReported | internal/lab/docker/image.go:397-400 | without a failure the first malformed line is reported by number |
| BuildStream.BlankLineInserted | internal/lab/docker/image.go:373-375 | a blank line after another never changes the error, up to a line number |
| BuildStream.BlankFirstLine | internal/lab/docker/image.go:373-375 | nor does one before all the others |
| BuildStream.BlankLastLine | internal/lab/docker/image.go:373-375 | a blank or missing last line never changes it either |
| BuildStream.CrlfIsTheSame | internal/lab/docker/image.go:373-375 | CRLF line ends change nothing, line numbers included |
| Caps.NormalizeCaps | internal/lab/docker/spec.go:223-237 | the in-place sort and compact compute the canonical list; nil stays nil |
| Caps.CanonicalIs | internal/lab/docker/spec.go:220-222 | the result lists each normalized spelling once, in strict order |
| Caps.CanonicalDecides | internal/lab/docker/spec.go:220-222 | two lists normalize alike iff they spell the same set |
| Caps.NormalizedIdempotent | internal/lab/docker/spec.go:220-222 | normalizing twice is normalizing once |
| DockerSocket.SocketByAnySpelling | internal/lab/docker/spec.go:195-209 | a source is refused iff, however spelled, it resolves to a socket path |
| Translation.Translate | internal/lab/docker/spec.go:252-410 | every problem in order; the zero Request on any, else the translation |
| Translation.TranslateMounts | internal/lab/docker/spec.go:291-334 | the mount loop's errors and emitted mounts |
| TranslationFacts.ProblemFreeIsValid | internal/lab/docker/spec.go:264-376 | translation succeeds iff every field predicate holds, mount targets pairwise distinct |
| TranslationFacts.SocketErrorExactlyWhen | internal/lab/docker/spec.go:294-296 | a mount's socket error appears iff its source resolves to a socket path |
| TranslationFacts.SeccompErrorExactlyWhen | internal/lab/docker/spec.go:358-368 | the seccomp error appears iff the profile is neither empty, unconfined nor a JSON object |
| Invariants.CheckNoDockerSocket | internal/lab/docker/invariants.go:66-80 | the two loops report every bind and every offending mount |
| Invariants.CheckConfigMeans | internal/lab/docker/invariants.go:213-225 | CheckConfig is empty iff no socket is reachable, no host namespace is shared, labels and name agree, swap is pinned and seccomp is inline |
| Invariants.CheckRestricted | internal/lab/docker/invariants.go:154-191 | the closure's violations in order |
| Invariants.RestrictedMeans | internal/lab/docker/invariants.go:150-211 | IsRestricted iff every baseline condition holds |
| Invariants.NonRootMeans | internal/lab/docker/invariants.go:159-162 | the text test on the uid refuses exactly the spellings of 0 |
| SafeTranslation.TranslationIsSafe | internal/lab/docker/spec.go:252-263 | every valid spec translates to a request CheckConfig finds nothing wrong with |
| SafeTranslation.TranslateAndCheck | internal/lab/docker/run.go:48-56 | success iff the spec is valid, and then the request passes; failure gives the zero Request |
| SafeTranslation.RestrictedExactlyWhen | internal/lab/docker/spec.go:122-133 | a valid spec translates to a restricted request iff its own fields ask for one |
| Quote.BodyReads | internal/lab/docker/invariants.go:310 | reading a %q text back gives the string, for every byte string |
| Quote.QuotedAtEnd | internal/lab/docker/invariants.go:310 | a quoted string that ends a text starts at only one place |
| MountKeys.KeyDecidesMount | internal/lab/docker/invariants.go:302-313 | equal key text iff equal type, source, target, read-only flag and size |
| Observation.CheckObserved | internal/lab/docker/invariants.go:227-286 | the differences found, in order, for any walk of the label map |
| Observation.EmptyMeansMatches | internal/lab/docker/invariants.go:227-234 | the comparison is empty iff the record matches the request field by field |
| Observation.MatchingIsSafe | internal/lab/docker/invariants.go:217-286 | a record that matches a safe request is safe |
| Observation.SafeTransfers | internal/lab/docker/invariants.go:217-286 | a safe request and an empty comparison make the recorded configuration pass CheckConfig |
| Observation.RestrictedTransfers | internal/lab/docker/invariants.go:154-286 | a restricted request and an empty comparison make the record restricted once normalized; as it stands, iff it names ALL in that spelling |
| Tightening.PresetIsRestricted | internal/lab/docker/spec.go:90-133 | Restricted translates iff its names are valid, whatever the socket, and its translation passes CheckConfig and IsRestricted |
| Tightening.TighteningNeverLoosens | internal/lab/docker/spec.go:50-74 | any sequence of tightening steps still translates, passes CheckConfig, is restricted and permits nothing the first spec forbade |
| Tightening.PresetTightened | internal/lab/docker/spec.go:103-120 | the same, from the preset with valid names |
| Probeout.Sanitize | internal/lab/docker/probeout/probeout.go:91-102 | the in-place loop blanks exactly the control bytes |
| Probeout.SanitizedIsDetail | internal/lab/docker/probeout/probeout.go:89-90 | any text becomes a legal detail, a legal detail is left alone |
| Probeout.StringOfParse | internal/lab/docker/probeout/probeout.go:47-49 | printing a parsed line gives the line back, malformed or not |
| Probeout.FormatOfParse | internal/lab/docker/probeout/probeout.go:159-161 | for all bytes, Format of Parse is the text with a final newline added when a non-empty text lacks one |
| Probeout.EveryLineKept | internal/lab/docker/probeout/probeout.go:142-145 | one entry per line, in order, malformed lines verbatim |
| Probeout.ParseOfFormat | internal/lab/docker/probeout/probeout.go:159-169 | every list the constructors built comes back from its printed form |
| Probeout.ParsedIsWellBuilt | internal/lab/docker/probeout/probeout.go:104-140 | a parsed line is malformed or one the constructors could have built |
| Probeout.Parse | internal/lab/docker/probeout/probeout.go:142-157 | the loop fills one entry per line with that line parsed |
| Probeout.Format | internal/lab/docker/probeout/probeout.go:159-169 | the builder holds every line's text, newline-terminated |
| Probeout.Find | internal/lab/docker/probeout/probeout.go:171-179 | the loop returns the first well-formed line of that name |
| Polling.FoundStays | internal/lab/docker/topology.go:113-126 | a line found among the whole lines is found unchanged in every longer output |
| Polling.GrownLineDiffers | internal/lab/docker/topology.go:113-126 | a found line still missing its newline gives another answer whatever it grows by |
| Polling.FoundIsFinalExactlyWhen | internal/lab/docker/topology.go:113-126 | what Find returns is final iff the line had been read to its newline |
| Polling.CutDetail | internal/lab/docker/topology.go:113-126 | a cut-off OK line is well formed with a shorter detail than the one printed |
| Polling.WaitedLineIsFinal | internal/lab/docker/topology.go:113-133 | when polls end at newlines, the line returned is the one in the whole output |
| PeerCred.AcceptsOnlyCanonical | internal/lab/docker/invariants.go:322-331 | whatever the scanner reads, exactly the formatted texts are accepted, as the numbers formatted |
| PeerCred.CredentialsEndToEnd | internal/lab/docker/invariants.go:333-350 | credentials printed as a reply line, carried and read back are the same three numbers, and the check passes iff the uid is the assigned one |
| PeerCred.CheckPeerIdentity | internal/lab/docker/invariants.go:368-390 | the violations of all dials and of a set too small to show anything |
| PeerCred.IdentityTrustedExactlyWhen | internal/lab/docker/invariants.go:368-390 | no violation iff every insider was read correctly, every outsider refused for permission, two uids inside and one dial outside |
| PeerCred.Validate | internal/lab/docker/topology.go:148-158 | accepts exactly five distinct non-zero ids in range |
| Engine.CreatedMoves | internal/lab/docker/run.go:58-61 | what one create adds: the container, its anonymous volumes, the named volumes not there yet |
| Lifecycle.Remove | internal/lab/docker/run.go:239-252 | deletes only this container; no error means it is gone; already gone is no error |
| Lifecycle.Create | internal/lab/docker/run.go:44-73 | refused iff translation or CheckConfig objects, and then the engine is unchanged; a handle's container was sent the translated request and recorded as asked; otherwise everything new is named by the error or a create whose reply was lost |
| Lifecycle.Start | internal/lab/docker/run.go:75-87 | the same, with a container that does not start removed again |
| Lifecycle.RecordDiffers | internal/lab/docker/run.go:63-68 | no difference means the engine's record of this container matches the request field by field |
| Lifecycle.Run | internal/lab/docker/run.go:89-129 | a refused spec leaves the engine unchanged; on every exit path the container is removed or named; no error means exactly this request was sent and its container is gone |
| Ledger.StepKeepsNoLeak | internal/lab/docker/invariants.go:418-431 | one call keeps every lesson container a held handle, one a removal error or a failed sweep accounts for, or a lost create |
| Ledger.HandleIsSafe | internal/lab/docker/run.go:63-71 | a handle's recorded configuration passes CheckConfig |
| Ledger.StepKeepsSafe | internal/lab/docker/run.go:34-42 | later calls never change what a handle stands for |
| Ledger.HandlesAreExact | internal/lab/docker/run.go:34-36 | when no reply was lost, no removal failed and no sweep failed to list, the lesson's containers are exactly the handles |
| Ledger.LostReplyLeaks | internal/lab/docker/run.go:58-61 | the one leak: the engine made the container and its reply was lost |
| Ledger.SweepKeepsOthers | internal/lab/docker/cleanup.go:98-150 | a sweep leaves the handles of other lessons, and what they stand for, as they were |
| Ledger.SweepKeepsNoLeak | internal/lab/docker/cleanup.go:98-150 | after a sweep that listed, what is left of the lesson is named; after one that could not list, its handles are kept as unknown |
| Ledger.Lesson.Session | internal/lab/docker/run.go:34-129 | over every sequence of Create, Start, Run, Remove and Sweep and every choice of failures: no leak, and every live handle's recorded configuration is safe; on a reliable engine no reply is lost and nothing becomes reported or unknown |
| Sweep.ListLesson | internal/lab/docker/cleanup.go:50-85 | names only what carries both exact labels and misses nothing that still does |
| Sweep.Sweep | internal/lab/docker/cleanup.go:98-150 | deletes only the lesson's; nil only if nothing of it is left; else exactly the failed removals still listed; on a reliable engine one pass empties it |
| Sweep.NothingUsed | internal/lab/docker/cleanup.go:119-130 | with the containers gone first, nothing uses the lesson's volumes and networks |
| Sweep.UnlabelledDeletedExactlyWhen | internal/lab/docker/cleanup.go:98-101 | an object without both labels is deleted iff it is an anonymous volume of a lesson container the sweep deleted and nobody else deleted it first |
| Sweep.AnonymousVolumeGoes | internal/lab/docker/cleanup.go:98-101 | a state where one is |
| Topology.SocketVolume | internal/lab/docker/topology.go:64-87 | on any error what was made is removed or named; on success only the volume remains |
| Topology.VerifyPeerIdentity | internal/lab/docker/topology.go:190-235 | on every path containers go before the volume they hold; nothing remains unless a removal error names it or a reply was lost; success means exactly the five planned containers were created, in order, and the check passed on all three dials |
| Topology.NothingRemains | internal/lab/docker/topology.go:175-177 | without removal errors and lost replies, everything there afterwards was there before |
| TopologySpecs.SockNameIsVolumeName | internal/lab/docker/topology.go:64-71 | the generated volume name of a kebab lesson is a valid volume name |
| TopologySpecs.VolumeAsSocket | internal/lab/docker/spec.go:195-209 | a volume name is refused as the daemon's socket iff the daemon listens on a relative path that resolves to it |
| TopologySpecs.InitDecides | internal/lab/docker/topology.go:72-76 | the init container's spec translates iff names and gid are valid and the volume's name is no socket spelling; it is never restricted |
| TopologySpecs.BrokerDecides | internal/lab/docker/topology.go:91-99 | the broker's spec translates iff names and ids are valid and the volume's name is no socket spelling; restricted iff its uid is not 0 |
| TopologySpecs.WorkerDecides | internal/lab/docker/topology.go:101-111 | the worker's spec likewise, with its one supplementary group |
| TopologySpecs.OutsiderDecides | internal/lab/docker/topology.go:210-215 | and the outsider's, with none |
| TopologySpecs.CastTranslates | internal/lab/docker/topology.go:190-235 | for valid identities and a kebab lesson each of the five planned containers translates iff image and suffix are valid and the volume's name is no socket spelling, which it never is when the daemon's path is absolute or empty; all but the init container are restricted |

## Left out

- Docker client and HTTP plumbing, k6, DuckDB and compose files, the probe's own
  system calls: only their effects on what is modelled matter.
- `go build`, tar bytes, log demultiplexing and `ParseHostURL`: library behaviour.
- Timings: claim durations, polling intervals and timeouts; a timeout is a failure
  that may happen at any call.
- `Exec`, `Stop` and `Wait`: they create and remove nothing.
- `buildProbe`, `SocketVolume` and `VerifyPeerIdentity` around the lower-case functions
  of the same name: they add building and removing one image; images are not engine
  objects here.
- Recreation by other actors: between the harness's calls others may delete objects
  but not create them, so a name in a listing still means the object listed.
- Network and volume-option details a container holds beyond the names of its named
  volumes and its network.
- Error texts; errors are values that say which check failed and where.
- cache-aside, pipelining and sqlite-wal lessons, `internal/lab`, `internal/lab/perf` and the
  egress invariants: single-branch or library behaviour that would only add easy members.
- Caps.NormalizeCaps: upper-cases ASCII letters only; the translation accepts no other
  letters, and Unicode case mapping of an engine's answer is not modelled.
- QueueAdapter.Variant.Stats: leaves out empty_claims and failed_requests, which nothing in
  the table bounds.
- Sweep.Sweep: the order in which several remaining failures are joined is fixed here,
  unspecified in the source.
- Topology.VerifyPeerIdentity: assumes the volume's random name is unused, as
  Topology.SocketVolume does; with a name already taken the engine would hand out that
  volume instead.
