# Verification of Deep-Diff-Forge

Deep-Diff-Forge is a diff review tool with a local daemon. This project models, in Dafny, the parts
of it whose correctness rests on state, interleaving or exact bytes, and proves what they promise
for every input and every run.

- **Request admission** (`TicketQueue`, `AdmissionGate`, `AdmissionLine`, `AdmissionSafety`,
  `AdmissionRuns`, `AdmissionLedger`, `AdmissionProgress`). The ticket queue is a class whose methods
  run the critical sections in place; the protocol is a state machine whose steps are those critical
  sections, single wakeups of the condition variable, and `notify_all` as a step of its own, after the
  lock was dropped. Timeouts and spurious wakeups happen at any time. Tickets are 64-bit and wrap. The
  tickets are proved to stand for a first-come, first-served line, the permits for a ledger of
  arrivals, admissions and drops, and the theorems are about that line and that ledger.
- **The read budget** (`ReadBudget`). Load, weak compare-and-swap, `fetch_max` and drop as
  interleaved atomic steps.
- **The session table** (`Recency`, `Sessions`). A class over a map with ticks, refining a list in
  order of last use.
- **Sealing** (`Fips180`, `Sha256Known`, `Seal`). The program's SHA-256 against FIPS 180-4, whose
  functions are stated bit by bit and worked through for a known digest.
- **Identity** (`PatchHunk`, `HunkParser`, `SourceSnapshot`). What the hashed bytes determine, and
  how the patch parser numbers and counts a hunk's lines.
- **Text** (`JsonText`, `LineFramer`, `Exposition`). Round trips, and independence of how a stream
  was cut into buffer fills.
- **Findings and scheduling** (`Findings`, `Scheduler`). The indexed and the parallel form against
  the plain one.

`Machine`, `Prelude`, `Sums`, `Decimal` and `Primes` hold machine integers, small data types, sums
over maps, decimal numerals and prime numbers. Each method is proved against a function or a predicate of its inputs or its
old state; the lemmas then say what that function or state means. Some proofs use `hide`, which
only keeps a definition out of the solver's sight.

Where the code and its comments disagree the code is followed: a lane that panics is re-raised, it
does not shorten the result (`crates/deep-diff-forge-cluster/src/scheduler.rs`, lines 57-58 against
87-92).

Three promises turn out to need a condition, and the condition is proved exact:

- The bytes in flight are the permits' weight in every reachable state exactly when the budget is
  below the largest machine number (`CounterIsExactBelowTheLargest`, with the failing run in
  `SaturationLosesBytes`).
- The note of a finding by line is on a hunk that holds the line, in every review of hunks closed as
  the parser closes them, exactly when the hash tells apart such hunks of one path that hold different
  lines
  (`ParsedLineNotesHoldExactly`); only a collision of the hash can fail that
  (`MisleadingIsACollision`). It rests on the parser's numbering, because the numbers themselves are
  not hashed (`NumbersAreNotHashed`).
- Tickets stay distinct exactly while fewer than 2^64 are outstanding
  (`TicketsRepeatExactlyWhenFull`); taking a ticket is a step of the protocol under that condition,
  which memory enforces, since each outstanding ticket is a waiting thread or an entry of the
  abandoned set. The protocol itself would reach the full line (`LineFillsExactlyBelowTheLargest`).

## Model

| member | source | states |
|---|---|---|
| `TicketQueue.Queue.constructor` | crates/deep-diff-forge-daemon/src/admission.rs:28-40 | a new queue serves ticket 0, has none abandoned and nothing in flight |
| `TicketQueue.Queue.AdvanceTurn` | crates/deep-diff-forge-daemon/src/admission.rs:44-49 | the turn moves to the first ticket after the served one that is not abandoned, and the skipped ones are forgotten, also across the wrap |
| `TicketQueue.Queue.TakeTicket` | crates/deep-diff-forge-daemon/src/admission.rs:128-130 | hands out the next ticket and counts on, wrapping |
| `TicketQueue.Queue.Check` | crates/deep-diff-forge-daemon/src/admission.rs:132-152 | one pass of the waiting loop: admitted exactly on its turn with room, refused only when not admitted and out of patience, and the whole new queue in each case |
| `TicketQueue.Queue.ReleaseWeight` | crates/deep-diff-forge-daemon/src/admission.rs:225-227 | returning a permit takes its weight and its count off, saturating |
| `AdmissionLine.SkipTrims` | crates/deep-diff-forge-daemon/src/admission.rs:44-49 | skipping abandoned tickets is dropping the places given up at the head of the line |
| `AdmissionLine.ServeHead` | crates/deep-diff-forge-daemon/src/admission.rs:150-152 | advancing the turn keeps the tickets a line, one head shorter |
| `AdmissionLine.LeavePlace` | crates/deep-diff-forge-daemon/src/admission.rs:135-140 | a request that gives up behind the head leaves a marked place and moves nobody |
| `AdmissionLine.Outstanding` | crates/deep-diff-forge-daemon/src/admission.rs:31-35 | the outstanding tickets are those of the waiting requests and the abandoned ones, each once |
| `AdmissionSafety.StepLined` | crates/deep-diff-forge-daemon/src/admission.rs:125-170 | every step keeps the tickets a line, and changes it by what it adds, admits and refuses |
| `AdmissionSafety.StepAccounted` | crates/deep-diff-forge-daemon/src/admission.rs:150-175 | every step keeps the counters equal to the number and the summed weight of the permits |
| `AdmissionSafety.StepKeepsWakeups` | crates/deep-diff-forge-daemon/src/admission.rs:140-165 | every step keeps a notification pending for a sleeper that may start |
| `AdmissionRuns.NoWakeupIsLost` | crates/deep-diff-forge-daemon/src/admission.rs:125-170 | in every interleaving, a request asleep although its turn came and it fits has a `notify_all` still to come |
| `AdmissionLedger.PhasesAreTheLedger` | crates/deep-diff-forge-daemon/src/admission.rs:125-170 | over every run, who holds a permit and what every waiting and running request weighs are what a ledger of arrivals, admissions and drops says |
| `AdmissionLedger.BytesInFlightAreThePermits` | crates/deep-diff-forge-daemon/src/admission.rs:150-175 | in every reachable state bytes in flight and requests running are the sum and number of the permits admitted and not dropped, each at the weight it arrived with, within the budget unless a single heavier one runs alone |
| `AdmissionRuns.SaturationLosesBytes` | crates/deep-diff-forge-daemon/src/admission.rs:151-175 | with a budget of the largest machine number the counter reads 0 while a permit of that weight is held |
| `AdmissionLedger.CounterIsExactBelowTheLargest` | crates/deep-diff-forge-daemon/src/admission.rs:150-175 | the counter is the ledger's permits' summed weight in every reachable state exactly when the budget is below the largest machine number |
| `AdmissionRuns.FirstComeFirstServed` | crates/deep-diff-forge-daemon/src/admission.rs:4-12 | over every run, the requests not refused are, in arrival order, those admitted in admission order and then those waiting |
| `AdmissionRuns.NobodyOvertakes` | crates/deep-diff-forge-daemon/src/admission.rs:4-12 | when a step admits a request, the steps before it have admitted or refused every earlier one |
| `AdmissionRuns.AdmittedInOrder` | crates/deep-diff-forge-daemon/src/admission.rs:4-12 | requests are admitted in strictly increasing order of arrival |
| `AdmissionLedger.AdmittedExactlyWhenItMay` | crates/deep-diff-forge-daemon/src/admission.rs:125-175 | in every reachable state a check, the first on arrival or a later one, admits exactly when no earlier request waits and the weight the request arrived with fits beside the ledger's permits, or there is none; at the largest budget everything fits |
| `AdmissionLedger.CheckAnswers` | crates/deep-diff-forge-daemon/src/admission.rs:125-170 | a request not admitted is refused exactly when out of patience and otherwise waits on, and the queue becomes what the queue's own methods make of it with the weight the request arrived with |
| `AdmissionLedger.TimeoutRefuses` | crates/deep-diff-forge-daemon/src/admission.rs:135-165 | from every reachable state a sleeping request can time out, and is then refused unless it may start |
| `AdmissionRuns.TurnIsLive` | crates/deep-diff-forge-daemon/src/admission.rs:42-50 | the turn is at the next ticket with nothing outstanding, or a live waiter has it |
| `AdmissionRuns.AbandonedLieBetween` | crates/deep-diff-forge-daemon/src/admission.rs:31-50 | abandoned tickets lie strictly between the turn and the next ticket, which are as far apart as tickets are outstanding |
| `AdmissionRuns.TicketsRepeatExactlyWhenFull` | crates/deep-diff-forge-daemon/src/admission.rs:128-130 | a new ticket repeats an outstanding one exactly when 2^64 are outstanding |
| `AdmissionRuns.GateDrains` | crates/deep-diff-forge-daemon/src/admission.rs:120-170 | without arrivals the remaining steps are bounded, a step that is no timeout exists while any request is left, and the end state is empty |
| `AdmissionRuns.NobodyStarves` | crates/deep-diff-forge-daemon/src/admission.rs:4-12 | when no wait runs out and no step is left, every request was admitted, in arrival order |
| `AdmissionProgress.WaitIsBounded` | crates/deep-diff-forge-daemon/src/admission.rs:120-175 | however many requests arrive meanwhile, a request and those before it, n in all, take at most n(2n + 5) steps and one more for each wakeup from outside, and while it waits one of them has a step that is no wakeup and no timeout |
| `AdmissionProgress.PatientIsAdmitted` | crates/deep-diff-forge-daemon/src/admission.rs:4-12 | a patient request is admitted, whoever else keeps arriving, by the time that it and those before it have no step left |
| `AdmissionProgress.LineFillsExactlyBelowTheLargest` | crates/deep-diff-forge-daemon/src/admission.rs:125-175 | a run with all 2^64 tickets outstanding exists exactly when the budget is below the largest machine number; at that number nobody waits |
| `ReadBudget.HeldIsTheReservations` | crates/deep-diff-forge-daemon/src/admission.rs:344-392 | for every interleaving of load, swap, peak and drop, the bytes held are what a ledger of granted growths says of the reservations not dropped since, within the limit, and 0 once all are dropped |
| `ReadBudget.ReserveTakesNothing` | crates/deep-diff-forge-daemon/src/admission.rs:320-329 | an id not live can be reserved, and the reservation holds nothing and disturbs nothing |
| `ReadBudget.DropReturns` | crates/deep-diff-forge-daemon/src/admission.rs:388-392 | a drop removes its reservation alone and returns exactly its bytes |
| `ReadBudget.EveryReservationEnds` | crates/deep-diff-forge-daemon/src/admission.rs:344-392 | from every state a reservation's owner, undisturbed, can finish a growth and drop it |
| `ReadBudget.PeakIsTheHighest` | crates/deep-diff-forge-daemon/src/admission.rs:338-362 | the larger of the peak and the totals not yet recorded is the most bytes ever held |
| `ReadBudget.UndisturbedGrowthIsExact` | crates/deep-diff-forge-daemon/src/admission.rs:344-380 | an undisturbed growth takes its bytes exactly when they fit up to the limit, else changes nothing |
| `ReadBudget.RetryIsExact` | crates/deep-diff-forge-daemon/src/admission.rs:346-360 | a pass that neither takes nor refuses has seen what is held now, and the next, undisturbed, takes the bytes exactly when they fit |
| `ReadBudget.GrowthIsAtomic` | crates/deep-diff-forge-daemon/src/admission.rs:344-380 | in every interleaving a growth answers as at one instant between its load and its answer: granted, its bytes fit and are taken in one step; refused, it takes nothing and at some instant since the load they did not fit |
| `Recency.ListIsUnique` | crates/deep-diff-forge-daemon/src/handler.rs:43-46 | the ticks determine the order of last use |
| `Recency.HeadIsOldest` | crates/deep-diff-forge-daemon/src/handler.rs:126-133 | only the least recently used session has the smallest tick, so the map's iteration order does not matter |
| `Recency.ListsRebase` | crates/deep-diff-forge-daemon/src/handler.rs:105-119 | ticks renumbered along the list keep the list |
| `Sessions.CandidatesDiffer` | crates/deep-diff-forge-daemon/src/handler.rs:162-171 | the 65 candidate ids of a search differ, also across the wrap to 1 |
| `Sessions.Table.constructor` | crates/deep-diff-forge-daemon/src/handler.rs:84-92 | a new table is empty, counts ids from 1 and caps bytes at 128 MiB |
| `Sessions.Table.Reset` | crates/deep-diff-forge-daemon/src/handler.rs:97-101 | from any state a panic may leave, a reset empties the table and keeps the id counter and the ids issued |
| `Sessions.Table.SortedIds` | crates/deep-diff-forge-daemon/src/handler.rs:108-113 | sorting by tick gives the ids in order of last use |
| `Sessions.Table.NextTick` | crates/deep-diff-forge-daemon/src/handler.rs:104-123 | the new tick is above every live one and the order of last use is kept, also through the rebase at the largest tick |
| `Sessions.Table.EvictLru` | crates/deep-diff-forge-daemon/src/handler.rs:126-140 | evicts exactly the least recently used session, and its bytes |
| `Sessions.Table.MakeRoom` | crates/deep-diff-forge-daemon/src/handler.rs:153-160 | the bounded loop evicts exactly the fewest oldest sessions that make room under both caps |
| `Sessions.Table.FreeId` | crates/deep-diff-forge-daemon/src/handler.rs:162-171 | always finds an id: the first of the wrapping candidates that no session has, never issued before if the counter has not wrapped |
| `Sessions.Table.OpenSession` | crates/deep-diff-forge-daemon/src/handler.rs:142-183 | the list becomes what room-making left plus the new session; an oversized session changes nothing; running out of ids cannot happen |
| `Sessions.Table.SnapshotFiles` | crates/deep-diff-forge-daemon/src/handler.rs:187-192 | answers the session's files if it exists and makes it the most recently used |
| `Sessions.Table.CloseSession` | crates/deep-diff-forge-daemon/src/handler.rs:194-201 | removes that session and its bytes; the others keep their order |
| `Sessions.Table.SessionOpen` | crates/deep-diff-forge-daemon/src/handler.rs:739-751 | the reported eviction count is the sessions evicted, without underflow, and the reported bytes are the table's |
| `Fips180.RoundConstantsAreCubeRoots` | crates/deep-diff-forge-core/src/seal.rs:15-81 | the round constants are the first 32 bits of the fractions of the cube roots of the prime table's entries |
| `Fips180.PrimesAreTheFirst` | crates/deep-diff-forge-core/src/seal.rs:14-81 | the prime table is the first 64 primes: each entry is the least prime above the one before, from 2 on |
| `Fips180.InitialHashIsSquareRoots` | crates/deep-diff-forge-core/src/seal.rs:83-93 | the initial hash is the first 32 bits of the fractions of the square roots of the prime table's first eight entries |
| `Fips180.PaddingIsLeast` | crates/deep-diff-forge-core/src/seal.rs:143-149 | the padding has the least number of zero bits that section 5.1.1 of FIPS 180-4 allows |
| `Fips180.SigmasByBits` | crates/deep-diff-forge-core/src/seal.rs:101-120 | bit i of each sigma function is the parity of three bits at the standard's distances, rotations around the end and shifts taking in zeros |
| `Fips180.ChMajByBits` | crates/deep-diff-forge-core/src/seal.rs:113-120 | Ch chooses and Maj takes the majority, bit by bit |
| `Fips180.WordsAreTheirBytes` | crates/deep-diff-forge-core/src/seal.rs:97-99 | words and their four bytes, most significant first, determine each other |
| `Sha256Known.DigestOfAbc` | crates/deep-diff-forge-core/src/seal.rs:134-163 | the standard's function gives the known digest of the message abc |
| `Seal.NextWord` | crates/deep-diff-forge-core/src/seal.rs:101-108 | the program's rotations, shift and summation order give the standard's next schedule word |
| `Seal.Schedule` | crates/deep-diff-forge-core/src/seal.rs:96-107 | the array is the message schedule of section 6.2.2 of FIPS 180-4 |
| `Seal.FirstSum` | crates/deep-diff-forge-core/src/seal.rs:112-118 | the program's expression for t1 is the standard's |
| `Seal.SecondSum` | crates/deep-diff-forge-core/src/seal.rs:119-121 | the program's expression for t2 is the standard's |
| `Seal.RotateAndPatch` | crates/deep-diff-forge-core/src/seal.rs:112-126 | rotating the working array and patching two entries is the round on a to h |
| `Seal.Compress` | crates/deep-diff-forge-core/src/seal.rs:95-130 | one block takes the state to the standard's next intermediate hash |
| `Seal.PaddedTail` | crates/deep-diff-forge-core/src/seal.rs:143-154 | the one or two tail blocks are the rest of the message with the standard's padding |
| `Seal.HashedConcat` | crates/deep-diff-forge-core/src/seal.rs:138-157 | hashing the whole blocks and then the tail is hashing the padded message |
| `Seal.Sha256Digest` | crates/deep-diff-forge-core/src/seal.rs:136-163 | for every message below 2^61 bytes the digest is SHA-256 as FIPS 180-4 defines it |
| `PatchHunk.Counts` | crates/deep-diff-forge-core/src/lib.rs:230-244 | the lines on the old side and on the new side, modulo 2^32 |
| `PatchHunk.BodyBytes` | crates/deep-diff-forge-core/src/lib.rs:283-298 | the loop writes each line's prefix, text, line feed and no-newline mark |
| `PatchHunk.AddressBytes` | crates/deep-diff-forge-core/src/lib.rs:264-281 | the hashed bytes are the tag, path, ranges and body in NUL-ended fields |
| `PatchHunk.BodyDetermines` | crates/deep-diff-forge-core/src/lib.rs:245-253 | with no line feed in a text, the body determines every line's kind, text and no-newline mark |
| `PatchHunk.AddressDetermines` | crates/deep-diff-forge-core/src/lib.rs:255-281 | with one path or no NUL in either, two hunks hash the same bytes exactly when path, starts (absent as 0) and every line's kind, text and mark agree |
| `PatchHunk.AddressDeterminesClosed` | crates/deep-diff-forge-core/src/lib.rs:251-281 | hunks the parser closed hash the same bytes exactly when path, starts and all of every line but its lossy mark agree, its numbers included |
| `PatchHunk.UnhashedAreFree` | crates/deep-diff-forge-core/src/lib.rs:217-281 | a hunk's id, section heading and lossy marks are not in the bytes, whatever they are |
| `PatchHunk.LineFeedsCollide` | crates/deep-diff-forge-core/src/lib.rs:283-298 | line feeds inside texts would let different hunks hash the same bytes |
| `HunkParser.HunkBuf.constructor` | crates/deep-diff-forge-patch/src/parser.rs:574-586 | an open hunk is empty, stands at its header's starts, keeps its section heading and has all its lines to come |
| `HunkParser.HunkBuf.ConsumeBody` | crates/deep-diff-forge-patch/src/parser.rs:807-876 | a body line is taken with its numbers exactly when both declared counts have room for it, its prefix and text spell the line that was read, and the numbering and counts stay true |
| `HunkParser.HunkBuf.Close` | crates/deep-diff-forge-patch/src/parser.rs:652-676 | a closed hunk has exactly the declared counts, a change, lines without line feed, and numbers that follow from its starts; otherwise it is refused for its reason |
| `HunkParser.MarkedStaysClosed` | crates/deep-diff-forge-patch/src/parser.rs:265-292 | a no-newline or lossy mark set on a hunk after it was closed leaves it as the parser closes hunks |
| `HunkParser.HunkBuf.MarkUnended` | crates/deep-diff-forge-patch/src/parser.rs:285-292 | the marker sets the open hunk's last line and changes no number and no count |
| `HunkParser.HunkBuf.MarkLossy` | crates/deep-diff-forge-patch/src/parser.rs:167-174 | the lossy mark sets the open hunk's last line and changes no number and no count |
| `SourceSnapshot.TagSpells` | crates/deep-diff-forge-core/src/snapshot.rs:15 | the tag is the text `ddf.changed-source-snapshot.v1` and a NUL |
| `SourceSnapshot.BeforeIsByteOrder` | crates/deep-diff-forge-core/src/snapshot.rs:14 | paths are ordered as bytes: a proper prefix first, else by the first byte that differs |
| `SourceSnapshot.SortByPath` | crates/deep-diff-forge-core/src/snapshot.rs:13-14 | the sources once each, paths increasing |
| `SourceSnapshot.SnapshotBytes` | crates/deep-diff-forge-core/src/snapshot.rs:10-28 | the hashed bytes are the tag and the framed sources in path order |
| `SourceSnapshot.SnapshotDetermines` | crates/deep-diff-forge-core/src/snapshot.rs:15-28 | the framed bytes determine the sources, absence and emptiness told apart |
| `SourceSnapshot.SnapshotIdentifiesSources` | crates/deep-diff-forge-core/src/snapshot.rs:6-24 | for unique paths, the bytes agree exactly when the sources do, whatever their order |
| `JsonText.JsonEscape` | crates/deep-diff-forge-core/src/util.rs:16-37 | the loop writes the quoted escaping |
| `JsonText.JsonLineSafe` | crates/deep-diff-forge-core/src/util.rs:47-60 | copying from the first hazardous character on escapes each of them and nothing else |
| `JsonText.EscapeRoundTrip` | crates/deep-diff-forge-core/src/util.rs:7-37 | reading an escaped string as section 7 of RFC 8259 says gives back the string, for every string |
| `JsonText.EscapeIsOneToken` | crates/deep-diff-forge-core/src/util.rs:16-37 | the written text is one string literal of that value and nothing more |
| `JsonText.EscapedIsOneLine` | crates/deep-diff-forge-core/src/util.rs:9-14 | no character below U+0020, no U+007F to U+009F, no U+2028 and no U+2029 is left raw |
| `JsonText.EscapedExactly` | crates/deep-diff-forge-core/src/util.rs:16-65 | which characters are escaped and which are left as they are, by code point, for both functions |
| `JsonText.LineSafeIsHarmless` | crates/deep-diff-forge-core/src/util.rs:39-65 | a text made line-safe has no U+007F to U+009F, U+2028 or U+2029 left raw |
| `JsonText.LineSafeKeepsTokens` | crates/deep-diff-forge-core/src/util.rs:39-60 | making a JSON text line-safe leaves every token's decoded value as it was |
| `JsonText.LineSafeIdempotent` | crates/deep-diff-forge-core/src/util.rs:39-60 | making a text line-safe twice is making it line-safe once |
| `JsonText.LineSafeCompletesMinimal` | crates/deep-diff-forge-core/src/util.rs:39-65 | a serializer that escapes only what is required, made line-safe, writes exactly what `json_escape` writes |
| `LineFramer.ReadLine` | crates/deep-diff-forge-cli/src/mcp.rs:847-882 | one call takes exactly the next line off the stream, whole within the cap and refused over it, or reports the end |
| `LineFramer.ReadAll` | crates/deep-diff-forge-cli/src/mcp.rs:845-882 | for every way of cutting the stream into fills, the calls give each line once, in order |
| `LineFramer.LinesJoin` | crates/deep-diff-forge-cli/src/mcp.rs:845-846 | the lines with their line feeds are the stream, but for a last one that may be missing |
| `LineFramer.LinesAreCut` | crates/deep-diff-forge-cli/src/mcp.rs:845-846 | no line holds a line feed |
| `Exposition.EscapeLabel` | crates/deep-diff-forge-daemon/src/exposition.rs:62-73 | escapes backslash, quote and line feed and nothing else |
| `Exposition.Family.AddSample` | crates/deep-diff-forge-daemon/src/exposition.rs:40-51 | appends exactly one sample line and counts it |
| `Exposition.SampleReadsBack` | crates/deep-diff-forge-daemon/src/exposition.rs:39-73 | every printed sample reads back as the same name, labels and value, for any label values |
| `Exposition.SecondsReadBack` | crates/deep-diff-forge-daemon/src/exposition.rs:75-83 | printed seconds are exactly the microseconds, with no zero fraction and no trailing zero |
| `Exposition.Cumulate` | crates/deep-diff-forge-daemon/src/exposition.rs:292-306 | each cumulative count is the capped number of observations so far, they never fall, and the last is the total |
| `Findings.Addresses.Find` | crates/deep-diff-forge-agent/src/findings.rs:395-423 | the lazily built map answers as a first-match scan in review order |
| `Findings.BuildIndex` | crates/deep-diff-forge-agent/src/findings.rs:411-420 | the map holds every address, each at its first place |
| `Findings.PathFindingsResolve` | crates/deep-diff-forge-agent/src/findings.rs:442-458 | a finding by path is refused exactly when no section has the path or none of them holds the line |
| `Findings.AddressFindingsResolve` | crates/deep-diff-forge-agent/src/findings.rs:433-440 | a finding by address is refused exactly when no hunk has it, the first that has it is under another path than the finding's, or that hunk lacks the line |
| `Findings.NamelessIsMalformed` | crates/deep-diff-forge-agent/src/findings.rs:442 | a finding with neither address nor path is malformed, and no other that resolves |
| `Findings.AcceptedIsTheFinding` | crates/deep-diff-forge-agent/src/findings.rs:366-389 | an accepted finding has the input's agent, title, path, address, line and side, its index and the kind of anchor it used; one by line has the address of the first hunk that holds the line |
| `Findings.CheckGrounds` | crates/deep-diff-forge-agent/src/findings.rs:366-389 | an accepted finding names a section that holds its hunk address and its line |
| `Findings.VerifyFindings` | crates/deep-diff-forge-agent/src/findings.rs:225-262 | each finding within the limit has one verdict, in order, the rest are counted, accepted keys differ, and each refusal has its reason |
| `Findings.DuplicatesExactly` | crates/deep-diff-forge-agent/src/findings.rs:248-257 | a finding that resolves is refused as a duplicate exactly when an earlier accepted one has its key |
| `Findings.KeysAgreeExactly` | crates/deep-diff-forge-agent/src/findings.rs:264-284 | two findings have one key exactly when agent, title, path, address and line agree |
| `Findings.NotesAreAnchored` | crates/deep-diff-forge-agent/src/findings.rs:485-509 | the note's anchor is valid: a hunk with the finding's path and address when it has one, else its file |
| `Findings.AddressNotesAreExact` | crates/deep-diff-forge-agent/src/findings.rs:485-509 | the note of a finding by address is on the very hunk the address resolved to, which holds the line |
| `Findings.LineNotesHoldExactly` | crates/deep-diff-forge-agent/src/findings.rs:446-458 | for any addressing and any class of hunks, the note of every finding by line in every review of such hunks is on a hunk holding the line exactly when addresses tell apart such hunks that hold different lines |
| `Findings.ParsedLineNotesHoldExactly` | crates/deep-diff-forge-agent/src/findings.rs:485-509 | with the program's addresses, and in reviews of hunks closed as the parser closes them: exactly when the hash tells apart such hunks of one path that hold different lines |
| `Findings.MisleadingIsACollision` | crates/deep-diff-forge-core/src/lib.rs:251-261 | where that fails, the hash maps two different byte strings to one address |
| `Findings.NumbersAreNotHashed` | crates/deep-diff-forge-core/src/lib.rs:264-281 | without the parser's numbering it fails under every hash, since line numbers are not hashed |
| `Findings.CollisionMisleads` | crates/deep-diff-forge-agent/src/findings.rs:485-509 | with two hunks of one address and the line only in the second, the note goes on the first |
| `Findings.SharedAddressesAreCopies` | crates/deep-diff-forge-core/src/lib.rs:255-261 | in a parsed review without hash collisions, hunks of one path with one address agree in all but id, section heading and lossy marks |
| `Findings.AnchorsAreValidExactly` | crates/deep-diff-forge-agent/src/anchor.rs:22-37 | an anchor is valid exactly when a section has its path and, for a hunk, holds one with its id |
| `Findings.AcceptedAreGrounded` | crates/deep-diff-forge-agent/src/anchor.rs:22-37 | the note of every accepted finding passes anchor validation |
| `Findings.NotesHoldTheirLines` | crates/deep-diff-forge-agent/src/findings.rs:485-509 | in a parsed review without hash collisions, the note of every grounded finding with an address, so of every accepted one with an address, is on a hunk of its path that holds its line |
| `Scheduler.ResolveWorkers` | crates/deep-diff-forge-cluster/src/scheduler.rs:14-27 | as many workers as the setting allows and there are items, and always one: the result is allowed and one more would not be |
| `Scheduler.ContiguousChunks` | crates/deep-diff-forge-cluster/src/scheduler.rs:31-50 | non-empty chunks that tile 0..n in order, as many as asked and fit, lengths differing by at most one |
| `Scheduler.RunLane` | crates/deep-diff-forge-cluster/src/scheduler.rs:59-96 | for any worker count and any interleaving of the threads' steps, the outcome is every index's answer in order exactly when none panics, and a panic with p exactly when the first index that panics does so with p |

## Left out

- Requests being answered (`Answering`), and the Rust memory model below sequentially consistent atomics.
- Poisoned locks and panics inside a critical section; a reset of the session table is modelled, what poisons it is not.
- Clocks: a timeout is a step that may happen at any time.
- The patch parser but for filling and closing a hunk, the renderer, Git acquisition, ranking, the daemon's serving loop, protocol and metrics collection.
- The size estimate of a session's payload and the weights of requests: both are given numbers.
- JSON parsing of findings, sanitising and the size limits: a finding comes with its fields decoded and cleaned, or with the reason it was refused earlier; excerpts and quoted line texts are not kept.
- Findings.NotesHoldTheirLines: that SHA-256 does not collide on a review's hunks is a hypothesis.
- Scheduler.RunLane: a lane answers for an index by a function of it; a lane that communicates between threads is not modelled.
- Terminal-safe display of untrusted text, its bounded form and hazard reports: per-character tables and one cut.
- Read errors of the framed input.
- The metric families' fixed names, help texts and bucket bounds.
- Annotation store, evidence registry, exit codes, deploy and release tables, command line, terminal interface, MCP tools, scripts and SDK: tables and plumbing.
