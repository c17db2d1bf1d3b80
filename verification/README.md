# A verified model of the self-upgrading echo daemon

The daemon echoes lines, and replaces its own processes while clients stay connected. This project
models the parts of it whose correctness is hard to see, and proves what they promise over all runs.
`dafny verify dfyconfig.toml` checks everything.

| module | what it models |
|---|---|
| `LinesCodec` | the line codec and the reference meaning of "echo" |
| `Utf8Text` | the codec's UTF-8 test against the encoding of Unicode text |
| `Session` | one session as a small-step machine, its handoff record, and the invariant every step keeps |
| `Restart` | when a session restarted from a record still gives its client what a session promises |
| `EchoTask` | whole runs with any number of upgrades, and the session task as a program that makes such runs |
| `Registry` | the processor's session registry: drain, adopt, re-adopt, rollback |
| `Payload` | the serialized records, whole or cut short |
| `UpgradeProtocol` | old process and child: drain, spawn, stream, read, adopt, ready, commit or kill, reap, re-adopt, and the invariant every step keeps |
| `UpgradeLaws`, `UpgradeWitness` | what that guarantees over runs, and the runs that go wrong |
| `RateLimiter`, `RateLimiterLaws` | the token bucket table with TTL and cap eviction, and its laws over runs |
| `AdmissionLaw` | which requests must be granted, in terms of the earlier answers alone |
| `SessionCap` | the lock-free session cap under any interleaving |
| `WorkerLink` | a role's control link, fenced by a connection epoch |
| `Supervision` | waiting for, adopting, watching and losing an upgrade successor |
| `Watchdog` | crash backoff |
| `RollingUpgrade` | the rolling walk with canary, and the admin command that folds its progress |
| `Bridge` | the bidirectional byte bridge and its quiescing |
| `Histogram` | the benchmark's latency histogram |

The main results are `EchoTask.EverySessionRun`, `EchoTask.EncodedMinusEchoed`,
`EchoTask.AdoptedDrains`, `Restart.RestartKeepsPromiseIff`, `UpgradeLaws.EveryUpgradeRun`,
`UpgradeLaws.ReadyMeansHandedOver`, `UpgradeLaws.TwoPhaseOrder`, `UpgradeLaws.ExitCodes`,
`UpgradeLaws.RollbackRestores`, `AdmissionLaw.LawfulIffTtlRefills`, `RateLimiterLaws.AdmissionBound`,
`SessionCap.EveryInterleaving`, `WorkerLink.EveryLinkRun`, `WorkerLink.AbsenceIsRealIff`,
`Supervision.SuperviseRole`, `RollingUpgrade.RollingUpgrade`, `Bridge.EveryBridgeRun`,
`Watchdog.SeededBackoff` and `Histogram.QuantileBound`.

How to read the model:

- A `Wire` is what the kernel and the client know about a session, a `Task` what the process that runs
  it has in memory. An upgrade keeps the first and rebuilds the second from a `SessionHandoff`.
- Concurrency is a state machine: a step is one atomic action of one party, and theorems quantify over
  every sequence of steps. Programs (`SessionTask`, `CopyLoop`, `TryAcquire`, the polling loops) are
  proved to make only steps of their machine, or to compute a function about which laws are proved.
- What the outside does (socket readiness, other threads, poll results, clocks) is a script passed as a
  parameter. A walk over roles takes scripts long enough to pass its deadlines (`ClockRuns`), because
  its loops end only when the clock gets there.
- The line codec and the framing are library code. Their contract is written out in `LinesCodec` and
  `Session`: split at LF, drop one CR, reject lines over 64 KiB or not UTF-8, take an unterminated tail
  at end of file unless it is empty or a lone CR; a rebuilt frame decodes its buffer before it reads;
  `send` flushes first above 8 KiB, then encodes and flushes.

Where the code differs from its comments, or from what one might expect, the model follows the code:

- A rollback is described as restoring the drained sessions. The child starts its session tasks before
  it signals ready (`src/processor.rs:72-94`), so a child that is discarded may already have read or
  echoed. `RollbackRestores` gives two exact conditions. The byte and line accounting is right if and
  only if nothing moved. What the client sees is right if and only if the record still fits the socket
  (`RestartOk`): its buffers complete the echo that is owed, and its unfinished line is the client's. On
  a closed stream the last line counts as finished, so there a lost CR, say, does no harm.
  `RollbackBreaks` turns every other case into a run the client sees; `RollbackCanEchoTwice` is one.
- Ready is described as "inherited sessions adopted". A payload from the environment that does not parse
  is logged as lost and the child still signals ready (`src/processor/upgrade.rs:213-216`).
  `ReadyMeansHandedOver` has the exact condition, `UnreadableEnvironmentLosesSessions` a run.
- `BridgeExit::Cancelled` is described as "every byte read had been written"
  (`src/acceptor/tls_client.rs:35-38`). A write error or the drain grace can still lose up to one frame
  per direction: `EveryBridgeRun` has the exact condition, `CancelledCanLoseAFrame` a run.
- The canary is documented as aborting when a role drops below healthy (`src/control.rs:263`). The code
  compares with the state before the upgrade: `CanaryAsDocumented` says when the two agree.
- A failed role is described as respawning at the maximum delay (`src/supervisor/watchdog.rs:133-135`)
  and logged as not respawning (line 145). It respawns, below the maximum until the eighth fast exit:
  `SeededBackoff`, `FailedAtTheCap`, `FailedBelowTheCap`.
- A lost successor is described as one whose control connection is gone
  (`src/supervisor/worker.rs:262-268`). The monitor looks for a missing writer, and a terminal message
  takes the writer too: `MissingWriter` and `AbsenceIsRealIff` say exactly when absence means gone,
  `TakenWriterLooksLost` when a connected successor is given up.
- The cap eviction of the limiter looks at stored tokens, not at refilled ones; the laws are about that.
- An adopted process handle always reports exit status 0, so only an owned child can be seen to commit.
  The generation carried over for an adopted worker (`src/supervisor/worker.rs:130-157`), described as
  seeding its baseline, therefore has no effect: `BaselineIsFloor`.

## Model

| member | source | states |
|---|---|---|
| `LinesCodec.DecodeOf` | src/processor.rs:285-286 | decoding takes exactly the bytes up to the first LF, minus one CR, and leaves the rest untouched |
| `LinesCodec.DecodeExtend` | src/processor.rs:420-422 | a decoded line does not depend on how much of what follows has arrived, so chunking cannot change it |
| `LinesCodec.EchoAppend` | src/processor.rs:420-439 | the echo, the remainder and the line count distribute over a split at a line boundary |
| `LinesCodec.EchoSplit` | src/processor.rs:420-439 | after any prefix, finished or not, the echo is that of the prefix followed by that of its unfinished rest with what comes next |
| `LinesCodec.BadStays` | src/processor.rs:437 | a rejected line stays rejected whatever follows |
| `LinesCodec.EndOfStream` | src/processor.rs:420-423 | an unterminated last line is echoed as if its LF had been sent; an empty rest, a lone CR and a rejected line add nothing |
| `LinesCodec.EchoMonotone` | src/processor.rs:420-439 | more input never takes back an echo, and end of file only adds to it |
| `LinesCodec.DropCrLfLine` | src/processor.rs:420-423 | at byte level, echoing one line drops the CR right before its LF and nothing else |
| `LinesCodec.EchoIsTheStream` | src/processor.rs:420-439 | the line-by-line echo is the complete part of the stream with CRLF turned into LF; that part ends in LF and, unless a line was rejected, no LF is left behind it |
| `Utf8Text.TextPasses` | src/processor.rs:285 | the encoding of every sequence of Unicode scalar values passes the codec's UTF-8 test |
| `Utf8Text.Decodes` | src/processor.rs:285 | every byte string that passes is such an encoding |
| `Utf8Text.Utf8IsText` | src/processor.rs:285 | the test accepts exactly the encodings of text |
| `Session.FreshInv` | src/processor.rs:304-311 | a session right after its preamble, with bytes already buffered behind it, satisfies the session invariant |
| `Session.TakeLineEcho` | src/processor.rs:420-423 | taking a complete line owes exactly one more encoded line |
| `Session.TakeTailEcho` | src/processor.rs:420-423 | an unterminated tail at end of file owes exactly one more encoded line |
| `Session.TakeInv` | src/processor.rs:420-422 | every outcome of a decode (line, last line, error, need more) keeps the invariant |
| `Session.FeedInv` | src/processor.rs:423 | encoding the taken line keeps the invariant |
| `Session.FlushInv` | src/processor.rs:358-365 | a partial or complete flush keeps the invariant; the counter moves exactly when a send completes |
| `Session.ReceiveInv` | src/processor.rs:420 | a received chunk of any size keeps the invariant |
| `Session.FinishInv` | src/processor.rs:420-439 | end of file, read errors and write errors keep the invariant |
| `Session.StepInv` | src/processor.rs:411-440 | every step of the session engine keeps: received = consumed + read buffer, sent + pending = echo of what was consumed, every line counted, write buffer empty at the head of the loop |
| `Session.HandoffInv` | src/processor/upgrade.rs:40-49 | capture at any suspension point followed by adoption keeps the invariant; no line is held outside the two buffers there |
| `Session.SentIsPrefix` | src/processor.rs:411-440 | what the client received, and what is pending, is a prefix of the echo it is owed |
| `Session.QuietIsComplete` | src/processor.rs:420 | a session waiting for input has echoed every complete line it was ever sent, and its count says so |
| `Session.StopIsComplete` | src/processor.rs:420-439 | a session that stops at end of file or at a rejected line has echoed everything it owed |
| `EchoTask.RunGood` | src/processor.rs:349-409 | the invariant holds after every run with any number of upgrades |
| `EchoTask.EverySessionRun` | src/processor.rs:349-440 | in every run mixing chunks, decodes, partial flushes and cancel/handoff/adopt cycles the client has a prefix of its echo, and all of it whenever the session waits |
| `EchoTask.UpgradesAreInvisible` | src/processor/upgrade.rs:33-49 | two quiet runs with the same input have the same output, however they were chunked and upgraded |
| `EchoTask.CountRun` | src/processor.rs:423-426 | over a run, lines encoded balance against lines counted, sends cut short and the send in progress |
| `EchoTask.EncodedMinusEchoed` | src/processor.rs:378-403 | lines encoded minus lines_echoed equals the handoffs that interrupted a send, plus one if a send is in progress |
| `EchoTask.WorkShrinks` | src/processor.rs:420-439 | every step that needs no input decreases a measure on the two buffers |
| `EchoTask.NeverStuck` | src/processor.rs:358-365 | a session that is neither over nor waiting for input can move as soon as the socket takes a byte |
| `EchoTask.DrainedIsQuiet` | src/processor.rs:420 | when no internal step is left, the session waits for input or is over |
| `EchoTask.EndsComplete` | src/processor.rs:420-439 | an internal step that ends the session leaves everything echoed |
| `EchoTask.AdoptedDrains` | src/processor/upgrade.rs:33-49 | with no further client input, every run of internal steps is bounded, and where none is left the pending write and all buffered lines are on the socket |
| `EchoTask.SessionTask.constructor` | src/processor.rs:349-352 | a task starts from a wire and a rebuilt task that satisfy the invariant |
| `EchoTask.SessionTask.WriteOut` | src/processor.rs:358-365 | moves a prefix of the write buffer to the socket and keeps the rest |
| `EchoTask.SessionTask.PollFlush` | src/processor.rs:358-365 | one poll of a flush is a step of the session machine: it writes what there is room for, fails on a write error, hears a cancel, and does nothing else |
| `EchoTask.SessionTask.PollDecode` | src/processor.rs:420-422 | one poll of the stream yields a line, the end or a wait, as the machine does |
| `EchoTask.SessionTask.PollRead` | src/processor.rs:420 | one read of the socket is a step of the session machine: it takes the chunk, sees the end or the error, hears a cancel, and does nothing else |
| `EchoTask.SessionTask.FlushInherited` | src/processor.rs:358-365 | the inherited echo is completed before anything else; only a silent socket leaves it unfinished |
| `EchoTask.SessionTask.FeedLine` | src/processor.rs:423 | a taken line goes straight into the write buffer |
| `EchoTask.SessionTask.EchoLoop` | src/processor.rs:420-439 | the loop makes only machine steps and hands over exactly when a cancel was among the events it used up and the stream has not ended |
| `EchoTask.SessionTask.Body` | src/processor.rs:349-409 | the whole task is a run of the session machine; it hands over exactly if it heard a cancel, past its inherited flush and before its end, at a point that can be captured, never holding a line, with the client at a prefix of its echo |
| `Registry.SessionRegistry.constructor` | src/processor.rs:70 | an empty registry |
| `Registry.SessionRegistry.Spawn` | src/processor.rs:331-344 | a session gets an id that is in use nowhere and below which all ids lie |
| `Registry.SessionRegistry.Finish` | src/processor.rs:367-377 | removes only its own id, and the metadata of its peer only with the last session of that peer |
| `Registry.SessionRegistry.Drain` | src/processor/upgrade.rs:398-412 | empties the registry and yields, each exactly once and in any order, the enriched records of the tasks that answered |
| `Registry.SessionRegistry.Readopt` | src/processor/upgrade.rs:470-514 | reinstates idents of all records and restarts the usable ones under fresh consecutive ids |
| `Registry.SessionRegistry.AdoptInflight` | src/processor/upgrade.rs:83-161 | the successor skips records of an unknown schema one by one and adopts the usable rest in order |
| `Registry.SessionRegistry.FinishLate` | src/processor.rs:366-377 | tasks that end after their id left the registry remove no session and no ident of a live peer |
| `Registry.SessionRegistry.Restore` | src/processor/upgrade.rs:470-514 | records re-adopted into the emptied registry are all back, with every ident annotation even if it was dropped meanwhile |
| `Registry.SessionRegistry.Rollback` | src/processor/upgrade.rs:377-412 | drain, stragglers, re-adoption, late finishers: every session that answered is back under a fresh id with the same socket, identity, buffers, count and ident, and nothing else is there |
| `Registry.NumberedIs` | src/processor/upgrade.rs:483-499 | consecutive fresh ids hold exactly the revived records |
| `Registry.RecordsRevive` | src/processor/upgrade.rs:470-499 | every drained record revives to the session it was taken from |
| `Registry.IdentsRestored` | src/processor/upgrade.rs:472-482 | re-inserting the idents of the records restores every annotation of their peers |
| `Registry.RecordRoundTrip` | src/processor/upgrade.rs:459-467 | a captured, enriched record revives to the same conversation, carries its ident and has an accepted schema version |
| `Registry.TakenExactly` | src/processor/upgrade.rs:91-148 | the successor adopts exactly the records of schema version 1 with a usable local socket, each once and in payload order |
| `Registry.ReadoptedExactly` | src/processor/upgrade.rs:483-512 | so does a rollback, whose records are all of version 1 |
| `Registry.LastIdentWins` | src/processor/upgrade.rs:111-125 | the last record with an ident decides ident and trace id of its peer |
| `Registry.NoIdentNoChange` | src/processor/upgrade.rs:111-125 | peers without such a record keep what was known of them |
| `Restart.LineAfter` | src/processor.rs:420-423 | an unfinished start and its continuation make exactly the line up to the first LF |
| `Restart.Distinguish` | src/processor.rs:420-423 | two different unfinished lines are told apart by some continuation, unless the codec can accept neither any more |
| `Restart.InternalKeeps` | src/processor.rs:420-439 | decoding, encoding and flushing change nothing about what is coming out of a session |
| `Restart.CaughtUpRun` | src/processor.rs:411-440 | a session whose buffers complete what is owed keeps its promise in every error-free continuation |
| `Restart.DrainRun` | src/processor.rs:358-440 | left to itself, any session sends everything that is coming and then waits or ends |
| `Restart.MustCatchUp` | src/processor.rs:411-440 | a session that keeps its promise in every continuation has buffers that complete what is owed |
| `Restart.RestartKeepsPromiseIff` | src/processor/upgrade.rs:470-499 | for any record over any socket, the restarted session keeps the promise (prefix always, all complete lines when waiting, everything at its end) in every continuation if and only if the record fits the socket |
| `Restart.SoundRecordFits` | src/processor/upgrade.rs:40-49 | a record over the socket it was captured from fits |
| `Restart.WholeLinesAreHarmless` | src/processor/upgrade.rs:377-388 | whole lines received and echoed in between leave a record with empty buffers fitting |
| `Payload.RoundTrip` | src/processor/upgrade.rs:204-208 | what the old process serialized is what the child parses |
| `Payload.CutShort` | src/processor/upgrade.rs:232-241 | a payload cut short anywhere does not parse |
| `UpgradeProtocol.MoverOk` | src/processor/upgrade.rs:398-412 | connect, I/O in either process and capture keep the session they touch sound |
| `UpgradeProtocol.CaptureOk` | src/processor.rs:378-403 | a captured session keeps its guarantees as a record |
| `UpgradeProtocol.WhatTheChildReads` | src/processor/upgrade.rs:174-219 | at EOF the payload parses to exactly the drained records; from the pipe it parses exactly when the writer wrote and closed all of it |
| `UpgradeProtocol.ReadPayloadIs` | src/processor/upgrade.rs:83-161 | the child dies on a bad pipe, starts without sessions on a bad environment, and otherwise adopts exactly the drained records it does not decline |
| `UpgradeProtocol.ChildReadsInv` | src/processor/upgrade.rs:83-161 | the child reading its payload and starting its tasks keeps the system invariant |
| `UpgradeProtocol.PipeInv` | src/processor/upgrade.rs:232-241 | every step of the writer, failing or not, keeps the system invariant |
| `UpgradeProtocol.CommitInv` | src/processor/upgrade.rs:391-395 | the commit keeps the system invariant |
| `UpgradeProtocol.ReadoptInv` | src/processor/upgrade.rs:377-388 | the rollback keeps the system invariant, whichever sockets cannot be rebuilt |
| `UpgradeProtocol.AbandonInv` | src/processor/upgrade.rs:383-386 | a spawn that fails or a listener that cannot be rebuilt keeps the system invariant |
| `UpgradeProtocol.StepKeepsInv` | src/processor/upgrade.rs:258-396 | every step of the two-process protocol keeps the system invariant |
| `UpgradeProtocol.RunKeepsInv` | src/processor/upgrade.rs:258-396 | so does every run, over any number of upgrades |
| `UpgradeProtocol.SameCountSameStream` | src/processor.rs:423-426 | two balanced states with the same count over a stream and its extension have the same stream and output |
| `UpgradeProtocol.RollbackExact` | src/processor/upgrade.rs:377-388 | byte and line accounting: a task rebuilt from its record is sound if and only if no byte moved on its socket since the capture |
| `UpgradeLaws.EveryUpgradeRun` | src/processor/upgrade.rs:349-396 | in every reachable state no session has a task in both processes, and every client not already carried on by a discarded child has a prefix of its echo, and all of it whenever its session waits, in whichever process |
| `UpgradeLaws.DrainIsComplete` | src/processor/upgrade.rs:398-457 | when the child is spawned every session that was running when the drain began has a record, had ended, or had a socket that could not be handed over |
| `UpgradeLaws.ReadyMeansHandedOver` | src/processor/upgrade.rs:204-219 | a child past its startup has adopted or declined exactly what was handed over, if and only if the payload came through the pipe or parsed, or there was none; a piped payload was then written, closed and parsed whole |
| `UpgradeLaws.CommitHandsOver` | src/processor/upgrade.rs:391-395 | a commit leaves the live successor exactly the records it could read and did not decline, each as a sound task |
| `UpgradeLaws.RollbackRestores` | src/processor/upgrade.rs:377-388 | every record whose socket can be rebuilt is restarted as captured; its accounting is sound if and only if the discarded child moved no byte of it; its client keeps getting what a session promises if and only if the record fits the socket, as it does when nothing moved |
| `UpgradeLaws.RollbackDeclines` | src/processor/upgrade.rs:500-512 | records whose socket cannot be rebuilt are not restarted, and no other session is disturbed |
| `UpgradeLaws.Lift` | src/processor/upgrade.rs:484-499 | a run of one session in the old process is a run of the system |
| `UpgradeLaws.RollbackBreaks` | src/processor/upgrade.rs:377-388 | if the record does not fit, the old process has a continuation of its own I/O steps in which the client sees it |
| `UpgradeLaws.RunOrdered` | src/processor/upgrade.rs:349-396 | in every run the protocol steps of the current child happened in order |
| `UpgradeLaws.TwoPhaseOrder` | src/processor/upgrade.rs:368-396 | the old process commits only after this child read its payload to the end (from the pipe: after it was completely written and closed) and signalled ready, and then the writer cannot have failed; it re-adopts only after this child was reaped, with no child task left |
| `UpgradeLaws.ExitCodes` | src/processor/upgrade.rs:391-395 | in every run the serving processes exited with 23 once per commit and with 1 once per failed spawn or rollback, and not otherwise; the generation counts the commits; the last process is gone with 23 exactly after a commit whose child had died |
| `UpgradeLaws.CommitsAfterReady` | src/processor/upgrade.rs:377-395 | every commit of a run, and so every exit with 23, came after its own child had signalled ready |
| `UpgradeLaws.ExitedIsFinal` | src/processor/upgrade.rs:395 | nothing happens after the last process has exited |
| `UpgradeWitness.UnreadableEnvironmentLosesSessions` | src/processor/upgrade.rs:213-216 | a run in which a child with an unreadable environment payload signals ready and the commit loses the session |
| `UpgradeWitness.RollbackCanEchoTwice` | src/processor.rs:72-94 | a run in which the child flushes before it is ready, is discarded, and the client gets its line twice |
| `RateLimiter.KeptShrinks` | src/limits.rs:209-214 | the idle pass never grows the table |
| `RateLimiter.LimiterInner.constructor` | src/limits.rs:115-130 | an empty table with zero counters |
| `RateLimiter.LimiterInner.EvictIdle` | src/limits.rs:208-214 | keeps exactly the buckets touched within the TTL and counts the others |
| `RateLimiter.LimiterInner.EvictAtCap` | src/limits.rs:218-257 | for any iteration order: no victim exactly when every stored bucket is below one token; otherwise one bucket with at least one token, maximal, oldest touch among ties, is removed and counted |
| `RateLimiter.LimiterInner.TryTakeAt` | src/limits.rs:166-206 | decision, victim and new state refine the specification of one request |
| `RateLimiterLaws.SizeStep` | src/limits.rs:178-194 | a request never takes the table past a non-zero cap |
| `RateLimiterLaws.ValidStep` | src/limits.rs:166-206 | a request keeps every bucket within [0, capacity] and stamped in the past |
| `RateLimiterLaws.RunValid` | src/limits.rs:166-257 | in every run all buckets stay within bounds and the table never outgrows the cap |
| `RateLimiterLaws.AccountStep` | src/limits.rs:180-213 | one request changes tracked + idle evictions + LRU evictions by exactly the buckets it inserts |
| `RateLimiterLaws.BucketsAccounted` | src/limits.rs:180-252 | over every run, buckets ever inserted = tracked + idle evictions + LRU evictions |
| `RateLimiterLaws.StatisticsCount` | src/limits.rs:153-163 | over every run the statistics count exactly the cap evictions, the cap refusals and the idle evictions |
| `RateLimiterLaws.SingleTokenStep` | src/limits.rs:126-207 | with a burst of one a full table refuses every newcomer |
| `RateLimiterLaws.BurstOfOneNeverEvicts` | src/limits.rs:244-252 | with a burst of one every stored bucket stays below a token and LRU eviction never fires |
| `RateLimiterLaws.IdleMeansFull` | src/limits.rs:209-212 | with refill x TTL >= capacity a bucket that idled out had refilled completely |
| `RateLimiterLaws.PotentialStep` | src/limits.rs:180-206 | one request spends at least what it admits, except for capacity - 1 forgiven by an eviction of that address |
| `RateLimiterLaws.PotentialGrowth` | src/limits.rs:195-197 | between requests the spendable tokens grow by at most refill x time |
| `RateLimiterLaws.GainedTotal` | src/limits.rs:195-206 | the gains of a window add up to refill x length + (capacity - 1) x evictions |
| `RateLimiterLaws.PotentialRun` | src/limits.rs:166-257 | over a run, admissions are bounded by the tokens at its start plus the gains |
| `RateLimiterLaws.AdmissionBound` | src/limits.rs:166-257 | in any window of any run, admissions of one address <= capacity + refill x T + (capacity - 1) x its LRU evictions in the window |
| `RateLimiterLaws.ShadowsLater` | src/limits.rs:208-214 | after the idle pass the table still agrees with a never-forgetting one: what is missing is full |
| `RateLimiterLaws.ShadowsSpend` | src/limits.rs:189-206 | both tables offer the same tokens to every address and stay in agreement after it spends |
| `RateLimiterLaws.ShadowRun` | src/limits.rs:166-214 | every time-ordered run decides like the never-forgetting bucket |
| `RateLimiterLaws.WitnessGranted` | src/limits.rs:208-214 | if the TTL is too short, the evicting limiter grants the last request of a burst-silence-burst sequence |
| `RateLimiterLaws.WitnessRefusedByIdeal` | src/limits.rs:189-206 | which the never-forgetting bucket refuses |
| `RateLimiterLaws.AgreesIffTtlRefills` | src/limits.rs:166-214 | without a tracking cap, the limiter agrees with the ideal bucket on every time-ordered sequence if and only if refill x TTL >= capacity |
| `AdmissionLaw.LawfulIsUnique` | src/limits.rs:195-206 | the admission law leaves no choice of decisions |
| `AdmissionLaw.LeavesSnoc` | src/limits.rs:195-206 | what the answers so far leave an address, one answer later |
| `AdmissionLaw.HoldsSpend` | src/limits.rs:195-206 | what a bucket holds after a request: the saved fraction of a refused request is kept |
| `AdmissionLaw.LevelStep` | src/limits.rs:189-206 | a never-forgetting table offers every address exactly what the answers leave it, request after request |
| `AdmissionLaw.IdealIsLawful` | src/limits.rs:189-206 | a never-forgetting token bucket follows the admission law on every time-ordered run |
| `AdmissionLaw.RefillingIsLawful` | src/limits.rs:166-214 | if a bucket can refill within the TTL, the evicting limiter follows the law on every time-ordered run |
| `AdmissionLaw.ForgettingIsUnlawful` | src/limits.rs:208-214 | if it cannot, a burst, a silence of one TTL and another burst break the law |
| `AdmissionLaw.LawfulIffTtlRefills` | src/limits.rs:166-214 | without a tracking cap, a request is granted exactly if, counted from every earlier request of its address, admissions stay within capacity + refill x time, on every time-ordered sequence, if and only if refill x TTL >= capacity |
| `SessionCap.CountStep` | src/limits.rs:43-68 | every atomic step keeps counter = live guards modulo 2^64, within the cap |
| `SessionCap.PcStep` | src/limits.rs:53-63 | a loaded value is current until another thread writes |
| `SessionCap.LogStep` | src/limits.rs:53-63 | refusals and retries are each justified when they are recorded |
| `SessionCap.StepInv` | src/limits.rs:22-68 | every atomic step of any thread keeps the invariant |
| `SessionCap.RunInv` | src/limits.rs:22-68 | so does every interleaving |
| `SessionCap.EveryInterleaving` | src/limits.rs:22-68 | for any threads and interleaving: counter = live guards, never above a non-zero cap; refused only if the cap was full at that load; a failed exchange means another thread wrote in between |
| `SessionCap.TryAcquire` | src/limits.rs:43-68 | the retry loop under arbitrary interference makes only machine steps; a guard is granted within the cap, a refusal means full at this load, and it is still trying only if every attempt was interfered with; without a cap it always succeeds |
| `WorkerLink.ControlLink.constructor` | src/supervisor/control.rs:30-33 | a link with no connection |
| `WorkerLink.ControlLink.AcceptConn` | src/supervisor/control.rs:58-63 | installs the writer under the next epoch, wrapping at 2^64 |
| `WorkerLink.ControlLink.StatusReport` | src/supervisor/control.rs:78-85 | records generation and pid of any connection, stale or not, over what was there, and answers the pending query |
| `WorkerLink.ControlLink.ReaderEnds` | src/supervisor/control.rs:96-103 | clears writer, generation and pid exactly when the epochs match |
| `WorkerLink.ControlLink.Take` | src/supervisor/control.rs:165-174 | hands out the writer and drops the pending query |
| `WorkerLink.EventInv` | src/supervisor/control.rs:58-103 | every event keeps the link invariant |
| `WorkerLink.RunInv` | src/supervisor/control.rs:58-132 | so does every interleaving |
| `WorkerLink.ReportSnoc` | src/supervisor/control.rs:78-103 | a report supersedes the one before, an owning teardown cancels it, nothing else matters |
| `WorkerLink.EveryLinkRun` | src/supervisor/control.rs:58-205 | under any interleaving a present writer belongs to the latest accepted connection; the recorded generation and pid are exactly those of the latest report unless an owning teardown followed it; a query is pending exactly if one was sent over a writer and neither answered, given up nor displaced since |
| `WorkerLink.NothingRecorded` | src/supervisor/control.rs:96-103 | nothing is recorded exactly when there is no such report |
| `WorkerLink.WriterStep` | src/supervisor/control.rs:58-205 | every event keeps the reasons for a missing writer up to date |
| `WorkerLink.MissingWriter` | src/supervisor/control.rs:58-205 | in every interleaving there is no writer exactly when nobody connected yet or, since the latest accept, the writer was taken for a terminal message or the owning connection was torn down; without a terminal message it means the latest connection is gone |
| `WorkerLink.AbsenceIsRealIff` | src/supervisor/control.rs:162-193 | in every reachable state a missing writer will mean a gone connection, however it goes on, if and only if no terminal message took the writer of a connection that is still there |
| `WorkerLink.TeardownFence` | src/supervisor/control.rs:90-103 | a teardown clears the link if it trails the latest accept by a multiple of 2^64 (so only the latest below 2^64 accepts), and changes nothing otherwise |
| `Supervision.WaitForSuccessor` | src/supervisor/worker.rs:320-337 | the polling loop computes the wait outcome of the poll trace |
| `Supervision.WaitMeans` | src/supervisor/worker.rs:320-337 | adopted: the first generation above the baseline; timed out: five seconds of polls with none |
| `Supervision.MonitorSuccessor` | src/supervisor/worker.rs:356-386 | the polling loop computes the monitor outcome, and the pid of the last connected report before it |
| `Supervision.AbsentStep` | src/supervisor/worker.rs:373-383 | the absence stamp stands for an unbroken stretch of polls without a writer |
| `Supervision.MonitorMeans` | src/supervisor/worker.rs:356-386 | re-adopted: a reported, strictly higher generation; lost: polls with no writer and nothing newer, spanning the grace |
| `Supervision.NotGoneYet` | src/supervisor/worker.rs:373-383 | as long as the monitor goes on, no absence has lasted the grace |
| `Supervision.MonitorIsPrompt` | src/supervisor/worker.rs:356-386 | with time-ordered polls the watch ends at the first poll that shows a newer generation or completes an absence, and not before |
| `Supervision.SuperviseAdopted` | src/supervisor/worker.rs:269-311 | the adoption loop computes the chain of successors held, with the poll each was adopted at |
| `Supervision.HoldMeans` | src/supervisor/worker.rs:269-311 | that chain starts at the adopted successor, each was shown by the poll it was adopted at, generations strictly increase above the baseline; if lost, the last one was gone for the grace after its adoption, and with time-ordered polls exactly then |
| `Supervision.AfterCommit` | src/supervisor/worker.rs:228-254 | wait, then hold: the verdict on an exit with code 23 |
| `Supervision.StillWaiting` | src/supervisor/worker.rs:320-337 | a successor in time, or polls that end before the deadline, exclude the timeout |
| `Supervision.VerdictMeans` | src/supervisor/worker.rs:228-257 | after a commit the verdict is to respawn only if no successor showed up in five seconds or the last adopted one was gone for three after its adoption; with time-ordered polls exactly then |
| `Supervision.VerdictAbove` | src/supervisor/worker.rs:320-337 | whoever first reports above the baseline in time is adopted, and nobody at or below it |
| `Supervision.BaselineIsFloor` | src/supervisor/worker.rs:194-206 | the baseline of a turn is the generation in the link, or 0; the generation carried over from a supervisor upgrade never matters, because an adopted process is never seen to commit |
| `Supervision.SuperviseRole` | src/supervisor/worker.rs:171-260 | over any history of turns: after a commit whoever reports above the generation in the link (above 0 if it was empty) within five seconds is adopted, generations strictly increasing; the loop respawns only if nobody did or the last one was gone for three seconds after its adoption (with time-ordered polls exactly then); any other exit is respawned |
| `Supervision.ShortAbsenceIsHarmless` | src/supervisor/worker.rs:343-355 | if some poll sees the writer in every stretch of the grace, a turn of the role loop that adopted anybody never respawns |
| `Supervision.AdoptedWasReported` | src/supervisor/worker.rs:320-337 | every generation the role loop adopts was really reported on the link, with no owning teardown since |
| `Supervision.LostMeansUnreachable` | src/supervisor/worker.rs:373-383 | a successor is lost only if at every poll of the grace nobody was connected, its writer was taken or its connection torn down; without a terminal message it was torn down |
| `Supervision.TakenWriterLooksLost` | src/supervisor/worker.rs:262-268 | in every reachable state of the link with nothing newer, the monitor gives up after the grace if and only if the writer was taken or the connection is gone; a connected successor exactly when a terminal message was sent to it |
| `Watchdog.WatchdogState.constructor` | src/supervisor/watchdog.rs:31-37 | a seeded role starts at 200 ms, a role created on the fly at zero |
| `Watchdog.WatchdogState.RecordSpawn` | src/supervisor/watchdog.rs:38-42 | the fields agree with the history extended by a spawn |
| `Watchdog.WatchdogState.RecordAdoption` | src/supervisor/watchdog.rs:43-48 | an adoption restarts the uptime and counts no restart |
| `Watchdog.WatchdogState.ApplyExit` | src/supervisor/watchdog.rs:60-74 | exit 23 and slow exits reset, fast exits count and double up to the cap |
| `Watchdog.WatchdogState.RecordExit` | src/supervisor/watchdog.rs:53-56 | the returned delay is the one the history gives; for a seeded role min(200 x 2^k, 30000) ms with k the trailing fast exits |
| `Watchdog.WatchdogState.Health` | src/supervisor/watchdog.rs:75-96 | failed from five trailing fast exits on; flapping at four, in backoff at one to three, unless the worker has been up for five seconds; healthy otherwise |
| `Watchdog.DelayClosedForm` | src/supervisor/watchdog.rs:60-74 | doubling and capping on fast exits and resetting on others, exit by exit, gives the start value (200 ms after any reset) times 2^k, capped |
| `Watchdog.SeededBackoff` | src/supervisor/watchdog.rs:31-74 | for every history of a seeded role the delay folded over its exits is min(200 x 2^k, 30000) ms; it is at the cap exactly from k = 8 on |
| `Watchdog.FailedBelowTheCap` | src/supervisor/watchdog.rs:133-135 | a failed role does not wait the maximum: five spawns that crash at once give 6.4 seconds |
| `Watchdog.FailedAtTheCap` | src/supervisor/watchdog.rs:133-135 | a failed role is at the maximum exactly from the third fast exit after it failed |
| `RollingUpgrade.Progress.constructor` | src/supervisor/admin.rs:53-60 | no frames and no counts |
| `RollingUpgrade.Progress.UpgradeOne` | src/supervisor/admin.rs:175-256 | skipped exactly without a status, committed at the first higher generation polled before the deadline, timed out exactly if there is none; one counter and the matching frames |
| `RollingUpgrade.Progress.CanaryObserve` | src/supervisor/admin.rs:111-156 | clean exactly when no watched state ranked worse than the baseline; otherwise one abort frame and count |
| `RollingUpgrade.WalkRole` | src/supervisor/admin.rs:94-104 | one role: attempt, then canary only after a commit |
| `RollingUpgrade.Walk` | src/supervisor/admin.rs:92-104 | attempts the targets in order and stops at the first failure; frames and counters are those of the outcomes |
| `RollingUpgrade.RollingUpgrade` | src/supervisor/admin.rs:53-107 | a held lock or unknown role gives one failed completion; otherwise a prefix of the targets is walked and exactly one completion closes the stream, with the returned verdict; for every request the admin command succeeds on the frames exactly when the supervisor returned true |
| `RollingUpgrade.CountedOnce` | src/supervisor/admin.rs:175-256 | per walk an attempted role gets exactly one of committed, timed out and skipped, the one its attempt came to, and a canary abort exactly on top of an aborted commit |
| `RollingUpgrade.FramesDetermine` | src/supervisor/admin.rs:175-256 | the frames of an outcome tell everything about it |
| `RollingUpgrade.TargetsAre` | src/supervisor/admin.rs:66-90 | without a role everybody but TLS is upgraded, and TLS too if asked for, the processor first and TLS last; with a role that one alone; nobody twice |
| `RollingUpgrade.RankFollowsCrashes` | src/supervisor/admin.rs:158-165 | of two equally old workers, more fast exits never rank better |
| `RollingUpgrade.RanksDiffer` | src/supervisor/admin.rs:158-165 | healthy, backoff, flapping, failed, each strictly worse than the one before |
| `RollingUpgrade.CanaryAsDocumented` | src/supervisor/admin.rs:111-156 | on every role whose upgrade commits and is watched to the end, the canary aborts on every state below healthy, as documented, if and only if the role was healthy before its upgrade |
| `RollingUpgrade.StreamUpgrade` | src/admin.rs:102-161 | succeeds exactly on a successful completion preceded by nothing but successful steps |
| `RollingUpgrade.StepsOnly` | src/supervisor/admin.rs:175-256 | a walk emits only step frames before its completion, all good if every outcome was |
| `RollingUpgrade.CliAgreesWithSupervisor` | src/admin.rs:102-161 | on the frames of any walk or refusal the command succeeds if and only if the supervisor returned true |
| `RollingUpgrade.TruncatedStreamFails` | src/admin.rs:104-111 | a stream cut before its completion never succeeds |
| `Bridge.WroteOk` | src/acceptor/tls_client.rs:172-174 | a partial write keeps what is unwritten equal to the rest of the frame |
| `Bridge.ReadOk` | src/acceptor/tls_client.rs:163-171 | a read puts one frame of at most 8192 bytes in hand |
| `Bridge.CopyInv` | src/acceptor/tls_client.rs:156-178 | reading, writing and seeing the stop keep the bridge invariant |
| `Bridge.StopInv` | src/acceptor/tls_client.rs:107-127 | every way of cancelling the token keeps it |
| `Bridge.StepInv` | src/acceptor/tls_client.rs:58-178 | every step keeps it |
| `Bridge.RunInv` | src/acceptor/tls_client.rs:58-178 | so does every interleaving of both loops, the watchdog, the cancel bridge and the grace |
| `Bridge.RunTraced` | src/acceptor/tls_client.rs:58-178 | bytes read, bytes in hand, failed writes, the stop and the upgrade flag are those the steps of the run say |
| `Bridge.EveryBridgeRun` | src/acceptor/tls_client.rs:107-178 | at exit each direction wrote, in order, a prefix of the bytes its reads took, short by at most one frame, and short exactly when its write failed or the grace ran out while it was inside a frame; no read follows a cancelled token; Cancelled exactly when the run consumed the upgrade cancel |
| `Bridge.CancelledCanLoseAFrame` | src/acceptor/tls_client.rs:35-38 | a concrete run that exits Cancelled with a frame unwritten |
| `Bridge.CopyLoop.constructor` | src/acceptor/tls_client.rs:156-161 | a loop at its first select |
| `Bridge.CopyLoop.Select` | src/acceptor/tls_client.rs:163-171 | a stop is seen before a read and takes no byte; otherwise a read takes the bytes that are there, up to 8192, and the end of input stops the loop |
| `Bridge.CopyLoop.Advance` | src/acceptor/tls_client.rs:172-174 | writes the next bytes of the frame |
| `Bridge.CopyLoop.WriteSome` | src/acceptor/tls_client.rs:172-174 | writes as much of the frame as there is room for, never looks at the stop and takes no byte |
| `Bridge.CopyLoop.Run` | src/acceptor/tls_client.rs:156-178 | the loop makes only steps of the bridge machine; between frames and after a clean stop it has written exactly what it read |
| `Histogram.LatencyHistogram.constructor` | examples/echobench.rs:313-318 | empty buckets and no samples |
| `Histogram.LatencyHistogram.Record` | examples/echobench.rs:320-329 | every bucket counts exactly its samples and the maximum is a sample; durations saturate at 2^64 - 1 |
| `Histogram.LatencyHistogram.Total` | examples/echobench.rs:331-333 | the buckets add up to the number of samples |
| `Histogram.LatencyHistogram.Percentile` | examples/echobench.rs:336-356 | returns the top of the first bucket whose cumulative count reaches the rank; for 0 < p <= 1 a sample of that rank exists and the result bounds it |
| `Histogram.BucketsVersusValue` | examples/echobench.rs:325-327 | counting by bucket and counting by value agree at bucket borders |
| `Histogram.KthInBucket` | examples/echobench.rs:348-353 | the bucket at which the cumulative count reaches k holds the k-th smallest sample |
| `Histogram.KthBelow` | examples/echobench.rs:347-353 | for 1 <= k <= n some sample is the k-th smallest |
| `Histogram.TopOfBucket` | examples/echobench.rs:326-352 | a value lies in [r/2, r) for the top r of its bucket, or is 0 with r = 2, or is beyond the last bucket border |
| `Histogram.QuantileBound` | examples/echobench.rs:335-356 | the sample of rank ceil(p n) lies in [r/2, r) for the returned r, or is 0 with r = 2; from 2^63 ns on, r stays at 2^63 |
| `Histogram.RankInRange` | examples/echobench.rs:347 | for 0 < p <= 1 the rank is the least integer not below p n, and between 1 and n |

## Left out

- TLS fork-and-drain and certificate loading: they rest on rustls, fork and poll.
- Descriptor flags, fexecve, Capsicum, seccomp, privilege drop, SCM_RIGHTS and dialing: a handed-over
  descriptor is an abstract socket identity; a descriptor that cannot be prepared or rebuilt is
  `CaptureFails`, a declined record or a socket outside `usable`.
- JSON, serde and TOML: a payload is an opening bracket, one token per record and a closing bracket, so
  that a part of it does not parse; the text of one record is not modelled. Of an environment payload
  only whether it parses is open; if it does, it is the one that was handed over. No payload at all is
  an environment that does not parse.
- The ident probe, scanner sidecar, health endpoint, metrics text, systemd notification, reload and
  argument parsing: easy or pure I/O.
- Which of several concurrent status queries gets a report: a poll result is any status or none.
- Scheduler fairness: progress is stated as a decreasing measure and a step that is always possible.
- Fault injection and coverage hooks.
- Errors between the drain and the spawn are the one step `SpawnFails`; like a listener that cannot be
  rebuilt (`RollbackFails`) it loses the drained sessions, and what the client sees then is not stated.
- Connections still reading their preamble when the drain begins: they join the old process late and
  are in no record; a commit drops them.
- Spawn errors, the startup liveness check of an adopted pid and the shutdown flag of the role loop.
- Registry.SessionRegistry.Finish: models the end of the echo loop; a failed flush of an inherited write
  buffer removes the session and leaves the metadata.
- RateLimiter.LimiterInner.TryTakeAt: does not model rounding; tokens and times are reals, and a zero
  refill, which switches the limiter off before this code, is excluded from the laws by `Enabled`.
- Watchdog.WatchdogState.RecordSpawn: does not model the wall-clock stamp of the last restart.
- Histogram.LatencyHistogram.Percentile: takes the rank over reals; counters do not overflow.
- Registry.SessionRegistry.Spawn: ids are unbounded; the 64-bit id counter does not wrap. The same
  holds for line counts, limiter statistics, restart totals and the 32-bit fast-exit counter.
- Bridge.CopyLoop.Run: drives one direction; both directions together are the bridge machine. The idle
  watchdog may fire at any time there, so no bound on idleness is stated.
- EchoTask.SessionTask.PollFlush: does not say how many bytes the kernel takes; any split is possible.
