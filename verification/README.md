# kcmex: a verified model of the credential daemon

kcmex keeps a user's ticket-granting ticket (TGT) inside a daemon and hands out service tickets over the
KCM protocol. This project models its core and proves what that core is for:

- the **TGT protocol**: one ordered credential cache, one remembered TGT, a renewal exchange that runs
  outside the lock, reloads of the source file, swaps, stores, re-initialisation and sweeps;
- the **concurrency substrate** under it: the bounded context pool, the read/write lock, the flight table
  that coalesces lookups, and Close;
- the **timing** of the background loop: half-life, backoff, wake-ups;
- the **names and wire forms**: principal text and bytes, the coalescing key, the match-credential decoder.

## How it is put together

| files | role |
|---|---|
| `Wire`, `Names`, `Matching`, `MatchCodec`, `Coalescing` | byte forms, text forms, the coalescing key |
| `Credentials`, `Session` | credentials and the client's state as values, and what each operation does to them |
| `CredentialLaws`, `SessionLaws`, `OperationLaws`, `Listing`, `ConfigEntries`, `Timing` | what that means in the fields a caller sees, and the laws of it |
| `Engine` | the `Client` object with its fields and loops, each method tied to its session function |
| `Daemon` | the step machine: any number of goroutines interleaving one channel operation, lock operation, library call or guarded block at a time |
| `DaemonPool`, `DaemonLock`, `DaemonFlights`, `DaemonProgress` | pool, lock and flight invariants, deadlock freedom |
| `DaemonTgt`, `DaemonFrame`, `DaemonCache`, `DaemonOwner`, `DaemonSweep`, `DaemonConfig`, `DaemonSections`, `DaemonSolo`, `DaemonJobs` | renewal, agreement of cache and TGT, ownership, evictions, source reads, config entries, atomicity of write sections, the uninterrupted pass, every operation doing its own job |

`Session` is the common specification: the sequential `Engine` methods compute it, and
`DaemonSections.SectionIsAtomic` shows that each interleaved write section of `Daemon` has exactly its
effect in the world (file, failures) that the section's own steps met. `DaemonSolo.SoloPassIsSequential`
does the same for a whole uninterrupted maintenance pass.
Theorems about runs quantify over every `Legal` sequence of actions from an `Opened` state.

libkrb5 is a small interface. Storing appends; removing drops every entry that matches on client and
server, plus all four times when exact times are asked for, and never looks at ticket flags; initialising
empties the cache and sets the principal; a credential and its marshalled form determine each other. The
KDC, the source file, library failures, which entry a cursor shows and what a lookup adds to the cache are
free choices of the environment. Clock readings are parameters. Times are mathematical nanoseconds; bytes,
32-bit words and the truncation of lengths to 32 bits are explicit.

Assumptions that individual theorems name in their `requires`:

- `TicketsOnly`: a lookup adds no local TGT to the cache. Retrieve refuses requests for ticket-granting
  tickets (internal/krb5c/ops.go:308), so the library is never asked for one. `Tickets`: it adds no config
  entry, and a renewal is not answered with one.
- `HonestRun`: the KDC renews for the client it was asked for, and the local TGTs of a source file belong
  to the file's principal.
- Codec round trips are for inputs under 2^32 bytes; messages are limited to one mebibyte
  (internal/kcmproto/wire.go:17).

## Where code and comments differ

The model follows the code.

- internal/krb5c/flight.go:28 says every caller gets its own copy of the bytes; the leader returns the
  shared slice (line 50) and only followers copy. Results are immutable sequences here, so nothing depends
  on it.
- internal/krb5c/ops.go:365 says equal keys build the same template. That holds except when an absent
  client or server meets one with empty text: `Coalescing.SharedKeySharesTemplate` gives the exact
  condition, `Coalescing.EmptyClientIsConflated` and `Coalescing.EmptyServerIsConflated` the two instances,
  and `DaemonFlights.JoinerAskedTheSame` what it means for shared answers.
- internal/krb5c/tgt.go:321-326 leaves no TGT and a partly filled cache when a reload fails half-way:
  `SessionLaws.ReloadAgreement` says exactly when that breaks the agreement of cache and TGT,
  `SessionLaws.StoreAfterTorn` and `SessionLaws.RemoveAfterTorn` what follows, and
  `DaemonCache.CacheAgreement` that in any run the agreement is lost exactly from there until it is
  restored.
- internal/krb5c/tgt.go:330 uses the TGT just loaded, although the file is read a second time after the
  peek at line 295. `SessionLaws.MissingTgt` says exactly when it is missing, which ends the process;
  `SessionLaws.EmptiedFile` is an instance, and `DaemonSections.NeverDown` shows that nothing else ends it.
  `SessionLaws.AdoptionIsNewer` says exactly when the TGT loaded is still newer, `SessionLaws.RewrittenFile`
  gives an instance where it is not.
- internal/krb5c/ops.go:348 says the working cache never holds config entries. `ConfigEntries.StoreConfig`
  says exactly when STORE puts one there, `ConfigEntries.StoredConfigHappens` gives the instance, and
  `DaemonConfig.ConfigComesFromStore` shows that in any run they come from nowhere else. RETRIEVE still
  answers such a request with not-found (`Engine.Client.Retrieve`), and listings and sweeps pass over the
  entry (`ConfigEntries.ConfigIsHidden`).

## Model

| member | source | states |
|---|---|---|
| `DaemonProgress.NoDeadlock` | internal/krb5c/ops.go:315-335 | In every run, with any number of operations and with pending writers shutting new readers out: while the process is up and an operation is unfinished some goroutine can move, unless Close has taken every slot, and then only operations that never got a slot are left |
| `DaemonProgress.CloseGoesOn` | internal/krb5c/krb5c.go:365-375 | In every run after Close was called, while the process is up: Close is over, or Close can move, or some operation can |
| `DaemonProgress.StuckMeansClosed` | internal/krb5c/krb5c.go:255-273 | A state that keeps the three substrate invariants and in which no goroutine can move has Close holding every slot and only slot-waiters unfinished |
| `DaemonPool.PoolIsSafe` | internal/krb5c/krb5c.go:255-273 | In every run: the semaphore counts its holders, contexts idle, held or being created never exceed the pool, every context made is in exactly one place, none is held by two operations |
| `DaemonPool.DoKeepsPool` | internal/krb5c/krb5c.go:255-273 | Every action of every goroutine and of Close keeps the pool invariant |
| `DaemonPool.ReleaseNeverBlocks` | internal/krb5c/krb5c.go:270-273 | The send in release always finds room |
| `DaemonPool.CloseFreesEverything` | internal/krb5c/krb5c.go:365-375 | When Close is over, the freed contexts are all the contexts ever made, without repetition |
| `DaemonPool.CloseIsComplete` | internal/krb5c/krb5c.go:365-375 | In every run: once Close has filled the semaphore nobody holds a context and every context ever created is idle or freed, never both; at the end each was freed exactly once |
| `DaemonLock.MutualExclusion` | internal/krb5c/krb5c.go:123-131 | In every run a write section excludes every other section, and all readers share one epoch (the count of write sections so far) |
| `DaemonLock.DoKeepsLock` | internal/krb5c/krb5c.go:139-147 | Every action keeps the lock's record in step with where the goroutines are, and no epoch ends while anyone reads |
| `DaemonFlights.OneLeaderPerKey` | internal/krb5c/flight.go:29-51 | In every run no two lookups for one key run at once, and the table entry a leader is about to delete is its own |
| `DaemonFlights.SharedResults` | internal/krb5c/flight.go:29-51 | In every run calls are executions plus joins, each flight's lookup runs once, and every caller that brings home a shared result has exactly its flight's |
| `DaemonFlights.FollowerSharesEpoch` | internal/krb5c/ops.go:327-335 | In every run whoever waits for a flight holds the read lock in the epoch the flight started in, and the flight was started for the principal and TGT the daemon still has: no INITIALIZE, STORE, swap or reload fell between |
| `DaemonFlights.JoinerAskedTheSame` | internal/krb5c/ops.go:333-335 | In every run everyone who waits for a flight, and every shared answer brought home, asked for the template that the flight's leader asked for, under the principal the flight was started for, unless the two requests differ in whether they named a server or, given one, a client |
| `DaemonFlights.DoKeepsFlights` | internal/krb5c/flight.go:29-51 | Every action keeps the flight invariant: each unclosed flight has its leader at work, each table entry is its leader's, counts add up, closed flights have answers |
| `DaemonTgt.RenewalIsExclusive` | internal/krb5c/tgt.go:180-215 | In every run `renewing` is set exactly while some goroutine is between the two critical sections of a renewal, there is never a second one, and while a result is being swapped in the TGT held is still the very object the renewal started from |
| `DaemonTgt.DoKeepsRenewal` | internal/krb5c/tgt.go:180-215 | Every action keeps the renewal invariant, including that an object identity seen once can only ever mean that TGT |
| `DaemonTgt.WriteRenewals` | internal/krb5c/tgt.go:180-215 | Each write step keeps, drops or freshly allocates the TGT, and enters or leaves a renewal only in the allowed ways |
| `DaemonTgt.StartIgnoresBackoff` | internal/krb5c/tgt.go:181-192 | Under the write lock a renewal starts if and only if none is running and a TGT is held, even where the retry time would forbid it |
| `DaemonOwner.TgtIsOwn` | internal/krb5c/tgt.go:172-179 | In every run with same-client renewals and one-owner source files, the TGT held is for the cache's own principal, whatever INITIALIZE, STORE or reload happened during an exchange |
| `DaemonOwner.DoKeepsOwner` | internal/krb5c/ops.go:436-453 | Every action keeps the owner invariant: candidate, loaded and installed TGTs fit the principal of the cache at that moment |
| `DaemonOwner.WriteKeepsOwner` | internal/krb5c/ops.go:464-486 | Each write step keeps the owner invariant inside its section, between two library calls |
| `DaemonSections.SectionIsAtomic` | internal/krb5c/krb5c.go:123-131 | From taking the write lock to giving it up, in every interleaving, the data changes exactly as one session operation (LoadNewer, RenewFinish, Store, Initialize, Remove) changes it, for the file that the section's own steps read and the failures they met; the process ends in it exactly when that operation loses the TGT |
| `DaemonSections.CleanSection` | internal/krb5c/tgt.go:82-99 | A section none of whose own library calls fails does the whole operation: the load completes, the swap or store happens, the cache is initialised |
| `DaemonSections.NoFailureMet` | internal/krb5c/tgt.go:261-331 | A goroutine whose own library calls all succeed meets no failure, whatever others meet |
| `DaemonSections.WriterIsAlone` | internal/krb5c/krb5c.go:123-131 | While a goroutine holds the write lock nobody else changes the data |
| `DaemonSections.ReloadSectionIsNewer` | internal/krb5c/tgt.go:261-331 | In every interleaving a reload keeps the TGT; or leaves none because one of its own calls failed; or installs the TGT of the entries it loaded, which is unexpired and ends strictly later exactly when those entries would themselves be adopted (always, on an unchanged file), the process ending there exactly when they hold none |
| `DaemonSections.NeverDown` | internal/krb5c/tgt.go:322-330 | In every run in which the file still holds a TGT when it is loaded, the process stays up |
| `DaemonSections.RenewalSectionReplacesStarted` | internal/krb5c/tgt.go:195-215 | In every interleaving the section that ends a renewal clears `renewing`; it replaces the TGT only if that is the object it started from, and then by the KDC's answer; with the answer there and no failing call it does replace it and resets the backoff; if the object changed meanwhile it changes nothing else |
| `DaemonSections.WriteStepRefines` | internal/krb5c/tgt.go:82-99 | Each single step inside a write section does its share of the session operation the section stands for, in the world met from there on |
| `DaemonSolo.SoloPassIsSequential` | internal/krb5c/tgt.go:128-155 | A goroutine that nobody interrupts ends its maintenance pass with exactly the data of the sequential pass in the world its own steps met: the decision under the read lock, the re-check under the write lock, the split renewal and a sweep that sees every stale entry add up to Maintain |
| `DaemonJobs.OperationsDoTheirJob` | internal/krb5c/ops.go:301-486 | In every run an operation that is over has stood, with the lock, at each section its request calls for, with its own arguments and in order, unless it was refused a context |
| `DaemonJobs.ServeStep` | internal/krb5c/ops.go:327-335 | With a valid TGT a RETRIEVE joins the flight of its own key or starts one for its own request; without one it asks nothing |
| `DaemonJobs.LookupStep` | internal/krb5c/ops.go:355-362 | A running lookup appends the tickets it obtains; when it is over its answer becomes the flight's |
| `DaemonCache.CacheAgreement` | internal/krb5c/tgt.go:54-99 | In every run, whenever no writer holds the lock: the cache holds at most one own TGT and it is `c.tgt` with the renewable bit cleared, exactly unless a reload that failed after storing the TGT has not been made up for; readers imply no writer; without library failures there is no such reload |
| `DaemonCache.ReaderSeesClearedTgt` | internal/krb5c/tgt.go:40-53 | An own TGT that a reader finds has the renewable bit clear and otherwise equals the remembered TGT |
| `DaemonCache.DoKeepsCache` | internal/krb5c/tgt.go:317-328 | Every action keeps the agreement or stands at a known intermediate point of a swap or a load |
| `DaemonCache.WriteKeepsGood` | internal/krb5c/krb5c.go:328-351 | Each write step takes the data from one known intermediate form to the next |
| `DaemonSweep.EvictionsHitOnlyStale` | internal/krb5c/tgt.go:380-420 | In every interleaving of sweeps, lookups and appends, an eviction loses only entries stale at that sweep's time under the TGT held now; all others stay, in order, and every local TGT and config entry is among them |
| `DaemonSweep.NoGoodTicketEvicted` | internal/krb5c/tgt.go:365-370 | In every interleaving no eviction loses a ticket that lives long enough beside the TGT held or, when none is held, has not ended |
| `DaemonSweep.ScanCollects` | internal/krb5c/tgt.go:395-407 | A scan collects the entry it is shown exactly when it may not be handed out any more |
| `DaemonSweep.StepKeepsSweeps` | internal/krb5c/tgt.go:384-412 | What a sweeping goroutine has collected stays stale whatever the other goroutines do, since the TGT cannot change under the read lock |
| `DaemonSweep.EvictionSpares` | internal/krb5c/tgt.go:65-76 | Removing the matches of a stale ticket leaves exactly the non-stale entries as they were |
| `DaemonSweep.ReadsAreSpaced` | internal/krb5c/tgt.go:128-141 | In every interleaving, with any clock readings, the i-th and j-th source reads are at least (j - i) check intervals apart |
| `DaemonFrame.WriteFrame` | internal/krb5c/tgt.go:128-215 | A step of the lock's writer changes data and history as WriteStep says and nothing else shared |
| `DaemonFrame.ReadFrame` | internal/krb5c/tgt.go:380-420 | A step under the read lock happens without a writer and changes at most the cache |
| `SessionLaws.SweepIsFilter` | internal/krb5c/tgt.go:380-420 | Collecting the stale entries and removing each by match leaves exactly the non-stale entries, in order |
| `SessionLaws.MatchSharesStaleness` | internal/krb5c/tgt.go:399-401 | Entries that match exactly are stale together |
| `SessionLaws.SweptTicketLives` | internal/krb5c/tgt.go:365-401 | A sweep keeps a service ticket if and only if it has positive life of at least min(minLife, remaining TGT life) or, without a TGT, has not ended |
| `SessionLaws.SweepSparesTheRest` | internal/krb5c/tgt.go:395-401 | A sweep keeps every local TGT and every config entry, and adds nothing |
| `SessionLaws.StaleMeans` | internal/krb5c/tgt.go:399-401 | What is evicted, said by the life left: a service ticket that may not be handed out any more |
| `SessionLaws.PeekAgreesWithLoad` | internal/krb5c/tgt.go:334-363 | loadFrom finds the very TGT peekTGT found, and the cache is that TGT with the renewable bit cleared among the file's unexpired, non-config, non-local-TGT credentials, in file order |
| `SessionLaws.AdoptionIsNewer` | internal/krb5c/tgt.go:299-330 | A reload that does not get through keeps the TGT or, after a failed load, leaves none; one that does installs the first local TGT loaded, newer exactly when the loaded entries would themselves be adopted, and always on an unchanged file |
| `SessionLaws.MissingTgt` | internal/krb5c/tgt.go:322-330 | The TGT that the end of a reload uses is missing exactly when every call went through and the entries loaded hold no local TGT; never on an unchanged file |
| `SessionLaws.EmptiedFile` | internal/krb5c/tgt.go:322-330 | An instance: any adoptable file that is emptied between the two reads |
| `SessionLaws.RewrittenFile` | internal/krb5c/tgt.go:303-328 | An instance: a file rewritten between the two reads puts an expired TGT in place |
| `SessionLaws.SwapClearsOwnTgt` | internal/krb5c/tgt.go:87-91 | Removing the previous TGT by exact match clears every own TGT although the cached flags differ |
| `SessionLaws.SetTGTKeepsAgreement` | internal/krb5c/tgt.go:82-99 | A swap keeps the agreement of cache and remembered TGT, whichever library call fails |
| `SessionLaws.StoreKeepsAgreement` | internal/krb5c/ops.go:422-459 | STORE keeps the agreement for every credential, malformed ones and other clients' TGTs included |
| `SessionLaws.RemovalKeepsConsistent` | internal/krb5c/ops.go:398-415 | Removing entries by any criterion keeps the agreement |
| `SessionLaws.LoadAllKeepsConsistent` | internal/krb5c/krb5c.go:302-351 | Loading a file of any contents keeps the agreement with the TGT found so far |
| `SessionLaws.ReloadAgreement` | internal/krb5c/tgt.go:317-328 | A reload keeps the agreement if and only if it does not fail after storing a TGT that is the file principal's own |
| `SessionLaws.TornReloadHappens` | internal/krb5c/tgt.go:321-326 | Such a failing reload exists: a one-entry file whose read fails at the end |
| `SessionLaws.TornReloadLeavesOne` | internal/krb5c/tgt.go:321-326 | After it no TGT is remembered but an own one is in the cache |
| `SessionLaws.StoreAfterTorn` | internal/krb5c/ops.go:436-453 | A TGT stored after that joins the leftover one: two own TGTs, no agreement |
| `SessionLaws.RemoveAfterTorn` | internal/krb5c/ops.go:411-414 | A removal then restores the agreement exactly when it matches every leftover |
| `SessionLaws.InitializeAgrees` | internal/krb5c/ops.go:464-486 | INITIALIZE restores the agreement from any state |
| `SessionLaws.FreshLoadAgrees` | internal/krb5c/tgt.go:317-329 | So does a reload that gets through |
| `SessionLaws.ConsistentMeans` | internal/krb5c/tgt.go:54-60 | The agreement says that the cache's own TGTs are none, or the remembered one alone with the bit cleared |
| `Timing.NoOversleeping` | internal/krb5c/policy.go:76-93 | From any time before half-life the wakes reach the half-life exactly, after ceil((half-life - now) / maxSleep) of them, and a renewal is wanted there |
| `Timing.SleepsAdvance` | internal/krb5c/tgt.go:426-447 | After i wakes the clock stands i full sleeps on or at the half-life, with TGT and backoff untouched |
| `Timing.OutageAttempt` | internal/krb5c/policy.go:97-107 | With the KDC out from half-life on, for any number of passes: while the k-th retry time lies before the end the loop stands exactly at it, with backoff min(30s * 2^(k-1), 10min) after k failures and a renewal wanted; afterwards the TGT has ended; the attempts are counted exactly |
| `Timing.OutageAttemptsExactly` | internal/krb5c/policy.go:76-107 | Pass k starts a renewal if and only if the k-th retry time lies before the end of the TGT, and does so at exactly that time |
| `Timing.OutageBound` | internal/krb5c/policy.go:60-107 | An outage from half-life on sees at least ceil(W / 10min) attempts before expiry, W being at least half the lifetime |
| `Timing.OutageFromAnyTime` | internal/krb5c/tgt.go:426-447 | The same from any time before half-life: sleep to exactly the half-life, then ceil(W / 10min) attempts, all before the TGT ends |
| `Timing.TgtNeverLapses` | internal/krb5c/tgt.go:422-447 | As long as the KDC renews with tickets that still have a half-life ahead, at every wake-up of a loop of any length the TGT held is unexpired and not past its half-life, with no retry pending |
| `Timing.WellPass` | internal/krb5c/tgt.go:203-215 | One pass and wake-up keep the loop on time: before half-life the TGT stays, at half-life the KDC answer takes over |
| `Timing.NewTgtIsOnTime` | internal/krb5c/policy.go:109-112 | However a TGT comes in, by a swap or by adopting the file, no old backoff delays its renewal |
| `Timing.HalfLife` | internal/krb5c/policy.go:60-66 | The renewal point lies in the life of the ticket and leaves at least half of it |
| `CredentialLaws.HalfLifeIsExact` | internal/krb5c/policy.go:60-66 | The renewal point is exactly the middle between the beginning and the end of the life, for every ticket |
| `CredentialLaws.LifeStart` | internal/krb5c/policy.go:61-64 | The life begins at the start time, or at the authentication time when there is none |
| `CredentialLaws.RenewalIsDue` | internal/krb5c/policy.go:44-70 | A renewal is due exactly when the renewable bit is set, renew_till is later than the end time, the ticket has not ended and half its life is over |
| `CredentialLaws.TimesKeepOrder` | internal/krb5c/krb5c.go:355-360 | Timestamps keep order and distance as unsigned seconds; zero is the zero time, before all others |
| `CredentialLaws.OnlyTheBit` | internal/krb5c/tgt.go:54-60 | Clearing the renewable bit changes nothing else |
| `CredentialLaws.LocalTgtMeans` | internal/krb5c/policy.go:126-135 | A local TGT is one for krbtgt/R@R with R the realm of its client |
| `CredentialLaws.TgtServerMeans` | internal/krb5c/krb5c.go:460-466 | A ticket-granting service has exactly two components, krbtgt first, in any realm |
| `CredentialLaws.ConfigMeans` | internal/krb5c/krb5c.go:328-331 | A config entry is krb5_ccache_conf_data, with anything after it, in realm X-CACHECONF: |
| `CredentialLaws.ExactMatchMeans` | internal/krb5c/tgt.go:62-76 | An exact match is the same credential but for key, flags, ticket and name types |
| `CredentialLaws.RemoveNamedMeans` | internal/krb5c/ops.go:411-414 | Removal by names drops exactly the entries with both names; the others stay, in order |
| `OperationLaws.LooksMeans` | internal/krb5c/tgt.go:128-161 | A pass looks at the file exactly when no TGT is held or it is half spent or has less than the least life left, and the last look is five seconds ago or more |
| `OperationLaws.LoginIsNoticed` | internal/krb5c/tgt.go:299-330 | When a pass looks and the unchanged file's first local TGT is unexpired and ends later than the one held: before any renewal the daemon holds exactly that TGT, the file's principal, and exactly the file's unexpired service tickets beside it |
| `OperationLaws.NoNewsNoChange` | internal/krb5c/tgt.go:299-316 | Otherwise, whatever else happens, nothing but the time of the look changes |
| `OperationLaws.LookIsRecorded` | internal/krb5c/tgt.go:261-265 | The recorded time of the last look, over a whole pass |
| `OperationLaws.LoginEndsExpiry` | internal/krb5c/tgt.go:106-114 | After such a login the pass ends with a valid TGT |
| `OperationLaws.RenewalMeans` | internal/krb5c/tgt.go:165-215 | A renewal is tried exactly for a half-spent TGT from the retry time on when none is running; what an answer, a failed swap and no answer then change |
| `OperationLaws.InitializeMeans` | internal/krb5c/ops.go:464-486 | INITIALIZE p: empty cache for p, no TGT, no backoff, all else unchanged; on failure nothing changes |
| `OperationLaws.SwapMeans` | internal/krb5c/tgt.go:82-99 | A swap remembers a new object and caches it behind exactly the entries the old TGT does not match; a failed one keeps the TGT remembered |
| `OperationLaws.SwapKeepsTickets` | internal/krb5c/tgt.go:82-99 | A swap of local TGTs leaves every other entry in its place |
| `OperationLaws.StoreMeans` | internal/krb5c/ops.go:430-458 | An own local TGT is swapped in; anything else that unmarshals is put at the end unchanged; otherwise nothing changes |
| `OperationLaws.KinitTakesOver` | internal/krb5c/ops.go:417-421 | INITIALIZE p followed by STORE of a local TGT for p holds exactly that TGT |
| `OperationLaws.WakeMeans` | internal/krb5c/policy.go:76-93 | Ten minutes without a TGT worth renewing; one second when a renewal is due and no retry time lies ahead |
| `Timing.QuietPass` | internal/krb5c/tgt.go:128-155 | A pass that finds no newer file survives, and leaves TGT and backoff alone unless a renewal is wanted, and then a failing KDC only moves the backoff |
| `Engine.Client.Open` | internal/krb5c/krb5c.go:179-249 | Fails exactly when the owner cannot be told or is not the required one, the file is unusable, or initialising or loading fails; otherwise the cache and TGT are what loading the file gives, with a default minimum life of five minutes and no reads or backoff on record |
| `Engine.Client.NoteRenewFailure` | internal/krb5c/policy.go:97-107 | Updates the two backoff fields as the specification whose k-fold value OutageAttempt gives, and nothing else |
| `Engine.Client.ResetRenewBackoff` | internal/krb5c/policy.go:109-112 | Clears the backoff and nothing else |
| `Engine.Client.NextWake` | internal/krb5c/policy.go:76-93 | Computes the wake-up that NoOversleeping and OutageAttempt are about; it lies after now and within maxSleep (Session.NextWake) |
| `Session.NextWake` | internal/krb5c/policy.go:76-93 | The next wake is strictly later than now and at most ten minutes later, in every state |
| `Engine.Client.SetTGT` | internal/krb5c/tgt.go:82-99 | The whole new state of a swap for each library failure, and success exactly when nothing that was called failed |
| `Engine.Client.StoreTGT` | internal/krb5c/tgt.go:54-60 | Appends the TGT with the renewable bit cleared |
| `Engine.Client.PeekTGT` | internal/krb5c/tgt.go:334-363 | The loop finds the file's first local TGT |
| `Engine.Client.LoadFrom` | internal/krb5c/krb5c.go:302-351 | The loop stores what LoadAll says, and on a failure exactly the part before it |
| `Engine.Client.LoadNewerTGT` | internal/krb5c/tgt.go:261-331 | The throttled adoption, with the file read twice; it reports a missing TGT exactly when the specification says the reload loses it |
| `Engine.Client.AdoptFile` | internal/krb5c/tgt.go:317-331 | The part after re-initialisation: the loaded part on failure, the loaded cache and TGT otherwise |
| `Engine.Client.Sweep` | internal/krb5c/tgt.go:380-420 | The two loops leave exactly the non-stale entries in order |
| `Engine.Client.RenewTGT` | internal/krb5c/tgt.go:180-215 | Both critical sections with nobody between them: no change if busy or without TGT, otherwise RenewFinish; success is reported exactly when a renewal started, the KDC answered and the swap went through |
| `Engine.Client.Maintain` | internal/krb5c/tgt.go:128-155 | Reload, then renew, then sweep, each on its own condition; the process survives exactly unless the reload loses the TGT |
| `Engine.Client.Run` | internal/krb5c/tgt.go:426-447 | One pass per wake-up, each at the time the last pass chose, for as long as the process survives |
| `Engine.Client.Store` | internal/krb5c/ops.go:422-459 | A local TGT whose client text is the cache principal's becomes the TGT; everything else that unmarshals is appended unchanged; success is reported exactly when the wire form unmarshals and the swap or the store goes through |
| `Engine.Client.Initialize` | internal/krb5c/ops.go:464-486 | On success an empty cache whose principal has the text asked for, no TGT, no backoff; on failure everything as it was |
| `Engine.Client.RemoveMatching` | internal/krb5c/ops.go:398-415 | Drops exactly the entries for the server asked for and the client asked for or else the cache's own, leaves `c.tgt` alone, reports whether there were any, and fails exactly when no server is named |
| `Engine.Client.Retrieve` | internal/krb5c/ops.go:301-363 | Which answer comes when, exactly: refused for a ticket-granting ticket, expired without a valid TGT (never after a fresh login), bad request without a server, not found for a config entry, the cache's entry if the library hits one with the names asked for, what the KDC gave otherwise, failed if it gave nothing; a cached answer is no ticket-granting ticket and lives min(minLife, remaining TGT life) or longer |
| `Engine.Client.ListEntries` | internal/krb5c/ops.go:94-129 | After a maintenance pass: every non-config entry in order, UUID from the true credential, TGTs redacted |
| `Engine.Client.WalkEntries` | internal/krb5c/ops.go:35-67 | The walk over the cache builds that list |
| `Engine.Client.EntryByUUID` | internal/krb5c/ops.go:132-166 | After a maintenance pass: the first entry whose true credential has that UUID, as the listing shows it |
| `Engine.Client.FindEntry` | internal/krb5c/ops.go:145-161 | The walk stops at that entry, or finds none |
| `Engine.Client.MarshalTGTForListing` | internal/krb5c/krb5c.go:444-458 | The key is blanked; a local TGT gets the remembered flags |
| `Listing.ByUuidAgreesWithList` | internal/krb5c/ops.go:132-166 | EntryByUUID(u) is the first ListEntries entry with that UUID, and none exactly when the list has none |
| `Listing.OwnTgtIsListedKeyless` | internal/krb5c/krb5c.go:444-458 | Under the agreement of cache and TGT, the own TGT is listed as `c.tgt` with its real flags and an empty key |
| `Listing.ListingHidesTgtKeys` | internal/krb5c/ops.go:106-124 | Listed wires and servers are equal for any two caches that differ only in keys of ticket-granting tickets |
| `Listing.ListedMeans` | internal/krb5c/ops.go:94-129 | A listing shows every entry but the config ones, in order: own server, UUID of the true credential, whole if a service ticket, otherwise without key and with the remembered flags if it is the local TGT |
| `ConfigEntries.StoreConfig` | internal/krb5c/ops.go:422-459 | From a config-free cache STORE leaves a config-free cache if and only if it is not given a config entry that the library stores |
| `ConfigEntries.StoredConfigHappens` | internal/krb5c/ops.go:455-458 | An instance from any config-free state: storing a credential for the config principal |
| `ConfigEntries.LoadConfig` | internal/krb5c/krb5c.go:328-331 | A source file brings no config entry in, whatever it holds |
| `ConfigEntries.OthersStayConfigFree` | internal/krb5c/ops.go:346-350 | Nor does a reload however it goes, a sweep, a removal, an initialisation, or a renewal whose answer is a ticket |
| `ConfigEntries.ConfigIsHidden` | internal/krb5c/ops.go:50-53 | A config entry in the cache is never listed, never found by UUID and never swept |
| `ConfigEntries.ConfigVerdictSurvivesText` | internal/krb5c/ops.go:351-353 | Whether a request names a config entry is the same before and after the text round trip |
| `DaemonConfig.ConfigComesFromStore` | internal/krb5c/ops.go:455-458 | In every run, a step takes a config-free cache to one that is not if and only if it is the successful store of a config credential |
| `DaemonConfig.NoStoreNoConfig` | internal/krb5c/ops.go:346-350 | In every run in which no client stores a config entry the working cache never holds one |
| `Coalescing.MatchKeyExact` | internal/krb5c/ops.go:368-384 | Two requests share a key if and only if they agree on the client text (an absent client counting as empty), the server text, whether a session key is given and its enctype, is_skey, and whether a non-empty second ticket is given and its bytes |
| `Coalescing.TemplateMeans` | internal/krb5c/ops.go:215-281 | There is a template exactly when a server is named; it holds the request's names, or the cache's own principal for an absent client, the enctype exactly when a session key is given, and the second ticket exactly when it is not empty |
| `Coalescing.SharedKeySharesTemplate` | internal/krb5c/ops.go:215-281 | Requests with equal keys build equal templates for every cache principal if and only if they agree on whether a server and, given one, a client was named |
| `Coalescing.EmptyClientIsConflated` | internal/krb5c/ops.go:368-373 | One conflation: an absent client and a client with empty text share a key but not a template |
| `Coalescing.EmptyServerIsConflated` | internal/krb5c/ops.go:243-249 | The other: an absent server, which is an error, shares a key with a server of empty text, which has a template |
| `Coalescing.DecimalInjective` | internal/krb5c/ops.go:374-376 | The printed enctype determines the enctype, negative ones included |
| `Coalescing.CutAtNul` | internal/krb5c/ops.go:369-373 | Texts without NUL joined by NUL split in one way only |
| `Names.NameRoundTrip` | internal/kcmproto/principal.go:80-113 | A reference parser for the quoting rules recovers components and realm from the text of every principal (no components read as one empty component) |
| `Names.TextCollisions` | internal/kcmproto/principal.go:80-113 | Two principals have the same text if and only if they agree on realm and components, up to no components against one empty component |
| `Names.TextHasNoNul` | internal/kcmproto/principal.go:94-113 | The text never contains NUL |
| `Names.TGTVerdictSurvivesText` | internal/krb5c/krb5c.go:404-417 | Rebuilding a principal from its text never fails and never changes whether it names a ticket-granting service |
| `Names.RebuiltName` | internal/krb5c/krb5c.go:404-417 | The rebuilt principal has the same text, realm and components (no components becoming one empty one) |
| `Names.PrincipalBytes` | internal/kcmproto/principal.go:24-34 | The byte form of one principal written out: type, count, realm, component |
| `Names.UnparseName` | internal/kcmproto/principal.go:80-92 | The loop builds the text form that NameRoundTrip inverts |
| `Names.EscapeComponent` | internal/kcmproto/principal.go:94-113 | The loop escapes byte by byte as the form FieldRoundTrip inverts |
| `Names.PlainStaysPlain` | internal/kcmproto/principal.go:97-110 | Escaping leaves a string alone exactly when it has none of the seven quoted bytes |
| `Names.TextBytes` | internal/kcmproto/principal.go:80-92 | Three texts written out: with realm, without one, with a quoted slash |
| `Names.FieldRoundTrip` | internal/kcmproto/principal.go:94-113 | Reading an escaped field gives the field back and stops at the separator after it |
| `Names.MarshalPrincipal` | internal/kcmproto/principal.go:24-34 | The loop builds the byte form that PrincipalRoundTrip inverts |
| `Names.UnmarshalPrincipal` | internal/kcmproto/principal.go:39-74 | The cursor loop decodes exactly as DecodePrincipal, with the length consumed, and rejects exactly what it rejects |
| `Names.PrincipalRoundTrip` | internal/kcmproto/principal.go:24-74 | Decoding an encoding plus any suffix gives the principal back and stops at the suffix |
| `Names.PrincipalConverse` | internal/kcmproto/principal.go:39-74 | Whatever decodes is the encoding of its result followed by the rest |
| `Names.OversizeNeverSurvives` | internal/kcmproto/principal.go:25-32 | A principal with a length that does not fit 32 bits never survives the round trip |
| `Matching.UnmarshalMatchCredential` | internal/kcmproto/match.go:65-172 | The field-by-field decoder agrees with DecodeMatch on every input, errors included, reading in bounds |
| `Matching.UnmarshalHead` | internal/kcmproto/match.go:73-108 | The optional principals and session key, present exactly when their header bits are set |
| `Matching.UnmarshalFixed` | internal/kcmproto/match.go:110-132 | The loop over the four times, is_skey and ticket flags, in order |
| `Matching.UnmarshalTail` | internal/kcmproto/match.go:134-169 | Lists are skipped, tickets kept, in wire order |
| `Matching.SkipAddressOrAuthdataList` | internal/kcmproto/match.go:178-198 | The loop stops right after the list, or fails exactly when the list is cut off |
| `MatchCodec.MatchRoundTrip` | internal/kcmproto/match.go:65-172 | For all 128 header combinations, any reserved bits and arbitrary lists, decoding a reference encoding plus any suffix gives exactly the retained fields and stops at the suffix |
| `MatchCodec.StrictPrefixRejected` | internal/kcmproto/match.go:65-172 | Every strict prefix of an encoding is rejected |
| `MatchCodec.MatchExtends` | internal/kcmproto/match.go:65-172 | More input never changes what was decoded |
| `MatchCodec.HeaderBits` | internal/kcmproto/match.go:17-25 | The seven presence bits of a header read back independently, whatever the reserved bits |
| `Wire.ReadAfterPut32` | internal/kcmproto/wire.go:113-125 | Reading a written 32-bit word gives it back and stops behind it |
| `Wire.PutAfterRead32` | internal/kcmproto/wire.go:113-125 | Writing a word that was read gives the bytes back |
| `Wire.ReadAfterPut16` | internal/kcmproto/match.go:53-58 | Reading a written 16-bit word gives it back and stops behind it |
| `Wire.NetworkOrder` | internal/kcmproto/wire.go:113-125 | Words go most significant byte first, both ways |
| `Wire.LowBits` | internal/kcmproto/principal.go:25-32 | The integer conversions keep the low 32 bits |
| `Wire.CountedRoundTrip` | internal/kcmproto/match.go:97-107 | A length-prefixed field reads back and stops behind it |

## Left out

- The command line, sockets, signals and peer checks of cmd/kcmexd and internal/server, and the request dispatch: one-branch forwarding.
- Log text, name tables, credential summaries and synthetic credentials (internal/krb5c/describe.go, internal/krb5c/synth.go, internal/kcmproto/names.go).
- UUID lists, cache names and message framing of internal/kcmproto/wire.go: easy relatives of the codecs proved here.
- libkrb5 itself: the TGS exchange, marshalling, cursor generations, memory management. A marshalled credential is a free constructor, and uuidOf an arbitrary function of it.
- A name without a realm: krb5_parse_name would substitute the default realm; the model keeps the empty one.
- RemoveByUUID: in the step machine it is a removal by the client and server of some entry; its search by UUID is EntryByUUID's.
- Failures of the marshalling calls inside listings and of the cursor calls inside sweeps: a listing then returns an error, a sweep stops collecting early (the step machine does let a sweep stop anywhere).
- Panics inside a flight's lookup: library calls return. The one panic modelled is that of internal/krb5c/tgt.go:330.
- Retry spacing when several goroutines run maintenance at once: renewTGT re-checks only `renewing` and the presence of a TGT (internal/krb5c/tgt.go:181-192), so the code does not promise it (DaemonTgt.StartIgnoresBackoff gives the early start). The Timing theorems are about one loop.
- Go's saturation of durations and times beyond the 64-bit range, slice capacity and allocation.
- DaemonSolo.SoloPassIsSequential: asks for a sweep whose scan shows every stale entry and whose evictions succeed; in the step machine a sweep may miss entries, and DaemonSweep.EvictionsHitOnlyStale covers it then.
- Fairness: deadlock freedom says that something can move, not that every operation gets its turn.
- Engine.Client.Retrieve: says nothing about the lifetime of tickets the KDC has just issued; covers requests handled one at a time.
- Names.PrincipalRoundTrip: for encodings under 2^32 bytes in all, which the message limit guarantees.
- MatchCodec.MatchRoundTrip: for encodings under 2^32 bytes in all, which the message limit guarantees.
