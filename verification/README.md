# Formal model of vocy's lock, limiter, configuration and start-up transformations

The backend of vocy keeps at most one serving process by means of a lease in its database, limits
requests per client address, caches a configuration over a table shared with other processes, runs
its services side by side, and rewrites a few names and connection parameters. This project models
those parts in Dafny and proves what they are for.

`dafny verify dfyconfig.toml` checks everything.

## Modules

| module | subject |
|---|---|
| `AppLock` | the `kv` row, its four guarded statements, `AppLockService` and `Bootstrap` |
| `LockProtocol` | any number of processes taking these steps in any interleaving |
| `LockTiming` | what the constants (30 s, 20 s, 3 attempts of 3 s, 1 s pauses, whole seconds) guarantee |
| `LockRuns` | concrete runs at the edge of each guarantee |
| `RateLimit` | token buckets in a map that forgets idle clients, against one that never forgets |
| `AppConfigModel`, `AppConfigService` | the configuration fields, and the cache over the table |
| `InstanceId` | the instance ID over restarts, updates and changes of mode |
| `ConfigSnapshots` | updaters of several processes, with the store after the commit |
| `ServiceRunner` | goroutines, one unbuffered channel, one cancel flag |
| `StringUtil` | camel case to snake case |
| `RandomString` | rejection sampling from a random source |
| `SqliteParams` | the rewriting of SQLite query parameters |
| `Sequences` | a fact about concatenation |
| `Wrappers` | `Option` and `Result` |

Code that changes state is a class with methods, each proved against a specification function; the
theorems are then lemmas about these functions and about transition systems built from them.

## Assumptions

- The lock: one clock for all processes; the read and the write of Acquire are one atomic
  transaction; a statement that times out is applied before its timeout or never; each process calls
  Acquire once. `AttemptMatchesService`, `CommitMatchesService`, `LifeBegins` and `LifeEnds` tie the steps
  of the transition system to `AppLockService` and `Bootstrap`.
- `LockTiming` also assumes that the timers of the process under study fire on time (`Punctual`);
  `delta` bounds the time from Acquire's timestamp to the start of the ticker. The other processes
  are not restricted.
- `RateLimit`: a bucket is exact, in real numbers, and counts its tokens as seconds of refill.
  A request may do anything between `getLimiter` and `Allow`, which are at most `g` seconds apart.
- `AppConfigService`: what the environment, the secret files and the database's failures are comes
  in as parameters (`Env`, `Fault`). The table may be listed in any order. `EnvCacheAgreesIff` takes the
  keys of the fields to be distinct, as those of the source are, and a reload in the same environment.
- `InstanceId`: one process at a time; restarts, form updates and value updates in any order, any of
  which may fail, and no value update names the ID.
- `SqliteParams`: the query is a map from keys to lists of values; the order in which Go walks it is a
  parameter, and theorems hold for every order.

## Findings

Five statements one might expect do not hold of the code. Each has its exact condition and, where that
does not show it already, a witness.

1. A process whose row has been stolen by force is not always out of `RunRenewal` when the thief's
   wait ends, even if its first attempt after the theft is answered within its timeout. The answer of
   attempt k, if it takes at most b (and never more than the 3 s timeout), is in time for every startup
   delay up to delta exactly if b, delta and k times 4 s make up at most 13 s (`AnswerInTimeIff`). With a
   startup delay of at most a second the first two attempts are always in time, and a third one is if
   it is answered within a second less the delay. Where the sum is exceeded by a millisecond
   `LateAnswer` gives a run in which the thief has started. The overlap is always less than two seconds
   plus the startup delay of a first round (`OverlapBound`).
2. One acknowledged attempt in every round does not suffice to keep the lock, even if nobody forces. The
   lock is safe exactly if the startup delay is at most a second and third attempts reach the row within
   two seconds less that delay (`RetentionIff`). A slower third attempt can find a plain takeover
   (`LateThirdAttemptLosesLock`); after a delay of 1.001 s a third attempt finds its own lease expired,
   however prompt it is (`LateStartLosesLock`).
3. A committed instance ID can change without anyone asking. With the UI disabled the error of reading
   an internal value is dropped (`app_config_service.go:366-376`), the ID then looks empty and a new
   one is written, even by a start that then reports an error. This is the only way (`IDIsKeptIff`,
   witness `FailedReadLosesID`).
4. After an update the cached configuration is not always what a reload gives. With the UI enabled it is
   exactly if every key last written as empty has an empty default (`CacheAgreesIff`, witness
   `BlankedDefaultDisagrees`). With the UI disabled, where only internal keys can be written, the same
   holds if these can be read; if they cannot, it is exactly if each is set to its default or blanked
   (`EnvCacheAgreesIff`).
   Updates of one process that overlap can also store in the opposite order of their commits
   (`StaleRun`). Pending stores end with the latest state in whatever order they come exactly if none of
   them holds another one (`EveryCompletionIsLatestIff`), and this stays so over a run exactly if no
   step commits while another thread has yet to store, reads past what such a thread holds, or gives up
   the last store while the cache is behind (`NeverStaleIff`).
5. A rejected byte is not always made up for by a fresh one. Draws are read at their number modulo the
   length, so the draws of a fill that follow its first n read the same bytes again (`SharedBytes`,
   `EveryFillRepeats`), and the bytes of a fill beyond n are never read (`TailOfFillUnread`). Every fill
   adds to the string what its first n draws yield and then a beginning of that again (`FillYields`), and
   two characters come from the same byte exactly if their draws are n apart in one fill
   (`CharactersShareByteIff`). If the first fill is enough, the end of the string repeats its beginning,
   by as many characters as bytes are rejected among the first n (`TailRepeatsHead`, `RejectsIff`,
   witness `RepeatedCharacter`). The comment on a uniform distribution (`string_util.go:53-54`) does not
   hold for such strings.

A failed update leaves the cache alone, but not always the table: a commit may take effect and answer with
an error, and the table is then what success would have left. No other error changes it.

A SQLite connection string with both `_pragma` and `_fk` can be accepted or rejected, by the order in
which Go walks its map (`WalkDecides`).

Also: the comment on `Acquire` says that a forced acquisition blocks until the previous lock has
expired; the code returns the time and the caller waits. The model follows the code. A forced acquirer
that waits ten seconds or more can never renew (`LongWaitNeverRenews`); `Bootstrap` does not force.

## Model

| member | source | states |
|---|---|---|
| AppLock.GuardsExclusive | backend/internal/service/app_lock_service.go:116-132 | for one row and one clock value a renewal and a takeover are never both possible, and neither is exactly in the stored second |
| AppLock.AppLockService.Acquire | backend/internal/service/app_lock_service.go:75-165 | row and answer in every case: refused, taken over, forced with or without a wait, rolled back, committed but reported as an error; the second to wait for is the stolen expiry, and there is one exactly if force takes an unexpired row from another process |
| AppLock.AppLockService.Renew | backend/internal/service/app_lock_service.go:227-296 | every attempt before the last has failed with the context live; the round is cancelled exactly if its last attempt failed, was not the third and the context is done, gives up exactly if the third failed, and an answer means renewed or lost by the row it met, to which the statement is applied unless it never ran |
| AppLock.DecidesMeans | backend/internal/service/app_lock_service.go:271-293 | the attempt at which a round ends is the first that is answered, or after which the context is done, or the third; the result of each kind of ending |
| AppLock.AppLockService.RunRenewal | backend/internal/service/app_lock_service.go:168-182 | every round before the last has renewed; the loop ends with the first error, and the row is as the last round left it |
| AppLock.AppLockService.Release | backend/internal/service/app_lock_service.go:185-224 | another process's row stays; an error is reported exactly if no answer arrives |
| AppLock.Bootstrap | backend/internal/bootstrap/boostrap.go:17-102 | exit, row and start time of every life: a process that gives up its wait leaves its row to expire; one that gets past it starts at the expiry it has stolen, or at once, and releases its row last, also when startup fails, leaving another process's row alone |
| LockProtocol.StepKeepsInv | backend/internal/service/app_lock_service.go:75-296 | every step of every process keeps the protocol's invariant |
| LockProtocol.RunKeepsInv | backend/internal/service/app_lock_service.go:75-296 | the invariant holds in every state of every run |
| LockProtocol.MutualExclusion | backend/internal/bootstrap/boostrap.go:56-101 | in every run, whatever is stolen, lost, retried or abandoned, at most one process is between the end of its wait and its last known expiry or release |
| LockProtocol.LaterStartsAfterEarlierExpiry | backend/internal/service/app_lock_service.go:151-153 | a later acquirer past its wait has started no earlier than any expiry an earlier, still active one has written, acknowledged or not |
| LockProtocol.ExpiryNeverDecreases | backend/internal/service/app_lock_service.go:101-109 | between releases no step moves the row's expiry back, although timestamps are older than their statements |
| LockProtocol.TakeoverOnlyAfterExpiry | backend/internal/service/app_lock_service.go:116-132 | the row changes hands only by a committed acquisition, and without force only a full second after the stored expiry or later |
| LockProtocol.AttemptMatchesService | backend/internal/service/app_lock_service.go:229-293 | a renewal attempt of the service is a statement step and a reply step of the protocol, with the same row and the same continuation |
| LockProtocol.CommitMatchesService | backend/internal/service/app_lock_service.go:137-153 | a commit step writes the row that Acquire writes and goes on to the wait that Acquire returns |
| LockProtocol.LifeBegins | backend/internal/bootstrap/boostrap.go:56-65 | for every life the protocol's step for Acquire leaves the row and the exit that Bootstrap leaves, and the wait can end at exactly the times at which Bootstrap may go on |
| LockProtocol.LifeEnds | backend/internal/bootstrap/boostrap.go:67-74 | whatever its services have come to, the last step of a process that has started leaves the row that Bootstrap leaves |
| LockTiming.NoTickDropped | backend/internal/service/app_lock_service.go:168-181 | a punctual round is over 11 s after its tick, so ticks come every 20 s without a gap |
| LockTiming.OverlapBound | backend/internal/service/app_lock_service.go:23-28 | a punctual process is out of RunRenewal less than 2 s (plus the startup delay before the first renewal) after any later acquirer's wait ends |
| LockTiming.NoOverlapBeforeTail | backend/internal/service/app_lock_service.go:227-296 | for every startup delay there is no overlap outside the stretch in which delay, attempts and answer have used up the 13 s that the first lease leaves |
| LockTiming.TailIsLate | backend/internal/service/app_lock_service.go:227-296 | with a startup delay of at most a second this stretch is the third attempt once it has taken a second less the delay |
| LockTiming.Retention | backend/internal/service/app_lock_service.go:227-281 | if nobody forces, the startup delay is at most a second, third attempts are prompt and no round fails three times, no attempt over any number of ticks finds the row taken or expired, and the row is the process's own |
| LockTiming.LongWaitNeverRenews | backend/internal/service/app_lock_service.go:168-182 | a process whose ticker starts 10 s after its Acquire or later never renews |
| LockRuns.AnswerInTimeIff | backend/internal/service/app_lock_service.go:227-296 | for every startup delay, answers of attempt k within a bound put a robbed process out before the thief's wait ends exactly if bound (at most 3 s), delay and 4 s for each attempt make up at most 13 s |
| LockRuns.LateAnswer | backend/internal/service/app_lock_service.go:229-293 | for every attempt, delay and latency that make up 13.001 s with its 4 s each, a run in which the answer comes when the thief has already started |
| LockRuns.LateThirdAttemptLosesLock | backend/internal/service/app_lock_service.go:229-293 | for every startup delay d up to a second, a run without force in which a third attempt that comes within 2.001 s less d loses the lock |
| LockRuns.LateStartLosesLock | backend/internal/service/app_lock_service.go:168-181 | with a startup delay of 1.001 s a third attempt finds its own lease expired, with nobody else around |
| LockRuns.RetentionIff | backend/internal/service/app_lock_service.go:227-296 | for every startup delay, without force the lock is never lost exactly if the delay is at most a second and third attempts reach the row within 2 s less the delay |
| LockRuns.EarlyReleaseBreaksExclusion | backend/internal/bootstrap/boostrap.go:61-74 | were Release registered before the wait, two processes could hold the lock |
| RateLimit.RateLimitMiddleware.GetLimiter | backend/internal/middleware/rate_limit.go:73-85 | a known client keeps its limiter and is marked as seen; an unknown one gets a new full limiter; no other client changes |
| RateLimit.RateLimitMiddleware.CleanupClients | backend/internal/middleware/rate_limit.go:59-70 | exactly the clients idle for more than 180 s are forgotten, in whatever order the map is walked, and the others keep their limiters |
| RateLimit.RateLimitMiddleware.Allow | backend/internal/middleware/rate_limit.go:42-43 | a request is admitted exactly if what was left and the time since, together and up to the capacity, are worth a token, which is then taken; a refusal takes nothing |
| RateLimit.RateLimitMiddleware.Handle | backend/internal/middleware/rate_limit.go:32-50 | requests without an address, from localhost or in the test environment pass and change nothing; others take the two steps of the model |
| RateLimit.SimulatedRun | backend/internal/middleware/rate_limit.go:42-85 | from related states the evicting map and the one that never evicts answer alike, event by event |
| RateLimit.EvictionInvisibleIff | backend/internal/middleware/rate_limit.go:59-85 | forgetting clients changes no answer of any run exactly if burst * interval <= 180 s - g (or burst is 0) |
| RateLimit.CleanupsRemoved | backend/internal/middleware/rate_limit.go:59-85 | the same requests without the cleanups get the answers of a map that never evicts, for any bucket |
| RateLimit.EvictionInvisibleMeans | backend/internal/middleware/rate_limit.go:59-85 | comparing with the map that never evicts is comparing with the same run without its cleanups |
| RateLimit.InstalledLimiters | backend/internal/bootstrap/router_bootstrap.go:63-75 | both installed limiters are safe, exactly up to gaps of 150 s and 80 s |
| RateLimit.TwoBursts | backend/internal/middleware/rate_limit.go:59-70 | a run that admits two full bursts of one client on either side of a cleanup |
| RateLimit.AnswersAreThoseOfOneBucket | backend/internal/middleware/rate_limit.go:32-50 | an address gets the answers of one bucket of its own, whatever other clients and cleanups do |
| RateLimit.WindowBound | backend/internal/middleware/rate_limit.go:32-50 | in any closed window the admissions of one address, times the interval, are at most burst times the interval plus the window's length |
| RateLimit.RefusedIff | backend/internal/middleware/rate_limit.go:42-43 | its converse too: a request of an address is refused exactly if, for some moment since, its earlier admissions and itself, times the interval, exceed burst times the interval plus the time passed |
| AppConfigModel.AppConfig.FieldByKey | backend/internal/model/app_config.go:104-124 | the value and the internal mark of the first field with the key, or an error |
| AppConfigModel.AppConfig.UpdateField | backend/internal/model/app_config.go:126-157 | exactly the first field with the key changes, unless it is internal and that is forbidden |
| AppConfigModel.ListedFields | backend/internal/model/app_config.go:73-84 | the listed fields are exactly those with a key that are public or asked for, each once, in schema order |
| AppConfigModel.AppConfig.ToAppConfigVariableSlice | backend/internal/model/app_config.go:66-102 | exactly the listed fields, each once, in schema order, secrets masked where they must be |
| AppConfigModel.ShownMeans | backend/internal/model/app_config.go:86-91 | a value is masked exactly if it is a set secret, masking is asked for and the UI is disabled; any other is shown as it is |
| AppConfigService.UpsertLastWins | backend/internal/service/app_config_service.go:124-139 | after an upsert a key holds the last value written for it, or what it held before |
| AppConfigService.LastValueIs | backend/internal/service/app_config_service.go:124-139 | that is the value of the row with the key after which no other has it |
| AppConfigService.WrittenLastWins | backend/internal/service/app_config_service.go:264-274 | in memory a field holds its last written value, or the default if that is empty |
| AppConfigService.CacheAgreesIff | backend/internal/service/app_config_service.go:179-198 | with the UI enabled, after an update the cache equals a reload exactly if every key last written as empty has an empty default |
| AppConfigService.EnvCacheAgreesIff | backend/internal/service/app_config_service.go:260-280 | with the UI disabled, exactly if no readable internal key is blanked to a default that is not empty and every unreadable one is set to its default |
| AppConfigService.BlankedDefaultDisagrees | backend/internal/service/app_config_service.go:264-280 | blanking a key whose default is not empty leaves the default in memory and the empty string in the table |
| AppConfigService.EnvLoaded | backend/internal/service/app_config_service.go:352-403 | with the UI disabled every field has the value that the environment gives it, and loading fails only for a secret file |
| AppConfigService.EnvValueMeans | backend/internal/service/app_config_service.go:365-399 | an internal field has its row or default; any other its variable, even if empty, or else, if it is sensitive, the content of the file named, or else its default |
| AppConfigService.AppConfigService.LoadDbConfigInternal | backend/internal/service/app_config_service.go:316-350 | with the UI enabled loading fails exactly if the table cannot be read, a field whose key has a row gets its value and one without keeps its default, in whatever order the rows come; rows of no field are skipped |
| AppConfigService.EmptyTableGivesDefaults | backend/internal/service/app_config_service.go:324-349 | on a new installation every field has its default |
| AppConfigService.AppConfigService.LoadDbConfigFromEnv | backend/internal/service/app_config_service.go:352-403 | the loop gives the environment's configuration, internal fields coming from their rows where these can be read |
| AppConfigService.AppConfigService.LoadDbConfig | backend/internal/service/app_config_service.go:305-314 | the cached pointer changes exactly if loading succeeds |
| AppConfigService.AppConfigService.WritePairs | backend/internal/service/app_config_service.go:249-281 | either the first refused pair decides the error or all pairs are written in memory and collected as given |
| AppConfigService.PairsAre | backend/internal/service/app_config_service.go:249-251 | row n is the pair of arguments 2n and 2n + 1 |
| AppConfigService.RowRefusalMeans | backend/internal/service/app_config_service.go:253-262 | a key is bad exactly if no field has it, and forbidden exactly if the UI is disabled and its field is not internal |
| AppConfigService.RefusalIsFirst | backend/internal/service/app_config_service.go:249-262 | the error is that of the first pair refused |
| AppConfigService.ValuesSucceedIff | backend/internal/service/app_config_service.go:221-298 | an update succeeds exactly if its arguments are even, nothing it depends on fails, and every key may be written |
| AppConfigService.ValuesErrorIs | backend/internal/service/app_config_service.go:221-298 | which error it returns otherwise |
| AppConfigService.AppConfigService.WriteForm | backend/internal/service/app_config_service.go:168-199 | internal keys are skipped in memory and in the rows; an unknown key is an error |
| AppConfigService.KeptMeans | backend/internal/service/app_config_service.go:187-198 | a form writes the last value given for each key that is not internal, and none for one that is |
| AppConfigService.FormSucceedsIff | backend/internal/service/app_config_service.go:141-218 | a form succeeds exactly if the UI is enabled, the database does not fail and every key is of a field |
| AppConfigService.AppConfigService.UpdateAppConfigValues | backend/internal/service/app_config_service.go:221-298 | table, cache and error in every case, a commit that takes effect and reports an error included: the cache stays on every error, and after success it agrees with a reload exactly under the conditions above, with the UI enabled or disabled |
| AppConfigService.AppConfigService.UpdateAppConfig | backend/internal/service/app_config_service.go:141-218 | the same for a form, which is refused with the UI disabled; the answer lists the new configuration, unmasked |
| AppConfigService.AppConfigService.InitInstanceID | backend/internal/service/app_config_service.go:405-423 | a process that sees an instance ID changes nothing; one that sees none writes the generated one, and on an error keeps its cache |
| AppConfigService.Start | backend/internal/service/app_config_service.go:29-45 | the table, the configuration or the error of a start, in every case; one that succeeds has an instance ID |
| InstanceId.KeptNamesNoInternal | backend/internal/service/app_config_service.go:187-192 | no form, whatever its keys, writes an internal field |
| InstanceId.RestartStep | backend/internal/service/app_config_service.go:405-423 | a restart replaces a committed ID exactly if the UI is disabled, the ID cannot be read and the new one is written, reported or not; where none is committed, a restart that can load and whose commit takes effect creates it |
| InstanceId.RestartWrites | backend/internal/service/app_config_service.go:405-423 | for every table, a restart writes its ID exactly if it can load, sees none and its commit takes effect |
| InstanceId.IDIsKeptIff | backend/internal/service/app_config_service.go:366-376 | over every sequence of restarts and updates a committed ID stays exactly if no restart with the UI disabled fails to read it |
| InstanceId.FailedReadLosesID | backend/internal/service/app_config_service.go:366-376 | one such restart replaces the ID, whether or not its commit is reported |
| ConfigSnapshots.RunKeepsInv | backend/internal/service/app_config_service.go:146-213 | in every interleaving, transactions exclude each other and what one has loaded stays the latest state until it ends |
| ConfigSnapshots.UpdateMatchesService | backend/internal/service/app_config_service.go:227-295 | an update that nothing disturbs takes the steps of the model to the table and the configuration of the service |
| ConfigSnapshots.NeverTorn | backend/internal/service/app_config_service.go:146-213 | all fields that a process sees come from one committed state: each is the reloaded value, or the default for an empty one |
| ConfigSnapshots.NoLostUpdate | backend/internal/service/app_config_service.go:92-139 | at any time each key of the table holds the last value that any committed update has written |
| ConfigSnapshots.EveryCompletionIsLatestIff | backend/internal/service/app_config_service.go:207-213 | in any state, all orders of a process's pending stores leave its cache with its latest state exactly if none of these threads holds another one |
| ConfigSnapshots.NeverStaleIff | backend/internal/service/app_config_service.go:207-213 | over a run this holds at every moment exactly if no step commits beside a pending store, reads past one, or gives up the last one while the cache is behind |
| ConfigSnapshots.CacheIsLatest | backend/internal/service/app_config_service.go:289-295 | then the cache is the process's latest state whenever none of its threads has yet to store |
| ConfigSnapshots.StaleRun | backend/internal/service/app_config_service.go:289-295 | otherwise it need not be: a run that ends with the older of two committed values in the cache |
| ServiceRunner.NoDeadlock | backend/internal/utils/servicerunner.go:33-56 | while Run still receives, a goroutine or the channel can move, and once all services have returned not only a service |
| ServiceRunner.SchedulesComplete | backend/internal/utils/servicerunner.go:29-59 | every schedule has at most 3n steps, one for each failure and one of the parent; when only the parent can move, n messages have been received, no goroutine is left and the errors are exactly the real ones |
| ServiceRunner.CancelledBeforeError | backend/internal/utils/servicerunner.go:40-44 | before an error is received its goroutine has called cancel, and the context has been cancelled ever since, whatever steps come between |
| ServiceRunner.Run | backend/internal/utils/servicerunner.go:29-59 | under any scheduler Run returns each error as often as services fail with it, or nothing if none does |
| ServiceRunner.FailuresAre | backend/internal/utils/servicerunner.go:40-58 | the failures are the outcomes other than success and cancellation, with their multiplicities |
| StringUtil.MatchAcronym | backend/internal/utils/string_util.go:96-96 | the greedy match of the first expression at a position is the longest one, and none is reported exactly if there is none |
| StringUtil.AcronymsAreInserted | backend/internal/utils/string_util.go:96-107 | leftmost-greedy replacement by the first expression inserts by a local rule |
| StringUtil.HumpsAreInserted | backend/internal/utils/string_util.go:97-108 | non-overlapping replacement by the second expression inserts by a local rule |
| StringUtil.TwoPassesAreOne | backend/internal/utils/string_util.go:95-110 | both passes together insert "_" before each boundary and nothing else |
| StringUtil.BoundaryMeans | backend/internal/utils/string_util.go:95-98 | a boundary is before a capital that follows a small letter or a digit, or that ends a run of capitals and is followed by a small letter |
| StringUtil.FormsAreWords | backend/internal/utils/string_util.go:100-110 | snake case is these words in small letters, screaming case the same in capitals |
| StringUtil.GroupsKeyForm | backend/internal/model/app_config.go:45-45 | the variable of signupDefaultUserGroupIDs is SIGNUP_DEFAULT_USER_GROUP_I_DS: its acronym is cut in two |
| StringUtil.GroupsKeyIsDistinct | backend/internal/model/app_config.go:45-45 | every capital of this key starts a word, so the key can be recovered and shares its variable with no other such key |
| StringUtil.SnakeIsIdempotent | backend/internal/utils/string_util.go:100-104 | snake case is a fixed point of itself |
| StringUtil.ScreamingStability | backend/internal/utils/string_util.go:106-110 | screaming case is stable after two applications, and after one exactly if no digit is followed by a lower-case letter |
| StringUtil.RoundTrip | backend/internal/utils/string_util.go:100-110 | on alphanumeric strings both forms can be undone exactly if every capital starts a word |
| StringUtil.KeysStayDistinct | backend/internal/service/app_config_service.go:379-379 | different keys of the usual shape have different variable names |
| RandomString.GenerateRandomString | backend/internal/utils/string_util.go:27-63 | the result is the first n accepted characters of the draws; it fails only for a non-positive length or a source that ends too early |
| RandomString.Sample | backend/internal/utils/string_util.go:44-60 | every read is in bounds, and the loop refills exactly when the draws say so, for any buffer size from n to 2n |
| RandomString.DrawIs | backend/internal/utils/string_util.go:46-55 | draw j comes from fill j divided by the buffer size, at j modulo the length |
| RandomString.DrawsAre | backend/internal/utils/string_util.go:42-55 | there are as many draws for a fill as the buffer has bytes, and draw j is byte j mod n of fill j div d |
| RandomString.CharactersAre | backend/internal/utils/string_util.go:53-58 | the characters are, in order and without omission, those that the low six bits of the draws' bytes index |
| RandomString.SharedBytes | backend/internal/utils/string_util.go:46-55 | two draws share a byte of the source exactly if they fall in the same fill and are congruent modulo the length |
| RandomString.SharedBytesAreNApart | backend/internal/utils/string_util.go:42-55 | these are exactly the draws n apart in one fill |
| RandomString.TailOfFillUnread | backend/internal/utils/string_util.go:42-55 | the bytes of a fill from n on do not matter to any draw |
| RandomString.WideCharsetNeedsOneFill | backend/internal/utils/string_util.go:42-60 | with 64 characters or more nothing is rejected and one fill decides the result |
| RandomString.FourBytesPerIndex | backend/internal/utils/string_util.go:34-56 | every index is drawn by exactly four byte values |
| RandomString.FirstFillRepeats | backend/internal/utils/string_util.go:44-60 | the draws of the first fill read its first n bytes and then some of them again |
| RandomString.EveryFillRepeats | backend/internal/utils/string_util.go:44-60 | in every fill the draws after the first n are the first of these again |
| RandomString.FillYields | backend/internal/utils/string_util.go:44-60 | every fill adds to the string what its first n draws yield and then a beginning of that again, whatever is rejected |
| RandomString.CharactersShareByteIff | backend/internal/utils/string_util.go:44-60 | two characters of any string come from the same byte exactly if their draws are n apart in one fill, and are then the same |
| RandomString.TailRepeatsHead | backend/internal/utils/string_util.go:44-60 | if the first fill is enough, as many characters as are rejected among its first n bytes come a second time, at the end |
| RandomString.RepeatedCharacter | backend/internal/utils/string_util.go:44-60 | a source for which a string of four ends with its first character |
| RandomString.RejectsIff | backend/internal/utils/string_util.go:53-59 | bytes yield fewer characters than they are exactly if one of them is rejected |
| SqliteParams.ConvertSqlitePragmaArgs | backend/internal/bootstrap/db_bootstrap.go:161-189 | without a _pragma key the list holds, once for each legacy key, its pragma with its first value, and nothing else; with one, its values and those of the legacy keys visited later; every other key stays |
| SqliteParams.PragmaForIff | backend/internal/bootstrap/db_bootstrap.go:165-180 | a key is converted to a pragma exactly if, in any case, it is an underscore and its name or its short form |
| SqliteParams.ListIsConversions | backend/internal/bootstrap/db_bootstrap.go:165-185 | for every walk, the list without a _pragma key is exactly that of the conversions |
| SqliteParams.OtherKeys | backend/internal/bootstrap/db_bootstrap.go:165-185 | whatever the walk, every key but the pragma list is kept exactly if it is not a legacy key |
| SqliteParams.OrderOnlyPermutes | backend/internal/bootstrap/db_bootstrap.go:165-185 | without a _pragma key two walks give the same pragmas up to order |
| SqliteParams.ConversionsBeforePragmaAreLost | backend/internal/bootstrap/db_bootstrap.go:181-184 | with one, the list is its values and the conversions visited after it |
| SqliteParams.ScanPragmas | backend/internal/bootstrap/db_bootstrap.go:240-255 | the loop finds a forbidden pragma exactly if one starts with foreign_keys in any case, and otherwise the two settings exactly if they are there |
| SqliteParams.AddSqliteDefaultParameters | backend/internal/bootstrap/db_bootstrap.go:193-280 | the defaults added, the values kept and the one error: refused exactly if a pragma starts with foreign_keys; else the list is the user's, then a busy timeout of 2500 and a journal mode if not set, then foreign_keys(1) |
| SqliteParams.AcceptedIsCompleted | backend/internal/bootstrap/db_bootstrap.go:205-274 | the journal mode added is MEMORY for a database in memory, else DELETE for one opened read-only or immutable, else WAL |
| SqliteParams.ParseSqliteQuery | backend/internal/bootstrap/db_bootstrap.go:121-142 | the composition of the two steps; a busy timeout given by a legacy key is in the list, and 2500 only if asked for |
| SqliteParams.UserTimeoutStays | backend/internal/bootstrap/db_bootstrap.go:169-258 | the same for every walk |
| SqliteParams.RejectedWithoutPragmaKey | backend/internal/bootstrap/db_bootstrap.go:173-174 | without a _pragma key a query is rejected exactly if it has an alias of foreign_keys |
| SqliteParams.RejectedWithPragmaKey | backend/internal/bootstrap/db_bootstrap.go:244-253 | with one, exactly if one of its values is forbidden or an alias is visited after it |
| SqliteParams.WalkDecides | backend/internal/bootstrap/db_bootstrap.go:165-185 | an otherwise valid query with both keys is rejected by one walk and accepted by another |
| SqliteParams.AcceptedPragmas | backend/internal/bootstrap/db_bootstrap.go:239-274 | an accepted list keeps the user's pragmas as a prefix, sets a busy timeout and a journal mode, and ends with its only foreign_keys entry |
| SqliteParams.AcceptedKeys | backend/internal/bootstrap/db_bootstrap.go:205-237 | mode, immutable and _txlock have one lower-case value, _txlock always; all other keys are as given |
| SqliteParams.OutputIsRejected | backend/internal/bootstrap/db_bootstrap.go:121-154 | the output is rejected when fed back in, whatever the walk |

## Left out

- SQL text, the two dialects, JSON encoding of the lock value, process and host ids in it, and transaction internals: the row and the table move by guarded atomic steps.
- On Postgres `SELECT … FOR UPDATE` locks nothing while the lock's row is absent; the model takes Acquire as atomic.
- A timed-out statement that the database applies after its timeout: it could move the expiry back.
- Clock skew, suspended processes, and the up to five seconds in which the router shuts down after a failed renewal.
- `IsTrue` and `AsDurationMinutes`, which are single library calls, and the concrete 24 fields: the schema is a parameter, for every list of fields.
- The conversion of a schema by reflection over struct tags; a field has at most one attribute.
- Which upserts a database refuses, as an empty list of rows or, on Postgres, a key given twice: any of them may fail.
- Failure to generate a UUID, and concurrent first boots, which race in `initInstanceID` outside the transaction.
- Updates with the UI disabled in `ConfigSnapshots`: they write internal fields only; `AppConfigService` and `InstanceId` cover them.
- Restarts of processes in `ConfigSnapshots`; a thread that has died is one that takes no further step, or drops what it holds.
- Rounding in `golang.org/x/time/rate`, and its reservations: the bucket is exact.
- The switch `DisableRateLimiting`, which installs no limiter.
- AppLock.Bootstrap: takes the services as one step with a given row at their end; what happens to the row meanwhile is the subject of `LockProtocol`.
- LockTiming.Retention: assumes that no round fails three times, and says nothing of a round that does; above a startup delay of a second it would be false (`RetentionIff`).
- Letters beyond ASCII: Go's case functions map all of Unicode.
- Parsing and encoding of URLs, absolute paths, and whether a connection string names an in-memory database, which is a parameter.
- RandomString.BufferSize: is the exact integer part of 1.3 * n; the source computes it in floating point.
- Encryption, file storage, migrations, mail, telemetry, scheduling, signals and the HTTP handlers.
