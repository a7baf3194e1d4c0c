# A model of oidc-token and proofs about it

`oidc-token` prints an OpenID Connect token. Each invocation looks in a cache,
else refreshes silently under a lock on the profile, else logs in. Any number of
invocations may do so at once, and an issuer that rotates refresh tokens (section 6
of RFC 6749) may treat a refresh token sent twice as stolen. Most of this project is
about that protocol; the rest is about the components that make its assumptions true
and about what is finally printed.

| file | content |
|---|---|
| `Types.dfy` | entries, results, JSON values, response member names |
| `Runner.dfy` | one invocation: a class with `Run`, `TryRefresh`, `Login`, `Persist`, `Logout`, proved against functions of the stored entry and the environment |
| `Protocol.dfy` | any number of invocations and logouts on one profile, as a step system with a lock, a monotone clock, failures, crashes and an issuer that remembers its refresh tokens |
| `Safety.dfy`, `Hazards.dfy` | no refresh token is sent again after it has been replaced; exactly which steps break this, and how each comes about |
| `Solo.dfy`, `Serial.dfy` | an uninterrupted process of the step system is the invocation of `Runner`; concurrent refreshing is serializable |
| `Winner.dfy`, `Progress.dfy`, `Provenance.dfy` | one refresh for many processes; termination and no deadlock; where id_tokens come from, and keeping the ability to refresh |
| `Names.dfy`, `FileStore.dfy`, `Directory.dfy` | file names; Save, Load and Delete as file-system steps with failures and crashes; the same as one process runs them |
| `Chain.dfy`, `ChainRefinement.dfy`, `SharedChain.dfy` | file and keychain backends, a chain of any length, the single map it refines, logout on it, and the protocol over it |
| `Keyring.dfy` | keychain operations that outlive their callers |
| `Login.dfy`, `Callback.dfy` | grant selection, bounded fallback and its error classifier; the loopback callback |
| `TokenResponse.dfy`, `Output.dfy` | client authentication, decoding a token response, id_token verification, the printed documents |
| `Binding.dfy` | configuration fields written through their targets in layers |

The step systems are deterministic functions `Next(state, action)`; a run is a
sequence of actions each of which is possible when its turn comes, and all
statements are about every such sequence.

## Assumptions

- A process reads or replaces the protocol's store in one step. `FileStore` shows
  this of the file store: a file changes only with a rename or a removal, and a Load
  reports what it was at one moment. There, creating a temporary file picks an
  unused name, rename is atomic, and reading a file sees one version of it.
- A lock is released when its holder releases it or dies; waiting for it may fail at
  any time, which covers the time limit.
- SHA-256 has no collisions (`CollisionFree`), and encoding an entry as JSON loses
  nothing (`ValidConfig`). Both are hypotheses of the theorems that need them.
- A token response stands for what its first mebibyte decodes to.
- The issuer's replies, the verdict on each id_token, and which operations fail are
  arbitrary. Where the issuer must hand out new refresh tokens, the theorem says so.
- The clock a process reads never goes back. RFC 3339 formatting is a parameter.

## Where code and documentation differ

The model follows the code.

- The comment on `ChainStore.Delete` (internal/cache/chain.go:85-88) promises the
  first error that is not "not found"; the code also drops "unavailable" errors.
  `DeleteIsCompleteExactly` and `ComesBackExactly` say what that means for a logout.
- The repository's README says that a login falls back on a rejection at the authorization
  endpoint. The code also falls back on `unauthorized_client` from the token endpoint.
- The comment on `plan` (internal/authflow/select.go:94-98) says that discovery decides
  which grants are possible, but `plan` does not look at the code challenge methods. An
  issuer that rules out S256 still gets authorization_code planned, and the refusal ends
  the login without a fallback (`PlannedIsAcceptedExactly`, `RefusalEndsLogin`).
- Response members are matched to fields without regard to case, but removed from the
  extensions only under their exact names. So an id_token spelled `ID_Token` that
  failed verification stays in the full JSON document (`UnverifiedSpelling`).
- The comment on `toResult` (internal/oidc/token.go:18-21) says that an id_token that
  fails verification is left out. In the full JSON document a response member
  `_extensions` that holds an `id_token` puts one back when the response came through the
  oauth2 library (internal/oidc/token.go:32-34); `FullDocumentExactly` covers it.
- A locked re-read that fails or misses falls back to the refresh token read before the
  lock, which may have been replaced (`LogoutIsHarmful`, `FailedRereadIsHarmful`).

## Model

| member | source | states |
|---|---|---|
| Runner.Runner.Run | internal/runner/runner.go:75-96 | a run ends with the outcome, the cache and the issuer calls of cache hit, else locked refresh, else login |
| Runner.Runner.TryRefresh | internal/runner/runner.go:113-163 | the critical section returns a result exactly when the re-read is valid or a refresh was granted, acceptable and saved; otherwise the caller logs in |
| Runner.Runner.Login | internal/runner/runner.go:165-180 | a login stores its result or says why not, and makes exactly one call |
| Runner.Runner.Persist | internal/runner/runner.go:202-211 | the cache holds the result's tokens under the profile, or is unchanged after an error |
| Runner.Runner.Logout | internal/runner/runner.go:198-200 | the entry is gone, or unchanged after an error |
| Runner.CachedTokensLast | internal/runner/runner.go:83-124 | nothing is asked of the issuer exactly when the stored entry has a token and lasts 30 seconds beyond the check; then its four tokens are returned and it stays |
| Runner.MissLogsIn | internal/runner/runner.go:78-96 | without an entry a run logs in: it ends with an invalid id_token exactly when one was asked for and the reply's was refused, else with a write error exactly when the Save fails, else it stores and returns the reply's tokens; a failed first read ends it at once |
| Runner.ExpiredIsRefreshed | internal/runner/runner.go:87-180 | with an entry that does not last, the run sends its refresh token if there is one and the lock is had, and returns and stores the reply's tokens if the refresh is granted, saved, and not refused for its id_token; in every other case it logs in |
| Runner.CriticalDecides | internal/runner/runner.go:118-155 | the same for the critical section, whatever was read before the lock: which token is sent, what is returned and what is stored |
| Runner.ValidExactly | internal/runner/runner.go:98-108 | an entry is valid exactly when it has a token, is not refreshable if its expiry is unknown, and is unexpired throughout the next 30 seconds |
| Runner.InvalidStaysInvalid | internal/runner/runner.go:98-108 | an invalid entry stays invalid as time passes |
| Runner.NextRunHits | internal/runner/runner.go:202-220 | what a run returned is what the next run finds, token by token, without a call, while it is valid |
| Runner.RunIsBounded | internal/runner/runner.go:75-180 | at most one refresh then at most one login; failures come after a login attempt unless the first read failed; only a granted call changes the cache |
| Solo.SoloIsRunAlone | internal/runner/runner.go:75-180 | an uninterrupted process of the step system ends with exactly the outcome, cache, calls and free lock of the sequential run |
| Solo.SoloCritical | internal/runner/runner.go:118-155 | the same for the critical section |
| Solo.SoloSend | internal/runner/runner.go:134-154 | the same for sending, checking and saving a refresh |
| Solo.SoloLogout | internal/runner/runner.go:198-200 | a logout deletes the entry, or fails and leaves it |
| Safety.MutualExclusion | internal/cache/cache.go:152-169 | over any run critical sections never overlap, and nobody who logs in, is done or has died holds the lock |
| Safety.SafeExactly | internal/runner/runner.go:118-155 | a step keeps the invariant "the stored refresh token is spent only while the lock holder is between Refresh and Save" exactly when it neither drops the replacing answer nor falls back to a spent stale token |
| Safety.HarmBreaks | internal/runner/runner.go:125-152 | every harmful step breaks the invariant; what follows from that is in HarmIsReused and HarmfulExactly |
| Safety.RunInvStep | internal/runner/runner.go:118-155 | a step that is not harmful also keeps the log free of reuse, and every spent token still stored or remembered traceable to a logged call |
| Safety.NoTokenReused | internal/runner/runner.go:113-163 | in any interleaving of refreshes, logins and logouts without a harmful step no refresh token is sent again after a reply that replaced it |
| Safety.OrdinaryIsCareful | internal/runner/runner.go:113-163 | without logout, crash, lost reply, fatal id_token, failed re-read or failed Save after a refresh, no step is harmful |
| Safety.OrdinaryRunsNeverReuse | internal/runner/runner.go:113-163 | so such runs never send a refresh token again after it was replaced |
| Hazards.HarmfulExactly | internal/runner/runner.go:118-155 | at any point of any run without harmful steps, with a process yet to start, the next step is harmful exactly when some continuation without another harmful step sends a refresh token again after it was replaced |
| Hazards.HarmIsReused | internal/runner/runner.go:118-155 | after every harmful step (failed Save, death before it, lost reply, fatal id_token, fallback to a replaced token) a token is sent again by the process that fell back or by the next one to start |
| Hazards.StoredIsReused | internal/runner/runner.go:83-136 | a spent token that is still stored when the lock is free is sent again by the next process |
| Hazards.RefreshesWhatItFinds | internal/runner/runner.go:83-136 | a run that gets past its first read and the lock refreshes with a token exactly when that token's entry is stored and has expired |
| Hazards.StoresNothingOld | internal/runner/runner.go:136-180 | a run that uses up a refresh token leaves the entry in place exactly when its reply was lost, its id_token is fatal or its Save failed, and its login had nothing to store either; else it stores another refresh token |
| Hazards.ResentExactlyWhenDropped | internal/runner/runner.go:136-180 | after a run that used up the stored refresh token the next one sends it again exactly under those conditions on the reply, the id_token, the Saves and the login |
| Hazards.DroppedAnswerIsResent | internal/runner/runner.go:136-180 | under those conditions the step system has a run that sends the token twice |
| Hazards.CrashIsHarmful | internal/runner/runner.go:136-149 | so it has when a process dies between Refresh and Save |
| Hazards.LocalLockIsHarmful | internal/cache/keychain.go:133-139 | so it has under a process-local lock, with two processes refreshing at once |
| Hazards.LogoutIsHarmful | internal/runner/runner.go:125-128 | so it has when a logout comes between a stale read and the locked re-read |
| Hazards.FailedRereadIsHarmful | internal/runner/runner.go:119-128 | so it has when the locked re-read of an overtaken process fails |
| Serial.PlaceEffect | internal/runner/runner.go:118-155 | the step that settles a process has the effect of its whole sequential run at that point |
| Serial.StepSimulates | internal/runner/runner.go:75-163 | each concurrent step is matched by no step or one whole run of the serial execution |
| Serial.OrderlyStep | internal/runner/runner.go:75-163 | processes take their places once each, on a clock that never goes back |
| Serial.Serializable | internal/runner/runner.go:75-163 | any interleaving of any number of runs, up to their results or need to log in, equals running them one at a time ordered by Save, valid read or earlier failure: same cache, same results, same calls and replies; processes may die anywhere |
| Winner.FromStage1 | internal/runner/runner.go:118-143 | a step taken before anybody has heard from the issuer leaves it so, or gives the one lock holder the only answer |
| Winner.FromStage3 | internal/runner/runner.go:118-124 | once the answer is stored it stays, and everybody who looks finds it |
| Winner.OneWinner | internal/runner/runner.go:98-154 | N processes on one expired entry, when none can take another smooth step: exactly one call was made, a refresh, and all N have returned the access token, expiry, accepted id_token and refresh token (new, or the old one) of its reply, which are in the cache |
| Winner.AtMostOneWinner | internal/runner/runner.go:98-154 | at every moment before: at most one refresh, no login, and whoever is done has those tokens |
| Winner.CanGo | internal/runner/runner.go:98-154 | while somebody is not done, somebody has a smooth step |
| Winner.SmoothRunsFinish | internal/runner/runner.go:98-154 | every smooth run can be continued until everybody is done |
| Progress.RunsAreBounded | internal/runner/runner.go:75-180 | every run takes at most ten steps per process, whatever fails |
| Progress.NeverStuck | internal/cache/cache.go:152-169 | until all are done some process can go on without anything having to fail |
| Progress.MaximalRunsFinish | internal/runner/runner.go:75-180 | a run that cannot be continued has finished every process |
| Progress.OneCallEach | internal/runner/runner.go:75-180 | over any run no two calls are by the same process and of the same kind |
| Provenance.IDStep | internal/oidc/token.go:36-47 | no step lets an unverified id_token into the cache or a result |
| Provenance.IDTokensAreVerified | internal/runner/runner.go:184-220 | over any run every id_token cached, returned or printed bare was verified, with its nonce where one was sent; under --token-type=id_token a failing reply is never about to be stored and never returned |
| Provenance.FullDocumentExactly | internal/output/output.go:85-87 | over any run the full document shows an id_token that was never verified exactly when the result has an unverified extension of that very name, which only a reply of the process itself can bring |
| Provenance.ForgettingExactly | internal/runner/runner.go:145-149 | a step keeps a refreshable profile refreshable exactly when it is neither a logout nor the Save of a login without a refresh token |
| Provenance.RefreshingKeepsRefreshToken | internal/runner/runner.go:125-153 | refreshing never costs the ability to refresh, also when the issuer omits the token |
| Names.HexInjective | internal/cache/cache.go:55-58 | hex encoding is injective |
| Names.HexAt | internal/cache/cache.go:55-58 | each byte becomes its two hexadecimal digits |
| Names.MessageInjective | internal/cache/cache.go:55-56 | issuer, NUL and client id determine the profile for issuers without NUL |
| Names.NulIssuersCollide | internal/cache/cache.go:55-58 | an issuer with NUL shares its key with another profile, whatever the hash |
| Names.KeyInjective | internal/cache/cache.go:55-58 | different profiles have different keys |
| Names.FilesDiffer | internal/cache/cache.go:60-73 | profiles share neither entry file nor lock file, and no temporary file is one of them |
| FileStore.TempsOwnedStep | internal/cache/cache.go:119-141 | each Save's temporary file is its own and holds exactly the bytes written so far |
| FileStore.FileStep | internal/cache/cache.go:109-147 | a profile's file changes only by a rename or removal for that very profile |
| FileStore.AtomicStep | internal/cache/cache.go:90-147 | no step, failure or crash breaks the invariant behind crash atomicity |
| FileStore.SaveIsCrashAtomic | internal/cache/cache.go:106-147 | under any interleaving, failures and crashes, a file is what the completed renames and removals say, and a Load reported that as of the moment it read |
| FileStore.LastEventDecides | internal/cache/cache.go:109-147 | after its last event a file is absent or the complete encoding of the entry renamed last with mode 0600, and loads as that entry |
| FileStore.NoEventNoChange | internal/cache/cache.go:109-147 | without an event it is what it was at first |
| FileStore.LoadIsExact | internal/cache/cache.go:87-104 | a Load that returned found the entry renamed last before it read, nothing after a removal, and else what the first file decodes to: an absent or undecodable one is a miss |
| FileStore.SavesAccounted | internal/cache/cache.go:123-147 | a Save renames exactly once if it reports success and never if it fails or dies before |
| FileStore.SavesChangeOnce | internal/cache/cache.go:123-147 | read off the events: no event is by a process that has not succeeded, and exactly one by a Save that has |
| FileStore.ProfilesIsolated | internal/cache/cache.go:55-181 | runs on other profiles never change a profile's file |
| FileStore.NoLitter | internal/cache/cache.go:124-130 | no temporary file stays behind unless a process died with one or could not remove it |
| Directory.Store.Save | internal/cache/cache.go:109-147 | success adds exactly the entry's file with mode 0600; failure changes nothing but at most leaves its temporary file with part of the bytes |
| Directory.Store.Load | internal/cache/cache.go:90-104 | absent and undecodable files are misses |
| Directory.Store.Delete | internal/cache/cache.go:173-181 | removes one file; an absent one is no error |
| Directory.SaveThenLoad | internal/cache/cache.go:90-147 | a saved entry is loaded again whatever a Save to another profile does in between |
| Directory.SaveIsASchedule | internal/cache/cache.go:109-147 | a Save with any one operation failing is a schedule of the step machine with the same final directory |
| Chain.Backend.Load | internal/cache/keychain.go:79-98 | a missing or corrupt item is a miss; any fault is an error, unavailable only for a keychain without platform support or executable |
| Chain.Backend.Save | internal/cache/keychain.go:100-115 | stores the item, or leaves it on an error, except that an operation whose caller gave up may take effect nevertheless |
| Chain.Backend.Delete | internal/cache/keychain.go:117-131 | removes the item, with the same exception; an absent one is no error |
| Chain.Backend.Attempt | internal/cache/keychain.go:49-58 | only a keychain without platform support or executable is unavailable; the operation takes effect if it succeeds, or late after a timeout |
| Chain.ChainStore.LogFallback | internal/cache/chain.go:43-49 | the notice comes at most once |
| Chain.ChainStore.Load | internal/cache/chain.go:51-66 | the first available backend, or else the last, answers; a plain miss goes no further |
| Chain.ChainStore.Save | internal/cache/chain.go:68-83 | exactly that backend is written, and no other changes |
| Chain.ChainStore.Delete | internal/cache/chain.go:89-97 | every backend is asked even after an error; the first error that is not unavailability is reported |
| Chain.ChainStore.ChooseLock | internal/cache/chain.go:105-115 | the file backend's lock if there is one anywhere, else the first backend's, else none |
| Chain.FirstFileExists | internal/cache/chain.go:105-110 | a file backend is found exactly when there is one |
| Chain.LockIsShared | internal/cache/chain.go:99-115 | two processes lock the same lock exactly when the chain has a file backend, whatever is unavailable |
| ChainRefinement.Handle | internal/cache/chain.go:51-97 | one request to a chain object is one step of the chain function, with at most one notice ever |
| ChainRefinement.LoadByFaults | internal/cache/chain.go:51-66 | from kinds and faults alone: the first backend answers unless it is a keychain without platform support or executable and another follows; misses, timeouts, refusals and file backends are never skipped |
| ChainRefinement.SaveByFaults | internal/cache/chain.go:68-83 | under the same rule exactly one backend is written, and an error of that one is reported and nothing written further down |
| ChainRefinement.DeleteByFaults | internal/cache/chain.go:89-97 | every backend loses its copy unless it faults, and the first fault that is not a keychain's missing platform or executable is reported |
| ChainRefinement.ServesOnly | internal/cache/chain.go:51-66 | only one backend can be the serving one |
| ChainRefinement.ServeTouches | internal/cache/chain.go:68-97 | a Load changes nothing and a Save only one key of the serving backend |
| ChainRefinement.ServeRefines | internal/cache/chain.go:51-97 | each request is one on a single map whose operations end as those of the serving backend do |
| ChainRefinement.ChainRefinesMap | internal/cache/chain.go:51-97 | so is every sequence of requests, for a chain of any length with a steady pattern of availability, and whatever else reading, writing and deleting meet on each backend |
| ChainRefinement.LaterBackendsHidden | internal/cache/chain.go:28-31 | what later backends hold never shows, not even on a miss |
| ChainRefinement.HardErrorExactly | internal/cache/chain.go:89-97 | Delete succeeds exactly when every backend answered or was unavailable, else it reports the first other error |
| ChainRefinement.DeleteIsCompleteExactly | internal/cache/chain.go:85-97 | no copy is left exactly when the removal took effect on every backend that had one |
| ChainRefinement.LogoutIsComplete | internal/cache/chain.go:85-97 | after a Delete that all backends answered no Load finds the entry before the next Save, under any later faults |
| ChainRefinement.ComesBackExactly | internal/cache/chain.go:51-97 | a copy left behind can be found again exactly when only keychains stand before it |
| SharedChain.CellStep | internal/cache/chain.go:51-97 | the chain answers a protocol step as a single cell would and then shows what the cell holds |
| SharedChain.SharedMeansExclusive | internal/cache/chain.go:99-115 | the lock excludes other processes exactly when the chain has a file backend |
| SharedChain.ChainRunsNeverReuse | internal/cache/chain.go:99-115 | no refresh token is reused with --token-store=auto, even with the entry in the keychain |
| SharedChain.ChainHasOneWinner | internal/cache/chain.go:99-115 | and all processes over it return the tokens of exactly one refresh, which the chain then shows |
| SharedChain.ChainShowsWinner | internal/cache/chain.go:99-115 | at every moment before, whoever is done has those tokens and the chain shows them |
| Keyring.SoundStep | internal/cache/keychain.go:144-160 | what goroutine, channel and caller hold is the one answer of the one operation |
| Keyring.AnswersAreGenuine | internal/cache/keychain.go:144-160 | a caller is told the answer its operation got when it was carried out, and no goroutine is ever held up by the channel |
| Keyring.AnswersMean | internal/cache/keychain.go:79-131 | a read is answered with the entry last written before it was carried out, or as not found; an answered write or removal is in place from then on |
| Keyring.LateEffectExactly | internal/cache/keychain.go:141-159 | without new calls the item can still change exactly when some operation that would change it, perhaps long reported as timed out, has yet to be carried out |
| Login.CheckGrant | internal/oidc/discovery.go:107-117 | a grant is unsupported only if a non-empty list omits it |
| Login.CodeChallengeMethod | internal/oidc/discovery.go:135-145 | S256, unless a non-empty list omits it |
| Login.SearchFindsFirst | internal/authflow/select.go:181-187 | searching an error tree finds the first leaf of each kind |
| Login.RejectionByLeaves | internal/authflow/select.go:181-194 | the verdict depends on the leaves alone: a token-endpoint error decides, else the first authorization error |
| Login.VerdictCases | internal/authflow/select.go:181-194 | which single errors are rejections, and how the verdict carries over to wrapped and to joined errors |
| Login.WrappingIsTransparent | internal/authflow/select.go:181-194 | no depth of wrapping and no rearrangement of the tree over the same leaves changes the verdict |
| Login.PlanIsExact | internal/authflow/select.go:106-155 | the plan has exactly the grants asked for, advertised and workable, authorization_code first; when there is none, and why: an unknown type, an environment that allows none, or nothing advertised |
| Login.PlannedIsAcceptedExactly | internal/oidc/authcode.go:33-39 | every planned grant passes the provider's own checks exactly if authorization_code is not planned or S256 is allowed |
| Login.Source.Discover | internal/authflow/select.go:245-263 | the first successful discovery is kept and asked for once |
| Login.Try | internal/oidc/authcode.go:33-39 | a grant's flow is entered exactly when the provider accepts the grant; a refusal is a plain error |
| Login.Source.TryInOrder | internal/authflow/select.go:313-328 | the grants tried are the shortest prefix that ends in success or in an error that is no per-client rejection |
| Login.Source.Login | internal/authflow/select.go:299-329 | a login tries that prefix of its plan; it returns a result exactly when the last grant tried succeeded with it, and an error exactly when it failed with it |
| Login.LoginSucceeds | internal/authflow/select.go:299-318 | if the grant planned first is accepted and its flow succeeds, the login returns that result |
| Login.AttemptsAreBounded | internal/authflow/select.go:299-329 | at most two attempts, none twice, device-code only attended; a second one exactly after a per-client rejection with both planned |
| Login.RefusalEndsLogin | internal/oidc/authcode.go:33-39 | a refusal for lack of S256 ends the login, even with device-code planned and workable |
| Login.RefusalHappens | internal/authflow/select.go:106-155 | an issuer with only "plain" challenges is one where this happens |
| Callback.FirstWinsStep | internal/oidc/callback.go:44-69 | the channel holds the redirect that reached it first, and every offered one came with the expected state |
| Callback.FirstValidRedirectWins | internal/oidc/callback.go:40-82 | the wait ends with what the first request to reach the channel said, its error with description or else its code; that request had the expected state; otherwise only its context ends it; a wrong state is answered 400 |
| Callback.HandlersNeverBlock | internal/oidc/callback.go:63-68 | in every state one of the two cases of a handler's select is ready, so every handler can finish within two steps of its own |
| Callback.StraysChangeNothing | internal/oidc/callback.go:45-51 | leaving out all requests with a wrong state gives a run with the same outcome |
| TokenResponse.BuildResult | internal/oidc/token.go:22-50 | all fields are the reply's, the id_token only if accepted and with the nonce where one was sent, and its failure is recorded otherwise |
| TokenResponse.Authenticate | internal/oidc/refresh.go:83-107 | exactly which form is sent and whether the secret is in the header, for each method |
| TokenResponse.DecodedText | internal/oidc/refresh.go:120-126 | a text field has the value of the last non-null member that matches it, in any spelling |
| TokenResponse.DecodedNumber | internal/oidc/refresh.go:120-126 | the same for expires_in, 0 without one |
| TokenResponse.DecodesExactly | internal/oidc/refresh.go:120-126 | decoding fails exactly when some member read as a field has another type |
| TokenResponse.RawLast | internal/oidc/refresh.go:128-129 | the raw object has exactly the names given, each with its last value |
| TokenResponse.ExpiryInSeconds | internal/oidc/refresh.go:156-158 | the expiry is that many seconds from now, unknown if not positive, and wraps around only beyond 292 years |
| TokenResponse.StandardIsExact | internal/oidc/refresh.go:128-136 | exactly the exact names of the nine fields are removed |
| TokenResponse.ParseResponse | internal/oidc/refresh.go:115-168 | a token exactly for a response that is read and grants one, and which error otherwise |
| Output.WriteBare | internal/output/output.go:56-63 | exactly the access token or the id_token as asked for, or nothing and an error if it is empty or the type unknown |
| Output.WriteExecCredential | internal/output/output.go:101-126 | the same in an ExecCredential with its default version and a known expiry |
| Output.OwnMembers | internal/output/output.go:69-84 | the non-empty own fields and a known expiry, nothing else |
| Output.Overlay | internal/output/output.go:85-87 | extensions win their keys and leave all others alone |
| Output.IDTokenMember | internal/output/output.go:73-87 | the id_token of any document is the extension of that name if there is one, else the result's own |
| Output.WriteAll | internal/output/output.go:68-94 | one document in which each of the four tokens is its extension, else the result's own, or nothing and an error |
| Output.PassThrough | internal/output/output.go:68-94 | every extension is printed unchanged, and the access, id, refresh and issued-type members are those the response decoded to, or absent if empty; an id_token there was accepted |
| Output.UnverifiedSpelling | internal/oidc/refresh.go:128-136 | after a rejected verdict a member read as id_token is printed exactly when the response has one under another spelling |
| Output.PrintResponse | cmd/oidc-token/main.go:106-118 | a granting token-exchange response is printed unless the write fails, and nothing else is: its own tokens, extensions unchanged, no id_token that was not accepted |
| Binding.SplitJoins | internal/flagbinding/binding.go:167-169 | splitting at commas loses nothing and leaves none in a part |
| Binding.AtoiReadsDecimal | internal/flagbinding/binding.go:126-130 | decimal numerals, with sign and leading zeros, are read as what they denote if 64 bits hold it, and not at all otherwise |
| Binding.AtoiRejects | internal/flagbinding/binding.go:126-130 | anything that is no digits after the sign is not read |
| Binding.TruncatesTowardsZero | internal/flagbinding/binding.go:137-139 | a number of the file loses its fraction towards zero |
| Binding.StringsInOrder | internal/flagbinding/binding.go:176-182 | a list keeps its strings in order and drops other items |
| Binding.LayerValues | internal/flagbinding/binding.go:38-193 | which value environment and file have for a field of each kind |
| Binding.ApplyEnv | internal/flagbinding/binding.go:42-170 | a usable environment value is written, otherwise the target is kept |
| Binding.CollectStrings | internal/flagbinding/binding.go:176-182 | the strings of a list, in order |
| Binding.ApplyFile | internal/flagbinding/binding.go:51-187 | a well-typed file value is written, otherwise the target is kept |
| Binding.ApplyFlag | internal/flagbinding/binding.go:60-193 | an explicit flag is written, otherwise the target is kept |
| Binding.Resolve | internal/config/config.go:279-283 | each target ends as the fields that write to it say, one after the other |
| Binding.SettingFieldWins | internal/config/config.go:279-283 | a field that finds a value and is not overwritten decides its target |
| Binding.UnsetKeepsInitial | internal/config/config.go:279-283 | a target no field sets keeps its initial value |
| Binding.LayersAreIndependent | internal/config/config.go:275-283 | with distinct targets: flag, else file, else environment, else initial value, whatever the other fields do |
| Binding.OrderIsIrrelevant | internal/config/config.go:216-283 | the order of the table does not matter |
| Binding.SharedTargetsBreakPrecedence | internal/config/config.go:279-283 | a remark on the loop alone: it resolves field by field, so two fields with one target, which the table does not have, would not be resolved layer by layer |

## Left out

- Serial.Serializable: covers runs up to their results or their need to log in; a login saves outside the lock, so the last writer wins there. Lock timeouts and failed re-reads are covered while the entry is still the one read first; a failed re-read after that can make a run send a replaced token (`Hazards.FailedRereadIsHarmful`).
- Winner.OneWinner: assumes that every store operation and refresh succeeds and that the refreshed entry stays valid, as "one winner" needs; an expiry the issuer does not send makes an entry with a refresh token invalid at once.
- Directory.Store.Save: runs one Save of one process; interleavings are in `FileStore`. Creating the directory and its mode 0700 are one step that goes through or fails.
- Chain.Backend.Save: an abandoned operation takes effect before the next request to the backend or never; that it can come later still is modelled in `Keyring` only.
- ChainRefinement.ChainRefinesMap: steady faults only; under changing availability the code promises no single map.
- Binding.ApplyFile: takes the decoded numbers of the config file as they are; their rounding to float64, and the conversion of those that do not fit an int, are not modelled.
- Output.PassThrough: numbers among the extensions are printed as decoded; the rounding of large ones to float64 is not modelled.
- HTTP, JWKS, signatures, PKCE and the oauth2, go-oidc and flock libraries: their outcomes are choices of the environment. The library's own handling of token responses in the login flows is not modelled, only what `toResult` makes of them.
- The time limits for a refresh, a lock and a login: each is a failure that may come at any time.
- The keychain's `Probe`, its in-process mutex as a blocking primitive, and `NoopStore`.
- Parsing the command line and reading the config file; the steps of `Parse` after the resolution loop (`--all`, `--extra`, `--client-secret-file`, default directory) and `validate`.
- Subject-token sources, the token-exchange request, private-key parsing and assertion lifetimes.
- Browser launch, terminal detection, prompts, warnings, usage text and the text of error messages.
- Issuer URL validation and the discovery request itself.
