# Verified model of go-proxmox

A Dafny model of the parts of the Proxmox VE client library that carry state, loops or
arithmetic: the retrying transport, the session protocol, the guard in front of VM deletion,
Proxmox task polling and log following, tag editing, path-template normalisation and
coverage accounting, indexed devices, the CSV type, SSH-key encoding and client options.

Check everything with `dafny verify dfyconfig.toml --resource-limit 2000000`.

## How the model is built

Code that changes things step by step is a class or a method with a loop. Its contract ties
the new state to a function of the old one (`Run`, `Req`, `Scan`, `Waited`, `Remove`, ...),
and what the library promises is proved about those functions, for every input and every
behaviour of the outside world. The outside world is a value: a script of answers indexed by
the number of the request (`RetryStack.Script`, `Session.Client.replies`,
`DeleteGuard.Server`, `TaskLog.Server`), a clock that may advance by any amount before each
reading, and a map iteration that may take any order. A finite list of replies stands for any
terminating run; when it is used up, the next request fails.

| file | models |
|---|---|
| `Prelude.dfy`, `GoStrings.dfy` | int64 wrap-around; `strings.Split`, `Join`, `TrimSpace` |
| `RetryPolicy.dfy` | policy options, jitter window, `Retry-After` |
| `RetryStack.dfy`, `RetryProofs.dfy`, `RetryPauses.dfy` | nested retrying RoundTrippers, their properties, and what one layer does with each answer |
| `Session.dfy`, `SessionClient.dfy`, `SessionProofs.dfy`, `SessionAnswers.dfy` | `Req`, `CreateSession`, `RefreshTicket`, `Login` on one goroutine |
| `TicketWire.dfy` | ticket bodies of that client going through the retry stack |
| `SessionInterleaving.dfy` | the same calls on any number of goroutines |
| `SessionSimulation.dfy` | every sequential run is one of those interleavings |
| `Tasks.dfy`, `DeleteGuard.dfy`, `TaskLog.dfy` | `Ping`, `Wait`; `VirtualMachine.Delete`; `Watch`, `tasktail` |
| `Tags.dfy`, `TagProofs.dfy` | tag methods over a Go slice with its backing array |
| `PathTemplates.dfy`, `Coverage.dfy` | `normalizePath`; the counting in `Coverage` |
| `Devices.dfy`, `Csv.dfy`, `SshKeys.dfy`, `ClientOptions.dfy` | the remaining components |

## Findings

Some properties hold only under a condition. The model keeps the code as it is and proves the
condition exactly.

- A policy gets the jitter window `min(maxBackoff, initial * 2^attempt)` on every attempt exactly
  when no doubling of its initial backoff lands in `[2^62, maxBackoff)` ns (`WindowExactIff`), and
  a cap is safe for every initial backoff exactly up to 2^62 (`CapIsSafeIff`); above that the
  doubling can wrap. A `Retry-After` of n seconds is honoured under every cap exactly when
  `n <= 9223372036` (`HeaderExactIff`). Delays stay in `[0, maxBackoff]` regardless.
- `RemoveTag` ranges over the old slice header while it shifts the backing array. It removes
  the value without a panic exactly when the value occurs only at the end of the list, or the
  list does not end with it and it never occurs twice in a row; it panics exactly when the
  value ends the list and occurs before that too (`RemoveWorksIff`, `RemovePanicsIff`), as in
  the config "a;a" (`RepeatedTagPanics`). Distinct tags always meet the condition.
- `Watch(start)` delivers a range beginning at `start`, each line once, exactly when `start`
  is 0 or the tail fetched nothing: the tail begins at the number of lines of the first page,
  not at its end (`WatchIsExactIff`).
- There is no fetch once the job has ended. `Watch(0)` delivers exactly the whole log if and only
  if its last answered log request was made when all lines had been written and at most one page
  of them was missing; when the tail fetches nothing, that request is the one for the first page
  (`WatchDeliversLogIff`). Lines are lost to a backlog, and also when they are written after the
  last fetch (`LogCanBeCut`).
- The ISO deletion names the volume that the lookup reply carries, which the library does not
  compare with the one it asked for. Nothing but the VM's own ISO is deleted exactly when the
  reply names that ISO or no volume (`OnlyOwnIsoIff`).
- An accepted ticket reply whose data is null sets the session to nil with a nil error, and the
  next 401 makes `Req` authenticate and resend at once. One `Req` sends at most
  `2 + floor(D / 1h) + n` times, n being the number of such replies, and one less if it ends
  without a session (`SendsAreBounded`). The bound is reached for every n while the clock stands
  still (`NullTicketsAreUnbounded`), so time alone bounds the sends only when ticket replies
  carry a session object (`SendsAreBoundedByTime`).
- `AddTag` on an empty tags string posts `;tag`, since splitting it gives one empty piece
  (`AddedString`).
- A one-time password is in one ticket body, but a retry layer may send that body again: it is
  on the wire at most m1 * ... * mn times, and that often when every answer is retriable
  (`CodeOnWireIsBounded`, `CodeOnWireIsExhaustive`).
- A resend has the same URL as the first send exactly when a rooted path does not meet a
  rooted base URL (`ResendKeepsUrl`).
- `normalizePath` leaves a string alone exactly when it has no query, `{...}` variable, verb,
  volume id or trailing slash (`FixedIff`), and a second pass changes the result of the first
  exactly when that contains a variable or a volume id (`IdempotentIff`). Chained volume ids and
  a verb inside an unclosed brace produce one (`NotIdempotentInGeneral`); path templates do not.
  The root is spelled "/" or, with more slashes, "" afterwards (`RootNormalizes`).
- Comments and code differ in two places, and the model follows the code. `Retry-After` wins
  on any status and also when it is smaller than the jitter (retry.go:249-258, against
  retry.go:178 and retry.go:244). The sleep between attempts may end normally although the
  context is done (retry.go:385-390, against retry.go:123-125).

## Model

| member | source | states |
|---|---|---|
| RetryPolicy.BuiltPolicyIsValid | retry.go:42-111 | whatever options are given, the policy has at least one attempt and positive backoff bounds |
| RetryPolicy.LastOptionWins | retry.go:82-111 | a setting survives all later options that do not set it |
| RetryPolicy.OptionTakesEffect | retry.go:82-111 | the newest option sets what it names, clamped to one attempt and ignoring bounds that are not positive |
| RetryPolicy.AtoiOfNumeral | retry.go:286 | numerals that fit an int64 are read back, with or without a sign, and no others |
| RetryPolicy.HeaderSeconds | retry.go:249-258 | a padded numeral in Retry-After fixes the delay at that many seconds, capped |
| RetryPolicy.HeaderDate | retry.go:292-298 | a date fixes it at the time until then, capped, never negative |
| RetryPolicy.NoHeader | retry.go:260-276 | every other header leaves it to a sample below min(maxBackoff, initial * 2^attempt) |
| RetryPolicy.JitterWindow | retry.go:261-268 | the doubling loop in int64 arithmetic, then the cap |
| RetryPolicy.DoublingIsExact | retry.go:262-268 | as long as no doubling lands in [2^62, cap), the capped loop computes min(cap, window * 2^steps) |
| RetryPolicy.WindowExactIff | retry.go:244-268 | a policy gets the documented window on every attempt exactly when no doubling of its initial backoff lands in [2^62, maxBackoff) |
| RetryPolicy.CapIsSafeIff | retry.go:244-268 | a cap is safe for every initial backoff exactly up to 2^62 |
| RetryPolicy.HeaderExactIff | retry.go:250-257 | a delay in seconds survives the int64 product and the clamps under every cap exactly up to 9223372036 |
| RetryPolicy.DelayInRange | retry.go:248-276 | Int63n always gets a positive bound, and every delay lies in [0, maxBackoff], overflow included |
| RetryPolicy.HeaderOverridesJitter | retry.go:249-258 | a Retry-After that parses fixes the delay on any status and attempt, also below the jitter |
| RetryStack.Exchange.BaseRoundTrip | retry.go:206 | the innermost call: it may read any part of the body and returns any response or error |
| RetryStack.Exchange.SnapshotBody | retry.go:327-353 | prefers GetBody, does nothing without a body, otherwise buffers the body and installs GetBody, or fails to read it |
| RetryStack.Exchange.Rewind | retry.go:327-336 | the rewound body; a GetBody failure gives an empty one |
| RetryStack.Exchange.ComputeBackoff | retry.go:248-276 | the delay is the planned wait, or a fresh sample from the window |
| RetryStack.Exchange.Sleep | retry.go:375-391 | cut short only by a context that is done; with both channels ready either may win |
| RetryStack.Exchange.AfterAttempt | retry.go:208-238 | returns the outcome, reports the cancellation, or drains, sleeps and goes round again |
| RetryStack.Exchange.Retry | retry.go:193-242 | the attempt loop of one layer; the return after the loop is unreachable |
| RetryStack.Exchange.RoundTrip | retry.go:179-242 | one RoundTrip of a stack of any depth behaves as the recursive specification Run |
| RetryStack.RunKeepsGetBody | retry.go:327-353 | once a layer has taken its snapshot no inner layer changes GetBody |
| RetryStack.DigestFrame | retry.go:208-238 | between attempts a layer sends nothing, leaves the body alone, sleeps at most maxBackoff, and not after the last attempt |
| RetryProofs.RunIsBounded | retry.go:200-242 | at most m1 * ... * mn base calls and total sleep at most (m-1)*maxBackoff + m*T(inner) |
| RetryProofs.RunIsExhaustive | retry.go:200-227 | the product is reached when every answer is retriable and the request can be replayed |
| RetryProofs.AnswersAreAccounted | retry.go:206-227 | a stack goes on only after an answer some layer finds retriable, and returns the answer it stopped at, a cancellation, or an unreadable body |
| RetryProofs.EveryBodyIsIntact | retry.go:185-206 | at every depth each base call starts with the unread original bytes, or, only after a GetBody failure, with none |
| RetryProofs.EveryBodyIsTheOriginal | retry.go:327-353 | with a GetBody that never fails, all base calls get exactly the original bytes |
| RetryProofs.BodylessPostIsSentOnce | retry.go:193-222 | a body-less non-idempotent request is sent once through any stack, or not at all if the context is done when the innermost layer is entered |
| RetryProofs.LedgerBalances | retry.go:206-242 | every stack returns exactly one of response and error, and leaves open only the response it returns |
| RetryPauses.RepeatableVerbs | retry.go:302-311 | exactly six verbs may be repeated without a body |
| RetryPauses.PostIsSentOnce | retry.go:193-222 | a body-less POST, PATCH or CONNECT goes out once through any stack, whatever the answer |
| RetryPauses.RetriesWaitForHeader | retry.go:227-238 | when n answers ask for a delay and the next ends the attempts, the layer sends n + 1 times and sleeps exactly n capped delays |
| RetryPauses.RetriesWaitForJitter | retry.go:227-238 | without a header it sleeps exactly the sum of the samples, each below the window of its attempt |
| RetryPauses.DefaultRetries | retry.go:56-76 | with the default policy a GET is sent three times for 429, 502, 503, 504 or an error, and once for any other status |
| RetryPauses.SecondBody | retry.go:199-204 | the second attempt has the caller's bytes again, or none if GetBody fails just then |
| RetryPauses.UnreadableIsNotSent | retry.go:185-191 | a body that cannot be read is not sent |
| RetryPauses.DoneBeforeEntry | retry.go:180-183 | a layer entered with the context done sends nothing |
| RetryPauses.DoneDuringCall | retry.go:208-211 | an error that comes back with the context done is not retried |
| RetryPauses.DoneDuringPause | retry.go:375-391 | a context done during the pause closes the response and ends the attempts, unless the timer wins |
| Session.ResendKeepsUrl | proxmox.go:257-259 | the URL of a resend equals the first one exactly when a rooted path does not meet a rooted base |
| SessionClient.AuthClient.Req | proxmox.go:256-319 | sends, and on 401 or 403 re-authenticates and resends; while the mutex is held it is only called for the ticket endpoint |
| SessionClient.AuthClient.HandleResponse | proxmox.go:484-545 | errors for non-2xx and unreadable or rejected bodies; a ticket reply is merged into the session, null clears it |
| SessionClient.AuthClient.SessionCredentials | access.go:64-80 | OTP and default realm go into a fresh copy, never into the caller's credentials, and the OTP leaves the client |
| SessionClient.AuthClient.PostTicket | access.go:82-84 | one request to the ticket endpoint with the given credentials, decoded into the session |
| SessionClient.AuthClient.RefreshTicketLocked | access.go:111-123 | renews with the current ticket as password, or reports that there is none |
| SessionClient.AuthClient.RefreshTicket | access.go:105-109 | the renewal under the mutex, which is free again afterwards |
| SessionClient.AuthClient.AuthenticateLocked | access.go:48-52 | full credentials, then a new expiry one hour ahead |
| SessionClient.AuthClient.CreateSession | access.go:30-55 | refuses a fresh session, else renews, else authenticates in full |
| SessionClient.AuthClient.Login | access.go:13-23 | a ticket exchange under the mutex that leaves the expiry alone |
| SessionProofs.TicketExchange | proxmox.go:297-301 | a ticket exchange makes at most one request, creates no session and touches neither clock, expiry nor OTP |
| SessionProofs.CreateSessionIsHealthy | access.go:34-52 | CreateSession keeps successes an hour apart |
| SessionProofs.AuthenticationsAreSpaced | access.go:30-55 | over any run, successive successful CreateSession calls are at least one hour apart |
| SessionProofs.ReqResends | proxmox.go:297-317 | resends repeat method, URL and body, number at most the re-authentications, and success means the last send was answered 2xx |
| SessionProofs.CreateSessionIsPaced | access.go:34-52 | a success comes an hour after the last one unless the session was taken away, which takes an accepted null ticket reply |
| SessionProofs.AuthenticationsArePaced | access.go:30-55 | over any run and with any ticket replies, the successes number at most one more than the hours from the first to the last plus the accepted null ticket replies |
| SessionProofs.SendsAreBounded | proxmox.go:297-313 | one Req sends at most 2 + floor(D / 1h) + n times, D counted from its first re-authentication and n the null ticket replies it accepted; without a re-authentication, once |
| SessionProofs.SendsAreBoundedByTime | proxmox.go:297-313 | with ticket replies that carry sessions, at most 2 + floor(D / 1h) times |
| SessionProofs.ReqIsExplained | proxmox.go:287-319 | whatever Req returns, the last request it made was answered accordingly |
| SessionProofs.ErrorsMatchAnswers | proxmox.go:76-85 | an error of Req is a not-authorized error exactly when the last answer was 401 or 403, and a not-found error exactly when it was 404 |
| SessionProofs.NullTicketsAreUnbounded | proxmox.go:540-542 | whatever the URL, one Req can accept n null ticket replies and send its request n + 1 times in no time, for every n: the bound is reached |
| SessionProofs.RenewalCarriesNoOtp | access.go:111-118 | a renewal neither carries nor spends the one-time password |
| SessionProofs.AuthenticateSpendsOtp | access.go:64-80 | the first full authentication spends the code, even if it fails |
| SessionProofs.OtpIsUsedOnce | access.go:57-80 | over any run the code is either still in the client or in exactly one ticket body |
| SessionAnswers.ExchangeAnswers | access.go:82-84 | a ticket exchange succeeds exactly when its reply is accepted, and leaves the session that the reply carries |
| SessionAnswers.FreshIsRefused | access.go:34-36 | CreateSession is refused exactly while the session is fresh, and sends nothing then |
| SessionAnswers.RenewalComesFirst | access.go:38-52 | an expired session is renewed with its own ticket as password and no code; if that is accepted nothing else is sent and the code is kept; the full credentials follow only when it is not |
| SessionAnswers.OtherwiseAuthenticates | access.go:48-80 | without a session to renew the full credentials go out once, with the code and the default realm where they apply |
| SessionAnswers.RefreshAnswers | access.go:111-123 | the renewal's body, and the expiry an hour after its success |
| SessionAnswers.LoginAnswers | access.go:13-23 | Login sends the given username and password and leaves the expiry alone |
| SessionAnswers.AnswerEndsReq | proxmox.go:287-319 | an answer other than 401 and 403 ends a request after one send and alone decides the result |
| SessionAnswers.ForbiddenEndsReq | proxmox.go:297-316 | without credentials, from the ticket endpoint or with a fresh session a 401 or 403 is returned as not authorized |
| SessionAnswers.ForbiddenIsRecovered | proxmox.go:303-314 | otherwise a session is established and the same request sent again, and the next answer decides |
| SessionAnswers.RefusedMeansUnsent | proxmox.go:277-294 | Req reports a refused request only when some request could not be sent |
| TicketWire.CodeOnWireIsBounded | retry.go:200-242 | over any run, through any stack of retry layers, the code is on the wire at most m1 * ... * mn times |
| TicketWire.CodeOnWireIsExhaustive | retry.go:200-242 | exactly that often when every answer is retriable and the code has left the client |
| SessionInterleaving.ReachableStatesAreSafe | access.go:30-123 | every step of every interleaving keeps mutual exclusion, the timing invariant and each request's history |
| SessionInterleaving.OneTicketInFlight | access.go:30-36 | at most one ticket exchange is on the wire |
| SessionInterleaving.MutexIsNeverReacquired | proxmox.go:297-305 | no goroutine is about to lock the mutex it holds; below a pending CreateSession there are only ordinary requests |
| SessionInterleaving.SomeGoroutineCanMove | access.go:31-32 | the mutex causes no deadlock |
| SessionInterleaving.AuthenticationsAreSpaced | access.go:34-52 | successes are an hour apart in every interleaving without null ticket replies |
| SessionInterleaving.OtpIsUsedOnce | access.go:64-80 | in every interleaving at most one ticket body carries the code, and none while the client still holds it |
| SessionInterleaving.SendsAreBounded | proxmox.go:297-313 | the send bound holds for each Req whatever other goroutines do |
| SessionSimulation.RunsAreInterleavings | access.go:13-123 | every run of the sequential client is a run of one goroutine of the machine, with the same sessions, expiries, clock readings, stamps and uses of the code |
| Tasks.Task.Ping | tasks.go:42-65 | an error leaves the receiver alone, a null reply re-derives the flags, a status object replaces all fields first |
| Tasks.Task.Wait | tasks.go:158-186 | one ping, then polling until the status is not running, an error, or the deadline |
| Tasks.UpidPartsAreReadBack | tasks.go:17-40 | the colon-separated fields a UPID was built from come back, if there are at least eight |
| Tasks.PingVerdict | tasks.go:52-63 | exactly when one status object makes a Task successful |
| Tasks.PolledReflects | tasks.go:168-185 | while polling, the fields always say what the newest status object says |
| Tasks.SuccessMeansStopped | tasks.go:67-76 | after Wait a new Task is successful exactly when the newest status object says stopped with exit status OK, or WARNINGS: and a number |
| Tasks.GoodExitIff | tasks.go:67-76 | the exit statuses that succeed are OK, and WARNINGS: followed by one or more digits |
| Tasks.FlagsMean | tasks.go:52-63 | completed, running, failed and successful, each in terms of the newest status object |
| Tasks.WaitEndsIff | tasks.go:168-185 | Wait finishes exactly when some poll within the deadline says other than running and all before it said running; it times out exactly when all said running; it fails exactly when an answer fails first; and which answers it has read |
| Tasks.SuccessIsReportedIff | tasks.go:158-186 | waiting ends well exactly when the first poll not to say running leaves stopped with a good exit |
| DeleteGuard.VirtualMachine.HasVolume | virtual_machine.go:547-555 | whether the volume id is among the non-null entries |
| DeleteGuard.VirtualMachine.ScanStorages | virtual_machine.go:498-544 | the storage loop with its requests in order |
| DeleteGuard.VirtualMachine.AwaitRemoval | virtual_machine.go:528-540 | deletes the volume that the lookup reply names, or the one asked for, waits, and demands success; a nil Task is a crash |
| DeleteGuard.VirtualMachine.DeleteCloudInitISO | virtual_machine.go:483-545 | the whole guard, starting from the tag |
| DeleteGuard.VirtualMachine.Delete | virtual_machine.go:464-476 | asks for the VM's deletion only when the guard passes, and returns its task or the error |
| DeleteGuard.GuardOkMeansNoError | virtual_machine.go:465-467 | on every return ok holds exactly when there is no error |
| DeleteGuard.RemovalIsConfirmed | virtual_machine.go:528-540 | an ISO deletion counts exactly when the answers about its task report a success |
| DeleteGuard.EligibleIff | virtual_machine.go:500-502 | a storage is scanned exactly when it is enabled and iso occurs in its content types |
| DeleteGuard.TaggedIff | virtual_machine.go:484 | the guard is on exactly when go-proxmox+cloud-init is among the tags |
| DeleteGuard.ScanClearsIff | virtual_machine.go:499-544 | the scan passes exactly when all eligible storages lack the ISO, or all before one where it was removed |
| DeleteGuard.RequestsOfScan | virtual_machine.go:499-544 | the scan sends exactly the requests due on the storages it comes to: each lookup, the listing if that failed, the deletion by the reply's volume id if it found the ISO |
| DeleteGuard.DecidingStorage | virtual_machine.go:503-540 | the first storage without a confirmed absence decides the scan, each failure with its own error |
| DeleteGuard.OnlyOwnIsoIff | storage.go:249-251 | nothing but the VM's own ISO is deleted exactly when that reply names it or no volume |
| DeleteGuard.VmDeletedIff | virtual_machine.go:464-545 | the VM DELETE is sent exactly when the tag is absent or the scan passes, once, and last |
| DeleteGuard.DeleteSucceedsIff | virtual_machine.go:464-476 | Delete returns no error exactly when the guard is cleared and the server accepted the deletion |
| TaskLog.Watcher.Log | tasks.go:82-84 | one contiguous page of at most 50 lines, or an error |
| TaskLog.Watcher.Send | tasks.go:117-119 | the text of every line of a page goes out once, in any order |
| TaskLog.Watcher.AwaitPage | tasks.go:86-111 | the first page with a line, from the first request or one of three retries |
| TaskLog.Watcher.TaskTail | tasks.go:131-153 | pings and fetches alternate until the job has ended or a request fails; each page starts where the last one stopped |
| TaskLog.Watcher.Watch | tasks.go:86-129 | fails exactly when there is no first page; else that page, then the tail from its length |
| TaskLog.FirstPageIff | tasks.go:89-111 | a first page is found exactly when one of the allowed requests brings lines and all before it succeed |
| TaskLog.WatchStartsIff | tasks.go:89-111 | the same for Watch itself, which makes up to four requests |
| TaskLog.PagesDeliverOnce | tasks.go:131-153 | consecutive pages deliver each line up to the cursor exactly once and no other |
| TaskLog.PagesAreOrdered | tasks.go:143-150 | every line of a page comes before every line of a later page |
| TaskLog.TailStops | tasks.go:131-153 | a tail goes on as long as the job is seen running and the log can be read; the reason it gives is what happened in the first turn that fails |
| TaskLog.TailLengthIff | tasks.go:131-153 | it has k pages exactly when turns 0 to k - 1 go on and turn k does not |
| TaskLog.TailPages | tasks.go:143-150 | each page begins where the last stopped and has all further lines of its answer, at most fifty |
| TaskLog.WatchIsExactIff | tasks.go:86-129 | Watch delivers exactly one range from start, each line once, exactly when start is 0 or the tail is empty |
| TaskLog.TailReachesEndIff | tasks.go:131-153 | a tail stops at the end of the log exactly when the last answer saw all lines and they fitted on its page |
| TaskLog.WatchDeliversLogIff | tasks.go:86-153 | Watch(0) delivers exactly the whole append-only log if and only if the last answered log request saw all lines with at most one page of them missing, also when the tail fetches nothing |
| TaskLog.WatchDeliversLogOfJobIff | tasks.go:86-153 | in terms of the answers alone: with turn k the first to fail, Watch(0) delivers exactly the whole log if and only if the log answer before it had all lines with at most fifty missing |
| TaskLog.LogCanBeCut | tasks.go:138-151 | both ways of losing lines: a backlog when the job ends, and lines written after the last fetch |
| Tags.TagConfig.HasTag | virtual_machine.go:113-133 | membership in the cached slice, which is filled on demand |
| Tags.TagConfig.SplitTags | virtual_machine.go:178-180 | the cache becomes the split tags string |
| Tags.TagConfig.AddTag | virtual_machine.go:135-151 | no-op when present, else the slice grows by the tag and the string is rejoined |
| Tags.TagConfig.CutAt | virtual_machine.go:164-167 | append over the same backing array shifts in place and leaves the old tail |
| Tags.TagConfig.RemoveTag | virtual_machine.go:153-176 | the range loop over the old header, with its panics, then the rejoined string |
| Tags.Container.AddTag | containers.go:413-430 | the same edit, mirrored into the container's own field |
| Tags.Container.RemoveTag | containers.go:435-459 | the same removal, mirrored into the container's own field |
| TagProofs.SweepPanicsIff | virtual_machine.go:162-169 | RemoveTag panics exactly when the value ends the list and occurs before that |
| TagProofs.SweepRemovesIff | virtual_machine.go:162-169 | exactly when RemoveTag removes the value, and that the rest then keeps its order |
| TagProofs.AddRefinesList | virtual_machine.go:135-151 | AddTag appends to the list of tags; a no-op exactly when the tag is there |
| TagProofs.RemoveRefinesList | virtual_machine.go:153-176 | RemoveTag deletes one tag of a distinct list and keeps the order; a no-op exactly when it is absent |
| TagProofs.RunRefinesList | virtual_machine.go:113-180 | over any run the tags string denotes what the edits make of a plain list, the cache agrees with it, nothing panics, and every answer is that of the list: HasTag's boolean, the no-ops and the tags sent |
| TagProofs.UnchangedIff | virtual_machine.go:135-160 | on the list, ErrNoop is the answer of an edit exactly when it changes nothing |
| TagProofs.RemovePanicsIff | virtual_machine.go:153-176 | on any config RemoveTag panics exactly when the value ends the list and occurs before that |
| TagProofs.RemoveWorksIff | virtual_machine.go:153-176 | on any config that has the tag, exactly when RemoveTag removes it and keeps the rest in order |
| TagProofs.AddedString | virtual_machine.go:144-145 | the string posted by AddTag is the old one, a semicolon and the tag |
| TagProofs.RemovedString | virtual_machine.go:162-171 | the string posted by RemoveTag is the other pieces with semicolons between them |
| PathTemplates.SchemaNormalizes | mage/endpoints/endpoints.go:545-559 | the schema rendering of a template normalises to its canonical form |
| PathTemplates.GoNormalizes | mage/endpoints/endpoints.go:536-559 | so does the Go rendering with any verbs, volume ids, trailing slashes and query |
| PathTemplates.CanonIsFixed | mage/endpoints/endpoints.go:548-559 | a canonical form is a fixed point |
| PathTemplates.CanonDeterminesShape | mage/endpoints/endpoints.go:548-559 | two templates have the same canonical form exactly when they have the same shape |
| PathTemplates.RootNormalizes | mage/endpoints/endpoints.go:555-557 | the root keeps its slash only when it is spelled with one |
| PathTemplates.FixedIff | mage/endpoints/endpoints.go:548-559 | normalizePath leaves a string alone exactly when it has no query, variable, verb, volume id or trailing slash |
| PathTemplates.IdempotentIff | mage/endpoints/endpoints.go:548-559 | a second pass changes the result of the first exactly when that contains a variable or a volume id |
| PathTemplates.VerbsAreSeven | mage/endpoints/endpoints.go:537 | the seven format verbs |
| Coverage.IndexSchema | mage/endpoints/endpoints.go:160-170 | the key set and the keys of each area |
| Coverage.MatchCalls | mage/endpoints/endpoints.go:187-199 | covered keys, unmatched calls, and matched + missed = number of calls |
| Coverage.ListUncovered | mage/endpoints/endpoints.go:207-219 | the uncovered entries in order and the number of excluded ones |
| Coverage.CountArea | mage/endpoints/endpoints.go:235-245 | the counts of one area, for any iteration order |
| Coverage.Tabulate | mage/endpoints/endpoints.go:233-247 | one row per area, for any iteration order |
| Coverage.CoverageReport | mage/endpoints/endpoints.go:155-247 | stale exclusions are an error exactly when one is not in the schema; otherwise all of the above |
| Coverage.CallMatchesIff | mage/endpoints/endpoints.go:190-198 | a call counts for an endpoint exactly when the verbs agree up to case and the templates have the same shape |
| Coverage.EndpointCoveredIff | mage/endpoints/endpoints.go:160-199 | a schema endpoint is covered exactly when some call has its verb and a path of its shape |
| Coverage.ClassMembers | mage/endpoints/endpoints.go:207-219 | the entries listed as covered, excluded or uncovered, each as often as the schema has it |
| Coverage.UnmatchedIff | mage/endpoints/endpoints.go:190-198 | the unmatched calls are those the schema does not know, each as often as it was found |
| Coverage.LowerAt | mage/endpoints/endpoints.go:561-563 | the codes of A to Z move up by 32, and no other |
| Coverage.AreaOfPath | mage/endpoints/endpoints.go:567-576 | the area in terms of the segments of a path |
| Coverage.EntriesAreConserved | mage/endpoints/endpoints.go:207-219 | every schema entry is exactly one of covered, excluded and uncovered |
| Coverage.CoveredFitsConsidered | mage/endpoints/endpoints.go:283-285 | the covered keys never exceed the denominator they are reported against |
| Coverage.AreasPartitionKeys | mage/endpoints/endpoints.go:160-170 | no key is in two areas and every key is in one |
| Coverage.RowBalances | mage/endpoints/endpoints.go:235-245 | covered + excluded + missing = total in each row, none negative |
| Coverage.AreaCountsAddUp | mage/endpoints/endpoints.go:233-247 | the covered counts of the areas add up to the covered keys |
| Coverage.AreaTotalsAddUp | mage/endpoints/endpoints.go:233-247 | so do the totals and the excluded counts |
| Devices.IndexedDeviceKey | types.go:1226-1243 | succeeds exactly on a non-empty digit-free prefix followed by digits, and returns that prefix |
| Devices.SplitIsUnique | types.go:1226-1243 | a key splits in at most one way |
| Devices.DeviceConfig.Route | types.go:1200-1219 | each map gains exactly the routed entries of its prefix, for any order of the raw object; containers.go has the same loop |
| Devices.DecodedIntoOneMap | types.go:1193-1219 | in a fresh config a known-prefix key with a string or null value is in exactly one map |
| Devices.NamedDeviceIsFound | types.go:1200-1243 | a known prefix followed by digits is found under its own name in the map of that prefix, with its string, or empty for null |
| Devices.MergeDisks | virtual_machine_config.go:6-14 | the union of the four bus maps, later buses winning |
| Devices.MergeIsDisjoint | virtual_machine_config.go:3-14 | on a decoded config no disk is lost and the sizes add up |
| Csv.Unmarshal | types.go:2154-2181 | strings are split, trimmed and filtered; lists and null pass through; the rest is an error |
| Csv.RoundTripIff | types.go:2154-2188 | marshal then unmarshal gives the same sequence exactly when every element is non-empty, comma-free and trimmed |
| Csv.ExactRoundTripIff | types.go:2154-2188 | nil-ness survives too, except for an empty list |
| Csv.ParseIsStable | types.go:2171-2187 | re-reading what a parsed value is written as changes nothing |
| Csv.PaddedValuesAreRead | types.go:2171-2181 | padded values between commas are read in order, trimmed, without the blank ones |
| Csv.OtherForms | types.go:2154-2188 | lists pass through untrimmed, null is nil, the rest is an error; nil is written as null |
| SshKeys.EncodesStrictly | proxmox.go:113-127 | EncodeSSHKeys is the percent-encoding of the newline-joined keys |
| SshKeys.EncodingIsFaithful | proxmox.go:117-127 | only unreserved characters and %XX, no plus sign, and it decodes back to the joined keys |
| SshKeys.KeysAreRecoveredIff | proxmox.go:113-127 | a non-empty list of keys is recovered exactly when no key contains a newline |
| SshKeys.UnreservedIff | proxmox.go:117-127 | the unreserved characters by code, as in section 2.3 of RFC 3986 |
| ClientOptions.Client.EnsureOwnHTTPClient | options.go:248-252 | afterwards the client is not the package default |
| ClientOptions.Client.EnsureTransport | options.go:258-274 | the client's own transport, or a clone of the default one, or none |
| ClientOptions.Client.EnsureTLSConfig | options.go:279-288 | the transport's TLS configuration, created when absent |
| ClientOptions.Client.InstallRetryWrapper | retry.go:154-167 | wraps the final transport, the default one when there is none |
| ClientOptions.Client.ApplyTLS | proxmox.go:215-223 | the options end up in the client's own transport, or have no effect when there is none to configure |
| ClientOptions.Client.ApplyTimeout | proxmox.go:225-228 | a positive timeout goes to a client of its own and changes nothing else |
| ClientOptions.Client.ApplyProxy | proxmox.go:230-236 | the proxy function goes to the client's own transport, whose TLS configuration stays |
| ClientOptions.Client.FinalizeOptions | proxmox.go:214-238 | without a client of the caller's own the package defaults stay unchanged, and the requested TLS options, proxy, timeout and retry wrapper are those of the transport that requests use |
| ClientOptions.OptionsMean | proxmox.go:217-219 | the configuration that a list of TLS options makes of another, field by field |
| ClientOptions.UnwrapsAll | proxmox.go:560-568 | unwrapping goes through any number of wrappers to what they were put around |
| ClientOptions.Client.WebsocketTLSConfig | proxmox.go:553-574 | returns that configuration through any number of retry wrappers |

## Left out

- Endpoint wrappers (`cluster_*.go`, `nodes_*.go`, most of `containers.go`, `storage.go`, `pools.go`): they format a path and call the client, so they would only add easy members.
- Websocket goroutines, multipart uploads, ISO creation and loggers: input and output, no state to prove anything about.
- JSON syntax, `copier`, `net/http`, TLS and HTTP-date parsing: replies appear decoded, and the date parser is a parameter.
- Liveness of the server and the unsynchronised reads in `authHeaders`.
- The Cookie and Authorization headers of a request, API tokens and `WithEagerAuth`.
- `scanCallSites` and `flatten`: call sites and schema entries are inputs of `CoverageReport`; sorting and printing are not modelled.
- `WithRootCAFile`, which edits a certificate pool that clones may share.
- Strings are sequences of characters: a byte that is not valid UTF-8, and case folding outside ASCII in `Coverage.Lower`, are not captured.
- RetryStack.Exchange.Sleep: counts the requested delay even when the sleep is cut short, so the sleep bound is on requested time.
- SessionClient.AuthClient.Req: interceptors may refuse a request but do not call back into the client, and nothing else modifies the caller's credentials during a call.
- SessionProofs.AuthenticationsAreSpaced: assumes that no accepted ticket reply is null; `AuthenticationsArePaced` bounds the successes without that assumption.
- SessionInterleaving.SendsAreBounded: assumes that no accepted ticket reply was null, since another goroutine's null reply counts too.
- SessionInterleaving.OneTicketInFlight: covers `Req`, `CreateSession`, `RefreshTicket` and `Login`. The exported `Client.Ticket` does not take the mutex; a program that calls it directly can have a second exchange in flight.
- TicketWire.CodeOnWireIsBounded: counts what the retry stack sends; redirects that `http.Client` follows above it are not modelled.
- TaskLog.WatchDeliversLogIff: assumes an append-only log, and is about a Watch that finds a first page; otherwise it returns an error and delivers nothing.
- SessionProofs.OtpIsUsedOnce: assumes that the caller's own credentials carry no one-time password.
- SessionProofs.SendsAreBounded: the caller's request is not itself one to the ticket endpoint.
- Tasks.SuccessMeansStopped: assumes that status objects do not carry the client's own flags; `PingVerdict` says what one that does would change.
- DeleteGuard.VirtualMachine.AwaitRemoval: an ISO deletion answered with an empty id makes `NewTask` return nil, which the model records as a crash; the VM is not deleted then.
- Tags.TagConfig.AddTag: the config has been loaded, since `AddTag` dereferences it; how far `append` grows a full array is one possible choice.
- PathTemplates.GoNormalizes: a template has at least one segment; `RootNormalizes` says what happens to the root.
- TaskLog.Watcher.Watch: the goroutine runs to its end, and every row of a page carries its number and text.
- ClientOptions.Client.EnsureTransport: a default transport that holds a nil `*http.Transport` makes `Clone` panic; the model treats it as no transport.
