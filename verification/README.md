# KNOX: a verified model

KNOX is a gateway in front of n8n. It keeps JIT access tickets in PostgreSQL and moves them
along with in-memory timers, keeps user sessions with a reverse index for back-channel logout,
caches n8n cookies and retries a request once when one has gone stale, hands out one-shot OIDC
`state` values, and decides by role which requests may change n8n. This project models those
parts in Dafny and proves what they promise.

`dafny verify dfyconfig.toml` checks everything.

| files | what they hold |
|---|---|
| Options, Texts, Tickets, Lifecycle, Validation, DurationText | shared types, splitting and letter case, tickets, their status table, what each ticket operation does when it runs alone, request validation, the printed duration |
| JitService | repository, scheduler and handlers as objects; every method is proved equal to its Lifecycle function |
| SerialRuns, SerialTheorems, HandlerTheorems | runs in which each handler call, timer callback and restart is one step, what holds in all of them, and what each step does, column by column |
| Interleavings, InterleavingTheorems | the same service one database statement or lock section at a time, with crashes, what survives every interleaving, and when a terminal status does |
| RunAlone | a goroutine that nothing interrupts has the effect of its one-step handler |
| SessionStore, SessionTheorems | the two-map session store as an object, and its meaning as a set of sessions over all runs |
| CookiePool, ResponseBuffer, RetryProxy | the cookie cache (alone and interleaved), the buffering response writer, the retry protocol |
| OidcStates | the `state` table, alone and interleaved |
| TicketQuery | the list queries as they are built, what they select, and paging |
| PathClean, PolicyEngine, PolicyDecisions | path normalisation, role decisions, the policy middleware, and what is allowed method by method and path by path |

## Assumptions

- One clock that does not go back, in nanoseconds; instants and differences to them fit in the
  64-bit range of a Go Duration where a timer is set.
- Row ids, session ids, and OIDC states are fresh when they are made.
- A ticket's id is written in the path as the database writes it; what happens otherwise is
  SerialTheorems.CancelNeedsCanonicalId.
- In serial runs a database failure happens before any write. Failures of a handler change
  nothing; a failure in a timer callback loses the timer, and the theorems say what that costs.
  The handlers' and callbacks' own contracts cover a failed read after the write as well, and
  SerialTheorems.UnreadCancellation says what one costs. In Interleavings any goroutine may stop
  anywhere, so there no such assumption is made.
- The reverse proxy passes every interim status of the backend to the writer before the final
  answer, as net/http/httputil documents.
- A request with the zero time as a period bound, a path with dots, a full or absent body, a
  duplicate SID and the like are all within the theorems, not excluded from them.

## Where the code is not what it promises

- A timer lost to a database failure is not set again until a restart, an approval or the end
  of the ticket: timers match the table iff none is lost (TimersMatchTable, RestartRepairs);
  TimerLost gives the run, and only failures lose timers (LosingTakesFailure).
- A cancellation under another spelling of the id, or one whose row cannot be read back, leaves
  the timer that will overwrite it (CancelNeedsCanonicalId, UnreadCancellation). So does an
  administrator's change that cannot be read back: `revoked` turns `active` at period_start
  (UnreadAdminUpdate, UnreadRevocation).
- Under interleaving a terminal status can be overwritten (ExpiredCanBeOverwritten). It survives
  every continuation iff nothing under way is about to write another (TerminalSurvivesIff).
- A period bound equal to the zero time switches both period checks off (PeriodTestRightIff,
  ZeroTimeEscapes).
- A duration is printed as it is iff it is not negative and fits a Duration (PrintedTrulyIff).
- A comment says that bodies over 32 MiB are proxied directly; the code cuts them
  (BodyWholeIffItFits).
- A backend that sends an interim status first defeats the retry, and its answer arrives as 200
  (InterimsDefeatRetry); the buffer loses a status iff an interim one came first and the final
  one is not 200 (FlushIsDirectIff, InterimBecomesOK).
- The limit parameter is documented with a maximum; the code answers a larger one with 50
  tickets, so a client stepping by what it asked for misses tickets, iff there are more than 50
  (PagesCoverAnswerIff, PagesCoverIff). Tickets
  created at the same instant can come twice, or not at all, across pages, iff a page ends
  between two of them (PagingStableIff).
- A second login with a stored SID breaks the index for back-channel logout (StepExact,
  LogoutExactIffIndexExact), and makes expiry sweeps visible (LogoutHidesSweepIff,
  SweepUnseenIff).
- A call that already holds a cookie when it is invalidated still returns it, and may store it
  (InvalidationFinalIff).
- The middleware reads and sanitizes a body by the method and path as they came, the engine
  decides by the method in capitals and the cleaned path. As to the decision the difference only
  denies (MiddlewareDecision). As to the sanitizer it does not: an edit that the roles grant
  passes with a dirty body iff its raw method and path do not look like an edit's
  (DirtyEditPassesIff, SmallCaseEditUnseen); edits under /rest with a clean path and a method in
  capitals always do (PlainEditsSanitized).

## Model

| member | source | states |
|---|---|---|
| JitService.Repository.CreateTicket | knox-proxy/jit/repository.go:26-60 | a new row appears with the ticket's contents and status requested, and nothing else changes; nothing at all on failure |
| JitService.Repository.GetTicketByID | knox-proxy/jit/repository.go:65-90 | returns the row, or nothing iff there is none |
| JitService.Repository.UpdateTicketStatus | knox-proxy/jit/repository.go:221-251 | select, table check, update and re-read change the row iff it exists, the table allows the change and the database holds until the write, and return it iff it can be read back |
| JitService.Repository.SystemUpdateStatus | knox-proxy/jit/repository.go:256-273 | the forced write happens for any row whose status differs from the target, keeps the reason, and returns the row iff it can be read back |
| JitService.Repository.GetPendingTransitions | knox-proxy/jit/repository.go:276-292 | scans exactly the rows awaiting a timed transition, each once, in any order |
| JitService.Scheduler.Cancel | knox-proxy/jit/scheduler.go:44-53 | that ticket's timer is gone, the others stay |
| JitService.Scheduler.Schedule | knox-proxy/jit/scheduler.go:56-97 | the old timer is replaced by the one the status calls for, with a delay never below zero, or by none |
| JitService.Scheduler.ExecuteTransition | knox-proxy/jit/scheduler.go:100-130 | map entry, row, webhook and next timer change together; only the map entry when the write fails, entry and row when the re-read does |
| JitService.Scheduler.InitFromDB | knox-proxy/jit/scheduler.go:27-41 | after the loop every pending row has its fitting timer and no other entry changed, whatever the row order and the clock readings |
| JitService.Handler.HandleRequestJIT | knox-proxy/jit/handler.go:100-181 | an acceptable request of a user inserts, schedules and reports one ticket; every refusal, of an undecodable body too, changes nothing |
| JitService.Handler.HandleCancelTicket | knox-proxy/jit/handler.go:256-327 | only the owner of a requested ticket cancels it; the timer under the path's spelling goes; a row written but not read back is refused and keeps its timer; replies and unchanged state otherwise |
| JitService.Handler.HandleAdminUpdateStatus | knox-proxy/jit/handler.go:410-479 | approve reschedules, reject and revoke cancel the timer, each reported once; a row written but not read back is refused unreported; anything else, an undecodable body too, is a bad request without effect |
| HandlerTheorems.RequestReply | knox-proxy/jit/handler.go:100-155 | a request is refused without a user, as unacceptable, or for a failing database, in that order, and then changes nothing |
| HandlerTheorems.RequestOutcome | knox-proxy/jit/handler.go:128-175 | an acceptable one is stored field by field as asked and by whom, gets its expiry timer and one call, and touches no other row |
| HandlerTheorems.CancelOutcome | knox-proxy/jit/handler.go:275-327 | a cancellation succeeds iff the requester asks and the ticket is requested; then status, reason, author and time change, the timer under the path's spelling goes, one call is made; else nothing changes |
| HandlerTheorems.AdminUpdateOutcome | knox-proxy/jit/handler.go:430-478 | requested to approved or rejected, and approved or active to revoked, succeed and nothing else does; then status, reason, author and time change, the activation timer is set or the timer goes, one call is made; else nothing changes |
| HandlerTheorems.RefusedUnchanged | knox-proxy/jit/handler.go:256-312 | without a user or an id, or with a failing database, nothing changes |
| HandlerTheorems.CallbackOutcome | knox-proxy/jit/scheduler.go:100-130 | a callback changes any other status than its target, as the system, keeping the reason; activation sets the expiry timer, expiry none; one call is made |
| HandlerTheorems.WholeLife | knox-proxy/jit/scheduler.go:56-130 | every acceptable request has a run whose history is requested, approved, active, expired |
| Validation.ValidateCreateRequest | knox-proxy/jit/handler.go:551-603 | the messages are exactly the complaints that hold, and there is none iff the request is acceptable |
| Validation.AccessErrors | knox-proxy/jit/handler.go:565-569 | each access type that is neither run nor edit gets a message every time it occurs, and nothing else does |
| Validation.PeriodTestExact | knox-proxy/jit/handler.go:585-593 | the saturating test is the true length test for all non-zero periods iff the limit is below MaxInt64 |
| Validation.PeriodTestRightIff | knox-proxy/jit/handler.go:585-593 | below MaxInt64 the period test is right for all ends iff the start is not the zero time, and for all starts iff the end is not |
| Validation.AcceptedPeriod | knox-proxy/jit/handler.go:585-593 | an otherwise acceptable request is accepted iff its period is positive and within the limit, or a bound is the zero time |
| Validation.AcceptableMeans | knox-proxy/jit/handler.go:551-603 | what is accepted, character by character: id alphabet, access types, period, and ten characters of description from first to last that is not blank |
| Validation.TrimSpaceTrims | knox-proxy/jit/handler.go:596 | trimming takes all blanks off both ends and nothing else |
| Validation.AccessStringReads | knox-proxy/jit/handler.go:132-133 | the stored text, split at its commas, is the access types asked for, each as often, in sorted order |
| Validation.ZeroTimeEscapes | knox-proxy/jit/handler.go:585 | a request whose period ends before it starts is accepted when a bound is the zero time |
| DurationText.TextReads | knox-proxy/jit/models.go:59-76 | the text printed for any duration reads back as its whole minutes, none for a negative one |
| DurationText.SameTextSameMinutes | knox-proxy/jit/models.go:59-76 | any two periods print alike iff they have the same whole minutes, as far as a Duration holds them |
| DurationText.PrintedTrulyIff | knox-proxy/jit/models.go:59-76 | a period's text names its true minutes iff it does not end before it starts and its minutes fit a Duration |
| DurationText.TextOfParts | knox-proxy/jit/models.go:59-76 | days, hours and minutes are printed from the first that is not zero, each with its letter |
| Tickets.PathDepth | knox-proxy/jit/models.go:22-35 | a status history along the table and requested to expired is never longer than its last status is deep |
| SerialRuns.RunKeepsInv | knox-proxy/jit/scheduler.go:27-130 | every serial run keeps table, timers, decisions, histories and webhook calls consistent, ticket by ticket |
| SerialTheorems.StatusFollowsClock | knox-proxy/jit/scheduler.go:56-130 | a status is the clock function of the last accepted decision iff the ticket is not overdue, and a ticket whose timer is not lost is overdue iff its timer is due |
| SerialTheorems.QuiescentStatuses | knox-proxy/jit/scheduler.go:56-130 | with no timer due and none lost every status is the clock function's value |
| SerialTheorems.TimersMatchTable | knox-proxy/jit/scheduler.go:44-130 | timers are the pending tickets less the lost ones, exactly the pending ones iff none is lost, each with the target and due time its row requires |
| SerialTheorems.CancelNeedsCanonicalId | knox-proxy/jit/handler.go:300-320 | an accepted cancellation removes the ticket's timer iff the path spells the id as the row does; otherwise that timer, once due, overwrites canceled with expired |
| SerialTheorems.UnreadCancellation | knox-proxy/jit/handler.go:300-320 | a cancellation written but not read back is refused, unreported, and will be overwritten by the timer left |
| SerialTheorems.UnreadAdminUpdate | knox-proxy/jit/handler.go:441-449 | an administrator's change written but not read back is refused and unreported, and the timer for the earlier status stays and overwrites it at that status's time |
| SerialTheorems.UnreadRevocation | knox-proxy/jit/handler.go:441-449 | such a revocation of an approved ticket is overwritten with active from period_start on |
| SerialTheorems.LosingTakesFailure | knox-proxy/jit/scheduler.go:100-115 | a run without database failures in callbacks and restarts loses no timer |
| SerialTheorems.TimerLost | knox-proxy/jit/scheduler.go:100-115 | for any acceptable request there is a run that loses its timer and leaves it requested and overdue |
| SerialTheorems.AcceptedRequest | knox-proxy/jit/handler.go:117-174 | after an accepted request every column holds what was asked and by whom, only the requester may cancel, the expiry timer is due exactly from the period's end, and the stored period is bounded |
| SerialTheorems.RestartInvisible | knox-proxy/jit/scheduler.go:27-41 | when no timer is lost, a restart changes neither which continuations are possible nor what they lead to |
| SerialTheorems.RestartAtAnyClock | knox-proxy/jit/scheduler.go:27-41 | whenever InitFromDB read the clock for each ticket, what it rebuilds differs from a restart's timers only in setting times and so leads to the same runs |
| SerialTheorems.RestartRepairs | knox-proxy/jit/scheduler.go:27-41 | for every lost timer a restart makes the overdue transition possible that is impossible without it |
| SerialTheorems.HistoriesArePaths | knox-proxy/jit/models.go:22-35 | each history is a path of at most three changes ending in the row's status, and the webhook calls for the ticket are that history |
| SerialTheorems.TerminalAbsorbs | knox-proxy/jit/models.go:22-26 | rows never lose their request, and a row in a terminal status never changes again, in any run |
| SerialTheorems.FiringsUseRank | knox-proxy/jit/scheduler.go:100-130 | among firings that may fail, each success uses up exactly one transition of its ticket, and all firings together are no more than it had ahead |
| SerialTheorems.DrainStops | knox-proxy/jit/scheduler.go:100-130 | any sequence of firings, failing ones included, has at most two for a ticket and at most twice as many as there are tickets |
| SerialTheorems.DrainEnds | knox-proxy/jit/scheduler.go:100-130 | past every period, when nothing can fire, no timer is left and exactly the tickets with a lost timer are not terminal |
| Interleavings.WritesAreJustified | knox-proxy/jit/repository.go:221-273 | in every interleaving active is written only from period_start on and after an approval, expired only from period_end on, revoked after an approval, the other decisions after the request, requested only first |
| Interleavings.RowsKeepTheirRequest | knox-proxy/jit/repository.go:237-263 | in every interleaving all but status, reason, author and update time of a row is as inserted, and its status was written for it |
| Interleavings.RunKeepsInv | knox-proxy/jit/scheduler.go:44-130 | every interleaving with crashes and stops keeps the log, rows, goroutines and runtime timers justified |
| InterleavingTheorems.WritersAreRight | knox-proxy/jit/handler.go:283-301 | in every interleaving canceled is written only by the ticket's requester, active and expired only by the scheduler |
| InterleavingTheorems.TerminalSurvivesIff | knox-proxy/jit/repository.go:222-273 | a terminal status survives every continuation iff no goroutine is on its way to writing, and no timer is set for, another status of that ticket |
| InterleavingTheorems.CrashSettles | knox-proxy/jit/scheduler.go:27-41 | after a crash every terminal status survives every continuation |
| InterleavingTheorems.ExpiredCanBeOverwritten | knox-proxy/jit/repository.go:222-245 | for every ticket there is an interleaving in which an approval overwrites expired |
| RunAlone.FinishIsRun | knox-proxy/jit/repository.go:221-273 | running a goroutine to its end is a run of its own turns only |
| RunAlone.ArmAlone | knox-proxy/jit/scheduler.go:56-97 | a scheduling's cancel, plan and insert, uninterrupted, leave the timer Schedule sets |
| RunAlone.RequestAlone | knox-proxy/jit/handler.go:148-174 | a request's insert and scheduling, uninterrupted, leave the rows and timers of the one-step handler |
| RunAlone.CancelAlone | knox-proxy/jit/handler.go:266-320 | so do a cancellation's read, select, update, re-read and timer removal |
| RunAlone.AdminAlone | knox-proxy/jit/handler.go:441-470 | and an administrator's select, update, re-read and timer change |
| RunAlone.CallbackAlone | knox-proxy/jit/scheduler.go:100-130 | and a firing with its callback's map entry, write, re-read and rescheduling |
| RunAlone.RecoveryAlone | knox-proxy/jit/scheduler.go:27-41 | after a crash, pending tickets read in any order and scheduled one by one have just the timers they call for |
| SessionStore.SessionManager.CreateSession | knox-proxy/auth/session.go:45-72 | both maps after a login, the expiry from the second clock reading; nothing when no id could be made |
| SessionStore.SessionManager.GetSession | knox-proxy/auth/session.go:75-84 | the session iff stored and not past its expiry |
| SessionStore.SessionManager.DestroySession | knox-proxy/auth/session.go:87-97 | the session and its SID's index entry are gone, nothing else |
| SessionStore.SessionManager.DestroyByKeycloakSID | knox-proxy/auth/session.go:102-113 | the session the index names is gone with the entry, and the answer says whether there was one |
| SessionStore.SessionManager.CleanExpired | knox-proxy/auth/session.go:148-164 | for any iteration order exactly the expired sessions and their SIDs' entries are gone, and the count is the drop in size |
| SessionTheorems.RunSound | knox-proxy/auth/session.go:45-113 | in every run with fresh ids each index entry points to a stored session carrying that SID |
| SessionTheorems.StepExact | knox-proxy/auth/session.go:45-113 | the index stays the inverse of the SID field through a step iff the step brings no SID already stored |
| SessionTheorems.RunExact | knox-proxy/auth/session.go:45-164 | in every run with fresh ids and SIDs the index is the inverse of the SID field |
| SessionTheorems.CreateAdds | knox-proxy/auth/session.go:66-69 | a login adds one session to the set |
| SessionTheorems.DestroyRemoves | knox-proxy/auth/session.go:87-97 | a logout removes from the set exactly the session with that id |
| SessionTheorems.SweepRemoves | knox-proxy/auth/session.go:148-164 | a sweep keeps exactly the unexpired sessions of the set |
| SessionTheorems.SessionLives | knox-proxy/auth/session.go:45-113 | a session is found until its maximum age in seconds has passed and not after, nor after its logout by id or SID; other sessions are found as before |
| SessionTheorems.GetIsExact | knox-proxy/auth/session.go:75-84 | a lookup finds the session as stored iff it is there and its expiry has not passed |
| SessionTheorems.LogoutExactIffIndexExact | knox-proxy/auth/session.go:102-113 | back-channel logout removes exactly the sessions with the SID and reports whether there was one, for every SID, iff the index is the inverse of the SID field |
| SessionTheorems.SweepInvisible | knox-proxy/auth/session.go:148-164 | with fresh ids and SIDs, after a sweep every later lookup answers as without it, whatever happens in between |
| SessionTheorems.SweepKeepsAnswers | knox-proxy/auth/session.go:75-84 | in any store at all a sweep changes no lookup made then or later |
| SessionTheorems.LogoutHidesSweepIff | knox-proxy/auth/session.go:102-164 | a back-channel logout after a sweep has the same effect as without it iff the sweep did not take the entry of an unexpired session for an expired one with its SID |
| SessionTheorems.SweepUnseenIff | knox-proxy/auth/session.go:45-164 | with fresh ids but any SIDs, a sweep can never be seen by what follows iff it meets no expired session that has a SID |
| CookiePool.Pool.GetCookie | knox-proxy/cookie/pool.go:64-90 | run alone: a fresh entry is returned as is, otherwise a successful login is stored with the TTL and returned |
| CookiePool.FetchAfterInvalidate | knox-proxy/cookie/pool.go:64-90 | run alone after an invalidation the result is the fresh login's |
| CookiePool.LoginIsCached | knox-proxy/cookie/pool.go:64-90 | after a miss a login's cookie answers every fetch for its email, without another login, until the TTL has passed, and none from then on; other emails' entries stay |
| CookiePool.FreshIsReturned | knox-proxy/cookie/pool.go:70-81 | a fresh entry is returned and nothing changes; without one a failed login fails the fetch and changes nothing |
| CookiePool.CallAlone | knox-proxy/cookie/pool.go:64-90 | a call that nothing interrupts leaves the cache, and returns the cookie, of the one-step fetch |
| CookiePool.StepsAlone | knox-proxy/cookie/pool.go:136-149 | the interleaved invalidations are the pool's operations |
| CookiePool.CachedCookies | knox-proxy/cookie/pool.go:64-149 | in every interleaving a cached cookie came from a login for its email and was stored after the last invalidation covering it |
| CookiePool.ReturnedCookies | knox-proxy/cookie/pool.go:64-90 | in every interleaving a returned cookie came from an earlier login for the same email, and a hit is served strictly before store time plus TTL |
| CookiePool.InvalidationFinalIff | knox-proxy/cookie/pool.go:64-149 | after an invalidation, of one email or of all, only cookies of later logins are returned for the email, in every continuation, iff no call in flight was holding one |
| ResponseBuffer.BufferedResponse.WriteHeader | knox-proxy/proxy/handler.go:345-350 | only the first status counts |
| ResponseBuffer.BufferedResponse.Write | knox-proxy/proxy/handler.go:352-359 | bytes are appended, with an implicit 200 first |
| ResponseBuffer.BufferedResponse.FlushTo | knox-proxy/proxy/handler.go:362-373 | for any order of header names all values are added, then status and body are written |
| ResponseBuffer.EditMeans | knox-proxy/proxy/handler.go:341-343 | setting, adding and deleting a header change that name's values as they say and no other's |
| ResponseBuffer.FlushIsDirectIff | knox-proxy/proxy/handler.go:327-373 | for all calls the body is the direct one; the status iff no interim status came first or the final one is 200; the headers iff the edits after the commit leave them as they were |
| ResponseBuffer.BufferUnnoticed | knox-proxy/proxy/handler.go:327-373 | with final statuses and no late header edits the client cannot tell buffered from direct writing |
| ResponseBuffer.InterimBecomesOK | knox-proxy/proxy/handler.go:345-373 | an interim status followed by any final one is answered 200 through the buffer and with that one directly |
| RetryProxy.ProxyHandler.Director | knox-proxy/proxy/handler.go:78-122 | the target, and the rewritten host and headers |
| RetryProxy.ClientCookiesStay | knox-proxy/proxy/handler.go:97-112 | what leaves for the backend does not depend on the client's cookies and carries only the pool's |
| RetryProxy.ForwardingHeaders | knox-proxy/proxy/handler.go:78-122 | target, path, host and body as given; the forwarding headers name the client's host, and its protocol if it said one; all other headers stay |
| RetryProxy.ShownHeaders | knox-proxy/proxy/handler.go:125-130 | the backend's cookies stay behind, its status, body and other headers go through |
| RetryProxy.TeamIsFirst | knox-proxy/proxy/handler.go:295-305 | the team is the rest of the first group longer than the prefix it starts with, and there is none iff no group is |
| RetryProxy.StreamsIff | knox-proxy/proxy/handler.go:310-321 | streams are WebSocket upgrades in any case and what lies under the two paths |
| RetryProxy.BodyWholeIffItFits | knox-proxy/proxy/handler.go:208-220 | every attempt of a run carries the client's body iff that has at most 32 MiB, and otherwise its first 32 MiB |
| RetryProxy.ProxyHandler.Retry | knox-proxy/proxy/handler.go:257-284 | invalidation, a fresh login, and with a cookie one more attempt with the same bytes, whose answer replaces the first |
| RetryProxy.ProxyHandler.ServeBuffered | knox-proxy/proxy/handler.go:205-290 | the run is one of the protocol's, for backends that send interim statuses too; the second fetch is a fresh login, and each attempt's answer is the backend's |
| RetryProxy.ProxyHandler.ServeStream | knox-proxy/proxy/handler.go:182-201 | a stream makes one attempt with its whole body and no retry |
| RetryProxy.ProxyHandler.ServeHTTP | knox-proxy/proxy/handler.go:150-290 | refusals before any cookie is fetched, then the stream or the retry protocol, starting from the cached cookie while it is fresh and from a login otherwise; refused for want of a cookie iff neither is there; the email's entry afterwards, and no other's change |
| RetryProxy.ProtocolAttempts | knox-proxy/proxy/handler.go:241-290 | at most two attempts with the same bytes, the second only after a 401, an invalidation and a cookie |
| RetryProxy.InterimsDefeatRetry | knox-proxy/proxy/handler.go:250-290 | a 401 is followed by invalidation and fetch iff no interim status came before it, and the client gets the last answer iff none came before that or it was a 200 |
| OidcStates.StateTable.Callback | knox-proxy/auth/oidc.go:145-160 | the entry is taken out, and accepted iff not past its expiry, with its redirect or the home page |
| OidcStates.StateTable.CleanStates | knox-proxy/auth/oidc.go:288-301 | one pass keeps exactly the unexpired entries, in any order |
| OidcStates.SweepIsExact | knox-proxy/auth/oidc.go:288-301 | a pass keeps an entry, as it is, while its ten minutes last, and no other |
| OidcStates.LoginThenCallback | knox-proxy/auth/oidc.go:132-160 | alone, a login's state is accepted within ten minutes with the login's redirect, once |
| OidcStates.StepsAlone | knox-proxy/auth/oidc.go:145-160 | a callback's two interleaved steps, uninterrupted, take the entry and answer as the object does; a sweep step likewise |
| OidcStates.StatesAreOneShot | knox-proxy/auth/oidc.go:132-160 | in every interleaving an accepted callback used an issued state within ten minutes with its stored redirect, and no other callback for it is accepted |
| OidcStates.FirstUseAccepted | knox-proxy/auth/oidc.go:132-160 | whatever was swept, the first callback for an issued state within ten minutes is accepted |
| OidcStates.SweepsInvisible | knox-proxy/auth/oidc.go:288-301 | leaving all sweeps out of a run leaves every callback's answer as it was |
| TicketQuery.ListAllQuery | knox-proxy/jit/repository.go:147-214 | the clause selects what the plain filter selects, for count and data alike; placeholders are $1..$n in order, one argument each; limit and offset are bound to their effective values |
| TicketQuery.ListByEmailQuery | knox-proxy/jit/repository.go:94-144 | the same for a user's tickets, with a limit of 1 to 100 |
| TicketQuery.AnswersMeanFilter | knox-proxy/jit/repository.go:182-213 | any answer to the built query, with the limit and offset its placeholders are bound to, is a page of the matching tickets, newest first, of the effective size and place, with their number as total |
| TicketQuery.AnswersMeanEmail | knox-proxy/jit/repository.go:116-143 | the same for a user's own tickets |
| TicketQuery.PagesCoverAnswerIff | knox-proxy/jit/repository.go:148-150 | pages read by stepping with the asked limit make up an answer iff that limit is at most 200 or the answer has at most 50 tickets |
| TicketQuery.PagesCoverIff | knox-proxy/jit/repository.go:148-150 | pages read by stepping with the asked limit make up every answer iff that limit is at most 200 |
| TicketQuery.PagingStableIff | knox-proxy/jit/repository.go:197-198 | pages of any size read by separate queries, each in an order of its own, never repeat a ticket, and never miss one, iff no page ends between two tickets of the same creation time |
| TicketQuery.DistinctTimesIff | knox-proxy/jit/repository.go:197-198 | that holds for every page size iff no two matching tickets have the same creation time |
| TicketQuery.PagesAreTheAnswer | knox-proxy/jit/repository.go:147-214 | with distinct creation times the pages of separate queries concatenate to the whole ordered answer |
| TicketQuery.ParamReads | knox-proxy/jit/handler.go:654-663 | a decimal number is read as itself up to MaxInt64 and as the default beyond |
| TicketQuery.LimitsInRange | knox-proxy/jit/handler.go:358 | whatever the parameter says the limit used is in range, and it is what the parameter says iff that is in range |
| TicketQuery.ParamDefaults | knox-proxy/jit/handler.go:654-663 | anything but a number, and a negative one, is read as the default |
| TicketQuery.StatusTexts | knox-proxy/jit/models.go:10-18 | each status text a filter may hold stands for its one status |
| PathClean.CleanRules | knox-proxy/policy/engine.go:50 | the documented rules of path.Clean hold as rewritings anywhere in a path |
| PathClean.ResolveKeeps | knox-proxy/policy/engine.go:50 | segments no rule applies to all stay |
| PathClean.CleanIdempotent | knox-proxy/policy/engine.go:50 | cleaning twice is cleaning once |
| PathClean.CleanedParts | knox-proxy/policy/engine.go:98 | a cleaned rooted path splits into ordinary segments that join back to it |
| PolicyEngine.CleanSameDecision | knox-proxy/policy/engine.go:48-65 | a path and its cleaned form get the same decision |
| PolicyEngine.APIPathParts | knox-proxy/policy/engine.go:97-104 | a mutation on an API path has at least two parts, all ordinary |
| PolicyEngine.ShortPathUnreachable | knox-proxy/policy/engine.go:100-102 | the branch for short paths is never taken |
| PolicyEngine.RolesDistinct | knox-proxy/policy/engine.go:190-202 | distinct action and valid id give distinct roles, none equal to a wildcard |
| PolicyEngine.AllowedIffMet | knox-proxy/policy/engine.go:48-214 | a request is allowed iff the roles meet what its path demands |
| PolicyEngine.MoreRolesAllowMore | knox-proxy/policy/engine.go:192-208 | adding, repeating or reordering roles never turns allow into deny |
| PolicyEngine.RunRolesNeverEdit | knox-proxy/policy/engine.go:164-179 | run roles alone never allow what demands editing |
| PolicyEngine.MiddlewareDecision | knox-proxy/middleware/chain.go:197-216 | the middleware allows iff the full body would be allowed and, where the body decides, it was read |
| PolicyEngine.WithholdingDenies | knox-proxy/policy/engine.go:69-94 | withholding the body never turns deny into allow |
| PolicyEngine.Policy | knox-proxy/middleware/chain.go:188-272 | the handler behind the middleware sees the body unchanged with its length; refusals as decided |
| PolicyDecisions.ReadsAndOtherPaths | knox-proxy/policy/engine.go:50-61 | GET, HEAD and OPTIONS in any case, and all paths outside /rest and /api, are open to all |
| PolicyDecisions.MutationDecisions | knox-proxy/policy/engine.go:97-214 | any other method on a clean path under /rest or /api: internal resources are open, existing executions take any role, starting one a run role for the workflow named, a workflow an edit or run role for it, all else is refused |
| PolicyDecisions.WorkflowChange | knox-proxy/policy/engine.go:164-214 | POST, PUT, PATCH and DELETE in any case on a workflow take an edit role for it, and the refusal names that role |
| PolicyDecisions.WorkflowChangeOutcome | knox-proxy/middleware/chain.go:188-268 | the middleware's answers to a change of a workflow: no user, unreadable, no role, dirty, passed on |
| PolicyDecisions.StartOutcome | knox-proxy/middleware/chain.go:188-268 | its answers to starting an execution or a workflow's run |
| PolicyDecisions.WorkflowNamed | knox-proxy/policy/engine.go:69-94 | a non-empty workflowData.id names the workflow, else workflowId, else nothing does |
| PolicyEngine.DirtyEditPassesIff | knox-proxy/middleware/chain.go:203-265 | with the sanitizer on, an edit with a dirty body passes iff the roles grant it and the test of the raw method and path does not take it for an edit |
| PolicyEngine.PlainEditsSanitized | knox-proxy/middleware/chain.go:250 | that test takes every request under /rest that demands a role for a workflow, with a clean path and one of the four methods in capitals |
| PolicyEngine.SmallCaseEditUnseen | knox-proxy/middleware/chain.go:290-293 | an edit of any workflow under a small-case method is an edit to the engine and not to that test |

## Left out

- HTTP, PostgreSQL, Vault, Keycloak and n8n transport, JWT checks, JSON and YAML decoding, random ids: parameters, parsed values or freshness assumptions.
- PostgreSQL's rounding of time stamps and the floating-point Hours and Minutes calls: integer nanoseconds and integer division instead.
- Strings are ASCII: strings.ToUpper, EqualFold and TrimSpace act on ASCII only.
- Content sniffing, Content-Length enforcement and non-canonical header names in the response writer; hop-by-hop and X-Forwarded-For headers of the reverse proxy.
- A webhook's delivery: a call counts when it is issued.
- Serial runs leave out the failed re-read that the methods' contracts have; Interleavings has it in its runs.
- Interim responses themselves, and their headers: Response is the final one. An answer's interim statuses count only for what they do to the final status.
- Trailers of an answer, which the reverse proxy adds to the header after the body: they would be late edits in the sense of FlushIsDirectIff.
- One clock reading stands for all readings of a serial step, except in InitFromDB and CreateSession, and for those of one proxied request.
- CookiePool.Pool.GetCookie: the object runs a call without interruption; its lock sections are separate steps only in the interleaved model.
- Streaming, flushing, hijacking, logging, the audit log, API keys, route dispatch, the request-context holder: no state worth a proof.
- config, the credential providers, the body sanitizer and logout token validation: lookups and single searches; the sanitizer is a parameter.
- nginx, the browser script, deployment files and test fixtures.
