# Verified model of the SchoolSoft connector's stateful core

This project models, in Dafny, the parts of the connector whose behaviour over time is hard to see from any one
function, and proves what they promise.

* **Request budget**: a token bucket with a cap in flight, a queue, hold and flush (`LimiterModel`, `LimiterAccount`,
  `Limiter`), a circuit breaker (`BreakerModel`, `BreakerHistory`, `Breaker`), and every interleaving of the requests
  that pass both (`BudgetModel`, `BudgetProgress`, `PortalBudget`). Passing the breaker and entering the queue are separate steps, because there is
  an await between them: a request admitted while closed can reach the limiter after the breaker opened. One token
  is 60000 units, so refilling is exact.
* **OAuth grants**: every operation of the server as a function on memory, repository and the supply of random
  values (`OAuthModel`), what each keeps (`OAuthInvariants`), what holds over whole runs with failing writes and
  restarts (`OAuthRuns`, `OAuthReplay`, `OAuthConsent`), what lasts and works as long as its grant (`OAuthLasting`,
  `OAuthFlow`), runs that reach the corners (`OAuthWitness`), the tables anonymous callers can fill (`OAuthTables`),
  where everything it accepts comes from (`OAuthOrigins`), what ends a grant (`OAuthEndings`), when each request is
  granted (`OAuthAnswers`), and the object with its loops (`OAuthProvider`).
* **The typed client** with its rotating tokens (`ClientModel`, `TypedClient`), composed with that server
  (`ClientServer`, `ClientDecisions`, `ClientWitness`).
* **Read cache**: least recently used entries with expiry against a plain last-write map (`ReadCacheModel`,
  `ReadCache`), cache keys (`CacheKey`), and reads that overlap a change of the child in focus (`CachedReads`,
  `CachedPortal`).
* **ISO weeks** (`Weeks`, `NearestWeek`) and **Stockholm time** (`StockholmTime`).
* **HTML tokenizer and serializer** of the capture probe: print and parse (`HtmlText`, `Html`, `HtmlRoundTrip`), what
  each piece of a page means (`HtmlReading`, `HtmlReferences`), and the loops (`HtmlScanner`).
* **Keepalive scheduler** (`KeepaliveModel`, `Keepalive`).

Each imperative part comes twice: a specification (`...Model` and its lemmas) and a class or method whose
contract says that the new state and the answer are those of the specification. `Basics` and `Characters` hold a few shared notions.

## Where the code and its description differ

* The comment at src/client/index.ts:211 promises that no one uses a new pair before it has been saved, and the one at
  src/client/index.ts:246 repeats this for the access token. With saves that succeed this holds
  exactly while no save is under way (`ClientServer.UsedOnceSavedExactly`): during one, a call that was refused the
  old token gets the new one at src/client/index.ts:259 (`ClientWitness.UnsavedTokenHappens` reaches it); and after a
  save that fails the token is used all the same (`ClientServer.FailedSaveIsUsed`).
* Refresh reuse detection is not free of false alarms: an issued answer that is lost makes the client's next refresh
  a replay (`ClientServer.LostAnswerIsReplay`, reached in `ClientWitness.LostAnswerHappens`). Without such a loss it never fires (`ClientServer.ReuseNeverDetected`).
* A withdrawal after a replay that cannot be written lasts only until the process restarts
  (`OAuthReplay.ReplayEndsForGood` gives the exact condition, `OAuthWitness.UnwrittenReplayHappens` a run).
* A client can be evicted between its look-up and the consent request made for it
  (`OAuthTables.AuthorizeKnown` gives the exact condition under which the request names a registered client,
  `OAuthWitness.UnknownClientHappens` a run in which it does not).
* `isoWeekMonday` passes years 0 to 99 to `Date.UTC`, which reads them as 1900 to 1999. The week lemmas say exactly
  where that matters.
* A close tag whose name has more than 197 characters does not survive print and parse, because only 200 characters
  are matched (`HtmlRoundTrip.RoundTripExactly`); and an unknown reference stays as written, as
  src/providers/schoolsoft/capture/html.ts:48 says, exactly
  when it does not name a member that every object inherits, such as `&valueOf;` (`HtmlText.UnknownStaysExactly`).
* A keepalive interval above an hour gets shorter, not longer, after a failure (`KeepaliveModel.BackoffSlower`).

## Model

| member | source | states |
|---|---|---|
| LimiterModel.RateBound | src/core/budget/limiter.ts:94-112 | over any legal run and for any two instants, the grants made between them number at most burst + perMinute * span / 60000, whatever the order of acquires, releases, holds, flushes, aborts and timer firings |
| LimiterModel.RunInv | src/core/budget/limiter.ts:52-139 | the whole invariant after every legal run: 0 <= tokens <= burst, 0 <= inFlight <= maxInFlight, each request is exactly one of waiting, granted, cancelled, flushed, grants in arrival order, an abort listener present exactly while queued, the timer armed exactly at the first instant a grant is possible |
| LimiterModel.StepInv | src/core/budget/limiter.ts:52-139 | every call, abort and timer firing keeps that invariant |
| LimiterModel.StartInv | src/core/budget/limiter.ts:30-41 | the invariant holds in a new limiter |
| LimiterModel.PumpInv | src/core/budget/limiter.ts:100-118 | pumping restores the invariant, wake-up timer included, from any state that lacks only the timer |
| LimiterModel.RefillPaced | src/core/budget/limiter.ts:94-98 | refilling keeps the pacing of grants that the rate bound rests on |
| LimiterModel.RefillTwice | src/core/budget/limiter.ts:94-98 | refilling at an instant on the way adds nothing: the bucket is exact |
| LimiterModel.RearmAwake | src/core/budget/limiter.ts:113-118 | the timer is armed exactly when a waiter and a free slot coexist, at the first instant at which a grant is possible |
| LimiterModel.TimerGrantsHead | src/core/budget/limiter.ts:120-134 | the armed timer, fired at an instant, grants the longest waiting request if and only if the armed time has come |
| LimiterModel.AbortRemovesOwnEntry | src/core/budget/limiter.ts:55-60 | an abort takes its own entry out of the queue and no other (its index is never -1) |
| LimiterModel.StepHeld | src/core/budget/limiter.ts:83-86 | a step forgets no grant and grants nothing before the hold ends |
| LimiterModel.RunHeld | src/core/budget/limiter.ts:83-106 | once held until an instant, no later step of any run grants anything before it |
| LimiterModel.PacedBound | src/core/budget/limiter.ts:94-112 | an invariant over pairs of grants gives the bound on every window |
| LimiterAccount.StepAccount | src/core/budget/limiter.ts:52-118 | the whole account of a step: who is granted, in order, and who still waits; every token (tokens left and tokens granted are those that were there and those the rate has brought, up to the burst), every slot, the hold; and that nobody is left waiting for a token, a slot and an instant that are there |
| LimiterAccount.TimerAccount | src/core/budget/limiter.ts:113-139 | the timer is set exactly while a waiter and a free slot coexist, for the first instant at which the hold is over and a token is there |
| LimiterAccount.SpliceOfMissing | src/core/budget/limiter.ts:55-58 | why an abort must find its entry: an index of -1 would take out the last waiter |
| LimiterAccount.AbortedAccount | src/core/budget/limiter.ts:52-53 | a request whose signal has fired is cancelled and nothing else happens |
| LimiterAccount.Conserved | src/core/budget/limiter.ts:94-112 | over any run in which the bucket does not overflow, tokens left and granted are those at the start and those the rate has brought |
| LimiterAccount.FullRate | src/core/budget/limiter.ts:94-118 | the rate is used in full: from a new limiter, over any such run, whenever somebody waits although a slot is free and no hold is on, the grants number exactly the burst and the whole tokens brought since |
| Limiter.Limiter.constructor | src/core/budget/limiter.ts:30-41 | a full bucket, nothing in flight or queued |
| Limiter.Limiter.Acquire | src/core/budget/limiter.ts:52-75 | the new state is the acquire step of the specification: rejected at once when aborted, else queued and pumped |
| Limiter.Limiter.Release | src/core/budget/limiter.ts:77-80 | the new state is the release step: one slot less in flight, then pumped |
| Limiter.Limiter.Hold | src/core/budget/limiter.ts:83-86 | the new state is the hold step: the later of the two instants, then pumped |
| Limiter.Limiter.Flush | src/core/budget/limiter.ts:89-92 | the new state is the flush step: every waiter failed once, nothing granted from them |
| Limiter.Limiter.OnAbort | src/core/budget/limiter.ts:55-60 | the new state is the abort step of the queued request |
| Limiter.Limiter.OnTimer | src/core/budget/limiter.ts:126-131 | the new state is the timer step |
| Limiter.Limiter.Refill | src/core/budget/limiter.ts:94-98 | tokens and instant are those of the specification, whose account is `LimiterAccount.StepAccount` |
| Limiter.Limiter.Pump | src/core/budget/limiter.ts:100-118 | refill, grant all that can be granted, arm or disarm |
| Limiter.Limiter.GrantFirst | src/core/budget/limiter.ts:109-111 | the head of the queue is granted for one token and one slot |
| Limiter.Limiter.Arm | src/core/budget/limiter.ts:120-134 | the timer is set for that instant |
| Limiter.Limiter.GrantAll | src/core/budget/limiter.ts:103-112 | the loop grants from the head while a token, a slot and the hold allow it |
| BreakerModel.AdmitInv | src/core/budget/breaker.ts:49-65 | exactly who passes, as the probe or not, who waits until when, and who is refused with which reason and retry instant, in each mode |
| BreakerModel.ProbeFailedInv | src/core/budget/breaker.ts:83-92 | a failed probe reopens for exactly the doubled cool-down up to the maximum, or a longer hint, and the k-th failure comes no earlier than the first k cool-downs together |
| BreakerModel.ClosedPushbackInv | src/core/budget/breaker.ts:99-116 | a push-back while closed opens the breaker exactly when the push-backs since the last success that lie in the window reach the threshold, until exactly the cool-down or a longer hint is over; otherwise it pauses |
| BreakerModel.LatePushbackInv | src/core/budget/breaker.ts:93-98 | a push-back from before the opening changes nothing but the end of the cool-down, and that only while open and with a hint: it becomes the later of the two |
| BreakerModel.SuccessInv | src/core/budget/breaker.ts:72-80 | success forgets the push-backs; the probe's closes the breaker with the base cool-down, any other leaves mode and role alone |
| BreakerModel.ObserveInv | src/core/budget/breaker.ts:33-39 | looking at the breaker keeps the invariant |
| BreakerModel.CountedOnce | src/core/budget/breaker.ts:99-102 | forgetting old push-backs one push-back at a time keeps exactly what filtering the whole history at once would |
| BreakerModel.RecentOfRecent | src/core/budget/breaker.ts:99-99 | filtering earlier and then later is filtering later |
| BreakerModel.DoublingIsPow2 | src/core/budget/breaker.ts:90-90 | capped doubling, k times, is min(max, base * 2^k) |
| BreakerModel.RetryAtMeans | src/core/budget/breaker.ts:42-47 | the retry instant told: until then no request of a user goes through, then a read does; when none is told a read goes through at once, unless the probe is out |
| BreakerHistory.ClosedWhileCalm | src/core/budget/breaker.ts:72-108 | against a definition that only counts push-backs: while none was one too many in the window since the last good answer, the breaker is closed and paused until exactly the latest end of a pause |
| BreakerHistory.OpensExactly | src/core/budget/breaker.ts:99-116 | the first push-back that is one too many opens it, for the base cool-down or a longer hint, and no other does |
| Breaker.Breaker.constructor | src/core/budget/breaker.ts:29-31 | closed, with the base cool-down |
| Breaker.Breaker.State | src/core/budget/breaker.ts:33-39 | the mode, half-opening an open breaker whose cool-down is over |
| Breaker.Breaker.RetryAt | src/core/budget/breaker.ts:42-47 | the end of the cool-down or pause in force, none when requests flow |
| Breaker.Breaker.Admit | src/core/budget/breaker.ts:49-65 | new state and answer are those of the specification |
| Breaker.Breaker.Abandon | src/core/budget/breaker.ts:68-70 | only a probe gives its role back |
| Breaker.Breaker.Success | src/core/budget/breaker.ts:72-80 | new state is that of the specification |
| Breaker.Breaker.Pushback | src/core/budget/breaker.ts:83-108 | new state is that of the specification, in all four cases |
| Breaker.Breaker.Open | src/core/budget/breaker.ts:110-116 | open until the cool-down or the longer Retry-After is over, counts and pause cleared |
| Breaker.Breaker.KeepRecent | src/core/budget/breaker.ts:99-99 | the loop keeps exactly the push-backs inside the window, in order |
| BudgetModel.RunInv | src/core/budget/budget.ts:93-171 | the joint invariant of breaker, limiter and all requests after every legal interleaving of parts of `run`, clock and signals |
| BudgetModel.NextInv | src/core/budget/budget.ts:93-171 | every part of every `run` keeps it |
| BudgetModel.AtMostOneProbe | src/core/budget/budget.ts:93-141 | in every reachable state at most one unsettled request is the probe, one exists exactly while the breaker is half-open with `probing` set, it is a user's read, and meanwhile nothing else is admitted |
| BudgetModel.CancelledProbeFreesTheRole | src/core/budget/budget.ts:98-104 | a probe that ends before it was sent gives the role back: the next user read may be the probe |
| BudgetModel.PauseCoversEveryone | src/core/budget/budget.ts:157-171 | a step that ends in a closed pause leaves the limiter held until its end: nothing admitted earlier is granted during it |
| BudgetModel.PauseOutlivesTheBreaker | src/core/budget/budget.ts:157-171 | once paused until an instant, no later step of any run grants anything before it, even if the breaker opens meanwhile |
| BudgetModel.OpeningFlushesTheQueue | src/core/budget/budget.ts:157-171 | when an answer opens the breaker, everything queued fails unsent in that step, nothing is granted, and the answered request's slot is released once |
| BudgetModel.NoSlotReleasedTwice | src/core/budget/budget.ts:157-171 | along any run whatever settles later holds another ticket: no slot is released twice |
| BudgetModel.OpenAdmitsNobody | src/core/budget/budget.ts:130-141 | while the breaker is open nobody is admitted: whoever is past the breaker then was past it before |
| BudgetModel.BudgetCeiling | src/core/budget/budget.ts:93-127 | in every reachable state of the whole budget the rate bound, the cap in flight and the bucket bounds hold |
| BudgetModel.SettleInv | src/core/budget/budget.ts:157-171 | settling keeps the joint invariant, slots and the probe's role included |
| BudgetModel.CancelInv | src/core/budget/budget.ts:93-155 | a signal keeps the joint invariant wherever it finds the request |
| BudgetProgress.BeginExactly | src/core/budget/budget.ts:93-98 | a call begins as a request of its own |
| BudgetProgress.AbortedIsNeverSent | src/core/budget/budget.ts:130-134 | over any run a request whose signal fired before it began is never sent |
| BudgetProgress.PassExactly | src/core/budget/budget.ts:130-141 | in every reachable state, where the breaker leaves a request: cancelled, through, asleep until the end of a short pause, through as the probe, or refused |
| BudgetProgress.EnqueueExactly | src/core/budget/budget.ts:98-104 | in every reachable state a request enters the queue under the next ticket, or is cancelled at once |
| BudgetProgress.ResumeExactly | src/core/budget/budget.ts:98-107 | sent if and only if granted, failed unsent if and only if flushed, cancelled if and only if cancelled; a probe that is not sent gives its role back |
| BudgetProgress.SettleExactly | src/core/budget/budget.ts:106-171 | what each answer teaches in each mode, and what the queue is told: fail, or hold until exactly the end of the pause |
| BudgetProgress.CancelExactly | src/core/budget/budget.ts:143-155 | a signal ends a sleeper, takes a queued request out of the queue, and changes nothing else |
| BudgetProgress.NobodyIsStuck | src/core/budget/budget.ts:93-171 | in every reachable state each unsettled request can move, or waits for a timer that is set or for a slot somebody holds who can move |
| PortalBudget.PortalBudget.constructor | src/core/budget/budget.ts:72-80 | a fresh closed breaker and a fresh full limiter |
| PortalBudget.PortalBudget.Pass | src/core/budget/budget.ts:130-141 | one turn of the loop gives the stage and breaker state of the specification, for every request that makes it |
| PortalBudget.PortalBudget.Settle | src/core/budget/budget.ts:158-171 | breaker and limiter end as the specification says: learn, flush or hold, release |
| PortalBudget.PortalBudget.Snapshot | src/core/budget/budget.ts:82-91 | what a status report sees |
| BudgetModel.LimiterStep | src/core/budget/limiter.ts:52-139 | which tickets a limiter step may grant, fail or forget |
| BudgetModel.CoolDownsGrow | src/core/budget/breaker.ts:72-116 | in every reachable state the k-th failed probe since the breaker opened came no earlier than the opening plus the first k cool-downs min(max, base * 2^i); the cool-down is exactly that value, and the base value when closed |
| OAuthInvariants.StepInv | src/http/oauth.ts:144-486 | every operation, failing write and restart keeps, in memory and in the repository: codes and refresh entries name existing grants, token scopes lie in grant scopes and those in the server's, one code a grant, unused only before its first issue, and memory and repository agree on every rotation and code both hold |
| OAuthInvariants.StepChanges | src/http/oauth.ts:144-486 | every operation either issues nothing and only drops or adds entries, or issues once from a live grant, or restarts |
| OAuthInvariants.IssueChanges | src/http/oauth.ts:386-414 | an issue from a live grant either advances its rotation by one, in memory and repository alike, or leaves everything but pruned entries |
| OAuthInvariants.PruneKeeps | src/http/oauth.ts:231-243 | pruning keeps integrity and drops a code only when it has expired or its grant is gone |
| OAuthInvariants.WithoutGrantKeeps | src/http/oauth.ts:458-468 | withdrawing a grant keeps integrity |
| OAuthInvariants.GrantedKeeps | src/http/oauth.ts:299-319 | a new grant with its code keeps integrity |
| OAuthInvariants.ExchangeCodeChanges | src/http/oauth.ts:353-368 | a code exchange issues for the code's own grant with the grant's scopes, or issues nothing |
| OAuthInvariants.ExchangeRefreshChanges | src/http/oauth.ts:415-433 | a refresh issues only for the current counter of the grant the token names, or issues nothing |
| OAuthRuns.RunInv | src/http/oauth.ts:144-486 | integrity after every run |
| OAuthRuns.StartInv | src/http/oauth.ts:139-150 | an empty server has the integrity |
| OAuthRuns.RefreshRedeemedOnce | src/http/oauth.ts:415-433 | over any run, failing writes and restarts included, no refresh token redeems twice |
| OAuthRuns.CodeExchangedOnce | src/http/oauth.ts:353-368 | over any run no authorization code is exchanged twice |
| OAuthRuns.ScopesOnlyShrink | src/http/oauth.ts:386-433 | over any run the scopes issued for one grant only shrink and its counters only grow |
| OAuthRuns.StepSince | src/http/oauth.ts:144-486 | what was spent at some moment stays spent in memory and in the repository, whatever comes after |
| OAuthRuns.IssueLeaves | src/http/oauth.ts:386-414 | what a successful issue leaves: memory and repository alike, the rotation that the answer carries, the code used |
| OAuthReplay.SpentRefreshIsReplay | src/http/oauth.ts:415-433 | a redeemed refresh token presented again by its client while the grant lives is a replay |
| OAuthReplay.ExchangedCodeIsReplay | src/http/oauth.ts:334-368 | an exchanged code presented again by its client before it expires is a replay, if its grant is still there |
| OAuthReplay.ReplayWithdraws | src/http/oauth.ts:334-346 | a replay of either kind fails and leaves nothing of the grant in memory, nor, when the write succeeds, in the repository |
| OAuthReplay.EndedForever | src/http/oauth.ts:374-468 | once gone from memory and repository a grant never returns, and no access, refresh or code of it is ever accepted or issued again on any run |
| OAuthReplay.WrittenReplayIsFinal | src/http/oauth.ts:334-468 | once a replay's withdrawal is written, no later answer of the run names the grant |
| OAuthReplay.StepEnded | src/http/oauth.ts:374-468 | while a grant is gone from memory no answer names it, and only a restart could bring it back |
| OAuthReplay.ReplayEndsForGood | src/http/oauth.ts:426-430 | a replayed grant can never exist again if and only if the withdrawal was written or the repository did not hold the grant |
| OAuthReplay.FailedRefreshIsRetryable | src/http/oauth.ts:386-433 | after a full table or a throwing write the same refresh token redeems later, over any run in which the client has not presented one in between, while the grant lives, as soon as neither stands in the way |
| OAuthReplay.FailedExchangeIsRetryable | src/http/oauth.ts:353-414 | likewise the same authorization code, until it expires, over any run in which the client has not exchanged it in between |
| OAuthLasting.RunRotation | src/http/oauth.ts:386-433 | over any run, restarts and failing writes included, a grant's rotation stays as it is while the grant exists and its client presents no refresh token of it |
| OAuthLasting.RunRemembers | src/http/oauth.ts:334-368 | over any run a code stays as it is until it expires, while its grant exists and its client does not exchange it |
| OAuthLasting.RunHolds | src/http/oauth.ts:386-453 | over any run an access token stays as it is until it expires, while its grant exists |
| OAuthLasting.RunGrantIs | src/http/oauth.ts:291-320 | over any run a grant never changes, in memory or repository |
| OAuthConsent.ApproveNarrows | src/http/oauth.ts:291-321 | an approval leaves one new grant for exactly the scopes and children chosen, for thirty days, within what was asked for; its unused code is bound to the request's client, callback and challenge, and the request is gone |
| OAuthConsent.ConsentBounds | src/http/oauth.ts:291-453 | however long after a consent, nothing is issued or accepted for its grant beyond the scopes the parent chose, or for another client |
| OAuthConsent.NamedWithin | src/http/oauth.ts:415-453 | what is issued or accepted for a grant lies within the grant's scopes |
| OAuthOrigins.RunTraced | src/http/oauth.ts:144-486 | over every run from an empty server, in memory and repository: each client comes from a registration, each request from an authorization, each grant and code from a consent, each access token and rotation from an issue |
| OAuthOrigins.ConsentFromRequest | src/http/oauth.ts:285-321 | each consent is to a request that an earlier authorization made less than ten minutes before |
| OAuthOrigins.ExchangedFromConsent | src/http/oauth.ts:334-368 | over every run a code is exchanged only by the client whose request was consented to, with that request's callback, within a minute of the consent, for exactly the scopes chosen |
| OAuthOrigins.RefreshedFromIssue | src/http/oauth.ts:374-433 | over every run a refresh token redeems only if an earlier issue handed it out, for the consented client, within thirty days of the consent, for exactly the scopes asked for, or all of that issue |
| OAuthOrigins.VerifiedFromIssue | src/http/oauth.ts:434-453 | over every run an access token is accepted only if an issue handed it out less than five minutes before, for exactly that issue's scopes, for the consented client, within thirty days of the consent |
| OAuthOrigins.SameClients | src/http/oauth.ts:151-187 | registrations change only by registering |
| OAuthEndings.GrantEndsExactly | src/http/oauth.ts:231-486 | a grant ends only by being withdrawn or having expired, and a withdrawal leaves nothing of it, in the repository too once written |
| OAuthEndings.DenyExactly | src/http/oauth.ts:322-327 | a denied request is gone, alone; one that has expired is refused and nothing changes |
| OAuthEndings.RunOrdered | src/http/oauth.ts:215-282 | over every run the requests stand in order of arrival, each id once: the first of a caller's is its oldest |
| OAuthEndings.RunSized | src/http/oauth.ts:297-298 | over every run there are never more than 64 grants and 8192 access tokens |
| OAuthAnswers.RegisterAnswers | src/http/oauth.ts:155-185 | a registration is refused exactly for a callback that is not allowed or none |
| OAuthAnswers.AuthorizeAnswers | src/http/oauth.ts:244-284 | an authorization becomes a request exactly when resource, callback, challenge and scopes are right; each refusal has its own reason |
| OAuthAnswers.ApproveAnswers | src/http/oauth.ts:285-321 | a consent is given exactly to a live request, for some of its scopes and some children, while there is room; each refusal has its own reason |
| OAuthAnswers.ExchangeCodeAnswers | src/http/oauth.ts:334-414 | a code is exchanged exactly under these conditions, and which error it gets otherwise |
| OAuthAnswers.ExchangeRefreshAnswers | src/http/oauth.ts:374-433 | a refresh token is redeemed exactly under these conditions, for exactly the scopes asked for, and which error it gets otherwise |
| OAuthAnswers.UnknownAnswers | src/http/oauth.ts:285-380 | what names nothing the server knows is refused and changes nothing |
| OAuthAnswers.VerifyAnswers | src/http/oauth.ts:434-453 | an access token is accepted exactly while it and its grant live; looking changes nothing |
| OAuthAnswers.ChallengeAnswers | src/http/oauth.ts:334-352 | a challenge is shown exactly to the client that could exchange the code |
| OAuthAnswers.ListAnswers | src/http/oauth.ts:454-457 | the owner is shown exactly the grants that have not expired |
| OAuthAnswers.RevokeAnswers | src/http/oauth.ts:458-486 | revoking answers the same whether or not there was anything to revoke, unless the write throws, and leaves registrations alone |
| OAuthFlow.ConsentIsPending | src/http/oauth.ts:253-290 | a consent request is found for ten minutes as it was made, over any run that neither decides it, nor evicts it, nor clears everything |
| OAuthFlow.ConsentWorks | src/http/oauth.ts:253-321 | after any such run it can be approved as a whole, once the write succeeds and there is room for a grant |
| OAuthFlow.CodeWorks | src/http/oauth.ts:291-414 | after any run in which its client has not exchanged it, an approval's code is exchanged for the grant's scopes by the request's client within a minute, while the grant exists, once the write succeeds and the token table has room |
| OAuthFlow.NewAccessWorks | src/http/oauth.ts:386-453 | after any run within five minutes an access token is accepted for its client and scopes while its grant lives |
| OAuthFlow.NewRefreshWorks | src/http/oauth.ts:386-433 | after any run in which its client has presented none, a refresh token redeems for the same scopes while its grant lives: with `RefreshRedeemedOnce`, exactly once |
| OAuthWitness.TokensAreRedeemed | src/http/oauth.ts:291-433 | reached from an empty server: an app registers, is approved, connects and redeems two refresh tokens |
| OAuthWitness.UnwrittenReplayHappens | src/http/oauth.ts:426-430 | reached from an empty server: a replay whose withdrawal is not written, after which the grant can come back, and the same one written, after which it cannot |
| OAuthWitness.UnknownClientHappens | src/http/oauth.ts:155-284 | reached from an empty server: a client evicted after its look-up leaves a request of an unknown client |
| OAuthTables.RunTables | src/http/oauth.ts:155-284 | over any run in which no client is removed between its look-up and its authorization: the caps on registrations and requests hold, and every request and grant names a registered client, in memory and in the repository |
| OAuthTables.StartTables | src/http/oauth.ts:139-150 | an empty server satisfies the caps and names no unknown client |
| OAuthTables.StepTables | src/http/oauth.ts:155-284 | every operation keeps that |
| OAuthTables.AuthorizeKnown | src/http/oauth.ts:253-282 | a request that is let in names a registered client if and only if the client looked up before is still registered |
| OAuthTables.RegisterEvictsIdle | src/http/oauth.ts:155-185 | no client in use is removed; the caller is turned away exactly when the table is full of clients in use; otherwise it is registered |
| OAuthTables.OldestIdleIs | src/http/oauth.ts:170-176 | the evicted registration is the oldest one that is not in use, the earliest of equals |
| OAuthTables.DropStaleIs | src/http/oauth.ts:162-165 | exactly the registrations a day old and not in use are dropped |
| OAuthTables.RoomKeepsCaps | src/http/oauth.ts:215-227 | with room made, the table and each requester stay within their caps |
| OAuthTables.EvictionIsFair | src/http/oauth.ts:215-227 | a request of another caller is evicted only from a full table, only from a maximal holder, and it is that holder's oldest |
| OAuthTables.SingleRequestSurvives | src/http/oauth.ts:209-227 | a caller's only request goes to make room for another only if the table holds at least as many distinct callers as it has slots |
| OAuthTables.HeaviestIsFirst | src/http/oauth.ts:221-224 | the chosen position is the first one of a maximal holder |
| OAuthProvider.ConnectorOAuthProvider.constructor | src/http/oauth.ts:139-150 | a process starts from what the repository holds |
| OAuthProvider.ConnectorOAuthProvider.PruneAll | src/http/oauth.ts:231-243 | the four loops delete exactly what has expired, and a pruned grant's rotation with it |
| OAuthProvider.ConnectorOAuthProvider.Write | src/http/oauth.ts:228-230 | the repository holds the state unless the write throws |
| OAuthProvider.ConnectorOAuthProvider.PrunePending | src/http/oauth.ts:232-233 | exactly the unexpired requests stay, in order |
| OAuthProvider.ConnectorOAuthProvider.PruneCodes | src/http/oauth.ts:234-235 | exactly the unexpired codes stay |
| OAuthProvider.ConnectorOAuthProvider.PruneTokens | src/http/oauth.ts:236-237 | exactly the unexpired access tokens stay |
| OAuthProvider.ConnectorOAuthProvider.PruneGrants | src/http/oauth.ts:238-242 | exactly the unexpired grants stay, and expired ones take their rotation with them |
| OAuthProvider.ConnectorOAuthProvider.DropTokens | src/http/oauth.ts:462-463 | exactly the tokens of the grant go |
| OAuthProvider.ConnectorOAuthProvider.DropCodes | src/http/oauth.ts:464-465 | exactly the codes of the grant go |
| OAuthProvider.ConnectorOAuthProvider.FindOwn | src/http/oauth.ts:216-219 | the caller's first request and how many it has |
| OAuthProvider.ConnectorOAuthProvider.RegisterClient | src/http/oauth.ts:155-185 | new state and answer are those of the specification |
| OAuthProvider.ConnectorOAuthProvider.DropStaleClients | src/http/oauth.ts:162-165 | the loop drops the stale registrations of the specification |
| OAuthProvider.ConnectorOAuthProvider.FindOldestIdle | src/http/oauth.ts:171-173 | the loop finds the specification's position |
| OAuthProvider.ConnectorOAuthProvider.GroupRequests | src/http/oauth.ts:221-223 | every request is counted in its caller's group, groups in order of first appearance |
| OAuthProvider.ConnectorOAuthProvider.FindHeaviest | src/http/oauth.ts:221-224 | the first request of the largest group, the earliest group on a tie |
| OAuthProvider.ConnectorOAuthProvider.AdmitPending | src/http/oauth.ts:215-227 | the table after room is made is that of the specification |
| OAuthProvider.ConnectorOAuthProvider.Authorize | src/http/oauth.ts:253-284 | new state and answer are those of the specification |
| OAuthProvider.ConnectorOAuthProvider.Approve | src/http/oauth.ts:291-321 | new state and answer are those of the specification |
| OAuthProvider.ConnectorOAuthProvider.Deny | src/http/oauth.ts:322-327 | new state and answer are those of the specification |
| OAuthProvider.ConnectorOAuthProvider.FindCode | src/http/oauth.ts:334-352 | the entry, or the refusal and withdrawal of the specification |
| OAuthProvider.ConnectorOAuthProvider.ExchangeAuthorizationCode | src/http/oauth.ts:353-368 | new state and answer are those of the specification |
| OAuthProvider.ConnectorOAuthProvider.Issue | src/http/oauth.ts:386-414 | works on a copy that is published only after the write; new state and answer are those of the specification |
| OAuthProvider.ConnectorOAuthProvider.ExchangeRefreshToken | src/http/oauth.ts:415-433 | new state and answer are those of the specification |
| OAuthProvider.ConnectorOAuthProvider.VerifyAccessToken | src/http/oauth.ts:434-453 | changes nothing and gives the answer of the specification |
| OAuthProvider.ConnectorOAuthProvider.ShowGrants | src/http/oauth.ts:454-457 | new state and answer are those of the specification |
| OAuthProvider.ConnectorOAuthProvider.RevokeGrant | src/http/oauth.ts:458-468 | grant, rotation, and every token and code of it are gone |
| OAuthProvider.ConnectorOAuthProvider.RevokeEverything | src/http/oauth.ts:469-476 | only the registrations are left |
| OAuthProvider.ConnectorOAuthProvider.RevokePresented | src/http/oauth.ts:477-486 | the presented token's grant is withdrawn for its own client only |
| ClientServer.ReuseNeverDetected | src/client/index.ts:212-340 | with one client instance and no issued answer lost, in every interleaving of calls, refusals, expiry, saves, failing requests, restarts and other operations of the server, no request the client sends is a replay |
| ClientServer.CountersInStep | src/client/index.ts:212-274 | the client's counter is the server's, or one refresh is on its way back and the server is exactly one ahead |
| ClientServer.RunInStep | src/client/index.ts:212-340 | client, wire and server stay in step over every undisturbed run |
| ClientServer.NextInStep | src/client/index.ts:212-340 | every event keeps them in step |
| ClientServer.LostAnswerIsReplay | src/client/index.ts:196-209 | the assumption is needed: once an issued answer is lost, the next refresh that reaches the server for a live grant is a replay and withdraws it, over any run before it |
| ClientServer.UsedOnceSavedExactly | src/client/index.ts:212-274 | over any run in which every save succeeds and no second refusal empties the store: a call is handed a token that is already stored if and only if no save is under way, and during one only a call that was refused another token is handed one |
| ClientServer.HandedOutWhileSaving | src/client/index.ts:257-274 | while a pair is being saved, a refused call is handed its token exactly when it was refused another one; a call that starts waits |
| ClientServer.FailedSaveIsUsed | src/client/index.ts:245-262 | after a save that fails the unsaved token is handed out |
| ClientServer.RunInOrder | src/client/index.ts:212-274 | stored, held, being saved, on the way back: access tokens stay in that order over every such run |
| ClientServer.ConnectedInOrder | src/client/index.ts:187-194 | any successful exchange starts a client in that order |
| ClientDecisions.AskingExactly | src/client/index.ts:266-274 | in every state: a call that starts is handed the token held while it is good for another half minute; after that it starts the one refresh and waits |
| ClientDecisions.RefusedExactly | src/client/index.ts:257-264 | in every state: a refused call is handed a newer token if there is one; otherwise it starts the one refresh or waits for it |
| ClientDecisions.ArrivedExactly | src/client/index.ts:223-249 | a readable pair replaces the one held, good for five minutes from its arrival, and goes to the store; anything else disconnects |
| ClientDecisions.RenewedInTime | src/client/index.ts:212-274 | over any undisturbed run: what a starting call is handed is good for another half minute, and once it is not, the next call sends the server's own current token |
| ClientDecisions.Disconnects | src/client/index.ts:228-239 | a second refusal disconnects unless a refresh is out, and so does an answer that is no readable pair; its clearing empties the store |
| ClientDecisions.DisconnectedForGood | src/client/index.ts:257-340 | once disconnected, over any run no call is handed a token and no refresh is sent |
| ClientDecisions.LoadingExactly | src/client/index.ts:191-194 | the stored pair is taken once, as it is; until then no call gets anything |
| ClientDecisions.SavedExactly | src/client/index.ts:245-262 | a saved pair is what the store holds from then on, and the settled refresh makes room for the next |
| ClientWitness.LostAnswerHappens | src/client/index.ts:196-250 | reached by an app that has just connected: a lost answer, and the replay that follows |
| ClientWitness.UnsavedTokenHappens | src/client/index.ts:245-264 | reached by an app that has just connected: a refused call is handed the new token while the store still holds the old pair |
| ClientServer.ConnectedInStep | src/client/index.ts:212-250 | any successful exchange starts a client that is in step |
| TypedClient.ConnectorClient.constructor | src/client/index.ts:187-189 | nothing loaded, no tokens, no refresh |
| TypedClient.ConnectorClient.OnLoaded | src/client/index.ts:191-194 | the stored pair is read once |
| TypedClient.ConnectorClient.Renew | src/client/index.ts:257-264 | a newer token, or the start of the only refresh, as in the specification |
| TypedClient.ConnectorClient.CurrentAccessToken | src/client/index.ts:266-274 | decision and new state are those of the specification, which `ClientDecisions.AskingExactly` describes |
| TypedClient.ConnectorClient.OnAnswer | src/client/index.ts:223-248 | a readable pair replaces the old one before it is saved; anything else disconnects |
| TypedClient.ConnectorClient.OnFinished | src/client/index.ts:223-250 | the refresh is settled, well or badly |
| TypedClient.ConnectorClient.OnReleased | src/client/index.ts:260-262 | a refresh that has settled is forgotten; the block runs on no other |
| TypedClient.ConnectorClient.OnSecondRefusal | src/client/index.ts:327-330 | a second refusal disconnects |
| TypedClient.ConnectorClient.React | src/client/index.ts:191-340 | the blocks answer every event as the composed system says, and send a request exactly when it does |
| ClientServer.ElsewhereKeepsCurrent | src/http/oauth.ts:374-433 | no operation changes which token is current unless the grant's client presents one signed for it |
| ClientServer.IssuedNext | src/http/oauth.ts:415-433 | a served refresh makes the answer's token the current one, the next after the one presented |
| ReadCacheModel.HitIsLatest | src/core/cache/read-cache.ts:31-54 | a hit is the latest value written with a positive time to live since the last clear, and it has not expired |
| ReadCacheModel.RunCopies | src/core/cache/read-cache.ts:31-54 | after any run each entry is the last write of its key, each key once, never more than the bound |
| ReadCacheModel.GuaranteedHit | src/core/cache/read-cache.ts:31-49 | after its last use an entry that is not cleared, overwritten or expired hits, as long as fewer than maxEntries other distinct keys are written or hit |
| ReadCacheModel.UseIsLast | src/core/cache/read-cache.ts:34-48 | writing or hitting a key makes it the most recently used |
| ReadCacheModel.BehindTrimmed | src/core/cache/read-cache.ts:46-48 | an entry with fewer than maxEntries distinct keys used after it survives the bound |
| ReadCacheModel.StoredDistinct | src/core/cache/read-cache.ts:40-49 | a write keeps keys distinct and the bound, and adds nothing but the new entry |
| ReadCache.MemoryReadCache.constructor | src/core/cache/read-cache.ts:26-29 | empty, epoch zero |
| ReadCache.MemoryReadCache.Read | src/core/cache/read-cache.ts:31-38 | new state and value are those of the specification |
| ReadCache.MemoryReadCache.Prune | src/core/cache/read-cache.ts:43-43 | deleting in place leaves exactly the live entries, in order |
| ReadCache.MemoryReadCache.Evict | src/core/cache/read-cache.ts:46-48 | the loop leaves exactly the last maxEntries entries |
| ReadCache.MemoryReadCache.Write | src/core/cache/read-cache.ts:40-49 | new state is that of the specification |
| ReadCache.MemoryReadCache.Empty | src/core/cache/read-cache.ts:51-54 | empty, in a new epoch |
| ReadCache.DeleteOne | src/core/cache/read-cache.ts:43-47 | deleting by key takes out the one entry that has it |
| CachedReads.ServedForItsChild | src/core/portal/cached.ts:58-81 | whatever is served from the cache for a child was read by a like call for that child, and every request of that read was sent while that child was in focus, for any interleaving of reads and switches in which each change of focus is followed by a clear before the next one |
| CachedReads.RunIsolated | src/core/portal/cached.ts:58-81 | the invariant behind it, over every such run |
| CachedReads.ScopeAloneFails | src/core/portal/cached.ts:76-79 | without the epoch, away and back again one child is served what was read for another |
| CachedReads.AnswerIsolated | src/core/portal/cached.ts:74-80 | keeping an answer only in the same epoch and scope keeps the isolation |
| CachedReads.CallExactly | src/core/portal/cached.ts:65-75 | a call is served from the cache if it may be and something live stands under its key, else a new read starts for the child in focus, in this epoch |
| CachedReads.KeptExactly | src/core/portal/cached.ts:74-80 | an answer is kept exactly when it is one, for a positive time, to a read of this epoch for the child in focus; it then serves every like call until that time is over, and none after |
| CacheKey.KeysUnique | src/core/portal/cached.ts:34-49 | equal keys come from the same scope, capability and normalized arguments |
| CacheKey.JsonListUnique | src/core/portal/cached.ts:37-48 | JSON texts of different lists differ |
| CacheKey.QuotedUnique | src/core/portal/cached.ts:37-48 | a quoted string can be read in one way only, escapes included |
| CacheKey.NormalizedIs | src/core/portal/cached.ts:34-38 | trailing gaps vanish, none is left, and normalizing again changes nothing |
| CacheKey.NormalizedExactly | src/core/portal/cached.ts:34-38 | each argument as it is, undefined as null, texts trimmed, without the trailing gaps and no others |
| CacheKey.TrimIs | src/core/portal/cached.ts:35-35 | trimming takes off all space at both ends and nothing else |
| CacheKey.NormalizeList | src/core/portal/cached.ts:34-38 | the loop pops exactly the trailing gaps |
| CachedPortal.PortalReads.Begin | src/core/portal/cached.ts:65-75 | look-up, hit or start of a read as in the specification |
| CachedPortal.PortalReads.Finish | src/core/portal/cached.ts:76-80 | the answer is kept exactly when epoch and scope are as they were |
| Weeks.DateRoundTrip | src/core/domain/time.ts:114-135 | every date is the day its own week-year, week and weekday name; that week is one the year has, exactly when the year is not one `Date.UTC` reads as of the 1900s |
| Weeks.WeekRoundTrip | src/core/domain/time.ts:114-135 | every weekday of every week a year has is found again from its date, exactly when the year is not such a one |
| Weeks.WeeksFillTheYear | src/core/domain/time.ts:120-123 | 52 or 53 weeks, and that many fit between the first weeks of successive years, except around the two borders of the years 0 to 99 |
| Weeks.FiftyThreeWeeks | src/core/domain/time.ts:120-123 | the rule of ISO 8601: 53 weeks exactly when the year starts on a Thursday, or is a leap year that starts on a Wednesday; for the years 0 to 98 that is the year of the 1900s they are read as, and years -1 and 99 always get 52 |
| Weeks.WeekYearOnly | src/core/domain/time.ts:131-135 | the week-year of a day is the only year whose weeks contain it |
| Weeks.YearOnly | src/core/domain/time.ts:131-135 | the year of a day is the only year that contains it |
| Weeks.WeekOneHasFirstThursday | src/core/domain/time.ts:114-118 | the week of 4 January is the one with the first Thursday |
| Weeks.FindNearestWeekYear | src/core/domain/time.ts:142-152 | the loop gives the year of the specification |
| NearestWeek.NearestOfAll | src/core/domain/time.ts:142-152 | for weeks 1 to 52 the choice among three years is nearest among all years, if and only if the current week-year does not lie in 1 to 98 |
| NearestWeek.NearestWithinHalfYear | src/core/domain/time.ts:142-152 | and at most 185 days away, when the current week-year lies outside -1 to 100 |
| NearestWeek.HalfYearExactly | src/core/domain/time.ts:142-152 | every week 1 to 52 seen from every day of a week-year is at most 185 days away if and only if that week-year lies outside -1 to 100 |
| NearestWeek.WithinHalfYearExactly | src/core/domain/time.ts:142-152 | for one week and one day: at most 185 days if and only if one of the three candidates that is not read as a year of the 1900s starts that near |
| NearestWeek.NearestOfThree | src/core/domain/time.ts:142-152 | the loop picks a candidate that has the week, none of the three is nearer, and no earlier one as near |
| StockholmTime.ExistingMapsBack | src/core/domain/time.ts:60-66 | a wall clock that some instant has is mapped back to itself |
| StockholmTime.FoldIsEarlier | src/core/domain/time.ts:60-66 | in the fold, which is characterised exactly, the earlier instant wins |
| StockholmTime.GapKeepsOffset | src/core/domain/time.ts:60-66 | in the gap, which is characterised exactly, the offset from before the change is kept |
| StockholmTime.ReadAgain | src/core/domain/time.ts:91-104 | reading a result again is the identity if and only if the wall clock exists; in the gap it names the same instant an hour ahead |
| StockholmTime.InstantKept | src/core/domain/time.ts:97-103 | with an offset or Z the instant is kept, in the offset in force at it |
| StockholmTime.InstantToSecond | src/core/domain/time.ts:32-53 | an instant is shown to the second it lies in, in the offset in force |
| StockholmTime.InstantReadAgain | src/core/domain/time.ts:50-53 | what came from an instant reads back as itself |
| NearestWeek.CurrentWeek | src/core/operations/_week.ts:39-45 | without a number, the week that contains today, equal to the default calendar range; for every date |
| NearestWeek.NumberedWeek | src/core/operations/_week.ts:39-45 | with a number: that week of the year chosen, Monday to Sunday, and an error exactly when none of the three years has it |
| NearestWeek.AcceptedIsFoundAgain | src/core/operations/_week.ts:51-59 | an accepted date lies in its week, and the week's number alone gives back the identical week |
| NearestWeek.NearIsAccepted | src/core/operations/_week.ts:51-59 | every date whose week starts within 181 days of today is accepted; for all dates |
| NearestWeek.AcceptedWithinHalfYear | src/core/operations/_week.ts:51-59 | what is accepted in weeks 1 to 52 from the days of a week-year starts within 185 days, if and only if that week-year is none of -1, 0, 99 and 100 |
| NearestWeek.FarWeek53 | src/core/operations/_week.ts:51-59 | week 53 can be accepted much farther away: 367 days on 30 December 2021 |
| Weeks.PageAgrees | src/http/reference/app.ts:161-172 | the reference page's separate implementation names the same week and the same seven days, for every date and offset |
| KeepaliveModel.OneTimerOrOneRun | src/core/keepalive/scheduler.ts:100-164 | after any run: scheduled means exactly one armed timer or one run of the current generation, stopped means neither |
| KeepaliveModel.NextSound | src/core/keepalive/scheduler.ts:100-164 | every resume, stop, firing and end of a run keeps that |
| KeepaliveModel.OvertakenChangesNothing | src/core/keepalive/scheduler.ts:146-163 | over any run: once a stop or a resume has come, no run that was under way before arms or stops anything when it ends; it can only reset the count of failures |
| KeepaliveModel.StartsCurrent | src/core/keepalive/scheduler.ts:131-147 | a run that starts bears the current generation |
| KeepaliveModel.StoppedStaysSilent | src/core/keepalive/scheduler.ts:100-164 | over any run from a stop to the next resume nothing is armed and no run starts |
| KeepaliveModel.ResumeExactly | src/core/keepalive/scheduler.ts:100-107 | over any run: resuming replaces whatever was armed by the first pause and forgets the failures |
| KeepaliveModel.FireExactly | src/core/keepalive/scheduler.ts:131-144 | over any run: at night or during a push-back nothing is sent and the timer is set again, past the end of a longer push-back; otherwise one run starts |
| KeepaliveModel.SettleExactly | src/core/keepalive/scheduler.ts:145-163 | over any run: the pause wanted after a success, twice the last after each failure in a row up to an hour, none after an error that no waiting helps |
| KeepaliveModel.DelayBounds | src/core/keepalive/scheduler.ts:124-129 | never below the minimum, at most a tenth early, never late, and within half a millisecond of the share that chance takes off |
| KeepaliveModel.BackoffSlower | src/core/keepalive/scheduler.ts:159-160 | backing off lengthens the pause exactly for intervals under an hour and shortens it exactly for longer ones |
| KeepaliveModel.QuietRoundTheClock | src/core/keepalive/scheduler.ts:63-67 | the quiet hours are those met on the way round the clock from the start to before the end |
| Keepalive.Slot.Halt | src/core/keepalive/scheduler.ts:117-122 | new state is that of the specification |
| Keepalive.Slot.Arm | src/core/keepalive/scheduler.ts:124-129 | new state is that of the specification |
| Keepalive.Slot.Resume | src/core/keepalive/scheduler.ts:100-107 | new state is that of the specification |
| Keepalive.Slot.Fire | src/core/keepalive/scheduler.ts:131-144 | new state is that of the specification |
| Keepalive.Slot.Settle | src/core/keepalive/scheduler.ts:145-163 | new state is that of the specification |
| HtmlRoundTrip.RoundTripExactly | src/providers/schoolsoft/capture/html.ts:120-202 | tokenizing what was serialized gives back the same tokens if and only if no close tag of the page has a name of more than 197 characters; for every string |
| HtmlRoundTrip.SecondTrip | src/providers/schoolsoft/capture/html.ts:120-202 | what a second trip makes of any page, unterminated comments, tags, quotes and raw elements included |
| HtmlRoundTrip.TripIs | src/providers/schoolsoft/capture/html.ts:120-202 | printing and parsing canonical tokens changes only what a full close-tag slice leaves over |
| HtmlRoundTrip.TokensCanonical | src/providers/schoolsoft/capture/html.ts:120-177 | what the tokenizer produces is canonical: what may follow what, and what each token may hold |
| HtmlRoundTrip.MarkupBack | src/providers/schoolsoft/capture/html.ts:180-202 | printed markup is parsed back, one construct at a time |
| HtmlRoundTrip.AttrsBack | src/providers/schoolsoft/capture/html.ts:72-117 | printed attributes are read back |
| HtmlRoundTrip.FindCloserAfter | src/providers/schoolsoft/capture/html.ts:167-173 | the closer the serializer writes is the first one after a raw body |
| HtmlRoundTrip.LongCloseBack | src/providers/schoolsoft/capture/html.ts:151-157 | a close tag with 198 or more characters of name is cut there: the rest of its name and its ">" are left over |
| HtmlRoundTrip.TripSize | src/providers/schoolsoft/capture/html.ts:120-202 | a second trip adds exactly one character of text for each such close tag |
| HtmlText.DecodeEscape | src/providers/schoolsoft/capture/html.ts:49-66 | decoding undoes escaping, for every string |
| HtmlText.NamedDecodes | src/providers/schoolsoft/capture/html.ts:49-58 | a reference by name is decoded wherever it stands |
| HtmlText.UnknownStaysExactly | src/providers/schoolsoft/capture/html.ts:48-57 | a reference to a name the table does not have stays as written if and only if the name is not one of the seven that every object inherits; for every name and wherever it stands |
| HtmlText.InheritedNamesDecode | src/providers/schoolsoft/capture/html.ts:48-57 | one that does not: `&valueOf;` |
| HtmlReading.TagReads | src/providers/schoolsoft/capture/html.ts:72-117 | a tag is read as its name and what its attributes mean, in every way they can be written: between quotes of either kind, bare, or unclosed at the end of the page, with space around "=", stray characters in between, and any of the three ends |
| HtmlReading.AttrsRead | src/providers/schoolsoft/capture/html.ts:77-116 | attributes written in any of these forms are read as what they mean, one after the other |
| HtmlReading.RawReads | src/providers/schoolsoft/capture/html.ts:163-173 | the body of a raw element runs to the first place that closes it, in any case and with space before the ">", or to the end of the page |
| HtmlReading.CommentReads | src/providers/schoolsoft/capture/html.ts:135-142 | a comment runs to the first "-->" or to the end of the page |
| HtmlReading.DoctypeReads | src/providers/schoolsoft/capture/html.ts:143-150 | any other declaration runs to the first ">" or to the end of the page |
| HtmlReading.CloseReads | src/providers/schoolsoft/capture/html.ts:151-157 | a close tag of up to 200 characters is read as its name, whatever stands between name and ">" |
| HtmlReading.TextReads | src/providers/schoolsoft/capture/html.ts:128-134 | text is whatever is no "<", and a "<" that starts nothing |
| HtmlReading.EscapeExactly | src/providers/schoolsoft/capture/html.ts:64-66 | escaping changes "&" and the double quote, and nothing else |
| HtmlReading.SerializeConcat | src/providers/schoolsoft/capture/html.ts:180-202 | tokens are written one after the other |
| HtmlReading.WrittenForms | src/providers/schoolsoft/capture/html.ts:182-199 | each token in its one form: a tag's attributes in order, each value between double quotes |
| HtmlReferences.ReferenceIs | src/providers/schoolsoft/capture/html.ts:49-57 | a reference stands exactly where "&", a name or number, and ";" do |
| HtmlReferences.NamedExactly | src/providers/schoolsoft/capture/html.ts:26-56 | a name of the table stands for what the table says, in exactly that case |
| HtmlReferences.PlainDecodes | src/providers/schoolsoft/capture/html.ts:49-57 | anything else is decoded as itself |
| HtmlReferences.NumericDecodes | src/providers/schoolsoft/capture/html.ts:51-55 | a decimal or hexadecimal reference stands for the character of its number, and for itself when there is none |
| HtmlScanner.ReadAttributes | src/providers/schoolsoft/capture/html.ts:77-116 | the loop reads the attributes and the end of the tag that the specification gives, which `HtmlReading.AttrsRead` describes |
| HtmlScanner.ReadTag | src/providers/schoolsoft/capture/html.ts:72-117 | the tag, and the raw body it swallows |
| HtmlScanner.Tokenize | src/providers/schoolsoft/capture/html.ts:120-177 | the loop gives the tokens of the specification |
| BreakerModel.DefaultIsValid | src/core/budget/policy.ts:47-58 | the policy the program runs with satisfies what the lemmas ask of one |

## Left out

- Clock: each synchronous block reads it once; the source sometimes reads it several times within one block. The budget assumes that it never runs backwards, the OAuth, cache and week lemmas do not, except where a lemma says so.
- Numbers: `tokens` is a floating-point number in the source and an exact integer here; the intervals and limits of policies are at least one, as their schema demands.
- Asynchrony: promises, listeners and timers appear as the steps they cause; their microtask order within one step is not modelled.
- Random values never repeat, and hashes and signatures are injective: the cryptography itself is not modelled. A key for a rotation is drawn from the supply whether or not one is needed.
- `approvedRedirect` and the own callbacks are one set of allowed addresses; the shape of a challenge is a flag; the verifier is compared outside this file.
- Scopes and children are sets: the order in which they are listed, and repeated entries, are not modelled. Client names and the `state` parameter are carried through unread.
- `pseudonymizeRestored` and `requesterPseudonym`: a requester is a number, equal for equal networks.
- Tables keep insertion order; a JavaScript object would list integer-like keys first, which random ids are not.
- `readRefresh`: splitting and number syntax of the text are part of one case, unreadable; the check of the signature is kept.
- `OAuthProvider.ConnectorOAuthProvider.Authorize`: the client record is the caller's, as looked up earlier; the look-up itself and the redirect are not modelled.
- ClientServer: the calls themselves (paths, queries, schemas) are left out. Any block of any call may run at any moment, which covers every interleaving of calls. The token storage is read once, and one client instance is assumed.
- NearestWeek.NearestWithinHalfYear: says nothing for a current week-year of -1 to 100; `NearestWeek.HalfYearExactly` and `NearestWeek.WithinHalfYearExactly` do.
- ClientServer.UsedOnceSavedExactly: speaks of runs in which saves succeed and no call is refused twice to the point of emptying the store; a failed save is `ClientServer.FailedSaveIsUsed`.
- Weeks: a date is a number of days; reading and printing `YYYY-MM-DD`, and the refusal of malformed dates, are not modelled. `calendarRange` is modelled without arguments only.
- StockholmTime: the time-zone data base is any function into 60 and 120 minutes whose changes are not undone within six hours; the offsets before 1900 do not fit that. Texts are read and printed outside the model.
- CacheKey: an argument is undefined, null, a boolean, a whole number or a text; objects and fractions as arguments are not modelled.
- CachedReads: a change of focus is assumed to be followed by a clear before the next change, as src/core/wiring.ts:164-169 arranges; capabilities with no time to live bypass the cache and are not modelled, nor is the host's guard. Values are not copied, since they cannot change.
- Html: characters are Unicode scalars rather than UTF-16 units, a lone surrogate from a reference stands as U+FFFD, and lower-casing is that of ASCII. The scanner works on what is left of the page rather than on an index into it. `escapeText` is not modelled.
- HtmlReading: speaks of attributes in the forms of `HtmlReading.Written`; any other characters are read as `Html.Tokens` says, which `HtmlScanner.Tokenize` computes.
- LimiterAccount.FullRate: speaks of runs in which the bucket does not overflow; what overflows is lost in the source too.
- Keepalive: one task; `start`, `stop` and `status` do the same for each. The hour and the pause are what the host says at the moment a timer fires.
- `portalHealth`, `parseRetryAfter` and the reading of answers: pure and easy.
- Routes, owner pages, MCP and CLI surfaces, storage, browser automation, schemas, message texts and session management: no lasting state of this kind, or foreign calls.
