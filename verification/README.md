# Verified model of Samply.Beam.Connect

Beam.Connect carries HTTP requests over the Beam network. The asking side turns a request into a Beam task (or a
socket); the answering side polls for tasks, claims them, executes them against local targets and posts the replies.
This project models the parts of it that are hard to get right and proves what they keep over all inputs, all
interleavings and all runs.

| file | models |
|---|---|
| `Retry.dfy` | the bounded retry loop under every request to the Beam proxy, as a loop and as a state machine |
| `ClaimAnswer.dfy` | one fetched task: the race between claiming and executing, and the detached reply |
| `TaskRuns.dfy` | what decides the course of a task: the answers that come in, read off a run alone |
| `Batch.dfy` | a fetched batch: all tasks interleaved under a join that fails fast |
| `Poller.dfy` | the polling loop and its back-off counter |
| `SiteCache.dfy` | the time-limited cache of the central site list, alone and under concurrent use |
| `CacheControl.dfy`, `Decimal.dfy` | the Cache-Control reader and the 64-bit decimal reader below it |
| `Uris.dfy`, `Tables.dfy` | URIs, site table, local table, access lists |
| `LogicAsk.dfy` | the asking side: decisions about a request, its rewriting, sending it as a task |
| `Executors.dfy` | the answering side: the two separately written executors |
| `Routing.dfy` | both sides together, against a declarative routing specification |
| `Reply.dfy`, `Http.dfy` | building a reply and unpacking it; bodies, headers and status codes |
| `Sockets.dfy` | a batch of socket tasks, and handing an upgraded connection over to the relay |

The network is nondeterministic: what an attempt, a call or a fetch brings back, and how long it takes, are
arbitrary inputs. `dafny verify dfyconfig.toml` checks everything.

## What the proofs brought to light

* **The back-off bound depends on how long timed-out calls take, but hardly.** `tries` is a `u32` and `tries += 1` wraps
  in a release build. At most 10 + 2 per minute generic errors are retried without sleeping in every run whose
  timed-out calls each take 70 nanoseconds or more, which no call over a network undercuts; with calls of 69
  nanoseconds the counter could wrap around in less than five minutes and allow twenty (`Poller.BackoffRateBound`,
  `Poller.RateKeptExactlyIfLasting`). In a run with calls of any duration there is an extra 10 for each wrap-around, and
  a wrap-around takes 2^32 - 10 timeouts (`Poller.RateBoundWithWraps`, `Poller.RateKeptExactlyIfFewer`).
* **The counter needs the long poll, or half of it.** It is at most 10 at every loop head if and only if each call that
  times out lasts longer than the 60 seconds of its long poll, and its increment never overflows if and only if they
  last longer than 30 (`Poller.AtMostTenExactlyIfLasting`, `Poller.NoOverflowExactlyIfLasting`). The code guarantees
  neither: an immediate 502 from the proxy is a timeout too (src/logic_reply.rs:297).
* **The expiry of the site list can move backwards.** In `*prev.lock().unwrap() = (Instant::now() + cache_for, ...)` the
  right-hand side is evaluated before the lock is taken, so a list stamped earlier can be stored later. That is the only
  way (`SiteCache.BackwardsExactlyIfOlder`). With equal lifetimes c the expiry never moves backwards if and only if
  there is a single getter, or lists are stored in the order of their clock readings, or nothing comes between the two;
  then fetch starts of one getter are c apart, otherwise c less the lag, and no more
  (`SiteCache.NeverBackwardsExactly`, `SiteCache.AlwaysSpacedExactly`).
* **The two rewriters differ on URIs without a scheme** when the entry forces https or adds a path, and only then
  (`Executors.RewritersAgreeIff`). Every request that `handler_http` forwards, other than CONNECT, has a scheme.
* **A fragment in a local target's path cuts off the original path** (`Routing.OriginalPathIsKept`).
* **Replies to HEAD requests with a non-zero Content-Length are refused** (`Reply.HeadReplyIsRefused`).
* **Bytes read with the response of an upgrade are lost if a write that drains them fails**, since relaying starts
  anyway; a first write that fails makes the client miss all of them (`Sockets.LosslessExactly`,
  `Sockets.BufferCanBeLost`).

Where code and documentation disagree the model follows the code: the source's README.md:94 says that the site list is
fetched once and then static, the code refreshes it; `per_request_beam_retries` (src/config.rs:93) counts attempts, not
repetitions, and 0 means one attempt; directive names of Cache-Control are matched in lower case and `no-cache` and
`no-store` as prefixes; when several results come back for a task the last one is used, although the message for none
speaks of more than one (src/logic_ask.rs:187).

## Model

| member | source | states |
|---|---|---|
| Retry.RetryBeamReq | src/main.rs:185-224 | for every stream of outcomes and every `retries`, 0 included: the loop stops at the first terminal outcome or at attempt max(1, retries), returns the outcome of exactly that attempt, succeeds only with a non-error status, and its log is one start per attempt with one second of sleep after each earlier error status and none after a timeout; each attempt sends what the closure makes for it |
| Retry.StopsExactly | src/main.rs:193-223 | in plain terms: an attempt is the last exactly if all before brought a status from 400 to 599 or a timeout and it does not, or it is number max(1, retries); what the caller then gets |
| Retry.SleepsExactly | src/main.rs:206-214 | one second of sleep between two attempts exactly after a status from 400 to 599 |
| Retry.StopExistsUnique | src/main.rs:193-223 | there is exactly one attempt at which the loop can stop: it terminates with a determined outcome |
| Retry.SleepsOncePerErrorStatus | src/main.rs:206-214 | total sleep is one second per error status before the last attempt, so less than the number of attempts |
| Retry.MachineRefines | src/main.rs:193-223 | the small-step machine that the claim/answer protocol interleaves gives the outcome and log of the loop |
| ClaimAnswer.StepKeeps | src/logic_reply.rs:65-89 | every step of a task, polls in any order, keeps the invariant that ties its phase to everything its trace shows |
| TaskRuns.RunIsDecided | src/logic_reply.rs:65-210 | in every run of a task the answers to its PUTs, the target's answer and its body decide its phase and nothing else does: claimed exactly if the claim ended with 201 or 204, answered or failed with which error; each PUT is tried again exactly as long as its answers ask for it and attempts are left; the message says what the target answered |
| TaskRuns.EveryAnswerIsTaken | src/logic_reply.rs:65-210 | whatever the answer to an attempt, the target's answer, the body or the outcome of the local checks, the model has a step for it |
| Batch.ReachableIsSafe | src/logic_reply.rs:54-89 | every state that any interleaving of a batch of any size reaches satisfies the invariant of every task and of the join |
| Batch.TraceOfEveryTask | src/logic_reply.rs:65-210 | the PUTs of a task are at most max(1, retries) claims, then at most max(1, retries) sends of one message, which says what the target answered in this run; when a send starts at most one claim is open, none if the claim branch won; at most one request to the target; `send_reply` entered exactly when the execution ends |
| Batch.EveryTaskIsDecided | src/logic_reply.rs:54-210 | in every interleaving of a batch each task is in the phase that the answers that came in for it decide, or was cancelled in such a pending phase |
| Batch.BatchConservation | src/logic_reply.rs:54-89 | on Ok every task had its claim acknowledged with 201/204 and owns exactly one detached replier, or had its reply accepted; on an error, some task failed with it and every task has exactly one fate: answered, detached, failed or cancelled |
| Batch.WhatTheAskerGets | src/logic_reply.rs:137-210 | in any interleaving, whatever attempt gets through is unpacked on the asking side to the status, headers and body that the target answered exactly if its Content-Length is absent or right, otherwise to 400 or 500, and to 502 if the target was not reached |
| Batch.DetachedTaskIsIsolated | src/logic_reply.rs:57-88 | from any state, the future of a detached task is the result of its own steps alone; failing siblings, the join and cancellation leave it untouched |
| Batch.AllRunsEnd | src/logic_reply.rs:54-89 | no interleaving goes on forever: a batch of n tasks takes at most n * (4 * max(1, retries) + 5) + 1 steps |
| Batch.BatchCanStep | src/logic_reply.rs:54-89 | no batch gets stuck before the join has returned and every task has ended |
| Batch.MaximalRuns | src/logic_reply.rs:54-89 | when nothing more can happen the join has returned, every task has ended, and every detached task's execution ended and entered `send_reply` exactly once |
| Poller.Poll | src/logic_reply.rs:18-52 | the loop over any finite prefix of calls gives the log and final counter, timer and clock of the specification |
| Poller.LoopExactly | src/logic_reply.rs:24-50 | the loop makes one turn per call up to and including the first rejection by the proxy, which alone ends it; in each turn, from its result and the counter before: what is added to the counter, the sleep of 1s or 10s, and taking two off and setting the timer again after more than 60s |
| Poller.FastRetriesAmortised | src/logic_reply.rs:23-50 | from any state, retries without sleep are paid for by the potential min(tries, 10), decays and wrap-arounds |
| Poller.RateBoundWithWraps | src/logic_reply.rs:23-50 | in every run, with calls of any duration, within t from the start, at most 10 + 2 * floor(t / 60s) generic errors are retried without sleeping, plus 10 per wrap-around of the counter |
| Poller.BackoffRateBound | src/logic_reply.rs:23-50 | the plain bound 10 + 2 * floor(t / 60s) for runs of any length and any number of wrap-arounds whose timed-out calls each take at least 70ns |
| Poller.RateKeptExactlyIfLasting | src/logic_reply.rs:23-50 | the plain bound holds for all runs whose timed-out calls take at least tau if and only if tau is at least 70ns |
| Poller.RateKeptExactlyIfFewer | src/logic_reply.rs:23-50 | with calls of any duration it holds for all runs with fewer than n timeouts if and only if n is at most 2^32 - 10 |
| Poller.WrapsTakeTimeouts | src/logic_reply.rs:33 | every wrap-around takes 2^32 - 10 timeouts |
| Poller.WrapsAttainTheBound | src/logic_reply.rs:33-41 | for every number w of wrap-arounds a run of w * (2^32 - 10) timeouts that take no time and attain the bound with its extra term |
| Poller.CounterSafety | src/logic_reply.rs:33-50 | if every call that times out lasts longer than 60s, the counter is at most 10 at every loop head and at most 11 ever, and never wraps |
| Poller.AtMostTenExactlyIfLasting | src/logic_reply.rs:33-50 | the counter is at most 10 at every loop head of all runs whose timed-out calls take at least tau if and only if tau is more than 60s |
| Poller.NoOverflowExactlyIfLasting | src/logic_reply.rs:33-50 | its increment overflows in no run whose timed-out calls take at least tau if and only if tau is more than 30s |
| Poller.SleepsTakeTime | src/logic_reply.rs:29-45 | connect failures (1s) and slow retries (10s) together sleep no longer than the run lasts |
| SiteCache.CentralTargets.constructor | src/config.rs:290-297 | the initial pair is the first list, fresh for as many seconds as its Cache-Control header asks for |
| SiteCache.CentralTargets.Get | src/config.rs:312-362 | one `get` alone: a fresh cell is left and answered; otherwise a list that decodes is answered and stored, fresh from the end of its fetch for the seconds that its header asks for, and no response or an undecodable list leaves the pair and answers it |
| SiteCache.AloneIsARun | src/config.rs:339-362 | what `get` alone does is an uninterrupted run of the concurrent model |
| SiteCache.StepKeepsSafe | src/config.rs:339-362 | every step of any number of concurrent getters keeps the stored pair from one fetch and every answer justified |
| SiteCache.CacheSafety | src/config.rs:290-362 | in every interleaving the stored pair comes from one and the same successful fetch, every answer is a list that was fetched, every hit was stamped before and not expired |
| SiteCache.FailedFetch | src/config.rs:348-356 | failed fetches leave no trace: in every interleaving, erasing all steps of all fetches that fail gives a run with the same clock, stored pair, fetched and stored lists and other answers; and each getter whose fetch failed is answered with what is stored at the moment it falls back |
| SiteCache.BackwardsExactlyIfOlder | src/config.rs:357 | in every run, with any lag, a step moves the expiry backwards if and only if it stores a list whose clock reading is older than the one stored last |
| SiteCache.StepKeepsPace | src/config.rs:343-358 | a step keeps fetch starts spaced, and the expiry falls back by at most the lag, by nothing for one getter or stores in order |
| SiteCache.RefreshBound | src/config.rs:343-358 | with equal lifetimes c, two fetch starts of one getter are at least `gap` apart and k getters start at most k * (floor(t / gap) + 1) fetches within any t; `gap` is c for a single getter whatever the lag, and for stores in the order of their clock readings, otherwise c less the lag |
| SiteCache.NeverBackwardsExactly | src/config.rs:357 | the stored expiry never moves backwards in any run if and only if there is at most one getter, or lists are stored in order, or the lag is 0 |
| SiteCache.AlwaysSpacedExactly | src/config.rs:343-358 | the spacing of RefreshBound is exact for every lifetime, lag and number of getters: fetch starts are always d apart if and only if d is at most `gap` |
| CacheControl.SplitIsInverseOfJoin | src/config.rs:316 | splitting at commas gives comma-free parts that join to the original |
| CacheControl.JoinIsInverseOfSplit | src/config.rs:316 | and every list of comma-free parts is the split of its join |
| CacheControl.CacheForIsFirstMatch | src/config.rs:312-328 | the lifetime read is that of the first recognised directive, one hour if there is none or the header is absent or no text |
| CacheControl.PrintedHeaderReadsBack | src/config.rs:312-328 | any list of directives with any white space reads back as the first max-age below 2^64, no-cache or no-store; extensions and overflowing or unparsable numbers are skipped |
| CacheControl.CacheForExactly | src/config.rs:312-328 | the reader is total: every header of blanks, tabs and visible ASCII is a list of max-age with a number, things starting with no-cache or no-store, and other tokens, all with white space around, and gives the first lifetime of these, or one hour; without a header or with any other it is one hour |
| Decimal.ParseU64 | src/config.rs:321-323 | the checked digit loop accepts exactly an optional plus and digits whose value fits in 64 bits, and gives that value |
| Decimal.PrintParses | src/config.rs:321-323 | every number below 2^64 is read back from its decimal form, every other is refused |
| Decimal.ParsedExactly | src/config.rs:321-323 | a text is read as n exactly if n is below 2^64 and the text is its decimal form with any zeros and at most one plus in front |
| Reply.Unpack | src/logic_ask.rs:187-224 | the reply is passed on exactly if there is a last result, it succeeded, decodes, and its Content-Length is absent or right |
| Reply.Transparent | src/logic_reply.rs:142-185 | a posted message reaches the asking client unchanged exactly if the target was reached and the length agrees; every execution error becomes 502 |
| Reply.MessageExactly | src/logic_reply.rs:142-185 | what is posted: the target's status, headers and body as a success whatever the status; nothing if the body cannot be read; a fixed 500 as a permanent failure if the target was not reached |
| Reply.UnpackedExactly | src/logic_ask.rs:187-224 | 500 without results, 502 if the last did not succeed or decode, 400 for a length that is no text, 500 for a wrong one, otherwise the response, also without a length |
| Reply.HeadReplyIsRefused | src/logic_ask.rs:212-223 | the reply to a HEAD request with a non-zero Content-Length ends in 500 |
| Tables.GetSite | src/config.rs:111-118 | the first site whose virtual host is the authority up to letter case, or none if there is none |
| Tables.GetEntry | src/config.rs:143-155 | the first entry matching authority and path expression, or none if there is none |
| Tables.EntryExactly | src/config.rs:143-155 | the entry found is the first one with the URI's authority up to ASCII letter case whose expression, if any, matches the path before the question mark |
| Tables.AccessExactly | src/config.rs:190-200 | an entry admits an app exactly by its own id, by a proxy id that ends it, or by a pattern that matches it |
| Tables.ReplacementReadsBack | src/config.rs:217-234 | every replacement is read back from "authority" or "authority/path", also with empty paths and paths with slashes |
| Tables.ReplacementExactly | src/config.rs:217-234 | every text is read as the authority before its first slash, if it is one, and everything behind as the path |
| LogicAsk.HandlerHttp | src/logic_ask.rs:24-123 | the handler that mutates the request gives the decision and the forwarded request of the specification |
| LogicAsk.HandledExactly | src/logic_ask.rs:33-112 | the whole decision read off the request: authority by precedence of x-replace-host, TLS connection, URI, host header; site list, 400, 407, 401, 500 or forwarding, to which app, with which credentials, under which URI and headers |
| LogicAsk.SitesAreShownExactly | src/logic_ask.rs:43-92 | the site list is shown exactly for "/sites" without authority, or with credentials and an authority no site has |
| LogicAsk.HandleViaTasks | src/logic_ask.rs:125-266 | each post attempt the retry loop makes sends the one message with its id, sender, sole addressee, time to live and request, each fetch attempt that id, and fetches follow a successful post; the answer is the error status of the first failing phase, 502 for a transport error, or the unpacked results |
| Executors.ExecuteTask | src/logic_reply.rs:212-278 | the builder-based executor sends the request of the specification or refuses for its reason |
| Executors.ExecuteSocketRequest | src/sockets.rs:126-186 | the executor that overwrites the request URI in place sets exactly the URI of the specification, or refuses with its status and leaves the URI alone |
| Executors.TaskRefusalsExactly | src/logic_reply.rs:217-230 | a task has no mapping exactly if no entry is for its URI, and is not authorised exactly if its sender is no app that the first such entry admits |
| Executors.SocketRefusalsExactly | src/sockets.rs:131-156 | 400 exactly without an entry, 401 exactly without access, otherwise 500 or the request, or the entry's authority for CONNECT |
| Executors.RewritersAgree | src/sockets.rs:131-186 | for every URI with a scheme, table and app, both executors refuse or both compute the same URI |
| Executors.RewritersAgreeIff | src/logic_reply.rs:216-257 | over all URIs, exactly when the two executors agree |
| Routing.DeliveredExactlyWhereRouted | src/logic_ask.rs:33-112 | a request is delivered to an app and a URI if and only if the specification, which names none of the functions of either side, routes it there: authority by precedence, first site, remapped host, the task's addressee, first entry, access by that entry alone, target URI |
| Routing.EitherTransport | src/sockets.rs:131-186 | a forwarded request is delivered to the same URI, or refused, whether sent as a task or through a socket |
| Routing.OriginalPathIsKept | src/logic_reply.rs:242-255 | the target's path is the entry's path followed by the whole original path and query exactly when the entry's path has no fragment |
| Routing.LetterCaseIsIrrelevant | src/config.rs:110-156 | requests that differ in the letter case of their authorities are delivered alike |
| Routing.DeliveredHeaders | src/logic_reply.rs:260-274 | the target gets all original headers, with Via set, never the proxy credentials, and no Host exactly when the entry resets it |
| Sockets.ServeBatch | src/sockets.rs:21-42 | for every answer to every connect, the tunnels are exactly those of the longest prefix of tasks with an App sender and a 101 answer, in order, each with its task's id and sender; Ok exactly if that is the whole batch, else the error of the first failing task |
| Sockets.WriteAll | src/sockets.rs:313-317 | for every sequence of partial writes, what was written and what is left is the buffer, and what is left is a function of the write stream |
| Sockets.HandOver | src/sockets.rs:303-324 | what the client receives, what is lost and whether relaying goes through, as functions of the write stream |
| Sockets.NoErrorIsLossless | src/sockets.rs:303-324 | without write errors the client receives buffer and remainder in order, each byte once, for every split of the stream and every sequence of partial writes |
| Sockets.LosslessExactly | src/sockets.rs:313-324 | nothing is lost if and only if the writes before the first failing one have room for the whole buffer |
| Sockets.BufferCanBeLost | src/sockets.rs:313-317 | if the first write fails and later ones do not, relaying goes through and the client misses the whole buffer |

## Left out

* Sockets, TLS, upgrades, the HTTP, JSON and base64 libraries: outcomes are nondeterministic inputs, envelopes are carried unchanged.
* The Beam broker and proxy beyond the outcome of each attempt. Nothing is claimed across re-fetches: a cancelled task may be fetched and executed again.
* Regular expressions, glob patterns, the validity of paths and authorities: arbitrary fixed functions (`Uris.Lib`).
* Proxy entries of access lists match by plain suffix, as written, not by whole labels.
* Overflow of clock and duration arithmetic and poisoned locks: time is unbounded and locks always succeed.
* The u32 overflow check of a debug build, which stops the poller where a release build wraps around.
* The relay direction from client to proxy, and relaying after the hand-over beyond bytes and their order.
* How the status of a poll is turned into an outcome of the call (src/logic_reply.rs:293-306, src/sockets.rs:53-66).
* Trailers of request bodies, and the version of responses.
* Opening the connection for a CONNECT request: its default port 443, and the 500 if it fails (src/sockets.rs:146-156).
* Command line, configuration files, certificates, banner, logging, signals, the accept loop and graceful shutdown.
