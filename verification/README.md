# NodeLume: verified models of the server and agent state machines

NodeLume is a monitoring server with agents. Its interesting code is a set of small in-memory state machines whose
handlers run one at a time under a mutex and are driven by a clock. This project models those machines in Dafny and
proves what every run of them keeps. `dafny verify dfyconfig.toml` checks everything.

## How the models are built

A component that updates its fields in place is a class here too, with the same loops and branches; its methods are
proved to make exactly the step that a specification function describes. Theorems about runs are then lemmas about
those specification functions. A run is a sequence of events, and "after a run" is a fold over it.
Their limits are written out in numbers, so that a changed constant breaks a theorem.

| files | what they model |
|---|---|
| Basics | optional values, Unix seconds, subsequences |
| MetricRing, History | the metric ring buffer, the 5-second gate and the hourly prune, against an unbounded log |
| Identity, IdentityRuns, Maintenance, Server | nodes, enrollment tokens, receipts, rotated secrets, sessions and the maintenance sweep; Server holds the imperative handlers |
| Effects, TokenLife | what each of those requests does, and how long tokens, receipts and sessions last, in numbers |
| Signing, Authentication, Rotation | the agent's signature, the server's check with its nonce cache, and secret rotation seen through both |
| CommandRpc | sendCommand, the agent's long poll, the agent, and agentResults as interleaved steps |
| RateLimiter | the registration rate limiter and its slice filtered in place |
| LogFiles, LogEffects, LogRuns, LogReuse, LogFanout, LogWriter | log rotation, retention, capacity cleanup and subscribers; LogWriter holds the imperative writer |
| PasswordKey | the password hash against PBKDF2, section 5.2 of RFC 8018 |
| ShellScript | shell quoting and the recovery script, against a lexer for POSIX.1-2017 Shell Command Language, sections 2.2.1, 2.2.2 and 2.3 |
| Redaction, RedactionEffects, Recovery, Update | the helper's argument redaction, its recovery store, and agent updates with rollback |

## What is taken for granted

- The clock never goes backwards. Every handler is one atomic step with one clock reading, except the authentication
  check, which has the three readings it takes, and the command RPC, which is split at every channel and lock operation.
- Random ids, tokens and secrets are fresh; ids and tokens are the hexadecimal strings the generators produce. The state's
  token hash is injective. HMAC, the body hash, the password PRF and the URL parser are function parameters, with no
  assumption beyond those stated where they are used.
- Integers are unbounded, except in the clock-skew test, where 64-bit subtraction and negation wrap. Clock instants are
  nanosecond integers. float32 samples are reals that no property looks into. Strings are sequences of characters, each
  standing for one byte, so that a length is a length in bytes. Header and form fields arrive trimmed.
- Saving the state file succeeds. Log files are a map from names to text and modification time; a retention day is 86400
  seconds and local days are days of the model's clock. File operations of the log writer succeed. In Update every call
  may fail while installing; commit and rollback are taken as atomic, with calls that succeed whenever their source exists.
- What the helper learns from the operating system (a process's attributes, the command line read again later, whether a
  signal, a wait, a service action or a launch succeeds) is chosen freely in every request.

## What the proofs found

- A history query for an hour can miss one point, and only one that is exactly 3600 seconds old (`HourOldPointCanBeLost`);
  with every other query window the ring answers like an unbounded log.
- Maintenance is unobservable except that an expired common token's `expires_at` and `joined` are reported until the sweep
  removes it (`SweepKeepsStatusExactly`, `ExpiredCounterIsObservable`).
- The common token's `active` flag says false in the very second of its expiry, while registration still accepts the token
  in that second (`ActiveFlagBoundary`).
- A registration retry answers with the identity first handed out even if the secret was rotated since. That secret is
  accepted exactly if nothing has rotated it, or exactly one event has, at most five minutes ago; a second rotation ends
  it at once (`RetryAfterRotation`, `IssuedSecretWindow`, `RetryCanReturnRetiredSecret`).
- The 60-second skew test has one exception, a timestamp 2^63 seconds before the present, because the absolute value of the
  wrapped difference is negative (`SkewExactly`).
- Authentication reads the clock before and after reading the body. With one reading no request is accepted twice without
  a cache trim in between (`NoReplayWithoutTrim`); with separate readings a repeat can pass when its body arrives slowly
  (`SlowRepeatAccepted`), and after a trim one can pass at once (`TrimmedRepeatAccepted`);
  `RepeatAcceptedExactlyWithTrims` says precisely when.
- A failed upgrade is harmless exactly when no update was pending before it (`FailedUpgradeSafeExactly`). Otherwise it
  keeps the pending record but not the backup, and a watchdog then leaves no binary in place, unless the attempt never
  touched the backup (`FailedSecondUpgradeThenWatchdog`).
- A watchdog rolls back whatever is pending when it wakes up. It does what it is there for exactly when no other upgrade is
  undecided then (`WatchdogAsMeantExactly`); the one of a committed upgrade takes back the next one
  (`StaleWatchdogTakesBackNextUpgrade`).
- Two log rotations of the same day in one second overwrite a file. Exactly its text is cut out of the log
  (`RenameCutsReusedName`); the log stays a suffix of what was written exactly when what is older than that file still ends
  what was written up to it (`ReusedNameKeepsSuffixExactly`), and four writes are enough for it not to be one
  (`ReusedNameBreaksSuffix`).
- A failed stop puts the recovery store back exactly when it wrote no record, or the store could be read and the record
  removed again (`FailureRestoresStore`). A store that cannot be read when the record is saved loses all its records
  (`UnreadableStoreIsLost`, `FailedStopLosesUnreadableStore`).

## Model

| member | source | states |
|---|---|---|
| MetricRing.Ring.constructor | server/main.go:214 | a new ring is empty and has the asked capacity |
| MetricRing.Ring.Add | server/main.go:215-224 | refines a bounded queue: append, and when full drop the oldest |
| MetricRing.Ring.All | server/main.go:225-235 | reads the circular array out oldest first |
| MetricRing.Ring.Since | server/main.go:236-250 | exactly the stored points at or after the cut, in order, with the temperature only where it is valid |
| MetricRing.Ring.Prune | server/main.go:251-260 | refines a filter: keeps exactly the points at or after the cut, in order |
| MetricRing.NewerExactly | server/main.go:251-260 | keeping the points of a time window keeps exactly those at or after the cut, each as often as before, in order |
| MetricRing.UnrolledPush | server/main.go:219-223 | writing one slot of the circular array and advancing next and count is a bounded push on its unrolling |
| MetricRing.UnrolledAt | server/main.go:227-233 | the read index start+i modulo the length yields element i of the unrolling |
| History.RuntimeNode.constructor | server/main.go:291-293 | a new node has an empty history of capacity 720 |
| History.RuntimeNode.Heartbeat | server/main.go:1250-1258 | a heartbeat adds a point only if none was added for five seconds, stamped with the server's second |
| History.RuntimeNode.Maintain | server/main.go:1349-1353 | the sweep drops points older than an hour |
| History.RuntimeNode.Query | server/main.go:943-959 | the history endpoint, with unsupported windows falling back to ten minutes |
| History.RunLinked | server/main.go:1250-1258 | over every run the ring holds a tail of the unbounded log, points are five seconds apart, and what is missing is over an hour old or has 720 successors |
| History.RingAnswersLikeLog | server/main.go:236-260 | for every run and every cut within the last hour the ring yields the newest 720 of the log's points; it equals the log's answer exactly when there are at most 720, and a 721st is exactly 3600 s old |
| History.QueryAnswersLikeLog | server/main.go:943-959 | the endpoint equals the unbounded log's answer for every window but the hour, and its newest 720 points for the hour |
| History.AnswerFieldByField | server/main.go:943-959 | the endpoint's answer point by point and field by field: the stored points of the last 1, 5, 10, 30 or 60 minutes, of 10 for any other length |
| History.HourOldPointCanBeLost | server/main.go:36 | 721 heartbeats in an hour: the log has 721 points in the window, the endpoint returns 720 |
| Server.App.Create | server/main.go:852-885 | adds the node, its one-time enrollment for 30 minutes and an empty runtime; a long name is refused |
| Server.App.Reenroll | server/main.go:886-916 | replaces all enrollments of the node by one new one and leaves the node's credential alone |
| Server.App.Delete | server/main.go:917-942 | removes the node, its runtime and every enrollment naming it |
| Server.App.DropEnrollmentsOf | server/main.go:902-906 | the deleting loop keeps exactly the enrollments of other nodes |
| Server.App.SetCommon | server/main.go:1766-1802 | at most one common token: the old one goes, the new one expires after 1, 7, 30 days or never |
| Server.App.RevokeCommon | server/main.go:1803-1818 | removes the common token and nothing else |
| Server.App.DropReusable | server/main.go:1788-1792 | the deleting loop keeps exactly the one-time enrollments |
| Server.App.CommonStatus | server/main.go:1750-1765 | finds the one common token of a sound state whatever the map order, and reports its status |
| Server.App.Register | server/main.go:1112-1207 | every branch of registration: protocol, empty token, receipt replay, unknown or expired token, common token, one-time token, missing node |
| Server.App.HandOut | server/main.go:1176-1203 | the new secret takes over, the replaced one stays for 300 s, a one-time enrollment is consumed, a receipt is kept for 600 s |
| Server.App.Login | server/main.go:670-673 | a session for twelve hours |
| Server.App.Logout | server/main.go:680-687 | the session is gone, nothing else changes |
| Server.App.GetSession | server/main.go:692-704 | a session counts through its expiry instant and not later |
| Server.App.Heartbeat | server/auth_v101.go:39-66 | the current secret, or the replaced one through its expiry second, is needed; an accepted heartbeat updates only that node's history |
| Server.App.Maintain | server/main.go:1347-1383 | one sweep: histories, enrollments, receipts, replaced secrets and sessions, each by its own comparison |
| Server.App.WipeLapsedSecrets | server/main.go:1367-1373 | wipes exactly the replaced secrets past their second |
| Server.App.DropExpiredEnrollments | server/main.go:1355-1360 | drops exactly the expired enrollments |
| Server.App.DropExpiredReceipts | server/main.go:1361-1366 | drops exactly the receipts past their second |
| Server.App.DropExpiredSessions | server/main.go:1374-1379 | drops exactly the sessions past their instant |
| Server.App.PruneHistories | server/main.go:1349-1353 | prunes every node's history and touches nothing else |
| Effects.CreateAdds | server/main.go:861-876 | a created node is unregistered, without secret, named as asked or node- and six digits; its token names it and expires 1800 s later; nothing else changes |
| Effects.CreateRefuses | server/main.go:862-865 | names over 80 bytes are refused without any change |
| Effects.ReenrollReplaces | server/main.go:895-907 | the node's tokens are replaced by one for 1800 s; other tokens, all nodes and credentials stay |
| Effects.DeleteRemoves | server/main.go:921-933 | the node, its history and the enrollments naming it go; every other one is unchanged |
| Effects.MissingNodeUntouched | server/main.go:921-926 | deleting or re-enrolling an unknown node changes nothing |
| Effects.CommonTokenReplaced | server/main.go:1782-1793 | the new common token is the only one; it expires after 86400 s per day, or never for 0 days; one-time tokens stay |
| Effects.CommonTokenRevoked | server/main.go:1803-1809 | no common token is left, every one-time token is |
| Effects.CommonTokenTerms | server/main.go:1778-1781 | only 0, 1, 7 and 30 days are accepted |
| Effects.RegistrationRefusals | server/main.go:1112-1128 | which refusal a missing, older or newer protocol and an empty token get |
| Effects.RegistrationTouchesOnly | server/main.go:1134-1203 | a registration changes only the node it answers with, its token and its receipt; other nodes, histories and sessions stay, and so does the history of a node that was there |
| Effects.HeartbeatNeedsSecret | server/auth_v101.go:39-66 | a heartbeat counts iff its key is the node's secret, or the replaced one through its last second; other nodes' histories stay |
| Effects.HeartbeatAddsPoint | server/main.go:1250-1258 | a point is added iff five seconds have passed since the last, with the sample's values and the server's second |
| Effects.SweepExactly | server/main.go:1355-1379 | a sweep drops exactly what has expired, by each entry's own comparison, and leaves nothing stale |
| Effects.SweepNodesExactly | server/main.go:1351-1373 | and wipes exactly the lapsed secrets and drops exactly the points over 3600 s old |
| Identity.StepKeepsSound | server/main.go:852-942 | every handler keeps: one-time enrollments name existing nodes, at most one common token, at most one enrollment per node, nodes and runtimes match, hash and secret in step |
| Identity.RegisterKeepsSound | server/main.go:1152-1203 | registration keeps that invariant and never takes the missing-node branch |
| IdentityRuns.ReachableStates | server/main.go:852-942 | in every reachable state the same holds, and the common token's counter is the number of nodes created through it |
| IdentityRuns.EnrolledNodeNeverMissing | server/main.go:1169-1174 | the NODE_NOT_FOUND branch is dead in every run |
| IdentityRuns.CommonTokenJoins | server/main.go:1153-1166 | joining through the common token adds exactly the drawn node, which is new, raises the counter by one, and keeps it equal to the number of joiners |
| IdentityRuns.OneIdentityPerToken | server/main.go:1129-1203 | over any run all successful answers to a one-time token name the same node and secret |
| IdentityRuns.NodeStaysGone | server/main.go:917-942 | a deleted node never comes back |
| IdentityRuns.RetryReturnsOriginal | server/main.go:1135-1144 | a retry with the same token and enrollment id within ten minutes, node still present, changes nothing and returns the original identity |
| IdentityRuns.ReplacedSecretWindow | server/main.go:1177-1182 | after a rotation at t1 the new secret is accepted, and the old one exactly through t1+300, until the next rotation |
| IdentityRuns.IssuedSecretWindow | server/main.go:1176-1182 | a secret handed out at i is accepted at j iff no event rotated it in between, or exactly one did, at most 300 s ago; for any number of rotations |
| IdentityRuns.RetryAfterRotation | server/main.go:1135-1182 | a retry within the receipt's life returns the secret first handed out, which is accepted iff it was not rotated since, or exactly once and at most 300 s ago |
| IdentityRuns.RetryCanReturnRetiredSecret | server/main.go:1135-1144 | a concrete run in which a retry is answered with a secret that is no longer accepted |
| TokenLife.OneTimeTokenLife | server/main.go:1145-1203 | over runs: a one-time token, neither used nor replaced nor its node deleted, registers its node through the 1800th second after it was issued, with the name and interval it then gets, and is refused without any change after that |
| TokenLife.CommonTokenLife | server/main.go:1145-1166 | over runs: a common token, neither revoked nor replaced, registers a new node for every request through 86400 s per day, or for good, and is refused without any change after that |
| TokenLife.CommonStatusLife | server/main.go:1758-1764 | its status is active before its last second, or for good; while active it reports that second and the number of nodes that joined |
| TokenLife.UsedTokenRefused | server/main.go:1195-1197 | a used one-time token is refused from then on, receipts aside |
| TokenLife.ReplacedTokenRefused | server/main.go:902-907 | so is one issued before its node was re-enrolled |
| TokenLife.RevokedTokenRefused | server/main.go:1788-1809 | so is a common token that was revoked or replaced |
| TokenLife.RevokedStatus | server/main.go:1758-1764 | after a revocation no common token is reported |
| TokenLife.DeletedForGood | server/main.go:927-933 | at every event after a deletion the node is in neither table, its heartbeats are unauthorized, its history is not found |
| TokenLife.DeletedTokenRefused | server/main.go:929-933 | and every token ever issued for it is refused, receipts or not |
| TokenLife.ReceiptLife | server/main.go:1136-1202 | repeating a one-time registration gets the first identity before the 600th second and is refused from then on |
| TokenLife.SessionLife | server/main.go:673-703 | over runs: a session is accepted through exactly twelve hours after login unless logged out |
| TokenLife.LogoutEndsSession | server/main.go:680-703 | a logged-out session is not accepted again |
| Maintenance.MaintenanceUnobservable | server/main.go:1344-1388 | for every run, erasing the maintenance ticks leaves every later answer unchanged |
| Maintenance.SweepBehind | server/main.go:1351-1379 | a sweep removes only what the readers already ignore |
| Maintenance.StepInStep | server/main.go:852-942 | a swept and an unswept state give the same answer to every event and stay related |
| Maintenance.SameKeysAccepted | server/auth_v101.go:60-63 | wiping a lapsed secret changes no acceptance |
| Maintenance.SameReplay | server/main.go:1136-1144 | dropping lapsed receipts changes no replay |
| Maintenance.SameSession | server/main.go:697-703 | dropping expired sessions changes no session check |
| Maintenance.SameHistory | server/main.go:943-954 | pruning changes no history answer |
| Maintenance.SameCommonStatus | server/main.go:1758-1765 | dropping an expired common token never changes the active flag, and nothing of an active token's status |
| Maintenance.InitiallyProper | server/main.go:1344-1388 | the empty server satisfies what the theorem assumes of its starting state |
| Maintenance.SweepKeepsStatusExactly | server/main.go:1355-1360 | a sweep leaves the whole reported status unchanged iff no stored common token has expired |
| Maintenance.ExpiredCounterIsObservable | server/main.go:1764 | the expiry time and counter of an expired token do depend on the sweep |
| Maintenance.ActiveFlagBoundary | server/main.go:1763 | a stored common token is accepted iff it is reported active or this is its very expiry second |
| Signing.TimestampRoundTrip | agent/main.go:664 | every 64-bit timestamp is read back from its header text |
| Signing.TimestampTextNotUnique | server/auth_v101.go:30 | different header texts parse to one timestamp, so the text is what has to be signed |
| Signing.TimestampsExactly | server/auth_v101.go:30 | a header is a timestamp iff it is an optional sign and digits standing for a 64-bit number, and that number is its value |
| Signing.MessageInjective | server/auth_v101.go:50 | the newline-joined message determines method, URI, timestamp, nonce and body hash, as none of the first four has a line break |
| Signing.MessageLines | server/auth_v101.go:50 | the signed message is, line by line, method, request URI, timestamp, nonce and body hash |
| Signing.MessageAmbiguousWithLineBreaks | server/auth_v101.go:50 | without that condition it does not |
| Signing.AuthorizationSplits | agent/main.go:678-697 | the id.secret string splits back into its parts iff the id has no dot |
| Authentication.NonceGate.constructor | server/auth_v101.go:69-90 | the cache starts empty |
| Authentication.NonceGate.Purge | server/auth_v101.go:71-75 | removes exactly the entries older than 120 s |
| Authentication.NonceGate.Trim | server/auth_v101.go:79-88 | a cache of 4096 or more gives up exactly 2048 arbitrary entries, a smaller one none |
| Authentication.NonceGate.Authenticate | server/auth_v101.go:21-91 | every branch of the check in its order, with three clock readings; only an acceptance inserts |
| Authentication.SkewExactly | server/auth_v101.go:34-37 | the 64-bit skew test is the intended plus or minus 60 s but for one timestamp |
| Authentication.SignatureExactly | server/auth_v101.go:48-66 | the signature test passes iff the signature is the code of those lines under the current or the still valid replaced key |
| Authentication.VerdictExactly | server/auth_v101.go:21-66 | which refusal every request gets: the first thing wrong with it, in the code's order; and when nothing is |
| Authentication.AcceptedIsSigned | server/auth_v101.go:34-66 | over runs: every accepted request is timely and signed by a key of its registered node |
| Authentication.SignedRequestAccepted | agent/main.go:660-676 | unless another key stored for the node collides on it, a request signed by the agent passes iff the clocks are within 60 s, the key is the node's current or still valid replaced one, and the nonce is unseen for 120 s |
| Authentication.CacheBounded | server/auth_v101.go:79-89 | over every run at most 4096 entries |
| Authentication.AcceptanceLeaves | server/auth_v101.go:71-89 | an acceptance leaves the entries of the last 120 s and its own, less exactly 2048 if 4096 were live |
| Authentication.RunFaithful | server/auth_v101.go:67-90 | the cache holds only acceptances, and every acceptance of the last 120 s since the last trim |
| Authentication.RepeatIsLate | server/auth_v101.go:67-90 | without a trim in between the same node and nonce is accepted again only after more than 120 s |
| Authentication.RepeatAcceptedExactly | server/auth_v101.go:34-90 | with no trim and no acceptance of the key in between, a repeat is accepted iff it passes the earlier checks and reaches the cache over 120 s after the first |
| Authentication.RepeatAcceptedExactlyWithTrims | server/auth_v101.go:34-90 | after the latest acceptance of a key, a repeat is accepted iff it passes the earlier checks, and comes over 120 s later or a trim dropped the key since |
| Authentication.TrimmedRepeatAccepted | server/auth_v101.go:79-90 | a concrete run: after 4097 acceptances in one second the first request is accepted again |
| Authentication.RepeatNeedsTrimOrDelay | server/auth_v101.go:34-90 | the same request accepted twice without a trim in between needs a longer delay between skew test and cache lookup the second time |
| Authentication.NoReplayWithoutTrim | server/auth_v101.go:34-90 | with one clock reading, a request accepted twice implies a trim in between |
| Authentication.TrimNeedsBurst | server/auth_v101.go:79-88 | a trim needs 4097 acceptances, the present one included, within 120 s |
| Authentication.NoReplay | server/auth_v101.go:34-90 | a server with at most 4096 acceptances in each 120 s never accepts a request twice |
| Authentication.NonceKeyInjective | server/auth_v101.go:67 | the cache key determines node and nonce, for ids without a colon |
| Authentication.ReplayIsReal | server/auth_v101.go:76-78 | a request is refused as a replay only if one with the same cache key, so of the same node and nonce for colon-free ids, was accepted in the last 120 s |
| Authentication.SlowRepeatAccepted | server/auth_v101.go:34-68 | with separate clock readings a repeat can be accepted: a concrete run of two |
| Rotation.RequestsAcrossRotation | server/auth_v101.go:60-66 | from registration to request: after a rotation a request under the replaced secret passes iff timely, unseen and within 300 s of it; one under the new secret iff timely and unseen |
| Rotation.RequestsUnderIssuedSecret | server/auth_v101.go:60-66 | for any secret ever handed out and any rotations since: a request under it passes iff timely, unseen, and the secret not rotated or once within 300 s |
| CommandRpc.StepKeepsInv | server/main.go:1062-1094 | every step of the protocol keeps its invariant: bounded queues, pending entries for exactly the open calls, first results labelled with their call |
| CommandRpc.RunKeepsInv | server/main.go:1274-1329 | over all interleavings |
| CommandRpc.QueuedInOrderPerformedOnce | server/main.go:1083-1087 | per node: the queue never exceeds 16, ids are dequeued in the order they were enqueued, and the agent performs a subsequence of them, each at most once |
| CommandRpc.AnswerIsOwn | server/main.go:1317-1327 | a returned answer carries the call's own id, was posted by the node that was asked, and is the first to reach its channel; a returned call is no longer pending |
| CommandRpc.NoCrossTalk | server/main.go:1300-1329 | whatever other calls, agents and late or duplicate results do, and whatever other nodes post under this call's own id, a call sees none of it |
| CommandRpc.OutcomeIsFinal | server/main.go:1088-1093 | late results never change a returned call |
| CommandRpc.GuardedCommands | agent/main.go:491-500 | a command is performed iff it has the right protocol and is at most 120 s old; otherwise its result is a failure |
| CommandRpc.PerformHandled | agent/main.go:458-459 | the result about to be posted names a delivered command, and a success one that was performed |
| CommandRpc.SuccessMeansPerformedOnce | agent/main.go:431-476 | when agents post only their own results, a successful answer means the asked node performed that command exactly once |
| CommandRpc.PostReachesCall | server/main.go:1317-1327 | a result posted by the asked node for an unfinished call with an empty channel finds that channel, and delivering it fills it |
| CommandRpc.FirstDeliveredStays | server/main.go:1320-1327 | whatever else happens, the first delivered result stays in the channel until the call receives it |
| CommandRpc.ReceivedIsAnswer | server/main.go:1088-1090 | receiving takes that result, and it is the answer the call returns |
| CommandRpc.ExpiredHasNoAnswer | server/main.go:1091-1092 | a call that times out returns without one |
| CommandRpc.EnqueueExactly | server/main.go:1083-1087 | a command joins the end of the queue iff fewer than 16 wait; else the call fails as busy |
| CommandRpc.TakeIsOldest | server/main.go:1291-1293 | a poll gets the oldest waiting command unchanged |
| CommandRpc.UndisturbedCallIsAnswered | server/main.go:1062-1094 | a call to an idle agent, performed within 120 s, is answered with what the agent computed, after one more performance |
| RateLimiter.Window.FilterInPlace | server/final.go:250-255 | filtering the slice into its own backing array keeps exactly the live timestamps, in order |
| RateLimiter.Window.Append | server/final.go:260 | appending reuses the array while there is room and grows it otherwise, with the same contents |
| RateLimiter.Window.Allow | server/final.go:250-262 | one decision and the window it leaves, denied or allowed |
| RateLimiter.Limiter.Allow | server/final.go:246-263 | the decision for one address, leaving every other address's window alone |
| RateLimiter.WindowIsHistory | server/final.go:250-261 | over every run the kept window and the whole history have the same live timestamps |
| RateLimiter.DecisionByFullHistory | server/final.go:256-259 | each decision is the one a full-history counter makes |
| RateLimiter.DecisionByCounting | server/final.go:250-262 | a request passes iff fewer than 20 of its address were let through in the last 60 seconds |
| RateLimiter.AtMostTwentyAMinute | server/final.go:252-258 | every 60-second window holds at most 20 accepted registrations of an address |
| RateLimiter.LimitIsReached | server/final.go:256-262 | twenty timestamps of one second block the next request and are all forgotten 60 s later |
| LogFanout.NeverPanics | server/logwriter.go:232-245 | over every run no line is sent to a closed channel and none is closed twice; a channel is open exactly while subscribed |
| LogFanout.SubscriptionStartsAndEnds | server/logwriter.go:232-244 | subscribing opens an empty channel, cancelling closes it and keeps what is buffered |
| LogFanout.PublishReaches | server/logwriter.go:58-63 | a line reaches a subscriber iff fewer than 64 are buffered, and no other channel changes |
| LogFanout.CancelIsFinal | server/logwriter.go:237-244 | nothing written after a cancel is for that subscriber |
| LogFanout.CancelTwice | server/logwriter.go:237-244 | cancelling again changes nothing |
| LogFanout.SubscriberSeesInOrder | server/logwriter.go:54-65 | what a subscriber received and has buffered is an in-order subsequence of what was written while it was subscribed, and all of it iff no write found its 64 slots full |
| LogFiles.SizeWithout | server/logwriter.go:104-112 | subtracting a deleted file's size keeps the total right |
| LogWriter.SortByTime | server/logwriter.go:106 | the same entries, by modification time |
| LogWriter.Writer.constructor | server/logwriter.go:24-45 | continues an existing active file or starts an empty one |
| LogWriter.Writer.Open | server/logwriter.go:34-45 | creates the active file if it is missing, and takes over its size and the day |
| LogWriter.Writer.Scan | server/logwriter.go:80-105 | deletes exactly the expired history and lists everything else with its exact total |
| LogWriter.Writer.Trim | server/logwriter.go:107-113 | deletes oldest first, stops as soon as the total fits, and never touches the active file |
| LogWriter.Writer.Cleanup | server/logwriter.go:132-169 | retention and capacity together: history fits or is gone, nothing kept is older than something deleted, and the last deletion was necessary |
| LogWriter.Writer.Rotate | server/logwriter.go:67-79 | the active file moves to its day-and-second name, a fresh one is opened, and cleanup runs |
| LogWriter.Writer.Write | server/logwriter.go:46-66 | rotates on a new day or at 10 MiB, appends the text, and offers it to every subscriber |
| LogWriter.Writer.Publish | server/logwriter.go:58-63 | every subscriber with room gets the line, the others miss it, and no send blocks |
| LogWriter.Writer.Configure | server/logwriter.go:125-131 | new limits take effect at once, counting the active file |
| LogWriter.Writer.Clear | server/logwriter.go:194-230 | afterwards the directory is one empty active file |
| LogWriter.Writer.Subscribe | server/logwriter.go:232-236 | a fresh open channel among the subscribers |
| LogWriter.Writer.Cancel | server/logwriter.go:237-244 | unsubscribes and closes once; a second call does nothing |
| LogEffects.WriteAppends | server/logwriter.go:46-66 | a write on the same day to a file below 10 MiB is appended, and nothing else changes |
| LogEffects.WriteRotates | server/logwriter.go:49-114 | any other write moves the file to its day-and-second name, removes exactly the history older than the retention in nanoseconds, removes younger files only for room and oldest first, and starts a new file |
| LogEffects.ConfigureApplies | server/logwriter.go:125-169 | the same with the new limits, the active file counting and staying |
| LogEffects.ClearEmpties | server/logwriter.go:194-230 | clearing leaves one empty file |
| LogRuns.DirectoryIsSuffix | server/logwriter.go:46-114 | over every run, oldest to newest file and the active one are a suffix of the starting text and all writes since the last clear |
| LogRuns.OldestArePrefix | server/logwriter.go:106-113 | a cleanup cuts a prefix off the age order |
| LogRuns.OrderUnique | server/logwriter.go:106 | the age order is determined by the directory |
| LogReuse.RenameLosesReusedName | server/logwriter.go:71-72 | a rotation keeps every byte unless its target name is taken; then exactly that file's size goes |
| LogReuse.RenameCutsReusedName | server/logwriter.go:71-74 | contents: the text of the file that had the name is cut out, everything older and newer stays in order |
| LogReuse.ReusedNameKeepsSuffixExactly | server/logwriter.go:71-74 | after that the directory is a suffix of what was written iff the older text ends what was written up to the cut; so always if nothing older or nothing in the file was left |
| LogReuse.ReusedNameBreaksSuffix | server/logwriter.go:49-72 | a run of four writes with two rotations in one second whose directory is no suffix of what was written |
| LogRuns.StepKeepsBounds | server/logwriter.go:49-55 | history within the configured total and the active file within one write of its limit stay so |
| LogRuns.DiskUseBounded | server/logwriter.go:46-169 | from the first rotation, clear or configuration change (of an active file within its limit and one write) on, disk use is at most the cap, 10 MiB less one byte, and the largest write |
| PasswordKey.PasswordKey | server/main.go:1503-1519 | the loop computes F of RFC 8018 section 5.2, U1 xor ... xor Uc, for every count, a count below one acting as one |
| PasswordKey.XorInto | server/main.go:1514-1516 | the inner loop xors the block in place |
| PasswordKey.NextIteration | server/main.go:1510-1517 | one more round of the loop is one more iteration of the standard |
| PasswordKey.FirstIterations | server/main.go:1504-1516 | one iteration is PRF(password, salt and 00000001); two are its xor with PRF(password, that) |
| ShellScript.QuotedLexes | agent/helper.go:45-47 | the shell reads a quoted argument as one word with exactly its text, and rejects it iff it has a NUL |
| ShellScript.RenderedLexes | server/main.go:1622 | any well-formed line of bare words, quoted arguments and punctuation lexes to its meaning iff it is free of NULs |
| ShellScript.BuildScript | agent/helper.go:873-888 | the string builder produces the script's text |
| ShellScript.ScriptRenders | agent/helper.go:873-888 | the script's text, character by character |
| ShellScript.ScriptRoundTrip | agent/helper.go:873-888 | the recovery script lexes to the optional guarded cd, exec, the executable and the arguments, for all of them iff no NUL occurs |
| Redaction.IndexOf | agent/helper.go:342 | the first position of the character, or -1 iff there is none |
| Redaction.HasSensitiveRestartArgs | agent/helper.go:340-358 | true iff some argument is sensitive |
| Redaction.SanitizeArgs | agent/helper.go:360-387 | one item per argument, the masked ones determined by what precedes them, joined by blanks |
| RedactionEffects.SensitiveArgExactly | agent/helper.go:331-339 | a flag or key is sensitive iff, dashes and case aside, it holds one of the ten words anywhere, first and last place included |
| RedactionEffects.SensitiveInlineExactly | agent/helper.go:389-397 | an argument is a credential by itself iff, case aside, it holds one of the twelve texts |
| RedactionEffects.AssignmentExactly | agent/helper.go:342-344 | an argument is a sensitive assignment iff what precedes its first = holds a sensitive word |
| RedactionEffects.GuardExactly | agent/helper.go:340-358 | the restart guard fires exactly for those, for flags with a sensitive word, and for URLs with user info |
| RedactionEffects.FlagIsGuarded | agent/helper.go:348-350 | every flag with a sensitive word makes it fire |
| RedactionEffects.FlagHidesNext | agent/helper.go:380-384 | the item after such a flag is ******, unless the flag itself was masked, has a value of its own, is a credential or a URL with user info |
| RedactionEffects.AssignmentHidesValue | agent/helper.go:372-375 | a sensitive key is displayed with =****** for its value |
| RedactionEffects.InlineTextHidden | agent/helper.go:376-379 | a credential by itself is displayed as ****** |
| RedactionEffects.PasswordFlag | agent/helper.go:367-384 | --password and any value are displayed as --password ****** |
| Redaction.UnguardedArgsShownVerbatim | agent/helper.go:340-387 | arguments that pass the restart guard are displayed exactly as they are |
| Redaction.GuardMatchesDisplay | agent/helper.go:340-387 | the guard fires iff display hides something or would mask a next argument |
| Redaction.FlagValueMasked | agent/helper.go:382-384 | the argument after an emitted sensitive flag is masked, and that mask never masks another |
| Redaction.SecretsDoNotShow | agent/helper.go:360-387 | changing only what redaction hides changes nothing in the displayed line |
| Recovery.Supervisor.SaveStopped | agent/helper.go:753-768 | newest first, at most 100 records, unreadable stores overwritten |
| Recovery.Supervisor.RemoveStopped | agent/helper.go:769-781 | removes exactly the records with the id, in order; an unreadable store is left alone |
| Recovery.Supervisor.StopProcess | agent/helper.go:579-622 | every branch: refusal, record saved before the signal, record taken back when the process survives |
| Recovery.Supervisor.RestartProcess | agent/helper.go:623-658 | every branch, with the record kept when the new start fails |
| Recovery.Supervisor.StopService | agent/helper.go:155-189 | every branch of the service_stop request |
| Recovery.Supervisor.StartSaved | agent/helper.go:794-825 | every branch; the record goes only after a successful start |
| Recovery.StartSavedExactly | agent/helper.go:794-825 | it succeeds iff the id is usable, the store readable, the record there and startable and its start works; then exactly that record goes, the others keeping their order; else nothing changes |
| Recovery.CapturedOk | agent/helper.go:697-732 | a captured record is a service without arguments or a command the snapshot guards accept |
| Recovery.CapturedContents | agent/helper.go:697-732 | a service is recorded by name alone, anything else by the executable and arguments it ran with |
| Recovery.ProtectedNeverSignalled | agent/helper.go:497-515 | a process that is init, protected by name or of a protected service is never signalled, and stopping or restarting it is refused |
| Recovery.SignalsOnlyTarget | agent/helper.go:599-604 | a request signals at most once, and only the process it names |
| Recovery.InitNeverSignalled | agent/helper.go:497-500 | over runs no pid of 1 or less is signalled |
| Recovery.RestartSignalsOnlyPlainCommands | agent/helper.go:279-290 | a restart signals only a process outside services, containers and cron, with arguments free of secrets |
| Recovery.PlainCommandHandled | agent/helper.go:579-658 | such a process is stopped and becomes the newest record, or is restarted and leaves none, whenever the calls succeed |
| Recovery.ServiceStopped | agent/helper.go:164-185 | a service that may be handled is stopped through its manager, without a signal, and becomes the newest record |
| Recovery.SaveThenRemove | agent/helper.go:753-781 | saving and taking back restores the store, less a record the cap dropped |
| Recovery.StepKeepsStore | agent/helper.go:142-189 | every request keeps: at most 100 records, distinct ids, each record startable or a service |
| Recovery.RunKeepsStore | agent/helper.go:142-189 | the same over all runs, and every signal to a recoverable process was sent with its record stored |
| Recovery.EmptyStoreOk | agent/helper.go:739-743 | a helper without a store file starts in order |
| Recovery.StoredCommandsStart | agent/helper.go:837-846 | the snapshot guards never fire for a stored record: starting one fails only if launching does |
| Recovery.CapturedCommandsStart | agent/helper.go:651-655 | the same for a restart, whose record is then still in the store |
| Recovery.FailureLeaves | agent/helper.go:590-617 | the records a failed request leaves: unchanged if it wrote none, else the old ones less one the cap dropped, behind its own if that could not be removed |
| Recovery.FailureRestoresStore | agent/helper.go:590-617 | a failed request puts the store back, less a record the cap dropped, iff it wrote no record, or the store was readable and the record removable |
| Recovery.UnreadableStoreIsLost | agent/helper.go:753-781 | a store that cannot be read ends up empty after a failed request that saved its record and removed it |
| Recovery.FailedStopLosesUnreadableStore | agent/helper.go:599-603 | a concrete stop whose failing signal loses the unreadable store |
| Recovery.StopLeavesRecord | agent/helper.go:590-621 | a successful stop of a recoverable process leaves its record newest in the store |
| Update.Disk.WritePending | agent/release.go:181-191 | the pending file appears whole or not at all, and no binary moves |
| Update.Disk.RecordOrUndo | agent/release.go:93-98 | recorded, or both renames undone; the old binary survives every intermediate step |
| Update.Disk.Install | agent/release.go:83-102 | the install sequence with its undo steps; at every intermediate step the starting binary is at current or previous |
| Update.Disk.Rollback | agent/release.go:192-215 | the rollback of a pending update |
| Update.Disk.CommitUpdate | agent/release.go:216-232 | the commit of a pending update |
| Update.CommitExactly | agent/release.go:216-232 | a commit fails iff the record is unreadable; it removes the record and the backup and nothing else |
| Update.InstallOutcome | agent/release.go:83-102 | success: new binary current, old kept, recorded; failure with successful undo: old binary current and no new record |
| Update.InstallSucceedsExactly | agent/release.go:83-98 | an installation succeeds iff the running binary and the download are there and each step works |
| Update.FirstDecisionWins | agent/release.go:192-248 | the first of commit, rollback and watchdog settles the update, later ones change nothing |
| Update.NothingPendingNothingHappens | agent/release.go:216-243 | without a pending record none of them does anything |
| Update.InstallThenDecide | agent/release.go:83-248 | after an installation and any decisions the running binary is the new or the old one, never lost |
| Update.RollbackNeedsBackup | agent/release.go:204-211 | a rollback leaves a binary in place iff the backup is there |
| Update.FailedUpgradeSafeExactly | agent/release.go:83-98 | however an upgrade fails, undo steps excepted, a watchdog then leaves a binary in place, iff nothing was pending before the attempt |
| Update.FailedSecondUpgradeThenWatchdog | agent/release.go:83-98 | a failed upgrade on top of a pending one: the first watchdog leaves a binary iff the attempt left the backup alone |
| Update.RunKeepsBooks | agent/release.go:83-248 | over any interleaving of upgrades, commits, rollbacks and watchdogs, undo steps and upgrades on top of undecided ones succeeding, the running binary is the newest version installed and not taken back, and never missing |
| Update.WatchdogAsMeantExactly | agent/release.go:233-244 | a watchdog does what it is there for iff no other upgrade is undecided when it wakes up |
| Update.StaleWatchdogTakesBackNextUpgrade | agent/release.go:233-244 | a run in which the watchdog of a committed upgrade takes back the next one |

## Left out

- CommandRpc.StepKeepsInv: the protocol is a state machine on values, not objects with channels, because its steps interleave inside the handlers; a node's runtime is never replaced during a run, so calls that straddle a node's deletion and re-creation are not covered; the offline check and the timeouts' lengths are not modelled, an expiry may happen at any time.
- Server.App.Heartbeat: a key comparison stands for the signature check, which Authentication models; the protocol check, the latest sample and the host information of a heartbeat are not modelled.
- Server.App.Register: the agent version and system information are not stored; the rate limit in front of it is RateLimiter; the receipt and rotation times are taken from the one clock reading.
- Server.App.Create: the public-URL check and the install command are not modelled; group names are stored as given. The same holds for Reenroll and SetCommon.
- Server.App.Maintain: nodes and runtimes are values held in maps, so the aliasing of node pointers between handlers is not captured; the runtime status file, the dirty flag and certificate renewal are not modelled.
- Server.App.Login: the password check, failed-attempt counting and banning are not modelled; the session part is.
- LogWriter.Writer.Cleanup: directories and unreadable entries in the log directory are not modelled; sort.Slice may order equal times differently, which the contract allows.
- LogWriter.Writer.Write: failing file operations are not modelled.
- LogWriter.Writer.Clear: the error paths that put the active file back are not modelled.
- LogWriter.Writer.Subscribe: channels live in a map of values named by number; blocking readers are Receive events of LogFanout.
- Authentication.NonceGate.Authenticate: a body that cannot be read and the legacy bearer authorization are only outcomes; concurrent checks are ordered by their time at the cache.
- Redaction.SanitizeArgs: lower-casing covers ASCII letters only.
- Recovery.Supervisor.StopProcess: process classification is an input; wait times, unit files, user ids and working directories of records are not modelled.
- Update.Disk.Rollback: permission changes, the download with its signature and self-check, and the service restart are not modelled; failures inside commit and rollback are not modelled.
- ShellScript.RenderedLexes: the lexer covers quoting, escapes, comments, words and the operators the programs write; anything that would start an expansion, a redirection or a pattern is rejected rather than interpreted.
- HTTP routing, JSON, cookies, the web interface, TLS and ACME certificates, settings and node editing, the audit log, reading the log's tail, process and system sampling, and the installer scripts: they add no state machine of their own.
