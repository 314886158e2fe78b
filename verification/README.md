# zGrove: a verified model

zGrove is a mining proxy that decides who is paid what. Miners connect to it, prove who they
are, and mine through one upstream pool account; the proxy keeps the books, splits what the
pool earned, sends it once, and commits to what it sent. This project models the parts of it
that carry state or arithmetic and proves what they are for.

| part | modules |
|---|---|
| relaying one miner | `Session`, `SessionProperties`, `SessionFate`, `Connections`, `Stratum` |
| the rig's own record of the same traffic | `Tap`, `TapProperties`, `TapAgreement` |
| cutting a stream into lines | `Framing` |
| proving who a rig is | `Challenges`, `SessionTokens`, `Registry`, `Login`, `ControlPlane`, `ControlPlaneStores`, `ControlPlaneKeys`, `ControlPlaneProperties`, `HonestRigs`, `SignedEncoding`, `Base58` |
| weighing work | `Rollup`, `WorkerRows` |
| splitting a round and carrying balances | `Apportionment`, `Ledger`, `LedgerProperties`, `StalePlans`, `PaidWork`, `PaidHistories` |
| paying a round at most once | `Dispatch`, `DispatchProcess`, `DispatchProperties`, `Disbursement`, `Money` |
| committing to what was paid | `EntryOrder`, `Receipt`, `ReceiptProperties` |
| reading a transaction back from the network | `Lightwalletd` |
| shared | `Wrappers`, `OrderedMap`, `Shares`, `Expiring`, `Text`, `Hex`, `Decimal` |

Code that updates state in place is a class or a method with loops; each is proved equal to a
step function (`After…`, `Split`, `Plan`, `Decode` and the like), and the properties are lemmas
about those functions over whole runs. Time, random values, signatures, the hash function and
the answers of other processes are parameters or events, so every statement is for all of them.

What the environment is asked for, and where:

- the agreement of tap and books: a miner that uses a fresh id for each request, an upstream that
  answers only what it was sent;
- one submit's fate before its session ends: a clock that does not go back;
- the control plane: nonces that do not repeat (for the sweeps, also tokens that do not repeat and a
  clock that does not go back; for the log-in of an honest rig, a nonce and a token not seen before);
- `SentIsFinal`, `FailedIsFinal`: a wallet whose final statuses for one operation agree (`UndoneIff` asks
  nothing of it);
- the receipt: nothing of the hash. Where two inputs could be confused the statement names a
  collision among those actually hashed, or (`SameRootIffSameEntries`) supposes there is none. A
  hash injective on all inputs does not exist, so none is supposed.

What the code does that its comments do not say, kept as it is and stated exactly:

- the hook comment of `session.ts` says every submit is reported once however it ended. A submit
  still pending when the session ends is reported only if upstream answers it afterwards, which the
  rest of a chunk already read can do. `EndedFateIsTheAnswer` says what becomes of each,
  `AllReportedIffAllAnswered` when the promise is kept, `SomeSubmitIsNeverReported` and
  `LateAnswerIsReported` are a run of either kind.
- a plan made before another round was recorded can pay one carried balance twice; the account then
  owes it back. `CarryIsLastOutIffFresh` is the condition over any history,
  `TwoPlansPayOneBalanceTwice` the case, `FiveInTenOut` a history.
- a comment in `payouts.ts` has consecutive rounds neither overlap nor skip, and `ConsecutiveCoversOnce`
  agrees. Nothing makes rounds consecutive, and a share is stamped when submitted but counted when
  settled. `EachSecondOnceIffApart` says when no window overlaps another, `OnceIffInTime` which shares
  are then weighed once, `PaidForAllIffNoneLost` when an account is put down for all it mined;
  `OverlapWeighsTwice`, `LateShareIsNeverWeighed` and `ClashIsPaidToTheOther` are the ways it fails.
- a comment in `dispatch.ts` says a round whose request failed can be looked at again. A failed round is
  never sent, settled or carried: `FailedIsFinal`, and `AllSentIffNoneFailed` for what that leaves an
  account short of. `AnyRoundCanFail` is a run.
- comments in `session.ts` and `index.ts` give each socket a single worker and have no upstream socket
  outlive its miner. A chunk that goes on after the line that ended its session is given a second one,
  which no end of the socket reaches: `SecondSessionIff`, `OneWorkerUnlessLeft`,
  `OnlyItsUpstreamEndsTheSecond`, and `TwoWorkersOneSocket`.
- a session takes a second login for its own, and the proxy counts shares under one row, whenever
  the logins are spelled alike; account names may have dots, so rigs of two accounts can be.
  `SameLoginIff` and `AccountsClashIff` say when, `TwoRigsOneLogin` gives two,
  `OwnRowsIffNoneAbsorbs` is the condition on the accounts for every share to be counted as its own.
- the same entries give the same root in whatever order they come only if no two of their ids
  compare as equal, which different ids can under a locale. `OneSortIffNoTies` is the condition,
  `TieShowsInRoot` what happens without it.
- an amount below zero is written in a form the reader refuses, and one above 2^53 - 1 is refused
  too: `FormatIsReadBack` holds if and only if the amount is between the two.

## Model

| member | source | states |
|---|---|---|
| Session.Session.HandleMinerMessage | apps/orchestrator/src/session.ts:356-373 | a message from the miner takes the whole session to exactly the specified next state: nothing once ended, authorize and submit to their handlers, all else forwarded |
| Session.Session.HandleAuthorize | apps/orchestrator/src/session.ts:239-282 | refused logins are answered with code 24; a login spelled otherwise than the first ends the session; the first is told to the identity hook; the pool's login and password replace the miner's and the rest is forwarded |
| Session.Session.HandleSubmit | apps/orchestrator/src/session.ts:284-341 | sweep, ceiling, duplicate id, hold, forward, in that order, each refusal leaving what it should |
| Session.Session.Forward | apps/orchestrator/src/session.ts:221-237 | sent when upstream is ready, held when not, and the session ended when the queue is full |
| Session.Session.OnUpstreamMessage | apps/orchestrator/src/session.ts:163-188 | a reconnect ends the session unrelayed; otherwise difficulty is observed, an answer settles its submit, and the message is relayed, ended or not |
| Session.Session.OnUpstreamReady | apps/orchestrator/src/session.ts:155-161 | everything held is sent, in order, once |
| Session.Session.ExpirePending | apps/orchestrator/src/session.ts:110-125 | the walk from the front stops at the first submit in time; those passed are credited as unresolved, in order |
| Session.Session.ResolveSubmit | apps/orchestrator/src/session.ts:127-147 | the submit under the id, if any, is removed and credited once; the others stay |
| Session.Session.ObserveDifficulty | apps/orchestrator/src/session.ts:206-219 | only a set_difficulty with a finite positive number changes the difficulty and is told to the hook |
| SessionProperties.RunIsWellFormed | apps/orchestrator/src/session.ts:221-323 | in every reachable state the queue and the pending submits are within their ceilings and no id is pending twice |
| SessionProperties.SharesAreConserved | apps/orchestrator/src/session.ts:110-147 | over every run, each admitted submit is credited with one outcome or still held, and nothing else is ever credited |
| SessionFate.EverySubmitMeetsItsFate | apps/orchestrator/src/session.ts:60-147 | a submit held at any point of any run is still held, uncredited, exactly until the first event that settles it: an answer to its id, or a submit made after it waited too long; that event credits it once, with that outcome |
| SessionFate.EndedFateIsTheAnswer | apps/orchestrator/src/session.ts:163-188 | after the end of a session a pending submit stays pending if and only if upstream has not answered its id; the first answer credits it once with its verdict |
| SessionFate.AllReportedIffNonePending | apps/orchestrator/src/session.ts:60 | in any run every submit taken in has been reported exactly once if and only if none is pending |
| SessionFate.AllReportedIffAllAnswered | apps/orchestrator/src/session.ts:343-350 | what follows the end of a session keeps the promise to report each submit once if and only if upstream still answers every submit pending at the end |
| SessionFate.SomeSubmitIsNeverReported | apps/orchestrator/src/session.ts:343-350 | authorize, submit, hang up: whatever follows, short of an answer to it, that one submit is taken in and never reported |
| SessionFate.LateAnswerIsReported | apps/orchestrator/src/line-socket.ts:38-52 | an answer read after the end of that session still has the submit reported, as accepted |
| SessionProperties.EveryCreditIsEarned | apps/orchestrator/src/session.ts:303-334 | every credited share was made by a submit of the run, for the one worker the session ever had, at the difficulty upstream had last set before it |
| SessionProperties.IdentityNeverChanges | apps/orchestrator/src/session.ts:258-270 | once a session is one worker's it stays that worker's; for the socket see `Connections` |
| SessionProperties.DifficultyIsTheLastOneSet | apps/orchestrator/src/session.ts:206-219 | the difficulty in force is the last usable one upstream set, or 1 |
| SessionProperties.CreditedWorkHasWeight | apps/orchestrator/src/session.ts:206-219 | no share is ever credited at a difficulty that is not positive |
| SessionProperties.HooksHearIt | apps/orchestrator/src/session.ts:206-270 | the identity hook is told of the one worker the session ever has, once; the difficulty hook of every usable difficulty upstream set, in order |
| SessionProperties.VerdictsComeFromUpstream | apps/orchestrator/src/session.ts:127-137 | accepted and rejected credits never outnumber upstream's answers of that kind |
| SessionProperties.UpstreamSeesArrivalOrder | apps/orchestrator/src/session.ts:155-237 | sent plus held is exactly the forwarded messages in arrival order: waiting for the handshake loses, repeats and reorders nothing |
| SessionProperties.MinerIsNeverSentElsewhere | apps/orchestrator/src/session.ts:163-177 | over every run no reconnect request reaches the miner, and once upstream sent one the session is over |
| SessionProperties.SweepIsExact | apps/orchestrator/src/session.ts:99-125 | with a clock that does not go back, stopping early gives up on exactly the submits out of time |
| SessionProperties.PoolCannotSeeTheContributor | apps/orchestrator/src/session.ts:239-341 | two runs that differ only in logins, passwords and who they resolve to send upstream the same messages, hold the same, and end alike |
| Connections.Connection.OnData | apps/orchestrator/src/line-socket.ts:38-53 | the loop hands every line of the chunk that decodes to the session held, or to a new one, also after the socket was closed |
| Connections.Connection.OnMessage | apps/orchestrator/src/index.ts:67-124 | a message goes to the session held for the connection, made if there is none; if it ends the session the socket is finished |
| Connections.Connection.Finish | apps/orchestrator/src/server.ts:62-82 | the first end of a socket drops and ends the session held; any later one does nothing |
| Connections.SecondSessionIff | apps/orchestrator/src/index.ts:67-141 | over any life of a socket it is given a second session, and never a third, if and only if some chunk goes on with a line that decodes after the line that ended the first |
| Connections.EverySessionIsARun | apps/orchestrator/src/index.ts:67-105 | each session of a socket is a run of a session, so all that is proved of those holds of it |
| Connections.OneWorkerUnlessLeft | apps/orchestrator/src/session.ts:254-270 | short of such a chunk, everything credited over one socket is one worker's |
| Connections.OnlyItsUpstreamEndsTheSecond | apps/orchestrator/src/index.ts:135-141 | a second session is touched by nothing but its own upstream, whatever happens to the socket |
| Connections.TwoWorkersOneSocket | apps/orchestrator/src/line-socket.ts:38-53 | five lines in one chunk and two answers have two workers credited over one socket, the second in a session that outlives it |
| Tap.Watcher.FromMiner | apps/worker/src/relay.ts:118-140 | subscribes are remembered, a submit is put under its id with the extranonce, difficulty and target in force, its login dropped |
| Tap.Watcher.FromProxy | apps/worker/src/relay.ts:143-204 | an answer closes a subscribe or settles a submit; a job, difficulty, target or extranonce is noted; nothing else |
| Tap.Watcher.WriteJob | apps/worker/src/relay.ts:89-99 | a held job not yet written is written once, and the oldest mark is forgotten past the ceiling |
| Tap.Watcher.Resolve | apps/worker/src/relay.ts:101-115 | the job is written before the share it names |
| Tap.Watcher.Drain | apps/worker/src/relay.ts:207-210 | what is still pending is recorded as unanswered, oldest first, and forgotten |
| Tap.RunIsTidy | apps/worker/src/relay.ts:79-99 | over every run the held jobs and marks stay within their ceilings and a job marked written is in the ledger |
| Tap.ResolveIsTidy | apps/worker/src/relay.ts:89-115 | a share whose job is held has that job before it in the ledger |
| TapProperties.TapForgetsTheLogin | apps/worker/src/relay.ts:118-140 | two runs that differ only in what rigs log in as leave the tap holding and writing exactly the same: the login is nowhere in the ledger |
| TapProperties.EveryShareIsAsSubmitted | apps/worker/src/relay.ts:101-210 | every share in the ledger is a submit of the run with the job, parameters, extranonce, difficulty and target of that moment, and was ended later by an accepting answer to its id, a refusing one or the close, as it says |
| TapAgreement.LedgerAgreesWithBooks | apps/worker/src/relay.ts:118-173 | for every interleaving of miner, tap, session and upstream: at most one record a side; accepted in the ledger means accepted or already given up in the books; an answer the tap saw is called the same by both |
| TapAgreement.StepKeeps | apps/orchestrator/src/session.ts:110-188 | the invariant tying one id's books, ledger and traffic together survives every step of either side |
| Framing.LineReader.OnData | apps/orchestrator/src/line-socket.ts:28-63 | a chunk takes the reader to the specified state: complete lines delivered, the remainder kept, or overflow |
| Framing.LinesAreTheText | apps/orchestrator/src/line-socket.ts:28-63 | the lines and the tail, newlines put back, are the text |
| Framing.ChunkingDoesNotMatter | apps/worker/src/relay.ts:54-77 | until overflow exactly the stream's lines are delivered however it was cut; overflow happens exactly when some boundary leaves too long a remainder; what was delivered is always a prefix of the lines and what is kept has no newline and fits |
| Framing.FittingStreamIsDelivered | apps/orchestrator/src/line-socket.ts:28-63 | if every line and the tail fit, no chunking overflows and all lines are delivered |
| Challenges.ChallengeStore.Issue | apps/orchestrator/src/control/challenges.ts:37-65 | sweep, make room by dropping the oldest, add the nonce for the key that asked |
| Challenges.ChallengeStore.Consume | apps/orchestrator/src/control/challenges.ts:67-81 | a nonce is gone once tried, and good only in time and for the key it was issued to |
| SessionTokens.SessionStore.Issue | apps/orchestrator/src/control/sessions.ts:37-67 | sweep, make room, add the token |
| SessionTokens.SessionStore.Resolve | apps/orchestrator/src/control/sessions.ts:69-91 | a live token moves to the end with a new lifetime, a dead one is forgotten |
| Expiring.SweepIsFilter | apps/orchestrator/src/control/challenges.ts:34-44 | in a store ordered by age the early stop removes exactly the expired entries |
| Expiring.IssueShape | apps/orchestrator/src/control/sessions.ts:47-67 | issuing drops some of the oldest, keeps the ceiling, changes no other entry and repeats no key |
| Registry.Registry.RegisterWorkerKey | packages/db/src/registry.ts:121-163 | a bound key is returned or refused, never moved; a new one needs an account; the worker row is written first |
| Registry.Registry.HasEnrolledKeys | packages/db/src/registry.ts:189-191 | true exactly when some key is bound to the account |
| Registry.RegisterNeverMovesAKey | packages/db/src/registry.ts:121-137 | no registration changes or loses a binding |
| Registry.RegisterSucceedsIff | packages/db/src/registry.ts:121-163 | a registration succeeds if and only if afterwards the key is bound to the account it named |
| Login.CanonicalIsStable | packages/protocol/src/identity.ts:53-93 | parsing an accepted login's canonical spelling gives the same identity |
| Login.CanonicalIsUnique | packages/protocol/src/identity.ts:69-91 | for users without a dot, as every plain login's is, two canonical logins are equal exactly when user and worker are |
| Login.SameLoginIff | apps/orchestrator/src/login.ts:38-46 | for any names two canonical logins are equal exactly when user and worker are, or one user and a dot start the other user and the rest is the worker |
| Login.AccountsClashIff | apps/orchestrator/src/cli/enroll.ts:32 | some rigs of two accounts have one login if and only if one account's name and a dot start the other's |
| Login.TwoRigsOneLogin | packages/protocol/src/attestation.ts:35 | rig c of account a.b and rig b.c of account a have one login |
| Login.ResolvedIsSpelled | apps/orchestrator/src/login.ts:29-64 | whatever a login resolves to, by token or by name, carries the canonical spelling of its names |
| Login.EveryNameParses | packages/protocol/src/identity.ts:53-93 | every user name without a dot, alone or with any legal worker name, logs in as exactly itself |
| Login.ParsedShape | packages/protocol/src/identity.ts:58-91 | whatever is accepted is legal, within its lengths, and spelled canonically |
| ControlPlane.ControlServer.HandleChallenge | apps/orchestrator/src/control/server.ts:108-128 | a challenge is issued to any non-empty key |
| ControlPlane.ControlServer.HandleAttest | apps/orchestrator/src/control/server.ts:130-192 | nonce, age, signature, key, account, in that order; the nonce is spent whatever follows; only a full pass touches the key and issues a session |
| ControlPlane.ControlServer.HandleBindWallet | apps/orchestrator/src/control/server.ts:200-250 | the same for a wallet, which must be a 32-byte base58 key that signed the binding |
| ControlPlane.ControlServer.ResolveLogin | apps/orchestrator/src/login.ts:29-64 | a token resolves to what it stands for; a plain name only where allowed and only for accounts without keys |
| ControlPlaneProperties.TokenProvenance | apps/orchestrator/src/control/server.ts:130-192 | a token that resolves to an account was granted by one attestation of the run, signed over exactly its fields under a key bound then and now to that account, in time, spending an unexpired nonce issued earlier to that key and used for nothing else |
| HonestRigs.HonestRigLogsIn | apps/orchestrator/src/control/server.ts:108-192 | in any reachable state a bound key that answers its challenge in time with a good signature gets a token that logs it in as its account and rig for a whole lifetime, whatever else happens before and after the answer, as long as nobody tries its nonce, fewer challenges are issued than the store holds, and fewer sessions are granted, or used while good, than the store holds; attempts refused count for nothing |
| HonestRigs.UsedTokenLivesOn | apps/orchestrator/src/control/sessions.ts:69-91 | a token that logs in goes on doing so, as the same worker, for a lifetime from then, whatever else happens under the same proviso |
| ControlPlaneProperties.NonceIsUsedOnce | apps/orchestrator/src/control/challenges.ts:67-81 | over every run one nonce grants one session or binds one wallet, once |
| ControlPlaneProperties.TriedNonceIsGone | apps/orchestrator/src/control/server.ts:146-157 | a nonce tried while outstanding, successfully or not, is never outstanding again in the run |
| ControlPlaneKeys.KeyStays | packages/db/src/registry.ts:121-137 | a key keeps its account and worker in every later state |
| ControlPlaneKeys.WorkerIdsNameTheirRows | packages/db/src/registry.ts:139-163 | in every reachable state each key and each session carries the id of the very worker row of its account and rig |
| ControlPlaneProperties.EnrolledNameNeverResolves | apps/orchestrator/src/login.ts:48-64 | from the moment an account has a key no plain login resolves to it, whatever the configuration |
| ControlPlaneProperties.SilenceEndsASession | apps/orchestrator/src/control/sessions.ts:69-91 | a token that still resolves was granted or used less than a lifetime ago |
| ControlPlaneProperties.WalletProvenance | apps/orchestrator/src/control/server.ts:200-250 | a wallet on record was bound by an event of the run with a signature under that wallet's own key |
| ControlPlaneStores.StoresStayTidy | apps/orchestrator/src/control/challenges.ts:47-65 | over every run neither store outgrows its ceiling (at least one) nor holds a key twice |
| ControlPlaneStores.SweepsAreExact | apps/orchestrator/src/control/sessions.ts:35-91 | over every run both early-stop sweeps equal the full filter, though used tokens move |
| SignedEncoding.AttestationIsUnique | packages/protocol/src/attestation.ts:106-125 | one signed text is one attestation |
| SignedEncoding.BindingIsUnique | packages/protocol/src/solana-binding.ts:29-46 | one signed text is one binding |
| SignedEncoding.AttestationIsNotABinding | packages/protocol/src/solana-binding.ts:15-46 | no attestation is encoded as any binding is |
| SignedEncoding.EncodableIff | packages/protocol/src/attestation.ts:33-122 | an attestation of any time is encodable exactly when its nonce, account, key and the spelling of its time are safe fields |
| SignedEncoding.TimeIsSafeIff | packages/protocol/src/attestation.ts:33-122 | the spelling of a number is a safe field unless it is too long or has a plus sign |
| SignedEncoding.EncodableOfSecondsIff | packages/protocol/src/attestation.ts:33-122 | for whole seconds within 2^53 - 1 the three texts decide |
| SignedEncoding.JoinIsUnique | packages/protocol/src/attestation.ts:116-124 | lists of fields without newlines, of any lengths, are told apart by their joined text |
| Base58.DecodeBase58 | packages/protocol/src/base58.ts:8-43 | the nested loops compute the specified conversion, or name the first bad character |
| Base58.EncodeBase58 | packages/protocol/src/base58.ts:45-74 | the nested loops compute the specified conversion |
| Base58.MultiplyAndAdd | packages/protocol/src/base58.ts:22-31 | the two inner loops multiply and add in place, the carry always below the multiplier |
| Base58.CarryStaysSmall | packages/protocol/src/base58.ts:52-63 | carries stay at most 57 when decoding and 255 when encoding, sums below 256 * 58 |
| Base58.ConvertKeepsTheNumber | packages/protocol/src/base58.ts:13-42 | the result is the same number in the other base with the same count of leading zeroes |
| Base58.DecodeUndoesEncode | packages/protocol/src/base58.ts:8-74 | every non-empty byte string comes back |
| Base58.EncodeUndoesDecode | packages/protocol/src/base58.ts:8-74 | text decodes exactly when non-empty and all base58, and then comes back |
| Rollup.Accounting.TouchWorker | packages/db/src/accounting.ts:120-131 | the same user and worker always get the same row, and no two share one; the first time seen stays, the last is this one |
| Rollup.Accounting.RecordShare | packages/db/src/accounting.ts:133-148 | a share adds to one bucket row: one count, and its difficulty and its rounded worth only if accepted |
| Rollup.RowsAreDistinct | packages/db/src/accounting.ts:80-95 | over every share history there is one row for each worker, bucket and algorithm |
| Rollup.RowsStayAboveZero | packages/db/src/accounting.ts:133-148 | recorded shares of positive difficulty leave no row of negative weight |
| Rollup.RollupIsExact | packages/db/src/accounting.ts:80-117 | over every share history, for an aligned window the buckets give exactly the sums of the shares themselves |
| Rollup.WeightIsAcceptedDifficulty | packages/db/src/accounting.ts:133-148 | for an aligned window the weight read is the difficulty of the accepted shares in it and nothing else |
| Rollup.ExactOnlyIfAligned | packages/db/src/buckets.ts:9-11 | bucketing agrees with the seconds of a window if and only if both ends are boundaries |
| Rollup.WindowsPartition | packages/db/src/accounting.ts:99-117 | adjacent windows divide the weight between them |
| Rollup.SplittingRigsChangesNothing | packages/db/src/payouts.ts:78-96 | the same work under other rig names of an account weighs the same |
| WorkerRows.Hooks.WorkerIdFor | apps/orchestrator/src/index.ts:37-50 | the row id cached for the login, or the worker's own row, touched and then cached |
| WorkerRows.Hooks.OnShare | apps/orchestrator/src/index.ts:85-92 | the share is recorded under the row id of its login |
| WorkerRows.CountedUnderFirstUser | apps/orchestrator/src/index.ts:41-50 | over every run of the hooks, restarts and enrolments included, a share is counted under the row of whoever first used its login since the start, or of its own worker when nobody had |
| WorkerRows.OwnRowsIffNoneAbsorbs | apps/orchestrator/src/index.ts:37-92 | for any set of accounts, every share in every run is counted under its own account and worker if and only if no account's name and a dot start another's |
| WorkerRows.GuardComparesLogins | apps/orchestrator/src/session.ts:258-270 | a second login ends the session exactly when it is spelled differently; a worker of another account with the same spelling is forwarded as the first |
| WorkerRows.TablesWeighOwnWork | apps/orchestrator/src/index.ts:37-92 | with account names none of which starts another so, what the tables hold of an account in an aligned window is exactly its own accepted shares |
| WorkerRows.PlanWeighsOwnWork | packages/db/src/payouts.ts:135-142 | with such account names, each entry of a plan over what the sessions' credits left in the tables weighs exactly that account's own accepted shares in the window |
| Apportionment.SplitByWeight | packages/db/src/payouts.ts:251-277 | the floors and the loop that hands out what is left compute the specified split |
| Apportionment.HandOut | packages/db/src/payouts.ts:264-276 | one more each, in order, until the leftover or the order runs out |
| Apportionment.LeftoverIsSmall | packages/db/src/payouts.ts:260-262 | what flooring loses is less than one for each share that loses anything |
| Apportionment.SplitIsExact | packages/db/src/payouts.ts:251-277 | the parts add up to the total |
| Apportionment.PartIsFloorOrOneMore | packages/db/src/payouts.ts:251-277 | each part is its exact share rounded down or one more, one more only if something was rounded off; no weight, no part |
| Apportionment.LargerWeightIsNotLess | packages/db/src/payouts.ts:251-277 | a larger weight never gets a smaller part |
| Apportionment.LargestRemaindersFirst | packages/db/src/payouts.ts:265-276 | nobody is rounded up before somebody with a larger remainder, or the same one and an earlier place |
| Ledger.Payouts.PlanRound | packages/db/src/payouts.ts:123-203 | the plan computed is the specified one, refusals in the source's order |
| Ledger.Payouts.ChargeEach | packages/db/src/payouts.ts:167-192 | one entry per subject, the first unreadable fee refused, the fees added up |
| Ledger.Payouts.Record | packages/db/src/payouts.ts:205-237 | the round, its entries, its time and its average rate, or nothing when that exact window is recorded |
| LedgerProperties.PlanIsBalanced | packages/db/src/payouts.ts:123-203 | in every accepted plan gross shares add up to the total, and paid plus carried out is what could be distributed plus what was carried in, entry by entry and in sum |
| LedgerProperties.PlanPaysTheAccount | packages/db/src/payouts.ts:167-192 | each entry has the address, rate and weight of its own account; the fee is the rate rounded down; all that is owed is paid exactly when positive and at the minimum, else carried |
| LedgerProperties.PlanWeighsTheTables | packages/db/src/payouts.ts:78-142 | a plan weighs every account on record at what the tables hold of it, those without an entry at nothing because there is nothing, and nobody else |
| LedgerProperties.AverageFeeIsReadable | packages/db/src/payouts.ts:279-285 | the average rate recorded with a plan is between 0 and 10000 |
| LedgerProperties.NothingIsMadeOrLost | packages/db/src/payouts.ts:98-237 | over any history of recorded rounds, stale or overlapping, recorded to be paid + fees + outstanding carry is exactly what came in |
| LedgerProperties.OneRoundPerWindow | packages/db/migrations/004_payouts.sql:10-21 | however often windows are recorded, each is on record once, as first tried |
| LedgerProperties.CarryIsLastOutIffFresh | packages/db/src/payouts.ts:98-102 | over any history of balanced rounds, an account is owed what its last entry carried out at every point if and only if each of its entries carried in what it was owed at the time |
| LedgerProperties.CarryIsLastOut | packages/db/src/payouts.ts:98-102 | in any history of plans where that account's entries did so, it is owed its last carried-out amount and never less than nothing |
| LedgerProperties.InStepIsFresh | packages/db/src/payouts.ts:123-203 | when each plan was made on exactly the rounds before it, every account's entries did so |
| LedgerProperties.CarryFollowsRecordIffFresh | packages/db/src/payouts.ts:98-102 | recording leaves an account owed what the round carried out for it if and only if the plan read its current carry |
| LedgerProperties.RecordedDbIsValid | packages/db/src/accounting.ts:133-148 | tables filled by recording shares of positive difficulty are as every plan here supposes them |
| StalePlans.TwoPlansPayOneBalanceTwice | packages/db/migrations/004_payouts.sql:20-31 | two plans for different windows, made on one ledger and both recorded, that both paid an account's carry pay it twice and leave the account owing it back |
| StalePlans.FiveInTenOut | packages/db/src/payouts.ts:205-237 | a history of three recorded plans takes in five zatoshi, pays one account ten and leaves it owing five |
| LedgerProperties.OwedIsAlwaysPlanned | packages/db/src/payouts.ts:78-96 | an account still owed something is in every later accepted plan, which pays or carries the balance with its share |
| LedgerProperties.PlanWeighsAcceptedWork | packages/db/src/payouts.ts:135-142 | over recorded shares of positive difficulty, the weight a plan gives an account is the summed difficulty of the accepted shares in the window recorded under its rows |
| PaidWork.PlanWeighsOwnWork | packages/db/src/payouts.ts:123-203 | a plan made at any point of any history weighs each account on record at exactly its own accepted shares counted by then in the window |
| PaidWork.WeightIsWorkWeighed | packages/db/src/payouts.ts:78-237 | over any history of shares, accounts, plans and recordings, the weight an account is put down for in the rounds on record is the difficulty of its own accepted shares, each as often as a round weighs it |
| PaidWork.WeighedOrMissed | packages/db/src/payouts.ts:123-237 | every round with a share's second in its window weighs it or misses it, and misses it exactly when planned before it was counted or before its account was on record |
| PaidWork.PaidAndLateIsMined | packages/db/src/payouts.ts:123-237 | over any history, what an account is put down for and what of its work came too late are together what it mined in the windows on record |
| PaidWork.PaidForAllIffNoneLost | packages/db/src/payouts.ts:123-237 | it is put down for all of that if and only if no round with the time of one of its accepted shares was planned without it |
| PaidWork.EachSecondOnceIffApart | packages/db/migrations/004_payouts.sql:10-21 | over any history no second is in two windows on record if and only if the windows are pairwise apart |
| PaidWork.EarlyIsWeighedByAll | packages/db/src/payouts.ts:123-203 | a share counted before any round on record was planned is weighed by as many rounds as have its second in their window |
| PaidWork.OnceIffInTime | packages/db/src/payouts.ts:13-15 | when windows are apart a share is weighed exactly once if a round has its time and was planned with it, and otherwise never |
| PaidWork.ConsecutiveCoversOnce | packages/db/src/payouts.ts:13-15 | rounds that each start where the last ended cover every second between once and no other |
| PaidWork.LateIsNeverWeighed | apps/orchestrator/src/session.ts:303-334 | a share counted when a round for its time is on record is weighed by none, whatever follows, as long as windows stay apart |
| PaidHistories.OverlapWeighsTwice | packages/db/migrations/004_payouts.sql:10-21 | two plans made and recorded for the first 300 and the first 600 seconds weigh the one share twice and put its account down for five zatoshi each time |
| PaidHistories.LateShareIsNeverWeighed | apps/orchestrator/src/session.ts:303-334 | a share of second 299 counted when the plan for the first 300 is on record is lost, and weighed by none as long as windows stay apart |
| PaidHistories.ClashIsPaidToTheOther | apps/orchestrator/src/index.ts:41-50 | where two accounts' rigs share a login, the plan weighs the other account, and the one that mined at nothing |
| Money.FormatIsReadBack | apps/orchestrator/src/cli/money.ts:10-38 | reading back a written amount gives it exactly when it is between 0 and 2^53 - 1 |
| Dispatch.SendIsWhatWasRecorded | apps/orchestrator/src/wallet/dispatch.ts:35-53 | the recipients, read back, are exactly the positive recorded amounts in order, and add up to the total shown |
| Dispatch.SendIsPlannedIff | apps/orchestrator/src/wallet/dispatch.ts:25-46 | a send is planned if and only if the round is still planned and some entry pays |
| Dispatch.Row.Begin | packages/db/src/payouts.ts:361-374 | one statement: sending if and only if it was planned |
| Dispatch.Row.SettleExternally | packages/db/src/payouts.ts:383-391 | settled by hand if and only if it was planned |
| DispatchProcess.Send | apps/orchestrator/src/wallet/dispatch.ts:84-150 | the sequence of calls and its polling loop leave the row in the specified state, and each result says what became of the money |
| DispatchProcess.Resume | apps/orchestrator/src/wallet/dispatch.ts:153-177 | one look; sent only on a broadcast success, failed only on a final failure, else untouched |
| DispatchProcess.PlayThenRun | apps/orchestrator/src/wallet/dispatch.ts:84-177 | a run of steps from any reached world is part of an interleaving the theorems below speak of |
| DispatchProcess.SendAnywhere | apps/orchestrator/src/wallet/dispatch.ts:25-150 | a send begun by a new process at any point of any interleaving, and let through, leaves the row as `Send` does and every other process where it was |
| DispatchProcess.ResumeAnywhere | apps/orchestrator/src/wallet/dispatch.ts:153-177 | so does a resume |
| DispatchProperties.StepKeepsInv | packages/db/src/payouts.ts:361-394 | the invariant behind the guard survives every step of any process, though complete, fail and recordOperation are unconditional |
| DispatchProperties.AtMostOnePayment | apps/orchestrator/src/wallet/dispatch.ts:84-177 | for every interleaving of any number of senders, resumers and settlers, with a crash between any two steps, the wallet is asked at most once, for exactly the recorded entries, and never for a round settled by hand |
| DispatchProperties.WalletSettledMeansPaid | apps/orchestrator/src/wallet/dispatch.ts:115-133 | a round settled by the wallet has a txid that some process read in a successful, broadcast status of the one operation issued |
| DispatchProperties.SentIsFinal | packages/db/src/payouts.ts:424-446 | with a wallet that does not contradict itself a sent round stays sent, by the same route and txid |
| DispatchProperties.UnstableOutcomeUndoesSent | apps/orchestrator/src/wallet/dispatch.ts:169-174 | without that proviso a resume already under way can take a sent round to failed |
| DispatchProperties.UndoneIff | apps/orchestrator/src/wallet/dispatch.ts:112-177 | whatever the wallet says, a sent round can still be undone if and only if some process is still reading statuses of its operation or has read that it was lost |
| DispatchProperties.FailedIsFinal | packages/db/src/payouts.ts:361-394 | with a wallet that does not contradict itself a failed round stays failed |
| Disbursement.EarnedIsAccountedFor | packages/db/src/payouts.ts:98-237 | whatever was planned on whatever and however far each dispatch has got, what an account earned net of fees is what it was sent, what failed, what is still to be sent and what it is owed |
| Disbursement.SentAndFailedStay | packages/db/src/payouts.ts:361-394 | whatever is recorded and dispatched later, each sent round stays sent and each failed one failed, so both sums only grow |
| Disbursement.AllSentIffNoneFailed | apps/orchestrator/src/wallet/dispatch.ts:104-109 | once every round has ended, an account was sent all it earned but what it is owed if and only if no round that paid it failed |
| Disbursement.AnyRoundCanFail | apps/orchestrator/src/wallet/dispatch.ts:104-109 | any round that pays somebody fails for good when its one request is refused |
| Disbursement.SentMeansAsked | apps/orchestrator/src/wallet/dispatch.ts:84-150 | a sent round was settled by hand, or the wallet was asked once and what it read pays each recorded amount to its recorded address |
| DispatchProperties.AnchorIsFinal | packages/db/src/payouts.ts:364-368 | the first anchor stays, and was written on a sent round |
| Receipt.MerkleRoot | packages/protocol/src/receipt.ts:93-115 | the level-by-level loop computes the specified root, or refuses no entries |
| Receipt.ProofFor | packages/protocol/src/receipt.ts:117-153 | a proof is given exactly for an account with an entry, names that entry, commits to the root and is accepted |
| Receipt.VerifyProof | packages/protocol/src/receipt.ts:156-168 | the loop accepts exactly the paths of 32-byte siblings that climb to the commitment |
| Receipt.PathReachesRoot | packages/protocol/src/receipt.ts:101-153 | the path read off any level, odd ends paired with themselves, climbs to the root and hashes nothing the tree did not |
| EntryOrder.SortForgetsOrder | packages/protocol/src/receipt.ts:88-91 | under any collation, entries of distinct accounts of which none compare as equal sort to one list whatever order they came in |
| EntryOrder.OneSortIffNoTies | packages/protocol/src/receipt.ts:88-91 | every order of arrival sorts to one list if and only if no two of the ids compare as equal |
| ReceiptProperties.RootBinds | packages/protocol/src/receipt.ts:67-168 | a proof of any length that climbs to the root of some entries names one of those entries, or two different inputs hashed on the way collide |
| ReceiptProperties.AcceptedIffItClimbs | packages/protocol/src/receipt.ts:156-168 | a proof that names a root is accepted if and only if its path climbs from its entry's leaf to that root |
| ReceiptProperties.OneAmountPerAccount | packages/protocol/src/receipt.ts:156-168 | no account can prove two amounts under one root, short of such a collision |
| ReceiptProperties.EveryEntryIsProvable | packages/protocol/src/receipt.ts:117-153 | every entry has an accepted proof, checked without hashing anything new |
| ReceiptProperties.SameRootIffSameEntries | packages/protocol/src/receipt.ts:89-115 | for distinct accounts, none comparing as equal, two entry lists have one root if and only if they hold the same entries |
| ReceiptProperties.SameRootIffSameList | packages/protocol/src/receipt.ts:89-115 | for any accounts, as many entries have one root if and only if they sort to one list |
| ReceiptProperties.TieShowsInRoot | packages/protocol/src/receipt.ts:88-91 | where two ids compare as equal the same entries have another order with another root, short of a collision |
| ReceiptProperties.RepeatedLastEntryIsInvisible | packages/protocol/src/receipt.ts:106-113 | without distinct accounts it fails for every hash: the last of an odd number of entries may be listed twice |
| ReceiptProperties.LeafInputIsUnique | packages/protocol/src/receipt.ts:72-82 | account and amount are read back from what a leaf hashes, whatever bytes the account has |
| Decimal.SpellingIsUnique | packages/protocol/src/receipt.ts:72-76 | whole amounts below 10^21 are told apart by how they are spelled |
| Lightwalletd.EncodeVarint | apps/orchestrator/src/wallet/lightwalletd.ts:56-65 | the loop writes the number modulo 2^32 in base 128 |
| Lightwalletd.DecodeVarint | apps/orchestrator/src/wallet/lightwalletd.ts:67-79 | the loop reads base 128 at any offset, or stops at the end of the buffer |
| Lightwalletd.VarintRoundTripIff | apps/orchestrator/src/wallet/lightwalletd.ts:56-79 | what is written is read back as the number if and only if it is below 2^32 |
| Lightwalletd.DecodeRawTransaction | apps/orchestrator/src/wallet/lightwalletd.ts:100-132 | the loop ends on every input and keeps the last data and the last height among the fields |
| Lightwalletd.FieldsAreReadBack | apps/orchestrator/src/wallet/lightwalletd.ts:100-132 | any sequence of varint and length-delimited fields is read as that sequence, numbers from 2^28 on as 2^29 less |
| Lightwalletd.ReadAsItselfIff | apps/orchestrator/src/wallet/lightwalletd.ts:100-132 | it is read as itself if and only if all its numbers are below 2^28 |
| Lightwalletd.FieldNumberIsReadIff | apps/orchestrator/src/wallet/lightwalletd.ts:108 | what the 32-bit shift makes of a field number; it survives if and only if it is below 2^28 |
| Lightwalletd.AnswerIsRead | apps/orchestrator/src/wallet/lightwalletd.ts:185-214 | a framed message of any varint and length-delimited fields, in any order, is read as the facts about its last data and height |
| Lightwalletd.AnswerIsRefused | apps/orchestrator/src/wallet/lightwalletd.ts:110-129 | after any such fields, one of any other wire type has the whole answer refused, whatever follows |
| Lightwalletd.RawTransactionIsRead | apps/orchestrator/src/wallet/lightwalletd.ts:185-214 | a framed transaction without data reads as absent; any other as present, at its height unless zero, shielded as its own bytes say |
| Lightwalletd.CountDecides | apps/orchestrator/src/wallet/lightwalletd.ts:136-173 | in a transaction of any version from Overwinter on, a transparent input count of n where that version has it means shielded exactly when n is 0 |

## Left out

- Apportionment.SplitByWeight: weights and shares are exact, where the source uses doubles; nothing is claimed of IEEE rounding. The library sort is the function `Order`.
- Ledger.Payouts.PlanRound: `gross * bps` is exact, where a double is only up to 2^53; totals, fees and minimums are whole numbers (the source refuses a fractional total or fee).
- Framing.LineReader.OnData: text is characters; a multi-byte character split between two chunks, held back by the decoder, and lone surrogates are not modelled, nor is the decoding of a delivered line, which may be refused. The two readers are one model with two ways of measuring a line.
- Receipt.ProofFor: account ids are the bytes they are hashed as and sort by any total, transitive comparison; two ids with lone surrogates that are hashed as the same bytes count as one.
- Receipt.VerifyProof: an amount is taken by the text `String` gives it; that unequal numbers have unequal texts is ECMAScript's promise, not proved here. The same holds of the times in `SignedEncoding`.
- Ledger.Payouts.Record: the average rate is exact, where the source divides doubles.
- Connections.Connection.OnMessage: a session is its state, where the source has an object; that a destroyed socket reads nothing more is supposed.
- Lightwalletd.DecodeVarint: the value is exact, where a double is only up to 2^53.
- Session.Session.HandleMinerMessage: logging is left out, here and everywhere; the order of calls on different hooks is not kept.
- ControlPlane.ControlServer.HandleAttest: JSON bodies arrive decoded or not at all; HTTP routing and body limits are left out.
- Registry.Registry.HasEnrolledKeys: the count over a table is a loop over a map; SQL and migrations are represented by their keys and constraints. Rows are never deleted by the code, and an operator deleting one is not modelled.
- DispatchProcess.Send: the wait is a list of statuses ending when time is up, and nobody else writes the row meanwhile. Interleavings and crashes are the subject of `Dispatch.Play`.
- Equal difficulty on both sides of the tap: a change of difficulty in flight can be seen before a submit on one side and after it on the other.
- Ed25519, SHA-256, base64url and random values: functions, predicates and events of the environment.
- Sockets, TLS, timers, process start-up, configuration and command lines: plumbing, represented as events.
- The Zcash transaction id filter, the explorer fallback, fee tiers, Solana anchoring, the public pool summary, backups and the web site: foreign calls or presentation.
