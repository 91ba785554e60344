# Session push notification server: a Dafny model

The server keeps one connection to every service node of the network. Each subscribed account
belongs to the swarm whose id is nearest to the account's point on a 2^64 ring, and every node of
that swarm is asked to monitor the account, and asked again when 45 to 55 minutes have passed. Clients
add and remove subscriptions through notifier services; nodes send message notifications, which are
filtered for duplicates and passed on to the notifiers.

The project models that machinery and proves what it keeps over whole runs.

| file | what it models |
|---|---|
| `SwarmSpace.dfy`, `RingPoint.dfy` | ring arithmetic, the nearest swarm, an account's point |
| `Subscription.dfy`, `Decimal.dfy` | validation, the signed MONITOR text, `covers`, decimal and hex text |
| `Queue.dfy`, `Drain.dfy`, `SNode.dfy` | one node's accounts and its time-sorted queue; `check_subs`; the `SNode` object |
| `HiveState.dfy`, `HiveProofs.dfy`, `HiveMind.dfy` | the hive's indexes and database rows, what each operation keeps, the `HiveMind` object |
| `Resubscription.dfy`, `Submission.dfy` | how soon and how late a node is asked for an account again; what a client's subscription gets submitted and when |
| `HiveRuns.dfy`, `HiveExamples.dfy` | the hive's whole runs: what holds in every state, and concrete runs that reach each exception |
| `Signatures.dfy` | what is submitted was signed as a whole |
| `DuplicateFilter.dfy` | the two-generation notification filter |
| `StartupRace.dfy` | requests that arrive before startup completes |
| `BatchReply.dfy` | one reply for a batch of requests answered by callbacks |
| `Connections.dfy` | connection slots |
| `Bencode.dfy`, `BencodeItems.dfy`, `NotifierMessage.dfy`, `PushPayload.dfy` | codecs and size bounds |

Conventions. Objects that the source updates in place are classes whose methods are proved against
functions on values; the laws are lemmas about those functions. Random delays, container order,
clock readings, signature checks and the network are parameters or events, so every theorem holds
for all of them. System time is counted in nanoseconds in the queue and in seconds elsewhere, as in
the source. A database row is a map entry under the table's uniqueness constraint, and an addition
is two atomic steps (a committed transaction, then an update on the event loop) between which
anything else may happen. A run of the hive (`HiveRuns.Run`) starts from any completed load, however
many rows it skipped, and goes on with any events, replies that break off with an exception included.
Six things are proved about runs. The indexes and queues are sound in every state (`CoreInv`). Every
row that was loaded or committed is represented. Nothing is held or submitted that was not signed. A
node is asked for an account again in the 45 to 55 minute window. A new row is submitted in the next
call of each node of its account's swarm, and while it is in the table whenever the account is asked for, until ten
seconds before it is 14 days old (`Submission.dfy`). And an account that is settled
(right swarm, every node of it monitoring the account) stays so until a reply breaks off to its harm,
the harm being an exact condition. Two accounts are equal when their ids are; the ring point stored
beside the id is a function of it (`RingPoint.AccountOf`).

Where the code and its own words differ, the code is modelled:

- `spns/bytes.hpp` says that two unset subaccounts are the same; the code returns false
  (`Subscriptions.SameSubaccount`). Plain subscriptions are therefore never merged but always appended
  (`HiveProofs.PlainIsAppended`), so that a renewed one is held and submitted twice
  (`HiveExamples.PlainRenewalRepeats`); among the others there are no repetitions
  (`HiveRuns.OnlyPlainRepeats`). `covers` is not even reflexive on plain ones
  (`Subscriptions.CoversIsPreorder`).
- `spns/hive/snode.hpp` promises that accounts which left the swarm are removed. The code looks at
  the queue's own copies, which nobody refreshes: nothing is ever ejected (`Queue.NothingIsEjected`),
  so the promise is kept only where nobody left (`Queue.PromiseIffNobodyLeft`), and a node monitors
  an account for as long as it stays in its swarm (`HiveRuns.NobodyIsLetGo`). A run that gets there:
  `HiveExamples.DepartedAccountStays`.
- A service node reply can be abandoned by an exception after part of it took effect: on an
  unreadable entry once the swarm list is replaced, or on an address or a connection once some nodes
  are placed. `HiveProofs.ReplyKeepsAccountIffHarmless` and `HiveProofs.ReplyKeepsSettledIffSpared`
  give the exact conditions, `HiveExamples.SwarmGoesStale` and `HiveExamples.BaredSwarmStaysBare`
  reach both cases. A reply that triggers a recheck repairs the damage for every subscriber
  (`HiveRuns.CoverageAfterRecheck`); what else repairs it for one account, and that nothing else does,
  is `HiveRuns.StepSettlesIff`.
- Renewing a row that the loader skipped makes the account known without telling any node
  (`HiveProofs.RenewalOfSkippedRow`, reached in `HiveExamples.RenewalGoesUnnoticed`).
- A local disconnect makes the slot counter drift, either way: a slot is given back twice
  (`Connections.LocalDisconnectDrifts`) or never (`Connections.AbandonedAttemptDrifts`).
  `Connections.DisconnectedKeepsDriftIff` is the exact condition, `Connections.CounterIsLedger` the
  account of any run.
- The buffer estimate's comment calls it an overestimate; its timestamp lines are not
  (`NotifierMessage.TimestampFitsItsLine`), but the total is (`NotifierMessage.EstimateSuffices`).

## Model

| member | source | states |
|---|---|---|
| SwarmSpace.ClosestIsNearest | spns/swarmpubkey.cpp:47-71 | For every increasing non-empty id list and every ring point, the chosen id has the smallest circular distance, ties going to the id reached by walking down |
| SwarmSpace.ClosestIsScan | spns/swarmpubkey.cpp:54-71 | The binary search with wraparound agrees with an exhaustive scan |
| SwarmSpace.MovesOnlyIntoNewSwarms | spns/swarmpubkey.cpp:47-77 | Consistent hashing: enlarging the list moves an account only into an added swarm, shrinking it moves only accounts of removed ones |
| SwarmSpace.UpdateSwarm | spns/swarmpubkey.cpp:73-77 | The copy ends up in the closest swarm, and the result is true exactly when the copy changed |
| RingPoint.CalcSwarmSpace | spns/swarmpubkey.cpp:12-17 | The loop yields the 64-bit number whose bit i is the parity of bit i mod 8 of four bytes of the id, those i/8 places from the end of each 8-byte word after the prefix |
| RingPoint.PointIsParity | spns/swarmpubkey.cpp:12-17 | Each bit of the point is the parity of that bit over the words |
| RingPoint.PointFromBytes | spns/swarmpubkey.cpp:12-17 | Each bit of an account's point in terms of the bytes of its id, big-endian |
| RingPoint.PointIs | spns/swarmpubkey.cpp:12-17 | Those bits determine the point |
| Subscriptions.Construct | spns/hive/subscription.cpp:33-81 | The constructor accepts exactly the strictly ascending non-empty namespace lists with a timestamp less than 14 days old and less than a day ahead whose message verifies, and the result is well formed |
| Subscriptions.BuildMessage | spns/hive/subscription.cpp:68-78 | The appending loop writes MONITOR, hex account, timestamp, flag and comma-joined namespaces |
| Subscriptions.MessageLayout | spns/hive/subscription.cpp:68-78 | The text place by place: MONITOR, two hexadecimal digits per account byte, the timestamp, 1 or 0 for the data flag, the namespaces |
| Subscriptions.JoinedNext | spns/hive/subscription.cpp:74-78 | Each further namespace follows a comma |
| Subscriptions.NumberText | spns/hive/subscription.cpp:68-78 | A number is written as its decimal digits, after a minus sign if negative |
| Subscriptions.MessageDecodable | spns/hive/subscription.cpp:68-78 | Of two equal messages the contents are equal if and only if the timestamps have the same width |
| Subscriptions.AcceptedMessagesDecodable | spns/hive/subscription.cpp:49-79 | Subscriptions accepted in the ten-digit era are determined by their signed text |
| Subscriptions.CollidesWithLonger | spns/hive/subscription.cpp:72-78 | Every timestamp has a longer one with which two different subscriptions of an account sign the same text |
| Subscriptions.MixedWidthsCollide | spns/hive/subscription.cpp:72-78 | A ten-digit and an eleven-digit timestamp for which two different subscriptions sign the same text |
| Subscriptions.Covers | spns/hive/subscription.cpp:83-108 | The two-index walk returns true exactly when the tags match, the data flag suffices and the namespaces are a superset |
| Subscriptions.CoversIsPreorder | spns/bytes.hpp:86-92 | That relation is transitive, and reflexive exactly on subscriptions with a subaccount |
| Queue.AddKeepsInv | spns/hive/snode.cpp:161-181 | Adding an account, forced or not, keeps the queue sorted and in bijection with `subs_`, and adds just that account |
| Queue.ForcedAccountIsFirst | spns/hive/snode.cpp:170-180 | A forced account comes first; every other account keeps its one entry and its time |
| Queue.ReconnectKeepsInv | spns/hive/snode.cpp:100-106 | After a reconnection everyone is due, and the invariant holds |
| Queue.NothingIsEjected | spns/hive/snode.cpp:191-204 | From any sound node the stale-member pass removes no account and no queue entry |
| Queue.PromiseIffNobodyLeft | spns/hive/snode.hpp:108-115 | After the stale-member pass a sound node holds only accounts of its swarm if and only if it held no others before |
| Drain.TailResortSortsAll | spns/hive/snode.cpp:362-384 | Sorting from the partition point only yields a fully sorted permutation of the whole queue |
| Drain.CheckConservesAccounts | spns/hive/snode.cpp:303-384 | A call drops exactly the popped accounts the hive does not know, and keeps all others once |
| Drain.CheckKeepsInv | spns/hive/snode.cpp:303-384 | When the hive knows the node's accounts, `check_subs` keeps the node invariant |
| Drain.CheckRefinesOneShot | spns/hive/snode.cpp:303-360 | What one call submits, followed by what is still due, is the one-shot submission |
| Drain.CheckProgress | spns/hive/snode.cpp:353-357 | A call that is not rate limited leaves nothing due; one that is leaves strictly fewer entries due |
| Drain.RequestBound | spns/hive/snode.cpp:321-357 | Each request is below the limit plus the subscriptions of its last account |
| Drain.TranscriptRefinesOneShot | spns/hive/snode.cpp:287-360 | The same as for one call, over any number of calls at one time |
| Drain.ChainSubmitsOneShot | spns/hive/snode.cpp:287-360 | The chain of rate-limited calls ends within the number of due entries plus one and submits exactly the one-shot answer, in order |
| Drain.OneShotMember | spns/hive/snode.cpp:303-344 | A sound node's one-shot submission holds exactly the in-window subscriptions of the accounts that have a due live entry and are known to the hive |
| Drain.OneShotForAccount | spns/hive/snode.cpp:303-357 | For each account it holds all those subscriptions once and in order, or nothing |
| Drain.ChainAsksOnce | spns/hive/snode.cpp:287-360 | The same of everything that a finished chain of rate-limited calls has submitted |
| Drain.EntriesInOrder | spns/hive/snode.cpp:321-344 | Subscriptions inside the window are entered all, once and in order |
| Submission.AskedSubmits | spns/hive/snode.cpp:300-344 | When an account is asked for, exactly its subscriptions that are at most 14 days less 10 seconds old and at most a day ahead are submitted |
| Submission.AcceptedIsSubmitted | spns/hive/subscription.cpp:61-66 | A subscription that the constructor accepts is in every request that asks for its account, from then until 10 seconds before it is 14 days old |
| Submission.NewAccountIsAsked | spns/hive/snode.cpp:161-169 | An account new to a node is asked for in the node's next call, rate limited or not |
| Submission.ForcedAccountIsAsked | spns/hive/snode.cpp:170-180 | So is a forced account |
| Submission.NewRowIsAsked | spns/hivemind.cpp:1970-1977 | After a new row is applied, the next call of every node of the account's home swarm asks for the account |
| Submission.NewRowIsSubmitted | spns/hivemind.cpp:1952-1980 | That call submits an entry with the new row's tag, namespaces and data flag, on a signature no older |
| Submission.NewRowIsAskedSoon | spns/hivemind.cpp:1970-1977 | In every run each such node is asked by its next call, or by its first unlimited one if others were added meanwhile |
| Submission.RecheckedIsAskedSoon | spns/hivemind.cpp:1597-1626 | In every run a subscriber that a recheck brings to a node is asked for by the node's first unlimited call after it |
| Submission.RowIsSubmitted | spns/hive/snode.cpp:303-344 | In every run, whenever a node asks for the account of a loaded or committed row with nothing in flight, what it submits delivers what the row asks for, until 10 seconds before the row is 14 days old |
| Resubscription.NotTooSoon | spns/hive/snode.cpp:303-352 | In every run a node is asked for an account again no sooner than 45 minutes later, unless it moved, reconnected, or a new row of the account was applied |
| Resubscription.AskedAgain | spns/hive/snode.cpp:303-352 | In every run a node that stays in its swarm has been asked again by the first call, 55 minutes after the last asking or later, that is not rate limited |
| Resubscription.NotTooLate | spns/hive/snode.cpp:303-352 | The same from any state and any time by which the account's entry is due |
| Resubscription.AskingSubmits | spns/hive/snode.cpp:321-352 | Asking for an account is submitting all its in-window subscriptions; no other call submits any of them |
| ServiceNode.SNode.constructor | spns/hive/snode.cpp:32-39 | A new node monitors nobody and is sound |
| ServiceNode.SNode.AddAccount | spns/hive/snode.cpp:161-181 | The object's new state, with the search for the old entry |
| ServiceNode.SNode.ResetSwarm | spns/hive/snode.cpp:183-189 | Queue and accounts emptied, swarm replaced |
| ServiceNode.SNode.ForceAll | spns/hive/snode.cpp:103-104 | Every queue entry becomes due |
| ServiceNode.SNode.RemoveStaleSwarmMembers | spns/hive/snode.cpp:191-204 | The two loops refresh the copies in `subs_` and compare those in the queue |
| ServiceNode.SNode.CheckSubs | spns/hive/snode.cpp:228-384 | One call: the queue it leaves, the request it submits, and whether it was rate limited |
| ServiceNode.SNode.DrainLoop | spns/hive/snode.cpp:303-357 | The loop pops, re-queues and submits as the counting function says |
| HiveProofs.MergeKeeps | spns/hivemind.cpp:1815-1841 | Merging never loses a representation and represents the merged subscription |
| HiveProofs.PlainIsAppended | spns/hivemind.cpp:1955-1968 | A subscription without subaccount is never merged, whatever it equals |
| HiveProofs.LoadedAccounts | spns/hivemind.cpp:1799-1856 | The subscribers after a load are exactly the accounts with a row that has more than 5 seconds of its 14 days left and is dated less than a day ahead; none has an assigned swarm or repeated entries |
| HiveProofs.LoadHoldsRow | spns/hivemind.cpp:1799-1841 | Each such row is represented, whatever happened to the other rows |
| HiveProofs.LoadSucceedsIff | spns/hivemind.cpp:1799-1841 | A load succeeds if and only if the first row in date of each kind has a timestamp and a strictly ascending non-empty namespace list |
| HiveProofs.AccountInvAtStart | spns/hivemind.cpp:1799-1856 | An account starts well if and only if it has no row or some row of it was not skipped |
| HiveProofs.CommitKeepsAccount | spns/hivemind.cpp:1873-1950 | The transaction of an addition disturbs no account's invariant |
| HiveProofs.ApplyKeepsAccount | spns/hivemind.cpp:1952-1980 | Nor does the in-memory half, in whatever order additions are applied |
| HiveProofs.ApplySettles | spns/hivemind.cpp:1952-1980 | Applying a new row makes every node of the account's swarm monitor it |
| HiveProofs.RenewalOfSkippedRow | spns/hivemind.cpp:1952-1980 | A renewed account that memory did not know is covered exactly when its swarm has no nodes |
| HiveProofs.DeleteKeeps | spns/hivemind.cpp:2025-2036 | Deleting rows disturbs no account and no remaining row, for removals, dropped registrations and the periodic cleanup alike |
| HiveProofs.CleanedIsExpired | spns/hivemind.cpp:1427-1434 | A row that the cleanup deletes would never be accepted, loaded or submitted again |
| HiveRuns.TableAfter | spns/hivemind.cpp:976-1013 | After each event, which rows are in the table and with which contents |
| HiveProofs.RecheckedCovers | spns/hivemind.cpp:1597-1620 | After the recheck each node monitors every account of its swarm |
| HiveProofs.ReplyKeepsCore | spns/hivemind.cpp:1452-1653 | Any reply, however it ends, leaves sound queues and indexes |
| HiveProofs.ReplyKeepsAccountIffHarmless | spns/hivemind.cpp:1487-1653 | A reply keeps an account's invariant unless it breaks off after changing the account's closest id, or after putting an empty node into its swarm with no new row of it in flight; and only then |
| HiveProofs.ReplyKeepsSettledIffSpared | spns/hivemind.cpp:1487-1653 | An account monitored by its whole nearest swarm stays so if and only if the reply is completed, or leaves its closest id alone and puts no empty node into its swarm |
| HiveProofs.ReplySettlesIff | spns/hivemind.cpp:1452-1653 | Exactly which replies leave a subscriber settled, whatever state it was in before |
| HiveProofs.RecheckSettles | spns/hivemind.cpp:1597-1626 | A reply that triggers the recheck gives every subscriber its nearest swarm and all of that swarm's nodes, from any state with sound indexes |
| HiveProofs.QuietReplyOnlyForgets | spns/hivemind.cpp:1537-1597 | A completed reply without a recheck changes no subscriber, no swarm list and no remaining node |
| HiveProofs.CompletedReplyIndex | spns/hivemind.cpp:1514-1589 | After a completed reply the nodes are exactly the usable ones, in their reported swarms, and no swarm set is empty |
| HiveProofs.UsableSpec | spns/hivemind.cpp:1514-1528 | A node is usable exactly when some entry has its details; the first such entry gives its swarm |
| HiveProofs.IdsOfSpec | spns/hivemind.cpp:1494-1499 | The swarm list holds exactly the valid swarm ids of the reply |
| HiveProofs.NodesAfterReply | spns/hivemind.cpp:1514-1528 | After a completed reply the hive knows exactly the nodes with a key of 64 characters, an address that is not 0.0.0.0, a port and a valid swarm, each in a swarm so reported |
| HiveProofs.NodesInListedSwarms | spns/hivemind.cpp:1487-1589 | After a completed reply with a new block every node's swarm is in the swarm list |
| HiveProofs.BlockAfterReply | spns/hivemind.cpp:1487-1512 | A reply's block is remembered; a new one replaces the list by exactly the valid ids reported, the same one leaves it alone |
| HiveProofs.UnreadableIdChangesNothing | spns/hivemind.cpp:1484-1499 | A new block with an unreadable swarm id changes nothing at all |
| HiveProofs.UnreadableEntryKeepsNodes | spns/hivemind.cpp:1516-1528 | An entry with a missing field, or with details and an undecodable key, leaves nodes, swarm sets and subscribers alone |
| HiveRuns.StepKeepsAccountIff | spns/hivemind.cpp:1452-1653 | Of all events only a harmful reply can break an account's invariant, and each harmful reply does |
| HiveRuns.StepKeepsSettledIff | spns/hivemind.cpp:1452-1653 | Of all events only a reply that does not spare it unsettles a settled account |
| HiveRuns.StepSettlesIff | spns/hivemind.cpp:1452-1980 | For any account in any state, which events leave it settled: a recheck does; a new row of it does if its swarm is right or it is not yet a subscriber; another reply does if its swarm is then right and every node left in it monitors the account |
| HiveRuns.RunKeepsCore | spns/hivemind.cpp:272-358 | In every state of every run the node queues are sorted and in bijection with the accounts, and the indexes agree |
| HiveRuns.RunKeepsAccount | spns/hivemind.cpp:272-358 | From any state on, an account's invariant lasts until a reply harms the account |
| HiveRuns.Coverage | spns/hivemind.cpp:1597-1620 | For an account that startup did not skip altogether and that no reply has harmed so far: from any state in which it is covered or has no new row in flight, its cached swarm is the nearest id and each node of that swarm has exactly one live queue entry for it, in every later state until a reply fails to spare it |
| HiveRuns.CoverageAfterRecheck | spns/hivemind.cpp:1597-1626 | The same for every subscriber after one rechecking reply, whatever was skipped or abandoned before |
| HiveRuns.RowsRepresented | spns/hivemind.cpp:1952-1968 | In every reachable state each row that was loaded or committed since is represented, in memory or by an addition in flight, with a timestamp at least its own |
| HiveRuns.OnlyPlainRepeats | spns/hivemind.cpp:1815-1841 | In every reachable state two entries of one account with equal tag, namespaces and data flag are both plain |
| HiveRuns.NodeIndex | spns/hivemind.cpp:1605-1619 | In every reachable state the swarm sets are disjoint, hold exactly the known nodes, and each node is in its own swarm's set |
| HiveRuns.QueuesAreSound | spns/hive/snode.hpp:61-70 | In every reachable state a node has one live queue entry for each account it monitors and none for others, in time order, and the hive knows them all |
| HiveRuns.NobodyIsLetGo | spns/hive/snode.hpp:108-115 | While a node stays in its swarm it never stops monitoring an account, wherever the account's home moves |
| HiveExamples.CoverageIsReached | spns/hivemind.cpp:1452-1980 | For every node, swarm and subscription there is a run that meets all of Coverage's premises |
| HiveExamples.SwarmGoesStale | spns/hivemind.cpp:1487-1521 | A run in which an unreadable entry leaves a subscriber with a swarm that is no longer in the list |
| HiveExamples.BaredSwarmStaysBare | spns/hivemind.cpp:1554-1597 | A run in which a placing loop abandoned on a bad address leaves a node without its account, and a completed reply about the same nodes repairs nothing |
| HiveExamples.BaredInFlight | spns/hivemind.cpp:1554-1980 | A run in which a settled account is bared while a second row of it is in flight: no harm by Coverage's premises, but not covered until that row is applied |
| HiveExamples.RenewalGoesUnnoticed | spns/hivemind.cpp:1807-1980 | A run in which a skipped row is renewed and no node of the account's swarm is told |
| HiveExamples.RenewalOvertakes | spns/hivemind.cpp:1952-1980 | A run in which a renewal is applied before the addition it renews, so that a subscriber is not covered until that addition is applied |
| HiveExamples.DepartedAccountStays | spns/hive/snode.cpp:191-204 | A run in which an account's home moves and its old node keeps monitoring it |
| HiveExamples.PlainRenewalRepeats | spns/hivemind.cpp:1955-1968 | A run in which one database row is held twice in memory |
| HiveMindObject.HiveMind.LoadSavedSubscriptions | spns/hivemind.cpp:1799-1856 | The loading loop, and when a bad row aborts startup |
| HiveMindObject.HiveMind.ApplySubscription | spns/hivemind.cpp:1952-1980 | Merge, and force the account on its swarm's nodes if the row was new |
| HiveMindObject.HiveMind.MergeInto | spns/hivemind.cpp:1955-1968 | The scan finds the first equivalent subscription or appends |
| HiveMindObject.HiveMind.RemoveSubscription | spns/hivemind.cpp:2000-2037 | Rejected outside the grace period or on a bad signature, otherwise the row is gone and the result tells whether it was there |
| HiveMindObject.HiveMind.DropRegistrations | spns/hivemind.cpp:976-1013 | All rows of the service and the given ids are deleted, or none when the message is malformed |
| HiveMindObject.HiveMind.OnSnsResponse | spns/hivemind.cpp:1452-1653 | The stepwise update of ids, nodes, swarm sets and subscribers yields the declarative result, exits by exception at every entry and every node included |
| HiveMindObject.HiveMind.InstallIndexes | spns/hivemind.cpp:1537-1589 | Dropping, placing and pruning leave exactly the index of the usable nodes, or the partial one when the placing loop breaks off |
| HiveMindObject.HiveMind.Recheck | spns/hivemind.cpp:1597-1620 | The swarm-by-swarm jobs give every node its share of the subscribers |
| Signatures.MergeKeepsValid | spns/hivemind.cpp:1957-1968 | Merging validly signed subscriptions yields validly signed ones |
| Signatures.RunIsAuthentic | spns/hivemind.cpp:1815-1841 | In every run from validly signed rows and additions everything held in memory is validly signed |
| Signatures.SubmissionsAreSigned | spns/hive/snode.cpp:321-344 | Every submitted entry is validly signed for its own content and inside the signature window |
| DuplicateFilter.FilterRefinesReference | spns/hivemind.cpp:635-746 | Over every run the two sets decide like a reference that suppresses a hash until two rotations after it passed |
| DuplicateFilter.SuppressedForLifetime | spns/hivemind.cpp:636-746 | A notification that passes at time t does not pass again up to and including t plus the lifetime |
| DuplicateFilter.PassesAgain | spns/hivemind.cpp:635-746 | A notification passes when its hash was last offered at batch i, some batch came a lifetime after i, and this batch comes a lifetime after that one |
| DuplicateFilter.NotificationFilter.Process | spns/hivemind.cpp:635-746 | One batch: rotation, then the two set operations per notification |
| StartupRace.MutexStep | spns/hivemind.cpp:437-473 | The mutex is exclusive, and nobody is about to enqueue once `ready` is set |
| StartupRace.QueueStep | spns/hivemind.cpp:437-473 | Queue and queued requests correspond through every step |
| StartupRace.StepPays | spns/hivemind.cpp:437-473 | Every step uses up a bounded measure, so every run and the drain loop end |
| StartupRace.NoDeadlock | spns/hivemind.cpp:437-473 | Where nobody can move, the drain is over and every request has run |
| StartupRace.Safety | spns/hivemind.hpp:184-187 | No body runs before `ready`, none twice, and nothing is enqueued after `ready` |
| StartupRace.DrainsInOrder | spns/hivemind.cpp:447-450 | Deferred requests are served first in, first out, and all of them |
| StartupRace.EveryRequestRunsOnce | spns/hivemind.cpp:437-473 | Every interleaving ends, having run each request exactly once |
| BatchReply.StepKeepsInv | spns/hivemind.cpp:1024-1041 | The counter is the number of unfinished items and slots hold finished results, through every step |
| BatchReply.OneReplyWhenAllDone | spns/hivemind.cpp:1024-1041 | At most one reply, sent exactly when all items are done, answering slot by slot |
| BatchReply.EveryBatchIsAnswered | spns/hivemind.cpp:1249-1393 | Every interleaving ends with exactly one reply, the empty list included |
| Connections.ConnectIff | spns/hive/snode.cpp:41-64 | An attempt is made exactly when the node has no connection and no cooldown left and a slot is free, and takes one slot |
| Connections.ConnectAllFills | spns/hivemind.cpp:1668-1677 | After `make_conns` the slots are used up, or every node has a connection or is cooling down |
| Connections.FinishedFills | spns/hivemind.cpp:1683-1691 | The same after a finished attempt, unless the slots were used up before it finished; then nothing is tried |
| Connections.NewPeerTries | spns/hive/snode.cpp:32-39 | A new node connects at once if a slot is free |
| Connections.WaitAfter | spns/hive/snode.cpp:115-145 | Failures in a row wait 10, 30, 60 and then 120 seconds, a lost connection one second |
| Connections.CameUpResets | spns/hive/snode.cpp:88-106 | A connection that comes up ends the run of failures |
| Connections.ConnectKeepsDrift | spns/hivemind.cpp:1693-1709 | An attempt takes a slot exactly when it starts, never beyond the maximum |
| Connections.ConnectedKeepsDrift | spns/hive/snode.cpp:88-113 | A connect callback returns exactly one slot |
| Connections.DisconnectedKeepsDriftIff | spns/hive/snode.cpp:115-153 | A disconnect callback keeps the counter right if and only if the `connected_` flag still tells whether this connection had come up |
| Connections.LocalDisconnectDrifts | spns/hive/snode.cpp:77-86 | A local disconnect after which a slot is given back twice and the counter is negative |
| Connections.AbandonedAttemptDrifts | spns/hive/snode.cpp:77-153 | A local disconnect after which a slot is never given back, with nobody trying to connect |
| Connections.CounterIsLedger | spns/hivemind.cpp:1668-1709 | In every run, local disconnects included, the counter is the number of undecided attempts plus the slots lost minus those given back twice, and never above the maximum |
| Connections.SlotConservation | spns/hivemind.cpp:1668-1709 | In runs without local disconnects the counter is the number of nodes trying to connect, between 0 and the maximum |
| Connections.ConnectionPool.AllowConnect | spns/hivemind.cpp:1693-1709 | A slot is taken when one is free, and otherwise given back |
| Connections.ConnectionPool.ConnectNode | spns/hive/snode.cpp:41-64 | Connects unless connected, cooling down or out of slots |
| Connections.ConnectionPool.MakeConns | spns/hivemind.cpp:1668-1677 | The loop stops when the slots are used up |
| Connections.ConnectionPool.FinishConnect | spns/hivemind.cpp:1683-1691 | The counter is read before it is decremented |
| Connections.ConnectionPool.ConnectedCallback | spns/hive/snode.cpp:88-113 | The object's new state after a connect callback |
| Connections.ConnectionPool.DisconnectedCallback | spns/hive/snode.cpp:115-153 | The object's new state after a disconnect callback, cooldown included |
| Connections.ConnectionPool.DisconnectNode | spns/hive/snode.cpp:77-86 | The pointer and the flag are cleared; the callback is still to come |
| NotifierMessage.EstimateSuffices | spns/hivemind.cpp:759-791 | For every sendable message the encoded dict fits the estimate with two bytes to spare |
| NotifierMessage.EstimateIsClose | spns/hivemind.cpp:759-791 | It overshoots by less than 140 bytes |
| NotifierMessage.TimestampFitsItsLine | spns/hivemind.cpp:768-769 | Exactly the timestamps that fit the 15 bytes allowed for them |
| NotifierMessage.NotifierReadsEntries | spns/hivemind.cpp:778-791 | A decoder reads back exactly the appended entries |
| NotifierMessage.NotifierReadsFields | spns/hivemind.cpp:778-791 | Which value a decoder finds under which key, and that there are no others |
| NotifierMessage.KeysAscend | spns/hivemind.cpp:778-791 | The keys are appended in ascending order |
| Bencode.ConsumeIffSplits | spns/onion_request.py:14-31 | The parser accepts exactly digits, colon, that many bytes and a rest, and returns that split |
| Bencode.ConsumePrinted | spns/onion_request.py:14-31 | Round trip of a printed string followed by anything |
| Bencode.ConsumeStringLoop | spns/onion_request.py:21-31 | The scanning loop computes that parser |
| Bencode.ParseIffShape | spns/onion_request.py:36-52 | Exactly which request lists are accepted, and what is read from them |
| Bencode.ParseBuilt | spns/onion_request.py:74-77 | The list parser recovers both parts of a built response, an empty body included |
| BencodeItems.DecodePrintedList | spns/notifiers/util.py:52 | A printed list of strings, integers and dicts decodes to itself, whatever follows it |
| BencodeItems.Delimiters | spns/notifiers/util.py:52 | The delimiting bytes of strings, integers, dicts and lists |
| PushPayload.PaddingIsHarmless | spns/notifiers/util.py:52-55 | In every mode the padded plaintext decodes to the same list and leaves only the padding |
| PushPayload.BodyTravelsIff | spns/notifiers/util.py:43-52 | The plaintext decodes to metadata and body exactly when the body is not empty and within the limit, and otherwise to the metadata alone |
| PushPayload.MetadataFields | spns/notifiers/util.py:42-51 | Which value stands under which key of the JSON metadata, the length and the too-long mark included |
| PushPayload.DictFields | spns/notifiers/util.py:42-52 | The same of the dict form, and that it has no other keys |
| PushPayload.UnescapeString | spns/notifiers/util.py:42-51 | A JSON reader gets every ASCII hash back, whatever had to be escaped in it |
| PushPayload.PlaintextBound | spns/notifiers/util.py:39-57 | Whole blocks of 256, at most 2816 bytes (512 without a body), at most 3808 base64 characters |
| PushPayload.BuildPlaintext | spns/notifiers/util.py:39-55 | The stepwise construction computes that plaintext |

## Left out

- HiveMindObject.HiveMind: holds its nodes by value under their keys, so that `sns_` and `swarms_` share one object per node is not captured; the node object itself is `ServiceNode.SNode`.
- HiveMindObject.HiveMind.OnSnsResponse: ends before the trailing `check_subs` (a separate event of the runs) and performs the batch jobs one after another; `HiveRuns.NodeIndex` shows that they touch disjoint nodes. Addresses are represented by whether building and connecting to them throws (`HiveMindObject.Outcome`); closing a connection is taken not to throw, and the slot that a throwing connect keeps is not followed (`Connections` counts completed calls).
- HiveRuns.Run: a database transaction is one atomic step, and the rows do not change while they are loaded.
- ServiceNode.SNode.CheckSubs: models a connected node; the connecting branch is in `Connections`. The two branches that discard a deleted and an unknown entry are written as one, `std::sort` is any sorted permutation, and the request is a list of (account, subscription) pairs rather than its encoded text. The account's Ed25519 key, which the queue's copy submits as "P" in place of the id, is not part of an account here.
- Signatures.SubmissionsAreSigned: neither that Ed25519 key nor the subaccount's own signature is part of `Signatures.Claim`, here and in `Signatures.RunIsAuthentic`; which key verifies a signature is not looked into.
- Connections.Run: node objects are never removed; dropping one from the hive is a local disconnect here. The endpoint stays alive.
- DuplicateFilter.PassesAgain: the filter rotates only when a batch arrives, so no maximum in clock time alone is stated. A hash is opaque, and which rows match a message is a database query.
- BatchReply.EveryBatchIsAnswered: each notifier request gets one callback; JSON texts are opaque.
- StartupRace.EveryRequestRunsOnce: a request body is one step; exceptions inside it are not modelled.
- Bencode.ConsumeStringLoop: the limit that recent Python versions put on the number of digits of an integer is not modelled.
- Bencode.ParseIffShape: stops at the two strings; the JSON parsing of the first and the endpoint checks on it, which can reject a well-formed list too, are not modelled.
- PushPayload.PlaintextBound: assumes a hash that JSON does not escape; non-ASCII hashes are outside the model, encryption is represented by its sizes, and a boolean in a bencoded dict is taken to be written as the integer 1.
- SQL text, threads of the loader, statistics, logging, systemd status, configuration, Flask, onion encryption, QUIC, ZeroMQ and the vendored Huawei client.
- `from_hex_or_b64`, `split` and the statistics history of `NotifyStats.collect`: self-contained helpers that no property here depends on.
