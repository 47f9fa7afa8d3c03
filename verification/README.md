# A verified model of the gate

A pinning gate hosts files for money. An account pays for an upload, for an own copy of a file that
is already hosted, or for a guardian's pledge, which only starts to run when the file would otherwise
be dropped. Claims end by cancel, release, expiry, ban or takedown; what was not used goes back. This
project models that gate, the price list under it, the protocol by which a keyless node has its refunds
paid by an escrow box, and three smaller parts: the migration that numbered the guardians' queues, the
release authority of an order, and byte ranges.

| file | what is in it |
|---|---|
| `Prelude.dfy`, `Ledger.dfy` | options, results, error codes; sums over booked entries |
| `Pricing.dfy` | quotes, refunds and their rounding |
| `Hosting.dfy` | the tables, and every step that changes them, as functions |
| `HostingInvariant.dfy` | what every step keeps, and the proof for each primitive change |
| `HostingEndings.dfy`, `HostingDelete.dfy` | sweep, ban, takedown and the delete loop, CID by CID |
| `HostingRuns.dfy` | every event keeps the invariant; results over whole runs |
| `HostingMoney.dfy` | solvency |
| `HostingOutcomes.dfy` | who may end a claim, what a buyer gets for what price, and what goes back |
| `HostingRounding.dfy` | which hourly costs let a claim bought in pieces be refunded more than it cost, and runs that do it |
| `HostingGate.dfy` | the gate as a class that updates its tables in place, proved against `Hosting.dfy` |
| `Settlement.dfy`, `SettlementRuns.dfy` | the node as a class; the protocol with its network, box and crashes |
| `Backfill.dfy` | migration 006 on arrays |
| `Release.dfy`, `Range.dfy` | release policies and endpoints; the Range header and the gateway's answer |

How to read the model:

- A table is a sequence of rows in insertion order, and a row's index is its rowid. The synchronous
  database section of a handler is one step. What a handler holds in memory between two sections (an
  upload whose file is being pinned, a cancelled row whose refund is not yet written) is part of the
  state, and a crash loses it.
- Money is exact. Rounded amounts are integers that count units of `RATE_FLOOR`; payments and rates are
  real numbers of the same unit. `roundCoins` is `Number.prototype.toFixed` (section 21.1.3.3 of ECMA-262).
- Time is a parameter of each step and does not run backwards. Each reconciliation reads its own clock,
  which is at or after the time of the sweep or ban that calls it.
- A run is a sequence of states, each reached from the one before by an event. Everything said of "any
  run" is proved for any events in any order, from any state that satisfies the invariant, the empty
  tables among them.

Where the code does not do what it promises, the model follows the code and says exactly when they differ:

- `Pricing.DormantRefundExceedsEscrow`: the full refund of a pledge is more than the pledge exactly when the
  payment had more digits than `RATE_FLOOR`, ended in half a unit or more, and was not dust.
- `Pricing.PiecesPayExactlyWhen`, `HostingRounding.OverRefundExactlyWhen` and `HostingRounding.PiecesRun`: a
  claim bought and extended in equal pieces can be refunded more than was paid for it exactly when an hour of it
  does not cost half units, whatever the dust limit and the least number of hours. Half units round up and are
  safe. At 0.4 units an hour, hours bought one by one cost nothing, and enough of them refund any amount.
- `HostingMoney.ClaimSolventExactly`: a pledge that waits can be refunded more than was paid exactly when it
  rounds up; apart from that and from hosted hours that cost no half units, no claim can.
- `HostingMoney.OnlyLapsedExemptionsUnderpay`: an accepted upload is paid less than what it locks exactly when it
  was quoted as exempt, is exempt no longer, and was paid less than the full price of its file.
- `HostingInvariant.AddGuardianKeeps`: the pledge handler checks before it waits for the payment. When the row is
  written, waiting guardians are still all on hosted CIDs exactly when the pledged CID is hosted then, and the
  rest of the invariant holds exactly when that CID is not blocked then: a takedown during the payment leaves a
  dormant claim on a blocked CID.
- `Release.NormalizeTwice` and `Release.NobodyCanRelease`: stored policies are normalised again at each
  evaluation. That is harmless exactly when no address was given with two leading `@`; and when every
  address was empty, `@` or `@@`, the stored policy is refused for everyone, the owner included,
  although the file comment says that the owner can always release.
- `Range.ParsePrint`: the parser differs from section 14.1.2 of RFC 9110 exactly for an inverted range that
  starts past the end (416 where the standard ignores it) and for a suffix of an empty file.

## Model

| member | source | states |
|---|---|---|
| Pricing.BillableMB | pricing.js:46-52 | the billed megabytes are at least one and the least number that covers the bytes |
| Pricing.BillableHours | pricing.js:55-61 | zero or negative hours are a bad request; otherwise at least the minimum and the least whole number of hours asked for |
| Pricing.CappedCopies | pricing.js:73-76 | what was asked for, but at least one and at most the node count |
| Pricing.RoundCoinsIsNearest | pricing.js:92-96 | rounding gives the nearest unit, half a unit upward, and is exact on whole units only |
| Pricing.RoundCoinsMonotone | pricing.js:92-96 | rounding keeps the order of amounts |
| Pricing.ChargeIsPrice | pricing.js:105-111 | a charge is megabytes times hours times rate times copies, to the nearest unit |
| Pricing.QuoteIsTheProduct | pricing.js:105-111 | a quote is refused for no bytes or no hours; otherwise it prices the billable megabytes and hours and the deliverable copies at the rate asked for |
| Pricing.QuoteIsNearTheProduct | pricing.js:105-111 | the quoted total is within half a unit of that product, written out |
| Pricing.HoursUsedAreHoursBegun | pricing.js:133 | used hours are the hours begun since the start, and at least one |
| Pricing.RefundIsThePriceOfHoursLeft | pricing.js:121-141 | a refund is the price of the hours not used to the nearest unit, and nothing exactly when that is below the dust limit |
| Pricing.FeeIsItsPercentage | pricing.js:150-157 | the fee on a cancelled pledge is its percentage to the nearest unit; the rest goes back unless it is dust |
| Pricing.ForcedRefundByPolicy | pricing.js:168-174 | innocents get the whole pledge, forfeiters nothing, and pro rata the pledge that never ran or the hours left |
| Pricing.ChargeBound | pricing.js:105-111 | a charge is within half a unit of hours times hourly cost, and equal to it when an hour costs whole units |
| Pricing.ChargeMonotone | pricing.js:105-111 | more hours at a higher hourly cost never cost less |
| Pricing.CappedCopiesIdempotent | pricing.js:73-76 | the refund, which caps the copies again, sees the copies that were sold |
| Pricing.RefundFollowsTimer | pricing.js:127-134 | computed from the start, the refunded hours are the whole hours left on the timer, at most all paid hours but one |
| Pricing.RefundBounds | pricing.js:121-141 | waiting never raises a refund, a permanent claim gets none, and none exceeds the price of all hours but the first |
| Pricing.RefundWithinPayments | pricing.js:121-141 | a refund is at most what was paid less the used hours, up to the rounding of payments and refund |
| Pricing.DormantSplitIsExact | pricing.js:150-157 | refund and kept fee of a cancelled pledge add up to the rounded pledge |
| Pricing.FullDormantRefund | pricing.js:150-157 | without a fee the rounded pledge goes back unless it is dust |
| Pricing.DormantRefundExceedsEscrow | pricing.js:150-157 | exactly when the full refund is more than the pledge |
| Pricing.HalfUnitsRoundUp | pricing.js:92-111 | when an hour costs half units, a charge never falls short of its hours, and no refund of fewer hours exceeds the price of all |
| Pricing.SomeChargeFallsShort | pricing.js:92-111 | any other hourly cost has, from any number of hours on, some number whose charge falls short |
| Pricing.PiecesPayExactlyWhen | pricing.js:105-141 | hours bought in equal pieces can bring back more than they cost exactly when the hourly cost is not made of half units; then in pieces of any least size and for refunds of any least amount |
| HostingRounding.OverRefundExactlyWhen | pricing.js:121-141 | a claim bought and extended in equal pieces can be refunded more than it cost exactly when an hour of it does not cost half units |
| HostingRounding.PiecesRun | server.js:1912-1988 | for all pieces, a run from the empty tables that sells them at their quotes, cancels and refunds: more comes back than was paid exactly when such pieces pay and the refund is not dust |
| Hosting.FindHost | quota.js:418-425 | finds an active pin of the CID if and only if there is one |
| Hosting.LatestPin | quota.js:605-609 | the CID's most recently created pin, live or not |
| Hosting.QueueHead | quota.js:591-596 | the waiting guardian that stands before all others of the CID |
| Hosting.NextPledgeOrder | quota.js:506-511 | one more than the largest slot ever given on the CID, ended guardians included, and one if there is none |
| HostingGate.Gate.RecordPayment | quota.js:317-330 | a transaction id is recorded once; a replay is a conflict and changes nothing |
| HostingGate.Gate.PayUpload | server.js:650-822 | an upload is refused, or its payment recorded with the terms it will lock |
| HostingGate.Gate.CommitUpload | server.js:840-900 | a blocked CID strands the payment; otherwise pin and claim appear together, original or own copy by whether the CID was hosted |
| HostingGate.Gate.BuyOwnCopy | quota.js:636-659 | the payment, then claim and pin on a hosted CID, or a stranded payment on a dead one |
| HostingGate.Gate.Pledge | server.js:1599-1668 | a dormant guardian in the next slot of a hosted, unblocked CID, or the refusal and nothing else |
| HostingGate.Gate.Extend | quota.js:667-684 | hours and expiry of claim and pin move together at the locked rate; a claim that ended strands the payment |
| HostingGate.Gate.Reconcile | quota.js:701-723 | the head of the queue takes over a CID without host; the CID is unpinned when there is none |
| HostingGate.Gate.Cancel | quota.js:740-781 | who may cancel what, the row and pin ended, the baton passed, and the refund owed on the row as it was |
| HostingGate.Gate.Release | quota.js:567-586 | a released claim ends like a cancelled one, without asking for the owner |
| HostingGate.Gate.RemoveHost | server.js:1259-1265 | one host cancelled and its refund row written |
| HostingGate.Gate.DeleteUploads | server.js:1253-1287 | all of the account's active claims on the CID are cancelled, each with its refund row; only the queue's head may change besides; fully unpinned is reported exactly when the CID has no host left |
| HostingGate.Gate.ExpirePins | quota.js:834-845 | the loop over the expiring claims takes down exactly their live pins |
| HostingGate.Gate.ReconcileEach | quota.js:863-869 | the loop reports exactly the CIDs to unpin and the guardians promoted, in the order visited |
| HostingGate.Gate.Sweep | quota.js:822-879 | the sweep is its specification, with its reports, and keeps the invariant |
| HostingGate.Gate.Ban | moderation.js:44-99 | the ban is its specification, with its reports, and keeps the invariant |
| HostingGate.Gate.Takedown | moderation.js:139-175 | the takedown is its specification and keeps the invariant |
| HostingGate.Gate.Settle | server.js:261-338 | the owed refund becomes one ledger row with the amount due now, skipped when nothing is due |
| HostingDelete.CancelOne | quota.js:740-781 | one cancel hands over or unpins exactly when nobody else hosts, and changes no other claim |
| HostingDelete.OneMoreDeleted | server.js:1258-1265 | each round of the delete loop adds one removed host and keeps the account of the rest |
| HostingInvariant.AddHostKeeps | quota.js:465-501 | a new host keeps the invariant |
| HostingInvariant.AddGuardianKeeps | server.js:1625-1658 | a pledge whose checks are stale keeps the core invariant exactly when its CID is not blocked, and the guarding of CIDs exactly when its CID is hosted |
| HostingInvariant.ExtendRowKeeps | quota.js:667-684 | extending keeps the invariant, the timer and the mirror included |
| HostingInvariant.EndKeeps | quota.js:740-781 | ending live claims with their pins keeps the core invariant |
| HostingInvariant.PromoteKeeps | quota.js:704-722 | promoting the head of the queue keeps the core invariant and hosts the CID |
| HostingInvariant.ReconcileKeeps | quota.js:701-723 | reconciling a CID leaves no guardian waiting on it dead |
| HostingInvariant.ReconcileAllRestores | quota.js:863-869 | reconciling every CID that may have lost its host restores the whole invariant |
| HostingEndings.ReconcileAllHere | quota.js:863-869 | each CID of the loop is reconciled as if it were alone |
| HostingEndings.PromotedAreTheNewHosts | quota.js:864-868 | the reported guardians are exactly those who waited and now host, each once |
| HostingEndings.PinPassFindsNothing | quota.js:847-853 | without legacy pins the second pass of the sweep changes no row |
| HostingEndings.SweepPerCid | quota.js:822-879 | per CID: exactly the due claims expire, the head takes over exactly where the last host went, and a CID is listed for unpinning only when it has neither host nor guardian, and always when it just lost both |
| HostingEndings.SweepPins | quota.js:834-853 | exactly the pins past their own clock expire |
| HostingEndings.SweepKeeps | quota.js:822-879 | the sweep keeps the invariant and moves each claim at most once |
| HostingEndings.SweepIdempotent | quota.js:822-879 | a second sweep at the same time changes no row |
| HostingEndings.BanKeeps | moderation.js:44-99 | the ban keeps the invariant and moves each claim at most once |
| HostingEndings.BanIsSurgical | moderation.js:53-99 | exactly the account's live claims are voided and their refunds owed, nobody else's claim changes but a first in line who takes over, exactly the CIDs that someone else funds are hosted afterwards, and exactly those that the account hosted and nobody else funds are reported for unpinning |
| HostingEndings.TakedownKeeps | moderation.js:144-175 | the takedown keeps the invariant and moves each claim at most once |
| HostingEndings.TakedownIsTotal | moderation.js:144-175 | no live claim and no live pin is left on the CID, waiting guardians are owed as innocent, and no other CID changes |
| HostingRuns.UploadKeeps | server.js:840-900 | committing an upload keeps the invariant |
| HostingRuns.OwnCopyKeeps | quota.js:636-659 | buying an own copy keeps the invariant |
| HostingRuns.HostedIsNotBlocked | quota.js:639-641 | a hosted CID is not blocked, so an own copy needs no block check when it commits |
| HostingRuns.PledgeKeeps | server.js:1599-1658 | pledging keeps the invariant |
| HostingRuns.ExtendKeeps | server.js:1912-1988 | extending keeps the invariant |
| HostingRuns.CancelKeeps | quota.js:740-781 | cancelling keeps the invariant |
| HostingRuns.ReleaseKeeps | quota.js:567-586 | releasing keeps the invariant |
| HostingRuns.SettleKeeps | server.js:261-338 | writing a refund down keeps the invariant |
| HostingRuns.CrashKeeps | server.js:827-837 | a restart keeps the invariant |
| HostingRuns.StepKeeps | quota.js:465-879 | every event keeps the invariant and moves each claim at most once |
| HostingRuns.RunKeeps | quota.js:465-879 | the invariant holds in every state of every run |
| HostingRuns.ClaimsPersist | quota.js:567-879 | rows stay, ended claims stay as they are, promoted claims keep pin and start |
| HostingRuns.ClaimEndsOnce | quota.js:740-781 | over any run a claim only moves dormant to active to cancelled or expired, or dormant to cancelled; it has at most one refund row, and none if it expired |
| HostingRuns.PromotionsPassNobody | quota.js:591-596 | nobody is promoted over the head of a guardian still waiting |
| HostingRuns.PromotionsAreFifo | quota.js:701-723 | over any run the guardians promoted on a CID have strictly increasing slots, one at a time |
| HostingRuns.OneBatonHolder | server.js:855-856 | at most one active claim of a CID is not an own copy |
| HostingRuns.BatonsNeverOverlap | quota.js:701-723 | the hosting times of successive originals and guardians of a CID never overlap |
| HostingRuns.AliveWhileFunded | quota.js:855-869 | a CID with a waiting guardian has an active claim with an active pin |
| HostingRuns.LastHostGoesWithEmptyQueue | quota.js:701-723 | whatever ends the last host of a CID, nobody is left waiting |
| HostingRuns.BlockedStaysDead | moderation.js:146-163 | while a CID stays blocked it has no live claim and no live pin |
| HostingRuns.ClaimsMirrorPins | quota.js:364-375 | active claims and active pins match one to one in CID, owner, size and expiry, and the active bytes are the active claims' bytes |
| HostingRuns.TimerFollowsHours | quota.js:674-676 | expiry is start plus paid hours for every active claim that is not permanent, so timer and refund agree at every moment |
| HostingOutcomes.OnlyEntitledEnd | quota.js:740-781 | over any run a live claim is cancelled only by its owner, an admin, a release, a ban of its owner or a takedown of its CID, and expires only in a sweep past its timer |
| HostingOutcomes.CancelRefused | quota.js:742-751 | a cancel of an unknown claim, by another account, or of an ended claim is refused with its code and changes nothing |
| HostingOutcomes.CancelOutcome | quota.js:753-779 | a cancel that may be ends its claim and pin, owes its refund to whom it is due, passes the baton or reports the CID, and changes nothing else |
| HostingOutcomes.ReleaseOutcome | quota.js:567-586 | a release ends an active claim as its owner's cancel would, and refuses any other |
| HostingOutcomes.BanMarks | moderation.js:53-75 | exactly the account's live pins are marked banned, and the account is on the list |
| HostingOutcomes.TakedownMarks | moderation.js:144-163 | exactly the CID's live pins are marked taken down, and the CID is on the list |
| HostingOutcomes.LiftOutcome | moderation.js:112-126 | lifting a ban or a block takes exactly that entry off its list and brings nothing back |
| HostingOutcomes.CrashOutcome | server.js:827-837 | a restart loses uploads under way and refunds not yet written, and nothing that is in a table |
| HostingOutcomes.ReserveOutcome | server.js:544-564 | the quote of a reservation, with the hours that a permanent gate sells |
| HostingOutcomes.PayUploadOutcome | server.js:700-822 | exactly which uploads are accepted, and the terms that their payment keeps |
| HostingOutcomes.CommitUploadOutcome | server.js:840-900 | the claim of an upload has every column that was quoted, and is an original exactly when the CID was not hosted |
| HostingOutcomes.OwnCopyOutcome | server.js:1829-1853 | exactly which own copies are sold, at what price, and every column of the claim |
| HostingOutcomes.PledgeOutcome | server.js:1609-1658 | exactly which pledges are taken, at what price, and every column of the guardian |
| HostingOutcomes.ExtendOutcome | server.js:1918-1988 | exactly which extensions are sold, at what price, and that hours and both timers grow by what was asked |
| HostingOutcomes.BannedBuyNothing | server.js:1609 | a banned account's upload or pledge changes nothing, whatever it pays |
| HostingOutcomes.DueIsDueBack | server.js:320-338 | the refund that is settled is the one due by row, timer and who ended the claim |
| HostingOutcomes.SettleOutcome | server.js:261-277 | one ledger row for the owner with the amount due, skipped exactly when that is nothing |
| HostingOutcomes.SettledInRun | server.js:261-338 | so in every run, whoever ended the claim |
| HostingOutcomes.UserCancelIsRefunded | server.js:1319-1320 | over any run, the ledger row of an owner's cancel carries what the claim is due, for a host at least the price of the hours left less half a unit, unless that is dust |
| HostingMoney.DueWithinDraw | server.js:320-338 | no refund, whatever its reason and time, exceeds the most the claim can draw |
| HostingMoney.ClaimSolvent | server.js:261-338 | what went back for a claim and what still can are within its payments and its rounding slack |
| HostingMoney.OrderCovered | server.js:504-568 | a payment that meets the reserved quote covers what the upload locks, unless an exemption lapsed |
| HostingMoney.OnlyLapsedExemptionsUnderpay | server.js:695-700 | an accepted upload underpays exactly when its exemption lapsed and less than the full price was paid |
| HostingMoney.EmptyIsSound | quota.js:34-67 | the empty tables satisfy both invariants, so runs can start |
| HostingMoney.StepKeepsMoney | server.js:261-338 | every event keeps every claim funded and every refund row within its claim |
| HostingMoney.RunKeepsMoney | quota.js:317-330 | so does every run |
| HostingMoney.Solvency | pricing.js:105-174 | in every state of a run, payments less refunds cover all that live claims and owed refunds can still draw, up to rounding slack |
| HostingMoney.SolvencyExact | pricing.js:105-174 | without any slack when no pledge that never hosted rounds up and every hosted hour costs half units |
| HostingMoney.ClaimSolventExactly | pricing.js:105-174 | each claim alone: over-refunded only when rounding favours it; a waiting pledge exactly when it rounds up; no hosted claim at a rate of half units |
| HostingMoney.ClaimNeverOverRefunded | quota.js:356-360 | no claim is ever refunded more than the payments recorded under it, up to rounding slack |
| HostingMoney.RefundWithinPaymentsMade | pricing.js:121-141 | over any run, the refund of a claim bought and extended with n payments is at most what was paid less the used hours, plus n+1 half units; plus one when an hour costs half units, and exactly for whole units |
| Settlement.BoxMode.EnqueueRow | escrow-settlement-queue.js:50-53 | exactly one caller inserts a claim's row; the others change nothing |
| Settlement.BoxMode.PendingRows | escrow-settlement-queue.js:41 | exactly the waiting rows, each once, oldest first |
| Settlement.BoxMode.MarkTerminal | escrow-settlement-queue.js:59-69 | true exactly for the call that moves the row out of waiting, and stores its receipt |
| Settlement.BoxMode.UpdateReceipt | escrow-settlement-queue.js:73-75 | only the stored receipt changes |
| Settlement.BoxMode.MarkRefundSettled | quota.js:799-804 | status and transaction of the named refund row, whatever they were |
| Settlement.BoxMode.FinalizeRefund | server.js:2461-2471 | failed, sent or skipped by the receipt; a pending receipt or one without refund row changes nothing |
| Settlement.BoxMode.Handle | escrow-box-mode.js:71-114 | a receipt that does not verify or is not awaited changes nothing; a first one marks the row, a definitive one after a pending one completes it, and each of these calls its handler |
| Settlement.BoxMode.PublishRow | escrow-box-mode.js:118-127 | without a key nothing is published; otherwise the attempt is counted and the row's own facts go out |
| Settlement.BoxMode.DrainOnce | escrow-box-mode.js:130-134 | every waiting row is tried, oldest first |
| Settlement.BoxMode.BroadcastRefund | server.js:261-292 | a refund row, and for a positive amount one report per claim |
| Settlement.InsertByAge | escrow-settlement-queue.js:41 | the rows stay sorted by age, one more among them |
| Settlement.PublishOutcome | escrow-box-mode.js:118-127 | a report goes out exactly when the transport is up or its key is there, the signing key is there and the relays accept; the row counts the attempt when it was signed |
| Settlement.DrainPublishes | escrow-box-mode.js:130-134 | a drain whose attempts get through publishes the report of every row it tries, in order |
| Settlement.DrainReachesEveryWaitingRow | escrow-box-mode.js:130-134 | such a drain has published every waiting row's report, counted the attempt, and left the row waiting |
| Settlement.BroadcastOutcome | server.js:261-292 | which refund row and which queue row a refund starts, and that the queue row names the refund row |
| Settlement.OutcomeByVerdict | server.js:2461-2471 | failed without transaction, sent or skipped by the amount, with its transaction; anything else leaves the row |
| SettlementRuns.ReceiptKeeps | escrow-box-mode.js:71-114 | a receipt keeps the node's invariant and what is on disk |
| SettlementRuns.StepKeeps | escrow-box-mode.js:71-157 | every event, with any box, keeps the node's invariant and what is on disk |
| SettlementRuns.BoxStepKeeps | escrow-box-mode.js:71-157 | every event with a sound box keeps one pending and one definitive receipt per claim, and one act per nonce |
| SettlementRuns.FiresAtMostOnce | escrow-box-mode.js:80-113 | under any box, drains, crashes and deliveries, onSettled and onCompleted are each called at most once per claim, the latter only after a receipt that said pending |
| SettlementRuns.FiresExactlyOnce | escrow-box-mode.js:83-91 | with no crash between its own mark and handler, a terminal row has called onSettled exactly once |
| SettlementRuns.RowTellsItsHistory | escrow-settlement-queue.js:59-75 | a queue row waits while no receipt has counted, stores the last that did, and is parked exactly when the first said failed |
| SettlementRuns.RefundSettlesOnce | quota.js:799-804 | with any box, a refund row leaves pending at most once, although the UPDATE has no guard |
| SettlementRuns.ReportsAreStable | escrow-box-mode.js:118-157 | all reports published for a claim are the same, under its one nonce, and the claim was enqueued |
| SettlementRuns.WaitsForReceipt | escrow-settlement-queue.js:40-45 | a row stays waiting until a verified receipt for it is delivered |
| SettlementRuns.DisbursesOnce | escrow-report.js:47 | a box that acts once per nonce acts at most once per claim, and on enqueued claims only |
| SettlementRuns.DefinitiveReceiptDecides | escrow-box-mode.js:83-112 | once the box's definitive receipt is delivered, the row stores it and the refund row shows it, whatever came before or comes after |
| SettlementRuns.StoredIsDeciding | escrow-box-mode.js:83-112 | for any box and any deliveries: the first verified receipt counts, unless it says pending and a definitive one follows |
| SettlementRuns.DeliveriesConfluent | escrow-box-mode.js:83-112 | any two deliveries that include the one definitive receipt agree on stored receipt and refund row |
| Backfill.Migrate | migrations/006_guardian.sql:49-75 | the rebuilt table with its slots, filled in place |
| Backfill.CountNotAfter | migrations/006_guardian.sql:70-75 | the count taken while slots are being written is the row's rank |
| Backfill.MigratedRow | migrations/006_guardian.sql:49-63 | a backstop becomes a guardian with a slot and its payment as budget; every other column stays |
| Backfill.RanksAreOneToN | migrations/006_guardian.sql:68-75 | the guardians of a CID get the slots 1 to n, each once |
| Backfill.RankMonotone | migrations/006_guardian.sql:68-75 | slots follow creation time and rowid strictly |
| Backfill.QueueOrderKept | quota.js:591-596 | sorted by slot, the queue is the old queue |
| Backfill.QueueHeadKept | quota.js:591-596 | the head of the queue is the oldest waiting backstop |
| Backfill.NextSlotFollows | quota.js:506-511 | the next slot handed out is n+1 |
| Backfill.MigratedQueues | migrations/006_guardian.sql:68-75 | where backstops were promoted in order, the migrated queues satisfy the gate's invariant |
| Release.ReleaseDesk.Decide | release-policy.js:37-59 | what the endpoints do with a decision: consent recorded, claim ended, or neither |
| Release.ReleaseDesk.PostRelease | server.js:1352-1425 | the release endpoint is its specification, refusals included |
| Release.ReleaseDesk.PostReceipt | server.js:1439-1529 | the receipt endpoint is its specification, refusals included |
| Release.UnheardIsRefused | server.js:1367-1368 | an attempt that is unsigned, not from a well-formed account, or without the order's hash is refused with its code and changes nothing |
| Release.HeardIsAnswered | server.js:1381-1405 | what is answered to whom, and that a receipt is recorded |
| Release.ReceiptsAreProofs | server.js:1467-1472 | the receipts kept are exactly the accounts that proved the plaintext, whatever the policy |
| Release.ReleaseTrace | release-policy.js:37-59 | after any attempts in any order the claim is active exactly while not enough accounts have been heard |
| Release.EndsAtTheFirst | server.js:1399-1405 | the claim ends at the first attempt that completes the set and at no other |
| Release.ArrivalOrderIsIrrelevant | server.js:1373-1386 | two histories in which the same accounts got through leave the same state |
| Release.OnlyOwnerEnds | release-policy.js:42-47 | an owner_only order is ended exactly by its owner |
| Release.AddressMembers | release-policy.js:21-22 | the stored addresses are the canonical forms of those given |
| Release.AddressesAreClean | release-policy.js:21-22 | stored addresses are lower case, not empty, and each there once |
| Release.NormalizeTwice | release-policy.js:38 | normalising again changes nothing exactly when no address had two leading '@' |
| Release.AcceptedPolicyTrace | release-policy.js:15-59 | such an order is ended exactly by the accounts its owner listed, or the owner |
| Release.NobodyCanRelease | release-policy.js:23-25 | exactly when an accepted policy is later refused for everyone |
| Release.OwnerLockedOut | release-policy.js:37-44 | a concrete policy under which the owner cannot release |
| Range.SatisfiableIsWithin | range.js:16-49 | every range answered lies within the file |
| Range.OnlyOneRangeCounts | range.js:19-29 | only a single range of digits and a dash is ever honoured |
| Range.ParsePrint | range.js:24-48 | printed and parsed, the three forms mean what section 14.1.2 of RFC 9110 says, except exactly where named |
| Range.PaddingIsIgnored | range.js:21 | spaces around a range do not change what it means |
| Range.HeadHasNoBody | server.js:1075-1080 | HEAD is answered like GET, without the body |
| Range.LengthIsKept | server.js:1058-1085 | the promised Content-Length is the number of bytes sent, and they are the bytes that Content-Range names |
| Range.RangesStitchTheFile | server.js:1065-1085 | for every file and chunk size the consecutive requests give exactly the file, and the next is answered 416 |
| Range.ResumeCompletes | backends/kubo.js:263-266 | a broken download is completed by asking for the rest |

## Left out

- HostingGate.Gate.DeleteUploads: no other request runs between the cancels and settlements of one delete; the handler waits for the broadcast there. Each cancel and each settlement alone may interleave with anything (`HostingRuns.StepKeeps`).
- HostingGate.Gate.BuyOwnCopy: the checks made before the payment (ban, block, host) are only those that the commit repeats; the quote uses the size that the CID determines.
- HostingGate.Gate.Extend: a claim that ends while its extension is being paid for strands the payment; the permanent check made before the payment is taken at the commit.
- HostingGate.Gate.Pledge: the hosted, blocked and banned checks are one step with the insert. `HostingInvariant.AddGuardianKeeps` says exactly what the hosted and blocked checks are for. The banned check protects no result here: an account banned while it pays keeps a live pledge, as in the code.
- HostingGate.Gate.PayUpload: the refusals for the state of the reservation, the whitelist and the upload signature are not modelled; they record nothing.
- Release.ReleaseDesk.PostRelease: an unknown order and a stale timestamp are not modelled; both are refused before anything else is read.
- Release.ReleaseDesk.PostReceipt: likewise.
- Settlement.BoxMode.DrainOnce: other handlers between two rows of a drain are covered by the events of `SettlementRuns`, where any row read earlier may be published at any later point.
- HostingMoney.Solvency: carries a slack for claims that rounding favours, which is half a unit for a pledge that rounds up and half a unit for each payment and the refund of a host whose hours cost no half units; `HostingMoney.SolvencyExact` has none. Runs that accept an underpaid upload are excluded, and `HostingMoney.OnlyLapsedExemptionsUnderpay` says which those are.
- HostingRounding.OverRefundExactlyWhen: how many pieces it takes depends on the hourly cost, and the claim must expire before the year 9999, so the start is chosen early enough; `HostingRounding.PiecesRun` starts at time zero and asks that the hours fit.
- Sizes: a CID determines the number of its bytes, as content addresses do; the tables repeat it per row.
- A claim extended past the year 9999 counts as permanent and draws no refund, as in the code.
- Payments are exact reals; the errors of IEEE floating point in prices and hours are not modelled.
- `MB_DIVISOR` is 1,000,000 everywhere, because the own-copy path fixes it; one currency.
- Clock readings within one synchronous section are one reading.
- Legacy pins without a claim, and `importTakedowns`, which drops the claims it voids.
- Reservations: their expiry, limits and pending bytes; disk limits and the whitelist's quotas.
- Orders as rows, host gates, modes, MIME types, the audit log and the listing endpoints.
- Agreement between Kubo's physical pins and the tables; unpinning happens after the transaction.
- Verification of payments, signatures and receipts: outcomes are parameters of the steps.
- `settlePayment`, which nothing calls, and the in-process half of the report seam.
- Refunds that the node broadcasts itself with its own key; `settled_ts`; corrupt JSON in the queue.
- The settlement model names claims by reference and does not share rows with the hosting model; that a claim is settled at most once there is `HostingRuns.ClaimEndsOnce`.
- Receipts lost between queue mark and handler in a crash: the code gives at most once there, and so does the model.
- Lower-casing beyond ASCII; numbers in a Range header beyond 2^53, which the parser rounds.
- The 404 and 451 answers of the gateway and its caching and type headers.
