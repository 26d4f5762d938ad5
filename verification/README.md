# Vencura custody, verified

A Dafny model of the Vencura wallet API: wallets of a group share one on-chain address, and the
service keeps their balances, sends for them, scans for their deposits and settles what was mined.
The project states what that bookkeeping promises and proves it, for every input, run and
interleaving.

`dafny verify dfyconfig.toml` checks everything.

## How it is built

- `Ledger.dfy` says what one transaction body does to the rows of a group; `LedgerService.dfy` has
  those bodies as imperative methods, row by row, each proved to have exactly that effect.
- `World.dfy` adds the chain, stale reconciler copies and deposit scans, and makes each body one
  event. `Invariant.dfy`, `Conservation.dfy`, `Custody.dfy` and `Solvency.dfy` prove what holds in
  every state of every run.
- `Interleaving.dfy` runs bodies statement by statement under advisory locks and proves that this is
  the same as running them one after another. `Bodies.dfy` writes the service's bodies as such
  statements and proves each to be one ledger step with the answers the node gave it.
  `Composition.dfy` puts both halves together: the committed rows of a group, under any
  interleaving, are the tables of a reachable state of `World.dfy`.
- `OnChain.dfy` reads off a signed transaction what it moves on chain, and compares it with what the
  send did to the wallet's rows. `Reconciling.dfy` shows that a reconciler run is a run of `World.dfy`.
- `ContractTokens.dfy` is about the token rows that contract settlements move.
- `LateRows.dfy` adds the steps `World.dfy` leaves out: a send's broadcast and its row taken apart, so
  that the row may be lost, transfers that overdraw their target, contract writes of negative value,
  sends dropped after their broadcast, and transactions the node forgets. `Limits.dfy` shows that each
  of them breaks solvency and that nothing else does. `AnyAnswers.dfy` ties both to the interleaved
  bodies, whatever answers those get and wherever they are aborted.
- `Deposits.dfy` and `Scanner.dfy` are the deposit scanner: what a scan means, and the loops.
  `ScanRuns.dfy` shows that what a scan inserts and credits is a run of `World.dfy`.
- `LogNetting.dfy`, `LockKeys.dfy`, `Names.dfy`, `Sessions.dfy` and `Decimal.dfy` are the receipt-log
  netting, the lock keys, the name search and guards, the connected-wallet sessions and the amount
  printer.

Amounts are unbounded integers, as the source's `bigint` is.

What the world assumes of its surroundings, written into `World.Enabled`: the chain mines the
address's transactions in nonce order (section 6 of the Ethereum Yellow Paper) and its pending count
lies between mined and broadcast; gas used and gas price are at most what was quoted; a rejected
broadcast never enters the mempool, and a transaction that offers no gas price is rejected; blocks and
receipts do not change; a payment of ether to the address does not fail on chain; callers pass no
nonce of their own, and nobody else signs with the key. Amounts and gas prices that callers pass may
be negative.

Five more things are built into the events of `World.dfy`: the row of a broadcast is written together
with it; no transfer takes more ether out of its target than is there; no contract write that is
broadcast asks for a negative value; no transaction is dropped, by a timeout or a crash, after its
broadcast; and the node still returns a mined transaction when its row is settled. `LateRows.dfy`
drops all five. Runs in which none of them fails are runs of `World.dfy`,
and `Limits.dfy` shows that solvency needs each of them.

## What the proofs found

- Deposit deduplication is per wallet, but a group has one address. The scheduled run credits a
  group's oldest wallet, the manual run credits whichever wallet the user asks for. Two overlapping
  scans for two wallets of a group both credit the same deposit (`TwoScanningWalletsBreakSolvency`).
- Even one scanning wallet is not enough when it pays the group's own address. Scans insert rows
  outside the lock, under the unique key that a send's row will need. If the payment is mined and
  scanned before its row is written, that write fails and the transaction rolls back: the payment has
  no row and no reservation, and is credited as a deposit (`LateRowBreaksSolvency`).
- The transfer guard has no lower bound. A negative amount overdraws the target exactly when it
  exceeds what the target holds (`TransferOverdrawsIff`), and if the target has a send in flight, the
  settlement of that send meets the clamp at zero and ether is promised that the address does not hold
  (`OverdraftBreaksSolvency`).
- A contract write accepts a negative value. The transaction carries none, but the reservation is the
  value plus gas, so the write raises the wallet's row. Once that is spent, its settlement clamps at
  zero and ether is promised that the address does not hold (`NegativeWriteBreaksSolvency`). A
  reservation covers what mining may take exactly when the value is not negative (`HoldCoversIff`).
- Solvency holds in all runs exactly when at most one wallet of the group is scanned for, no wallet
  that is scanned for pays the group's own address, no transfer of ether overdraws its target, no
  contract write carries a negative value, no transaction is dropped after its broadcast, and the node
  forgets none (`Limits.AlwaysSolventIff`). Inside `World.dfy` the first condition is enough
  (`Solvency.AlwaysSolventIffOneScans`).
- A scan that records a deposit and throws or dies before crediting it loses the credit for good for
  the wallet the row names: a later scan for that wallet sees the row and skips it. Recorded deposits are lost in exactly the runs in which that
  happens (`RecordedDepositsAreLostIff`). The promise is at most once, not exactly once.
- A token that a wallet sends to its own group's address stops every later scan for that wallet of a
  window with that block: the scanner looks for the row under the block's spelling of the token
  address, does not find the send's row under the checksum spelling, and violates the unique key. A
  scan for another wallet of the group passes the block (`TokenSelfSendStopsTheScan`;
  `ScanCompletesIff` gives the exact condition). If it is its group's primary wallet, every scheduled
  run that reaches the block throws there, and the groups listed after it are no longer scanned
  (`TokenSelfSendStopsTheRun`).
- Token rows that contract settlements move depend on the order of settlements when one of them clamps
  at zero (`ClampDependsOnOrder`), and only then (`UnclampedSettlementIsConfluent`).
- A database timeout, or a crash, after a broadcast leaves no row, and the next send reuses the lost nonce exactly
  while the node has not seen it (`TimeoutReusesNonce`).
- The guard on wallet names looks at stored keys only, unlike the one on group names, so it misses
  rows written before keys were stored (`WalletGuardMissesUnkeyed`); `NamesStayUnique` gives the exact
  condition.
- Revoking the token of one login ends the session of another exactly when both are of one address
  and made their tokens in the same millisecond (`RevokingEndsOtherLoginIff`); `SharedTokenEndsBoth`
  is a history in which it happens.

## Model

| member | source | states |
|---|---|---|
| Interleaving.LockReduction | apps/api/src/lib/pgLock.ts:10-26 | every interleaving of bodies under their groups' locks, aborts by timeout or crash included, leaves the database of running the finished bodies one after another in the order they end, and at every moment a lock holder has read what is stored now; lock-id collisions included |
| Interleaving.ReducedKept | apps/api/src/lib/pgLock.ts:16-26 | beginning, stepping, committing, rolling back and aborting each keep that correspondence |
| Bodies.InterleavingsAreLedgerSteps | apps/api/src/services/transactionService.ts:66-162 | any interleaving of sends, contract writes, settlements, transfers and credits is a sequence of ledger steps, each on its own group's rows and with the answers its body got |
| Bodies.SendBodyIsSend | apps/api/src/services/transactionService.ts:186-331 | a send body run alone is the one Send step of its quote, pending count and broadcast outcome; it rolls back exactly when its guards refuse or the unique index refuses the row of its broadcast |
| Bodies.SettleBodyIsSettle | apps/api/src/services/transactionService.ts:608-645 | a settlement body run alone is the one Settle step of its copy and receipt |
| Bodies.TransferBodyIsTransfer | apps/api/src/services/transactionService.ts:713-789 | a transfer body run alone is the one Transfer step |
| Bodies.CreditBodyIsCredit | apps/api/src/services/depositDetector.ts:336-355 | a scan's credit body run alone is the one Credit step |
| Bodies.JobConfined | apps/api/src/services/transactionService.ts:699-711 | every body names only rows of wallets in the group it locked |
| Composition.InterleavedGroupsAreReachable | apps/api/src/lib/pgLock.ts:10-26 | under any interleaving, if the chain's events, scans and new wallets around a group can be placed among the finished bodies so that its bodies got fair answers, its custody world has a run to a state whose tables are its committed rows, so these have the invariant; transfers may be negative as long as they overdraw nobody |
| LockKeys.LockKeysSeparateGroups | apps/api/src/services/txHelpers.ts:4-6 | two callers build the same lock key exactly when their wallets share a group, or are one ungrouped wallet; the key written out elsewhere is the same text |
| Invariant.NextNonceContinues | apps/api/src/services/txHelpers.ts:24-48 | the allocator continues a gap-free run of nonces exactly when the node has seen all of it or its last one is still reserved by a row in flight |
| Custody.NoncesAreGapFree | apps/api/src/services/txHelpers.ts:24-48 | in every run the n-th broadcast has nonce n, no two rows share one, and the next nonce is the number of broadcasts, whatever failed or settled out of order in between |
| Custody.TimeoutReusesNonce | apps/api/src/lib/pgLock.ts:21-24 | after a transaction that timed out past its broadcast, the next send reuses its nonce exactly while the node's pending count does not include it |
| Invariant.FailedBroadcastRestores | apps/api/src/services/transactionService.ts:151-161 | a rejected broadcast leaves every balance as it was |
| Invariant.SettlingIsExact | apps/api/src/services/transactionService.ts:615-623 | in every state of the custody world the clamp of safeSubtract is unreachable: a settlement returns the whole reservation, takes exactly the mined cost, touches no other wallet and sets the row's status |
| Invariant.CostWithinHold | apps/api/src/services/transactionService.ts:93-119 | in the custody world the mined cost of a native, token or contract send is at most what it reserved |
| Invariant.SettledTokens | apps/api/src/services/transactionService.ts:625-639 | away from contract settlements, settling moves a token row exactly when the send failed on chain, and then gives back what the send had taken from that same row |
| Custody.RefundIsExact | apps/api/src/services/transactionService.ts:615-635 | in the custody world a send and its settlement together change the wallet by minus the real cost, whatever happens to it in between; a failed token send returns its tokens |
| Custody.SettledRowsAreFinal | apps/api/src/services/transactionService.ts:606-613 | no committed row is PENDING, and a CONFIRMED or FAILED row never changes again |
| Custody.SettlementIsConfluent | apps/api/src/services/transactionService.ts:650-683 | any two runs of any number of reconcilers, in any order and from any stale copies, that leave nothing in flight leave the same rows, the same ether, and the same tokens wherever no contract settlement reached |
| ContractTokens.UnclampedSettlementIsConfluent | apps/api/src/services/transactionService.ts:557-585 | and the same tokens everywhere, contract settlements included, when none of them clamps at zero |
| ContractTokens.ClampDependsOnOrder | apps/api/src/services/transactionService.ts:575-581 | with a clamp two settlements in different order leave different token balances |
| Custody.BalanceIsReplayedHistory | apps/api/src/services/transactionService.ts:753-786 | in every run each balance no contract settlement reached equals its opening value plus its rows' effects and its credits |
| Conservation.InvKept | apps/api/src/services/transactionService.ts:100-161 | every event keeps the whole invariant: nonces, rows, copies, scans, replayed history and conservation |
| Conservation.ConservedKept | apps/api/src/services/transactionService.ts:615-623 | every event conserves the address's ether: promised, never promised, and arrived but not credited |
| Solvency.SolventIff | apps/api/src/services/depositDetector.ts:338-343 | a reachable state is solvent exactly when the ether credited is covered by deposits that arrived and ether nobody was promised |
| Solvency.SolventWithOneScanningWallet | apps/api/src/services/transactionService.ts:93-119 | in the custody world, when all scans of a group credit one wallet, what its rows promise never exceeds what the address holds |
| Solvency.TwoScanningWalletsBreakSolvency | apps/api/src/services/depositDetector.ts:255-261 | for any two wallets of a group a run from an empty group credits one deposit of five twice |
| Solvency.AlwaysSolventIffOneScans | apps/api/src/services/depositDetector.ts:442-463 | in the custody world solvency holds in all runs exactly when at most one wallet of the group ever scans |
| LateRows.ClashFreeRunsAreRuns | apps/api/src/services/transactionService.ts:121-150 | a run in which sends write their rows late, with chain, scans and new wallets in between, is a run of the custody world as long as no scan takes the key of a send in progress |
| LateRows.ClashIff | apps/api/prisma/schema.prisma:84 | a send's row is lost exactly when a scan has recorded its hash for its own wallet, which takes a mined payment to the group's own address by a wallet that is scanned for |
| Limits.LateRowBreaksSolvency | apps/api/src/services/transactionService.ts:137-161 | for every wallet a run in which it is scanned for and pays the group's own address leaves fifteen promised out of nine and no row of the payment |
| Limits.OverdraftBreaksSolvency | apps/api/src/services/transactionService.ts:739-786 | for any two wallets a run with a negative transfer that overdraws one of them while its send is in flight leaves ten promised out of five |
| Limits.DropBreaksSolvency | apps/api/src/lib/pgLock.ts:21-24 | a run with a transaction dropped after its broadcast leaves ten promised out of four |
| Limits.ForgettingBreaksSolvency | apps/api/src/services/transactionService.ts:600-621 | a run in which the node no longer returns the mined transaction, so that its value reads as zero, leaves nine promised out of four |
| Limits.NegativeWriteBreaksSolvency | apps/api/src/services/contractService.ts:101-170 | for any two wallets a run with one contract write of negative value, and otherwise nothing out of order, leaves fourteen promised out of nine |
| Limits.AlwaysSolventIff | apps/api/src/services/transactionService.ts:93-119 | solvency holds in all runs exactly when at most one wallet is scanned for, none of those pays the group's own address, no ether transfer overdraws its target, no contract write carries a negative value, no transaction is dropped after its broadcast, and the node forgets none |
| AnyAnswers.InterleavingsAreActs | apps/api/src/lib/pgLock.ts:10-26 | under any interleaving, with refused rows, overdrawing transfers, negative writes, forgotten transactions and aborted bodies, a group's committed rows are those of a run with late rows, whenever the bodies can be placed among what surrounds them so that their answers were possible |
| AnyAnswers.InterleavingsStaySolvent | apps/api/src/lib/pgLock.ts:10-26 | so a group that starts covered stays solvent through every interleaving within the conditions of AlwaysSolventIff |
| Solvency.CreditedAtMostOnce | apps/api/prisma/schema.prisma:84 | under any interleaving of scans and crashes each wallet, hash and asset type is credited at most once, and only from a recorded row |
| Solvency.ForgottenStaysForgotten | apps/api/src/services/depositDetector.ts:255-279 | a recorded deposit that no live scan owes is never credited afterwards |
| Solvency.DyingScanForgets | apps/api/src/services/depositDetector.ts:334-355 | a scan that dies between recording and crediting leaves all its deposits in that state; RecordedDepositsAreLostIff has the converse |
| Solvency.RecordedDepositsAreLostIff | apps/api/src/services/depositDetector.ts:255-360 | in every run some recorded deposit is lost for good exactly when some scan dies between recording a deposit and crediting it |
| ScanRuns.ScanIsRun | apps/api/src/services/depositDetector.ts:241-355 | the inserts and the credit of a completed scan are events of the custody world, and leave the balances the scanner leaves |
| Ledger.MaxSendIsTight | apps/api/src/services/transactionService.ts:425-428 | at the gas a send is quoted, a positive amount passes both guards exactly up to the maximum; a maximum offered at another gas figure passes exactly when the send's gas is no higher |
| Ledger.MaxTokenSendIsTight | apps/api/src/services/transactionService.ts:395-408 | a token send with gas and tokens on chain passes exactly up to the whole row, and the offered row passes exactly when it has them |
| Ledger.HoldCoversIff | apps/api/src/services/contractService.ts:120-157 | a reservation covers whatever mining within its quote may take exactly when the value asked for is not negative |
| LedgerService.Client.SendTransaction | apps/api/src/services/transactionService.ts:66-162 | an ether send leaves exactly the Send state, or the old one when the index refuses its row, and returns the hash, row and nonce or why there are none |
| LedgerService.Client.SendErc20Transaction | apps/api/src/services/transactionService.ts:186-331 | the same for a token send, with its five guards in order |
| OnChain.TokenSendMovesWhatItTook | apps/api/src/services/transactionService.ts:286-306 | the transaction of an accepted token send moves, of that token and to the account asked for, exactly what the wallet's row of the token lost, and nothing of any other token, to anybody else, or in ether |
| OnChain.EtherSendMovesWhatItTook | apps/api/src/services/contractService.ts:173-194 | an ether send moves its amount to the account asked for and carries no data; a contract write calls the account asked for with the order's data; beyond gas at the full limit the ether row lost what is moved, exactly when the value is not negative |
| OnChain.SendAdds | apps/api/src/services/transactionService.ts:108-143 | the row an accepted send leaves: its wallet, kind, token and amount, and the hash and nonce of its transaction |
| LedgerService.SuccessNamesTheRow | apps/api/src/services/transactionService.ts:140-150 | a send past its guards succeeds exactly when it is accepted and its row can be written, and names that row, its hash and its nonce |
| Ledger.GuardsPassIff | apps/api/src/services/transactionService.ts:80-98 | a send that can be encoded passes its guards exactly when nothing it draws on would go below zero, on chain or in the wallet's rows, and a token is tracked |
| Ledger.RefusalIsTrue | apps/api/src/services/transactionService.ts:192-252 | the reason a send is refused for is true of it |
| Ledger.AssetsAreAccounts | apps/api/src/services/assetService.ts:38-41 | two spellings of a token address name one asset row exactly when they name one account |
| Ledger.SafeSubtractStops | apps/api/src/services/transactionService.ts:41-50 | a charge the balance covers is taken exactly, one it does not cover leaves zero, and a negative one changes nothing |
| LedgerService.Client.Broadcast | apps/api/src/services/contractService.ts:172-218 | past the reservation, an accepted broadcast only marks its row unless the index refuses that, and a rejected one restores the rows it lowered |
| LedgerService.Client.GetNextNonce | apps/api/src/services/txHelpers.ts:24-48 | the loop over rows in flight computes the next nonce |
| LedgerService.Client.ReconcileRecord | apps/api/src/services/transactionService.ts:587-648 | reconciling a row from a stale copy has the effect of Settle, and nothing without a receipt |
| LedgerService.Client.ApplyContractTokenDeltas | apps/api/src/services/transactionService.ts:569-584 | the loop over net deltas moves each token row once, never below zero |
| LedgerService.Client.ReconcileBroadcasting | apps/api/src/services/transactionService.ts:650-683 | a reconciler run settles the oldest open rows up to its limit, each from its copy, each if it is mined |
| LedgerService.ReconcilerSettlesOldestOpen | apps/api/src/services/transactionService.ts:657-672 | after a reconciler run a row's status has changed exactly when it was BROADCASTING with a hash, fewer such rows than the limit came before it, and it is mined |
| LedgerService.UnlimitedRunLeavesNoneBehind | apps/api/src/services/transactionService.ts:650-683 | a run whose limit is no smaller than the log leaves no mined row in flight |
| Reconciling.ReconcilerIsRun | apps/api/src/services/transactionService.ts:650-683 | a reconciler run is a run of reading and settling events of the custody world, and leaves nothing in flight when its limit is no smaller than the log and all is mined |
| Reconciling.FullRunReturnsSurplus | apps/api/src/services/transactionService.ts:615-623 | such a run gives each wallet exactly the holds of its rows less their real costs |
| LedgerService.Client.InternalTransfer | apps/api/src/services/transactionService.ts:685-790 | a transfer has the effect of Transfer or fails with the reason and changes nothing |
| Invariant.TransferBal | apps/api/src/services/transactionService.ts:779-786 | a transfer of any amount, negative ones included, moves it between its two rows and touches no third one |
| Ledger.TransferLeavesRows | apps/api/src/services/transactionService.ts:753-778 | a transfer that goes through leaves two settled rows, one for each wallet, with its asset and amount and no transaction |
| Invariant.TransferOverdrawsIff | apps/api/src/services/transactionService.ts:739-786 | a transfer overdraws a wallet exactly when the amount is negative beyond what the target holds, and always keeps the sum of both rows |
| LedgerService.Client.CreditDeposits | apps/api/src/services/depositDetector.ts:336-355 | the credit loop has the effect of Credit |
| LedgerService.Client.AddWalletAssetBalance | apps/api/src/services/assetService.ts:82-94 | adding a signed amount succeeds exactly when the row stays non-negative |
| LedgerService.Client.GetWalletNativeBalance | apps/api/src/services/balanceService.ts:18-48 | the page's figures are the free balance and the sum held back by open rows |
| LedgerService.SendKeepsTotal | apps/api/src/services/balanceService.ts:30-37 | no send changes a wallet's free plus locked ether |
| LedgerService.SettleTakesCost | apps/api/src/services/balanceService.ts:30-37 | a settlement within its reservation lowers that total by exactly the real cost |
| LedgerService.Client.SyncBalances | apps/api/src/services/balanceService.ts:108-157 | it overwrites exactly the ether rows of wallets alone in their group with no recent broadcast and a reachable chain balance |
| Deposits.CompletedScanCreditsWhatIsDue | apps/api/src/services/depositDetector.ts:241-332 | a completed scan adds exactly the positive values sent to the address under hashes not recorded for the wallet before, and, asset by asset, the decoded token amounts whose decoded recipient is the address |
| Deposits.BlocksInOrder | apps/api/src/services/depositDetector.ts:223-244 | the transactions folded for a window are those of all its blocks, each once, in block order |
| Deposits.RowsAreWhatIsCredited | apps/api/src/services/depositDetector.ts:264-326 | the deposits found are the rows added, all for the scanned wallet, and carry the amounts credited, asset by asset |
| Deposits.ScanCompletesIff | apps/api/src/services/depositDetector.ts:290-315 | a scan throws exactly when a token payment of its window is recorded for the wallet under another spelling of the token |
| Deposits.TokenSelfSendStopsTheScan | apps/api/src/services/depositDetector.ts:290-301 | once a wallet's token payment to its own group is recorded under the checksum spelling, no scan for that wallet of any window with it completes, now or later; a scan for a wallet without rows does |
| Scanner.TokenSelfSendStopsTheRun | apps/api/src/services/depositDetector.ts:405-430 | when that wallet is its group's primary, every scheduled run whose window has the payment throws at that group or before it, so no group listed after it is scanned |
| Deposits.AdjacentScansCompose | apps/api/src/services/depositDetector.ts:205-216 | two adjacent windows scanned one after the other find together what one scan of both finds, and complete exactly when it does |
| Deposits.SerialScansAreOneScan | apps/api/src/services/depositDetector.ts:357-360 | serial scans of any window sizes with nobody else at the table are one scan of exactly the blocks after the first start up to the last end |
| Deposits.SerialScansCreditExactlyOnce | apps/api/src/services/depositDetector.ts:334-360 | serial completed scans, with rows of others inserted between them, credit in each asset exactly the sum, over their blocks and each block's transactions, of the amounts paid to the address, except under hashes others had recorded for the wallet before |
| Deposits.LoneScansCreditExactlyOnce | apps/api/src/services/depositDetector.ts:334-360 | with nobody else at the table that is one sum over all their block numbers of the sums over each block |
| Scanner.Scan.GetBlockTransactions | apps/api/src/services/depositDetector.ts:155-180 | a block comes from the cache or the node, a fetch that keeps failing always throws, and the trailing empty block is unreachable |
| Scanner.ReachedWithinThree | apps/api/src/services/depositDetector.ts:162-177 | a block is reached exactly when one of three attempts succeeds and those before it met only rate limits |
| Scanner.Scan.RecordTransaction | apps/api/src/services/depositDetector.ts:244-330 | the checks and inserts for one transaction have the effect of AfterTx |
| Scanner.Scan.ScanWindow | apps/api/src/services/depositDetector.ts:223-332 | the batches of 20 fetch and fold every block of the window once; it fails exactly on an unreachable block or a clash |
| Scanner.Scan.ProcessWalletDeposits | apps/api/src/services/depositDetector.ts:182-369 | a scan records, credits and moves on as folding its window says, or throws for exactly those reasons with nothing credited and the last block kept |
| Scanner.Scan.DetectDeposits | apps/api/src/services/depositDetector.ts:371-440 | scanning all groups through the shared cache does what fetching every block afresh does; it throws exactly when one of the windows fails, at the first that does, with the groups before it scanned and no balance or last block changed after |
| Scanner.ScheduledScanMovesOn | apps/api/src/services/depositDetector.ts:191-216 | a group never synced jumps to the head and records nothing; any other moves on by at most 150 blocks, to the head at most and never back |
| Scanner.RunReportsRows | apps/api/src/services/depositDetector.ts:405-430 | the deposits a scheduled run reports are the rows it added |
| Scanner.Primary | apps/api/src/services/depositDetector.ts:408-410 | the credited wallet is the first of the group's oldest |
| Scanner.Scan.DetectDepositsForWallet | apps/api/src/services/depositDetector.ts:442-470 | one manual window, partial exactly when it ends before the head |
| Scanner.Scan.SyncAllDepositsForWallet | apps/api/src/services/depositDetector.ts:472-502 | with a fixed head: exactly min(20, max(1, ceil(gap/500))) steps, partial exactly when the gap is over 10000, totals, rows and every balance those of one scan of the combined window, and failure exactly when that scan fails |
| Scanner.CatchUpNumbers | apps/api/src/services/depositDetector.ts:13-17 | one step for up to 500 blocks, one for each 500 begun after that, twenty at most, and 10000 blocks at most |
| Scanner.StepCatchesUp | apps/api/src/services/depositDetector.ts:480-492 | one more window extends the combined scan, or the combined scan cannot complete |
| LogNetting.CollectErc20NetDeltas | apps/api/src/services/transactionService.ts:477-515 | the map holds, for every token, the sum of the target's amounts in minus amounts out over the well-formed Transfer logs |
| LogNetting.OneTransferNets | apps/api/src/services/transactionService.ts:489-511 | a Transfer log adds its amount to the recipient, takes it from the sender, and concerns nobody else and no token but the one that emitted it |
| LogNetting.HalfReadTransferNets | apps/api/src/services/transactionService.ts:489-507 | a party that cannot be read is left out and the other one counts |
| LogNetting.OtherLogsNetZero | apps/api/src/services/transactionService.ts:485-498 | any other log counts for nothing |
| LogNetting.NetOfConcat | apps/api/src/services/transactionService.ts:484-512 | netting is additive over concatenation |
| LogNetting.NetOfPermutation | apps/api/src/services/transactionService.ts:484-512 | netting does not depend on the order of the logs |
| LogNetting.SelfTransferNetsZero | apps/api/src/services/transactionService.ts:501-508 | self-transfers net to zero |
| LogNetting.NetsSumToZero | apps/api/src/services/transactionService.ts:501-508 | per token, the nets of all accounts named in the logs sum to zero |
| Names.Directory.GetUniqueWalletGroupName | apps/api/src/services/walletService.ts:87-105 | terminates for every finite set of names with the base or the least free suffix, at most their number plus one, and the result passes the later guard |
| Names.SuffixesDiffer | apps/api/src/services/walletService.ts:101-104 | different suffixes stay different names under trim and lower case |
| Names.TakenCounts | apps/api/src/services/walletService.ts:100-104 | if the base and suffixes 2 to n are taken there are at least n names |
| Names.TrimIsIdempotent | apps/api/src/services/walletService.ts:57-59 | trimming twice is trimming once, and a trimmed name compares as the name |
| Names.TrimTakesWhiteEnds | apps/api/src/services/walletService.ts:57-59 | trimming takes away exactly the white space at both ends |
| Names.NamesCompareWithoutCase | apps/api/src/services/walletService.ts:57-59 | two names count as the same exactly when, trimmed, they have the same characters up to the case of the letters A to Z |
| Names.StoredNameIsTaken | apps/api/src/services/walletService.ts:127-164 | a stored name takes, for both guards, every name that differs from it only in case or in white space at its ends |
| Names.IndexKeepsKeysUnique | apps/api/prisma/schema.prisma:32 | a write keeps stored keys unique exactly when the index admits it, whatever an earlier guard saw |
| Names.NamesStayUnique | apps/api/src/services/walletService.ts:127-164 | a write keeps all names of a scope apart exactly when the group guard passes it; the wallet guard suffices exactly when no row without a key has the name |
| Names.WalletGuardMissesUnkeyed | apps/api/src/services/walletService.ts:144-164 | for every name the wallet guard passes it beside a row without a key that has it, and two wallets then have one name |
| Names.Directory.CreateWallet | apps/api/src/services/walletService.ts:200-247 | an unnamed wallet never fails on its group's name; a named one fails exactly when its group name is taken; group names stay unique |
| Names.Directory.NameNewGroup | apps/api/src/services/walletService.ts:206-214 | the name of a new wallet's group, or the refusal when it is taken, in whatever case |
| Names.Directory.CreateWalletInGroup | apps/api/src/services/walletService.ts:166-198 | fails and changes nothing exactly when the name's key is stored in the group, as it is for a name that differs from a stored one only in case |
| Names.Directory.UpdateWalletName | apps/api/src/services/walletService.ts:455-484 | renames, or fails with the first failing check and changes nothing, as it does for another row's name in other case; its own row never blocks it |
| Names.Directory.UpdateWalletGroupName | apps/api/src/services/walletService.ts:486-532 | the same for groups, keeping group names unique |
| Sessions.ChallengesRefineHistory | apps/api/src/services/connectedWalletService.ts:379-424 | after any history the challenge map holds exactly the latest unspent challenge of each address |
| Sessions.LoginsAnswerChallenges | apps/api/src/services/connectedWalletService.ts:405-424 | a verification succeeds exactly when it answers an outstanding, unexpired challenge with its signature |
| Sessions.LoginsWithinChallenges | apps/api/src/services/connectedWalletService.ts:423-424 | an address never has more logins than challenges issued for it |
| Sessions.SignatureLogsInOnce | apps/api/src/services/connectedWalletService.ts:418-423 | if nonces are not drawn twice a signature logs in at most once |
| Sessions.AcceptedIffLive | apps/api/src/services/connectedWalletService.ts:432-457 | a token is accepted exactly when a login handed it out, it was not revoked since, and its consecutive uses, this one included, are at most 15 minutes apart |
| Sessions.MinutesAllowed | apps/api/src/services/connectedWalletService.ts:6-7 | uses at most fifteen minutes apart, challenges answered in less than five |
| Sessions.RevokedStaysRefused | apps/api/src/services/connectedWalletService.ts:459-462 | a revoked token is refused until a login hands it out again |
| Sessions.RevokingEndsOtherLoginIff | apps/api/src/services/connectedWalletService.ts:97-109 | after any history, revoking the token of one login ends the session of another exactly when both are of one address and their tokens were made in the same millisecond |
| Sessions.SharedTokenEndsBoth | apps/api/src/services/connectedWalletService.ts:97-109 | a history of two logins with their own challenges in which one logout ends both |
| Sessions.SessionService.VerifyConnectedWalletChallenge | apps/api/src/services/connectedWalletService.ts:397-430 | the method succeeds exactly when the store says so, spends the challenge and opens the session, and otherwise fails with the first failing check |
| Sessions.SessionService.AuthenticateConnectedWalletSession | apps/api/src/services/connectedWalletService.ts:432-457 | the method accepts exactly when the store says so, drops an expired session, and says why it refuses |
| Decimal.NumeralRoundTrip | apps/api/src/services/walletService.ts:101 | reading a printed number back gives the number |
| Decimal.FormatUnitsTruncates | apps/web/src/app/wallets/[id]/page.tsx:85-99 | for every amount and number of decimals the text has no trailing fractional zero and denotes the amount rounded down to min(decimals, 6) places |
| Decimal.WeiPrinterIsFormatUnits | apps/web/src/lib/api.ts:14-28 | the ether printer is the 18-decimals case |

## Left out

- Bodies.CreditBodyIsCredit: the scanner's row inserts, which run before the lock and outside its transaction, are events of their own in the custody world.
- Bodies.SendBodyIsSend: a database timeout or a crash is not an outcome of the body but an abort of it; its effects are in TimeoutReusesNonce and DropBreaksSolvency.
- Custody.BalanceIsReplayedHistory: leaves out rows a contract settlement moved, since those may be clamped at zero.
- Custody.NoncesAreGapFree: does not cover a nonce given by the caller, or transactions signed elsewhere with the key.
- Composition.InterleavedGroupsAreReachable: is about fair answers only; AnyAnswers.InterleavingsAreActs is about the rest.
- Solvency.SolventWithOneScanningWallet: does not cover contract writes of negative value and the other steps of LateRows, which Limits covers, nor single-wallet groups while syncBalances runs; that writer takes no lock and is modelled only by its own contract.
- Limits.AlwaysSolventIff: does not cover single-wallet groups while syncBalances runs either.
- Invariant.SettlingIsExact: does not cover the settlement that reads a forgotten transaction as value zero, wallets that a transfer has overdrawn, or contract writes of negative value; the runs in Limits are about those.
- LedgerService.Client.ReconcileBroadcasting: rows are taken in log order, which stands for creation time; the in-process guard against a second run is left out, as the proofs allow any number of runs.
- LedgerService.Client.SyncBalances: the age of a row and the chain's answers are parameters.
- LedgerService.Client.InternalTransfer: the checks of access and of a common group happen before the body.
- Deposits.CompletedScanCreditsWhatIsDue: token deposits are read from call data, as the scanner does; whether the call succeeded on chain is not part of this model.
- Deposits.SerialScansCreditExactlyOnce: others insert rows between the scans, not while one is folding its window.
- Scanner.Scan.GetBlockTransactions: a null block from the node reads as an empty one, as in the source; how each attempt to fetch goes is a parameter.
- Scanner.Scan.SyncAllDepositsForWallet: the head does not move between steps.
- Names.Directory.GetUniqueWalletGroupName: lower case changes the letters A to Z only.
- Names.Directory.CreateWallet: key generation, the starting block and the zero balance row are left out; a concurrent writer is covered only through the unique index.
- Sessions.AcceptedIffLive: signatures, the token's code and its hash are taken as unforgeable and injective; a stored time of zero reads as no session, as in the source.
- Decimal.FormatUnitsTruncates: the texts shown for input that is no number, or is negative, are left out.
- Asset rows are identified by contract address; their symbols, decimals and ids do not appear.
- HTTP routes, access checks, configuration, schedulers, the RPC and Etherscan clients, encryption of keys, ABI handling and the web pages other than the two printers.
