# CryptoPaySystem: the Bitcoin codec and the money flow

A Dafny model of the two parts of the system that decide by themselves whether deposits are
recognised and whether money is accounted for, with proofs about every input, every run and every
interleaving.

**The codec.** The watcher decodes raw transactions, computes their txid and turns output scripts
into addresses; it recognises a deposit only if its address string equals the provider's. The model
contains the cursor and the decoding loops, the re-serialiser, CompactSize, Base58 (written twice in
the system), the 8-to-5 bit regrouping and the Bech32 checksum. Each loop is a method proved equal to
a function (`Decode`, `Legacy`, `Encode`, `Regroup`, `Fold`), and the round trips, the accounting of
every byte, the linearity and error detection of the checksum and the injectivity of addresses are
lemmas about these functions. SHA-256 is a parameter of type `hash256`; errors are results.

**The money flow.** Amounts are integers in satoshis and commissions hundredths of a percent. The
database is a class whose tables the accounting engine, the transaction processor and the payout
processor change step by step; every method is proved to have the effect of a function on the value
`Db`. `MoneyFlow` interleaves these database transactions, the signing steps and the broadcasts as
atomic events over all payouts and jobs. Fee rates, confirmation counts, the node's answers, the rows a
query returns and a failure at any step are chosen freely by the events. `PayoutPipeline` proves that
one execution of the pipeline, in the order of the source, is a sequence of events of its payout, and
when it ends SENT.
`LedgerService` does the same for the hot list, the jobs in flight, the retry set and the promoters,
with each Redis command, Redis transaction and database transaction as one event, except that the push
of a job that waits and the commit of its session are one event together.

The functions that describe the system are tied to something outside them: to an inverse, to a
law in other terms, or to data that others have published. `TxLayout` spells out the order of bytes, fields
and txid digits and decodes the signed transaction of BIP143; `AddressVectors` derives the addresses that
BIP173 lists; `AddressPrefixes` says what the characters of an address tell; `PayoutFees` compares sizes with
serialised bytes; `Deposits` and `QueueOrder` describe credits and retries by the jobs that caused them;
`Candidates` compares the rows of the query with what is unspent.

Files: `ByteStrings`, `TxFormat`, `TxTheorems`, `TxDecoder`, `TxLayout` (wire format and decoder); `Base58`,
`Base58Encoders`, `BitGroups`, `Bech32`, `Addresses`, `AddressVectors`, `AddressPrefixes` (addresses);
`CoinSelection`, `PayoutBuilder`, `Candidates`, `PayoutFees` (which coins, which amounts); `Store`, `Ledger`,
`Crediting`, `Deposits` (tables, credit, single credit); `Payouts`, `MoneyFlow`, `MoneyInvariants`,
`MoneyTheorems`, `LockedFunds`, `CoinSharing`, `MoneyExamples`, `PayoutPipeline` (payouts and credits
interleaved); `RetryQueue`, `LedgerService`, `LedgerDrain`, `QueueOrder` (the job queues).

## Assumptions

- Each `session.begin()` block, each Redis command or pipeline and each broadcast is atomic, and a
  rolled back transaction changes nothing.
- The chain refuses a transaction that spends a spent outpoint.
- A payout asks for a positive amount, as the router demands (services/payout/router.py:115-121), and has
  one execution, as the router starts it (services/payout/router.py:166).
- `_finalise` does not raise after its transaction has committed.
- A worker brings every job it has popped to an end; a job in the hands of a worker that stops is in
  neither Redis structure (services/ledger/service.py:119).
- A commission is at most 100 percent where balances are claimed not to be negative (core/schemas.py:41).
- A fee rate is never negative (providers/bitcoin_rpc.py:168-184).

## Where the code differs from its comments

- A transaction without inputs and with one output decodes as SegWit: its two counts are the marker.
- The txid of a stripped transaction hashes everything that was received. It is the hash of the
  transaction's own serialisation exactly when no byte follows it and no CompactSize in it is wider than
  needed.
- Row locks end with `_prepare`, so two payouts may select the same coin (services/payout/selector.py:49-50
  says they cannot): exactly when the free candidates before the first one that another payout holds do
  not cover the need. The chain lets only one of them be SENT.
- `_mark_failed` refunds a payout that never froze funds from what another payout of the account holds
  (services/payout/processor.py:300 says "if it was frozen"). In every run locked and available are off by
  exactly what was refunded wrongly, and a balance goes below zero exactly when a payout is settled while
  less than its amount is locked.
- A payout can be FAILED and refunded although its transaction was accepted: exactly the FAILED payouts
  whose broadcast was accepted without an answer, or whose settlement raised, have consumed coins.
- The destination receives the whole requested amount; the miner fee comes on top (core/models.py:303
  says otherwise).
- One transaction that pays two invoices credits one of them: the second credit violates the unique
  constraint on `(txid, vout)` since `vout` is always 0, and its job is dropped
  (services/ledger/processor.py:182-183 expects the case).
- A selection of more than ten coins may not pay for its own size.

## Model

| member | source | states |
|---|---|---|
| TxDecoder.Reader.Read | services/watcher/tx_decoder.py:70-75 | the next n bytes and the position after them, or an error that leaves the position |
| TxDecoder.Reader.ReadVarint | services/watcher/tx_decoder.py:77-85 | reads a CompactSize as the format function does |
| TxDecoder.Reader.ReadU32 | services/watcher/tx_decoder.py:87-88 | reads four little-endian bytes as an unsigned number |
| TxDecoder.Reader.ReadI32 | services/watcher/tx_decoder.py:90-91 | reads four little-endian bytes in two's complement |
| TxDecoder.Reader.ReadU64 | services/watcher/tx_decoder.py:93-94 | reads eight little-endian bytes as an unsigned number |
| TxDecoder.Reader.ReadInputs | services/watcher/tx_decoder.py:123-133 | the input loop yields all inputs in order, or fails exactly when the format does |
| TxDecoder.Reader.ReadOutputs | services/watcher/tx_decoder.py:135-142 | the output loop yields all outputs in order, or fails exactly when the format does |
| TxDecoder.Reader.SkipWitness | services/watcher/tx_decoder.py:144-150 | skips one stack for each input |
| TxDecoder.DecodeRawTx | services/watcher/tx_decoder.py:101-171 | for every byte string the decoder ends with the transaction the format defines, or an error |
| TxDecoder.LegacySerialise | services/watcher/tx_decoder.py:174-196 | the appended pieces are the stripped serialisation |
| TxTheorems.VarintRoundTrip | services/watcher/tx_decoder.py:199-206 | reading inverts the CompactSize encoding of every number, whatever follows |
| TxTheorems.LegacyRoundTrip | services/watcher/tx_decoder.py:113-152 | decoding the stripped form returns the fields exactly unless there is no input and one output |
| TxTheorems.SegwitRoundTrip | services/watcher/tx_decoder.py:113-152 | decoding the BIP144 form returns the fields for every witness |
| TxTheorems.TrailingBytes | services/watcher/tx_decoder.py:113-152 | bytes after the transaction change no field |
| TxTheorems.CutShort | services/watcher/tx_decoder.py:70-75 | a transaction cut anywhere is rejected |
| TxTheorems.SegwitAccounts | services/watcher/tx_decoder.py:113-152 | accepted SegWit bytes are the BIP144 form plus the slack of wide CompactSizes, at least 12 + 42 inputs + 9 outputs long |
| TxTheorems.LegacyAccounts | services/watcher/tx_decoder.py:113-152 | accepted stripped bytes are the stripped form plus slack, at least 10 + 41 inputs + 9 outputs long |
| TxTheorems.ReserialisationShrinks | services/watcher/tx_decoder.py:174-206 | re-serialised length plus slack is what was consumed; no slack exactly when the bytes are equal |
| TxTheorems.VarintNotShorter | services/watcher/tx_decoder.py:199-206 | the encoder is never longer than the CompactSize that was read |
| TxTheorems.LegacyInjective | services/watcher/tx_decoder.py:174-196 | different transactions have different txid preimages |
| TxDecoder.DecodeInvertsLegacy | services/watcher/tx_decoder.py:101-171 | the whole result of decoding a stripped transaction, with the exact condition |
| TxDecoder.TxidIgnoresWitness | services/watcher/tx_decoder.py:154-161 | every SegWit encoding hashes the stripped form (BIP141, section "Transaction ID") |
| TxDecoder.SameTxid | services/watcher/tx_decoder.py:154-161 | both encodings of a transaction get one txid |
| TxDecoder.LegacyTxidCoversTrailingBytes | services/watcher/tx_decoder.py:158-161 | trailing bytes enter the txid of a stripped transaction and nothing else |
| TxDecoder.OwnPreimage | services/watcher/tx_decoder.py:158-161 | accepted stripped bytes are their own serialisation exactly when nothing follows and no CompactSize is wide |
| TxDecoder.LegacyTxidIsItsOwn | services/watcher/tx_decoder.py:158-161 | exactly then the txid is that of the serialisation under every hash function |
| TxLayout.TxIdDigits | services/watcher/tx_decoder.py:161-163 | a txid prints the double hash from its last byte to its first, two lower-case digits for a byte |
| TxLayout.SpenderSerialisesDigest | services/watcher/tx_decoder.py:174-196 | an input refers to a transaction by its txid exactly when its serialisation starts with the double hash |
| TxLayout.SpenderNamesTransaction | services/watcher/tx_decoder.py:123-133 | a decoded input names a decoded transaction exactly when it starts with the double hash of what its txid covers |
| TxLayout.CompactSizes | services/watcher/tx_decoder.py:199-206 | marks, widths and byte order of every CompactSize |
| TxLayout.SignedBytes | services/watcher/tx_decoder.py:90-91 | two's complement, lowest byte first |
| TxLayout.DecodesExample | services/watcher/tx_decoder.py:101-171 | the signed transaction of BIP143, section "Native P2WPKH", decodes to the fields listed there |
| Base58Encoders.Base58Check | services/watcher/tx_decoder.py:255-272 | the watcher's loops compute Base58 of payload and checksum |
| Base58Encoders.B58Encode | providers/bitcoin.py:96-109 | the provider's loops compute the same function |
| Base58.DecodeInvertsEncode | services/watcher/tx_decoder.py:260-271 | leading '1's restore zero bytes and digits the value, for every byte string |
| Base58.EncodeInjective | providers/bitcoin.py:96-109 | different byte strings have different Base58 strings |
| Base58.EncodeLength | services/watcher/tx_decoder.py:255-272 | at most ten characters more than bytes, up to 25 bytes |
| Base58.SymbolsDistinct | services/watcher/tx_decoder.py:252 | the alphabet has 58 different symbols |
| AddressPrefixes.AlphabetInOrder | services/watcher/tx_decoder.py:252 | digits and letters in their order without 0, O, I and l |
| BitGroups.ConvertBits | services/watcher/tx_decoder.py:303-313 | the accumulator loop regroups the bit string of the data, for all widths that fit the mask |
| BitGroups.PushHolds | services/watcher/tx_decoder.py:306 | the 32-bit mask drops no live bit |
| BitGroups.ConversionInverts | services/watcher/tx_decoder.py:303-313 | to narrower groups with padding and back without returns the data; length and range of the groups, zero padding |
| Bech32.Polymod | services/watcher/tx_decoder.py:283-290 | the nested loops compute the fold of the remainder step |
| Bech32.StepLinear | services/watcher/tx_decoder.py:285-289 | the remainder step is linear over exclusive or |
| Bech32.FoldLinear | services/watcher/tx_decoder.py:283-290 | so is the remainder of a sequence |
| Bech32.StepInjective | services/watcher/tx_decoder.py:285-289 | the step is injective on 30-bit states |
| Bech32.CreateChecksum | services/watcher/tx_decoder.py:297-300 | the six groups of the remainder over six zeros |
| Bech32.ChecksumVerifies | services/watcher/tx_decoder.py:297-300 | appending the checksum makes the remainder one (BIP173, section "Checksum") |
| Bech32.BurstDetected | services/watcher/tx_decoder.py:283-290 | every change within six consecutive symbols, any single substitution among them, changes the remainder |
| Bech32.CorruptionDetected | services/watcher/tx_decoder.py:283-300 | a checksummed sequence so changed does not verify |
| Addresses.Bech32Encode | services/watcher/tx_decoder.py:316-319 | prefix, separator and the symbols of version, program and checksum |
| Addresses.Bech32ReadsBack | services/watcher/tx_decoder.py:293-319 | a BIP173 reader, with its limits and the zero padding, accepts the string exactly when prefix and length allow, and returns the program |
| Addresses.ValidVector | services/watcher/tx_decoder.py:279-300 | a string BIP173 lists as valid verifies |
| AddressVectors.HrpSpells | services/watcher/tx_decoder.py:293-294 | high bits, zero, low bits: each character of a prefix in its place |
| AddressVectors.ValidCharset | services/watcher/tx_decoder.py:276-300 | a string BIP173 lists, whose data are all 32 characters in order, verifies |
| AddressVectors.PublishedAddresses | services/watcher/tx_decoder.py:237-245 | the P2WPKH addresses BIP173 lists for one program, on both networks |
| Addresses.ScriptToAddress | services/watcher/tx_decoder.py:213-245 | one address for each of the four script forms, none otherwise |
| Addresses.AddressInjective | services/watcher/tx_decoder.py:213-245 | on one network equal addresses come from equal scripts |
| Addresses.AddressLength | services/watcher/tx_decoder.py:213-245 | at most 35 characters for Base58, 42 or 62 for Bech32 |
| AddressPrefixes.PubkeyHashShows | services/watcher/tx_decoder.py:225-231 | a P2PKH address reads back as version 0x00 or 0x6f and the hash, and starts with 1, or m or n |
| AddressPrefixes.ScriptHashShows | services/watcher/tx_decoder.py:233-235 | a P2SH address reads back as version 0x05 or 0xc4 and the hash, and starts with 3, or 2 |
| AddressPrefixes.WitnessShows | services/watcher/tx_decoder.py:237-245 | a witness address reads back as version 0 and the program, and starts with bc1q, or tb1q |
| AddressPrefixes.NetworksApart | services/watcher/tx_decoder.py:213-245 | no mainnet address is a testnet address |
| Addresses.DeriveTestnetAddress | providers/bitcoin.py:115-121 | the provider's encoding of a key hash |
| Addresses.DepositRecognised | services/watcher/tx_decoder.py:229-231 | the watcher sees the provider's address exactly for the P2PKH script of that key hash |
| Addresses.DepositDetected | services/watcher/tx_decoder.py:101-171 | from received bytes to txid and address, for every witness |
| CoinSelection.Greedy | services/payout/selector.py:112-143 | fails exactly when the total is short, otherwise the shortest covering prefix |
| CoinSelection.Select | services/payout/selector.py:78-105 | the same for target plus fee estimate, with an error when there is no candidate |
| CoinSelection.SelectionComplete | services/payout/selector.py:123-141 | failure exactly when no choice of coins covers |
| CoinSelection.SelectionMinimax | services/payout/selector.py:90-141 | every covering choice has a coin as large as the largest selected |
| CoinSelection.SelectionConsolidates | services/payout/selector.py:90-141 | no irredundant covering choice has more coins |
| CoinSelection.HeldCoinPicked | services/payout/selector.py:123-143 | a held coin is selected exactly when the candidates before the first held one fall short |
| Candidates.CandidatesAreUnspent | services/payout/selector.py:82-92 | the candidates are worth what is unspent on the account |
| Candidates.PreparedWhenFunded | services/payout/processor.py:143-177 | a pending payout is prepared exactly when its balance and the unspent coins of its account suffice |
| Candidates.PreparedIsMinimax | services/payout/processor.py:170-177 | every covering choice of candidates has a coin as large as the largest selected |
| PayoutBuilder.BuildAmounts | providers/bitcoin.py:387-422 | the exact condition of each outcome, and money conserved on success |
| PayoutBuilder.NonNegativeRate | providers/bitcoin.py:395-422 | the mismatch check never fires; change is none or not dust; bounds of the fee |
| PayoutBuilder.SelectionSuffices | services/payout/processor.py:165-177 | a selection of at most ten coins never raises insufficient funds; in general exactly when it pays its size |
| PayoutBuilder.ElevenCoinsMayNotSuffice | services/payout/processor.py:165-167 | eleven coins that are selected and insufficient |
| PayoutFees.SizeIsLength | providers/bitcoin.py:388-391 | the size is the length of the serialised payment |
| PayoutFees.FeePaysForBytes | providers/bitcoin.py:391-411 | the fee pays the rate for every byte, and at most one dust threshold more than the wider payment costs; default rate without one |
| PayoutFees.RoughFeeIsForTen | services/payout/processor.py:165-167 | selection provides for the bytes of ten inputs and two outputs |
| PayoutFees.SentFee | services/payout/processor.py:92-122 | in every run the stored fee of a SENT payout pays for its bytes |
| Ledger.CalculateFee | services/ledger/accounting.py:35-45 | fee and net add up, the fee is rounded down, net is within the gross up to 100 percent |
| Ledger.AccountingEngine.Credit | services/ledger/accounting.py:65-131 | all effects of a credit, or already credited, or an error |
| Ledger.AccountingEngine.GetOrCreateBalanceLocked | services/ledger/accounting.py:137-165 | a missing balance row is created with zeros, nothing else changes |
| Ledger.AccountingEngine.RegisterUtxo | services/ledger/accounting.py:168-196 | registers once; refuses a registered outpoint |
| Ledger.TxProcessor.UpsertTransaction | services/ledger/processor.py:172-207 | inserts when the key is absent, otherwise finds the row |
| Ledger.TxProcessor.ProcessInSession | services/ledger/processor.py:106-157 | the whole database transaction, with rollback |
| Crediting.ProcessingKeepsValid | services/ledger/processor.py:106-157 | keeps single credit, never meets a credited row, and the exact condition of a database error |
| Crediting.PaidIsFinal | services/ledger/processor.py:120-122 | PAID and the rows of a PAID invoice never change |
| Crediting.SecondInvoiceRejected | core/models.py:239-241 | a second invoice paid by the same txid is rejected and nothing changes |
| Crediting.OutcomeWhen | services/ledger/processor.py:106-157 | exactly when a job finds no invoice, a paid one, too few confirmations, or credits |
| Deposits.RowsKept | services/ledger/processor.py:129-133 | every row keeps key and received amount; the one new row has the amount of its job; a committed job leaves its counts |
| Deposits.StatusFromAnswers | services/ledger/processor.py:136-157 | in every run NEW, PENDING or PAID from the confirmations the jobs of the invoice were answered with |
| Deposits.CreditedAmount | services/ledger/accounting.py:84-131 | in every run output and fee log of a PAID invoice have the amount of the first job with its txid; fee rounded down |
| Payouts.PayoutProcessor.Prepare | services/payout/processor.py:128-190 | freezes the amount and returns the selection, or changes nothing |
| Payouts.PayoutProcessor.Record | services/payout/processor.py:92-100 | PROCESSING with the amounts of the signed transaction |
| Payouts.PayoutProcessor.Finalise | services/payout/processor.py:192-234 | marks every selected coin, releases the lock, SENT; or rolls back |
| Payouts.PayoutProcessor.MarkFailed | services/payout/processor.py:298-337 | FAILED and the refund of what is locked, up to the amount |
| PayoutPipeline.Pipeline.Run | services/payout/processor.py:68-122 | the pipeline with its early exits is a run of events of its payout; it ends SENT exactly when no step raises and the node accepts and answers |
| PayoutPipeline.Pipeline.SendAndSettle | services/payout/processor.py:102-122 | the same from the broadcast on, and what the chain has consumed then |
| PayoutPipeline.Pipeline.ExecutePayout | services/payout/processor.py:52-62 | SENT exactly when no step fails, else FAILED, or abandoned if marking fails |
| MoneyInvariants.StepKeepsValid | services/payout/processor.py:68-122 | every event of every interleaving keeps the invariant of money, coins, chain and stages |
| MoneyInvariants.ProcessJobKeepsValid | services/ledger/accounting.py:84-131 | a job keeps it |
| MoneyInvariants.PrepareKeepsValid | services/payout/processor.py:143-183 | a freeze keeps it |
| MoneyInvariants.BroadcastKeepsValid | services/payout/processor.py:102-107 | an accepted, refused or unanswered broadcast keeps it |
| MoneyInvariants.FinaliseKeepsValid | services/payout/processor.py:210-232 | settling keeps it: coins are worth amount, fee and change |
| MoneyInvariants.AcceptedCoinsUnspent | services/payout/processor.py:210-217 | the coins of an accepted payout are unspent rows |
| MoneyInvariants.MarkFailedKeepsValid | services/payout/processor.py:313-335 | a refund keeps it |
| MoneyInvariants.ReachableValid | services/payout/processor.py:52-122 | every reachable state satisfies it |
| MoneyTheorems.DoubleEntry | services/payout/processor.py:181-224 | unspent + fees and change of SENT payouts = available + locked + collected fees, in every reachable state |
| MoneyTheorems.SpentOnce | services/payout/selector.py:82-92 | a coin belongs to at most one SENT payout; spent rows and SENT payouts agree with the chain |
| MoneyTheorems.SpentForGood | services/payout/processor.py:216-217 | a spent row is never written again |
| MoneyTheorems.InvoiceCreditedOnce | services/ledger/accounting.py:84-126 | PAID exactly with one credited transaction, one fee log, one output; never already credited |
| MoneyTheorems.PaidForGood | services/ledger/accounting.py:124-126 | PAID is never left in any run |
| LockedFunds.FundsStep | services/payout/processor.py:313-335 | every event moves both balances by what payouts hold, send and are credited, except for the excess of a refund |
| LockedFunds.FundsExactly | services/payout/processor.py:155-335 | in every interleaving, locked and available of each account, exactly, up to what was refunded wrongly |
| LockedFunds.ExactLockStep | services/payout/processor.py:313-335 | locked of an account stays what its payouts hold exactly unless one that held nothing is refunded while something is locked, whatever other accounts do |
| LockedFunds.ExactStep | services/payout/processor.py:155-183 | and exactly then available stays what was credited less sent and held |
| LockedFunds.NonNegativeStep | services/payout/processor.py:219-224 | a balance goes below zero exactly when a payout is settled while less than its amount is locked |
| LockedFunds.NegativeWhenOverdrawn | services/payout/processor.py:219-224 | the same for every run |
| LockedFunds.SerialPayouts | services/payout/processor.py:155-224 | without overlap on this account: both balances not negative, locked is the amount in progress, a FAILED payout leaves no trace in available |
| MoneyTheorems.FailedMeansUnspent | services/payout/processor.py:298-337 | "no FAILED payout has consumed a coin" ends exactly when a payout is marked FAILED that has |
| MoneyTheorems.ConsumedExactly | services/payout/processor.py:102-122 | in every run the payouts with coins on the chain are those SENT or about to be, and those whose broadcast was lost |
| MoneyTheorems.FailedSpendsWhenLost | services/payout/processor.py:52-62 | in every run a FAILED payout has consumed a coin exactly when an accepted broadcast got no answer or its settlement raised |
| CoinSharing.SelectsHeldCoin | services/payout/processor.py:170-177 | a preparation selects a coin that another payout holds exactly when the free candidates before the first held one fall short |
| CoinSharing.DisjointStep | services/payout/selector.py:82-92 | selections in progress stay disjoint exactly as long as no such preparation happens |
| CoinSharing.AloneIsOfferedFreeCoins | services/payout/selector.py:82-92 | a payout that starts alone on its account is offered no held coin |
| CoinSharing.SerialDisjoint | services/payout/selector.py:49-50 | without overlap on this account no coin of its payouts is held by another payout, in any run |
| MoneyExamples.SameCoinSelectedTwice | services/payout/processor.py:170-190 | a run in which two payouts hold one coin |
| MoneyExamples.FailedAfterBroadcast | services/payout/processor.py:111-122 | a run in which a FAILED, refunded payout has consumed its coin |
| MoneyExamples.RefundFromAnothersLock | services/payout/processor.py:313-335 | a run with overlap that ends with a negative locked amount |
| RetryQueue.LedgerQueue.Pop | services/ledger/queue.py:97-108 | takes the oldest payload, or none |
| RetryQueue.LedgerQueue.PushHot | services/ledger/queue.py:112-115 | adds at the left end |
| RetryQueue.LedgerQueue.PushRetry | services/ledger/queue.py:117-128 | counts the retry and schedules the new payload; equal payloads merge |
| RetryQueue.LedgerQueue.PromoteDueRetries | services/ledger/queue.py:149-159 | pushes and removes every payload of the range that was read |
| LedgerService.Worker.Process | services/ledger/processor.py:54-93 | discard, retry, or the database transaction, for every storage call that may fail |
| LedgerService.Worker.ProcessInTransaction | services/ledger/processor.py:83-93 | a failing push or commit rolls the session back; a push before a failing commit stays |
| LedgerService.StepAccounts | services/ledger/service.py:107-127 | a present key leaves exactly when its last copy is processed and not scheduled again, and then it is PAID or that job is given up |
| LedgerService.PromoteAccounts | services/ledger/queue.py:144-156 | not even a promotion of a stale range |
| LedgerService.PresentUntilEnd | services/ledger/service.py:99-146 | in every run and from any state on, a present key stays present up to such an event |
| LedgerService.NoJobLost | services/ledger/service.py:99-146 | the same after every match, with duplicate jobs, stale ranges and several promoters |
| LedgerService.NoFaultNoDrop | services/ledger/processor.py:64-93 | when storage works for the jobs of a key, it leaves only with retries exhausted, the invoice missing or PAID, or its outpoint registered |
| LedgerService.EndsWhen | services/ledger/processor.py:64-93 | exactly when a job is given up, for each of the four reasons |
| QueueOrder.FirstInFirstOut | services/ledger/queue.py:97-115 | in every run jobs are popped in the order in which they were pushed |
| QueueOrder.ScheduledAgain | services/ledger/processor.py:64-78 | exactly when a job is scheduled again, as what and for when |
| QueueOrder.NoRetryBeforeItsDelay | services/ledger/queue.py:126-147 | in every run a range holds only jobs scheduled a full delay before it is read |
| QueueOrder.CommittedOrNot | services/ledger/processor.py:83-93 | the database after a job is its transaction, or unchanged when storage fails |
| LedgerService.PayoutsAreElsewhere | services/payout/processor.py:68-122 | the payout events are among what other services may do |
| LedgerDrain.MeasureStep | services/ledger/queue.py:126-156 | every pop, processing and promotion lowers the measure |
| LedgerDrain.EveryRunDrains | services/ledger/service.py:99-146 | the productive events of a run are bounded by the measure at its start |
| LedgerDrain.MeasureIsZero | services/ledger/queue.py:60-73 | the measure is zero exactly when no job is anywhere |
| LedgerDrain.WorkIsAvailable | services/ledger/service.py:99-146 | while a job is anywhere, a pop or a processing is progress now, or a promotion once a retry is due |
| LedgerDrain.CanDrain | services/ledger/service.py:99-146 | from every state some continuation empties all three places, even if the node never answers |
| LedgerDrain.OneJobPops | services/ledger/processor.py:65-78 | one job is popped at most MAX_RETRIES + 2 times |

## Left out

- SHA-256, RIPEMD-160, ECDSA, BIP32 derivation and script construction: foreign libraries; hashes are parameters and key hashes are inputs.
- The provider's mainnet address: it comes from a foreign library.
- `testnet` on each output: it repeats the flag of the transaction.
- `bytes.fromhex` on strings that `hex()` does not produce.
- Sockets, JSON, Redis and database connections, logging, timestamps, webhooks: nondeterministic answers or nothing.
- The `while self._running` loops, the semaphore and the statistics of the service: the events come in any order instead.
- The txid, raw transaction and error message stored on payout rows: nothing reads them back in these steps.
- Decimal precision: amounts are whole satoshis.
- The real output index behind `vout = 0`, signing data of coins, destination addresses, and what the chain does besides refusing spent outpoints.
- An error after `_finalise` has committed, and a second execution of the same payout.
- Routers, authentication, schemas, migrations, seeding, configuration: only easy claims.
- `PARTIAL`, `EXPIRED` and `CONFIRMED` are in the types, but nothing sets them.
- Uniqueness of addresses across merchants: indices are scoped by merchant over one key, so the code does not promise it.
- Detection of scattered errors by Bech32 beyond a window of six symbols: it rests on a computer search.
- LedgerDrain.EveryRunDrains: it bounds productive events, and LedgerDrain.WorkIsAvailable shows one while jobs are left; that the scheduler takes it is not part of this model.
- LedgerService.Worker.Process: no other event falls between the push of a waiting job and the commit of its session.
- LockedFunds.SerialPayouts: executions on the balance must not overlap, because with overlap it is false (MoneyExamples.RefundFromAnothersLock; LockedFunds.FundsExactly says by how much), and available is not negative only with commissions of at most 100 percent.
