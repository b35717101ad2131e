# Hookemon: what its protocols and readers keep

A Dafny model of the parts of Hookemon that move money or decide what the public sees, and proofs
about all their inputs and all their runs.  `dafny verify dfyconfig.toml` goes through the whole
project.

* **Depository** (`Depository`, `DepositoryProgram`, `DepositoryRuns`, `RelayBytes`, `Ed25519Check`):
  the relay's vault program.  Its handlers are methods of a class over the account bytes, the
  balances and the used requests; what each one does is also a transition function, and the lemmas
  range over every interleaving of all handlers and of credits from outside.
* **Attestor** (`Attestor`, `DepositoryDispatch`, `DepositAgreement`, `DirectAgreement`): what the
  oracle reports for a finalised transaction, and how the program is entered by the same
  instructions, with arguments and accounts read as the program reads them.  `DepositAgreement`
  compares the reports with the events of the program's own run, `DirectAgreement` the report of a
  direct transfer with what the system and token programs leave in the vault.
* **Calldata** (`AbiCodec`, `SwapCalldata`): the hand-computed swap calldata of the gas measurement,
  against an encoder and a reader written from the Contract ABI Specification ("Formal Specification
  of the Encoding", "Use of Dynamic Types").
* **Public records** (`Schema`, `Renormalise`, `Tables`, `PublicCards`, `Decimal`, `LegacyRound`,
  `CommunitySnapshot`, `CycleStatus`, `CycleProjection`): a layout is data (`Schema.Kind`), `Read` is
  the reader it stands for, and one induction over layouts (`Renormalise.ReadSettles`) says when an
  output is accepted again.  The readers of the community snapshot, of the domain's status and of
  the web's status are such layouts, key by key; the accounting of version 3 and the projector are
  functions beside them.  `SnapshotExamples`, `StatusExamples` and `ProjectionExamples` hold records
  on which the readers part.
* **Client and worker** (`Poller`, `CycleHistory`, `SharedLoads`, `JourneyHold`): closures, components
  and module-level maps as classes, with a step relation whose events come in any order.
* **Pure parts** (`CardEvents`, `CollectorDeck`, `GermanMoney`, `SchemaInspector`).

`Collating`, `ByteCodec` and `Wrappers` are shared helpers.

What a host supplies is a parameter: hashing, signature verification, derived addresses, transfer
fees, URL parsing, `Date`, `String(...)`, `localeCompare`, array `sort` of pack ids, responses.
Assumed of them, where a lemma says so: a printed URL parses to the same URL and a string is its own
text (`Schema.Sane`), a printed date is read back (`CycleProjection.Keeps`), `localeCompare` is a total
preorder (`Collating.TotalPreorder`), and, in `UsedMeansPaid` only, that two requests of the run at
hand do not collide.  `DirectAgreement.Faithful` and `Recorded` assume that the system and token
programs do with a transfer what `DirectAgreement.EffectOf` says, and that balances which a
transaction records are the vault's.

## Where the code and its promises part

* A payout from the vault to itself uses its request up and moves nothing
  (`DepositoryRuns.PlainConservationIff`, `DepositoryRuns.SelfPaymentHappens`).
* The attestor reports a token deposit before the transfer fee, the program's event after it
  (`DepositAgreement.AgreesIffNoFee`, `DepositAgreement.FeesPartThem`).
* A direct token transfer is reported with more than arrives where the mint takes a fee and the
  transaction records no balance (`DirectAgreement.DirectIsGained`,
  `DirectAgreement.UnmeasuredIsOverreported`).
* A transfer instruction that succeeded is not always decodable: bytes behind its arguments, which
  the token programs ignore, make the oracle raise (`DirectAgreement.RaisesIffLong`,
  `DirectAgreement.LongTransferRaises`).
* A version 3 snapshot with a cycle result of 79 digits, and any snapshot with an image URL that
  prints to more than 512 characters, normalises to something the normaliser rejects
  (`CommunitySnapshot.FixedPoint`, `SnapshotExamples.LongLossRejected`,
  `SnapshotExamples.LongImageRejected`).
* So does a status of either reader with such an image in its current cycle, and the dashboard then
  rejects a reply that the proxy sent as a success (`CycleStatus.FixedPoint`,
  `CycleStatus.DomainToWeb`, `StatusExamples.LongImageRejected`, `StatusExamples.LongStatusReply`).
* The panel rejects negative confirmed costs that the web reader takes (`LegacyRound.PanelAgrees`,
  `LegacyRound.PanelRejectsRefund`).
* The domain's version 3 status with round accounting is rejected by the web's version 3 reader
  (`CycleStatus.DomainToWeb`), so the projection of any record with accounting is
  (`CycleProjection.WebReadsProjection`, `ProjectionExamples.AccountingIsRejected`).
* The merge key of card events takes two identities for one exactly when a cycle id or an operation
  id holds a space (`CardEvents.KeyIsOwnIff`), among validated events when that space parts the two
  ids into ids within the bounds (`CardEvents.BoundedKeyIsOwnIff`).
* After teardown of the journey tracking a stray frame can start a hold
  (`JourneyHold.HoldAfterTeardown`, `JourneyHold.StrayIsReachable`).
* A configuration with a limit that is not set or a count that is missing shows unsaved changes as
  soon as it is loaded (`GermanMoney.NoFalseChanges`, `GermanMoney.FalseChanges`).

## Model

Where a row names a method, its contract ties the result or the new state to a specification
function; the lemmas of the same module say what that function means.

| member | source | states |
|---|---|---|
| `AbiCodec.DecodeEncode` | docs/evidence/local-gas/150/measure150.py:10-21 | For every type built from words, bytes, lists and tuples, a reader written from the Contract ABI Specification recovers every value from its encoding, as long as no offset outgrows a word. |
| `AbiCodec.DecodeAtEncode` | docs/evidence/local-gas/150/measure150.py:10-21 | The same from any place inside any byte string that holds the encoding, which is what nested offsets rely on. |
| `SwapCalldata.Arr` | docs/evidence/local-gas/150/measure150.py:12-15 | The loop over running offsets builds the array layout that the lemmas below are about. |
| `SwapCalldata.ArrIsAbi` | docs/evidence/local-gas/150/measure150.py:12-15 | That layout is the specification's encoding of `bytes[]`. |
| `SwapCalldata.ArrDecodes` | docs/evidence/local-gas/150/measure150.py:12-15 | Every running offset lands on its element's length word: the list of byte strings is read back as it was, and the length is a multiple of 32. |
| `SwapCalldata.SwapIsAbi` | docs/evidence/local-gas/150/measure150.py:17 | The words of `p0`, with the literals 32 and 320, are one struct of a static pool key, four words and empty hook data. |
| `SwapCalldata.PairIsAbi` | docs/evidence/local-gas/150/measure150.py:18 | The settle and take parameters are pairs of words. |
| `SwapCalldata.ActionsIsAbi` | docs/evidence/local-gas/150/measure150.py:19 | The literal offsets 64 and 128 point at the action bytes and at the parameter array. |
| `SwapCalldata.ExecuteIsAbi` | docs/evidence/local-gas/150/measure150.py:20-21 | The literal offsets 96 and 96 plus the length of the commands point at the commands and at the inputs. |
| `SwapCalldata.EncDecodes` | docs/evidence/local-gas/150/measure150.py:16-21 | For all token and hook addresses, either direction, every amount and block time: `enc` raises exactly when an address, the amount or the deadline does not fit its word, and otherwise the calldata, read level by level, gives back commands, inputs, deadline, actions and all three parameters. |
| `RelayBytes.RequestRoundTrip` | docs/evidence/native-relay-source-instruction-20260908/depository.rs:832-857 | The bytes that are hashed can be read back: optional mint, little-endian words and signed expiration are all recovered. |
| `RelayBytes.RequestInjective` | docs/evidence/native-relay-source-instruction-20260908/depository.rs:832-857 | Distinct transfer requests have distinct bytes. |
| `RelayBytes.DomainInjective` | docs/evidence/native-relay-source-instruction-20260908/depository.rs:1076-1086 | With name and version fixed and a 32-byte program id, the domain preimage determines chain id and program id, and nothing else is ambiguous. |
| `RelayBytes.LoadBack` | docs/evidence/native-relay-source-instruction-20260908/depository.rs:549-560 | An account that was written loads as what was written, whatever the space holds behind it. |
| `Ed25519Check.AcceptedMeansSigned` | docs/evidence/native-relay-source-instruction-20260908/depository.rs:996-1062 | When the checks on the preceding instruction pass and the precompile accepted it, the allocator has signed exactly this request hash, wherever the message stands in the data. |
| `Ed25519Check.StandardDataAccepted` | docs/evidence/native-relay-source-instruction-20260908/depository.rs:996-1062 | The layout with key at 16, signature at 48 and message at 112 is accepted, so the checks do not shut out honest signers. |
| `DepositoryProgram.Program.Initialize` | docs/evidence/native-relay-source-instruction-20260908/depository.rs:68-83 | Refuses with the error, and else leaves the state, that the transition relation gives; a refused call leaves everything unchanged. |
| `DepositoryProgram.Program.SetAllocator` | docs/evidence/native-relay-source-instruction-20260908/depository.rs:96-105 | The same for the allocator, which only the owner changes. |
| `DepositoryProgram.Program.SetOwner` | docs/evidence/native-relay-source-instruction-20260908/depository.rs:118-127 | The same for the owner. |
| `DepositoryProgram.Program.MigrateDomainSeparator` | docs/evidence/native-relay-source-instruction-20260908/depository.rs:142-257 | The resize and the rewriting of the account bytes in place end in the state the relation gives. |
| `DepositoryProgram.Program.DepositNative` | docs/evidence/native-relay-source-instruction-20260908/depository.rs:271-294 | The vault gains exactly the amount, or nothing changes. |
| `DepositoryProgram.Program.DepositToken` | docs/evidence/native-relay-source-instruction-20260908/depository.rs:308-378 | The vault gains the amount less the transfer fee, or nothing changes. |
| `DepositoryProgram.Program.ExecuteTransfer` | docs/evidence/native-relay-source-instruction-20260908/depository.rs:392-538 | The used mark, set before the payout, survives exactly when the payout does; errors come in the order of the code. |
| `DepositoryProgram.Program.Pay` | docs/evidence/native-relay-source-instruction-20260908/depository.rs:445-529 | Native and token payouts with their own refusals; the native one never goes below the rent minimum. |
| `DepositoryRuns.UsedAreStartPlusPaid` | docs/evidence/native-relay-source-instruction-20260908/depository.rs:392-538 | In every run the used requests are those used at the start plus those the run has paid, and it has paid none that was used. |
| `DepositoryRuns.PaidAtMostOnce` | docs/evidence/native-relay-source-instruction-20260908/depository.rs:392-538 | In every interleaving of all handlers and direct credits, no two payouts carry the same request hash. |
| `DepositoryRuns.UsedMeansPaid` | docs/evidence/native-relay-source-instruction-20260908/depository.rs:392-538 | Unless two hashes of the run collide, a request is refused as used exactly when the run has paid it. |
| `DepositoryRuns.Conservation` | docs/evidence/native-relay-source-instruction-20260908/depository.rs:271-538 | For every asset: what the vault holds plus what left it is what it held plus everything credited. |
| `DepositoryRuns.PlainConservationIff` | docs/evidence/native-relay-source-instruction-20260908/depository.rs:392-538 | Counting every paid request instead, the equation holds exactly when no paid request of that asset with an amount above zero names the vault itself as recipient: such a payout uses the request up and moves nothing. |
| `DepositoryRuns.SelfPaymentHappens` | docs/evidence/native-relay-source-instruction-20260908/depository.rs:392-538 | A run of one signed payout that the program accepts and for which that equation fails. |
| `DepositoryRuns.EventsAccountForCredits` | docs/evidence/native-relay-source-instruction-20260908/depository.rs:271-378 | In every run and for every asset, what was credited is what the logged deposit events say, plus the credits from outside the program. |
| `DepositoryRuns.RentFloorKept` | docs/evidence/native-relay-source-instruction-20260908/depository.rs:454-475 | A vault at or above the rent minimum stays there in every run. |
| `DepositoryRuns.EveryPayoutAuthorised` | docs/evidence/native-relay-source-instruction-20260908/depository.rs:397-440 | Each payout of a run met, at its own step, the vault address, an unexpired request, the domain where one is set, and the signature of the allocator current at that step. |
| `DepositoryRuns.OnlyOwnerConfigures` | docs/evidence/native-relay-source-instruction-20260908/depository.rs:96-127 | No step by anyone but the current owner changes the owner or the allocator of a loaded account. |
| `DepositoryRuns.DomainAndVaultFixed` | docs/evidence/native-relay-source-instruction-20260908/depository.rs:549-560 | Once loadable, an account keeps its vault and its domain for ever. |
| `DepositoryRuns.DomainAlwaysSet` | docs/evidence/native-relay-source-instruction-20260908/depository.rs:68-83 | From a missing or a legacy account, every account that a run can load has its domain set. |
| `DepositoryRuns.MigrationPreserves` | docs/evidence/native-relay-source-instruction-20260908/depository.rs:142-257 | A migrated account is 106 bytes whose first 73 are the old ones; it loads with the same owner, allocator and bump and with the computed domain. |
| `DepositoryRuns.MigratedOnce` | docs/evidence/native-relay-source-instruction-20260908/depository.rs:142-160 | In any later state of any run a second migration is refused. |
| `Attestor.Messages` | docs/evidence/native-relay-source-instruction-20260908/oracle-solana.ts:142-404 | One message per deposit instruction of the program, with the depositor, currency, amount and id that it asks for; the single direct transfer only when there is none; an exception only where a decoder of that one instruction raises. |
| `Attestor.OrdinalsArePlaces` | docs/evidence/native-relay-source-instruction-20260908/oracle-solana.ts:143-234 | Messages and deposit instructions match one to one in order, and the ordinal in a message's id is the place of its instruction in the list of all top-level and then all inner instructions. |
| `Attestor.AskedOfPermutation` | docs/evidence/native-relay-source-instruction-20260908/oracle-solana.ts:693-743 | Reading the instructions in another order reports the same deposits, each as often. |
| `Attestor.DirectIsBounded` | docs/evidence/native-relay-source-instruction-20260908/oracle-solana.ts:235-404 | At most one direct message, without an id, for a transfer whose destination is the vault or the vault's token account of the message's mint, and for no more than the instruction moves. |
| `DepositAgreement.ReadersAgree` | docs/evidence/native-relay-source-instruction-20260908/oracle-solana.ts:155-160 | On all instruction data the oracle's coder and the program's entry choose the same deposit handler with the same amount and id, or neither. |
| `DepositAgreement.InstructionAgrees` | docs/evidence/native-relay-source-instruction-20260908/depository.rs:667-747 | An instruction that reaches a handler of the program becomes a deposit call exactly if the oracle takes it for a deposit, and the accounts it reads by number are the depositor and the mint of the handler's account struct. |
| `DepositAgreement.EventsArrive` | docs/evidence/native-relay-source-instruction-20260908/depository.rs:271-378 | The events a transaction logs, in the order in which its instructions were executed, are the deposits reported of those instructions, each less the transfer fee of its mint, which never exceeds it. |
| `DepositAgreement.AttestorSeesEveryDeposit` | docs/evidence/native-relay-source-instruction-20260908/oracle-solana.ts:142-404 | For every transaction that went through, in whatever order its instructions were executed: the events are the reported deposits less their fees, each as often, and a direct transfer is looked for exactly when the program logged nothing. |
| `DepositAgreement.AgreesIffNoFee` | docs/evidence/native-relay-source-instruction-20260908/oracle-solana.ts:142-234 | The reported deposits are the logged events exactly when no mint took a fee from any of them. |
| `DepositAgreement.FeesPartThem` | docs/evidence/native-relay-source-instruction-20260908/depository.rs:308-378 | A transaction that goes through and whose event is not the deposit that is reported: a mint takes one unit of a hundred. |
| `DirectAgreement.DirectIsGained` | docs/evidence/native-relay-source-instruction-20260908/oracle-solana.ts:235-404 | A direct transfer is never reported with less than the vault gains by the transaction, and with exactly that if and only if the recorded balances are looked at or nothing is lost between instruction and vault. |
| `DirectAgreement.UnmeasuredIsOverreported` | docs/evidence/native-relay-source-instruction-20260908/oracle-solana.ts:361-382 | A transaction without recorded balances for which a hundred are reported and 99 arrive. |
| `DirectAgreement.RaisesIffLong` | docs/evidence/native-relay-source-instruction-20260908/oracle-solana.ts:273-318 | On a transaction that went through, the oracle raises exactly if its one relevant instruction is a token transfer with bytes behind its arguments: the programs ignore such bytes and the decoders do not. |
| `DirectAgreement.LongTransferRaises` | docs/evidence/native-relay-source-instruction-20260908/oracle-solana.ts:273-318 | A transfer with one byte too many that credits the vault and makes the oracle raise. |
| `Attestor.DecodeWritten` | docs/evidence/native-relay-source-instruction-20260908/oracle-solana.ts:146-160 | The instruction data of both deposit calls is read back as it was written. |
| `Attestor.DecodeExact` | docs/evidence/native-relay-source-instruction-20260908/oracle-solana.ts:146-160 | And nothing else is read as one: data decodes to a deposit exactly if it begins with the bytes written for that handler, amount and id. |
| `Decimal.SubtractAtZero` | apps/web/lib/public-community-snapshot.ts:692-706 | The digit-by-digit loop on canonical decimal strings of any length prints max(0, a - b) canonically. |
| `Decimal.LexIsNumeric` | apps/web/lib/public-community-snapshot.ts:693-696 | For equal lengths, comparing digit strings is comparing numbers, so the early return is right. |
| `Decimal.LastColumn` | apps/web/lib/public-community-snapshot.ts:697-705 | After the last column nothing is left to borrow and the digits are the difference. |
| `LegacyRound.Derived` | apps/web/lib/public-community-snapshot.ts:480-523 | Of every accepted version 3 round, gain and loss exclude each other and differ by buyback less spend, and for the whole cycle by that less the confirmed costs, negative costs included. |
| `LegacyRound.SharedMembersKept` | apps/web/lib/public-community-snapshot.ts:490-523 | Every member that the old and the current round have in common keeps its value, absent costs becoming null. |
| `LegacyRound.PanelAgrees` | apps/web/app/operator/OperatorControlPanel.tsx:1978-2019 | On every record with the legacy keys the record that the operator panel writes out, amounts passed through big integers, is the one the web reader builds, and both accept the same, but for negative confirmed costs, which the panel rejects. |
| `LegacyRound.PanelRejectsRefund` | apps/web/app/operator/OperatorControlPanel.tsx:2136-2138 | A record with confirmed costs of minus one that the web reader accepts and the panel rejects. |
| `LegacyRound.ShortWhenSmall` | apps/web/lib/public-community-snapshot.ts:669-672 | Derived gain and loss can be read again exactly when the result lies strictly between minus and plus ten to the 78. |
| `LegacyRound.LegacyRoundReads` | apps/web/lib/public-community-snapshot.ts:490-523 | The derived round passes every test of the current round reader but the length of its cycle result. |
| `Renormalise.ReadSettles` | apps/web/lib/public-community-snapshot.ts:205-293 | For any two record layouts of which the second follows the first: whatever the first reader returns, the second returns unchanged, or rejects just when a printed URL or a derived amount has grown too long. |
| `CommunitySnapshot.FixedPoint` | apps/web/lib/public-community-snapshot.ts:205-293 | For every accepted snapshot of schemas 3 to 8, normalising the result accepts it and returns it unchanged, 3 having become 4, exactly when every image URL prints within 512 characters and a version 3 cycle made or lost less than ten to the 78. |
| `CommunitySnapshot.NormaliseTwice` | apps/web/lib/public-community-snapshot.ts:205-293 | The same with the condition read off the result. |
| `SnapshotExamples.SeventyNineDigits` | apps/web/lib/public-community-snapshot.ts:490-510 | An accepted version 3 round whose derived loss is ten to the 78 and so has 79 digits. |
| `SnapshotExamples.LongLossRejected` | apps/web/lib/public-community-snapshot.ts:205-293 | On every host and in both profiles, named or not, a version 3 snapshot with that round is accepted and its normal form is rejected. |
| `SnapshotExamples.LongImageRejected` | apps/web/lib/public-community-snapshot.ts:205-293 | So is a snapshot with a card whose image is any URL that the host accepts and prints with more than 512 characters. |
| `SnapshotExamples.LongImageHappens` | apps/web/lib/public-community-snapshot.ts:205-293 | A host that prints such a URL, escaping a hundred letters, and a snapshot that falls to it. |
| `CommunitySnapshot.Guaranteed` | apps/web/lib/public-community-snapshot.ts:205-293 | What being accepted means: all keys of the schema and no others, one profile, badge and network throughout, a pool value that is at most 90 seconds old or marked as delayed and never from the future, counted held positions, at most 24 transactions without repetition, and in the latest round a gain or a loss but never both. |
| `CommunitySnapshot.WebRoundShort` | apps/web/lib/public-community-snapshot.ts:504-511 | A version 3 round's derived result is short exactly when spend, buyback and confirmed costs put it in range. |
| `CycleStatus.FixedPoint` | packages/domain/src/cycle-status.js:138-169 | In the domain reader (schemas 2 and 3) and in the web reader (1 to 6), what is accepted is accepted again and comes back unchanged, 1 and 2 having become 3, exactly when the images of the current cycle print within the text limit. |
| `CycleStatus.Guaranteed` | apps/web/lib/public-cycle-status.ts:265-357 | What being accepted means in both readers and every schema they know: the schema's keys and no others, one profile and network, the profile asked for, a countdown and pause reason that follow from the rest, as many cards as opened boosters up to sixty, counted held positions, and at most one scheduled wake-up. |
| `CycleStatus.IdleReads` | apps/web/lib/public-cycle-status.ts:331-357 | The record built from an idle version 1 status is one that the version 3 reader returns unchanged. |
| `CycleStatus.DomainToWeb` | apps/web/lib/public-cycle-status.ts:485-516 | The web reader returns a status from the domain's normaliser unchanged exactly when it carries no round accounting and its images print short; both call it version 3, but the accounting records have no layout in common. |
| `StatusExamples.LongImageRejected` | apps/web/lib/public-cycle-status.ts:466-483 | In both status readers, any image URL that the host accepts and prints with more than 512 characters makes a status that is accepted and whose normal form is rejected: the text is bounded before it is printed. |
| `StatusExamples.LongImageCrosses` | packages/domain/src/cycle-status.js:254-269 | The same from the domain to the web, with no accounting involved. |
| `StatusExamples.LongImageHappens` | apps/web/lib/public-cycle-status.ts:466-483 | A host that prints such a URL, and a status that falls to it in each reader. |
| `CycleStatus.TypedIsNoPackRound` | packages/domain/src/cycle-status.js:67-95 | Why: an accounting record that one of the two version 3 readers returns is always rejected by the other, in both directions. |
| `CycleProjection.CountdownPasses` | packages/domain/src/cycle-status.js:109-128 | The projected countdown and pause reason always pass the reader's own recomputation. |
| `CycleProjection.ProjectionIsNormal` | packages/domain/src/cycle-status.js:446-492 | Every projection that returns is its own normal form, with the number of packs as opened boosters and, as cards, exactly the projections of the last min(n, 60) packs in reveal order. |
| `CycleProjection.SortInOrder` | packages/domain/src/cycle-status.js:450-452 | The actions come out ordered by their times, none lost and none added. |
| `CycleProjection.WebReadsProjection` | packages/domain/src/cycle-status.js:545-603 | The web reader returns a projection unchanged, or rejects it exactly when the record has round accounting. |
| `ProjectionExamples.AccountingIsRejected` | packages/domain/src/cycle-status.js:446-492 | At all times, in both profiles and states, the projector returns a status for the least record with accounting, which the domain's normaliser returns unchanged and the web reader rejects. |
| `ProjectionExamples.AccountingHappens` | packages/domain/src/cycle-status.js:446-492 | The same on a host that meets all that is assumed of one. |
| `CycleHistory.ReadPublicCycleHistory` | apps/web/lib/public-cycle-history.ts:59-92 | Accepts a page exactly when it is well formed: all pairs of items in strictly falling order, and all of them timed or no items and no cursor, although the loop tests neighbours only. |
| `CycleHistory.NeighboursSuffice` | apps/web/lib/public-cycle-history.ts:74-103 | Neighbours in order put every earlier item strictly before every later one, for any collation that is a total preorder. |
| `CycleHistory.NoItemTwice` | apps/web/lib/public-cycle-history.ts:94-103 | No item stands on a page twice; a cycle id can, but only with two terminal times. |
| `CycleHistory.OneCycleTwice` | apps/web/lib/public-cycle-history.ts:94-103 | A page that is accepted with one cycle id twice. |
| `CycleHistory.HistorySection.Load` | apps/web/app/PublicCycleTracker.tsx:319-328 | Starting a request: the counter, the button and what the call will compare the counter with. |
| `CycleHistory.HistorySection.Receive` | apps/web/app/PublicCycleTracker.tsx:329-332 | A page that arrives is applied by the newest request only. |
| `CycleHistory.HistorySection.Miss` | apps/web/app/PublicCycleTracker.tsx:333-338 | A failure of a first load empties the feed, one of an append does not. |
| `CycleHistory.ListIsOneChain` | apps/web/app/PublicCycleTracker.tsx:313-384 | Under any order of clicks, reloads, responses and failures the list is the concatenation of one cursor chain, each page asked for with the cursor of the one before; its pages answer requests with strictly rising generations, so none stands in it twice, each of them over; and the button waits only while the newest request runs. |
| `CycleHistory.InstanceKeepsProfile` | apps/web/app/PublicCycleTracker.tsx:685 | With an instance per profile, every page of the list is of that profile in every run. |
| `CycleHistory.StaleClickMixes` | apps/web/app/PublicCycleTracker.tsx:319-384 | Without that, a click on the old page's button would mix pages of two profiles: a run that does. |
| `SharedLoads.SharedMap.SharedLoad` | apps/web/worker/public-cycle-proxy.ts:84-98 | Shares the entry of the key or starts a load and enters it. |
| `SharedLoads.SharedMap.CleanUp` | apps/web/worker/public-cycle-proxy.ts:93-96 | Removes the entry if it is still this load's. |
| `SharedLoads.KeyDetermines` | apps/web/worker/public-cycle-proxy.ts:88 | Profile and URL can be read off the key. |
| `SharedLoads.OneLoadPerKey` | apps/web/worker/public-cycle-proxy.ts:84-98 | In every reachable state at most one unsettled load per profile and URL. |
| `SharedLoads.GuardAlwaysTrue` | apps/web/worker/public-community-proxy.ts:88-102 | Whenever a clean-up comes, the entry is its own load's, so the guard holds and no newer load is dropped. |
| `SharedLoads.SuccessIsNormalised` | apps/web/worker/public-cycle-proxy.ts:40-62 | Every success is what the normaliser makes of some body for the profile of that very request, whether it came from the cache, a shared load or a new one. |
| `SharedLoads.CommunityReplyRead` | apps/web/worker/public-community-proxy.ts:43-66 | What the dashboard's reader makes of a success: for every body that the reply can have been made from, the same value if that body can be normalised twice, and a rejection otherwise. |
| `SharedLoads.StatusReplyRead` | apps/web/worker/public-cycle-proxy.ts:40-62 | The same for the status proxy: the dashboard reads a success as it was sent exactly when the images of the current cycle in the body print short. |
| `StatusExamples.LongStatusReply` | apps/web/worker/public-cycle-proxy.ts:40-62 | A run in which the status proxy answers with success and the dashboard's reader rejects the answer. |
| `StatusExamples.LongSnapshotReply` | apps/web/worker/public-community-proxy.ts:43-66 | The same for the community proxy. |
| `CardEvents.MergeCardEvents` | apps/web/lib/public-card-event.ts:102-115 | The loop over an insertion-ordered map computes the fold that the lemmas below are about, and fails where it does. |
| `CardEvents.MergeKeepsLatest` | apps/web/lib/public-card-event.ts:102-141 | Merging succeeds exactly when observations of one key agree on memo and mint, and keeps of each key the newest by time, then sequence, the last on a tie, in order of first appearance. |
| `CardEvents.MergeIncremental` | apps/web/lib/public-card-event.ts:102-115 | merge(merge(a) + b) = merge(a + b), failures included. |
| `CardEvents.MergeIdempotent` | apps/web/lib/public-card-event.ts:102-115 | Merging a merged list changes nothing. |
| `CardEvents.KeySeparates` | apps/web/lib/public-card-event.ts:126-128 | The key separates identities whose cycle ids hold no space, whatever the operation ids hold. |
| `CardEvents.KeyIsOwnIff` | apps/web/lib/public-card-event.ts:126-128 | An identity of any two ids shares its key with a different identity exactly when its cycle id or its operation id holds a space. |
| `CardEvents.BoundedKeyIsOwnIff` | apps/web/lib/public-card-event.ts:217-220 | With another identity whose ids have the 1 to 512 characters of a validated event it shares its key exactly when another space than the one between its ids parts them into two such ids. |
| `CardEvents.BoundsMatter` | apps/web/lib/public-card-event.ts:217-220 | Ids with a space at the edge that collide with no validated event, and ids with one inside that do. |
| `Poller.Effect.PollIfVisible` | apps/web/app/PublicCycleTracker.tsx:147-159 | One trigger: ignored when hidden, swallowed, ignored in flight, or a start. |
| `Poller.Effect.Refreshed` | apps/web/app/PublicCycleTracker.tsx:160-172 | One finished refresh: the failure count and the ticks to skip. |
| `Poller.EveryRunSound` | apps/web/app/PublicCycleTracker.tsx:141-188 | In every run starts and results alternate strictly, so results apply in start order, and the ticks left to skip stay within min(failures, 5). |
| `Poller.TriggersSwallowed` | apps/web/app/PublicCycleTracker.tsx:147-159 | Of any series of triggers with nothing in flight, exactly the visible ones up to the ticks to skip are swallowed and the next visible one starts one request; hidden ones change nothing. |
| `Poller.CountsFailures` | apps/web/app/PublicCycleTracker.tsx:161-168 | The counter is the number of failures since the last success, in every run. |
| `Poller.AfterFailure` | apps/web/app/PublicCycleTracker.tsx:1002-1004 | After the k-th consecutive failure of any run exactly min(k, 5) visible triggers are swallowed and the one after them starts a request. |
| `JourneyHold.Tracking.constructor` | apps/web/lib/journey-route.ts:89-228 | Installing: one update, then the listeners. |
| `JourneyHold.Tracking.StartHold` | apps/web/lib/journey-route.ts:149-162 | Everything a hold sets, saved style, listeners and timer included. |
| `JourneyHold.Tracking.Update` | apps/web/lib/journey-route.ts:164-208 | Arming, starting and forgetting the frame. |
| `JourneyHold.Tracking.Schedule` | apps/web/lib/journey-route.ts:210-212 | A frame is asked for unless one is remembered. |
| `JourneyHold.Tracking.ReleaseHold` | apps/web/lib/journey-route.ts:125-147 | Everything a release undoes, and the update it ends with. |
| `JourneyHold.Tracking.TearDown` | apps/web/lib/journey-route.ts:223-228 | Releasing without an update, and what is cancelled. |
| `JourneyHold.HoldLeavesNoTrace` | apps/web/lib/journey-route.ts:125-208 | In every run listeners and timer are there exactly while a hold is active, and whenever none is, the root has the scroll behaviour it had at the beginning. |
| `JourneyHold.HoldsAreRearmed` | apps/web/lib/journey-route.ts:164-189 | Between any two holds of any run some update saw progress below 0.9. |
| `JourneyHold.ReleaseStartsNothing` | apps/web/lib/journey-route.ts:125-147 | A hold never starts while one is active, nor in the update a release ends with. |
| `JourneyHold.TearDownIsGone` | apps/web/lib/journey-route.ts:223-228 | Teardown leaves no listener, no timer and the original style. |
| `JourneyHold.HoldAfterTeardown` | apps/web/lib/journey-route.ts:206-228 | After teardown a hold can still start exactly when a stray frame is left and the hold is armed, or two are left: only the remembered frame is cancelled. |
| `JourneyHold.StrayIsReachable` | apps/web/lib/journey-route.ts:206-228 | A run that leaves such a frame: a scroll during a hold, whose release forgets the frame. |
| `CollectorDeck.DeckIsStable` | apps/web/lib/collector-cards.ts:23-39 | Prioritising is a permutation by falling value with unvalued cards last, stable within a rank. |
| `CollectorDeck.UniqueAreUnlike` | apps/web/lib/collector-cards.ts:52-64 | No two kept cards share an id or an image, white space aside. |
| `CollectorDeck.LeftOutForAReason` | apps/web/lib/collector-cards.ts:56-60 | A card is left out only when it is incomplete or like one that is kept. |
| `CollectorDeck.FanBehind` | apps/web/lib/collector-cards.ts:77-83 | The loop collects the cyclic successors of the active card; its skip branch never fires. |
| `CollectorDeck.SelectCollectorPresentation` | apps/web/lib/collector-cards.ts:47-86 | Unique cards, order, index and fan together give the presentation the lemmas are about. |
| `CollectorDeck.WrapsAround` | apps/web/lib/collector-cards.ts:69 | For every index, negative ones included, the remainder expression is the mathematical one. |
| `CollectorDeck.BackgroundIsDistinct` | apps/web/lib/collector-cards.ts:70-86 | The background has exactly min(max(fan, 0), deck - 1) cards, and no two cards on view share an id or an image. |
| `GermanMoney.FormRoundTrip` | apps/web/app/operator/operator-locale.ts:171-175 | parseGermanUsd(germanMoneyFormValue(v)) = v for every canonical amount. |
| `GermanMoney.ShownIsTyped` | apps/web/app/operator/operator-locale.ts:177-193 | What is shown of an amount is what the form holds, with thousands points and a unit. |
| `GermanMoney.ShownApart` | apps/web/app/operator/operator-locale.ts:177-193 | Two amounts are never shown alike. |
| `GermanMoney.InputFixedPoints` | apps/web/app/operator/OperatorControlPanel.tsx:1395-1400 | The input filter leaves alone exactly digits with at most one comma and six digits after it, and filtering twice is filtering once. |
| `GermanMoney.ParseableStays` | apps/web/app/operator/OperatorControlPanel.tsx:1395-1400 | It never touches an amount that would be accepted. |
| `GermanMoney.NoFalseChanges` | apps/web/app/operator/OperatorControlPanel.tsx:1374-1428 | A freshly filled form shows no unsaved changes exactly when all three limits are set and none of the three counts is missing, since the form fills 0, 1 and 20 in where the snapshot of the state does not. |
| `GermanMoney.FalseChanges` | apps/web/app/operator/OperatorControlPanel.tsx:1374-1428 | A state with one limit not set, and one with a count missing, that show unsaved changes at once. |
| `SchemaInspector.Inspect` | feasibility/native-provider-admission/inspect-draft.py:11-33 | The recursive method appends exactly the findings, in the order and with the path texts, expected types or constants and actual type names of the code, and ends. |
| `SchemaInspector.FindingsExact` | feasibility/native-provider-admission/inspect-draft.py:11-33 | A finding is reported exactly when going to its place shows it: a node of the wrong type or constant, or a required key its node lacks. |
| `SchemaInspector.NoFindings` | feasibility/native-provider-admission/inspect-draft.py:11-33 | Nothing is reported exactly on values that satisfy type, const, required, properties and items recursively. |
| `SchemaInspector.SoundAndComplete` | feasibility/native-provider-admission/inspect-draft.py:11-33 | Both, for the list that is returned, each path being the text of the place of its violation. |

## Left out

- The contracts, the operations service and the cycle repository: only described in prose.
- Community schema 9 and status schema 7: `native-accounting.mjs` is not part of this model; those versions count as unknown here.
- Own properties whose value is `undefined`: read as `null` where a key must be present, and as present where it may be absent; JSON has none.
- Prototypes, symbols and array holes of JavaScript values: `Js` holds plain records and arrays only.
- Lengths of texts are counted in Dafny characters, not in UTF-16 units.
- Property names are an enumeration (`Schema.Key`), spelt as in the code but for `label'` and `type'`.
- Order of tests inside a reader: every rejection there is the same error, so only acceptance and result are modelled.
- Readers and the projector assign optional fields onto the record being built; here the record is built at once, so aliasing of it is not captured.
- `Intl` grouping is plain groups of three; `toLocaleString` of card events, dates and labels are not modelled.
- The ETH amount display: `FormatAtomic` covers it, but only the USD display is related to the form.
- Anchor's account constraints beyond those that decide an error modelled here, compute limits, and the lamports of accounts other than the vault.
- Depository.Sound: states in which a used-request account exists unmarked are excluded; no handler leaves one.
- The transaction fetch, finality and retries of the oracle, and withdrawals.
- Attestor.Messages: a failed or unknown transaction, which gives no messages, and the timestamp and finality attached to each message are not modelled.
- DirectAgreement.EffectOf: the system and token programs and their client decoders are not part of this repository; transfers with a seed or with a stated fee are not described, and the oracle takes neither for a deposit.
- CycleHistory.ReadPublicCycleHistory: the page comes with its fields read; its key sets, schema version and network are not modelled.
- GermanMoney.NoFalseChanges: a count is a natural number or missing; other JSON in its place is not modelled.
- DepositoryDispatch.Dispatch: account constraints that decide no argument of a handler are one parameter, and so is whether the inner transfer goes through.
- SchemaInspector.Inspect: `NaN`, which Python's JSON parser takes, is no value here, and a single type name is a list of one.
- JourneyHold.Tracking.Update: progress, range and scroll position are what the measurement gives.
- HTTP methods, headers and sizes in front of the proxies, and the edge cache: a cache lookup gives a body or nothing.
- React rendering: a state update takes effect at its step. The clock and the abort on unmount are not modelled.
- Progress, scroll position and insured values are reals; the choice of the active article is not modelled.
- Keys that the hold lets through or prevents, apart from Escape.
- Non-finite indices and fan sizes of the deck.
- Unknown type names in a schema, where the code raises, and schemas that are not objects.
- The Git, evidence and media scripts, the Docker verifier, and the duplicate encoders of the other measurement scripts.
