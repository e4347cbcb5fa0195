# EnclaveKit, verified

EnclaveKit is a Solana smart wallet controlled by a P-256 key in a phone's Secure Enclave. Seven
instructions change a per-wallet state record and a vault of lamports. Six need a signed message that
carries the wallet's nonce; `confirm_rotation` is open to anyone but time-locked. This project models the
program, the bytes it signs and reads, and whole runs of it, and proves what its design promises.

## How the model is built

| file | what it holds |
|---|---|
| `Prelude`, `Integers`, `Parsing`, `Errors` | bounded integers, little-endian and two's-complement coding, prefix readers, errors |
| `Actions`, `Preimages` | Borsh `Action` and the signed preimage, each with a strict reader |
| `Precompile` | the program's reader of the secp256r1 instruction, and the runtime's reader that follows offsets |
| `WalletState`, `Layout` | the state record, its time windows, its 325 bytes and the `memcmp` filters over them |
| `Ledger` | balances and the System program's transfer |
| `Instructions` | the seven instructions as functions, checks in source order, and the runtime's guarantee |
| `Rules` | who may act, what changes, what it costs, what is announced; `ExecuteExactly` ties it to `Instructions` both ways |
| `Observed` | each call in full, told by bytes, seconds, lamports and calls, and not by the functions the instructions compute with |
| `Refusals` | helper lemmas: which error stands for which reason |
| `Program`, `EnclaveKit` | the imperative program: accounts loaded, changed in place, written back only on success |
| `Runs`, `Timelock`, `History`, `EventLog`, `Money`, `Recovery`, `Resubmission`, `Discovery` | theorems over transactions and whole runs |

A failed transaction is rolled back by the runtime: `EnclaveKit.Open` hands the handler copies, which may be
left half-changed (the nonce is bumped before later checks), and only `Save` reaches the chain.

`Observed` restates the whole of each call in the terms of an outside observer, so that no definition shared by
the program and its rules goes unexamined. It takes vault, state account and relayer to be three accounts, and
gives the balances when a recipient is a fourth; `Rules.ExecuteExactly` covers every coincidence among them.

A run (`Runs.IsRun`) starts with no wallet and mixes transactions, successful or not, on any wallets, with
arbitrary other transfers on the ledger. The clock never goes back. A lifetime of a wallet goes from a
creation to the next close; nonces restart with a lifetime.

What is taken from the surroundings is a parameter, `Instructions.Env`: SHA-256, signature verification, the
two address derivations with their bumps, and the two rent minimums. Nothing is assumed of them except where a
statement says so: theorems about one vault ask that it differ from the accounts around it
(`Money.VaultApart`). Of the runtime, `RuntimeChecked` says that every secp256r1 instruction of the
transaction was read by following its offsets and verified, and that each verified key is a compressed point
(SEC 1 version 2, section 2.3.3), hence starts with 2 or 3. The total of all lamports fits a u64, so no credit
overflows.

Where prose and code differ, the model follows the code:

- `instructions/close_wallet.rs:49-51` says that after a close the same signature can never pass again. Closing
  deletes the nonce, and a later creation restarts it at 0, so the claim is false of the code.
  `SignaturePassesAgain` gives a run with concrete surroundings in which one signed message takes effect, its
  wallet is closed, and it takes effect again. `PassesAgainExactly` and `AbsentAcceptsAgain` say when that
  happens: an absent wallet takes a spent message again if and only if that message founded it and is unexpired, so the
  close's own message is refused until a new lifetime reaches its nonce.
  `TwiceOnlyAcrossEarlyClose` is the guard a client can keep to: a message that expires before its wallet is
  closed takes effect at most once, in all lifetimes together. Within a lifetime `NoReplay` holds as it is.
- `events.rs:60-61` says the owner can cancel until the window opens. The code lets the owner cancel as long
  as the proposal is pending (`OwnerCanAlwaysVeto`).
- The repository's README lists only `transfer_sol` and `sweep_vault` as creating a wallet; `set_guardians` does too.

## Model

| member | source | states |
|---|---|---|
| Actions.ReadActionOfEncode | crates/enclavekit-encoding/src/action.rs:5-36 | the strict reader recovers any of the seven actions from its encoding followed by any bytes, and leaves those bytes; which bytes those are is the next row |
| Actions.ActionBytes | crates/enclavekit-encoding/src/action.rs:5-90 | for all seven variants and three kinds of guardian, the bytes written out: first byte 0 to 6 in order of declaration, then each field, integers as eight little-endian bytes, guardians as 0, 1 and a key, or 2 and a key |
| Actions.EncodeOfReadAction | crates/enclavekit-encoding/src/action.rs:5-36 | whatever the reader accepts re-encodes to the bytes it read |
| Actions.EncodingIsPrefixFree | crates/enclavekit-encoding/src/action.rs:12-36 | encodings are injective and no encoding is a proper prefix of another, variable-length guardian entries included |
| Preimages.ToBytes | crates/enclavekit-encoding/src/preimage.rs:45-57 | appending field by field builds the encoding whose inverse is proved below |
| Preimages.DecodeOfEncode | crates/enclavekit-encoding/src/preimage.rs:34-57 | every preimage, negative expiry included, decodes back from its bytes |
| Preimages.EncodeOfDecode | crates/enclavekit-encoding/src/preimage.rs:44-58 | bytes that decode are the encoding of what they decode to |
| Preimages.DecodesIffEncodes | crates/enclavekit-encoding/src/preimage.rs:44-58 | a message says a preimage if and only if it is that preimage's bytes |
| Preimages.MeansIffDecodes | crates/enclavekit-encoding/src/preimage.rs:44-58 | being the one preimage a message encodes is what the strict decoder computes |
| Preimages.EncodeIsInjective | crates/enclavekit-encoding/src/preimage.rs:1-15 | one message has one meaning |
| Preimages.HeaderLayout | crates/enclavekit-encoding/src/preimage.rs:21-32 | every header field sits at its documented offset and the action starts at byte 104 |
| Preimages.MessageBytes | crates/enclavekit-encoding/src/preimage.rs:1-58 | the signed message byte by byte: the characters enclavekit:v1 and three zeros, the five header fields at 16, 48, 80, 88 and 96 with their little-endian bytes written out, two's complement for the expiry, and the action's bytes from 104 |
| Preimages.EncodedSize | crates/enclavekit-encoding/src/preimage.rs:24-57 | the longest message is 104+1+3*34 bytes, so it always fits the precompile's u16 size |
| Precompile.LoadSecp256r1Payload | programs/enclavekit/src/precompile.rs:58-103 | the sequential reader returns a key and a message if and only if the instruction just before the current one is the precompile's, has no accounts and holds them at 16 and 113 under the one fixed header |
| Precompile.LoadsExactly | programs/enclavekit/src/precompile.rs:46-103 | for every sysvar, key and message: they are loaded if and only if the current index is from 1 to the number of instructions and the instruction before it has the secp256r1 id, no accounts, and data an SDK builds around that key and message, equivalently those bytes at those places |
| Precompile.LoadErrors | programs/enclavekit/src/precompile.rs:46-96 | each of the seven failures stands for one missing thing about those bytes, the earlier ones being in place |
| Precompile.RuntimeFollowsOffsets | programs/enclavekit/src/constants.rs:15-47 | the runtime's reader of one signature takes signature, key and message from whichever instruction and place the header's numbers name |
| Precompile.ProgramReadsWhatRuntimeVerified | programs/enclavekit/src/precompile.rs:71-103 | for accepted data, a reader that follows the offsets anywhere in the transaction sees exactly one signature over exactly the returned key and message |
| Precompile.BuiltDataIsAccepted | programs/enclavekit/src/constants.rs:15-25 | every fixed-layout instruction with a message of at most 65535 bytes is accepted and gives back its key and message |
| Precompile.AcceptedDataIsBuilt | programs/enclavekit/src/precompile.rs:71-96 | nothing else is accepted: accepted data is a fixed-layout instruction, up to the padding byte |
| Instructions.PayloadIsSigned | programs/enclavekit/src/precompile.rs:46-58 | in a transaction that passed the runtime, the key and message the program reads carry a verified signature and the key is not zero |
| WalletState.Position | programs/enclavekit/src/state.rs:41-45 | the guardian lookup returns the first P-256 slot with the key, or None when there is none |
| WalletState.SlotsDetermineList | programs/enclavekit/src/state.rs:74-91 | the stored slots determine the guardian list that was signed |
| WalletState.TimeRegionsPartition | programs/enclavekit/src/state.rs:138-153 | for every i64 time exactly one of too early, confirmable, expired holds, with the exact window under saturation |
| Layout.FieldsAtOffsets | crates/enclavekit-encoding/src/state.rs:32-59 | whatever the wallet holds, its serialisation is 325 bytes with every field at its published offset |
| Layout.StateBytes | crates/enclavekit-encoding/src/state.rs:5-30 | the account byte by byte: every field and every part of the three guardian slots and the proposal at the published number, integers as little-endian bytes, kinds as 0, 1 and 2, proposed_at at 314 to 321 and proposed_by at 322 |
| Layout.DeserializeOfSerialize | programs/enclavekit/src/state.rs:5-32 | the bytes decode back to the wallet |
| Layout.SerializeOfDeserialize | programs/enclavekit/src/state.rs:5-32 | account bytes that decode are the serialisation of what they decode to |
| Layout.GuardianFilter | crates/enclavekit-encoding/src/state.rs:61-69 | the filter at slot i matches exactly when that slot holds the P-256 guardian |
| Layout.GuardianIndexAgrees | crates/enclavekit-encoding/src/state.rs:61-74 | the three guardian filters together match exactly the wallets whose lookup finds the key |
| Layout.RotationIndexAgrees | crates/enclavekit-encoding/src/state.rs:49-52 | the filter at 280 matches exactly the wallets with a pending proposal for the key |
| Discovery.BareKeysAreLive | programs/enclavekit/src/state.rs:93-101 | in reachable wallets a non-zero key alone at a guardian or proposal offset only matches a live entry: removed keys leave no trace |
| Discovery.FiltersFindWallets | crates/enclavekit-encoding/src/state.rs:1-28 | at any point of any run the filters over the stored bytes select a wallet exactly for its signer, its guardians and its pending key |
| Ledger.Bank.Transfer | programs/enclavekit/src/authorization.rs:86-107 | moves the amount or fails and changes nothing |
| Ledger.MoveConserves | programs/enclavekit/src/authorization.rs:86-107 | a transfer keeps the sum of all balances, from an account to itself too |
| Rules.AuthorizeExactly | programs/enclavekit/src/authorization.rs:21-74 | authorisation succeeds, for a key, if and only if the instruction before the call holds that key with a message that decodes to this program, this call and its arguments, is unexpired, and carries the current nonce, or nonce 0 by the key the wallet is named after on first use; the nonce then moves by one |
| Rules.MeansIffSays | programs/enclavekit/src/authorization.rs:55-66 | a message is the bytes of a call's preimage if and only if it decodes to this program's id, the call's wallet, nonce, expiry and cap, and, call by call for all six, the action of that name with the call's arguments |
| Observed.MessageIsTheCall | programs/enclavekit/src/authorization.rs:55-66 | for every signed call that succeeds, the message in front of it decodes, and what it says is, field by field and call by call, the call that ran |
| Rules.TransferFollows | programs/enclavekit/src/instructions/transfer_sol.rs:51-107 | succeeds if and only if the owner signed it and the vault covers amount, cap and rent; then exactly recipient and relayer are paid and only the nonce moves |
| Rules.SweepFollows | programs/enclavekit/src/instructions/sweep_vault.rs:55-101 | succeeds if and only if the owner signed it and the vault covers the capped refund; recipient and relayer share exactly what it held |
| Rules.CloseFollows | programs/enclavekit/src/instructions/close_wallet.rs:52-98 | succeeds whenever the owner signed it, however empty the vault; recipient and relayer share exactly what it held |
| Rules.GuardiansFollow | programs/enclavekit/src/instructions/set_guardians.rs:46-91 | succeeds if and only if the owner signed a list without WebAuthn and the refund is covered; the list is replaced and any proposal ends |
| Rules.CancelFollows | programs/enclavekit/src/instructions/cancel_rotation.rs:44-80 | succeeds if and only if the owner signed it, a proposal is pending and the refund is covered |
| Rules.ProposeFollows | programs/enclavekit/src/instructions/propose_rotation.rs:50-127 | succeeds if and only if the owner, or a guardian to whom the slot is free, signed a non-zero key; the owner swaps at once, a guardian opens a proposal dated now |
| Rules.ConfirmFollows | programs/enclavekit/src/instructions/confirm_rotation.rs:19-40 | succeeds if and only if a proposal is inside its window, and moves no lamports |
| Rules.ExecuteExactly | programs/enclavekit/src/lib.rs:25-173 | a transaction succeeds if and only if the rules permit it and the balances afford it, and then leaves exactly the wallet, events and balance of every account the rules name |
| Observed.SomeoneSpoke | programs/enclavekit/src/authorization.rs:21-83 | every signed call that succeeds was said by someone, alive and in turn, and every one but a proposal by the owner |
| Observed.TransferObserved | programs/enclavekit/src/instructions/transfer_sol.rs:51-107 | from its owner, stored or founding, a transfer passes if and only if the vault holds amount, cap and rent; then the recipient gains the amount, the relayer the lesser of asked fee and cap, the state account is brought up to its rent if new, nothing else moves, the nonce is one more, and the event says so |
| Observed.SweepObserved | programs/enclavekit/src/instructions/sweep_vault.rs:55-101 | from its owner, a sweep passes if and only if the vault covers the lesser of asked fee and cap; the recipient gains all the rest and the vault is at 0 |
| Observed.CloseObserved | programs/enclavekit/src/instructions/close_wallet.rs:52-98 | from its owner, a close always passes; the fee is the least of asked, cap and what the vault holds, the recipient gains the rest, the relayer also what the state account held, and the wallet is gone |
| Observed.GuardiansObserved | programs/enclavekit/src/instructions/set_guardians.rs:46-91 | from its owner, a list passes if and only if it has no passkey and the fee is covered; the three entries are stored in order, kind and key, and any proposal is blanked |
| Observed.CancelObserved | programs/enclavekit/src/instructions/cancel_rotation.rs:44-80 | from its owner, a cancellation passes if and only if a proposal is pending and the fee is covered; it blanks the proposal and names its key |
| Observed.SwapObserved | programs/enclavekit/src/instructions/propose_rotation.rs:50-127 | from its owner, a proposal passes if and only if the key is not all zeros and the fee is covered; the key is swapped at once and any proposal blanked |
| Observed.ProposalObserved | programs/enclavekit/src/instructions/propose_rotation.rs:84-124 | from anyone else, a proposal passes if and only if the signer is listed, no other slot's proposal is at most 864000 seconds old, the key is not all zeros and the fee is covered; the proposal is stored with now and the first matching slot, and announced to open 259200 seconds later or at the last second |
| Observed.ConfirmObserved | programs/enclavekit/src/instructions/confirm_rotation.rs:19-40 | a confirmation passes if and only if a proposal is pending, 259200 seconds old or the time is the last second, and at most 864000 seconds old; it moves no lamports |
| Observed.AbsentObserved | programs/enclavekit/src/instructions/transfer_sol.rs:17-48 | on an absent wallet a call succeeds if and only if it is a transfer, a sweep or a list without passkeys, and is said, unexpired and with nonce 0, by the key whose hash is the id, and is affordable |
| Observed.AbsentIsRefused | programs/enclavekit/src/lib.rs:83-173 | on an absent wallet a cancellation, proposal, close or confirmation always fails with AccountNotInitialized, and no other call ever does |
| Runs.NextWalletOk | programs/enclavekit/src/state.rs:10-27 | each permitted call keeps a wallet in order: non-zero active key, proposals by a still-listed first-slot guardian other than the owner, zeros elsewhere |
| Runs.CommitOk | programs/enclavekit/src/lib.rs:21-174 | every transaction, failed or not, keeps every wallet in order |
| Runs.ReachableOk | programs/enclavekit/src/state.rs:10-128 | every chain of every run is in order |
| Runs.StepOf | programs/enclavekit/src/lib.rs:25-173 | in a run a wallet changes only by its own successful transactions, as the rules say |
| Timelock.PendingStands | programs/enclavekit/src/instructions/propose_rotation.rs:84-115 | a pending rotation at any point of a run is the work of one guardian proposal that nothing disturbed since |
| Timelock.ConfirmIsTimelocked | programs/enclavekit/src/instructions/confirm_rotation.rs:19-40 | in any run a confirmation succeeds if and only if one undisturbed proposal is between its delay and its window's end; the key it installs was signed by a guardian still in its slot |
| Timelock.DelayRestarts | programs/enclavekit/src/instructions/cancel_rotation.rs:44-80 | after a cancel, new list, key change, close or new proposal, no recovery completes before a full delay from then |
| Timelock.OthersAreRefused | programs/enclavekit/src/instructions/propose_rotation.rs:92-100 | against an unexpired proposal no other guardian's proposal is permitted |
| Timelock.ProposalIsExclusive | programs/enclavekit/src/instructions/propose_rotation.rs:92-108 | through any stretch of a run where its owner, its proposer and confirmers leave it alone, an unexpired proposal stays as it is and no other proposal succeeds |
| History.NonceCountsActions | programs/enclavekit/src/authorization.rs:49-71 | the nonce equals the number of signed messages that took effect in the lifetime, and never wraps |
| History.NoReplay | programs/enclavekit/src/authorization.rs:49-71 | any two signed steps that succeed in a lifetime, or on two wallets, carry different messages |
| History.AbsentOnlyFounds | programs/enclavekit/src/authorization.rs:31-54 | an absent wallet, never made or closed, permits a call if and only if it is a transfer, a sweep or a list without passkeys, with nonce 0, unexpired and meant, signed by the key whose hash is the wallet's id |
| Resubmission.StoredNonceIsPositive | programs/enclavekit/src/authorization.rs:31-71 | in every run a stored wallet is past nonce 0: its founding spends it |
| Resubmission.AbsentAcceptsAgain | programs/enclavekit/src/instructions/close_wallet.rs:49-51 | in every run, an absent wallet permits a message that took effect before, whoever relays it and whatever fee they ask, if and only if that message had founded the wallet and is unexpired |
| Resubmission.PassesAgainExactly | programs/enclavekit/src/authorization.rs:49-66 | in every run, a message that took effect succeeds once more, at any later point, if and only if it is unexpired, carries the nonce the wallet is at, comes from a signer the wallet lets make the call and is affordable; in its own lifetime the nonce never fits |
| Resubmission.TwiceOnlyAcrossEarlyClose | programs/enclavekit/src/instructions/close_wallet.rs:49-51 | if one message takes effect at two steps of a run, both are on one wallet, which was closed in between at a time when the message was unexpired |
| Resubmission.ExpiredNeverActs | programs/enclavekit/src/authorization.rs:50-53 | a message whose expiry is at most the clock of some step takes effect at no later step, in this lifetime or another |
| Resubmission.FoundingPassesAgain | programs/enclavekit/src/instructions/close_wallet.rs:49-51 | from every chain in order, any owner with two funded relayers has a founding that passes, a close that passes, and the founding then passes again from the other relayer at a later time |
| Resubmission.SignaturePassesAgain | programs/enclavekit/src/instructions/close_wallet.rs:49-51 | the claim that a signature cannot pass again after a close fails: in concrete surroundings one run's first and third steps carry the same call and signature, both take effect, and the second is a close |
| History.GuardiansAreListed | programs/enclavekit/src/instructions/set_guardians.rs:73-76 | at any point of any run the stored list is the one its owner signed, or the empty one of its creation, at a step of this lifetime that no later list replaced |
| History.StandingIsListed | programs/enclavekit/src/instructions/propose_rotation.rs:84-108 | a standing proposal names a key its guardian signed, and that guardian was on the owner-signed list in force when it proposed |
| History.ActiveKeyIsLegitimate | programs/enclavekit/src/instructions/propose_rotation.rs:74-115 | by induction on runs, each active key is the founding key of this lifetime, or was named by its predecessor, or was confirmed from the proposal standing at that moment, made by a guardian on the list in force when it spoke |
| EventLog.CreationIsAnnouncedOnce | programs/enclavekit/src/lib.rs:40-51 | WalletCreated is emitted first and exactly when the wallet was absent, with the key that hashes to its id |
| EventLog.EventsShow | programs/enclavekit/src/events.rs:5-89 | replaying one transaction's events over a faithful view gives a faithful view, for every wallet |
| EventLog.LogShowsState | programs/enclavekit/src/events.rs:5-89 | replaying a run's log gives, for every wallet, its existence, key, guardians, pending key with guardian and opening time, and nonce |
| Money.Conserves | programs/enclavekit/src/instructions/close_wallet.rs:71-90 | no instruction makes or destroys lamports, advanced and returned rent included, whichever accounts coincide |
| Money.RunConserves | programs/enclavekit/src/authorization.rs:86-128 | nor does any run |
| Money.IsolatesWallets | programs/enclavekit/src/lib.rs:25-173 | a call on one wallet leaves every other wallet's state alone and lowers no account but its vault, its state account and a rent-advancing relayer |
| Money.EmptiesVault | programs/enclavekit/src/instructions/sweep_vault.rs:51-101 | a sweep or close to anyone else leaves the vault at exactly 0, whatever the fee |
| Money.ClosingEmptiesState | programs/enclavekit/src/instructions/close_wallet.rs:17-25 | a close removes the state and empties its account |
| Money.TransferGuardIsExact | programs/enclavekit/src/instructions/transfer_sol.rs:72-99 | once authorised, a transfer passes if and only if the unbounded sum of amount, cap and rent is covered, for every fee asked, and the vault keeps rent plus the unclaimed cap |
| Money.GuardianIsConfined | programs/enclavekit/src/instructions/propose_rotation.rs:84-124 | a step the owner did not sign changes only the rotation slot and nonce, and moves at most its cap from the vault to the relayer |
| Money.RelayerOnlySplits | programs/enclavekit/src/authorization.rs:55-66 | two relayings of one message leave equal wallets and equal balances but for the vault, the recipient and the relayers |
| Money.RelayerCannotDivert | programs/enclavekit/src/authorization.rs:109-128 | of two relayings of one message, by relayers apart from the vault: a transfer changes every account but the vault and the relayers' equally, its recipient included; a sweep or close to anyone else leaves the vault at 0 both times; the events agree one by one but for the fee and, in a payout of everything, the split between recipient and fee |
| Money.EarnsTheRefund | programs/enclavekit/src/authorization.rs:111-128 | the lamports that reach a relayer's own account, rent advanced or returned apart, are what it asked or what was signed, whichever is less, and on a close at most what the vault held; the event announces the same fee |
| Money.RefundsWithinCaps | programs/enclavekit/src/authorization.rs:109-128 | in a lifetime all refunds together are at most the sum of the caps of the distinct messages executed |
| Money.RelayersEarnWithinCaps | programs/enclavekit/src/authorization.rs:109-128 | in a lifetime the balance gains of the relayers' own accounts, rent apart, are those refunds, and so stay within the caps of the distinct messages executed |
| Money.OutflowWithinMessages | programs/enclavekit/src/authorization.rs:111-128 | without sweep or close the vault falls by at most the transfers and caps of the distinct messages executed, whatever others do |
| Recovery.SignerCanSubmit | programs/enclavekit/src/constants.rs:15-25 | whoever can sign can put any call into a transaction the runtime and the program read as meant |
| Recovery.RecoveryProposes | programs/enclavekit/src/instructions/propose_rotation.rs:84-115 | at any time, the free proposal of a listed guardian other than the owner gets through if and only if no other guardian's unexpired proposal is pending, and then holds the slot |
| Recovery.RivalCanKeepSlot | programs/enclavekit/src/instructions/propose_rotation.rs:92-108 | the other side: a guardian that holds the slot can propose again at any time for nothing, and every other guardian is then refused until ten days later |
| Recovery.RecoveryIsNeverLockedOut | programs/enclavekit/src/instructions/propose_rotation.rs:89-115 | from every chain in order there are two transactions, a proposal by a listed guardian other than the owner at the computed time and a confirmation, that install any key for nothing without the owner; existential: rivals are taken to stay silent meanwhile |
| Recovery.EveryRunCanRecover | programs/enclavekit/src/instructions/propose_rotation.rs:89-115 | every run goes on, from any time not before its last transaction, to a longer run that those two transactions end with the new key active |
| Recovery.OwnerCanAlwaysVeto | programs/enclavekit/src/instructions/cancel_rotation.rs:43-66 | as long as a proposal is pending, in its window or not, the owner can drop it for nothing and keep everything else |
| Recovery.OnlyActiveKeyActs | programs/enclavekit/src/authorization.rs:76-83 | every transfer, list, sweep, close or cancellation authentically signed by another key than the active one, a guardian's or a former owner's, fails as a whole with KeyMismatch (a close naming the state account as relayer fails before that) |
| Recovery.GuardianTakesOverLostPhone | programs/enclavekit/tests/test_recovery.rs:97-181 | from an absent wallet: a founding with a guardian, a false alarm the owner cancels, the guardian's second proposal, too early to confirm at any time before 72 hours and no leave to act as owner, then a confirmation that keeps nonce, id and guardians, after which the lost phone is refused |
| Program.WalletAccount.VerifyEnclaveAuthorization | programs/enclavekit/src/authorization.rs:21-74 | the in-place checks and creation end in the authorised account and signer, or the first failing check's error |
| Program.WalletAccount.TakeRotation | programs/enclavekit/src/state.rs:123-127 | empties the slot to zeros and returns what it held |
| Program.Accounts.TransferFromVault | programs/enclavekit/src/authorization.rs:86-107 | pays out of the wallet's own vault or changes nothing |
| Program.Accounts.RefundRelayer | programs/enclavekit/src/authorization.rs:111-128 | pays and returns one of asked fee and signed cap, and no more than either |
| Program.Accounts.TransferSol | programs/enclavekit/src/instructions/transfer_sol.rs:51-107 | the stepwise handler, with both checked additions, does what TransferFollows is about |
| Program.Accounts.SweepVault | programs/enclavekit/src/instructions/sweep_vault.rs:55-101 | the stepwise handler does what SweepFollows is about |
| Program.Accounts.SetGuardians | programs/enclavekit/src/instructions/set_guardians.rs:46-91 | the stepwise handler does what GuardiansFollow is about |
| Program.Accounts.CancelRotation | programs/enclavekit/src/instructions/cancel_rotation.rs:44-80 | the stepwise handler does what CancelFollows is about |
| Program.Accounts.ProposeRotation | programs/enclavekit/src/instructions/propose_rotation.rs:50-127 | the stepwise handler does what ProposeFollows is about |
| Program.Accounts.CloseWallet | programs/enclavekit/src/instructions/close_wallet.rs:52-98 | the stepwise handler does what CloseFollows is about |
| Program.Accounts.ConfirmRotation | programs/enclavekit/src/instructions/confirm_rotation.rs:19-40 | the stepwise handler does what ConfirmFollows is about |
| EnclaveKit.TransactionKeeps | programs/enclavekit/src/lib.rs:19-174 | a transaction keeps the chain in order and the log faithful to it |
| EnclaveKit.EnclaveKit.Open | programs/enclavekit/src/instructions/transfer_sol.rs:17-48 | hands over fresh copies of the stored or newly funded account, or the error that stops the call |
| EnclaveKit.EnclaveKit.Save | programs/enclavekit/src/instructions/close_wallet.rs:17-25 | writes the account back, or closes it into the relayer |
| EnclaveKit.EnclaveKit.TransferSol | programs/enclavekit/src/lib.rs:25-52 | all of the transaction or none of it, the first one on an absent wallet included, which never fails for want of an account; wallets stay in order and the event log keeps showing every one of them |
| EnclaveKit.EnclaveKit.SetGuardians | programs/enclavekit/src/lib.rs:54-81 | same, for a new guardian list |
| EnclaveKit.EnclaveKit.CancelRotation | programs/enclavekit/src/lib.rs:83-100 | same, for a cancellation |
| EnclaveKit.EnclaveKit.ProposeRotation | programs/enclavekit/src/lib.rs:102-122 | same, for a proposal or an owner's swap |
| EnclaveKit.EnclaveKit.ConfirmRotation | programs/enclavekit/src/lib.rs:124-128 | same, for a confirmation, without any signature |
| EnclaveKit.EnclaveKit.SweepVault | programs/enclavekit/src/lib.rs:130-154 | same, for a sweep |
| EnclaveKit.EnclaveKit.CloseWallet | programs/enclavekit/src/lib.rs:156-173 | same, for a close, after which the wallet is absent |

## Left out

- ECDSA, curve arithmetic, SHA-256 and low-S: foreign code, parameters of the model; `RuntimeChecked` states what the runtime guarantees.
- PDA derivation and bump search, account ownership, seeds and discriminator checks: library behaviour; addresses are functions of the wallet id, and a missing account, a close into the state account itself and an unpayable rent are the account errors kept.
- The Instructions sysvar's byte format and `emit_cpi!`: the sysvar is a list of instructions with an index, the events a list.
- Several program instructions in one transaction: each transaction runs one.
- Rent-state checks of the runtime after a transaction, and transaction fees: enforced outside the program.
- The `devnet` build, whose rotation delay is 60 seconds: the default build's 72 hours are used.
- `TransferToken` as an instruction: the program has none; it is in the encoding only.
- `attested` beyond its being false: nothing in the program sets it to true.
- Recovery.RecoveryIsNeverLockedOut: not promised against a rival guardian that keeps proposing, because such a rival does keep the slot (`RivalCanKeepSlot`) until the owner replaces the list, cancels or changes the key.
- `crates/gen-vectors`, `vectors/`, the Kora example and configuration, IDL and deployment: fixed data and input/output.
- `Vec` capacity and allocation in `to_bytes` and the message copy: sequences are values, so sharing is not modelled.
