/**
 * Each call in plain terms: what makes it pass, what it leaves, what it moves and what it announces, told
 * by calls, bytes, seconds and lamports and not by the functions the instructions compute with.
 */
module Observed {
  import opened Prelude
  import opened Errors
  import opened Actions
  import Preimages
  import opened Precompile
  import opened WalletState
  import opened Ledger
  import opened Instructions
  import opened Rules

  // ----- Before -----

  /** The vault, the state account and the relayer are three accounts. */
  predicate Apart(env: Env, tx: Tx) {
    var id := tx.call.Wallet();
    && env.vaultAddress(id) != env.stateAddress(id)
    && tx.relayer !in {env.vaultAddress(id), env.stateAddress(id)}
  }

  function VaultOf(env: Env, c: Chain, tx: Tx): nat {
    Balance(c.balances, env.vaultAddress(tx.call.Wallet()))
  }

  function StateOf(env: Env, c: Chain, tx: Tx): nat {
    Balance(c.balances, env.stateAddress(tx.call.Wallet()))
  }

  /** `key` signed this call, alive and in turn; an absent wallet takes it as a founding it can be paid the rent for. */
  ghost predicate Speaks(env: Env, c: Chain, tx: Tx, key: Key) {
    && Carried(tx, key)
    && tx.now < tx.call.auth.expiresAt
    && tx.call.auth.nonce < 0xFFFF_FFFF_FFFF_FFFF
    && var id := tx.call.auth.walletId;
       if id in c.wallets then tx.call.auth.nonce == c.wallets[id].nonce
       else
         && (tx.call.TransferSol? || tx.call.SetGuardians? || tx.call.SweepVault?)
         && tx.call.auth.nonce == 0 && env.sha256(key) == id
         && env.stateRent <= StateOf(env, c, tx) + Balance(c.balances, tx.relayer)
  }

  ghost predicate Carried(tx: Tx, key: Key) {
    && !tx.call.ConfirmRotation?
    && exists message :: Precedes(tx.sysvar, key, message) && MessageSays(message, tx.call)
  }

  /** And it is the owner's to make. */
  ghost predicate OwnerSpeaks(env: Env, c: Chain, tx: Tx, key: Key) {
    && Speaks(env, c, tx, key)
    && (tx.call.auth.walletId in c.wallets ==> c.wallets[tx.call.auth.walletId].activeKey == key)
  }

  function Zeros(n: nat): Bytes {
    seq(n, _ => 0)
  }

  function NoSlot(): GuardianSlot {
    GuardianSlot(KindNone, Zeros(33), Zeros(32))
  }

  function NoRotation(): RotationSlot {
    RotationSlot(false, PendingRotation(Zeros(33), 0, 0))
  }

  /** The wallet the call starts from: the stored one, or a blank one of the signer's. */
  function Start(env: Env, c: Chain, tx: Tx, key: Key): SmartWallet {
    var id := tx.call.Wallet();
    if id in c.wallets then c.wallets[id]
    else SmartWallet(id, key, 0, false, [NoSlot(), NoSlot(), NoSlot()], NoRotation(), env.stateBump(id),
                     env.vaultBump(id))
  }

  lemma Blanks()
    ensures Zeros(33) == ZERO_KEY && Zeros(32) == ZERO_32
    ensures NoSlot() == EMPTY_SLOT && NoRotation() == EMPTY_ROTATION
    ensures [NoSlot(), NoSlot(), NoSlot()] == EMPTY_SLOTS
  {
  }

  /** The rules' words for the same. */
  lemma SpeaksIffAuthentic(env: Env, c: Chain, tx: Tx)
    requires ChainOk(env, c) && !tx.call.ConfirmRotation?
    ensures Authentic(env, Stored(c, tx.call.Wallet()), tx) && RentPayable(env, c, tx) <==>
            Speaks(env, c, tx, Signer(tx))
    ensures forall key :: Speaks(env, c, tx, key) ==> key == Signer(tx)
    ensures Acting(env, Stored(c, tx.call.Wallet()), tx) == Start(env, c, tx, Signer(tx))
  {
    hide Preimages.Means, Preimages.Decode, Says, LoadPayload, Precedes, MessageSays, WalletOk, Total, Zeros,
      NoSlot, NoRotation;
    Blanks();
    MeansIffSays(Message(tx), tx.call);
    forall key, message
      ensures LoadPayload(tx.sysvar) == Ok(SignedPayload(key, message)) <==> Precedes(tx.sysvar, key, message)
    {
      LoadsExactly(tx.sysvar, key, message);
    }
    if LoadPayload(tx.sysvar).Ok? {
      assert Precedes(tx.sysvar, Signer(tx), Message(tx));
    }
  }

  // ----- After -----

  /** The wallet is as said, every other as it was; the event is announced, after the creation if there is one. */
  ghost predicate Results(env: Env, c: Chain, tx: Tx, key: Key, w: Option<SmartWallet>, e: Event) {
    var id := tx.call.Wallet();
    var r := Execute(env, c, tx);
    && r.Ok?
    && (if w.None? then id !in r.value.chain.wallets
        else id in r.value.chain.wallets && r.value.chain.wallets[id] == w.value)
    && (forall other | other != id :: Stored(r.value.chain, other) == Stored(c, other))
    && r.value.events == if id in c.wallets then [e] else [WalletCreated(id, key), e]
  }

  function Lesser(x: nat, y: nat): nat {
    if x <= y then x else y
  }

  /** What the relayer takes out of the vault: what it asks or what was signed, whichever is less. */
  function Fee(tx: Tx): nat
    requires !tx.call.ConfirmRotation?
  {
    Lesser(tx.call.relayerFee, tx.call.auth.maxRelayerFee)
  }

  /** What the relayer advances: the state account is brought up to its rent. */
  function Advance(env: Env, c: Chain, tx: Tx): nat {
    if tx.call.Wallet() in c.wallets || StateOf(env, c, tx) >= env.stateRent then 0
    else env.stateRent - StateOf(env, c, tx)
  }

  /** `paid` goes from the vault to a fourth account and `fee` to the relayer; the rent passes between those two. */
  ghost predicate Moves(env: Env, c: Chain, tx: Tx, b: Balances, to: Address, paid: nat, fee: nat) {
    var vault := env.vaultAddress(tx.call.Wallet());
    var state := env.stateAddress(tx.call.Wallet());
    to !in {vault, state, tx.relayer} ==>
      && Balance(b, vault) == VaultOf(env, c, tx) - paid - fee
      && Balance(b, to) == Balance(c.balances, to) + paid
      && (if tx.call.CloseWallet? then
            && Balance(b, state) == 0
            && Balance(b, tx.relayer) == Balance(c.balances, tx.relayer) + fee + StateOf(env, c, tx)
          else
            && Balance(b, state) == StateOf(env, c, tx) + Advance(env, c, tx)
            && Balance(b, tx.relayer) == Balance(c.balances, tx.relayer) + fee - Advance(env, c, tx))
      && forall a | a !in {vault, to, state, tx.relayer} :: Balance(b, a) == Balance(c.balances, a)
  }

  /** The rules' words for it. */
  ghost predicate MovesAsRuled(env: Env, c: Chain, tx: Tx, b: Balances) {
    forall a :: Balance(b, a) == Balance(c.balances, a) + Change(env, c, tx, a)
  }

  lemma MovesByRules(env: Env, c: Chain, tx: Tx, b: Balances, to: Address, paid: nat, fee: nat)
    requires Apart(env, tx) && MovesAsRuled(env, c, tx, b)
    requires tx.call.Wallet() in c.wallets || !tx.call.CloseWallet?
    requires fee == RefundPaid(tx, VaultOf(env, c, tx)) && paid == Paid(tx, VaultOf(env, c, tx))
    requires paid != 0 || tx.call.TransferSol? || tx.call.SweepVault? || tx.call.CloseWallet? ==> to == Recipient(tx)
    ensures Moves(env, c, tx, b, to, paid, fee)
  {
    hide RefundPaid, Paid, Recipient, Balance;
    HeldIsTheVaults(env, c, tx);
  }

  /** Only `fee` leaves the vault, for the relayer. */
  ghost predicate Refunds(env: Env, c: Chain, tx: Tx, b: Balances, fee: nat) {
    var vault := env.vaultAddress(tx.call.Wallet());
    var state := env.stateAddress(tx.call.Wallet());
    && Balance(b, vault) == VaultOf(env, c, tx) - fee
    && Balance(b, state) == StateOf(env, c, tx) + Advance(env, c, tx)
    && Balance(b, tx.relayer) == Balance(c.balances, tx.relayer) + fee - Advance(env, c, tx)
    && forall a | a !in {vault, state, tx.relayer} :: Balance(b, a) == Balance(c.balances, a)
  }

  lemma RefundsByRules(env: Env, c: Chain, tx: Tx, b: Balances, fee: nat)
    requires Apart(env, tx) && MovesAsRuled(env, c, tx, b)
    requires tx.call.SetGuardians? || tx.call.CancelRotation? || tx.call.ProposeRotation?
    requires fee == RefundPaid(tx, VaultOf(env, c, tx))
    ensures Refunds(env, c, tx, b, fee)
  {
    hide RefundPaid, Balance;
    HeldIsTheVaults(env, c, tx);
  }

  lemma HeldIsTheVaults(env: Env, c: Chain, tx: Tx)
    requires Apart(env, tx)
    ensures VaultHeld(env, c, tx) == VaultOf(env, c, tx)
  {
  }

  // ----- Each call -----

  /** A transfer passes, from its owner, exactly when the vault covers amount, cap and its own rent. */
  lemma TransferObserved(env: Env, c: Chain, tx: Tx, key: Key)
    requires ChainOk(env, c) && Apart(env, tx) && tx.call.TransferSol? && OwnerSpeaks(env, c, tx, key)
    ensures Execute(env, c, tx).Ok? <==>
            tx.call.lamports + tx.call.auth.maxRelayerFee + env.vaultRent <= VaultOf(env, c, tx)
    ensures Execute(env, c, tx).Ok? ==>
            && Results(env, c, tx, key, Some(Start(env, c, tx, key).(nonce := tx.call.auth.nonce + 1)),
                       SolTransferred(tx.call.auth.walletId, tx.call.to, tx.call.lamports, Fee(tx)))
            && Moves(env, c, tx, Commit(env, c, tx).balances, tx.call.to, tx.call.lamports, Fee(tx))
  {
    hide Execute, Authentic, Speaks, Total, WalletOk, Start, Moves, Flow, Acting, Signer;
    SpeaksIffAuthentic(env, c, tx);
    ExecuteExactly(env, c, tx);
    HeldIsTheVaults(env, c, tx);
    OwnerIsActive(env, c, tx, key);
    if Execute(env, c, tx).Ok? {
      MovesByRules(env, c, tx, Commit(env, c, tx).balances, tx.call.to, tx.call.lamports, Fee(tx));
    }
  }

  lemma OwnerIsActive(env: Env, c: Chain, tx: Tx, key: Key)
    requires ChainOk(env, c) && !tx.call.ConfirmRotation?
    ensures OwnerSpeaks(env, c, tx, key) <==>
            ByOwner(env, Stored(c, tx.call.Wallet()), tx) && RentPayable(env, c, tx) && key == Signer(tx)
  {
    hide Authentic, Speaks, Total, WalletOk, Signer, RentPayable;
    SpeaksIffAuthentic(env, c, tx);
  }

  /** A sweep passes, from its owner, exactly when the vault covers the fee, and takes all the rest. */
  lemma SweepObserved(env: Env, c: Chain, tx: Tx, key: Key)
    requires ChainOk(env, c) && Apart(env, tx) && tx.call.SweepVault? && OwnerSpeaks(env, c, tx, key)
    ensures Execute(env, c, tx).Ok? <==> Fee(tx) <= VaultOf(env, c, tx)
    ensures Execute(env, c, tx).Ok? ==>
            var rest := VaultOf(env, c, tx) - Fee(tx);
            && Results(env, c, tx, key, Some(Start(env, c, tx, key).(nonce := tx.call.auth.nonce + 1)),
                       VaultSwept(tx.call.auth.walletId, tx.call.to, rest, Fee(tx)))
            && Moves(env, c, tx, Commit(env, c, tx).balances, tx.call.to, rest, Fee(tx))
  {
    hide Execute, Authentic, Speaks, Total, WalletOk, Start, Moves, Flow, Acting, Signer;
    SpeaksIffAuthentic(env, c, tx);
    ExecuteExactly(env, c, tx);
    HeldIsTheVaults(env, c, tx);
    OwnerIsActive(env, c, tx, key);
    if Execute(env, c, tx).Ok? {
      MovesByRules(env, c, tx, Commit(env, c, tx).balances, tx.call.to, VaultOf(env, c, tx) - Fee(tx), Fee(tx));
    }
  }

  /** A close always passes from its owner: the vault pays what it holds, and the account is gone with its rent. */
  lemma CloseObserved(env: Env, c: Chain, tx: Tx, key: Key)
    requires ChainOk(env, c) && Apart(env, tx) && tx.call.CloseWallet? && OwnerSpeaks(env, c, tx, key)
    ensures var fee := Lesser(Fee(tx), VaultOf(env, c, tx));
            var rest := VaultOf(env, c, tx) - fee;
            && Results(env, c, tx, key, None, WalletClosed(tx.call.auth.walletId, tx.call.to, rest, fee))
            && Moves(env, c, tx, Commit(env, c, tx).balances, tx.call.to, rest, fee)
  {
    hide Execute, Authentic, Speaks, Total, WalletOk, Start, Moves, Flow, Acting, Signer;
    SpeaksIffAuthentic(env, c, tx);
    ExecuteExactly(env, c, tx);
    HeldIsTheVaults(env, c, tx);
    OwnerIsActive(env, c, tx, key);
    AbsentIsNotClosed(env, c, tx, key);
    var fee := Lesser(Fee(tx), VaultOf(env, c, tx));
    MovesByRules(env, c, tx, Commit(env, c, tx).balances, tx.call.to, VaultOf(env, c, tx) - fee, fee);
  }

  lemma AbsentIsNotClosed(env: Env, c: Chain, tx: Tx, key: Key)
    requires Speaks(env, c, tx, key) && !tx.call.TransferSol? && !tx.call.SetGuardians? && !tx.call.SweepVault?
    ensures tx.call.Wallet() in c.wallets
  {
    hide Precedes, MessageSays, Balance;
  }

  /** What one entry of a signed list is stored as. */
  function Entry(g: Guardian): GuardianSlot {
    match g
    case NoGuardian => NoSlot()
    case P256(key) => GuardianSlot(KindP256, key, Zeros(32))
    case WebAuthn(key) => GuardianSlot(KindWebAuthn, key, Zeros(32))
  }

  function WithList(w: SmartWallet, auth: Authorization, gs: GuardianList): SmartWallet
    requires auth.nonce < U64_MAX
  {
    w.(nonce := auth.nonce + 1, rotation := NoRotation(), guardians := [Entry(gs[0]), Entry(gs[1]), Entry(gs[2])])
  }

  lemma EntriesAreSlots(gs: GuardianList)
    ensures SlotsOf(gs) == [Entry(gs[0]), Entry(gs[1]), Entry(gs[2])]
  {
    Blanks();
  }

  /** A list passes, from its owner, exactly when no entry is a passkey and the fee is covered; it ends any proposal. */
  lemma GuardiansObserved(env: Env, c: Chain, tx: Tx, key: Key)
    requires ChainOk(env, c) && Apart(env, tx) && tx.call.SetGuardians? && OwnerSpeaks(env, c, tx, key)
    ensures Execute(env, c, tx).Ok? <==>
            (forall g | g in tx.call.guardians :: !g.WebAuthn?) && Fee(tx) <= VaultOf(env, c, tx)
    ensures Execute(env, c, tx).Ok? ==>
            && Results(env, c, tx, key, Some(WithList(Start(env, c, tx, key), tx.call.auth, tx.call.guardians)),
                       GuardiansSet(tx.call.auth.walletId, tx.call.guardians))
            && Refunds(env, c, tx, Commit(env, c, tx).balances, Fee(tx))
  {
    hide Execute, Authentic, Speaks, Total, WalletOk, Start, Refunds, Flow, Acting, Signer, SlotsOf, Entry, NoRotation;
    SpeaksIffAuthentic(env, c, tx);
    ExecuteExactly(env, c, tx);
    HeldIsTheVaults(env, c, tx);
    OwnerIsActive(env, c, tx, key);
    Blanks();
    EntriesAreSlots(tx.call.guardians);
    if Execute(env, c, tx).Ok? {
      RefundsByRules(env, c, tx, Commit(env, c, tx).balances, Fee(tx));
    }
  }

  /** A cancellation passes, from the owner, exactly when there is something to cancel and the fee is covered. */
  lemma CancelObserved(env: Env, c: Chain, tx: Tx, key: Key)
    requires ChainOk(env, c) && Apart(env, tx) && tx.call.CancelRotation? && OwnerSpeaks(env, c, tx, key)
    ensures var w := Start(env, c, tx, key);
            && (Execute(env, c, tx).Ok? <==> w.rotation.pending && Fee(tx) <= VaultOf(env, c, tx))
            && (Execute(env, c, tx).Ok? ==>
                  && Results(env, c, tx, key,
                             Some(w.(nonce := tx.call.auth.nonce + 1, rotation := NoRotation())),
                             RotationCancelled(tx.call.auth.walletId, w.rotation.proposal.newKey))
                  && Refunds(env, c, tx, Commit(env, c, tx).balances, Fee(tx)))
  {
    hide Execute, Authentic, Speaks, Total, WalletOk, Start, Refunds, Flow, Acting, Signer, NoRotation;
    SpeaksIffAuthentic(env, c, tx);
    ExecuteExactly(env, c, tx);
    HeldIsTheVaults(env, c, tx);
    OwnerIsActive(env, c, tx, key);
    AbsentIsNotClosed(env, c, tx, key);
    Blanks();
    if Execute(env, c, tx).Ok? {
      RefundsByRules(env, c, tx, Commit(env, c, tx).balances, Fee(tx));
    }
  }

  /** An owner's proposal swaps the key at once: it passes exactly when the key is not zero and the fee is covered. */
  lemma SwapObserved(env: Env, c: Chain, tx: Tx, key: Key)
    requires ChainOk(env, c) && Apart(env, tx) && tx.call.ProposeRotation? && OwnerSpeaks(env, c, tx, key)
    ensures Execute(env, c, tx).Ok? <==> tx.call.newKey != Zeros(33) && Fee(tx) <= VaultOf(env, c, tx)
    ensures Execute(env, c, tx).Ok? ==>
            && Results(env, c, tx, key,
                       Some(Start(env, c, tx, key).(nonce := tx.call.auth.nonce + 1, activeKey := tx.call.newKey,
                                                    attested := false, rotation := NoRotation())),
                       KeyRotated(tx.call.auth.walletId, tx.call.newKey, false))
            && Refunds(env, c, tx, Commit(env, c, tx).balances, Fee(tx))
  {
    hide Execute, Authentic, Speaks, Total, WalletOk, Start, Refunds, Flow, Acting, Signer, NoRotation, Position, Zeros;
    SpeaksIffAuthentic(env, c, tx);
    ExecuteExactly(env, c, tx);
    HeldIsTheVaults(env, c, tx);
    OwnerIsActive(env, c, tx, key);
    AbsentIsNotClosed(env, c, tx, key);
    Blanks();
    if Execute(env, c, tx).Ok? {
      RefundsByRules(env, c, tx, Commit(env, c, tx).balances, Fee(tx));
    }
  }

  /** Slot `i` is the first that holds `key` as a P-256 guardian. */
  predicate IsListedAt(w: SmartWallet, key: Key, i: nat) {
    && i < 3 && w.guardians[i].kind.KindP256? && w.guardians[i].key == key
    && forall j | 0 <= j < i :: !(w.guardians[j].kind.KindP256? && w.guardians[j].key == key)
  }

  lemma ListedIsFound(w: SmartWallet, key: Key, i: nat)
    ensures IsListedAt(w, key, i) <==> w.P256Guardian(key) == Some(i)
  {
  }

  /** The slot is the proposer's to take: nobody else's proposal is younger than ten days. */
  predicate MayPropose(w: SmartWallet, key: Key, i: nat, now: i64) {
    && IsListedAt(w, key, i)
    && (w.rotation.pending ==> w.rotation.proposal.proposedBy == i || now > w.rotation.proposal.proposedAt + 864000)
  }

  function WithProposal(w: SmartWallet, auth: Authorization, newKey: Key, now: i64, i: nat): SmartWallet
    requires auth.nonce < U64_MAX && i < 3
  {
    w.(nonce := auth.nonce + 1, rotation := RotationSlot(true, PendingRotation(newKey, now, i)))
  }

  /** 72 hours later, or the last second there is. */
  function Opening(now: i64): i64 {
    if now <= 0x7FFF_FFFF_FFFF_FFFF - 259200 then now + 259200 else 0x7FFF_FFFF_FFFF_FFFF
  }

  /** The guardian in slot `i` has opened its proposal, and announced when it can be confirmed. */
  ghost predicate Opens(env: Env, c: Chain, tx: Tx, key: Key, i: nat)
    requires tx.call.ProposeRotation? && tx.call.auth.nonce < U64_MAX && i < 3
  {
    Results(env, c, tx, key, Some(WithProposal(Start(env, c, tx, key), tx.call.auth, tx.call.newKey, tx.now, i)),
            RotationProposed(tx.call.auth.walletId, tx.call.newKey, key, Opening(tx.now)))
  }

  ghost predicate SomeoneMayPropose(w: SmartWallet, key: Key, now: i64) {
    exists i :: MayPropose(w, key, i, now)
  }

  lemma MayProposeAsRuled(w: SmartWallet, key: Key, now: i64)
    ensures SomeoneMayPropose(w, key, now) <==>
            w.P256Guardian(key).Some? && SlotFree(w, w.P256Guardian(key).value, now)
  {
    hide Position, IsListedAt;
    var slot := w.P256Guardian(key);
    if slot.Some? {
      ListedIsFound(w, key, slot.value);
      if SlotFree(w, slot.value, now) {
        assert MayPropose(w, key, slot.value, now);
      }
    }
    if SomeoneMayPropose(w, key, now) {
      var i :| MayPropose(w, key, i, now);
      ListedIsFound(w, key, i);
    }
  }

  /**
   * Anyone else's proposal passes exactly when the signer is a listed guardian who may take the slot, the
   * key is not zero and the fee is covered.
   */
  lemma ProposalObserved(env: Env, c: Chain, tx: Tx, key: Key, i: nat)
    requires ChainOk(env, c) && Apart(env, tx) && tx.call.ProposeRotation? && Speaks(env, c, tx, key)
    requires Start(env, c, tx, key).activeKey != key
    ensures Execute(env, c, tx).Ok? <==>
            && tx.call.newKey != Zeros(33) && Fee(tx) <= VaultOf(env, c, tx)
            && SomeoneMayPropose(Start(env, c, tx, key), key, tx.now)
    ensures Execute(env, c, tx).Ok? && IsListedAt(Start(env, c, tx, key), key, i) ==> Opens(env, c, tx, key, i)
    ensures Execute(env, c, tx).Ok? ==> Refunds(env, c, tx, Commit(env, c, tx).balances, Fee(tx))
  {
    hide Execute, Authentic, Speaks, Total, WalletOk, Start, Refunds, Flow, Acting, Signer, Position, Zeros, IsListedAt,
      SomeoneMayPropose, SlotFree;
    SpeaksIffAuthentic(env, c, tx);
    ExecuteExactly(env, c, tx);
    HeldIsTheVaults(env, c, tx);
    AbsentIsNotClosed(env, c, tx, key);
    Blanks();
    MayProposeAsRuled(Start(env, c, tx, key), key, tx.now);
    ListedIsFound(Start(env, c, tx, key), key, i);
    if Execute(env, c, tx).Ok? {
      RefundsByRules(env, c, tx, Commit(env, c, tx).balances, Fee(tx));
    }
  }

  /** A confirmation needs no signature: it passes from 72 hours to ten days after the proposal, and moves nothing. */
  lemma ConfirmObserved(env: Env, c: Chain, tx: Tx)
    requires ChainOk(env, c) && tx.call.ConfirmRotation? && tx.call.walletId in c.wallets
    ensures var w := c.wallets[tx.call.walletId];
            var since := tx.now - w.rotation.proposal.proposedAt;
            && (Execute(env, c, tx).Ok? <==>
                && w.rotation.pending
                && (since >= 259200 || tx.now == 0x7FFF_FFFF_FFFF_FFFF)
                && since <= 864000)
            && (Execute(env, c, tx).Ok? ==>
                  && Results(env, c, tx, w.activeKey,
                             Some(w.(activeKey := w.rotation.proposal.newKey, attested := false,
                                     rotation := NoRotation())),
                             KeyRotated(tx.call.walletId, w.rotation.proposal.newKey, true))
                  && forall a :: Balance(Commit(env, c, tx).balances, a) == Balance(c.balances, a))
  {
    hide Execute, Total, WalletOk, NoRotation, Balance;
    ExecuteExactly(env, c, tx);
    Blanks();
  }

  // ----- And nobody else -----

  /** Whatever passes was said by someone; only a proposal can come from anyone but the owner. */
  lemma SomeoneSpoke(env: Env, c: Chain, tx: Tx)
    requires ChainOk(env, c) && Execute(env, c, tx).Ok? && !tx.call.ConfirmRotation?
    ensures exists key :: Speaks(env, c, tx, key)
    ensures !tx.call.ProposeRotation? ==> exists key :: OwnerSpeaks(env, c, tx, key)
  {
    hide Execute, Leaves, Authentic, Speaks, Total, WalletOk, Signer, RentPayable, Acting, Payable, Position;
    SpeaksIffAuthentic(env, c, tx);
    ExecuteExactly(env, c, tx);
    OwnerIsActive(env, c, tx, Signer(tx));
    assert Speaks(env, c, tx, Signer(tx));
  }

  /** What the decoded message says of any signed call that passed. */
  lemma MessageIsTheCall(env: Env, c: Chain, tx: Tx)
    requires ChainOk(env, c) && Execute(env, c, tx).Ok? && !tx.call.ConfirmRotation?
    ensures Preimages.Decode(Message(tx)).Some?
    ensures var p := Preimages.Decode(Message(tx)).value;
            && p.programId == PROGRAM_ID
            && p.walletId == tx.call.auth.walletId && p.nonce == tx.call.auth.nonce
            && p.expiresAt == tx.call.auth.expiresAt && p.maxRelayerFee == tx.call.auth.maxRelayerFee
            && (tx.call.TransferSol? ==> p.action == Action.TransferSol(tx.call.to, tx.call.lamports))
            && (tx.call.SetGuardians? ==> p.action == Action.SetGuardians(tx.call.guardians))
            && (tx.call.CancelRotation? ==> p.action == Action.CancelRotation)
            && (tx.call.ProposeRotation? ==> p.action == Action.ProposeRotation(tx.call.newKey))
            && (tx.call.SweepVault? ==> p.action == Action.SweepVault(tx.call.to))
            && (tx.call.CloseWallet? ==> p.action == Action.CloseWallet(tx.call.to))
    ensures Precedes(tx.sysvar, Signer(tx), Message(tx))
  {
    hide Execute, Leaves, LoadPayload, Precedes, Preimages.Means, Preimages.Decode, Total, WalletOk, Payable, Position,
      SlotFree, Acting;
    ExecuteExactly(env, c, tx);
    MeansIffSays(Message(tx), tx.call);
    LoadsExactly(tx.sysvar, Signer(tx), Message(tx));
  }

  lemma LoadingFindsAccounts(s: Sysvar)
    ensures LoadPayload(s) != Err(AccountNotInitialized)
  {
    hide ParseOffsets, FixedLayout;
  }

  lemma HandlersFindAccounts(env: Env, w: SmartWallet, b: Balances, tx: Tx)
    requires tx.call.TransferSol? || tx.call.SetGuardians? || tx.call.SweepVault?
    ensures Handle(env, w, b, tx) != Err(AccountNotInitialized)
  {
    hide Preimages.Encode, LoadPayload, SlotsOf;
    LoadingFindsAccounts(tx.sysvar);
  }

  lemma FoundingFindsAccounts(env: Env, c: Chain, tx: Tx)
    requires tx.call.TransferSol? || tx.call.SetGuardians? || tx.call.SweepVault?
    ensures Execute(env, c, tx) != Err(AccountNotInitialized)
  {
    hide Handle;
    if Load(env, c, tx).Ok? {
      HandlersFindAccounts(env, Load(env, c, tx).value.wallet, Load(env, c, tx).value.balances, tx);
    }
  }

  /** Only a transfer, a list or a sweep makes a wallet; any other call on an absent one fails for want of it. */
  lemma AbsentIsRefused(env: Env, c: Chain, tx: Tx)
    requires tx.call.Wallet() !in c.wallets
    ensures tx.call.CancelRotation? || tx.call.ProposeRotation? || tx.call.CloseWallet? || tx.call.ConfirmRotation? <==>
            Execute(env, c, tx) == Err(AccountNotInitialized)
  {
    hide Handle;
    if tx.call.TransferSol? || tx.call.SetGuardians? || tx.call.SweepVault? {
      FoundingFindsAccounts(env, c, tx);
    }
  }

  /** An absent wallet is made exactly by a live first message that says so, by the key whose hash is its id. */
  lemma AbsentObserved(env: Env, c: Chain, tx: Tx)
    requires ChainOk(env, c) && tx.call.Wallet() !in c.wallets
    ensures Execute(env, c, tx).Ok? <==>
            && (tx.call.TransferSol? || tx.call.SweepVault?
                || (tx.call.SetGuardians? && forall g | g in tx.call.guardians :: !g.WebAuthn?))
            && Carried(tx, Signer(tx))
            && env.sha256(Signer(tx)) == tx.call.auth.walletId
            && tx.call.auth.nonce == 0 && tx.now < tx.call.auth.expiresAt
            && Affordable(env, c, tx)
  {
    hide Authentic, Execute, Leaves, Carried, Payable, Total, WalletOk, Signer, Position, Start, Acting;
    if !tx.call.ConfirmRotation? {
      SpeaksIffAuthentic(env, c, tx);
      OwnerIsActive(env, c, tx, Signer(tx));
      FoundingIsSpoken(env, c, tx);
    }
    ExecuteExactly(env, c, tx);
  }

  lemma FoundingIsSpoken(env: Env, c: Chain, tx: Tx)
    requires tx.call.Wallet() !in c.wallets && !tx.call.ConfirmRotation?
    ensures Speaks(env, c, tx, Signer(tx)) <==>
            && (tx.call.TransferSol? || tx.call.SetGuardians? || tx.call.SweepVault?)
            && Carried(tx, Signer(tx))
            && env.sha256(Signer(tx)) == tx.call.auth.walletId
            && tx.call.auth.nonce == 0 && tx.now < tx.call.auth.expiresAt
            && RentPayable(env, c, tx)
  {
    hide Carried, Signer;
  }
}
