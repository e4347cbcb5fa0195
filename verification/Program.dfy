/**
 * The program as it runs: accounts are loaded, changed step by step, and written back only when the
 * instruction succeeds. Every method is proved against the function of the same instruction.
 */
module Program {
  import opened Prelude
  import opened Errors
  import Preimages
  import opened Precompile
  import opened WalletState
  import opened Ledger
  import opened Instructions

  /** The deserialised state account of one wallet. */
  class WalletAccount {
    var walletId: Bytes32
    var activeKey: Key
    var nonce: u64
    var attested: bool
    var guardians: Slots
    var rotation: RotationSlot
    var stateBump: byte
    var vaultBump: byte

    function Value(): SmartWallet
      reads this
    {
      SmartWallet(walletId, activeKey, nonce, attested, guardians, rotation, stateBump, vaultBump)
    }

    constructor (w: SmartWallet)
      ensures Value() == w
    {
      walletId, activeKey, nonce, attested := w.walletId, w.activeKey, w.nonce, w.attested;
      guardians, rotation, stateBump, vaultBump := w.guardians, w.rotation, w.stateBump, w.vaultBump;
    }

    /** Empties the rotation slot and returns what it held. */
    method TakeRotation() returns (held: Option<PendingRotation>)
      modifies this`rotation
      ensures held == old(rotation).Get()
      ensures rotation == EMPTY_ROTATION
    {
      var slot := rotation;
      rotation := EMPTY_ROTATION;
      held := if slot.pending then Some(slot.proposal) else None;
    }

    /**
     * Creates the wallet on first use, checks the message and takes its nonce. On failure the account
     * may already be changed: it is the caller's to discard.
     */
    method VerifyEnclaveAuthorization(env: Env, tx: Tx) returns (r: Result<Key>)
      requires !tx.call.ConfirmRotation?
      modifies this
      ensures match Authorize(env, old(Value()), tx)
              case Ok(a) => r == Ok(a.signer) && Value() == a.wallet
              case Err(e) => r == Err(e)
    {
      hide LoadPayload, Preimages.Encode;
      var auth := tx.call.auth;
      var payload :- LoadSecp256r1Payload(tx.sysvar);
      if activeKey == ZERO_KEY {
        if env.sha256(payload.pubkey) != auth.walletId {
          return Err(WalletIdMismatch);
        }
        walletId, activeKey, nonce, attested := auth.walletId, payload.pubkey, 0, false;
        guardians, rotation := EMPTY_SLOTS, EMPTY_ROTATION;
        stateBump, vaultBump := env.stateBump(auth.walletId), env.vaultBump(auth.walletId);
      }
      if auth.nonce != nonce {
        return Err(NonceMismatch);
      }
      if auth.expiresAt <= tx.now {
        return Err(AuthorizationExpired);
      }
      var expected := Preimages.ToBytes(tx.call.SignedPreimage());
      if expected != payload.message {
        return Err(PreimageMismatch);
      }
      if nonce == U64_MAX {
        return Err(ArithmeticOverflow);
      }
      nonce := nonce + 1;
      return Ok(payload.pubkey);
    }
  }

  /** What a handler was meant to do, and what it did. */
  ghost predicate Matches(spec: Result<Done>, r: Result<Event>, wallet: SmartWallet, balances: Balances) {
    match spec
    case Ok(done) => r == Ok(done.event) && wallet == done.wallet && balances == done.balances
    case Err(e) => r == Err(e)
  }

  /** The accounts one instruction works on. */
  class Accounts {
    const env: Env
    const wallet: WalletAccount
    const bank: Bank

    constructor (env: Env, wallet: WalletAccount, bank: Bank)
      ensures this.env == env && this.wallet == wallet && this.bank == bank
    {
      this.env, this.wallet, this.bank := env, wallet, bank;
    }

    method TransferFromVault(to: Address, lamports: nat) returns (r: Result<()>)
      modifies bank
      ensures match Move(old(bank.balances), env.vaultAddress(wallet.walletId), to, lamports)
              case Ok(moved) => r == Ok(()) && bank.balances == moved
              case Err(e) => r == Err(e) && bank.balances == old(bank.balances)
    {
      r := bank.Transfer(env.vaultAddress(wallet.walletId), to, lamports);
    }

    method RefundRelayer(tx: Tx) returns (r: Result<nat>)
      requires !tx.call.ConfirmRotation?
      modifies bank
      ensures match Move(old(bank.balances), env.vaultAddress(wallet.walletId), tx.relayer, Refund(tx.call))
              case Ok(moved) => r == Ok(Refund(tx.call)) && bank.balances == moved
              case Err(e) => r == Err(e) && bank.balances == old(bank.balances)
      ensures r.Ok? ==>
              && r.value <= tx.call.relayerFee && r.value <= tx.call.auth.maxRelayerFee
              && (r.value == tx.call.relayerFee || r.value == tx.call.auth.maxRelayerFee)
    {
      var refund := Min(tx.call.relayerFee, tx.call.auth.maxRelayerFee);
      var _ :- TransferFromVault(tx.relayer, refund);
      return Ok(refund);
    }

    method RequireActiveKey(signer: Key) returns (r: Result<()>)
      ensures r == Require(signer == wallet.activeKey, KeyMismatch)
    {
      if signer != wallet.activeKey {
        return Err(KeyMismatch);
      }
      return Ok(());
    }

    method TransferSol(tx: Tx) returns (r: Result<Event>)
      requires tx.call.TransferSol?
      modifies wallet, bank
      ensures Matches(Transfer(env, old(wallet.Value()), old(bank.balances), tx), r, wallet.Value(), bank.balances)
    {
      hide Authorize, Move;
      var call := tx.call;
      var signer :- wallet.VerifyEnclaveAuthorization(env, tx);
      var _ :- RequireActiveKey(signer);
      var sum := call.lamports + call.auth.maxRelayerFee;
      if sum > U64_MAX {
        return Err(ArithmeticOverflow);
      }
      var required := sum + env.vaultRent;
      if required > U64_MAX {
        return Err(ArithmeticOverflow);
      }
      if Balance(bank.balances, env.vaultAddress(wallet.walletId)) < required {
        return Err(InsufficientVaultBalance);
      }
      var _ :- TransferFromVault(call.to, call.lamports);
      var refund :- RefundRelayer(tx);
      return Ok(SolTransferred(wallet.walletId, call.to, call.lamports, refund));
    }

    method SweepVault(tx: Tx) returns (r: Result<Event>)
      requires tx.call.SweepVault?
      modifies wallet, bank
      ensures Matches(Sweep(env, old(wallet.Value()), old(bank.balances), tx), r, wallet.Value(), bank.balances)
    {
      hide Authorize, Move;
      var signer :- wallet.VerifyEnclaveAuthorization(env, tx);
      var _ :- RequireActiveKey(signer);
      var refund := Min(tx.call.relayerFee, tx.call.auth.maxRelayerFee);
      var balance := Balance(bank.balances, env.vaultAddress(wallet.walletId));
      if balance < refund {
        return Err(InsufficientVaultBalance);
      }
      var lamports := balance - refund;
      var _ :- TransferFromVault(tx.call.to, lamports);
      var _ :- RefundRelayer(tx);
      return Ok(VaultSwept(wallet.walletId, tx.call.to, lamports, refund));
    }

    method SetGuardians(tx: Tx) returns (r: Result<Event>)
      requires tx.call.SetGuardians?
      modifies wallet, bank
      ensures Matches(ReplaceGuardians(env, old(wallet.Value()), old(bank.balances), tx), r, wallet.Value(),
                      bank.balances)
    {
      hide Authorize, Move;
      var guardians := tx.call.guardians;
      var signer :- wallet.VerifyEnclaveAuthorization(env, tx);
      var _ :- RequireActiveKey(signer);
      if exists g :: g in guardians && g.WebAuthn? {
        return Err(WebAuthnGuardianUnsupported);
      }
      assert !HasWebAuthn(guardians);
      wallet.guardians := SlotsOf(guardians);
      wallet.rotation := EMPTY_ROTATION;
      var _ :- RefundRelayer(tx);
      return Ok(GuardiansSet(wallet.walletId, guardians));
    }

    method CancelRotation(tx: Tx) returns (r: Result<Event>)
      requires tx.call.CancelRotation?
      modifies wallet, bank
      ensures Matches(Cancel(env, old(wallet.Value()), old(bank.balances), tx), r, wallet.Value(), bank.balances)
    {
      hide Authorize, Move;
      var signer :- wallet.VerifyEnclaveAuthorization(env, tx);
      var _ :- RequireActiveKey(signer);
      var cancelled := wallet.TakeRotation();
      if cancelled.None? {
        return Err(NoPendingRotation);
      }
      var _ :- RefundRelayer(tx);
      return Ok(RotationCancelled(wallet.walletId, cancelled.value.newKey));
    }

    method ProposeRotation(tx: Tx) returns (r: Result<Event>)
      requires tx.call.ProposeRotation?
      modifies wallet, bank
      ensures Matches(Propose(env, old(wallet.Value()), old(bank.balances), tx), r, wallet.Value(), bank.balances)
    {
      hide Authorize, Move;
      var newKey := tx.call.newKey;
      if newKey == ZERO_KEY {
        return Err(InvalidNewKey);
      }
      var signer :- wallet.VerifyEnclaveAuthorization(env, tx);
      var event: Event;
      if signer == wallet.activeKey {
        wallet.activeKey := newKey;
        wallet.attested := false;
        wallet.rotation := EMPTY_ROTATION;
        event := KeyRotated(wallet.walletId, newKey, false);
      } else {
        var slot := wallet.Value().P256Guardian(signer);
        if slot.None? {
          return Err(NotAGuardian);
        }
        var held := wallet.rotation.Get();
        if held.Some? && held.value.proposedBy != slot.value && !held.value.IsExpired(tx.now) {
          return Err(RotationSlotTaken);
        }
        var pending := PendingRotation(newKey, tx.now, slot.value);
        wallet.rotation := RotationSlot(true, pending);
        event := RotationProposed(wallet.walletId, newKey, signer, pending.OpensAt());
      }
      var _ :- RefundRelayer(tx);
      return Ok(event);
    }

    method CloseWallet(tx: Tx) returns (r: Result<Event>)
      requires tx.call.CloseWallet?
      modifies wallet, bank
      ensures Matches(Close(env, old(wallet.Value()), old(bank.balances), tx), r, wallet.Value(), bank.balances)
    {
      hide Authorize, Move;
      var signer :- wallet.VerifyEnclaveAuthorization(env, tx);
      var _ :- RequireActiveKey(signer);
      var balance := Balance(bank.balances, env.vaultAddress(wallet.walletId));
      var refund := Min(Min(tx.call.relayerFee, tx.call.auth.maxRelayerFee), balance);
      var lamports := balance - refund;
      var _ :- TransferFromVault(tx.call.to, lamports);
      var _ :- TransferFromVault(tx.relayer, refund);
      return Ok(WalletClosed(wallet.walletId, tx.call.to, lamports, refund));
    }

    method ConfirmRotation(now: i64) returns (r: Result<Event>)
      modifies wallet
      ensures Matches(Confirm(old(wallet.Value()), bank.balances, now), r, wallet.Value(), bank.balances)
    {
      var pending := wallet.rotation.Get();
      if pending.None? {
        return Err(NoPendingRotation);
      }
      if now < pending.value.OpensAt() {
        return Err(RotationTooEarly);
      }
      if pending.value.IsExpired(now) {
        return Err(RotationExpired);
      }
      var newKey := pending.value.newKey;
      wallet.activeKey := newKey;
      wallet.attested := false;
      wallet.rotation := EMPTY_ROTATION;
      return Ok(KeyRotated(wallet.walletId, newKey, true));
    }
  }
}
