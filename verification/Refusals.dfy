/** Why a call is refused: each error stands for one reason, with every earlier check passed. */
module Refusals {
  import opened Prelude
  import opened Errors
  import Preimages
  import opened Precompile
  import opened WalletState
  import opened Ledger
  import opened Instructions
  import opened Rules

  /** The message comes from the runtime and, for an absent wallet, from the key the wallet is named after. */
  predicate Heard(env: Env, before: Option<SmartWallet>, tx: Tx) {
    LoadPayload(tx.sysvar).Ok? && (before.None? ==> env.sha256(Signer(tx)) == tx.call.Wallet())
  }

  /** What Load hands to a handler that authorises. */
  predicate Given(before: Option<SmartWallet>, w: SmartWallet, tx: Tx) {
    && !tx.call.ConfirmRotation?
    && w == (if before.Some? then before.value else ZERO_WALLET)
    && (before.Some? ==> !w.IsNew())
    && (before.Some? || tx.call.Creates())
  }

  /** A wrong nonce, a stale message and a message about something else are told apart, in this order. */
  lemma AuthorizationRefusals(env: Env, before: Option<SmartWallet>, w: SmartWallet, tx: Tx)
    requires Given(before, w, tx) && LoadPayload(tx.sysvar).Ok?
    ensures var r := Authorize(env, w, tx);
            var current := tx.call.auth.nonce == Acting(env, before, tx).nonce;
            var alive := tx.now < tx.call.auth.expiresAt;
            var meant := Preimages.Means(Message(tx), tx.call.SignedPreimage());
            && (r == Err(WalletIdMismatch) <==> !Heard(env, before, tx))
            && (r == Err(NonceMismatch) <==> Heard(env, before, tx) && !current)
            && (r == Err(AuthorizationExpired) <==> Heard(env, before, tx) && current && !alive)
            && (r == Err(PreimageMismatch) <==> Heard(env, before, tx) && current && alive && !meant)
            && (r == Err(ArithmeticOverflow) <==>
                Heard(env, before, tx) && current && alive && meant && tx.call.auth.nonce == U64_MAX)
  {
    hide Preimages.Encode, Preimages.Means, LoadPayload;
    Preimages.MeansIffEncodes(Message(tx), tx.call.SignedPreimage());
  }

  /** Anyone else's authentic message for an owner's call is refused for its key, guardians' included. */
  lemma OnlyOwnerMayAct(env: Env, before: Option<SmartWallet>, w: SmartWallet, b: Balances, tx: Tx)
    requires Given(before, w, tx) && !tx.call.ProposeRotation?
    ensures Handle(env, w, b, tx) == Err(KeyMismatch)
            <==> Authentic(env, before, tx) && Signer(tx) != Acting(env, before, tx).activeKey
  {
    hide Authorize, Authentic, LoadPayload, Move, SlotsOf;
    AuthorizeFollows(env, before, w, tx);
    AuthorizeNeverBlamesKeys(env, w, tx);
    MoveErrors();
  }

  lemma AuthorizeNeverBlamesKeys(env: Env, w: SmartWallet, tx: Tx)
    requires !tx.call.ConfirmRotation?
    ensures var r := Authorize(env, w, tx);
            r.Err? ==> r.error !in {KeyMismatch, NotAGuardian, RotationSlotTaken, NoPendingRotation, InvalidNewKey}
  {
    hide Preimages.Encode;
  }

  lemma MoveErrors()
    ensures forall b, from, to, lamports ::
              Move(b, from, to, lamports).Err? ==> Move(b, from, to, lamports).error == InsufficientFunds
  {
  }

  /** A zero key, a stranger and a rival guardian are told apart; refunds come after. */
  lemma ProposalRefusals(env: Env, before: Option<SmartWallet>, w: SmartWallet, b: Balances, tx: Tx)
    requires Given(before, w, tx) && tx.call.ProposeRotation?
    ensures var r := Propose(env, w, b, tx);
            var authentic := Authentic(env, before, tx) && Signer(tx) != w.activeKey && tx.call.newKey != ZERO_KEY;
            var slot := w.P256Guardian(Signer(tx));
            && (r == Err(InvalidNewKey) <==> tx.call.newKey == ZERO_KEY)
            && (r == Err(NotAGuardian) <==> authentic && slot.None?)
            && (r == Err(RotationSlotTaken) <==> authentic && slot.Some? && !SlotFree(w, slot.value, tx.now))
  {
    hide Authorize, Authentic, LoadPayload, Move, Position;
    AuthorizeFollows(env, before, w, tx);
    AuthorizeNeverBlamesKeys(env, w, tx);
    MoveErrors();
  }

  /** A confirmation fails for having nothing to confirm, for coming too early, or for coming too late. */
  lemma ConfirmationRefusals(w: SmartWallet, b: Balances, now: i64)
    ensures var r := Confirm(w, b, now);
            var p := w.rotation.proposal;
            && (r == Err(NoPendingRotation) <==> !w.rotation.pending)
            && (r == Err(RotationTooEarly) <==> w.rotation.pending && TooEarly(p, now))
            && (r == Err(RotationExpired) <==> w.rotation.pending && p.IsExpired(now))
            && (r.Ok? <==> w.rotation.pending && Confirmable(p, now))
  {
    TimeRegionsPartition(w.rotation.proposal, now);
  }

  /** What stops an owner whose message is in order: money, a passkey in the list, or nothing to cancel. */
  lemma OwnerRefusals(env: Env, before: Option<SmartWallet>, w: SmartWallet, b: Balances, tx: Tx)
    requires Given(before, w, tx) && ByOwner(env, before, tx)
    requires before.Some? ==> before.value.walletId == tx.call.Wallet()
    ensures var r := Handle(env, w, b, tx);
            var held := Balance(b, env.vaultAddress(tx.call.Wallet()));
            var fee := Min(tx.call.relayerFee, tx.call.auth.maxRelayerFee);
            match tx.call
            case TransferSol(auth, _, lamports, _) =>
              var needed := lamports + auth.maxRelayerFee + env.vaultRent;
              && (r == Err(ArithmeticOverflow) <==> needed > 0xFFFF_FFFF_FFFF_FFFF)
              && (r == Err(InsufficientVaultBalance) <==> held < needed <= 0xFFFF_FFFF_FFFF_FFFF)
            case SweepVault(_, _, _) => r == Err(InsufficientVaultBalance) <==> held < fee
            case SetGuardians(_, guardians, _) =>
              && (r == Err(WebAuthnGuardianUnsupported) <==> exists g :: g in guardians && g.WebAuthn?)
              && (r == Err(InsufficientFunds) <==> (forall g | g in guardians :: !g.WebAuthn?) && held < fee)
            case CancelRotation(_, _) =>
              && (r == Err(NoPendingRotation) <==> !Acting(env, before, tx).rotation.pending)
              && (r == Err(InsufficientFunds) <==> Acting(env, before, tx).rotation.pending && held < fee)
            case ProposeRotation(_, newKey, _) => r == Err(InsufficientFunds) <==> newKey != ZERO_KEY && held < fee
            case CloseWallet(_, _, _) => r.Ok?
  {
    hide Authorize, Authentic, LoadPayload, SlotsOf, Position;
    AuthorizeFollows(env, before, w, tx);
  }

  /** What stops a call before its handler: no account, no rent for a new one, or a close into the account itself. */
  lemma AccountRefusals(env: Env, c: Chain, tx: Tx)
    ensures var id := tx.call.Wallet();
            var founds := tx.call.TransferSol? || tx.call.SetGuardians? || tx.call.SweepVault?;
            var short := Balance(c.balances, tx.relayer) + Balance(c.balances, env.stateAddress(id)) < env.stateRent;
            var r := Load(env, c, tx);
            && (r == Err(AccountNotInitialized) <==> id !in c.wallets && !founds)
            && (r == Err(InsufficientFunds) <==> id !in c.wallets && founds && short)
            && (r == Err(ConstraintClose) <==>
                id in c.wallets && tx.call.CloseWallet? && tx.relayer == env.stateAddress(id))
  {
  }
}
