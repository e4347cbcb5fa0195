/**
 * The rules a reader would state: who may do what, when, what changes and what it costs, a message
 * counting for what it means. ExecuteExactly proves the instructions follow them, both ways.
 */
module Rules {
  import opened Prelude
  import opened Errors
  import opened Actions
  import Preimages
  import opened Precompile
  import opened WalletState
  import opened Ledger
  import opened Instructions

  // ----- The invariant of every reachable chain -----

  predicate SlotOk(s: GuardianSlot) {
    s == EMPTY_SLOT || (s.kind == KindP256 && s.rpIdHash == ZERO_32)
  }

  /** The proposer is still listed, at the slot a lookup of its key finds, and is not the active key. */
  predicate ProposalOk(w: SmartWallet, p: PendingRotation) {
    && p.newKey != ZERO_KEY
    && p.proposedBy < MAX_GUARDIANS
    && w.P256Guardian(w.guardians[p.proposedBy].key) == Some(p.proposedBy)
    && w.guardians[p.proposedBy].key != w.activeKey
  }

  predicate WalletOk(env: Env, id: Bytes32, w: SmartWallet) {
    && w.walletId == id
    && w.activeKey != ZERO_KEY
    && !w.attested
    && w.stateBump == env.stateBump(id)
    && w.vaultBump == env.vaultBump(id)
    && (forall i | 0 <= i < MAX_GUARDIANS :: SlotOk(w.guardians[i]))
    && (if w.rotation.pending then ProposalOk(w, w.rotation.proposal) else w.rotation == EMPTY_ROTATION)
  }

  ghost predicate ChainOk(env: Env, c: Chain) {
    && (forall id | id in c.wallets :: WalletOk(env, id, c.wallets[id]))
    && Total(c.balances) <= U64_MAX
  }

  // ----- Who may act -----

  function Stored(c: Chain, id: Bytes32): Option<SmartWallet> {
    if id in c.wallets then Some(c.wallets[id]) else None
  }

  function Signer(tx: Tx): Key {
    var r := LoadPayload(tx.sysvar);
    if r.Ok? then r.value.pubkey else ZERO_KEY
  }

  function Message(tx: Tx): Bytes {
    var r := LoadPayload(tx.sysvar);
    if r.Ok? then r.value.message else []
  }

  /** The wallet a call acts on: the stored one, or the one its signer creates. */
  function Acting(env: Env, before: Option<SmartWallet>, tx: Tx): SmartWallet {
    if before.Some? then before.value else FreshWallet(env, tx.call.Wallet(), Signer(tx))
  }

  /** A fresh, unexpired message that says exactly what the call does, verified by the precompile. */
  ghost predicate Authentic(env: Env, before: Option<SmartWallet>, tx: Tx) {
    && !tx.call.ConfirmRotation?
    && LoadPayload(tx.sysvar).Ok?
    && (before.None? ==> tx.call.Creates() && env.sha256(Signer(tx)) == tx.call.Wallet())
    && Preimages.Means(Message(tx), tx.call.SignedPreimage())
    && tx.call.auth.nonce == Acting(env, before, tx).nonce < U64_MAX
    && tx.now < tx.call.auth.expiresAt
  }

  /** A preimage of this program for this authorisation. */
  predicate IsFor(p: Preimages.Preimage, auth: Authorization) {
    && p.programId == PROGRAM_ID
    && p.walletId == auth.walletId
    && p.nonce == auth.nonce
    && p.expiresAt == auth.expiresAt
    && p.maxRelayerFee == auth.maxRelayerFee
  }

  /** What the signer must have signed for each call, argument by argument; nothing serves for a confirmation. */
  predicate Says(p: Preimages.Preimage, call: Call) {
    match call
    case TransferSol(auth, to, lamports, _) => IsFor(p, auth) && p.action == Action.TransferSol(to, lamports)
    case SetGuardians(auth, guardians, _) => IsFor(p, auth) && p.action == Action.SetGuardians(guardians)
    case CancelRotation(auth, _) => IsFor(p, auth) && p.action == Action.CancelRotation
    case ProposeRotation(auth, newKey, _) => IsFor(p, auth) && p.action == Action.ProposeRotation(newKey)
    case SweepVault(auth, to, _) => IsFor(p, auth) && p.action == Action.SweepVault(to)
    case CloseWallet(auth, to, _) => IsFor(p, auth) && p.action == Action.CloseWallet(to)
    case ConfirmRotation(_) => false
  }

  predicate MessageSays(message: Bytes, call: Call) {
    var p := Preimages.Decode(message);
    p.Some? && Says(p.value, call)
  }

  /** A message means the call exactly when it decodes to what the call must have had signed. */
  lemma MeansIffSays(message: Bytes, call: Call)
    requires !call.ConfirmRotation?
    ensures Preimages.Means(message, call.SignedPreimage()) <==> MessageSays(message, call)
  {
    hide Preimages.Means, Preimages.Decode;
    Preimages.MeansIffDecodes(message, call.SignedPreimage());
  }

  ghost predicate ByOwner(env: Env, before: Option<SmartWallet>, tx: Tx) {
    Authentic(env, before, tx) && Signer(tx) == Acting(env, before, tx).activeKey
  }

  ghost predicate ByGuardian(env: Env, before: Option<SmartWallet>, tx: Tx) {
    && Authentic(env, before, tx)
    && var w := Acting(env, before, tx);
       Signer(tx) != w.activeKey && w.P256Guardian(Signer(tx)).Some?
  }

  ghost predicate Permitted(env: Env, before: Option<SmartWallet>, tx: Tx) {
    match tx.call
    case TransferSol(_, _, _, _) => ByOwner(env, before, tx)
    case SweepVault(_, _, _) => ByOwner(env, before, tx)
    case SetGuardians(_, guardians, _) =>
      ByOwner(env, before, tx) && forall i | 0 <= i < MAX_GUARDIANS :: !guardians[i].WebAuthn?
    case CancelRotation(_, _) => ByOwner(env, before, tx) && Acting(env, before, tx).rotation.pending
    case ProposeRotation(_, newKey, _) =>
      && newKey != ZERO_KEY
      && (|| ByOwner(env, before, tx)
          || (&& ByGuardian(env, before, tx)
              && var w := Acting(env, before, tx);
                 SlotFree(w, w.P256Guardian(Signer(tx)).value, tx.now)))
    case CloseWallet(auth, _, _) => ByOwner(env, before, tx) && tx.relayer != env.stateAddress(auth.walletId)
    case ConfirmRotation(_) =>
      before.Some? && before.value.rotation.pending && Confirmable(before.value.rotation.proposal, tx.now)
  }

  // ----- What it changes in the wallet -----

  /** The proposal a guardian's message opens. */
  function Proposed(env: Env, before: Option<SmartWallet>, tx: Tx): PendingRotation
    requires ByGuardian(env, before, tx) && tx.call.ProposeRotation?
  {
    PendingRotation(tx.call.newKey, tx.now, Acting(env, before, tx).P256Guardian(Signer(tx)).value)
  }

  ghost function NextWallet(env: Env, before: Option<SmartWallet>, tx: Tx): Option<SmartWallet>
    requires Permitted(env, before, tx)
  {
    var w := Acting(env, before, tx);
    match tx.call
    case TransferSol(auth, _, _, _) => Some(w.(nonce := auth.nonce + 1))
    case SweepVault(auth, _, _) => Some(w.(nonce := auth.nonce + 1))
    case SetGuardians(auth, guardians, _) =>
      Some(w.(nonce := auth.nonce + 1, guardians := SlotsOf(guardians), rotation := EMPTY_ROTATION))
    case CancelRotation(auth, _) => Some(w.(nonce := auth.nonce + 1, rotation := EMPTY_ROTATION))
    case ProposeRotation(auth, newKey, _) =>
      if ByOwner(env, before, tx) then
        Some(w.(nonce := auth.nonce + 1, activeKey := newKey, attested := false, rotation := EMPTY_ROTATION))
      else
        Some(w.(nonce := auth.nonce + 1, rotation := RotationSlot(true, Proposed(env, before, tx))))
    case CloseWallet(_, _, _) => None
    case ConfirmRotation(_) =>
      Some(w.(activeKey := w.rotation.proposal.newKey, attested := false, rotation := EMPTY_ROTATION))
  }

  // ----- What it costs -----

  predicate RentPayable(env: Env, c: Chain, tx: Tx) {
    tx.call.Wallet() in c.wallets || RentDue(env, c.balances, tx.call.Wallet()) <= Balance(c.balances, tx.relayer)
  }

  /** What the vault holds once the relayer advanced the state's rent. */
  function VaultHeld(env: Env, c: Chain, tx: Tx): int {
    var id := tx.call.Wallet();
    Balance(c.balances, env.vaultAddress(id))
    + if id in c.wallets then 0
      else Delta(env.vaultAddress(id), tx.relayer, env.stateAddress(id), RentDue(env, c.balances, id))
  }

  predicate Payable(env: Env, tx: Tx, held: int) {
    match tx.call
    case TransferSol(auth, _, lamports, _) => lamports + auth.maxRelayerFee + env.vaultRent <= held
    case CloseWallet(_, _, _) => true
    case ConfirmRotation(_) => true
    case _ => Refund(tx.call) <= held
  }

  predicate Affordable(env: Env, c: Chain, tx: Tx) {
    RentPayable(env, c, tx) && Payable(env, tx, VaultHeld(env, c, tx))
  }

  /** What the relayer gets back out of the vault. */
  function RefundPaid(tx: Tx, held: int): int {
    match tx.call
    case ConfirmRotation(_) => 0
    case CloseWallet(_, _, _) => Min(Refund(tx.call), held)
    case _ => Refund(tx.call)
  }

  /** What the recipient gets out of the vault. */
  function Paid(tx: Tx, held: int): int {
    match tx.call
    case TransferSol(_, _, lamports, _) => lamports
    case SweepVault(_, _, _) => held - RefundPaid(tx, held)
    case CloseWallet(_, _, _) => held - RefundPaid(tx, held)
    case _ => 0
  }

  function Recipient(tx: Tx): Address {
    if tx.call.TransferSol? || tx.call.SweepVault? || tx.call.CloseWallet? then tx.call.to else tx.relayer
  }

  // ----- What it announces -----

  ghost function Announced(env: Env, before: Option<SmartWallet>, tx: Tx, held: int): Event
    requires Permitted(env, before, tx)
    requires 0 <= RefundPaid(tx, held) <= held
  {
    var id := tx.call.Wallet();
    match tx.call
    case TransferSol(_, to, lamports, _) => SolTransferred(id, to, lamports, RefundPaid(tx, held))
    case SweepVault(_, to, _) => VaultSwept(id, to, Paid(tx, held), RefundPaid(tx, held))
    case CloseWallet(_, to, _) => WalletClosed(id, to, Paid(tx, held), RefundPaid(tx, held))
    case SetGuardians(_, guardians, _) => GuardiansSet(id, guardians)
    case CancelRotation(_, _) => RotationCancelled(id, Acting(env, before, tx).rotation.proposal.newKey)
    case ProposeRotation(_, newKey, _) =>
      if ByOwner(env, before, tx) then KeyRotated(id, newKey, false)
      else RotationProposed(id, newKey, Signer(tx), Proposed(env, before, tx).OpensAt())
    case ConfirmRotation(_) => KeyRotated(id, Acting(env, before, tx).rotation.proposal.newKey, true)
  }

  // ----- The instructions follow the rules -----

  /** What Load hands over, in the rules' terms. */
  lemma LoadExactly(env: Env, c: Chain, tx: Tx)
    requires ChainOk(env, c)
    ensures var id := tx.call.Wallet();
            Load(env, c, tx).Ok? <==>
            && RentPayable(env, c, tx)
            && (id in c.wallets || tx.call.Creates())
            && !(id in c.wallets && tx.call.CloseWallet? && tx.relayer == env.stateAddress(id))
    ensures Load(env, c, tx).Ok? ==>
            var id := tx.call.Wallet();
            var l := Load(env, c, tx).value;
            && l.wallet == (if id in c.wallets then c.wallets[id] else ZERO_WALLET)
            && Balance(l.balances, env.vaultAddress(id)) == VaultHeld(env, c, tx)
            && Total(l.balances) == Total(c.balances)
  {
    var id := tx.call.Wallet();
    var due := RentDue(env, c.balances, id);
    if id !in c.wallets && Move(c.balances, tx.relayer, env.stateAddress(id), due).Ok? {
      MoveConserves(c.balances, tx.relayer, env.stateAddress(id), due);
      MoveBalance(c.balances, tx.relayer, env.stateAddress(id), due, env.vaultAddress(id));
    }
  }

  lemma AuthorizeFollows(env: Env, before: Option<SmartWallet>, w: SmartWallet, tx: Tx)
    requires !tx.call.ConfirmRotation?
    requires w == if before.Some? then before.value else ZERO_WALLET
    requires before.Some? ==> !w.IsNew()
    requires before.Some? || tx.call.Creates()
    ensures Authorize(env, w, tx).Ok? <==> Authentic(env, before, tx)
    ensures Authentic(env, before, tx) ==>
            Authorize(env, w, tx).value
            == Authorized(Acting(env, before, tx).(nonce := tx.call.auth.nonce + 1), Signer(tx))
  {
    hide Preimages.Encode, Preimages.Means, LoadPayload;
    Preimages.MeansIffEncodes(Message(tx), tx.call.SignedPreimage());
  }

  /** What authorisation takes, down to the bytes in front of the call. */
  ghost predicate Presented(env: Env, w: SmartWallet, tx: Tx, key: Key, message: Bytes)
    requires !tx.call.ConfirmRotation?
  {
    && Precedes(tx.sysvar, key, message) && MessageSays(message, tx.call)
    && tx.call.auth.nonce < 0xFFFF_FFFF_FFFF_FFFF
    && tx.now < tx.call.auth.expiresAt
    && if w.activeKey == ZERO_KEY then tx.call.auth.nonce == 0 && env.sha256(key) == tx.call.auth.walletId
       else tx.call.auth.nonce == w.nonce
  }

  /**
   * Authorisation succeeds exactly on a live message, in turn, of this program, that says this very call
   * and stands with its key in the instruction before it; it yields that key and takes the nonce.
   */
  lemma AuthorizeExactly(env: Env, w: SmartWallet, tx: Tx, key: Key)
    requires !tx.call.ConfirmRotation?
    ensures Authorize(env, w, tx).Ok? && Authorize(env, w, tx).value.signer == key <==>
            exists message :: Presented(env, w, tx, key, message)
    ensures Authorize(env, w, tx).Ok? ==>
            var after := Authorize(env, w, tx).value.wallet;
            if w.activeKey == ZERO_KEY
            then after == FreshWallet(env, tx.call.auth.walletId, Authorize(env, w, tx).value.signer).(nonce := 1)
            else after == w.(nonce := w.nonce + 1)
  {
    hide Preimages.Encode, Preimages.Means, Preimages.Decode, Says, LoadPayload, Precedes, MessageSays;
    forall message
      ensures LoadPayload(tx.sysvar) == Ok(SignedPayload(key, message)) <==> Precedes(tx.sysvar, key, message)
    {
      LoadsExactly(tx.sysvar, key, message);
    }
    EncodesIffSays(Message(tx), tx.call);
    if Authorize(env, w, tx).Ok? && Authorize(env, w, tx).value.signer == key {
      assert Presented(env, w, tx, key, Message(tx));
    }
  }

  lemma EncodesIffSays(message: Bytes, call: Call)
    requires !call.ConfirmRotation?
    ensures Preimages.Encode(call.SignedPreimage()) == message <==> MessageSays(message, call)
  {
    hide Preimages.Means, Preimages.Decode, Preimages.Encode;
    Preimages.MeansIffEncodes(message, call.SignedPreimage());
    MeansIffSays(message, call);
  }

  /** What a handler receives from Load. */
  ghost predicate Facing(env: Env, before: Option<SmartWallet>, w: SmartWallet, b: Balances, tx: Tx) {
    var id := tx.call.Wallet();
    && (before.Some? ==> before.value.walletId == id && !before.value.IsNew())
    && w == (if before.Some? then before.value else ZERO_WALLET)
    && (before.Some? || tx.call.Creates())
    && Held(env, b, tx) <= U64_MAX
    && (tx.call.CloseWallet? ==> tx.relayer != env.stateAddress(id))
  }

  function Held(env: Env, b: Balances, tx: Tx): nat {
    Balance(b, env.vaultAddress(tx.call.Wallet()))
  }

  /** Lamports only left the vault, for the recipient and the relayer, in the amounts the rules name. */
  ghost predicate PaidOut(env: Env, b: Balances, after: Balances, tx: Tx) {
    var vault := env.vaultAddress(tx.call.Wallet());
    var held := Held(env, b, tx);
    && Total(after) == Total(b)
    && forall a :: Balance(after, a) == Balance(b, a)
                   + Delta(a, vault, Recipient(tx), Paid(tx, held))
                   + Delta(a, vault, tx.relayer, RefundPaid(tx, held))
  }

  /** A handler succeeds exactly when the rules say so, and then leaves what they say. */
  ghost predicate Follows(env: Env, before: Option<SmartWallet>, b: Balances, tx: Tx, r: Result<Done>) {
    var held := Held(env, b, tx);
    && (r.Ok? <==> Permitted(env, before, tx) && Payable(env, tx, held))
    && (r.Ok? ==>
          && 0 <= RefundPaid(tx, held) && 0 <= Paid(tx, held) && RefundPaid(tx, held) + Paid(tx, held) <= held
          && NextWallet(env, before, tx) == (if tx.call.CloseWallet? then None else Some(r.value.wallet))
          && r.value.event == Announced(env, before, tx, held)
          && PaidOut(env, b, r.value.balances, tx))
  }

  /** The vault can pay twice whenever it holds both amounts, even when one goes to itself. */
  lemma TwoPaymentsFit(b: Balances, vault: Address, to: Address, x: nat, relayer: Address, y: nat)
    requires x + y <= Balance(b, vault)
    ensures var sent := Move(b, vault, to, x);
            && sent.Ok?
            && var refunded := Move(sent.value, vault, relayer, y);
               && refunded.Ok?
               && Total(refunded.value) == Total(b)
               && forall a :: Balance(refunded.value, a)
                              == Balance(b, a) + Delta(a, vault, to, x) + Delta(a, vault, relayer, y)
  {
    var sent := Move(b, vault, to, x).value;
    MoveConserves(b, vault, to, x);
    MoveConserves(sent, vault, relayer, y);
  }

  lemma PaymentsFit(env: Env, b: Balances, tx: Tx, x: nat, y: nat)
    requires tx.call.TransferSol? || tx.call.SweepVault? || tx.call.CloseWallet?
    requires x == Paid(tx, Held(env, b, tx)) && y == RefundPaid(tx, Held(env, b, tx)) && x + y <= Held(env, b, tx)
    ensures var vault := env.vaultAddress(tx.call.Wallet());
            var sent := Move(b, vault, tx.call.to, x);
            && sent.Ok?
            && Move(sent.value, vault, tx.relayer, y).Ok?
            && PaidOut(env, b, Move(sent.value, vault, tx.relayer, y).value, tx)
  {
    hide Paid, RefundPaid, Total;
    TwoPaymentsFit(b, env.vaultAddress(tx.call.Wallet()), tx.call.to, x, tx.relayer, y);
  }

  lemma TransferFollows(env: Env, before: Option<SmartWallet>, w: SmartWallet, b: Balances, tx: Tx)
    requires Facing(env, before, w, b, tx) && tx.call.TransferSol?
    ensures Follows(env, before, b, tx, Transfer(env, w, b, tx))
  {
    hide Authorize, Authentic, Signer, Position, SlotsOf, SlotFree, Move, PaidOut;
    AuthorizeFollows(env, before, w, tx);
    if ByOwner(env, before, tx) && Payable(env, tx, Held(env, b, tx)) {
      PaymentsFit(env, b, tx, tx.call.lamports, Refund(tx.call));
    }
  }

  lemma SweepFollows(env: Env, before: Option<SmartWallet>, w: SmartWallet, b: Balances, tx: Tx)
    requires Facing(env, before, w, b, tx) && tx.call.SweepVault?
    ensures Follows(env, before, b, tx, Sweep(env, w, b, tx))
  {
    hide Authorize, Authentic, Signer, Position, SlotsOf, SlotFree, Move, PaidOut;
    AuthorizeFollows(env, before, w, tx);
    var held := Held(env, b, tx);
    if ByOwner(env, before, tx) && Payable(env, tx, held) {
      PaymentsFit(env, b, tx, held - Refund(tx.call), Refund(tx.call));
    }
  }

  lemma CloseFollows(env: Env, before: Option<SmartWallet>, w: SmartWallet, b: Balances, tx: Tx)
    requires Facing(env, before, w, b, tx) && tx.call.CloseWallet?
    ensures Follows(env, before, b, tx, Close(env, w, b, tx))
  {
    hide Authorize, Authentic, Signer, Position, SlotsOf, SlotFree, Move, PaidOut;
    AuthorizeFollows(env, before, w, tx);
    var held := Held(env, b, tx);
    var refund := RefundPaid(tx, held);
    PaymentsFit(env, b, tx, held - refund, refund);
  }

  /** The refund-only handlers pay once. */
  lemma RefundFits(env: Env, b: Balances, tx: Tx)
    requires tx.call.SetGuardians? || tx.call.CancelRotation? || tx.call.ProposeRotation?
    ensures var r := Move(b, env.vaultAddress(tx.call.Wallet()), tx.relayer, Refund(tx.call));
            && (r.Ok? <==> Payable(env, tx, Held(env, b, tx)))
            && (r.Ok? ==> PaidOut(env, b, r.value, tx))
  {
    var vault := env.vaultAddress(tx.call.Wallet());
    if Move(b, vault, tx.relayer, Refund(tx.call)).Ok? {
      MoveConserves(b, vault, tx.relayer, Refund(tx.call));
    }
  }

  lemma GuardiansFollow(env: Env, before: Option<SmartWallet>, w: SmartWallet, b: Balances, tx: Tx)
    requires Facing(env, before, w, b, tx) && tx.call.SetGuardians?
    ensures Follows(env, before, b, tx, ReplaceGuardians(env, w, b, tx))
  {
    hide Authorize, Authentic, Move, PaidOut, Signer, Position, SlotsOf;
    AuthorizeFollows(env, before, w, tx);
    RefundFits(env, b, tx);
  }

  lemma CancelFollows(env: Env, before: Option<SmartWallet>, w: SmartWallet, b: Balances, tx: Tx)
    requires Facing(env, before, w, b, tx) && tx.call.CancelRotation?
    ensures Follows(env, before, b, tx, Cancel(env, w, b, tx))
  {
    hide Authorize, Authentic, Move, PaidOut, Signer, Position, SlotsOf;
    AuthorizeFollows(env, before, w, tx);
    RefundFits(env, b, tx);
  }

  lemma ProposeFollows(env: Env, before: Option<SmartWallet>, w: SmartWallet, b: Balances, tx: Tx)
    requires Facing(env, before, w, b, tx) && tx.call.ProposeRotation?
    ensures Follows(env, before, b, tx, Propose(env, w, b, tx))
  {
    hide Authorize, Authentic, Move, PaidOut, Signer, Position, SlotsOf;
    AuthorizeFollows(env, before, w, tx);
    RefundFits(env, b, tx);
  }

  lemma ConfirmFollows(env: Env, before: Option<SmartWallet>, w: SmartWallet, b: Balances, tx: Tx)
    requires Facing(env, before, w, b, tx) && tx.call.ConfirmRotation?
    ensures Follows(env, before, b, tx, Confirm(w, b, tx.now))
  {
  }

  lemma HandleFollows(env: Env, before: Option<SmartWallet>, w: SmartWallet, b: Balances, tx: Tx)
    requires Facing(env, before, w, b, tx)
    ensures Follows(env, before, b, tx, Handle(env, w, b, tx))
  {
    match tx.call
    case TransferSol(_, _, _, _) => TransferFollows(env, before, w, b, tx);
    case SetGuardians(_, _, _) => GuardiansFollow(env, before, w, b, tx);
    case CancelRotation(_, _) => CancelFollows(env, before, w, b, tx);
    case ProposeRotation(_, _, _) => ProposeFollows(env, before, w, b, tx);
    case SweepVault(_, _, _) => SweepFollows(env, before, w, b, tx);
    case CloseWallet(_, _, _) => CloseFollows(env, before, w, b, tx);
    case ConfirmRotation(_) => ConfirmFollows(env, before, w, b, tx);
  }

  // ----- The whole transaction -----

  /** What one account gains or loses up to the handler's end: the advanced rent, then the two payments. */
  function Flow(env: Env, c: Chain, tx: Tx, a: Address): int {
    var id := tx.call.Wallet();
    var vault := env.vaultAddress(id);
    var held := VaultHeld(env, c, tx);
    (if id in c.wallets then 0 else Delta(a, tx.relayer, env.stateAddress(id), RentDue(env, c.balances, id)))
    + Delta(a, vault, Recipient(tx), Paid(tx, held))
    + Delta(a, vault, tx.relayer, RefundPaid(tx, held))
  }

  /** And over the whole transaction: closing also returns everything the state account holds. */
  function Change(env: Env, c: Chain, tx: Tx, a: Address): int {
    var state := env.stateAddress(tx.call.Wallet());
    Flow(env, c, tx, a)
    + if tx.call.CloseWallet? then Delta(a, state, tx.relayer, Balance(c.balances, state) + Flow(env, c, tx, state))
      else 0
  }

  ghost predicate Succeeds(env: Env, c: Chain, tx: Tx) {
    Permitted(env, Stored(c, tx.call.Wallet()), tx) && Affordable(env, c, tx)
  }

  /** What the rules say a successful transaction leaves. */
  ghost predicate Leaves(env: Env, c: Chain, tx: Tx, out: Outcome)
    requires Succeeds(env, c, tx)
  {
    var id := tx.call.Wallet();
    var before := Stored(c, id);
    var held := VaultHeld(env, c, tx);
    && 0 <= RefundPaid(tx, held) && 0 <= Paid(tx, held) && RefundPaid(tx, held) + Paid(tx, held) <= held
    && Stored(out.chain, id) == NextWallet(env, before, tx)
    && (forall other | other != id :: Stored(out.chain, other) == Stored(c, other))
    && out.events == Emits(before.None?, id, Signer(tx), Announced(env, before, tx, held))
    && Total(out.chain.balances) == Total(c.balances)
    && (forall a :: Balance(out.chain.balances, a) == Balance(c.balances, a) + Change(env, c, tx, a))
  }

  lemma ExitLeaves(env: Env, c: Chain, tx: Tx, done: Done)
    ensures Exit(env, c, tx, done).Ok?
    ensures var id := tx.call.Wallet();
            var state := env.stateAddress(id);
            var chain := Exit(env, c, tx, done).value;
            && Stored(chain, id) == (if tx.call.CloseWallet? then None else Some(done.wallet))
            && (forall other | other != id :: Stored(chain, other) == Stored(c, other))
            && Total(chain.balances) == Total(done.balances)
            && (forall a :: Balance(chain.balances, a) == Balance(done.balances, a)
                 + if tx.call.CloseWallet? then Delta(a, state, tx.relayer, Balance(done.balances, state)) else 0)
  {
    var state := env.stateAddress(tx.call.Wallet());
    MoveConserves(done.balances, state, tx.relayer, Balance(done.balances, state));
  }

  /** Load, in full: the wallet, and where the advanced rent went. */
  lemma LoadFaces(env: Env, c: Chain, tx: Tx)
    requires ChainOk(env, c) && Load(env, c, tx).Ok?
    ensures var l := Load(env, c, tx).value;
            && Facing(env, Stored(c, tx.call.Wallet()), l.wallet, l.balances, tx)
            && Held(env, l.balances, tx) == VaultHeld(env, c, tx)
            && Total(l.balances) == Total(c.balances)
            && forall a :: Balance(l.balances, a) == Balance(c.balances, a)
                 + if tx.call.Wallet() in c.wallets then 0
                   else Delta(a, tx.relayer, env.stateAddress(tx.call.Wallet()),
                              RentDue(env, c.balances, tx.call.Wallet()))
  {
    LoadExactly(env, c, tx);
    var l := Load(env, c, tx).value;
    BalanceWithinTotal(l.balances, env.vaultAddress(tx.call.Wallet()));
  }

  lemma PermittedLoads(env: Env, c: Chain, tx: Tx)
    requires ChainOk(env, c) && Succeeds(env, c, tx)
    ensures Load(env, c, tx).Ok?
  {
    LoadExactly(env, c, tx);
  }

  lemma CreatorIsActive(env: Env, before: Option<SmartWallet>, tx: Tx)
    requires Permitted(env, before, tx) && before.None?
    ensures tx.call.Creates()
    ensures NextWallet(env, before, tx).Some? && NextWallet(env, before, tx).value.activeKey == Signer(tx)
  {
  }

  /**
   * A transaction succeeds exactly when the rules permit it and the balances afford it, and it then
   * leaves exactly the wallet, the events and the balances the rules name.
   */
  lemma ExecuteExactly(env: Env, c: Chain, tx: Tx)
    requires ChainOk(env, c)
    ensures Execute(env, c, tx).Ok? <==> Succeeds(env, c, tx)
    ensures Succeeds(env, c, tx) ==> Leaves(env, c, tx, Execute(env, c, tx).value)
  {
    hide Load, Handle, Exit, Permitted, NextWallet, Announced, Payable, RefundPaid, Paid, RentDue, Delta, Total,
      WalletOk;
    if Succeeds(env, c, tx) {
      PermittedLoads(env, c, tx);
    }
    if Load(env, c, tx).Ok? {
      LoadFaces(env, c, tx);
      LoadExactly(env, c, tx);
      var l := Load(env, c, tx).value;
      HandleFollows(env, Stored(c, tx.call.Wallet()), l.wallet, l.balances, tx);
      var r := Handle(env, l.wallet, l.balances, tx);
      if r.Ok? {
        ExitLeaves(env, c, tx, r.value);
        if Stored(c, tx.call.Wallet()).None? {
          CreatorIsActive(env, None, tx);
        }
      }
    }
  }
}
