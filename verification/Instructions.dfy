/**
 * The seven instructions as functions, checks in source order: what each one leaves behind, or the
 * error that stops it. A failed transaction leaves the chain as it was.
 */
module Instructions {
  import opened Prelude
  import opened Errors
  import opened Actions
  import Preimages
  import opened Precompile
  import opened WalletState
  import opened Ledger

  /** dG4h3aizVEW1bKjzkGsfk6zqcfa2MVn2DjavPniesSY */
  const PROGRAM_ID: Bytes32 := [
    9, 73, 241, 14, 88, 150, 67, 230, 230, 155, 1, 35, 116, 90, 81, 81,
    191, 156, 135, 197, 88, 34, 64, 178, 1, 192, 59, 91, 78, 212, 230, 73]

  /** What the program takes from its surroundings. Nothing is assumed of it unless a lemma says so. */
  datatype Env = Env(
    sha256: Key -> Bytes32,
    verifies: (Key, Bytes, Bytes) -> bool,
    stateAddress: Bytes32 -> Address,
    vaultAddress: Bytes32 -> Address,
    stateBump: Bytes32 -> byte,
    vaultBump: Bytes32 -> byte,
    stateRent: u64,
    vaultRent: u64
  )

  datatype Authorization = Authorization(walletId: Bytes32, nonce: u64, expiresAt: i64, maxRelayerFee: u64)

  datatype Call =
    | TransferSol(auth: Authorization, to: Address, lamports: u64, relayerFee: u64)
    | SetGuardians(auth: Authorization, guardians: GuardianList, relayerFee: u64)
    | CancelRotation(auth: Authorization, relayerFee: u64)
    | ProposeRotation(auth: Authorization, newKey: Key, relayerFee: u64)
    | SweepVault(auth: Authorization, to: Address, relayerFee: u64)
    | CloseWallet(auth: Authorization, to: Address, relayerFee: u64)
    | ConfirmRotation(walletId: Bytes32)
  {
    function Wallet(): Bytes32 {
      if ConfirmRotation? then walletId else auth.walletId
    }

    /** The instructions whose state account is `init_if_needed`. */
    predicate Creates() {
      TransferSol? || SetGuardians? || SweepVault?
    }

    function SignedAction(): Action
      requires !ConfirmRotation?
    {
      match this
      case TransferSol(_, to, lamports, _) => Action.TransferSol(to, lamports)
      case SetGuardians(_, guardians, _) => Action.SetGuardians(guardians)
      case CancelRotation(_, _) => Action.CancelRotation
      case ProposeRotation(_, newKey, _) => Action.ProposeRotation(newKey)
      case SweepVault(_, to, _) => Action.SweepVault(to)
      case CloseWallet(_, to, _) => Action.CloseWallet(to)
    }

    function SignedPreimage(): Preimages.Preimage
      requires !ConfirmRotation?
    {
      Preimages.Preimage(PROGRAM_ID, auth.walletId, auth.nonce, auth.expiresAt, auth.maxRelayerFee, SignedAction())
    }
  }

  /** One instruction with the transaction around it. */
  datatype Tx = Tx(sysvar: Sysvar, call: Call, relayer: Address, now: i64)

  datatype Event =
    | WalletCreated(walletId: Bytes32, key: Key)
    | SolTransferred(walletId: Bytes32, to: Address, lamports: nat, relayerFee: nat)
    | VaultSwept(walletId: Bytes32, to: Address, lamports: nat, relayerFee: nat)
    | WalletClosed(walletId: Bytes32, to: Address, lamports: nat, relayerFee: nat)
    | GuardiansSet(walletId: Bytes32, guardians: GuardianList)
    | RotationProposed(walletId: Bytes32, newKey: Key, guardian: Key, opensAt: i64)
    | RotationCancelled(walletId: Bytes32, newKey: Key)
    | KeyRotated(walletId: Bytes32, newKey: Key, recovery: bool)

  datatype Chain = Chain(wallets: map<Bytes32, SmartWallet>, balances: Balances)

  /** What the Accounts struct hands to the handler. */
  datatype Loaded = Loaded(wallet: SmartWallet, balances: Balances)

  datatype Authorized = Authorized(wallet: SmartWallet, signer: Key)

  /** What a handler leaves in its accounts, and its event. */
  datatype Done = Done(wallet: SmartWallet, balances: Balances, event: Event)

  datatype Outcome = Outcome(chain: Chain, events: seq<Event>)

  // ----- Accounts -----

  /** What the payer still owes for the state account's rent. */
  function RentDue(env: Env, b: Balances, id: Bytes32): nat {
    var held := Balance(b, env.stateAddress(id));
    if env.stateRent > held then env.stateRent - held else 0
  }

  function Load(env: Env, c: Chain, tx: Tx): Result<Loaded> {
    var id := tx.call.Wallet();
    if id in c.wallets then
      if tx.call.CloseWallet? && tx.relayer == env.stateAddress(id) then Err(ConstraintClose)
      else Ok(Loaded(c.wallets[id], c.balances))
    else if tx.call.Creates() then
      var paid :- Move(c.balances, tx.relayer, env.stateAddress(id), RentDue(env, c.balances, id));
      Ok(Loaded(ZERO_WALLET, paid))
    else
      Err(AccountNotInitialized)
  }

  // ----- Authorization -----

  function FreshWallet(env: Env, id: Bytes32, key: Key): SmartWallet {
    SmartWallet(id, key, 0, false, EMPTY_SLOTS, EMPTY_ROTATION, env.stateBump(id), env.vaultBump(id))
  }

  function Authorize(env: Env, w: SmartWallet, tx: Tx): Result<Authorized>
    requires !tx.call.ConfirmRotation?
  {
    var auth := tx.call.auth;
    var payload :- LoadPayload(tx.sysvar);
    var _ :- Require(!w.IsNew() || env.sha256(payload.pubkey) == auth.walletId, WalletIdMismatch);
    var base := if w.IsNew() then FreshWallet(env, auth.walletId, payload.pubkey) else w;
    var _ :- Require(auth.nonce == base.nonce, NonceMismatch);
    var _ :- Require(auth.expiresAt > tx.now, AuthorizationExpired);
    var _ :- Require(Preimages.Encode(tx.call.SignedPreimage()) == payload.message, PreimageMismatch);
    var _ :- Require(base.nonce < U64_MAX, ArithmeticOverflow);
    Ok(Authorized(base.(nonce := base.nonce + 1), payload.pubkey))
  }

  function AuthorizeActive(env: Env, w: SmartWallet, tx: Tx): Result<SmartWallet>
    requires !tx.call.ConfirmRotation?
  {
    var a :- Authorize(env, w, tx);
    var _ :- Require(a.signer == a.wallet.activeKey, KeyMismatch);
    Ok(a.wallet)
  }

  // ----- Handlers -----

  function Refund(call: Call): nat
    requires !call.ConfirmRotation?
  {
    Min(call.relayerFee, call.auth.maxRelayerFee)
  }

  function Transfer(env: Env, w: SmartWallet, b: Balances, tx: Tx): Result<Done>
    requires tx.call.TransferSol?
  {
    var call := tx.call;
    var wallet :- AuthorizeActive(env, w, tx);
    var vault := env.vaultAddress(wallet.walletId);
    var required := call.lamports + call.auth.maxRelayerFee + env.vaultRent;
    var _ :- Require(required <= U64_MAX, ArithmeticOverflow);
    var _ :- Require(Balance(b, vault) >= required, InsufficientVaultBalance);
    var sent :- Move(b, vault, call.to, call.lamports);
    var refunded :- Move(sent, vault, tx.relayer, Refund(call));
    Ok(Done(wallet, refunded, SolTransferred(wallet.walletId, call.to, call.lamports, Refund(call))))
  }

  function Sweep(env: Env, w: SmartWallet, b: Balances, tx: Tx): Result<Done>
    requires tx.call.SweepVault?
  {
    var call := tx.call;
    var wallet :- AuthorizeActive(env, w, tx);
    var vault := env.vaultAddress(wallet.walletId);
    var _ :- Require(Balance(b, vault) >= Refund(call), InsufficientVaultBalance);
    var lamports := Balance(b, vault) - Refund(call);
    var sent :- Move(b, vault, call.to, lamports);
    var refunded :- Move(sent, vault, tx.relayer, Refund(call));
    Ok(Done(wallet, refunded, VaultSwept(wallet.walletId, call.to, lamports, Refund(call))))
  }

  predicate HasWebAuthn(gs: GuardianList) {
    gs[0].WebAuthn? || gs[1].WebAuthn? || gs[2].WebAuthn?
  }

  function ReplaceGuardians(env: Env, w: SmartWallet, b: Balances, tx: Tx): Result<Done>
    requires tx.call.SetGuardians?
  {
    var call := tx.call;
    var wallet :- AuthorizeActive(env, w, tx);
    var _ :- Require(!HasWebAuthn(call.guardians), WebAuthnGuardianUnsupported);
    var refunded :- Move(b, env.vaultAddress(wallet.walletId), tx.relayer, Refund(call));
    Ok(Done(wallet.(guardians := SlotsOf(call.guardians), rotation := EMPTY_ROTATION), refunded,
            GuardiansSet(wallet.walletId, call.guardians)))
  }

  function Cancel(env: Env, w: SmartWallet, b: Balances, tx: Tx): Result<Done>
    requires tx.call.CancelRotation?
  {
    var wallet :- AuthorizeActive(env, w, tx);
    var _ :- Require(wallet.rotation.pending, NoPendingRotation);
    var refunded :- Move(b, env.vaultAddress(wallet.walletId), tx.relayer, Refund(tx.call));
    Ok(Done(wallet.(rotation := EMPTY_ROTATION), refunded,
            RotationCancelled(wallet.walletId, wallet.rotation.proposal.newKey)))
  }

  /** A guardian may replace its own proposal, or one that ran out of its window. */
  predicate SlotFree(w: SmartWallet, slot: nat, now: i64) {
    w.rotation.pending ==> w.rotation.proposal.proposedBy == slot || w.rotation.proposal.IsExpired(now)
  }

  function Propose(env: Env, w: SmartWallet, b: Balances, tx: Tx): Result<Done>
    requires tx.call.ProposeRotation?
  {
    var newKey := tx.call.newKey;
    var _ :- Require(newKey != ZERO_KEY, InvalidNewKey);
    var a :- Authorize(env, w, tx);
    var wallet := a.wallet;
    var id := wallet.walletId;
    var vault := env.vaultAddress(id);
    if a.signer == wallet.activeKey then
      var refunded :- Move(b, vault, tx.relayer, Refund(tx.call));
      Ok(Done(wallet.(activeKey := newKey, attested := false, rotation := EMPTY_ROTATION), refunded,
              KeyRotated(id, newKey, false)))
    else
      var _ :- Require(wallet.P256Guardian(a.signer).Some?, NotAGuardian);
      var slot := wallet.P256Guardian(a.signer).value;
      var _ :- Require(SlotFree(wallet, slot, tx.now), RotationSlotTaken);
      var proposal := PendingRotation(newKey, tx.now, slot);
      var refunded :- Move(b, vault, tx.relayer, Refund(tx.call));
      Ok(Done(wallet.(rotation := RotationSlot(true, proposal)), refunded,
              RotationProposed(id, newKey, a.signer, proposal.OpensAt())))
  }

  function Close(env: Env, w: SmartWallet, b: Balances, tx: Tx): Result<Done>
    requires tx.call.CloseWallet?
  {
    var call := tx.call;
    var wallet :- AuthorizeActive(env, w, tx);
    var vault := env.vaultAddress(wallet.walletId);
    var refund := Min(Refund(call), Balance(b, vault));
    var lamports := Balance(b, vault) - refund;
    var sent :- Move(b, vault, call.to, lamports);
    var refunded :- Move(sent, vault, tx.relayer, refund);
    Ok(Done(wallet, refunded, WalletClosed(wallet.walletId, call.to, lamports, refund)))
  }

  function Confirm(w: SmartWallet, b: Balances, now: i64): Result<Done> {
    var _ :- Require(w.rotation.pending, NoPendingRotation);
    var proposal := w.rotation.proposal;
    var _ :- Require(now >= proposal.OpensAt(), RotationTooEarly);
    var _ :- Require(!proposal.IsExpired(now), RotationExpired);
    Ok(Done(w.(activeKey := proposal.newKey, attested := false, rotation := EMPTY_ROTATION), b,
            KeyRotated(w.walletId, proposal.newKey, true)))
  }

  // ----- Entry points -----

  function Handle(env: Env, w: SmartWallet, b: Balances, tx: Tx): Result<Done> {
    match tx.call
    case TransferSol(_, _, _, _) => Transfer(env, w, b, tx)
    case SetGuardians(_, _, _) => ReplaceGuardians(env, w, b, tx)
    case CancelRotation(_, _) => Cancel(env, w, b, tx)
    case ProposeRotation(_, _, _) => Propose(env, w, b, tx)
    case SweepVault(_, _, _) => Sweep(env, w, b, tx)
    case CloseWallet(_, _, _) => Close(env, w, b, tx)
    case ConfirmRotation(_) => Confirm(w, b, tx.now)
  }

  /** What a successful instruction commits: the account written back, or closed into the relayer. */
  function Exit(env: Env, c: Chain, tx: Tx, done: Done): Result<Chain> {
    var id := tx.call.Wallet();
    if tx.call.CloseWallet? then
      var state := env.stateAddress(id);
      var closed :- Move(done.balances, state, tx.relayer, Balance(done.balances, state));
      Ok(Chain(c.wallets - {id}, closed))
    else
      Ok(Chain(c.wallets[id := done.wallet], done.balances))
  }

  /** A wallet's first action announces the wallet before itself. */
  function Emits(created: bool, id: Bytes32, key: Key, event: Event): seq<Event> {
    if created then [WalletCreated(id, key), event] else [event]
  }

  function Execute(env: Env, c: Chain, tx: Tx): Result<Outcome> {
    var loaded :- Load(env, c, tx);
    var done :- Handle(env, loaded.wallet, loaded.balances, tx);
    var chain :- Exit(env, c, tx, done);
    var created := tx.call.Creates() && loaded.wallet.IsNew();
    Ok(Outcome(chain, Emits(created, tx.call.Wallet(), done.wallet.activeKey, done.event)))
  }

  /** The chain after a transaction, which the runtime rolls back when it fails. */
  function Commit(env: Env, c: Chain, tx: Tx): Chain {
    var r := Execute(env, c, tx);
    if r.Ok? then r.value.chain else c
  }

  // ----- What the runtime guarantees about signatures -----

  /** A compressed point starts with 2 or 3 (SEC 1 version 2, section 2.3.3). */
  predicate Sec1Compressed(key: Key) {
    key[0] == 2 || key[0] == 3
  }

  function Datas(ixs: seq<Instruction>): (datas: seq<Bytes>)
    ensures |datas| == |ixs|
    ensures forall i | 0 <= i < |ixs| :: datas[i] == ixs[i].data
  {
    if ixs == [] then [] else [ixs[0].data] + Datas(ixs[1..])
  }

  predicate CheckedBy(env: Env, checked: seq<Checked>) {
    forall i | 0 <= i < |checked| ::
      && env.verifies(checked[i].pubkey, checked[i].signature, checked[i].message)
      && Sec1Compressed(checked[i].pubkey)
  }

  /** Instruction `k` is no precompile, or everything it names was verified. */
  ghost predicate Verified(env: Env, ixs: seq<Instruction>, k: nat)
    requires k < |ixs|
  {
    ixs[k].programId == SECP256R1_PROGRAM_ID ==>
      var read := RuntimeRead(Datas(ixs), ixs[k].data);
      read.Some? && CheckedBy(env, read.value)
  }

  /** Every precompile instruction of the transaction passed the runtime's verification. */
  ghost predicate RuntimeChecked(env: Env, sysvar: Sysvar) {
    forall k | 0 <= k < |sysvar.instructions| :: Verified(env, sysvar.instructions, k)
  }

  ghost predicate Signed(env: Env, key: Key, message: Bytes) {
    exists signature :: env.verifies(key, signature, message)
  }

  /** The key and message the program reads carry a signature the runtime verified. */
  lemma PayloadIsSigned(env: Env, sysvar: Sysvar)
    requires RuntimeChecked(env, sysvar) && LoadPayload(sysvar).Ok?
    ensures var p := LoadPayload(sysvar).value;
            Signed(env, p.pubkey, p.message) && Sec1Compressed(p.pubkey) && p.pubkey != ZERO_KEY
  {
    var data := sysvar.instructions[sysvar.current - 1].data;
    assert Verified(env, sysvar.instructions, sysvar.current - 1);
    ProgramReadsWhatRuntimeVerified(Datas(sysvar.instructions), data);
    var p := LoadPayload(sysvar).value;
    var signature := data[SECP256R1_SIGNATURE_OFFSET..SECP256R1_MESSAGE_OFFSET];
    var checked := [Checked(p.pubkey, signature, p.message)];
    assert CheckedBy(env, checked) && checked[0].pubkey == p.pubkey;
    assert env.verifies(checked[0].pubkey, checked[0].signature, checked[0].message);
  }
}
