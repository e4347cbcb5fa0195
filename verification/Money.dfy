/** Where lamports can go: conservation, who can lose, and how much a wallet's signatures can cost. */
module Money {
  import opened Prelude
  import Preimages
  import opened Precompile
  import opened WalletState
  import opened Ledger
  import opened Instructions
  import opened Rules
  import opened Runs
  import opened History

  // ----- One transaction -----

  /** No instruction makes or destroys lamports, whichever accounts coincide. */
  lemma Conserves(env: Env, c: Chain, tx: Tx)
    requires ChainOk(env, c)
    ensures Total(Commit(env, c, tx).balances) == Total(c.balances)
  {
    hide Execute, Permitted, NextWallet, Affordable, WalletOk, Announced, Change, Total;
    ExecuteExactly(env, c, tx);
  }

  /** A call on one wallet leaves every other wallet alone, and takes from no account but three. */
  lemma IsolatesWallets(env: Env, c: Chain, tx: Tx, other: Bytes32, a: Address)
    requires ChainOk(env, c)
    ensures other != tx.call.Wallet() ==> Stored(Commit(env, c, tx), other) == Stored(c, other)
    ensures var id := tx.call.Wallet();
            a != env.vaultAddress(id) && a != env.stateAddress(id) && a != tx.relayer
            ==> Balance(Commit(env, c, tx).balances, a) >= Balance(c.balances, a)
    ensures tx.call.Wallet() in c.wallets && !tx.call.CloseWallet? && a != env.vaultAddress(tx.call.Wallet())
            ==> Balance(Commit(env, c, tx).balances, a) >= Balance(c.balances, a)
  {
    hide Execute, Permitted, NextWallet, Affordable, WalletOk, Announced, RefundPaid, Paid, Total;
    ExecuteExactly(env, c, tx);
  }

  /** The vault of `id` is a distinct account: not a signer, not the state account of any call around. */
  predicate VaultApart(env: Env, id: Bytes32, tx: Tx) {
    var vault := env.vaultAddress(id);
    && tx.relayer != vault
    && env.stateAddress(tx.call.Wallet()) != vault
    && (tx.call.Wallet() != id ==> env.vaultAddress(tx.call.Wallet()) != vault)
  }

  /** Sweeping or closing towards anyone else leaves the vault at exactly 0. */
  lemma EmptiesVault(env: Env, c: Chain, tx: Tx)
    requires ChainOk(env, c) && Execute(env, c, tx).Ok? && (tx.call.SweepVault? || tx.call.CloseWallet?)
    requires VaultApart(env, tx.call.Wallet(), tx) && tx.call.to != env.vaultAddress(tx.call.Wallet())
    ensures Balance(Commit(env, c, tx).balances, env.vaultAddress(tx.call.Wallet())) == 0
  {
    hide Execute, Permitted, NextWallet, WalletOk, Announced, Total;
    ExecuteExactly(env, c, tx);
    var vault := env.vaultAddress(tx.call.Wallet());
    assert Balance(Commit(env, c, tx).balances, vault) == Balance(c.balances, vault) + Change(env, c, tx, vault);
  }

  /** Closing returns everything the state account holds, its rent included. */
  lemma ClosingEmptiesState(env: Env, c: Chain, tx: Tx)
    requires ChainOk(env, c) && Execute(env, c, tx).Ok? && tx.call.CloseWallet?
    ensures tx.call.Wallet() !in Commit(env, c, tx).wallets
    ensures Balance(Commit(env, c, tx).balances, env.stateAddress(tx.call.Wallet())) == 0
  {
    hide Execute, NextWallet, WalletOk, Announced, Total, Flow, ByOwner, Affordable;
    ExecuteExactly(env, c, tx);
    var before := Stored(c, tx.call.Wallet());
    ClosingIsPermitted(env, before, tx);
    assert Stored(Commit(env, c, tx), tx.call.Wallet()).None?;
    var state := env.stateAddress(tx.call.Wallet());
    assert Balance(Commit(env, c, tx).balances, state) == Balance(c.balances, state) + Change(env, c, tx, state);
  }

  lemma ClosingIsPermitted(env: Env, before: Option<SmartWallet>, tx: Tx)
    requires Permitted(env, before, tx) && tx.call.CloseWallet?
    ensures NextWallet(env, before, tx).None? && tx.relayer != env.stateAddress(tx.call.Wallet())
  {
    hide ByOwner;
  }

  /** The same transfer, signed for the same, with the relayer asking another fee. */
  function Asking(tx: Tx, fee: u64): Tx
    requires tx.call.TransferSol?
  {
    tx.(call := Call.TransferSol(tx.call.auth, tx.call.to, tx.call.lamports, fee))
  }

  /**
   * Once authorised, a transfer goes through exactly when the vault covers the amount, the signed cap
   * and its own rent, as unbounded numbers; it then goes through whatever fee the relayer asks, and
   * the vault keeps its rent and the part of the cap left unclaimed.
   */
  lemma TransferGuardIsExact(env: Env, c: Chain, tx: Tx)
    requires ChainOk(env, c) && tx.call.TransferSol?
    requires ByOwner(env, Stored(c, tx.call.Wallet()), tx) && RentPayable(env, c, tx)
    ensures var needed := tx.call.lamports + tx.call.auth.maxRelayerFee + env.vaultRent;
            Execute(env, c, tx).Ok? <==> needed <= VaultHeld(env, c, tx)
    ensures forall fee: u64 ::
            Execute(env, c, Asking(tx, fee)).Ok? == Execute(env, c, tx).Ok?
    ensures var vault := env.vaultAddress(tx.call.Wallet());
            Execute(env, c, tx).Ok? && VaultApart(env, tx.call.Wallet(), tx) && tx.call.to != vault
            ==> Balance(Commit(env, c, tx).balances, vault)
                == VaultHeld(env, c, tx) - tx.call.lamports - Refund(tx.call)
                >= env.vaultRent + tx.call.auth.maxRelayerFee - Refund(tx.call)
  {
    hide Execute, NextWallet, WalletOk, Announced, Total, Authentic, Signer, Acting;
    ExecuteExactly(env, c, tx);
    forall fee: u64
      ensures Execute(env, c, Asking(tx, fee)).Ok? == Execute(env, c, tx).Ok?
    {
      var tx' := Asking(tx, fee);
      ExecuteExactly(env, c, tx');
      OwnerWhateverTheFee(env, Stored(c, tx.call.Wallet()), tx, fee);
    }
  }

  lemma OwnerWhateverTheFee(env: Env, before: Option<SmartWallet>, tx: Tx, fee: u64)
    requires tx.call.TransferSol?
    ensures ByOwner(env, before, tx) == ByOwner(env, before, Asking(tx, fee))
  {
    hide Preimages.Means, LoadPayload;
  }

  /** The wallet's nonce moved and its rotation slot holds the signer's proposal; the rest is as it was. */
  predicate OnlyProposes(c: Chain, after: Chain, tx: Tx)
    requires tx.call.ProposeRotation?
  {
    var id := tx.call.Wallet();
    && id in c.wallets && id in after.wallets
    && var w := c.wallets[id];
       var slot := w.P256Guardian(Signer(tx));
       && slot.Some?
       && w.nonce < U64_MAX
       && after.wallets[id] == w.(nonce := w.nonce + 1,
                                  rotation := RotationSlot(true, PendingRotation(tx.call.newKey, tx.now, slot.value)))
  }

  /** A step the owner did not sign can only open a proposal, and costs at most the cap its message names. */
  lemma GuardianIsConfined(env: Env, c: Chain, tx: Tx)
    requires ChainOk(env, c) && Execute(env, c, tx).Ok? && !tx.call.ConfirmRotation?
    requires Signer(tx) != Acting(env, Stored(c, tx.call.Wallet()), tx).activeKey
    ensures tx.call.ProposeRotation? && OnlyProposes(c, Commit(env, c, tx), tx)
    ensures var vault := env.vaultAddress(tx.call.Wallet());
            forall a :: Balance(Commit(env, c, tx).balances, a)
                        == Balance(c.balances, a) + Delta(a, vault, tx.relayer, Refund(tx.call))
    ensures Refund(tx.call) <= tx.call.auth.maxRelayerFee
  {
    hide Execute, WalletOk, Announced, Total, Preimages.Means, LoadPayload, Position, Affordable;
    ExecuteExactly(env, c, tx);
    assert Stored(Commit(env, c, tx), tx.call.Wallet()).Some?;
  }

  // ----- One message, one effect -----

  /** Two calls that one message authorises are the same call, but for the relayer and the fee it asks. */
  lemma MessageBindsCall(env: Env, before: Option<SmartWallet>, tx1: Tx, tx2: Tx)
    requires Authentic(env, before, tx1) && Authentic(env, before, tx2) && Message(tx1) == Message(tx2)
    ensures tx1.call.auth == tx2.call.auth && tx1.call.SignedAction() == tx2.call.SignedAction()
    ensures tx1.call.Wallet() == tx2.call.Wallet() && tx1.call.CloseWallet? == tx2.call.CloseWallet?
    ensures tx1.call.TransferSol? || tx1.call.SweepVault? || tx1.call.CloseWallet? ==>
            Recipient(tx1) == Recipient(tx2)
  {
    hide Preimages.Means, LoadPayload, Acting;
    Preimages.MeaningIsUnique(Message(tx1), tx1.call.SignedPreimage(), tx2.call.SignedPreimage());
  }

  lemma MessageBindsWallet(env: Env, before: Option<SmartWallet>, tx1: Tx, tx2: Tx)
    requires Permitted(env, before, tx1) && Permitted(env, before, tx2)
    requires !tx1.call.ConfirmRotation? && !tx2.call.ConfirmRotation?
    requires Message(tx1) == Message(tx2) && Signer(tx1) == Signer(tx2) && tx1.now == tx2.now
    ensures NextWallet(env, before, tx1) == NextWallet(env, before, tx2)
  {
    hide Preimages.Means, LoadPayload, Message, Position, SlotsOf;
    PermittedIsAuthentic(env, before, tx1);
    PermittedIsAuthentic(env, before, tx2);
    MessageBindsCall(env, before, tx1, tx2);
  }

  lemma PermittedIsAuthentic(env: Env, before: Option<SmartWallet>, tx: Tx)
    requires Permitted(env, before, tx) && !tx.call.ConfirmRotation?
    ensures Authentic(env, before, tx)
  {
    hide Authentic, Acting, Signer;
  }

  /** Both relay one signed message, at one time, and both succeed. */
  predicate Relays(env: Env, c: Chain, tx1: Tx, tx2: Tx) {
    && Execute(env, c, tx1).Ok? && Execute(env, c, tx2).Ok?
    && !tx1.call.ConfirmRotation? && !tx2.call.ConfirmRotation?
    && Message(tx1) == Message(tx2) && Signer(tx1) == Signer(tx2) && tx1.now == tx2.now
  }

  /**
   * Whoever relays a message, and whatever fee they ask, the wallets come out the same, and so does
   * every balance but those of the vault, the recipient and the two relayers.
   */
  lemma RelayerOnlySplits(env: Env, c: Chain, tx1: Tx, tx2: Tx)
    requires ChainOk(env, c) && Relays(env, c, tx1, tx2)
    ensures forall id :: Stored(Commit(env, c, tx1), id) == Stored(Commit(env, c, tx2), id)
    ensures Total(Commit(env, c, tx1).balances) == Total(Commit(env, c, tx2).balances)
    ensures forall a :: a !in {env.vaultAddress(tx1.call.Wallet()), Recipient(tx1), tx1.relayer, tx2.relayer} ==>
                        Balance(Commit(env, c, tx1).balances, a) == Balance(Commit(env, c, tx2).balances, a)
  {
    hide Execute, Permitted, NextWallet, Affordable, WalletOk, Announced, RefundPaid, Paid, Total, Authentic,
      Message, Signer;
    ExecuteExactly(env, c, tx1);
    ExecuteExactly(env, c, tx2);
    SameTarget(env, c, tx1, tx2);
    MessageBindsWallet(env, Stored(c, tx1.call.Wallet()), tx1, tx2);
  }

  /** The same event, up to how a payout divides between its recipient and the relayer. */
  predicate SameButSplit(e1: Event, e2: Event) {
    match e1
    case SolTransferred(id, to, lamports, _) =>
      e2.SolTransferred? && e2.walletId == id && e2.to == to && e2.lamports == lamports
    case VaultSwept(id, to, lamports, fee) =>
      e2.VaultSwept? && e2.walletId == id && e2.to == to && e2.lamports + e2.relayerFee == lamports + fee
    case WalletClosed(id, to, lamports, fee) =>
      e2.WalletClosed? && e2.walletId == id && e2.to == to && e2.lamports + e2.relayerFee == lamports + fee
    case _ => e2 == e1
  }

  /**
   * What is not for a relayer to touch: a transfer's recipient gets its amount, a sweep or close leaves
   * nothing behind, and the events tell the same story, whoever relays and whatever fee they ask.
   */
  lemma RelayerCannotDivert(env: Env, c: Chain, tx1: Tx, tx2: Tx)
    requires ChainOk(env, c) && Relays(env, c, tx1, tx2)
    requires VaultApart(env, tx1.call.Wallet(), tx1) && VaultApart(env, tx1.call.Wallet(), tx2)
    ensures var vault := env.vaultAddress(tx1.call.Wallet());
            tx1.call.TransferSol? ==>
            forall a :: a !in {vault, tx1.relayer, tx2.relayer} ==>
                        Balance(Commit(env, c, tx1).balances, a) == Balance(Commit(env, c, tx2).balances, a)
    ensures var vault := env.vaultAddress(tx1.call.Wallet());
            (tx1.call.SweepVault? || tx1.call.CloseWallet?) && tx1.call.to != vault ==>
            Balance(Commit(env, c, tx1).balances, vault) == Balance(Commit(env, c, tx2).balances, vault) == 0
    ensures var e1 := Execute(env, c, tx1).value.events;
            var e2 := Execute(env, c, tx2).value.events;
            |e1| == |e2| && forall i | 0 <= i < |e1| :: SameButSplit(e1[i], e2[i])
  {
    hide Execute, Permitted, NextWallet, Affordable, WalletOk, Announced, Total, Authentic, Message, Signer, Flow;
    ExecuteExactly(env, c, tx1);
    ExecuteExactly(env, c, tx2);
    SameTarget(env, c, tx1, tx2);
    if tx1.call.SweepVault? || tx1.call.CloseWallet? {
      if tx1.call.to != env.vaultAddress(tx1.call.Wallet()) {
        EmptiesVault(env, c, tx1);
        EmptiesVault(env, c, tx2);
      }
    }
    SameAnnouncement(env, c, tx1, tx2);
    if tx1.call.TransferSol? {
      SameTransfer(env, c, tx1, tx2);
    }
  }

  lemma SameAnnouncement(env: Env, c: Chain, tx1: Tx, tx2: Tx)
    requires Succeeds(env, c, tx1) && Succeeds(env, c, tx2) && tx1.call.Wallet() == tx2.call.Wallet()
    requires !tx1.call.ConfirmRotation? && !tx2.call.ConfirmRotation?
    requires Message(tx1) == Message(tx2) && Signer(tx1) == Signer(tx2) && tx1.now == tx2.now
    requires VaultApart(env, tx1.call.Wallet(), tx1) && VaultApart(env, tx1.call.Wallet(), tx2)
    requires 0 <= RefundPaid(tx1, VaultHeld(env, c, tx1)) <= VaultHeld(env, c, tx1)
    requires 0 <= RefundPaid(tx2, VaultHeld(env, c, tx2)) <= VaultHeld(env, c, tx2)
    ensures var before := Stored(c, tx1.call.Wallet());
            SameButSplit(Announced(env, before, tx1, VaultHeld(env, c, tx1)),
                         Announced(env, before, tx2, VaultHeld(env, c, tx2)))
  {
    hide Preimages.Means, LoadPayload, Message, Signer, Position, SlotFree, Affordable, RefundPaid;
    var before := Stored(c, tx1.call.Wallet());
    PermittedIsAuthentic(env, before, tx1);
    PermittedIsAuthentic(env, before, tx2);
    MessageBindsCall(env, before, tx1, tx2);
  }

  lemma SameTransfer(env: Env, c: Chain, tx1: Tx, tx2: Tx)
    requires Succeeds(env, c, tx1) && Succeeds(env, c, tx2) && tx1.call.Wallet() == tx2.call.Wallet()
    requires tx1.call.TransferSol? && !tx2.call.ConfirmRotation? && Message(tx1) == Message(tx2)
    ensures tx2.call.TransferSol? && tx2.call.lamports == tx1.call.lamports && tx2.call.to == tx1.call.to
    ensures forall a :: a !in {env.vaultAddress(tx1.call.Wallet()), tx1.relayer, tx2.relayer} ==>
                        Change(env, c, tx1, a) == Change(env, c, tx2, a)
  {
    hide Preimages.Means, LoadPayload, Message, Signer, Position, SlotFree, Affordable;
    var before := Stored(c, tx1.call.Wallet());
    PermittedIsAuthentic(env, before, tx1);
    PermittedIsAuthentic(env, before, tx2);
    MessageBindsCall(env, before, tx1, tx2);
  }

  lemma SameTarget(env: Env, c: Chain, tx1: Tx, tx2: Tx)
    requires Succeeds(env, c, tx1) && Succeeds(env, c, tx2)
    requires !tx1.call.ConfirmRotation? && !tx2.call.ConfirmRotation?
    requires Message(tx1) == Message(tx2)
    ensures tx1.call.Wallet() == tx2.call.Wallet() && tx1.call.CloseWallet? == tx2.call.CloseWallet?
    ensures tx1.call.TransferSol? == tx2.call.TransferSol? && tx1.call.SweepVault? == tx2.call.SweepVault?
    ensures tx1.call.TransferSol? || tx1.call.SweepVault? || tx1.call.CloseWallet? ==>
            Recipient(tx1) == Recipient(tx2)
  {
    hide Preimages.Means, LoadPayload, Message, Acting, Signer, Affordable;
    PermittedIsAuthentic(env, Stored(c, tx1.call.Wallet()), tx1);
    PermittedIsAuthentic(env, Stored(c, tx2.call.Wallet()), tx2);
    Preimages.MeaningIsUnique(Message(tx1), tx1.call.SignedPreimage(), tx2.call.SignedPreimage());
    MessageBindsCall(env, Stored(c, tx1.call.Wallet()), tx1, tx2);
  }

  /** The rent a relayer advances for a new state account, or gets back for a closed one. */
  function RentAdvanced(env: Env, c: Chain, tx: Tx): int {
    var id := tx.call.Wallet();
    if id !in c.wallets then RentDue(env, c.balances, id)
    else if tx.call.CloseWallet? then 0 - Balance(c.balances, env.stateAddress(id))
    else 0
  }

  /** What relaying a transaction earns, rent apart: the lamports that reach the relayer's account. */
  function Earned(env: Env, c: Chain, tx: Tx): int {
    Balance(Commit(env, c, tx).balances, tx.relayer) - Balance(c.balances, tx.relayer) + RentAdvanced(env, c, tx)
  }

  /** The relayer is not itself an account of the wallet, nor paid by the call as its recipient. */
  predicate RelayerApart(env: Env, tx: Tx) {
    var id := tx.call.Wallet();
    var pays := tx.call.TransferSol? || tx.call.SweepVault? || tx.call.CloseWallet?;
    && env.vaultAddress(id) != env.stateAddress(id)
    && tx.relayer !in {env.vaultAddress(id), env.stateAddress(id)}
    && (pays ==> Recipient(tx) !in {tx.relayer, env.stateAddress(id)})
  }

  predicate NamesFee(e: Event, fee: int) {
    e.SolTransferred? || e.VaultSwept? || e.WalletClosed? ==> e.relayerFee == fee
  }

  /** The relayer gets what it asks, or the signed cap if that is less, or on a close what the vault still holds. */
  predicate IsFairFee(tx: Tx, held: int, fee: int)
    requires !tx.call.ConfirmRotation?
  {
    && fee <= tx.call.relayerFee && fee <= tx.call.auth.maxRelayerFee
    && (tx.call.CloseWallet? ==> fee <= held)
    && (fee == tx.call.relayerFee || fee == tx.call.auth.maxRelayerFee || (tx.call.CloseWallet? && fee == held))
  }

  /** What the relayer earns is the refund, no more and no less, and as announced. */
  lemma EarnsTheRefund(env: Env, c: Chain, tx: Tx)
    requires ChainOk(env, c) && Execute(env, c, tx).Ok? && !tx.call.ConfirmRotation? && RelayerApart(env, tx)
    ensures Earned(env, c, tx) == RefundPaid(tx, VaultHeld(env, c, tx))
    ensures 0 <= Earned(env, c, tx) <= Min(tx.call.relayerFee, tx.call.auth.maxRelayerFee)
    ensures IsFairFee(tx, Balance(c.balances, env.vaultAddress(tx.call.Wallet())), Earned(env, c, tx))
    ensures forall e | e in Execute(env, c, tx).value.events :: NamesFee(e, Earned(env, c, tx))
  {
    hide Execute, Permitted, NextWallet, Affordable, WalletOk, Announced, Total;
    ExecuteExactly(env, c, tx);
    AnnouncesRefund(env, c, tx);
    OnlyStoredCloses(env, c, tx);
    assert Balance(Commit(env, c, tx).balances, tx.relayer)
        == Balance(c.balances, tx.relayer) + Change(env, c, tx, tx.relayer);
  }

  lemma OnlyStoredCloses(env: Env, c: Chain, tx: Tx)
    requires Succeeds(env, c, tx)
    ensures tx.call.Wallet() in c.wallets || tx.call.Creates()
  {
    hide Preimages.Means, LoadPayload, Signer, Position, SlotFree, Affordable;
  }

  lemma AnnouncesRefund(env: Env, c: Chain, tx: Tx)
    requires Succeeds(env, c, tx) && 0 <= RefundPaid(tx, VaultHeld(env, c, tx)) <= VaultHeld(env, c, tx)
    ensures NamesFee(Announced(env, Stored(c, tx.call.Wallet()), tx, VaultHeld(env, c, tx)),
                     RefundPaid(tx, VaultHeld(env, c, tx)))
  {
    hide Permitted, VaultHeld, RefundPaid, ByOwner, Affordable;
  }

  // ----- Whole runs -----

  /** No step makes or destroys lamports. */
  lemma {:induction false} RunConserves(env: Env, r: Run, n: nat)
    requires IsRun(env, r) && n <= |r.steps|
    ensures Total(r.chains[n].balances) == Total(r.chains[0].balances)
  {
    hide Commit, RuntimeChecked, WalletOk, Total;
    if n > 0 {
      RunConserves(env, r, n - 1);
      ReachableOk(env, r, n - 1);
      match r.steps[n - 1]
      case Submit(tx) => Conserves(env, r.chains[n - 1], tx);
      case External(from, to, lamports) =>
        if Move(r.chains[n - 1].balances, from, to, lamports).Ok? {
          MoveConserves(r.chains[n - 1].balances, from, to, lamports);
        }
    }
  }

  /** What a message lets leave the vault: its fee cap and, if asked for, the amount it transfers. */
  function Allowance(message: Bytes, amounts: bool): nat {
    var p := Preimages.Decode(message);
    if p.None? then 0
    else p.value.maxRelayerFee + if amounts && p.value.action.TransferSol? then p.value.action.lamports else 0
  }

  /** The distinct messages that took effect on the wallet in a stretch of a run, with what each allows. */
  ghost function Executed(env: Env, r: Run, id: Bytes32, m: nat, n: nat, amounts: bool): map<Bytes, nat>
    requires n <= |r.steps|
  {
    if n <= m then map[]
    else if Acted(env, r, n - 1, id) then
      var message := Message(r.steps[n - 1].tx);
      Executed(env, r, id, m, n - 1, amounts)[message := Allowance(message, amounts)]
    else Executed(env, r, id, m, n - 1, amounts)
  }

  /** No close before the stretch's last step: one lifetime at most. */
  ghost predicate OneLifetime(env: Env, r: Run, id: Bytes32, m: nat, n: nat)
    requires n <= |r.steps|
  {
    forall k | m <= k < n - 1 && Did(env, r, k, id) :: !r.steps[k].tx.call.CloseWallet?
  }

  lemma {:induction false} ExecutedIsNew(env: Env, r: Run, id: Bytes32, m: nat, k: nat, n: nat, amounts: bool)
    requires IsRun(env, r) && k < n <= |r.steps| && OneLifetime(env, r, id, m, n) && Acted(env, r, n - 1, id)
    ensures Message(r.steps[n - 1].tx) !in Executed(env, r, id, m, k, amounts)
  {
    hide IsRun, Succeeds, Message, Allowance;
    if m < k {
      ExecutedIsNew(env, r, id, m, k - 1, n, amounts);
      if Acted(env, r, k - 1, id) {
        NoReplay(env, r, k - 1, n - 1);
      }
    }
  }

  /** Each step's message adds its allowance to the sum exactly once. */
  lemma ExecutedGrows(env: Env, r: Run, id: Bytes32, m: nat, n: nat, amounts: bool)
    requires IsRun(env, r) && m < n <= |r.steps| && OneLifetime(env, r, id, m, n)
    ensures Total(Executed(env, r, id, m, n, amounts))
            == Total(Executed(env, r, id, m, n - 1, amounts))
               + if Acted(env, r, n - 1, id) then Allowance(Message(r.steps[n - 1].tx), amounts) else 0
  {
    hide IsRun, Succeeds, Message, Allowance, Total;
    if Acted(env, r, n - 1, id) {
      ExecutedIsNew(env, r, id, m, n - 1, n, amounts);
      var message := Message(r.steps[n - 1].tx);
      TotalUpdate(Executed(env, r, id, m, n - 1, amounts), message, Allowance(message, amounts));
    }
  }

  /** What the relayers got back out of the vault in a stretch of a run. */
  ghost function Refunded(env: Env, r: Run, id: Bytes32, m: nat, n: nat): int
    requires n <= |r.steps|
  {
    if n <= m then 0
    else Refunded(env, r, id, m, n - 1)
         + if Acted(env, r, n - 1, id)
           then RefundPaid(r.steps[n - 1].tx, VaultHeld(env, r.chains[n - 1], r.steps[n - 1].tx))
           else 0
  }

  lemma AllowanceOfActed(env: Env, r: Run, i: nat, id: Bytes32)
    requires IsRun(env, r) && i < |r.steps| && Acted(env, r, i, id)
    ensures var tx := r.steps[i].tx;
            && Allowance(Message(tx), false) == tx.call.auth.maxRelayerFee
            && Allowance(Message(tx), true)
               == tx.call.auth.maxRelayerFee + if tx.call.TransferSol? then tx.call.lamports else 0
  {
    hide IsRun, Signed, Preimages.Means, Preimages.Decode, Message, Succeeds;
    ActedIsSigned(env, r, i, id);
    Preimages.MeansIffDecodes(Message(r.steps[i].tx), r.steps[i].tx.call.SignedPreimage());
  }

  /** In a lifetime, the relayers never get back more than the caps of the distinct messages executed. */
  lemma {:induction false} RefundsWithinCaps(env: Env, r: Run, id: Bytes32, m: nat, n: nat)
    requires IsRun(env, r) && n <= |r.steps| && OneLifetime(env, r, id, m, n)
    ensures Refunded(env, r, id, m, n) <= Total(Executed(env, r, id, m, n, false))
  {
    hide IsRun, Succeeds, Message, Allowance, Executed, VaultHeld;
    if m < n {
      RefundsWithinCaps(env, r, id, m, n - 1);
      ExecutedGrows(env, r, id, m, n, false);
      if Acted(env, r, n - 1, id) {
        AllowanceOfActed(env, r, n - 1, id);
      }
    } else {
      NoneExecuted(env, r, id, m, n, false);
    }
  }

  /** The relayers' accounts are their own, at every step of the stretch that acts on the wallet. */
  ghost predicate RelayersApart(env: Env, r: Run, id: Bytes32, m: nat, n: nat)
    requires n <= |r.steps|
  {
    forall k | m <= k < n && Did(env, r, k, id) :: RelayerApart(env, r.steps[k].tx)
  }

  /** What relaying the wallet's messages earned in a stretch of a run, in lamports received. */
  ghost function AllEarned(env: Env, r: Run, id: Bytes32, m: nat, n: nat): int
    requires n <= |r.steps|
  {
    if n <= m then 0
    else AllEarned(env, r, id, m, n - 1)
         + if Acted(env, r, n - 1, id) then Earned(env, r.chains[n - 1], r.steps[n - 1].tx) else 0
  }

  /** In a lifetime, the lamports relayers gain, rent apart, stay within the caps of the distinct messages executed. */
  lemma {:induction false} RelayersEarnWithinCaps(env: Env, r: Run, id: Bytes32, m: nat, n: nat)
    requires IsRun(env, r) && n <= |r.steps| && OneLifetime(env, r, id, m, n) && RelayersApart(env, r, id, m, n)
    ensures AllEarned(env, r, id, m, n) == Refunded(env, r, id, m, n) <= Total(Executed(env, r, id, m, n, false))
  {
    hide IsRun, Execute, Succeeds, Leaves, Message, Allowance, Executed, VaultHeld, Earned, RefundPaid, RelayerApart;
    RefundsWithinCaps(env, r, id, m, n);
    if m < n {
      RelayersEarnWithinCaps(env, r, id, m, n - 1);
      if Acted(env, r, n - 1, id) {
        StepOf(env, r, n - 1, id);
        ReachableOk(env, r, n - 1);
        EarnsTheRefund(env, r.chains[n - 1], r.steps[n - 1].tx);
      }
    }
  }

  lemma NoneExecuted(env: Env, r: Run, id: Bytes32, m: nat, n: nat, amounts: bool)
    requires n <= m && n <= |r.steps|
    ensures Total(Executed(env, r, id, m, n, amounts)) == 0
  {
  }

  /** The vault is nobody's signer and no other wallet's account in the stretch. */
  ghost predicate Apart(env: Env, r: Run, id: Bytes32, m: nat, n: nat)
    requires n <= |r.steps|
  {
    forall k | m <= k < n ::
      if r.steps[k].Submit? then VaultApart(env, id, r.steps[k].tx) else r.steps[k].from != env.vaultAddress(id)
  }

  /** One step takes from a vault no more than what its message allows, unless it empties it. */
  lemma StepOutflow(env: Env, r: Run, id: Bytes32, i: nat)
    requires IsRun(env, r) && i < |r.steps| && Apart(env, r, id, i, i + 1)
    requires Did(env, r, i, id) ==> !r.steps[i].tx.call.SweepVault? && !r.steps[i].tx.call.CloseWallet?
    ensures Balance(r.chains[i + 1].balances, env.vaultAddress(id))
            >= Balance(r.chains[i].balances, env.vaultAddress(id))
               - if Acted(env, r, i, id) then Allowance(Message(r.steps[i].tx), true) else 0
  {
    hide RuntimeChecked, Succeeds, Message, Allowance, Execute, Permitted, NextWallet, Affordable, WalletOk, Announced,
      Total;
    if Did(env, r, i, id) {
      StepOf(env, r, i, id);
      if Acted(env, r, i, id) {
        AllowanceOfActed(env, r, i, id);
      }
      assert Balance(r.chains[i + 1].balances, env.vaultAddress(id))
          == Balance(r.chains[i].balances, env.vaultAddress(id))
             + Change(env, r.chains[i], r.steps[i].tx, env.vaultAddress(id));
    } else if r.steps[i].Submit? {
      ReachableOk(env, r, i);
      ExecuteExactly(env, r.chains[i], r.steps[i].tx);
      IsolatesWallets(env, r.chains[i], r.steps[i].tx, id, env.vaultAddress(id));
    }
  }

  /**
   * In a lifetime without sweep or close, the vault falls by at most the transfers and caps of the
   * distinct messages executed, whatever fees the relayers ask and whatever others do.
   */
  lemma {:induction false} OutflowWithinMessages(env: Env, r: Run, id: Bytes32, m: nat, n: nat)
    requires IsRun(env, r) && m <= n <= |r.steps| && Apart(env, r, id, m, n)
    requires forall k | m <= k < n && Did(env, r, k, id) ::
               !r.steps[k].tx.call.SweepVault? && !r.steps[k].tx.call.CloseWallet?
    ensures Balance(r.chains[n].balances, env.vaultAddress(id)) + Total(Executed(env, r, id, m, n, true))
            >= Balance(r.chains[m].balances, env.vaultAddress(id))
  {
    hide IsRun, Succeeds, Message, Allowance, Executed, VaultApart;
    if m < n {
      OutflowWithinMessages(env, r, id, m, n - 1);
      ExecutedGrows(env, r, id, m, n, true);
      StepOutflow(env, r, id, n - 1);
    }
  }
}
