/** What a message that took effect can still do: nothing in its lifetime, and after a close exactly this. */
module Resubmission {
  import opened Prelude
  import Preimages
  import opened Precompile
  import opened WalletState
  import opened Ledger
  import opened Instructions
  import opened Rules
  import opened Runs
  import opened Timelock
  import opened History
  import opened Recovery
  import Money

  /** `again` carries the signed message of `tx`, for the same call; relayer, asked fee and clock are its own. */
  predicate Resends(tx: Tx, again: Tx) {
    && !tx.call.ConfirmRotation? && !again.call.ConfirmRotation?
    && LoadPayload(again.sysvar) == LoadPayload(tx.sysvar)
    && again.call.SignedPreimage() == tx.call.SignedPreimage()
  }

  /** The wallet as it is now lets the signer make this call. */
  predicate Entitled(env: Env, before: Option<SmartWallet>, tx: Tx)
    requires !tx.call.ConfirmRotation?
  {
    var w := Acting(env, before, tx);
    var owner := Signer(tx) == w.activeKey;
    && (before.None? ==> tx.call.Creates() && env.sha256(Signer(tx)) == tx.call.Wallet())
    && match tx.call
       case CancelRotation(_, _) => owner && w.rotation.pending
       case ProposeRotation(_, _, _) =>
         owner || (&& w.P256Guardian(Signer(tx)).Some?
                   && SlotFree(w, w.P256Guardian(Signer(tx)).value, tx.now))
       case CloseWallet(auth, _, _) => owner && tx.relayer != env.stateAddress(auth.walletId)
       case _ => owner
  }

  /** A message that passed once passes again exactly when its nonce, its expiry and its signer fit once more. */
  lemma ResendingPasses(env: Env, once: Option<SmartWallet>, before: Option<SmartWallet>, tx: Tx, again: Tx)
    requires Permitted(env, once, tx) && Resends(tx, again)
    ensures Permitted(env, before, again) <==>
            && again.call.auth.nonce == Acting(env, before, again).nonce
            && again.now < again.call.auth.expiresAt
            && Entitled(env, before, again)
  {
    hide LoadPayload, Preimages.Means, SlotFree, Position, SlotsOf;
  }

  // ----- Over whole runs -----

  lemma NonceIsRaised(env: Env, before: Option<SmartWallet>, tx: Tx)
    requires Permitted(env, before, tx) && (before.Some? ==> before.value.nonce > 0)
    ensures NextWallet(env, before, tx).Some? ==> NextWallet(env, before, tx).value.nonce > 0
  {
    hide Position, Signer, Preimages.Means, SlotsOf, LoadPayload;
  }

  /** Nonce 0 is spent by the founding: no stored wallet is at it. */
  lemma {:induction false} StoredNonceIsPositive(env: Env, r: Run, id: Bytes32, n: nat)
    requires IsRun(env, r) && n <= |r.steps| && Wallet(r, n, id).Some?
    ensures Wallet(r, n, id).value.nonce > 0
  {
    hide IsRun, Permitted, NextWallet, Succeeds, Execute, Leaves;
    if n > 0 {
      if Wallet(r, n - 1, id).Some? {
        StoredNonceIsPositive(env, r, id, n - 1);
      }
      StepOf(env, r, n - 1, id);
      if Did(env, r, n - 1, id) {
        NonceIsRaised(env, Wallet(r, n - 1, id), r.steps[n - 1].tx);
      }
    } else {
      NothingAtStart(env, r, id);
    }
  }

  /** An absent wallet accepts a spent message again exactly when that message founded it and is still alive. */
  lemma AbsentAcceptsAgain(env: Env, r: Run, id: Bytes32, i: nat, n: nat, again: Tx)
    requires IsRun(env, r) && i < n <= |r.steps| && Acted(env, r, i, id) && Resends(r.steps[i].tx, again)
    requires Wallet(r, n, id).None?
    ensures Permitted(env, None, again) <==>
            Wallet(r, i, id).None? && again.now < r.steps[i].tx.call.auth.expiresAt
  {
    hide IsRun, Permitted, Execute, Leaves, Affordable, LoadPayload;
    var tx := r.steps[i].tx;
    StepOf(env, r, i, id);
    NonceStep(env, Wallet(r, i, id), tx);
    ResendingPasses(env, Wallet(r, i, id), None, tx, again);
    if Wallet(r, i, id).Some? {
      StoredNonceIsPositive(env, r, id, i);
    } else {
      AbsentOnlyFounds(env, tx);
      SameCall(tx, again);
    }
  }

  lemma SameCall(tx: Tx, again: Tx)
    requires Resends(tx, again)
    ensures again.call.auth == tx.call.auth && again.call.SignedAction() == tx.call.SignedAction()
    ensures again.call.Wallet() == tx.call.Wallet() && again.call.Creates() == tx.call.Creates()
    ensures Signer(again) == Signer(tx) && Message(again) == Message(tx)
  {
    hide LoadPayload;
  }

  /**
   * When a message that took effect takes effect once more, at any later point of any run: never in its
   * lifetime; later, exactly when it is alive, the wallet is back at its nonce, and its signer is entitled.
   */
  lemma PassesAgainExactly(env: Env, r: Run, id: Bytes32, i: nat, n: nat, again: Tx)
    requires IsRun(env, r) && i < n <= |r.steps| && Acted(env, r, i, id) && Resends(r.steps[i].tx, again)
    ensures var w := Wallet(r, n, id);
            Execute(env, r.chains[n], again).Ok? <==>
            && again.call.auth.nonce == NonceOf(w)
            && again.now < again.call.auth.expiresAt
            && Entitled(env, w, again)
            && Affordable(env, r.chains[n], again)
    ensures (forall k | i <= k < n && Did(env, r, k, id) :: !r.steps[k].tx.call.CloseWallet?) ==>
            again.call.auth.nonce != NonceOf(Wallet(r, n, id))
  {
    hide IsRun, Permitted, NextWallet, Execute, Leaves, Affordable, LoadPayload, Entitled, Signer;
    var tx := r.steps[i].tx;
    StepOf(env, r, i, id);
    NonceStep(env, Wallet(r, i, id), tx);
    SameCall(tx, again);
    ReachableOk(env, r, n);
    ExecuteExactly(env, r.chains[n], again);
    ResendingPasses(env, Wallet(r, i, id), Wallet(r, n, id), tx, again);
    if forall k | i <= k < n && Did(env, r, k, id) :: !r.steps[k].tx.call.CloseWallet? {
      NonceNeverFalls(env, r, id, i + 1, n);
    }
  }

  /** A step at which the wallet is closed while a message is still alive. */
  ghost predicate ClosedAlive(env: Env, r: Run, id: Bytes32, k: nat, expiresAt: i64)
    requires k < |r.steps|
  {
    Did(env, r, k, id) && r.steps[k].tx.call.CloseWallet? && r.steps[k].tx.now < expiresAt
  }

  /**
   * One message takes effect twice only if its wallet was closed in between before the message expired.
   * A message that outlives no close of its wallet takes effect at most once in the whole run.
   */
  lemma TwiceOnlyAcrossEarlyClose(env: Env, r: Run, id: Bytes32, other: Bytes32, i: nat, j: nat)
    requires IsRun(env, r) && i < j < |r.steps| && Acted(env, r, i, id) && Acted(env, r, j, other)
    requires Message(r.steps[i].tx) == Message(r.steps[j].tx)
    ensures other == id
    ensures exists k :: i <= k < j && ClosedAlive(env, r, id, k, r.steps[i].tx.call.auth.expiresAt)
  {
    hide IsRun, Execute, Leaves, NextWallet, Succeeds, Preimages.Means, Signed, Signer, Message;
    ActedIsSigned(env, r, i, id);
    ActedIsSigned(env, r, j, other);
    Preimages.MeaningIsUnique(Message(r.steps[i].tx), r.steps[i].tx.call.SignedPreimage(),
                              r.steps[j].tx.call.SignedPreimage());
    if forall k | i <= k < j && Did(env, r, k, id) :: !r.steps[k].tx.call.CloseWallet? {
      NoReplay(env, r, i, j);
    }
    var k :| i <= k < j && Did(env, r, k, id) && r.steps[k].tx.call.CloseWallet?;
    ExpiredNeverActs(env, r, other, k, j);
    assert ClosedAlive(env, r, id, k, r.steps[i].tx.call.auth.expiresAt);
  }

  /** A message that is expired at some step takes effect at no later one, in this lifetime or another. */
  lemma ExpiredNeverActs(env: Env, r: Run, id: Bytes32, k: nat, j: nat)
    requires IsRun(env, r) && k <= j < |r.steps| && r.steps[k].Submit? && Acted(env, r, j, id)
    ensures r.steps[k].tx.now < r.steps[j].tx.call.auth.expiresAt
  {
    hide Apply, RuntimeChecked, Permitted, LoadPayload, Preimages.Means, Affordable, Acting;
    Money.PermittedIsAuthentic(env, Wallet(r, j, id), r.steps[j].tx);
  }

  // ----- It happens -----

  function ClosingCall(id: Bytes32, to: Address, now: i64): Call
    requires now < I64_MAX
  {
    Call.CloseWallet(Authorization(id, 1, now + 1, 0), to, 0)
  }

  lemma ClosingWorks(env: Env, c: Chain, id: Bytes32, owner: Key, relayer: Address, tx: Tx)
    requires ChainOk(env, c) && id in c.wallets && c.wallets[id].nonce == 1 && c.wallets[id].activeKey == owner
    requires tx.now < I64_MAX && relayer != env.stateAddress(id)
    requires Submits(env, tx, owner, ClosingCall(id, relayer, tx.now), relayer, tx.now)
    ensures Execute(env, c, tx).Ok? && Stored(Commit(env, c, tx), id).None?
  {
    hide Execute, RuntimeChecked, Preimages.Means, LoadPayload, WalletOk, Total, Announced, Position;
    ExecuteExactly(env, c, tx);
  }

  /** `tx0` founds the wallet, `tx1` closes it, and `tx0`, relayed by another at another time, founds it again. */
  ghost predicate FoundsAgain(env: Env, c: Chain, id: Bytes32, tx0: Tx, tx1: Tx, again: Address,
                              now: i64, later: i64)
  {
    var c1 := Commit(env, c, tx0);
    var c2 := Commit(env, c1, tx1);
    var tx2 := tx0.(relayer := again, now := later);
    && RuntimeChecked(env, tx0.sysvar) && RuntimeChecked(env, tx1.sysvar)
    && tx0.call.Creates() && tx0.call.Wallet() == id && tx1.call.CloseWallet? && tx1.call.Wallet() == id
    && tx0.now == tx1.now == now <= later && tx0.relayer != again
    && Execute(env, c, tx0).Ok? && Execute(env, c1, tx1).Ok? && Execute(env, c2, tx2).Ok?
  }

  /** The accounts a founding, a close and a second founding need: two relayers, the second able to fund a state. */
  predicate Funded(env: Env, c: Chain, id: Bytes32, relayer: Address, again: Address) {
    && RentDue(env, c.balances, id) <= Balance(c.balances, relayer)
    && relayer != env.stateAddress(id)
    && again !in {relayer, env.stateAddress(id), env.vaultAddress(id)}
    && env.stateRent <= Balance(c.balances, again)
  }

  /** Any owner's founding message, kept alive past a close, passes a second time. */
  lemma FoundingPassesAgain(env: Env, c: Chain, id: Bytes32, owner: Key, g: Key, relayer: Address, again: Address,
                            now: i64, later: i64)
    requires ChainOk(env, c) && id !in c.wallets && env.sha256(owner) == id && CanSign(env, owner)
    requires Funded(env, c, id, relayer, again) && now <= later < I64_MAX
    ensures exists tx0, tx1 :: FoundsAgain(env, c, id, tx0, tx1, again, now, later)
  {
    hide Execute, Commit, ChainOk, CanSign, Signer, Message, Preimages.Means, LoadPayload, Position,
      RuntimeChecked, SlotsOf;
    SignerCanSubmit(env, owner, FoundingCall(id, g, later), relayer, now);
    var tx0 :| Submits(env, tx0, owner, FoundingCall(id, g, later), relayer, now);
    FoundingWorks(env, c, id, owner, g, relayer, later, tx0);
    CommitOk(env, c, tx0);
    var c1 := Commit(env, c, tx0);
    SignerCanSubmit(env, owner, ClosingCall(id, relayer, now), relayer, now);
    var tx1 :| Submits(env, tx1, owner, ClosingCall(id, relayer, now), relayer, now);
    ClosingWorks(env, c1, id, owner, relayer, tx1);
    CommitOk(env, c1, tx1);
    Money.IsolatesWallets(env, c, tx0, id, again);
    Money.IsolatesWallets(env, c1, tx1, id, again);
    var tx2 := tx0.(relayer := again, now := later);
    SubmitsAgain(env, tx0, owner, FoundingCall(id, g, later), again, later);
    FoundingWorks(env, Commit(env, c1, tx1), id, owner, g, again, later, tx2);
    assert FoundsAgain(env, c, id, tx0, tx1, again, now, later);
  }

  lemma SubmitsAgain(env: Env, tx: Tx, key: Key, call: Call, relayer: Address, now: i64)
    requires Submits(env, tx, key, call, tx.relayer, tx.now)
    ensures Submits(env, tx.(relayer := relayer, now := now), key, call, relayer, now)
  {
    hide RuntimeChecked, LoadPayload, Preimages.Means;
  }

  /** A run in which one message takes effect at its first and at its third step. */
  ghost predicate ActsTwice(env: Env, r: Run, id: Bytes32) {
    && IsRun(env, r) && |r.steps| == 3
    && Acted(env, r, 0, id) && Acted(env, r, 1, id) && Acted(env, r, 2, id)
    && r.steps[1].tx.call.CloseWallet?
    && r.steps[2].tx.sysvar == r.steps[0].tx.sysvar && r.steps[2].tx.call == r.steps[0].tx.call
    && r.steps[0].tx.relayer != r.steps[2].tx.relayer && r.steps[0].tx.now < r.steps[2].tx.now
  }

  // ----- One such run -----

  function Filled(b: byte): Bytes32 {
    seq(32, _ => b)
  }

  /** A key that starts like a compressed point. */
  const OWNER: Key := [
    2, 0, 0, 0, 0, 0, 0, 0, 0, 0, 0, 0, 0, 0, 0, 0,
    0, 0, 0, 0, 0, 0, 0, 0, 0, 0, 0, 0, 0, 0, 0, 0, 0]

  /** Surroundings in which every signature holds: id 0, its state account 1, its vault 2, relayers 3 and 4. */
  function Surroundings(): Env {
    Env(_ => Filled(0), (_, _, _) => true, _ => Filled(1), _ => Filled(2), _ => 255, _ => 255, 3150000, 890880)
  }

  function Start(): Chain {
    Chain(map[], map[Filled(3) := 10000000, Filled(4) := 10000000])
  }

  lemma StartIsOk()
    ensures ChainOk(Surroundings(), Start())
    ensures Funded(Surroundings(), Start(), Filled(0), Filled(3), Filled(4))
    ensures CanSign(Surroundings(), OWNER)
  {
    TotalUpdate(map[], Filled(3), 10000000);
    TotalUpdate(map[Filled(3) := 10000000], Filled(4), 10000000);
    forall a: byte, b: byte | a != b ensures Filled(a) != Filled(b) {
      assert Filled(a)[0] != Filled(b)[0];
    }
    var env := Surroundings();
    var signature: Bytes := seq(P256_SIGNATURE_LEN, _ => 0);
    forall message: Bytes ensures SignsWith(env, OWNER, message) {
      assert env.verifies(OWNER, signature, message);
    }
  }

  lemma StepActs(env: Env, r: Run, i: nat)
    requires IsRun(env, r) && i < |r.steps| && r.steps[i].Submit? && !r.steps[i].tx.call.ConfirmRotation?
    requires Execute(env, r.chains[i], r.steps[i].tx).Ok?
    ensures Acted(env, r, i, r.steps[i].tx.call.Wallet())
  {
    hide IsRun, Execute, Succeeds, Leaves;
    ReachableOk(env, r, i);
    ExecuteExactly(env, r.chains[i], r.steps[i].tx);
  }

  /** "The same signature can never pass again" after a close is false of this run. */
  lemma SignaturePassesAgain()
    ensures exists r :: ActsTwice(Surroundings(), r, Filled(0)) && r.chains[0] == Start()
  {
    hide IsRun, Execute, Commit, Apply, ChainOk, CanSign, RuntimeChecked, Funded, Acted;
    StartIsOk();
    var env := Surroundings();
    FoundingPassesAgain(env, Start(), Filled(0), OWNER, OWNER, Filled(3), Filled(4), 0, 60);
    var tx0, tx1 :| FoundsAgain(env, Start(), Filled(0), tx0, tx1, Filled(4), 0, 60);
    var r: Run := Trace([Start()], []);
    StartIsRun(r);
    var tx2 := tx0.(relayer := Filled(4), now := 60);
    ExtendIsRun(env, r, tx0);
    ExtendIsRun(env, Extend(env, r, tx0), tx1);
    var longer := Extend(env, Extend(env, Extend(env, r, tx0), tx1), tx2);
    ExtendIsRun(env, Extend(env, Extend(env, r, tx0), tx1), tx2);
    StepActs(env, longer, 0);
    StepActs(env, longer, 1);
    StepActs(env, longer, 2);
    assert ActsTwice(env, longer, Filled(0));
  }

  lemma StartIsRun(r: Run)
    requires r == Trace([Start()], [])
    ensures IsRun(Surroundings(), r)
  {
    StartIsOk();
  }
}
