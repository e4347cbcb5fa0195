/** Recovery over whole runs: the timelock, the owner's veto, who may disturb a proposal. */
module Timelock {
  import opened Prelude
  import opened Actions
  import Preimages
  import opened Precompile
  import opened WalletState
  import opened Instructions
  import opened Rules
  import opened Runs

  /** Step `p` is a guardian's proposal, and nothing that touches proposals, keys or guardians succeeded since. */
  ghost predicate Undisturbed(env: Env, r: Run, id: Bytes32, p: nat, n: nat)
    requires p < n <= |r.steps|
  {
    && Did(env, r, p, id)
    && r.steps[p].tx.call.ProposeRotation?
    && ByGuardian(env, Wallet(r, p, id), r.steps[p].tx)
    && (forall j | p < j < n && Did(env, r, j, id) ::
          r.steps[j].tx.call.TransferSol? || r.steps[j].tx.call.SweepVault?)
  }

  /** The proposal of step `p` is what the wallet holds at `n`, with the guardians and owner of then. */
  ghost predicate Stands(env: Env, r: Run, id: Bytes32, p: nat, n: nat)
    requires p < n <= |r.steps|
  {
    && Undisturbed(env, r, id, p, n)
    && Wallet(r, n, id).Some?
    && var made := Acting(env, Wallet(r, p, id), r.steps[p].tx);
       var held := Wallet(r, n, id).value;
       && held.rotation == RotationSlot(true, Proposed(env, Wallet(r, p, id), r.steps[p].tx))
       && held.guardians == made.guardians
       && held.activeKey == made.activeKey
  }

  ghost predicate IsPending(r: Run, n: nat, id: Bytes32)
    requires n <= |r.steps|
  {
    Wallet(r, n, id).Some? && Wallet(r, n, id).value.rotation.pending
  }

  /** The one way a rotation becomes pending. */
  lemma OpensPending(env: Env, before: Option<SmartWallet>, tx: Tx)
    requires Permitted(env, before, tx) && tx.call.ProposeRotation?
    requires NextWallet(env, before, tx).Some? && NextWallet(env, before, tx).value.rotation.pending
    ensures ByGuardian(env, before, tx)
    ensures var w := Acting(env, before, tx);
            NextWallet(env, before, tx).value
            == w.(nonce := tx.call.auth.nonce + 1, rotation := RotationSlot(true, Proposed(env, before, tx)))
  {
    hide Authentic, Position, Signer;
  }

  /** And the only calls across which it stays so. */
  lemma KeepsPending(env: Env, before: Option<SmartWallet>, tx: Tx)
    requires Permitted(env, before, tx) && !tx.call.ProposeRotation?
    requires NextWallet(env, before, tx).Some? && NextWallet(env, before, tx).value.rotation.pending
    ensures tx.call.TransferSol? || tx.call.SweepVault?
    ensures before.Some?
    ensures NextWallet(env, before, tx).value == before.value.(nonce := tx.call.auth.nonce + 1)
  {
    hide Authentic, Position, Signer;
  }

  /** A pending rotation is always the work of one standing guardian proposal. */
  lemma {:induction false} PendingStands(env: Env, r: Run, id: Bytes32, n: nat)
    requires IsRun(env, r) && n <= |r.steps| && IsPending(r, n, id)
    ensures exists p :: 0 <= p < n && Stands(env, r, id, p, n)
  {
    hide IsRun, Permitted, NextWallet, Succeeds, Execute, Leaves, ByGuardian, Acting, Proposed;
    if n == 0 {
      NothingAtStart(env, r, id);
    } else {
      StepOf(env, r, n - 1, id);
      if Did(env, r, n - 1, id) && r.steps[n - 1].tx.call.ProposeRotation? {
        OpensPending(env, Wallet(r, n - 1, id), r.steps[n - 1].tx);
        assert Stands(env, r, id, n - 1, n);
      } else {
        if Did(env, r, n - 1, id) {
          KeepsPending(env, Wallet(r, n - 1, id), r.steps[n - 1].tx);
        }
        PendingStands(env, r, id, n - 1);
        var p :| 0 <= p < n - 1 && Stands(env, r, id, p, n - 1);
        assert Stands(env, r, id, p, n);
      }
    }
  }

  lemma NothingAtStart(env: Env, r: Run, id: Bytes32)
    requires IsRun(env, r)
    ensures Wallet(r, 0, id).None?
  {
  }

  /** `t` is inside the window of a proposal made at `start`, saturation at the end of time included. */
  predicate InWindow(start: i64, t: i64) {
    if start + ROTATION_DELAY <= I64_MAX
    then start + ROTATION_DELAY <= t <= start + ROTATION_DELAY + ROTATION_WINDOW
    else t == I64_MAX
  }

  /** The key was named by a guardian, in a message it signed, and the guardian is still where it was. */
  ghost predicate Vouched(env: Env, r: Run, id: Bytes32, p: nat, n: nat)
    requires p < n <= |r.steps|
    requires Stands(env, r, id, p, n)
  {
    var tx := r.steps[p].tx;
    var w := Wallet(r, n, id).value;
    && Signed(env, Signer(tx), Message(tx))
    && Preimages.Means(Message(tx), tx.call.SignedPreimage())
    && tx.call.SignedAction() == Action.ProposeRotation(tx.call.newKey)
    && w.rotation.proposal.proposedBy < MAX_GUARDIANS
    && Holds(w.guardians[w.rotation.proposal.proposedBy], Signer(tx))
    && Signer(tx) != w.activeKey
  }

  lemma StandingIsVouched(env: Env, r: Run, id: Bytes32, p: nat, n: nat)
    requires IsRun(env, r) && p < n <= |r.steps| && Stands(env, r, id, p, n)
    ensures Vouched(env, r, id, p, n)
  {
    hide RuntimeChecked, LoadPayload, Preimages.Means, Apply, Succeeds;
    PayloadIsSigned(env, r.steps[p].tx.sysvar);
  }

  /**
   * A confirmation succeeds exactly when one standing, vouched-for guardian proposal is in its window,
   * and it installs the key that proposal named.
   */
  lemma ConfirmIsTimelocked(env: Env, r: Run, id: Bytes32, k: nat)
    requires IsRun(env, r) && k < |r.steps| && r.steps[k].Submit? && r.steps[k].tx.call == Call.ConfirmRotation(id)
    ensures Did(env, r, k, id) <==>
            exists p | 0 <= p < k && Stands(env, r, id, p, k) :: InWindow(r.steps[p].tx.now, r.steps[k].tx.now)
    ensures forall p | 0 <= p < k && Stands(env, r, id, p, k) ::
            && Vouched(env, r, id, p, k)
            && (Did(env, r, k, id) ==>
                  && InWindow(r.steps[p].tx.now, r.steps[k].tx.now)
                  && Wallet(r, k + 1, id).Some?
                  && Wallet(r, k + 1, id).value.activeKey == r.steps[p].tx.call.newKey)
  {
    hide IsRun, Undisturbed, Vouched, Execute, Leaves, Authentic, Position, Signer, RentDue, VaultHeld;
    StepOf(env, r, k, id);
    if Did(env, r, k, id) {
      PendingStands(env, r, id, k);
    }
    forall p | 0 <= p < k && Stands(env, r, id, p, k) ensures Vouched(env, r, id, p, k) {
      StandingIsVouched(env, r, id, p, k);
    }
  }

  // ----- Veto -----

  /**
   * Whatever a wallet does other than paying out, be it a cancellation, a new guardian list, a change
   * of key, a close, or a fresh proposal, no recovery of it completes until a full delay has passed.
   */
  lemma DelayRestarts(env: Env, r: Run, id: Bytes32, v: nat, k: nat)
    requires IsRun(env, r) && v < k < |r.steps|
    requires Did(env, r, v, id) && !r.steps[v].tx.call.TransferSol? && !r.steps[v].tx.call.SweepVault?
    requires Did(env, r, k, id) && r.steps[k].tx.call.ConfirmRotation?
    ensures r.steps[k].tx.now >= Min(r.steps[v].tx.now + ROTATION_DELAY, I64_MAX)
    ensures exists p | v <= p < k :: Stands(env, r, id, p, k)
  {
    hide Succeeds, Vouched, ByGuardian, RuntimeChecked, Apply;
    ConfirmIsTimelocked(env, r, id, k);
    var p :| 0 <= p < k && Stands(env, r, id, p, k) && InWindow(r.steps[p].tx.now, r.steps[k].tx.now);
    assert v <= p;
  }

  // ----- Exclusivity -----

  /** The key in the slot the pending proposal came from. */
  function Proposer(w: SmartWallet): Key {
    var slot := w.rotation.proposal.proposedBy;
    if slot < MAX_GUARDIANS then w.guardians[slot].key else ZERO_KEY
  }

  /** What may end or replace guardian `g`'s proposal: its owner, a confirmation, or `g` itself. */
  ghost predicate Disturbs(env: Env, before: Option<SmartWallet>, tx: Tx, g: Key) {
    match tx.call
    case TransferSol(_, _, _, _) => false
    case SweepVault(_, _, _) => false
    case ProposeRotation(_, _, _) => ByOwner(env, before, tx) || Signer(tx) == g
    case _ => true
  }

  lemma OthersAreRefused(env: Env, before: Option<SmartWallet>, tx: Tx, g: Key)
    requires before.Some? && before.value.rotation.pending
    requires ProposalOk(before.value, before.value.rotation.proposal)
    requires g == Proposer(before.value)
    requires !before.value.rotation.proposal.IsExpired(tx.now)
    requires Permitted(env, before, tx) && !Disturbs(env, before, tx, g)
    ensures !tx.call.ProposeRotation?
    ensures NextWallet(env, before, tx) == Some(before.value.(nonce := tx.call.auth.nonce + 1))
  {
    hide Authentic, Signer;
  }

  predicate SameButNonce(w1: SmartWallet, w2: SmartWallet) {
    w1.(nonce := 0) == w2.(nonce := 0)
  }

  lemma SameProposal(w1: SmartWallet, w2: SmartWallet)
    requires SameButNonce(w1, w2)
    ensures w1.rotation == w2.rotation && Proposer(w1) == Proposer(w2)
  {
    assert w1.(nonce := 0).rotation == w2.(nonce := 0).rotation;
    assert w1.(nonce := 0).guardians == w2.(nonce := 0).guardians;
  }

  /**
   * While a proposal is unexpired, it stays as it is through any run in which its owner leaves it alone,
   * nobody confirms it and its proposer does not propose again: every other guardian is refused.
   */
  lemma {:induction false} ProposalIsExclusive(env: Env, r: Run, id: Bytes32, m: nat, n: nat)
    requires IsRun(env, r) && m <= n <= |r.steps| && IsPending(r, m, id)
    requires var w := Wallet(r, m, id).value;
             forall j | m <= j < n && Did(env, r, j, id) ::
               && !Disturbs(env, Wallet(r, j, id), r.steps[j].tx, Proposer(w))
               && r.steps[j].tx.now <= w.rotation.proposal.ClosesAt()
    ensures IsPending(r, n, id)
    ensures SameButNonce(Wallet(r, n, id).value, Wallet(r, m, id).value)
    ensures forall j | m <= j < n && Did(env, r, j, id) :: !r.steps[j].tx.call.ProposeRotation?
  {
    hide IsRun, Permitted, NextWallet, Succeeds, Execute, Leaves, ProposalOk, Disturbs, Position, Proposer;
    if m < n {
      ProposalIsExclusive(env, r, id, m, n - 1);
      StepOf(env, r, n - 1, id);
      WalletIsOk(env, r, n - 1, id);
      SameProposal(Wallet(r, n - 1, id).value, Wallet(r, m, id).value);
      if Did(env, r, n - 1, id) {
        OthersAreRefused(env, Wallet(r, n - 1, id), r.steps[n - 1].tx, Proposer(Wallet(r, m, id).value));
      }
    }
  }
}
