/** Nonces, messages and the origin of every active key, over whole runs. */
module History {
  import opened Prelude
  import opened Actions
  import Preimages
  import opened Precompile
  import opened WalletState
  import opened Instructions
  import opened Rules
  import opened Runs
  import opened Timelock

  /** A successful step that carried a signed message. */
  ghost predicate Acted(env: Env, r: Run, i: nat, id: Bytes32)
    requires i < |r.steps|
  {
    Did(env, r, i, id) && !r.steps[i].tx.call.ConfirmRotation?
  }

  /** How many messages took effect since the wallet was last created. */
  ghost function ActionCount(env: Env, r: Run, id: Bytes32, n: nat): nat
    requires n <= |r.steps|
  {
    if n == 0 then 0
    else if !Acted(env, r, n - 1, id) then ActionCount(env, r, id, n - 1)
    else if r.steps[n - 1].tx.call.CloseWallet? then 0
    else ActionCount(env, r, id, n - 1) + 1
  }

  function NonceOf(w: Option<SmartWallet>): nat {
    if w.Some? then w.value.nonce else 0
  }

  /** The nonce a message must carry is the wallet's, 0 before it exists, and taking effect raises it by one. */
  lemma NonceStep(env: Env, before: Option<SmartWallet>, tx: Tx)
    requires Permitted(env, before, tx)
    ensures !tx.call.ConfirmRotation? ==> tx.call.auth.nonce == NonceOf(before)
    ensures var after := NextWallet(env, before, tx);
            && (tx.call.CloseWallet? <==> after.None?)
            && NonceOf(after) == if tx.call.CloseWallet? then 0
                                 else if tx.call.ConfirmRotation? then NonceOf(before) else NonceOf(before) + 1
  {
    hide Position, Signer, Preimages.Means, SlotsOf;
  }

  /** The stored nonce counts the messages that took effect in this lifetime: it neither skips nor wraps. */
  lemma {:induction false} NonceCountsActions(env: Env, r: Run, id: Bytes32, n: nat)
    requires IsRun(env, r) && n <= |r.steps|
    ensures NonceOf(Wallet(r, n, id)) == ActionCount(env, r, id, n)
    ensures Wallet(r, n, id).None? ==> ActionCount(env, r, id, n) == 0
    ensures ActionCount(env, r, id, n) <= U64_MAX
  {
    hide IsRun, Permitted, NextWallet, Succeeds, Execute, Leaves;
    if n == 0 {
      NothingAtStart(env, r, id);
    } else {
      NonceCountsActions(env, r, id, n - 1);
      StepOf(env, r, n - 1, id);
      if Did(env, r, n - 1, id) {
        NonceStep(env, Wallet(r, n - 1, id), r.steps[n - 1].tx);
      }
    }
  }

  /** Between two points of one lifetime the nonce never falls. */
  lemma {:induction false} NonceNeverFalls(env: Env, r: Run, id: Bytes32, i: nat, j: nat)
    requires IsRun(env, r) && i <= j <= |r.steps|
    requires forall k | i <= k < j && Did(env, r, k, id) :: !r.steps[k].tx.call.CloseWallet?
    ensures NonceOf(Wallet(r, i, id)) <= NonceOf(Wallet(r, j, id))
  {
    hide IsRun, Permitted, NextWallet, Succeeds, Execute, Leaves;
    if i < j {
      NonceNeverFalls(env, r, id, i, j - 1);
      StepOf(env, r, j - 1, id);
      if Did(env, r, j - 1, id) {
        NonceStep(env, Wallet(r, j - 1, id), r.steps[j - 1].tx);
      }
    }
  }

  /** No message takes effect twice in a lifetime, nor for two wallets. */
  lemma NoReplay(env: Env, r: Run, i: nat, j: nat)
    requires IsRun(env, r) && i < j < |r.steps| && r.steps[i].Submit? && r.steps[j].Submit?
    requires var id := r.steps[i].tx.call.Wallet();
             && Acted(env, r, i, id)
             && Acted(env, r, j, r.steps[j].tx.call.Wallet())
             && (r.steps[j].tx.call.Wallet() == id ==>
                   forall k | i <= k < j && Did(env, r, k, id) :: !r.steps[k].tx.call.CloseWallet?)
    ensures Message(r.steps[i].tx) != Message(r.steps[j].tx)
  {
    hide IsRun, Execute, Leaves, NextWallet, Affordable, Preimages.Means, Signer, Position, LoadPayload;
    var id := r.steps[i].tx.call.Wallet();
    var p := r.steps[i].tx.call.SignedPreimage();
    var q := r.steps[j].tx.call.SignedPreimage();
    StepOf(env, r, i, id);
    StepOf(env, r, j, r.steps[j].tx.call.Wallet());
    assert Preimages.Means(Message(r.steps[i].tx), p);
    assert Preimages.Means(Message(r.steps[j].tx), q);
    if Message(r.steps[i].tx) == Message(r.steps[j].tx) {
      Preimages.MeaningIsUnique(Message(r.steps[i].tx), p, q);
    }
    if p.walletId == q.walletId {
      NonceStep(env, Wallet(r, i, id), r.steps[i].tx);
      NonceStep(env, Wallet(r, j, id), r.steps[j].tx);
      NonceNeverFalls(env, r, id, i + 1, j);
    }
  }

  /** An absent wallet accepts a live nonce-0 founding by the key it is named after, and nothing else. */
  lemma AbsentOnlyFounds(env: Env, tx: Tx)
    ensures Permitted(env, None, tx) <==>
            && (tx.call.TransferSol? || tx.call.SetGuardians? || tx.call.SweepVault?)
            && (tx.call.SetGuardians? ==> forall g | g in tx.call.guardians :: !g.WebAuthn?)
            && LoadPayload(tx.sysvar).Ok?
            && Preimages.Means(Message(tx), tx.call.SignedPreimage())
            && tx.call.auth.nonce == 0 && tx.now < tx.call.auth.expiresAt
            && env.sha256(Signer(tx)) == tx.call.Wallet()
    ensures Permitted(env, None, tx) ==>
            NextWallet(env, None, tx).Some? && NextWallet(env, None, tx).value.activeKey == Signer(tx)
  {
    hide Preimages.Means, LoadPayload, Position, SlotsOf;
  }

  // ----- Where active keys come from -----

  /** Step `i` moved the wallet to `key`, in the words of the active key of that moment. */
  ghost predicate OwnerNamed(env: Env, r: Run, i: nat, id: Bytes32, key: Key)
    requires i < |r.steps|
  {
    && Acted(env, r, i, id)
    && var tx := r.steps[i].tx;
       && Wallet(r, i, id).Some?
       && Signer(tx) == Wallet(r, i, id).value.activeKey
       && Signed(env, Signer(tx), Message(tx))
       && Preimages.Means(Message(tx), tx.call.SignedPreimage())
       && tx.call.SignedAction() == Action.ProposeRotation(key)
  }

  /** Step `i` made `gs` the guardian list, in the words of the active key of that moment. */
  ghost predicate OwnerListed(env: Env, r: Run, i: nat, id: Bytes32, gs: GuardianList)
    requires i < |r.steps|
  {
    && Acted(env, r, i, id)
    && var tx := r.steps[i].tx;
       && Wallet(r, i + 1, id).Some?
       && Signer(tx) == Wallet(r, i + 1, id).value.activeKey
       && Signed(env, Signer(tx), Message(tx))
       && Preimages.Means(Message(tx), tx.call.SignedPreimage())
       && tx.call.SignedAction() == Action.SetGuardians(gs)
  }

  /** Nothing since step `q` replaced the guardian list or closed the wallet. */
  ghost predicate InForce(env: Env, r: Run, id: Bytes32, q: nat, n: nat)
    requires n <= |r.steps|
  {
    forall j | q < j < n && Did(env, r, j, id) ::
      !r.steps[j].tx.call.SetGuardians? && !r.steps[j].tx.call.CloseWallet?
  }

  /** Step `i` proposed `key`, in the words of a guardian on the list in force at that moment. */
  ghost predicate GuardianNamed(env: Env, r: Run, i: nat, id: Bytes32, key: Key)
    requires i < |r.steps|
  {
    && Acted(env, r, i, id)
    && var tx := r.steps[i].tx;
       && Signed(env, Signer(tx), Message(tx))
       && Preimages.Means(Message(tx), tx.call.SignedPreimage())
       && tx.call.SignedAction() == Action.ProposeRotation(key)
       && exists q, gs ::
            0 <= q < i && OwnerListed(env, r, q, id, gs) && InForce(env, r, id, q, i) && P256(Signer(tx)) in gs
  }

  /** The proposal that stands at `n` named `key`, in the words of a guardian listed when it spoke. */
  ghost predicate StandsNamed(env: Env, r: Run, id: Bytes32, n: nat, key: Key)
    requires n <= |r.steps|
  {
    exists p :: 0 <= p < n && Stands(env, r, id, p, n) && GuardianNamed(env, r, p, id, key)
  }

  /** Step `i` created the wallet, by a key whose hash is its id. */
  ghost predicate Founded(env: Env, r: Run, i: nat, id: Bytes32, key: Key)
    requires i < |r.steps|
  {
    && Acted(env, r, i, id)
    && Wallet(r, i, id).None?
    && Signer(r.steps[i].tx) == key
    && Signed(env, key, Message(r.steps[i].tx))
    && env.sha256(key) == id
  }

  /** The active key at `n` descends from the founding key through owners and the guardians they listed. */
  ghost predicate Legitimate(env: Env, r: Run, id: Bytes32, n: nat)
    requires n <= |r.steps|
    decreases n
  {
    Wallet(r, n, id).Some? ==>
      && n > 0
      && var key := Wallet(r, n, id).value.activeKey;
         || Founded(env, r, n - 1, id, key)
         || (&& Legitimate(env, r, id, n - 1)
             && Wallet(r, n - 1, id).Some?
             && (|| Wallet(r, n - 1, id).value.activeKey == key
                 || OwnerNamed(env, r, n - 1, id, key)
                 || (&& Did(env, r, n - 1, id)
                     && r.steps[n - 1].tx.call.ConfirmRotation?
                     && StandsNamed(env, r, id, n - 1, key))))
  }

  /** Step `q` left the wallet with this list: its owner signed it, or the wallet was made without one. */
  ghost predicate Lists(env: Env, r: Run, q: nat, id: Bytes32, slots: Slots)
    requires q < |r.steps|
  {
    || (exists gs :: OwnerListed(env, r, q, id, gs) && slots == SlotsOf(gs))
    || (&& Acted(env, r, q, id) && Wallet(r, q, id).None? && !r.steps[q].tx.call.SetGuardians?
        && slots == EMPTY_SLOTS)
  }

  /** The list comes from one step of this lifetime, and nothing replaced it since. */
  ghost predicate ListedBy(env: Env, r: Run, id: Bytes32, n: nat, slots: Slots)
    requires n <= |r.steps|
  {
    exists q :: 0 <= q < n && Lists(env, r, q, id, slots) && InForce(env, r, id, q, n)
  }

  lemma ActedIsSigned(env: Env, r: Run, i: nat, id: Bytes32)
    requires IsRun(env, r) && i < |r.steps| && Acted(env, r, i, id)
    ensures var tx := r.steps[i].tx;
            && Signed(env, Signer(tx), Message(tx))
            && Preimages.Means(Message(tx), tx.call.SignedPreimage())
  {
    hide RuntimeChecked, LoadPayload, Preimages.Means, Apply, Affordable, Signed, NextWallet;
    PayloadIsSigned(env, r.steps[i].tx.sysvar);
  }

  /** The guardian list changes only by a list the active key signs, or by founding the wallet anew. */
  lemma GuardiansStep(env: Env, before: Option<SmartWallet>, tx: Tx)
    requires Permitted(env, before, tx) && NextWallet(env, before, tx).Some?
    ensures var after := NextWallet(env, before, tx).value;
            if tx.call.SetGuardians? then after.guardians == SlotsOf(tx.call.guardians) && Signer(tx) == after.activeKey
            else after.guardians == if before.Some? then before.value.guardians else EMPTY_SLOTS
  {
    hide Position, Preimages.Means, SlotsOf, LoadPayload;
  }

  lemma {:induction false} GuardiansAreListed(env: Env, r: Run, id: Bytes32, n: nat)
    requires IsRun(env, r) && n <= |r.steps| && Wallet(r, n, id).Some?
    ensures ListedBy(env, r, id, n, Wallet(r, n, id).value.guardians)
  {
    hide IsRun, Permitted, NextWallet, Succeeds, Execute, Leaves, Signer, Message, Preimages.Means, SlotsOf;
    if n == 0 {
      NothingAtStart(env, r, id);
    } else {
      StepOf(env, r, n - 1, id);
      var slots := Wallet(r, n, id).value.guardians;
      if Did(env, r, n - 1, id) {
        GuardiansStep(env, Wallet(r, n - 1, id), r.steps[n - 1].tx);
        NonceStep(env, Wallet(r, n - 1, id), r.steps[n - 1].tx);
      }
      if Did(env, r, n - 1, id) && r.steps[n - 1].tx.call.SetGuardians? {
        ActedIsSigned(env, r, n - 1, id);
        assert OwnerListed(env, r, n - 1, id, r.steps[n - 1].tx.call.guardians);
        assert Lists(env, r, n - 1, id, slots);
      } else if Wallet(r, n - 1, id).Some? {
        GuardiansAreListed(env, r, id, n - 1);
        var q :| 0 <= q < n - 1 && Lists(env, r, q, id, slots) && InForce(env, r, id, q, n - 1);
        assert InForce(env, r, id, q, n);
      } else {
        AbsentOnlyFounds(env, r.steps[n - 1].tx);
        assert Lists(env, r, n - 1, id, slots);
      }
    }
  }

  lemma KeyStep(env: Env, before: Option<SmartWallet>, tx: Tx)
    requires Permitted(env, before, tx) && NextWallet(env, before, tx).Some?
    ensures var key := NextWallet(env, before, tx).value.activeKey;
            if before.None? then key == Signer(tx) && env.sha256(key) == tx.call.Wallet()
            else
              || key == before.value.activeKey
              || (tx.call.ConfirmRotation? && before.value.rotation.pending)
              || (&& tx.call.ProposeRotation? && Signer(tx) == before.value.activeKey && key == tx.call.newKey)
  {
    hide Position, Preimages.Means, SlotsOf, LoadPayload;
  }

  lemma HolderIsInList(gs: GuardianList, i: nat, key: Key)
    requires i < MAX_GUARDIANS && Holds(SlotsOf(gs)[i], key)
    ensures P256(key) in gs
  {
    assert SlotsOf(gs)[i] == SlotOf(gs[i]);
    assert gs[i] == P256(key);
  }

  /** A proposal that stands was made by a guardian on the list in force when it was made. */
  lemma StandingIsListed(env: Env, r: Run, id: Bytes32, p: nat, n: nat)
    requires IsRun(env, r) && p < n <= |r.steps| && Stands(env, r, id, p, n)
    ensures GuardianNamed(env, r, p, id, r.steps[p].tx.call.newKey)
  {
    hide IsRun, Succeeds, Authentic, Signer, Message, Preimages.Means, Position, SlotsOf, Undisturbed, OwnerListed;
    Proposes(env, r, id, p, n);
    StandingIsVouched(env, r, id, p, n);
    GuardiansAreListed(env, r, id, p);
    var slot := Wallet(r, n, id).value.rotation.proposal.proposedBy;
    var g := Signer(r.steps[p].tx);
    assert Holds(Wallet(r, p, id).value.guardians[slot], g);
    var q :| 0 <= q < p && Lists(env, r, q, id, Wallet(r, p, id).value.guardians) && InForce(env, r, id, q, p);
    var gs :| OwnerListed(env, r, q, id, gs) && Wallet(r, p, id).value.guardians == SlotsOf(gs);
    HolderIsInList(gs, slot, g);
  }

  lemma Proposes(env: Env, r: Run, id: Bytes32, p: nat, n: nat)
    requires IsRun(env, r) && p < n <= |r.steps| && Stands(env, r, id, p, n)
    ensures Acted(env, r, p, id) && r.steps[p].tx.call.ProposeRotation? && Wallet(r, p, id).Some?
  {
    hide IsRun, Signer, Message, Preimages.Means, Position, SlotsOf;
  }

  /** Every active key of every run is legitimate. */
  lemma {:induction false} ActiveKeyIsLegitimate(env: Env, r: Run, id: Bytes32, n: nat)
    requires IsRun(env, r) && n <= |r.steps|
    ensures Legitimate(env, r, id, n)
  {
    hide IsRun, Permitted, NextWallet, Succeeds, Execute, Leaves, Signer, Message, Preimages.Means, SlotsOf, Vouched,
      Undisturbed, GuardianNamed;
    if n == 0 {
      NothingAtStart(env, r, id);
    } else if Wallet(r, n, id).Some? {
      StepOf(env, r, n - 1, id);
      ActiveKeyIsLegitimate(env, r, id, n - 1);
      if Did(env, r, n - 1, id) {
        KeyStep(env, Wallet(r, n - 1, id), r.steps[n - 1].tx);
        if r.steps[n - 1].tx.call.ConfirmRotation? {
          ConfirmInstallsNamed(env, r, id, n - 1);
        } else {
          ActedIsSigned(env, r, n - 1, id);
        }
      }
    }
  }

  lemma ConfirmInstallsNamed(env: Env, r: Run, id: Bytes32, k: nat)
    requires IsRun(env, r) && k < |r.steps| && Did(env, r, k, id) && r.steps[k].tx.call.ConfirmRotation?
    ensures Wallet(r, k, id).Some? && Wallet(r, k + 1, id).Some?
    ensures StandsNamed(env, r, id, k, Wallet(r, k + 1, id).value.activeKey)
  {
    hide IsRun, Authentic, Execute, Leaves, Signer, Preimages.Means, Vouched, Undisturbed, GuardianNamed;
    StepOf(env, r, k, id);
    ConfirmIsTimelocked(env, r, id, k);
    var p :| 0 <= p < k && Stands(env, r, id, p, k);
    StandingIsListed(env, r, id, p, k);
  }
}
