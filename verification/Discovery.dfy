/** A device finds its wallets on-chain: filters over stored bytes agree with the wallets of any run. */
module Discovery {
  import opened Prelude
  import opened WalletState
  import opened Instructions
  import opened Rules
  import opened Runs
  import opened Timelock
  import opened Layout

  /** Removed and cancelled keys leave zeros, so the bare key offsets already match only live entries. */
  lemma BareKeysAreLive(env: Env, id: Bytes32, disc: Discriminator, w: SmartWallet, key: Key, i: nat)
    requires WalletOk(env, id, w) && key != ZERO_KEY && i < MAX_GUARDIANS
    ensures Memcmp(Serialize(disc, w), GuardianKindOffset(i) + 1, key) <==> Holds(w.guardians[i], key)
    ensures Memcmp(Serialize(disc, w), ROTATION_NEW_KEY_OFFSET, key)
            <==> w.rotation.pending && w.rotation.proposal.newKey == key
  {
    RotationIndexAgrees(disc, w, key);
    GuardianKeyAt(disc, w, i, key);
    hide Serialize, Memcmp;
    assert SlotOk(w.guardians[i]);
  }

  /**
   * Whatever a run did, the published filters over a stored wallet's bytes select it for the keys that
   * sign for it, guard it, or are proposed for it, and for no other key.
   */
  lemma FiltersFindWallets(env: Env, r: Run, id: Bytes32, n: nat, disc: Discriminator, key: Key)
    requires IsRun(env, r) && n <= |r.steps| && Wallet(r, n, id).Some? && key != ZERO_KEY
    ensures var w := Wallet(r, n, id).value;
            var data := Serialize(disc, w);
            && Deserialize(disc, data) == Some(w)
            && (Memcmp(data, ACTIVE_KEY_OFFSET, key) <==> w.activeKey == key)
            && (AnyGuardianFilter(data, key) <==> w.P256Guardian(key).Some?)
            && (Memcmp(data, ROTATION_OFFSET, [1] + key) <==> IsPending(r, n, id) && w.rotation.proposal.newKey == key)
            && (Memcmp(data, ROTATION_NEW_KEY_OFFSET, key) <==> Memcmp(data, ROTATION_OFFSET, [1] + key))
  {
    hide IsRun, Serialize, Deserialize, Memcmp, AnyGuardianFilter, Position, WalletOk;
    var w := Wallet(r, n, id).value;
    WalletIsOk(env, r, n, id);
    DeserializeOfSerialize(disc, w);
    GuardianIndexAgrees(disc, w, key);
    RotationIndexAgrees(disc, w, key);
    BareKeysAreLive(env, id, disc, w, key, 0);
  }
}
