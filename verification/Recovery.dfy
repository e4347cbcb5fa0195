/** What signers can always achieve: found a wallet, recover it as a guardian, stop a recovery as its owner. */
module Recovery {
  import opened Prelude
  import opened Errors
  import opened Actions
  import Preimages
  import opened Precompile
  import opened WalletState
  import opened Ledger
  import opened Instructions
  import opened Rules
  import opened Runs

  // ----- Building transactions -----

  /** The holder of `key` can make the runtime accept any message. */
  ghost predicate CanSign(env: Env, key: Key) {
    && (key[0] == 2 || key[0] == 3)
    && forall message: Bytes :: SignsWith(env, key, message)
  }

  ghost predicate SignsWith(env: Env, key: Key, message: Bytes) {
    exists signature: Bytes :: |signature| == P256_SIGNATURE_LEN && env.verifies(key, signature, message)
  }

  /** A transaction as an SDK builds it: the precompile instruction, then the program's. */
  function SignedSysvar(key: Key, signature: Bytes, message: Bytes): Sysvar
    requires |signature| == P256_SIGNATURE_LEN && |message| <= U16_MAX
  {
    Sysvar([Instruction(SECP256R1_PROGRAM_ID, [], BuildData(0, key, signature, message)),
            Instruction(PROGRAM_ID, [], [])], 1)
  }

  lemma SignatureInBuilt(padding: byte, key: Key, signature: Bytes, message: Bytes)
    requires |signature| == P256_SIGNATURE_LEN && |message| <= U16_MAX
    ensures var b := BuildData(padding, key, signature, message);
            |b| >= SECP256R1_MESSAGE_OFFSET && b[SECP256R1_SIGNATURE_OFFSET..SECP256R1_MESSAGE_OFFSET] == signature
  {
    hide OffsetsBytes;
  }

  /** It passes the runtime when the signature verifies, and hands key and message to the program. */
  lemma SignedSysvarLoads(env: Env, key: Key, signature: Bytes, message: Bytes)
    requires |signature| == P256_SIGNATURE_LEN && |message| <= U16_MAX
    requires env.verifies(key, signature, message) && Sec1Compressed(key)
    ensures var s := SignedSysvar(key, signature, message);
            RuntimeChecked(env, s) && LoadPayload(s) == Ok(SignedPayload(key, message))
  {
    hide RuntimeRead, CheckData, Datas;
    var s := SignedSysvar(key, signature, message);
    BuiltDataIsAccepted(0, key, signature, message);
    ProgramReadsWhatRuntimeVerified(Datas(s.instructions), s.instructions[0].data);
    SignatureInBuilt(0, key, signature, message);
    assert CheckedBy(env, [Checked(key, signature, message)]);
    assert Verified(env, s.instructions, 0);
    assert PROGRAM_ID[0] != SECP256R1_PROGRAM_ID[0];
    assert Verified(env, s.instructions, 1);
  }

  /** `tx` carries `call`, signed by `key` and checked by the runtime. */
  ghost predicate Submits(env: Env, tx: Tx, key: Key, call: Call, relayer: Address, now: i64) {
    && !call.ConfirmRotation?
    && tx.call == call && tx.relayer == relayer && tx.now == now
    && RuntimeChecked(env, tx.sysvar)
    && LoadPayload(tx.sysvar).Ok?
    && Signer(tx) == key
    && Preimages.Means(Message(tx), call.SignedPreimage())
  }

  /** Whoever can sign can submit any call: its message always fits the precompile. */
  lemma SignerCanSubmit(env: Env, key: Key, call: Call, relayer: Address, now: i64)
    requires CanSign(env, key) && !call.ConfirmRotation?
    ensures exists tx :: Submits(env, tx, key, call, relayer, now)
  {
    hide RuntimeChecked, LoadPayload, Preimages.Means, Preimages.Encode;
    var message := Preimages.Encode(call.SignedPreimage());
    Preimages.EncodedSize(call.SignedPreimage());
    Preimages.MeansIffEncodes(message, call.SignedPreimage());
    assert SignsWith(env, key, message);
    var signature: Bytes :| |signature| == P256_SIGNATURE_LEN && env.verifies(key, signature, message);
    SignedSysvarLoads(env, key, signature, message);
    assert Submits(env, Tx(SignedSysvar(key, signature, message), call, relayer, now), key, call, relayer, now);
  }

  ghost predicate CostsNothing(before: Chain, after: Chain) {
    forall a :: Balance(after.balances, a) == Balance(before.balances, a)
  }

  // ----- Recovery -----

  /** When a guardian can next propose: now, unless another guardian's proposal must run out first. */
  function ProposableAt(w: SmartWallet, slot: nat, now: i64): int {
    if SlotFree(w, slot, now) then now else w.rotation.proposal.ClosesAt() + 1
  }

  /** Another guardian's proposal is pending and its window has not run out. */
  predicate HeldByRival(w: SmartWallet, slot: nat, now: i64) {
    w.rotation.pending && w.rotation.proposal.proposedBy != slot && now <= w.rotation.proposal.ClosesAt()
  }

  lemma ProposableIsFree(w: SmartWallet, slot: nat, now: i64)
    ensures var t := ProposableAt(w, slot, now);
            t >= now && (t <= I64_MAX ==> !HeldByRival(w, slot, t))
  {
  }

  /** The guardian's call: nothing for the relayer, valid for a second. */
  function RecoveryCall(id: Bytes32, w: SmartWallet, at: i64, newKey: Key): Call
    requires at < I64_MAX
  {
    Call.ProposeRotation(Authorization(id, w.nonce, at + 1, 0), newKey, 0)
  }

  /** A listed guardian's message gets through exactly when no other guardian's live proposal is pending. */
  lemma RecoveryProposes(env: Env, c: Chain, id: Bytes32, g: Key, newKey: Key, at: i64, relayer: Address, tx: Tx)
    requires ChainOk(env, c) && id in c.wallets && newKey != ZERO_KEY && at < I64_MAX
    requires var w := c.wallets[id];
             && w.nonce < U64_MAX && g != w.activeKey && w.P256Guardian(g).Some?
             && Submits(env, tx, g, RecoveryCall(id, w, at, newKey), relayer, at)
    ensures var w := c.wallets[id];
            Execute(env, c, tx).Ok? <==> !HeldByRival(w, w.P256Guardian(g).value, at)
    ensures var w := c.wallets[id];
            Execute(env, c, tx).Ok? ==>
            && Stored(Commit(env, c, tx), id)
               == Some(w.(nonce := w.nonce + 1,
                          rotation := RotationSlot(true, PendingRotation(newKey, at, w.P256Guardian(g).value))))
            && CostsNothing(c, Commit(env, c, tx))
  {
    hide Execute, Announced, WalletOk, Total, RuntimeChecked, Preimages.Means, LoadPayload, Position;
    ExecuteExactly(env, c, tx);
  }

  /** A guardian that proposes again holds the slot for ten more days, until its owner or a confirmation ends it. */
  lemma RivalCanKeepSlot(env: Env, c: Chain, id: Bytes32, rival: Key, newKey: Key, now: i64, relayer: Address)
    requires ChainOk(env, c) && id in c.wallets && newKey != ZERO_KEY && now < I64_MAX && CanSign(env, rival)
    requires var w := c.wallets[id];
             && w.nonce < U64_MAX && rival != w.activeKey && w.P256Guardian(rival).Some?
             && !HeldByRival(w, w.P256Guardian(rival).value, now)
    ensures exists tx :: KeepsSlot(env, c, id, rival, newKey, now, tx)
  {
    hide Execute, Commit, ChainOk, CanSign, Signer, Message, Preimages.Means, LoadPayload, Position, RuntimeChecked;
    var call := RecoveryCall(id, c.wallets[id], now, newKey);
    SignerCanSubmit(env, rival, call, relayer, now);
    var tx :| Submits(env, tx, rival, call, relayer, now);
    RecoveryProposes(env, c, id, rival, newKey, now, relayer, tx);
    assert KeepsSlot(env, c, id, rival, newKey, now, tx);
  }

  ghost predicate KeepsSlot(env: Env, c: Chain, id: Bytes32, rival: Key, newKey: Key, now: i64, tx: Tx)
    requires id in c.wallets && c.wallets[id].P256Guardian(rival).Some?
  {
    var after := Stored(Commit(env, c, tx), id);
    && tx.now == now && RuntimeChecked(env, tx.sysvar) && Signer(tx) == rival && Execute(env, c, tx).Ok?
    && after.Some?
    && CostsNothing(c, Commit(env, c, tx))
    && forall slot: nat, t: i64 | slot != c.wallets[id].P256Guardian(rival).value
          && t <= SaturatingAdd(SaturatingAdd(now, ROTATION_DELAY), ROTATION_WINDOW) ::
         HeldByRival(after.value, slot, t)
  }

  lemma RecoveryConfirms(env: Env, c: Chain, id: Bytes32, tx: Tx)
    requires ChainOk(env, c) && id in c.wallets && c.wallets[id].rotation.pending
    requires tx.call == Call.ConfirmRotation(id)
    requires tx.now == c.wallets[id].rotation.proposal.OpensAt()
    ensures Execute(env, c, tx).Ok?
    ensures var w := c.wallets[id];
            Stored(Commit(env, c, tx), id)
            == Some(w.(activeKey := w.rotation.proposal.newKey, attested := false, rotation := EMPTY_ROTATION))
    ensures CostsNothing(c, Commit(env, c, tx))
  {
    hide Execute, Announced, WalletOk, Total, VaultHeld;
    ExecuteExactly(env, c, tx);
  }

  /** Two transactions, the first signed by the guardian, the second by nobody, install `newKey` for free. */
  ghost predicate Recovers(env: Env, c: Chain, id: Bytes32, g: Key, newKey: Key, now: i64, tx1: Tx, tx2: Tx)
    requires id in c.wallets && c.wallets[id].P256Guardian(g).Some?
  {
    var c1 := Commit(env, c, tx1);
    var c2 := Commit(env, c1, tx2);
    && tx1.now == ProposableAt(c.wallets[id], c.wallets[id].P256Guardian(g).value, now) >= now
    && tx2.now == SaturatingAdd(tx1.now, ROTATION_DELAY)
    && RuntimeChecked(env, tx1.sysvar) && RuntimeChecked(env, tx2.sysvar)
    && Signer(tx1) == g && tx2.call == Call.ConfirmRotation(id)
    && Execute(env, c, tx1).Ok? && Execute(env, c1, tx2).Ok?
    && Stored(c2, id).Some? && Stored(c2, id).value.activeKey == newKey
    && CostsNothing(c, c2)
  }

  /**
   * From every reachable chain, a listed guardian that can sign installs any key it likes without the
   * owner and without paying: it waits out a rival's window, proposes, waits the delay, and anyone confirms.
   * The one second at which nothing works is the last, when no message is unexpired.
   */
  lemma RecoveryIsNeverLockedOut(env: Env, c: Chain, id: Bytes32, g: Key, newKey: Key, now: i64, relayer: Address)
    requires ChainOk(env, c) && id in c.wallets && newKey != ZERO_KEY && CanSign(env, g)
    requires var w := c.wallets[id];
             && w.nonce < U64_MAX && g != w.activeKey && w.P256Guardian(g).Some?
             && ProposableAt(w, w.P256Guardian(g).value, now) < I64_MAX
    ensures exists tx1, tx2 :: Recovers(env, c, id, g, newKey, now, tx1, tx2)
  {
    hide Execute, Commit, ChainOk, CanSign, Signer, Message, Preimages.Means, LoadPayload, Position,
      RuntimeChecked, SlotFree;
    var w := c.wallets[id];
    ProposableIsFree(w, w.P256Guardian(g).value, now);
    var t: i64 := ProposableAt(w, w.P256Guardian(g).value, now);
    var call := RecoveryCall(id, w, t, newKey);
    SignerCanSubmit(env, g, call, relayer, t);
    var tx1 :| Submits(env, tx1, g, call, relayer, t);
    var tx2 := Tx(tx1.sysvar, Call.ConfirmRotation(id), relayer, SaturatingAdd(t, ROTATION_DELAY));
    RecoveryProposes(env, c, id, g, newKey, t, relayer, tx1);
    CommitOk(env, c, tx1);
    RecoveryConfirms(env, Commit(env, c, tx1), id, tx2);
    assert Recovers(env, c, id, g, newKey, now, tx1, tx2);
  }

  /** The two transactions carry the run on, to one that ends with the new key active. */
  ghost predicate RunRecovers(env: Env, r: Run, id: Bytes32, g: Key, newKey: Key, now: i64, tx1: Tx, tx2: Tx)
    requires id in Last(r).wallets && Last(r).wallets[id].P256Guardian(g).Some?
  {
    var longer := Extend(env, Extend(env, r, tx1), tx2);
    && IsRun(env, longer)
    && Recovers(env, Last(r), id, g, newKey, now, tx1, tx2)
    && Stored(Last(longer), id).Some? && Stored(Last(longer), id).value.activeKey == newKey
  }

  /** Every run, seen no later than `now`, goes on to a recovery by any of its listed guardians. */
  lemma EveryRunCanRecover(env: Env, r: Run, id: Bytes32, g: Key, newKey: Key, now: i64, relayer: Address)
    requires IsRun(env, r) && NotBefore(r, now)
    requires id in Last(r).wallets && newKey != ZERO_KEY && CanSign(env, g)
    requires var w := Last(r).wallets[id];
             && w.nonce < U64_MAX && g != w.activeKey && w.P256Guardian(g).Some?
             && ProposableAt(w, w.P256Guardian(g).value, now) < I64_MAX
    ensures exists tx1, tx2 :: RunRecovers(env, r, id, g, newKey, now, tx1, tx2)
  {
    hide IsRun, Execute, Commit, ChainOk, CanSign, Signer, Position, RuntimeChecked, SlotFree, ProposableAt;
    ReachableOk(env, r, |r.steps|);
    RecoveryIsNeverLockedOut(env, Last(r), id, g, newKey, now, relayer);
    var tx1, tx2 :| Recovers(env, Last(r), id, g, newKey, now, tx1, tx2);
    ExtendIsRun(env, r, tx1);
    ExtendIsRun(env, Extend(env, r, tx1), tx2);
    assert RunRecovers(env, r, id, g, newKey, now, tx1, tx2);
  }

  // ----- Veto -----

  /**
   * As long as a proposal is pending, its window open or not, the owner can drop it for nothing, and
   * the wallet is then as it was but for the nonce.
   */
  lemma OwnerCanAlwaysVeto(env: Env, c: Chain, id: Bytes32, now: i64, relayer: Address)
    requires ChainOk(env, c) && id in c.wallets && now < I64_MAX
    requires var w := c.wallets[id];
             w.rotation.pending && w.nonce < U64_MAX && CanSign(env, w.activeKey)
    ensures exists tx :: Vetoes(env, c, id, now, tx)
  {
    hide Execute, Commit, CanSign, RuntimeChecked, Preimages.Means, LoadPayload, Signer, Message, WalletOk,
      Total, Announced;
    var w := c.wallets[id];
    var call := Call.CancelRotation(Authorization(id, w.nonce, now + 1, 0), 0);
    SignerCanSubmit(env, w.activeKey, call, relayer, now);
    var tx :| Submits(env, tx, w.activeKey, call, relayer, now);
    CancelWorks(env, c, id, tx);
    assert Vetoes(env, c, id, now, tx);
  }

  ghost predicate Vetoes(env: Env, c: Chain, id: Bytes32, now: i64, tx: Tx)
    requires id in c.wallets
  {
    var w := c.wallets[id];
    && tx.now == now && RuntimeChecked(env, tx.sysvar) && Signer(tx) == w.activeKey
    && Execute(env, c, tx).Ok?
    && w.nonce < U64_MAX
    && Stored(Commit(env, c, tx), id) == Some(w.(nonce := w.nonce + 1, rotation := EMPTY_ROTATION))
    && CostsNothing(c, Commit(env, c, tx))
  }

  lemma CancelWorks(env: Env, c: Chain, id: Bytes32, tx: Tx)
    requires ChainOk(env, c) && id in c.wallets && tx.now < I64_MAX
    requires var w := c.wallets[id];
             && w.rotation.pending && w.nonce < U64_MAX
             && Submits(env, tx, w.activeKey,
                        Call.CancelRotation(Authorization(id, w.nonce, tx.now + 1, 0), 0), tx.relayer, tx.now)
    ensures Vetoes(env, c, id, tx.now, tx)
  {
    hide Execute, RuntimeChecked, Preimages.Means, LoadPayload, WalletOk, Total, Announced;
    ExecuteExactly(env, c, tx);
  }

  // ----- Founding, then losing the phone -----

  /** The first action of a wallet, naming one guardian, signed to last until `last`. */
  function FoundingCall(id: Bytes32, g: Key, last: i64): Call
    requires last < I64_MAX
  {
    Call.SetGuardians(Authorization(id, 0, last + 1, 0), [P256(g), NoGuardian, NoGuardian], 0)
  }

  /** A wallet just made by `owner`, with one guardian. */
  function FoundedWith(env: Env, id: Bytes32, owner: Key, g: Key): SmartWallet {
    FreshWallet(env, id, owner).(nonce := 1, guardians := SlotsOf([P256(g), NoGuardian, NoGuardian]))
  }

  lemma FoundingWorks(env: Env, c: Chain, id: Bytes32, owner: Key, g: Key, relayer: Address, last: i64, tx: Tx)
    requires ChainOk(env, c) && id !in c.wallets && env.sha256(owner) == id && tx.now <= last < I64_MAX
    requires RentDue(env, c.balances, id) <= Balance(c.balances, relayer)
    requires Submits(env, tx, owner, FoundingCall(id, g, last), relayer, tx.now)
    ensures Execute(env, c, tx).Ok?
    ensures Stored(Commit(env, c, tx), id) == Some(FoundedWith(env, id, owner, g))
    ensures FoundedWith(env, id, owner, g).P256Guardian(g) == Some(0)
  {
    hide Execute, RuntimeChecked, Preimages.Means, LoadPayload, WalletOk, Total, Announced;
    ExecuteExactly(env, c, tx);
    FirstSlotIsFound(env, id, owner, g);
  }

  lemma FirstSlotIsFound(env: Env, id: Bytes32, owner: Key, g: Key)
    ensures FoundedWith(env, id, owner, g).P256Guardian(g) == Some(0)
  {
    assert Position(SlotsOf([P256(g), NoGuardian, NoGuardian]), g, 0) == Some(0);
  }

  /** Whatever else an authentic message of `key` asks of this wallet, other than a new key, is refused for its key. */
  ghost predicate IsRefused(env: Env, c: Chain, id: Bytes32, key: Key) {
    forall tx: Tx |
      && tx.call.Wallet() == id && !tx.call.ProposeRotation?
      && (tx.call.CloseWallet? ==> tx.relayer != env.stateAddress(id))
      && Authentic(env, Stored(c, id), tx) && Signer(tx) == key ::
      Execute(env, c, tx) == Err(KeyMismatch)
  }

  lemma OnlyActiveKeyActs(env: Env, c: Chain, id: Bytes32, key: Key)
    requires ChainOk(env, c) && id in c.wallets && key != c.wallets[id].activeKey
    ensures IsRefused(env, c, id, key)
  {
    hide Authentic, Authorize, Signer, SlotsOf, Move;
    forall tx: Tx |
      && tx.call.Wallet() == id && !tx.call.ProposeRotation?
      && (tx.call.CloseWallet? ==> tx.relayer != env.stateAddress(id))
      && Authentic(env, Stored(c, id), tx) && Signer(tx) == key
      ensures Execute(env, c, tx) == Err(KeyMismatch)
    {
      AuthenticIsSigned(env, Stored(c, id), tx);
      AuthorizeFollows(env, Stored(c, id), c.wallets[id], tx);
    }
  }

  lemma AuthenticIsSigned(env: Env, before: Option<SmartWallet>, tx: Tx)
    requires Authentic(env, before, tx)
    ensures !tx.call.ConfirmRotation?
  {
  }

  /** Before its opening time a proposal cannot be confirmed, by anyone. */
  ghost predicate IsTooEarly(env: Env, c: Chain, id: Bytes32, opens: int) {
    forall tx: Tx | tx.call == Call.ConfirmRotation(id) && tx.now < opens ::
      Execute(env, c, tx) == Err(RotationTooEarly)
  }

  /** A founding, and a guardian's proposal the owner cancels: the wallet is as it was made, but for the nonce. */
  ghost predicate FalseAlarm(env: Env, c: Chain, id: Bytes32, owner: Key, g: Key, now: i64,
                             tx0: Tx, tx1: Tx, tx2: Tx)
  {
    var c0 := Commit(env, c, tx0);
    var c1 := Commit(env, c0, tx1);
    var c2 := Commit(env, c1, tx2);
    var w := FoundedWith(env, id, owner, g);
    && RuntimeChecked(env, tx0.sysvar) && RuntimeChecked(env, tx1.sysvar) && RuntimeChecked(env, tx2.sysvar)
    && tx0.now == tx1.now == tx2.now == now
    && Signer(tx0) == owner && Signer(tx1) == g && Signer(tx2) == owner
    && Stored(c0, id) == Some(w)
    && Stored(c1, id).Some? && Stored(c1, id).value.rotation.pending
    && Stored(c2, id) == Some(w.(nonce := 3))
    && ChainOk(env, c2) && CostsNothing(c0, c2)
  }

  /**
   * A guardian's proposal, which can neither be confirmed early nor makes its guardian an owner, then a
   * confirmation that changes the key and nothing else, after which the old key is refused.
   */
  ghost predicate LosesPhone(env: Env, c: Chain, id: Bytes32, g: Key, newKey: Key, now: i64, tx1: Tx, tx2: Tx)
    requires id in c.wallets
  {
    var w := c.wallets[id];
    var opens := SaturatingAdd(now, ROTATION_DELAY);
    var c1 := Commit(env, c, tx1);
    var c2 := Commit(env, c1, tx2);
    && RuntimeChecked(env, tx1.sysvar) && RuntimeChecked(env, tx2.sysvar)
    && tx1.now == now && tx2.now == opens && w.nonce < U64_MAX
    && Signer(tx1) == g && tx2.call == Call.ConfirmRotation(id)
    && Stored(c1, id)
       == Some(w.(nonce := w.nonce + 1, rotation := RotationSlot(true, PendingRotation(newKey, now, 0))))
    && IsTooEarly(env, c1, id, opens) && IsRefused(env, c1, id, g)
    && Stored(c2, id) == Some(w.(nonce := w.nonce + 1, activeKey := newKey))
    && (newKey != w.activeKey ==> IsRefused(env, c2, id, w.activeKey))
    && CostsNothing(c, c2)
  }

  /** The whole story. */
  ghost predicate TakesOver(env: Env, c: Chain, id: Bytes32, owner: Key, g: Key, newKey: Key, now: i64,
                            tx0: Tx, tx1: Tx, tx2: Tx, tx3: Tx, tx4: Tx)
  {
    && FalseAlarm(env, c, id, owner, g, now, tx0, tx1, tx2)
    && LosesPhone(env, Commit(env, Commit(env, Commit(env, c, tx0), tx1), tx2), id, g, newKey, now, tx3, tx4)
  }

  /** One guardian proposal on the way: signed, checked, in order, and for free. */
  ghost predicate OpensFirst(env: Env, c: Chain, id: Bytes32, g: Key, newKey: Key, now: i64, tx: Tx)
    requires id in c.wallets
  {
    var w := c.wallets[id];
    && tx.now == now && RuntimeChecked(env, tx.sysvar) && Signer(tx) == g && w.nonce < U64_MAX
    && Stored(Commit(env, c, tx), id)
       == Some(w.(nonce := w.nonce + 1, rotation := RotationSlot(true, PendingRotation(newKey, now, 0))))
    && ChainOk(env, Commit(env, c, tx)) && CostsNothing(c, Commit(env, c, tx))
  }

  lemma FirstGuardianProposes(env: Env, c: Chain, id: Bytes32, g: Key, newKey: Key, now: i64, relayer: Address)
    requires ChainOk(env, c) && id in c.wallets && newKey != ZERO_KEY && now < I64_MAX && CanSign(env, g)
    requires var w := c.wallets[id];
             w.nonce < U64_MAX && g != w.activeKey && w.P256Guardian(g) == Some(0) && !w.rotation.pending
    ensures exists tx :: OpensFirst(env, c, id, g, newKey, now, tx)
  {
    hide Execute, Commit, ChainOk, CanSign, Signer, Message, Preimages.Means, LoadPayload, Position, RuntimeChecked;
    var call := RecoveryCall(id, c.wallets[id], now, newKey);
    SignerCanSubmit(env, g, call, relayer, now);
    var tx :| Submits(env, tx, g, call, relayer, now);
    RecoveryProposes(env, c, id, g, newKey, now, relayer, tx);
    CommitOk(env, c, tx);
    assert OpensFirst(env, c, id, g, newKey, now, tx);
  }

  lemma ConfirmWaits(env: Env, c: Chain, id: Bytes32)
    requires id in c.wallets && c.wallets[id].rotation.pending
    ensures IsTooEarly(env, c, id, c.wallets[id].rotation.proposal.OpensAt())
  {
  }

  lemma OwnerFoundsAndCancels(env: Env, c: Chain, id: Bytes32, owner: Key, g: Key, alarm: Key,
                              relayer: Address, now: i64)
    requires ChainOk(env, c) && id !in c.wallets && env.sha256(owner) == id
    requires CanSign(env, owner) && CanSign(env, g) && g != owner && alarm != ZERO_KEY
    requires RentDue(env, c.balances, id) <= Balance(c.balances, relayer) && now < I64_MAX
    ensures exists tx0, tx1, tx2 :: FalseAlarm(env, c, id, owner, g, now, tx0, tx1, tx2)
  {
    hide Execute, Commit, ChainOk, CanSign, Signer, Message, Preimages.Means, LoadPayload, Position,
      RuntimeChecked, SlotsOf;
    SignerCanSubmit(env, owner, FoundingCall(id, g, now), relayer, now);
    var tx0 :| Submits(env, tx0, owner, FoundingCall(id, g, now), relayer, now);
    FoundingWorks(env, c, id, owner, g, relayer, now, tx0);
    CommitOk(env, c, tx0);
    var c0 := Commit(env, c, tx0);
    FirstGuardianProposes(env, c0, id, g, alarm, now, relayer);
    var tx1 :| OpensFirst(env, c0, id, g, alarm, now, tx1);
    var c1 := Commit(env, c0, tx1);
    OwnerCanAlwaysVeto(env, c1, id, now, relayer);
    var tx2 :| Vetoes(env, c1, id, now, tx2);
    CommitOk(env, c1, tx2);
    assert FalseAlarm(env, c, id, owner, g, now, tx0, tx1, tx2);
  }

  lemma GuardianReplacesKey(env: Env, c: Chain, id: Bytes32, g: Key, newKey: Key, relayer: Address, now: i64)
    requires ChainOk(env, c) && id in c.wallets && newKey != ZERO_KEY && now < I64_MAX && CanSign(env, g)
    requires var w := c.wallets[id];
             && w.nonce < U64_MAX && g != w.activeKey && w.P256Guardian(g) == Some(0)
             && w.rotation == EMPTY_ROTATION && !w.attested
    ensures exists tx1, tx2 :: LosesPhone(env, c, id, g, newKey, now, tx1, tx2)
  {
    hide Execute, Commit, ChainOk, CanSign, Signer, Message, Preimages.Means, LoadPayload, Position,
      RuntimeChecked, IsTooEarly, IsRefused;
    FirstGuardianProposes(env, c, id, g, newKey, now, relayer);
    var tx1 :| OpensFirst(env, c, id, g, newKey, now, tx1);
    var c1 := Commit(env, c, tx1);
    ConfirmWaits(env, c1, id);
    OnlyActiveKeyActs(env, c1, id, g);
    var tx2 := Tx(tx1.sysvar, Call.ConfirmRotation(id), relayer, SaturatingAdd(now, ROTATION_DELAY));
    RecoveryConfirms(env, c1, id, tx2);
    CommitOk(env, c1, tx2);
    if newKey != c.wallets[id].activeKey {
      OnlyActiveKeyActs(env, Commit(env, c1, tx2), id, c.wallets[id].activeKey);
    }
    assert LosesPhone(env, c, id, g, newKey, now, tx1, tx2);
  }

  /** A wallet founded with a guardian survives the loss of its phone, false alarm included. */
  lemma GuardianTakesOverLostPhone(env: Env, c: Chain, id: Bytes32, owner: Key, g: Key, alarm: Key, newKey: Key,
                                   relayer: Address, now: i64)
    requires ChainOk(env, c) && id !in c.wallets && env.sha256(owner) == id
    requires CanSign(env, owner) && CanSign(env, g) && g != owner && alarm != ZERO_KEY && newKey != ZERO_KEY
    requires RentDue(env, c.balances, id) <= Balance(c.balances, relayer) && now < I64_MAX
    ensures exists tx0, tx1, tx2, tx3, tx4 :: TakesOver(env, c, id, owner, g, newKey, now, tx0, tx1, tx2, tx3, tx4)
  {
    hide Execute, Commit, ChainOk, CanSign, Signer, Preimages.Means, LoadPayload, Position, RuntimeChecked,
      LosesPhone, SlotsOf, CostsNothing;
    OwnerFoundsAndCancels(env, c, id, owner, g, alarm, relayer, now);
    var tx0, tx1, tx2 :| FalseAlarm(env, c, id, owner, g, now, tx0, tx1, tx2);
    var c2 := Commit(env, Commit(env, Commit(env, c, tx0), tx1), tx2);
    FirstSlotIsFound(env, id, owner, g);
    GuardianReplacesKey(env, c2, id, g, newKey, relayer, now);
    var tx3, tx4 :| LosesPhone(env, c2, id, g, newKey, now, tx3, tx4);
    assert TakesOver(env, c, id, owner, g, newKey, now, tx0, tx1, tx2, tx3, tx4);
  }
}
