/** The state account as bytes: every field at a fixed offset, so that filters can find it. */
module Layout {
  import opened Prelude
  import opened Integers
  import opened WalletState

  const DISCRIMINATOR_LEN := 8
  const WALLET_ID_OFFSET := DISCRIMINATOR_LEN
  const ACTIVE_KEY_OFFSET := WALLET_ID_OFFSET + 32
  const NONCE_OFFSET := ACTIVE_KEY_OFFSET + COMPRESSED_PUBKEY_LEN
  const ATTESTED_OFFSET := NONCE_OFFSET + 8
  const GUARDIANS_OFFSET := ATTESTED_OFFSET + 1
  const GUARDIAN_SLOT_LEN := 1 + COMPRESSED_PUBKEY_LEN + 32
  const ROTATION_OFFSET := GUARDIANS_OFFSET + MAX_GUARDIANS * GUARDIAN_SLOT_LEN
  const ROTATION_NEW_KEY_OFFSET := ROTATION_OFFSET + 1
  const ROTATION_PROPOSED_AT_OFFSET := ROTATION_NEW_KEY_OFFSET + COMPRESSED_PUBKEY_LEN
  const ROTATION_PROPOSED_BY_OFFSET := ROTATION_PROPOSED_AT_OFFSET + 8
  const STATE_BUMP_OFFSET := ROTATION_PROPOSED_BY_OFFSET + 1
  const VAULT_BUMP_OFFSET := STATE_BUMP_OFFSET + 1
  const STATE_LEN := VAULT_BUMP_OFFSET + 1

  function GuardianKindOffset(i: nat): nat {
    GUARDIANS_OFFSET + i * GUARDIAN_SLOT_LEN
  }

  type Discriminator = b: Bytes | |b| == DISCRIMINATOR_LEN witness seq(DISCRIMINATOR_LEN, _ => 0)

  function BoolByte(b: bool): byte {
    if b then 1 else 0
  }

  function KindByte(k: GuardianKind): byte {
    match k
    case KindNone => 0
    case KindP256 => 1
    case KindWebAuthn => 2
  }

  function SlotBytes(s: GuardianSlot): (b: Bytes)
    ensures |b| == GUARDIAN_SLOT_LEN
  {
    [KindByte(s.kind)] + (s.key + s.rpIdHash)
  }

  function RotationBytes(r: RotationSlot): (b: Bytes)
    ensures |b| == STATE_BUMP_OFFSET - ROTATION_OFFSET
  {
    [BoolByte(r.pending)] + (r.proposal.newKey + (I64Bytes(r.proposal.proposedAt) + [r.proposal.proposedBy]))
  }

  function SlotsBytes(s: Slots): (b: Bytes)
    ensures |b| == MAX_GUARDIANS * GUARDIAN_SLOT_LEN
  {
    SlotBytes(s[0]) + (SlotBytes(s[1]) + SlotBytes(s[2]))
  }

  /** What Anchor writes: the discriminator, then the Borsh fields in order. */
  function Serialize(disc: Discriminator, w: SmartWallet): (b: Bytes)
    ensures |b| == STATE_LEN == 325
  {
    disc + (w.walletId + (w.activeKey + (U64Bytes(w.nonce) + ([BoolByte(w.attested)]
    + (SlotsBytes(w.guardians) + (RotationBytes(w.rotation) + [w.stateBump, w.vaultBump]))))))
  }

  function ReadBool(b: byte): Option<bool> {
    if b == 0 then Some(false) else if b == 1 then Some(true) else None
  }

  function ReadKind(b: byte): Option<GuardianKind> {
    if b == 0 then Some(KindNone) else if b == 1 then Some(KindP256)
    else if b == 2 then Some(KindWebAuthn) else None
  }

  function ReadSlot(b: Bytes): Option<GuardianSlot>
    requires |b| == GUARDIAN_SLOT_LEN
  {
    var kind :- ReadKind(b[0]);
    Some(GuardianSlot(kind, b[1..34], b[34..]))
  }

  function ReadSlots(b: Bytes): Option<Slots>
    requires |b| == MAX_GUARDIANS * GUARDIAN_SLOT_LEN
  {
    var s0 :- ReadSlot(b[..66]);
    var s1 :- ReadSlot(b[66..132]);
    var s2 :- ReadSlot(b[132..]);
    Some([s0, s1, s2])
  }

  function ReadRotation(b: Bytes): Option<RotationSlot>
    requires |b| == STATE_BUMP_OFFSET - ROTATION_OFFSET
  {
    var pending :- ReadBool(b[0]);
    Some(RotationSlot(pending, PendingRotation(b[1..34], I64Of(b[34..42]), b[42])))
  }

  function Deserialize(disc: Discriminator, b: Bytes): Option<SmartWallet> {
    if |b| != STATE_LEN || b[..WALLET_ID_OFFSET] != disc then None else
    var attested :- ReadBool(b[ATTESTED_OFFSET]);
    var guardians :- ReadSlots(b[GUARDIANS_OFFSET..ROTATION_OFFSET]);
    var rotation :- ReadRotation(b[ROTATION_OFFSET..STATE_BUMP_OFFSET]);
    Some(SmartWallet(b[WALLET_ID_OFFSET..ACTIVE_KEY_OFFSET], b[ACTIVE_KEY_OFFSET..NONCE_OFFSET],
                     U64Of(b[NONCE_OFFSET..ATTESTED_OFFSET]), attested, guardians, rotation,
                     b[STATE_BUMP_OFFSET], b[VAULT_BUMP_OFFSET]))
  }

  /** Every field sits at its published offset, whatever the wallet holds. */
  lemma FieldsAtOffsets(disc: Discriminator, w: SmartWallet)
    ensures var b := Serialize(disc, w);
            && b[..WALLET_ID_OFFSET] == disc
            && b[WALLET_ID_OFFSET..ACTIVE_KEY_OFFSET] == w.walletId
            && b[ACTIVE_KEY_OFFSET..NONCE_OFFSET] == w.activeKey
            && b[NONCE_OFFSET..ATTESTED_OFFSET] == U64Bytes(w.nonce)
            && b[ATTESTED_OFFSET] == BoolByte(w.attested)
            && b[GUARDIANS_OFFSET..ROTATION_OFFSET] == SlotsBytes(w.guardians)
            && b[ROTATION_OFFSET..STATE_BUMP_OFFSET] == RotationBytes(w.rotation)
            && b[STATE_BUMP_OFFSET] == w.stateBump
            && b[VAULT_BUMP_OFFSET] == w.vaultBump
  {
    var b := Serialize(disc, w);
    var tail := [w.stateBump, w.vaultBump];
    assert b[STATE_BUMP_OFFSET..] == tail;
    assert b[STATE_BUMP_OFFSET..][0] == w.stateBump && b[STATE_BUMP_OFFSET..][1] == w.vaultBump;
  }

  lemma SlotPrefix(s: GuardianSlot)
    ensures SlotBytes(s)[0..34] == [KindByte(s.kind)] + s.key
    ensures SlotBytes(s)[1..34] == s.key
  {
  }

  lemma SlotRoundTrip(s: GuardianSlot)
    ensures ReadSlot(SlotBytes(s)) == Some(s)
  {
    assert SlotBytes(s)[1..34] == s.key;
    assert SlotBytes(s)[34..] == s.rpIdHash;
  }

  lemma SlotsAt(s: Slots)
    ensures var b := SlotsBytes(s);
            b[..66] == SlotBytes(s[0]) && b[66..132] == SlotBytes(s[1]) && b[132..] == SlotBytes(s[2])
  {
  }

  lemma SliceOfSlice(b: Bytes, lo: nat, hi: nat, i: nat, j: nat)
    requires lo <= hi <= |b| && i <= j <= hi - lo
    ensures b[lo..hi][i..j] == b[lo + i..lo + j]
  {
    assert forall k | 0 <= k < j - i :: b[lo..hi][i..j][k] == b[lo + i..lo + j][k];
  }

  lemma SlotsRoundTrip(s: Slots)
    ensures ReadSlots(SlotsBytes(s)) == Some(s)
  {
    SlotsAt(s);
    SlotRoundTrip(s[0]);
    SlotRoundTrip(s[1]);
    SlotRoundTrip(s[2]);
    assert s == [s[0], s[1], s[2]];
  }

  lemma RotationRoundTrip(r: RotationSlot)
    ensures ReadRotation(RotationBytes(r)) == Some(r)
  {
    var b := RotationBytes(r);
    assert b[1..34] == r.proposal.newKey;
    assert b[34..42] == I64Bytes(r.proposal.proposedAt);
    I64RoundTrip(r.proposal.proposedAt);
  }

  /** The 325 bytes decode back to the wallet they were made from. */
  lemma DeserializeOfSerialize(disc: Discriminator, w: SmartWallet)
    ensures Deserialize(disc, Serialize(disc, w)) == Some(w)
  {
    FieldsAtOffsets(disc, w);
    U64RoundTrip(w.nonce);
    SlotsRoundTrip(w.guardians);
    RotationRoundTrip(w.rotation);
  }

  lemma SlotBytesOfRead(b: Bytes)
    requires |b| == GUARDIAN_SLOT_LEN && ReadSlot(b).Some?
    ensures SlotBytes(ReadSlot(b).value) == b
  {
    assert b == [b[0]] + (b[1..34] + b[34..]);
  }

  lemma SlotsBytesOfRead(b: Bytes)
    requires |b| == MAX_GUARDIANS * GUARDIAN_SLOT_LEN && ReadSlots(b).Some?
    ensures SlotsBytes(ReadSlots(b).value) == b
  {
    hide ReadSlot, SlotBytes;
    SlotBytesOfRead(b[..66]);
    SlotBytesOfRead(b[66..132]);
    SlotBytesOfRead(b[132..]);
    assert b == b[..66] + (b[66..132] + b[132..]);
  }

  lemma RotationBytesOfRead(b: Bytes)
    requires |b| == STATE_BUMP_OFFSET - ROTATION_OFFSET && ReadRotation(b).Some?
    ensures RotationBytes(ReadRotation(b).value) == b
  {
    hide I64Bytes, I64Of;
    I64BytesOf(b[34..42]);
    assert b == [b[0]] + (b[1..34] + (b[34..42] + [b[42]]));
  }

  /** Each account that decodes is the serialisation of what it decodes to: no second encoding. */
  lemma SerializeOfDeserialize(disc: Discriminator, b: Bytes)
    requires Deserialize(disc, b).Some?
    ensures Serialize(disc, Deserialize(disc, b).value) == b
  {
    hide ReadSlots, SlotsBytes, ReadRotation, RotationBytes, U64Of, U64Bytes;
    U64BytesOf(b[NONCE_OFFSET..ATTESTED_OFFSET]);
    SlotsBytesOfRead(b[GUARDIANS_OFFSET..ROTATION_OFFSET]);
    RotationBytesOfRead(b[ROTATION_OFFSET..STATE_BUMP_OFFSET]);
    assert b[323..] == [b[323], b[324]];
    assert b[280..] == b[280..323] + b[323..];
    assert b[82..] == b[82..280] + b[280..];
    assert b[81..] == [b[81]] + b[82..];
    assert b[73..] == b[73..81] + b[81..];
    assert b[40..] == b[40..73] + b[73..];
    assert b[8..] == b[8..40] + b[40..];
    assert b == b[..8] + b[8..];
  }

  // ----- memcmp filters -----

  predicate Memcmp(data: Bytes, offset: nat, pattern: Bytes) {
    offset + |pattern| <= |data| && data[offset..offset + |pattern|] == pattern
  }

  lemma GuardianFilter(disc: Discriminator, w: SmartWallet, i: nat, key: Key)
    requires i < MAX_GUARDIANS
    ensures Memcmp(Serialize(disc, w), GuardianKindOffset(i), [1] + key) <==> Holds(w.guardians[i], key)
  {
    var b := Serialize(disc, w);
    var at := GuardianKindOffset(i);
    FieldsAtOffsets(disc, w);
    SlotsAt(w.guardians);
    hide Serialize, SlotsBytes;
    var slot := SlotBytes(w.guardians[i]);
    assert SlotsBytes(w.guardians)[66 * i..66 * i + 66] == slot;
    SliceOfSlice(b, GUARDIANS_OFFSET, ROTATION_OFFSET, 66 * i, 66 * i + 66);
    SliceOfSlice(b, at, at + 66, 0, 34);
    SlotPrefix(w.guardians[i]);
    var found := [KindByte(w.guardians[i].kind)] + w.guardians[i].key;
    assert found[0] == KindByte(w.guardians[i].kind) && found[1..] == w.guardians[i].key;
    assert ([1] + key)[0] == 1 && ([1] + key)[1..] == key;
  }

  lemma GuardianKeyAt(disc: Discriminator, w: SmartWallet, i: nat, key: Key)
    requires i < MAX_GUARDIANS
    ensures Memcmp(Serialize(disc, w), GuardianKindOffset(i) + 1, key) <==> w.guardians[i].key == key
  {
    var b := Serialize(disc, w);
    FieldsAtOffsets(disc, w);
    SlotsAt(w.guardians);
    hide Serialize, SlotsBytes;
    var slot := SlotBytes(w.guardians[i]);
    assert SlotsBytes(w.guardians)[66 * i..66 * i + 66] == slot;
    SliceOfSlice(b, GUARDIANS_OFFSET, ROTATION_OFFSET, 66 * i, 66 * i + 66);
    SliceOfSlice(b, GuardianKindOffset(i), GuardianKindOffset(i) + 66, 1, 34);
    SlotPrefix(w.guardians[i]);
  }

  predicate AnyGuardianFilter(data: Bytes, key: Key) {
    || Memcmp(data, GuardianKindOffset(0), [1] + key)
    || Memcmp(data, GuardianKindOffset(1), [1] + key)
    || Memcmp(data, GuardianKindOffset(2), [1] + key)
  }

  /** The three guardian filters together find exactly the wallets whose lookup finds the key. */
  lemma GuardianIndexAgrees(disc: Discriminator, w: SmartWallet, key: Key)
    ensures AnyGuardianFilter(Serialize(disc, w), key) <==> w.P256Guardian(key).Some?
  {
    GuardianFilter(disc, w, 0, key);
    GuardianFilter(disc, w, 1, key);
    GuardianFilter(disc, w, 2, key);
  }

  /** The rotation filter finds exactly the wallets a pending proposal moves to the key. */
  lemma RotationIndexAgrees(disc: Discriminator, w: SmartWallet, key: Key)
    ensures Memcmp(Serialize(disc, w), ROTATION_OFFSET, [1] + key)
            <==> w.rotation.Get().Some? && w.rotation.Get().value.newKey == key
    ensures Memcmp(Serialize(disc, w), ROTATION_NEW_KEY_OFFSET, key) <==> w.rotation.proposal.newKey == key
    ensures Memcmp(Serialize(disc, w), ACTIVE_KEY_OFFSET, key) <==> w.activeKey == key
  {
    var b := Serialize(disc, w);
    FieldsAtOffsets(disc, w);
    hide Serialize;
    var rotation := RotationBytes(w.rotation);
    var found := [BoolByte(w.rotation.pending)] + w.rotation.proposal.newKey;
    SliceOfSlice(b, ROTATION_OFFSET, STATE_BUMP_OFFSET, 0, 34);
    SliceOfSlice(b, ROTATION_OFFSET, STATE_BUMP_OFFSET, 1, 34);
    assert rotation[0..34] == found;
    assert rotation[1..34] == w.rotation.proposal.newKey;
    assert found[0] == BoolByte(w.rotation.pending) && found[1..] == w.rotation.proposal.newKey;
    assert ([1] + key)[0] == 1 && ([1] + key)[1..] == key;
  }

  // ----- The bytes themselves -----

  predicate IsSlotBytes(b: Bytes, s: GuardianSlot) {
    && |b| == 66
    && b[0] == (if s.kind.KindNone? then 0 else if s.kind.KindP256? then 1 else 2)
    && b[1..34] == s.key
    && b[34..66] == s.rpIdHash
  }

  lemma SlotBytesWritten(s: GuardianSlot)
    ensures IsSlotBytes(SlotBytes(s), s)
  {
  }

  lemma RotationWritten(r: RotationSlot)
    ensures var b := RotationBytes(r);
            && b[0] == (if r.pending then 1 else 0)
            && b[1..34] == r.proposal.newKey
            && IsLe64Signed(b[34..42], r.proposal.proposedAt)
            && b[42] == r.proposal.proposedBy
  {
    hide I64Bytes, IsLe64Signed;
    I64BytesAreLe(r.proposal.proposedAt);
    assert RotationBytes(r)[34..42] == I64Bytes(r.proposal.proposedAt);
  }

  /** The account at the published offsets, as numbers: 8, 40, 73, 81, 82, 148, 214, 280, 281, 314, 322, 323, 324. */
  lemma StateBytes(disc: Discriminator, w: SmartWallet)
    ensures var b := Serialize(disc, w);
            && |b| == 325
            && b[0..8] == disc
            && b[8..40] == w.walletId
            && b[40..73] == w.activeKey
            && IsLe64(b[73..81], w.nonce)
            && b[81] == (if w.attested then 1 else 0)
            && IsSlotBytes(b[82..148], w.guardians[0])
            && IsSlotBytes(b[148..214], w.guardians[1])
            && IsSlotBytes(b[214..280], w.guardians[2])
            && b[280] == (if w.rotation.pending then 1 else 0)
            && b[281..314] == w.rotation.proposal.newKey
            && IsLe64Signed(b[314..322], w.rotation.proposal.proposedAt)
            && b[322] == w.rotation.proposal.proposedBy
            && b[323] == w.stateBump
            && b[324] == w.vaultBump
  {
    hide SlotBytes, IsSlotBytes, U64Bytes, IsLe64, IsLe64Signed;
    var b := Serialize(disc, w);
    FieldsAtOffsets(disc, w);
    U64BytesAreLe(w.nonce);
    SlotsAt(w.guardians);
    SlotBytesWritten(w.guardians[0]);
    SlotBytesWritten(w.guardians[1]);
    SlotBytesWritten(w.guardians[2]);
    RotationWritten(w.rotation);
    hide Serialize, SlotsBytes, RotationBytes;
    SliceOfSlice(b, 82, 280, 0, 66);
    SliceOfSlice(b, 82, 280, 66, 132);
    SliceOfSlice(b, 82, 280, 132, 198);
    SliceOfSlice(b, 280, 323, 1, 34);
    SliceOfSlice(b, 280, 323, 34, 42);
    assert b[280..323][0] == b[280] && b[280..323][42] == b[322];
  }
}
