/** The wallet's state record and the pure questions asked of it. */
module WalletState {
  import opened Prelude
  import opened Actions

  /** Seconds a guardian's proposal waits before it can be confirmed: 72 hours. */
  const ROTATION_DELAY: i64 := 72 * 60 * 60

  /** Seconds it then stays confirmable: 7 days. */
  const ROTATION_WINDOW: i64 := 7 * 24 * 60 * 60

  datatype GuardianKind = KindNone | KindP256 | KindWebAuthn

  datatype GuardianSlot = GuardianSlot(kind: GuardianKind, key: Key, rpIdHash: Bytes32)

  const EMPTY_SLOT := GuardianSlot(KindNone, ZERO_KEY, ZERO_32)

  type Slots = s: seq<GuardianSlot> | |s| == MAX_GUARDIANS
    witness [EMPTY_SLOT, EMPTY_SLOT, EMPTY_SLOT]

  function SlotOf(g: Guardian): GuardianSlot {
    match g
    case NoGuardian => EMPTY_SLOT
    case P256(key) => GuardianSlot(KindP256, key, ZERO_32)
    case WebAuthn(key) => GuardianSlot(KindWebAuthn, key, ZERO_32)
  }

  function SlotsOf(gs: GuardianList): Slots {
    [SlotOf(gs[0]), SlotOf(gs[1]), SlotOf(gs[2])]
  }

  /** The stored slots determine the list the user signed. */
  lemma SlotsDetermineList(gs1: GuardianList, gs2: GuardianList)
    requires SlotsOf(gs1) == SlotsOf(gs2)
    ensures gs1 == gs2
  {
    forall i | 0 <= i < MAX_GUARDIANS ensures gs1[i] == gs2[i] {
      assert SlotsOf(gs1)[i] == SlotOf(gs1[i]) && SlotsOf(gs2)[i] == SlotOf(gs2[i]);
    }
  }

  datatype PendingRotation = PendingRotation(newKey: Key, proposedAt: i64, proposedBy: byte) {
    function OpensAt(): i64 {
      SaturatingAdd(proposedAt, ROTATION_DELAY)
    }

    function ClosesAt(): i64 {
      SaturatingAdd(OpensAt(), ROTATION_WINDOW)
    }

    predicate IsExpired(now: i64) {
      now > ClosesAt()
    }
  }

  datatype RotationSlot = RotationSlot(pending: bool, proposal: PendingRotation) {
    function Get(): Option<PendingRotation> {
      if pending then Some(proposal) else None
    }
  }

  const EMPTY_ROTATION := RotationSlot(false, PendingRotation(ZERO_KEY, 0, 0))

  predicate Holds(slot: GuardianSlot, key: Key) {
    slot.kind == KindP256 && slot.key == key
  }

  /** The first index from `i` on whose slot holds the P-256 guardian `key`. */
  function Position(slots: seq<GuardianSlot>, key: Key, i: nat): (r: Option<nat>)
    requires i <= |slots|
    ensures r.Some? ==> i <= r.value < |slots| && Holds(slots[r.value], key)
    ensures r.Some? ==> forall j :: i <= j < r.value ==> !Holds(slots[j], key)
    ensures r.None? ==> forall j :: i <= j < |slots| ==> !Holds(slots[j], key)
    decreases |slots| - i
  {
    if i == |slots| then None
    else if Holds(slots[i], key) then Some(i)
    else Position(slots, key, i + 1)
  }

  datatype SmartWallet = SmartWallet(
    walletId: Bytes32,
    activeKey: Key,
    nonce: u64,
    attested: bool,
    guardians: Slots,
    rotation: RotationSlot,
    stateBump: byte,
    vaultBump: byte
  ) {
    /** The all-zero state `init_if_needed` makes: the first action fills it. */
    predicate IsNew() {
      activeKey == ZERO_KEY
    }

    function P256Guardian(key: Key): Option<nat> {
      Position(guardians, key, 0)
    }
  }

  const EMPTY_SLOTS: Slots := [EMPTY_SLOT, EMPTY_SLOT, EMPTY_SLOT]

  /** What a freshly allocated account deserialises to. */
  const ZERO_WALLET := SmartWallet(ZERO_32, ZERO_KEY, 0, false, EMPTY_SLOTS, EMPTY_ROTATION, 0, 0)

  predicate TooEarly(p: PendingRotation, now: i64) {
    now < p.OpensAt()
  }

  predicate Confirmable(p: PendingRotation, now: i64) {
    p.OpensAt() <= now <= p.ClosesAt()
  }

  /**
   * At any second exactly one of too early, confirmable and expired holds, so no proposal is both
   * confirmable and replaceable by another guardian. Saturation only ever shortens the wait when
   * the opening second itself does not fit: then the sole confirmable second is the last one.
   */
  lemma TimeRegionsPartition(p: PendingRotation, now: i64)
    ensures TooEarly(p, now) <==> !Confirmable(p, now) && !p.IsExpired(now)
    ensures Confirmable(p, now) ==> !p.IsExpired(now)
    ensures Confirmable(p, now) <==>
            if p.proposedAt + ROTATION_DELAY <= I64_MAX
            then p.proposedAt + ROTATION_DELAY <= now <= p.proposedAt + ROTATION_DELAY + ROTATION_WINDOW
            else now == I64_MAX
  {
  }
}
