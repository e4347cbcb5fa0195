/** An indexer that sees only the events knows the wallet: its key, guardians, pending rotation and nonce. */
module EventLog {
  import opened Prelude
  import opened Actions
  import Preimages
  import opened Precompile
  import opened WalletState
  import opened Instructions
  import opened Rules
  import opened Runs
  import opened Timelock

  datatype Shown = Shown(newKey: Key, guardian: Key, opensAt: i64)

  /** What the events so far say of one wallet; Corrupt if they could not have happened. */
  datatype View =
    | Absent
    | Present(key: Key, guardians: GuardianList, pending: Option<Shown>, actions: nat)
    | Corrupt

  const NO_GUARDIANS: GuardianList := [NoGuardian, NoGuardian, NoGuardian]

  predicate Pends(v: View, newKey: Key) {
    v.Present? && v.pending.Some? && v.pending.value.newKey == newKey
  }

  function Fold(v: View, e: Event): View {
    if e.WalletCreated? then
      if v.Absent? then Present(e.key, NO_GUARDIANS, None, 0) else Corrupt
    else if !v.Present? then
      Corrupt
    else
      match e
      case SolTransferred(_, _, _, _) => v.(actions := v.actions + 1)
      case VaultSwept(_, _, _, _) => v.(actions := v.actions + 1)
      case WalletClosed(_, _, _, _) => Absent
      case GuardiansSet(_, guardians) => v.(guardians := guardians, pending := None, actions := v.actions + 1)
      case RotationProposed(_, newKey, guardian, opensAt) =>
        v.(pending := Some(Shown(newKey, guardian, opensAt)), actions := v.actions + 1)
      case RotationCancelled(_, newKey) =>
        if Pends(v, newKey) then v.(pending := None, actions := v.actions + 1) else Corrupt
      case KeyRotated(_, newKey, false) => v.(key := newKey, pending := None, actions := v.actions + 1)
      case KeyRotated(_, newKey, true) =>
        if Pends(v, newKey) then v.(key := newKey, pending := None) else Corrupt
  }

  function Replay(v: View, events: seq<Event>, id: Bytes32): View
    decreases |events|
  {
    if events == [] then v
    else Replay(if events[0].walletId == id then Fold(v, events[0]) else v, events[1..], id)
  }

  lemma {:induction false} ReplayAppends(v: View, first: seq<Event>, second: seq<Event>, id: Bytes32)
    ensures Replay(v, first + second, id) == Replay(Replay(v, first, id), second, id)
    decreases |first|
  {
    if first == [] {
      assert first + second == second;
    } else {
      assert (first + second)[1..] == first[1..] + second;
      ReplayAppends(if first[0].walletId == id then Fold(v, first[0]) else v, first[1..], second, id);
    }
  }

  /** The view and the stored wallet say the same. */
  predicate Shows(v: View, w: Option<SmartWallet>) {
    if w.None? then v.Absent? else
    && v.Present?
    && v.key == w.value.activeKey
    && SlotsOf(v.guardians) == w.value.guardians
    && v.actions == w.value.nonce
    && ShowsPending(v.pending, w.value)
  }

  predicate ShowsPending(p: Option<Shown>, w: SmartWallet) {
    var proposal := w.rotation.proposal;
    if !w.rotation.pending then p.None? else
    && proposal.proposedBy < MAX_GUARDIANS
    && p == Some(Shown(proposal.newKey, w.guardians[proposal.proposedBy].key, proposal.OpensAt()))
  }

  /** The event announced by a permitted call turns the view of the wallet before into the view of it after. */
  lemma AnnouncedShows(env: Env, before: Option<SmartWallet>, tx: Tx, held: int, v: View)
    requires Permitted(env, before, tx) && 0 <= RefundPaid(tx, held) <= held
    requires Shows(v, Some(Acting(env, before, tx)))
    requires before.Some? || tx.call.Creates()
    ensures Announced(env, before, tx, held).walletId == tx.call.Wallet()
    ensures Shows(Fold(v, Announced(env, before, tx, held)), NextWallet(env, before, tx))
  {
    hide SlotsOf, Preimages.Means, LoadPayload, Signer;
  }

  lemma FreshShows(env: Env, id: Bytes32, key: Key)
    ensures Shows(Fold(Absent, WalletCreated(id, key)), Some(FreshWallet(env, id, key)))
  {
    assert SlotsOf(NO_GUARDIANS) == EMPTY_SLOTS;
  }

  /** One transaction: its events replayed over the view before give the view after, for every wallet. */
  lemma EventsShow(env: Env, c: Chain, tx: Tx, out: Outcome, v: View, id: Bytes32)
    requires Succeeds(env, c, tx) && Leaves(env, c, tx, out)
    requires Shows(v, Stored(c, id))
    ensures Shows(Replay(v, out.events, id), Stored(out.chain, id))
  {
    hide Permitted, NextWallet, Announced, Affordable, Shows, Fold, Authentic, RefundPaid, Paid, VaultHeld, Change;
    var target := tx.call.Wallet();
    var before := Stored(c, target);
    var held := VaultHeld(env, c, tx);
    var created := if before.None? then [WalletCreated(target, Signer(tx))] else [];
    var last := Announced(env, before, tx, held);
    assert out.events == created + [last];
    ReplayAppends(v, created, [last], id);
    ReplaySingle(v, WalletCreated(target, Signer(tx)), id);
    ReplaySingle(Replay(v, created, id), last, id);
    AnnouncedIsOwn(env, before, tx, held);
    if id == target {
      if before.None? {
        AbsentIffNone(v, before);
        FreshShows(env, target, Signer(tx));
        CreatorIsActive(env, before, tx);
      }
      AnnouncedShows(env, before, tx, held, Replay(v, created, id));
    }
  }

  lemma AnnouncedIsOwn(env: Env, before: Option<SmartWallet>, tx: Tx, held: int)
    requires Permitted(env, before, tx) && 0 <= RefundPaid(tx, held) <= held
    ensures Announced(env, before, tx, held).walletId == tx.call.Wallet()
  {
    hide Permitted, ByOwner, Acting, Signer;
  }

  lemma AbsentIffNone(v: View, w: Option<SmartWallet>)
    requires Shows(v, w)
    ensures v.Absent? <==> w.None?
  {
  }

  lemma ReplaySingle(v: View, e: Event, id: Bytes32)
    ensures Replay(v, [e], id) == if e.walletId == id then Fold(v, e) else v
  {
    assert [e][1..] == [];
  }

  /** WalletCreated comes with a wallet's first action, before its event, and never otherwise. */
  lemma CreationIsAnnouncedOnce(env: Env, c: Chain, tx: Tx, out: Outcome)
    requires Succeeds(env, c, tx) && Leaves(env, c, tx, out)
    ensures out.events != []
    ensures out.events[0].WalletCreated? <==> tx.call.Wallet() !in c.wallets
    ensures forall i | 0 < i < |out.events| :: !out.events[i].WalletCreated?
    ensures tx.call.Wallet() !in c.wallets ==>
            && tx.call.auth.nonce == 0
            && env.sha256(out.events[0].key) == out.events[0].walletId == tx.call.Wallet()
            && Stored(out.chain, tx.call.Wallet()).Some?
            && Stored(out.chain, tx.call.Wallet()).value.activeKey == out.events[0].key
  {
    hide Affordable, Preimages.Means, LoadPayload, Position, SlotsOf, Change, VaultHeld, RefundPaid, Paid;
  }

  // ----- Whole runs -----

  function Emitted(env: Env, c: Chain, s: Step): seq<Event> {
    if s.External? then [] else
    var r := Execute(env, c, s.tx);
    if r.Ok? then r.value.events else []
  }

  /** Everything the first `n` steps of a run emitted. */
  function Log(env: Env, r: Run, n: nat): seq<Event>
    requires n <= |r.steps|
  {
    if n == 0 then [] else Log(env, r, n - 1) + Emitted(env, r.chains[n - 1], r.steps[n - 1])
  }

  /**
   * Replaying a run's log shows every wallet as it is stored, at every point. It is never Corrupt: a
   * lifetime opens with one WalletCreated, and every cancelled or confirmed key had been proposed.
   */
  lemma {:induction false} LogShowsState(env: Env, r: Run, id: Bytes32, n: nat)
    requires IsRun(env, r) && n <= |r.steps|
    ensures Shows(Replay(Absent, Log(env, r, n), id), Wallet(r, n, id))
  {
    hide IsRun, Succeeds, Execute, Leaves, Shows, Replay;
    if n == 0 {
      NothingAtStart(env, r, id);
      NothingShown(id);
    } else {
      LogShowsState(env, r, id, n - 1);
      var s := r.steps[n - 1];
      ReplayAppends(Absent, Log(env, r, n - 1), Emitted(env, r.chains[n - 1], s), id);
      StepShows(env, r, n - 1, Replay(Absent, Log(env, r, n - 1), id), id);
    }
  }

  lemma NothingShown(id: Bytes32)
    ensures Shows(Replay(Absent, [], id), None)
  {
  }

  lemma StepShows(env: Env, r: Run, i: nat, v: View, id: Bytes32)
    requires IsRun(env, r) && i < |r.steps|
    requires Shows(v, Wallet(r, i, id))
    ensures Shows(Replay(v, Emitted(env, r.chains[i], r.steps[i]), id), Wallet(r, i + 1, id))
  {
    hide Execute, Permitted, NextWallet, Affordable, RuntimeChecked, WalletOk, Announced, Change, Leaves, Shows, Fold;
    ReachableOk(env, r, i);
    if r.steps[i].Submit? {
      ExecuteExactly(env, r.chains[i], r.steps[i].tx);
      if Succeeds(env, r.chains[i], r.steps[i].tx) {
        EventsShow(env, r.chains[i], r.steps[i].tx, Execute(env, r.chains[i], r.steps[i].tx).value, v, id);
      }
    }
  }
}
