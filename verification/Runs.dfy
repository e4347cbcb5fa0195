/** Whole runs: transactions interleaved with whatever else moves lamports on the ledger. */
module Runs {
  import opened Prelude
  import opened Actions
  import Preimages
  import opened Precompile
  import opened WalletState
  import opened Ledger
  import opened Instructions
  import opened Rules

  datatype Step =
    | Submit(tx: Tx)
    | External(from: Address, to: Address, lamports: nat)

  function Apply(env: Env, c: Chain, s: Step): Chain {
    match s
    case Submit(tx) => Commit(env, c, tx)
    case External(from, to, lamports) =>
      var moved := Move(c.balances, from, to, lamports);
      if moved.Ok? then c.(balances := moved.value) else c
  }

  datatype Trace = Trace(chains: seq<Chain>, steps: seq<Step>)

  /** The chain before each step, and after the last. */
  type Run = t: Trace | |t.chains| == |t.steps| + 1
    witness Trace([Chain(map[], map[])], [])

  /** The program starts with no wallet, every transaction passed the runtime, the clock never goes back. */
  ghost predicate IsRun(env: Env, r: Run) {
    && r.chains[0].wallets == map[]
    && Total(r.chains[0].balances) <= U64_MAX
    && (forall i | 0 <= i < |r.steps| :: r.chains[i + 1] == Apply(env, r.chains[i], r.steps[i]))
    && (forall i | 0 <= i < |r.steps| && r.steps[i].Submit? :: RuntimeChecked(env, r.steps[i].tx.sysvar))
    && (forall i, j | 0 <= i < j < |r.steps| && r.steps[i].Submit? && r.steps[j].Submit? ::
          r.steps[i].tx.now <= r.steps[j].tx.now)
  }

  // ----- The invariant -----

  lemma SlotsOfOk(gs: GuardianList)
    requires forall i | 0 <= i < MAX_GUARDIANS :: !gs[i].WebAuthn?
    ensures forall i | 0 <= i < MAX_GUARDIANS :: SlotOk(SlotsOf(gs)[i])
  {
    forall i | 0 <= i < MAX_GUARDIANS ensures SlotOk(SlotsOf(gs)[i]) {
      assert SlotsOf(gs)[i] == SlotOf(gs[i]);
    }
  }

  lemma SignerIsNotZero(env: Env, tx: Tx)
    requires RuntimeChecked(env, tx.sysvar) && LoadPayload(tx.sysvar).Ok?
    ensures Signer(tx) != ZERO_KEY
  {
    hide RuntimeChecked, LoadPayload;
    PayloadIsSigned(env, tx.sysvar);
  }

  /** Every permitted call leaves a wallet in order, whoever signs it and whatever it names. */
  lemma NextWalletOk(env: Env, before: Option<SmartWallet>, tx: Tx)
    requires Permitted(env, before, tx) && RuntimeChecked(env, tx.sysvar)
    requires before.Some? ==> WalletOk(env, tx.call.Wallet(), before.value)
    ensures var after := NextWallet(env, before, tx);
            after.Some? ==> WalletOk(env, tx.call.Wallet(), after.value)
  {
    hide RuntimeChecked, LoadPayload, Preimages.Means, SlotsOf, Position, Signer, SlotFree, Confirmable;
    if LoadPayload(tx.sysvar).Ok? {
      SignerIsNotZero(env, tx);
    }
    if tx.call.SetGuardians? {
      SlotsOfOk(tx.call.guardians);
    }
  }

  lemma CommitOk(env: Env, c: Chain, tx: Tx)
    requires ChainOk(env, c) && RuntimeChecked(env, tx.sysvar)
    ensures ChainOk(env, Commit(env, c, tx))
  {
    hide Execute, Permitted, NextWallet, Affordable, RuntimeChecked, WalletOk, Announced, Change, Total;
    ExecuteExactly(env, c, tx);
    if Succeeds(env, c, tx) {
      NextWalletOk(env, Stored(c, tx.call.Wallet()), tx);
      var chain := Execute(env, c, tx).value.chain;
      forall id | id in chain.wallets ensures WalletOk(env, id, chain.wallets[id]) {
        assert Stored(chain, id) == Some(chain.wallets[id]);
      }
    }
  }

  lemma ApplyOk(env: Env, c: Chain, s: Step)
    requires ChainOk(env, c) && (s.Submit? ==> RuntimeChecked(env, s.tx.sysvar))
    ensures ChainOk(env, Apply(env, c, s))
  {
    hide Commit, RuntimeChecked, WalletOk, Total;
    match s
    case Submit(tx) => CommitOk(env, c, tx);
    case External(from, to, lamports) =>
      if Move(c.balances, from, to, lamports).Ok? {
        MoveConserves(c.balances, from, to, lamports);
      }
  }

  /** Every reachable chain is in order. */
  lemma {:induction false} ReachableOk(env: Env, r: Run, n: nat)
    requires IsRun(env, r) && n <= |r.steps|
    ensures ChainOk(env, r.chains[n])
  {
    hide Apply, RuntimeChecked, WalletOk, Total;
    if n > 0 {
      ReachableOk(env, r, n - 1);
      ApplyOk(env, r.chains[n - 1], r.steps[n - 1]);
    }
  }

  // ----- One step, seen from one wallet -----

  function Wallet(r: Run, n: nat, id: Bytes32): Option<SmartWallet>
    requires n <= |r.steps|
  {
    Stored(r.chains[n], id)
  }

  /** Step `i` is a transaction on wallet `id`, and it succeeds. */
  ghost predicate Did(env: Env, r: Run, i: nat, id: Bytes32)
    requires i < |r.steps|
  {
    && r.steps[i].Submit?
    && r.steps[i].tx.call.Wallet() == id
    && Succeeds(env, r.chains[i], r.steps[i].tx)
  }

  /** A wallet changes by its own successful transactions, as the rules say, and by nothing else. */
  lemma StepOf(env: Env, r: Run, i: nat, id: Bytes32)
    requires IsRun(env, r) && i < |r.steps|
    ensures !Did(env, r, i, id) ==> Wallet(r, i + 1, id) == Wallet(r, i, id)
    ensures Did(env, r, i, id) ==>
            && Permitted(env, Wallet(r, i, id), r.steps[i].tx)
            && Wallet(r, i + 1, id) == NextWallet(env, Wallet(r, i, id), r.steps[i].tx)
            && Execute(env, r.chains[i], r.steps[i].tx).Ok?
            && Leaves(env, r.chains[i], r.steps[i].tx, Execute(env, r.chains[i], r.steps[i].tx).value)
  {
    hide Execute, Permitted, NextWallet, Affordable, RuntimeChecked, WalletOk, Announced, Change, Total;
    ReachableOk(env, r, i);
    if r.steps[i].Submit? {
      ExecuteExactly(env, r.chains[i], r.steps[i].tx);
    }
  }

  lemma WalletIsOk(env: Env, r: Run, n: nat, id: Bytes32)
    requires IsRun(env, r) && n <= |r.steps| && Wallet(r, n, id).Some?
    ensures WalletOk(env, id, Wallet(r, n, id).value)
  {
    hide Apply, RuntimeChecked, WalletOk, Total;
    ReachableOk(env, r, n);
  }

  // ----- Longer runs -----

  function Last(r: Run): Chain {
    r.chains[|r.steps|]
  }

  /** The run with one more transaction at its end. */
  function Extend(env: Env, r: Run, tx: Tx): Run {
    Trace(r.chains + [Commit(env, Last(r), tx)], r.steps + [Submit(tx)])
  }

  /** No transaction of the run is later than `now`. */
  ghost predicate NotBefore(r: Run, now: i64) {
    forall i | 0 <= i < |r.steps| && r.steps[i].Submit? :: r.steps[i].tx.now <= now
  }

  /** Any transaction that passes the runtime can come next, its clock no earlier than those before. */
  lemma ExtendIsRun(env: Env, r: Run, tx: Tx)
    requires IsRun(env, r) && RuntimeChecked(env, tx.sysvar) && NotBefore(r, tx.now)
    ensures IsRun(env, Extend(env, r, tx))
    ensures NotBefore(Extend(env, r, tx), tx.now)
    ensures Last(Extend(env, r, tx)) == Commit(env, Last(r), tx)
  {
    hide Commit, RuntimeChecked, Total;
    var longer := Extend(env, r, tx);
    forall i | 0 <= i < |longer.steps|
      ensures longer.chains[i + 1] == Apply(env, longer.chains[i], longer.steps[i])
    {
      if i < |r.steps| {
        assert r.chains[i + 1] == Apply(env, r.chains[i], r.steps[i]);
      }
    }
  }
}
