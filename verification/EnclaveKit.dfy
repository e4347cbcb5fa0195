/** The program's seven entry points over the chain's state: load, handle, write back or roll back, emit. */
module EnclaveKit {
  import opened Prelude
  import opened Errors
  import opened WalletState
  import opened Ledger
  import opened Instructions
  import opened Rules
  import opened Runs
  import opened EventLog
  import opened Program
  import opened Observed

  /** The log so far shows every wallet as it is stored. */
  ghost predicate LogShows(log: seq<Event>, c: Chain) {
    forall id :: Shows(Replay(Absent, log, id), Stored(c, id))
  }

  /** A transaction, all of it or none of it. */
  ghost predicate Transacts(env: Env, c: Chain, tx: Tx, r: Result<seq<Event>>, after: Chain) {
    match Execute(env, c, tx)
    case Ok(out) => r == Ok(out.events) && after == out.chain
    case Err(e) => r == Err(e) && after == c
  }

  lemma TransactionKeeps(env: Env, c: Chain, tx: Tx, log: seq<Event>)
    requires ChainOk(env, c) && RuntimeChecked(env, tx.sysvar) && LogShows(log, c)
    ensures ChainOk(env, Commit(env, c, tx))
    ensures Execute(env, c, tx).Ok? ==> LogShows(log + Execute(env, c, tx).value.events, Commit(env, c, tx))
  {
    hide Execute, ChainOk, RuntimeChecked, Succeeds, Leaves, Shows, Replay;
    CommitOk(env, c, tx);
    ExecuteExactly(env, c, tx);
    if Execute(env, c, tx).Ok? {
      var out := Execute(env, c, tx).value;
      forall id ensures Shows(Replay(Absent, log + out.events, id), Stored(out.chain, id)) {
        ReplayAppends(Absent, log, out.events, id);
        EventsShow(env, c, tx, out, Replay(Absent, log, id), id);
      }
    }
  }

  class EnclaveKit {
    const env: Env
    var wallets: map<Bytes32, SmartWallet>
    var balances: Balances
    var log: seq<Event>

    function State(): Chain
      reads this
    {
      Chain(wallets, balances)
    }

    ghost predicate Valid()
      reads this
    {
      ChainOk(env, State()) && LogShows(log, State())
    }

    /** No wallet yet, whatever lamports lie around. */
    constructor (env: Env, balances: Balances)
      requires Total(balances) <= U64_MAX
      ensures Valid() && this.env == env && State() == Chain(map[], balances) && log == []
    {
      this.env, this.wallets, this.balances, this.log := env, map[], balances, [];
    }

    /** The accounts of a call, as copies: nothing reaches the chain before Save. */
    method Open(tx: Tx) returns (r: Result<Accounts>)
      ensures match Load(env, State(), tx)
              case Ok(l) =>
                && r.Ok?
                && r.value.env == env
                && fresh(r.value.wallet) && fresh(r.value.bank)
                && r.value.wallet.Value() == l.wallet && r.value.bank.balances == l.balances
              case Err(e) => r == Err(e)
    {
      var id := tx.call.Wallet();
      var bank := new Bank(balances);
      var wallet;
      if id in wallets {
        if tx.call.CloseWallet? && tx.relayer == env.stateAddress(id) {
          return Err(ConstraintClose);
        }
        wallet := new WalletAccount(wallets[id]);
      } else if tx.call.Creates() {
        var paid := bank.Transfer(tx.relayer, env.stateAddress(id), RentDue(env, balances, id));
        if paid.Err? {
          return Err(paid.error);
        }
        wallet := new WalletAccount(ZERO_WALLET);
      } else {
        return Err(AccountNotInitialized);
      }
      var accounts := new Accounts(env, wallet, bank);
      return Ok(accounts);
    }

    /** Writes the accounts back; a closed state account pays the relayer and goes. */
    method Save(tx: Tx, accounts: Accounts, events: seq<Event>, ghost done: Done)
      requires done.wallet == accounts.wallet.Value() && done.balances == accounts.bank.balances
      modifies this, accounts.bank
      ensures Exit(env, old(State()), tx, done) == Ok(State())
      ensures log == old(log) + events
    {
      var id := tx.call.Wallet();
      if tx.call.CloseWallet? {
        var state := env.stateAddress(id);
        var _ := accounts.bank.Transfer(state, tx.relayer, Balance(accounts.bank.balances, state));
        wallets := wallets - {id};
      } else {
        wallets := wallets[id := accounts.wallet.Value()];
      }
      balances := accounts.bank.balances;
      log := log + events;
    }

    method TransferSol(tx: Tx) returns (r: Result<seq<Event>>)
      requires Valid() && RuntimeChecked(env, tx.sysvar) && tx.call.TransferSol?
      modifies this
      ensures Valid() && Transacts(env, old(State()), tx, r, State())
      ensures r.Err? ==> r.error != AccountNotInitialized
      ensures log == old(log) + if r.Ok? then r.value else []
    {
      hide Load, Transfer, Exit, ChainOk, LogShows, RuntimeChecked;
      FoundingFindsAccounts(env, State(), tx);
      TransactionKeeps(env, State(), tx, log);
      var accounts :- Open(tx);
      var created := accounts.wallet.activeKey == ZERO_KEY;
      var event :- accounts.TransferSol(tx);
      var events := [event];
      if created {
        events := [WalletCreated(tx.call.auth.walletId, accounts.wallet.activeKey), event];
      }
      Save(tx, accounts, events, Done(accounts.wallet.Value(), accounts.bank.balances, event));
      return Ok(events);
    }

    method SetGuardians(tx: Tx) returns (r: Result<seq<Event>>)
      requires Valid() && RuntimeChecked(env, tx.sysvar) && tx.call.SetGuardians?
      modifies this
      ensures Valid() && Transacts(env, old(State()), tx, r, State())
      ensures r.Err? ==> r.error != AccountNotInitialized
      ensures log == old(log) + if r.Ok? then r.value else []
    {
      hide Load, ReplaceGuardians, Exit, ChainOk, LogShows, RuntimeChecked;
      FoundingFindsAccounts(env, State(), tx);
      TransactionKeeps(env, State(), tx, log);
      var accounts :- Open(tx);
      var created := accounts.wallet.activeKey == ZERO_KEY;
      var event :- accounts.SetGuardians(tx);
      var events := [event];
      if created {
        events := [WalletCreated(tx.call.auth.walletId, accounts.wallet.activeKey), event];
      }
      Save(tx, accounts, events, Done(accounts.wallet.Value(), accounts.bank.balances, event));
      return Ok(events);
    }

    method CancelRotation(tx: Tx) returns (r: Result<seq<Event>>)
      requires Valid() && RuntimeChecked(env, tx.sysvar) && tx.call.CancelRotation?
      modifies this
      ensures Valid() && Transacts(env, old(State()), tx, r, State())
      ensures log == old(log) + if r.Ok? then r.value else []
    {
      hide Load, Cancel, Exit, ChainOk, LogShows, RuntimeChecked;
      TransactionKeeps(env, State(), tx, log);
      var accounts :- Open(tx);
      var event :- accounts.CancelRotation(tx);
      var events := [event];
      Save(tx, accounts, events, Done(accounts.wallet.Value(), accounts.bank.balances, event));
      return Ok(events);
    }

    method ProposeRotation(tx: Tx) returns (r: Result<seq<Event>>)
      requires Valid() && RuntimeChecked(env, tx.sysvar) && tx.call.ProposeRotation?
      modifies this
      ensures Valid() && Transacts(env, old(State()), tx, r, State())
      ensures log == old(log) + if r.Ok? then r.value else []
    {
      hide Load, Propose, Exit, ChainOk, LogShows, RuntimeChecked;
      TransactionKeeps(env, State(), tx, log);
      var accounts :- Open(tx);
      var event :- accounts.ProposeRotation(tx);
      var events := [event];
      Save(tx, accounts, events, Done(accounts.wallet.Value(), accounts.bank.balances, event));
      return Ok(events);
    }

    method ConfirmRotation(tx: Tx) returns (r: Result<seq<Event>>)
      requires Valid() && RuntimeChecked(env, tx.sysvar) && tx.call.ConfirmRotation?
      modifies this
      ensures Valid() && Transacts(env, old(State()), tx, r, State())
      ensures log == old(log) + if r.Ok? then r.value else []
    {
      hide Load, Confirm, Exit, ChainOk, LogShows, RuntimeChecked;
      TransactionKeeps(env, State(), tx, log);
      var accounts :- Open(tx);
      var event :- accounts.ConfirmRotation(tx.now);
      var events := [event];
      Save(tx, accounts, events, Done(accounts.wallet.Value(), accounts.bank.balances, event));
      return Ok(events);
    }

    method SweepVault(tx: Tx) returns (r: Result<seq<Event>>)
      requires Valid() && RuntimeChecked(env, tx.sysvar) && tx.call.SweepVault?
      modifies this
      ensures Valid() && Transacts(env, old(State()), tx, r, State())
      ensures r.Err? ==> r.error != AccountNotInitialized
      ensures log == old(log) + if r.Ok? then r.value else []
    {
      hide Load, Sweep, Exit, ChainOk, LogShows, RuntimeChecked;
      FoundingFindsAccounts(env, State(), tx);
      TransactionKeeps(env, State(), tx, log);
      var accounts :- Open(tx);
      var created := accounts.wallet.activeKey == ZERO_KEY;
      var event :- accounts.SweepVault(tx);
      var events := [event];
      if created {
        events := [WalletCreated(tx.call.auth.walletId, accounts.wallet.activeKey), event];
      }
      Save(tx, accounts, events, Done(accounts.wallet.Value(), accounts.bank.balances, event));
      return Ok(events);
    }

    method CloseWallet(tx: Tx) returns (r: Result<seq<Event>>)
      requires Valid() && RuntimeChecked(env, tx.sysvar) && tx.call.CloseWallet?
      modifies this
      ensures Valid() && Transacts(env, old(State()), tx, r, State())
      ensures log == old(log) + if r.Ok? then r.value else []
    {
      hide Load, Close, Exit, ChainOk, LogShows, RuntimeChecked;
      TransactionKeeps(env, State(), tx, log);
      var accounts :- Open(tx);
      var event :- accounts.CloseWallet(tx);
      var events := [event];
      Save(tx, accounts, events, Done(accounts.wallet.Value(), accounts.bank.balances, event));
      return Ok(events);
    }
  }
}
