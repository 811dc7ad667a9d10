/**
 The fungible token contract as it is written: fields updated in place, one check at a time, with
 128-bit checked arithmetic. Every entry point is proved to do what FungibleToken.Apply says, so
 the overflow checks that Apply does not have can never fire.
 */
module FungibleTokenContract {
  import opened Prelude
  import F = FungibleToken
  import T = FungibleTokenTheorems
  import R = FungibleTokenRuns

  function CheckedAdd(a: int, b: int): Option<int> {
    if a + b <= F.U128_MAX then Some(a + b) else None
  }

  function CheckedSub(a: int, b: int): Option<int> {
    if a >= b then Some(a - b) else None
  }

  /** Unchecked subtraction of 128-bit numbers. */
  function WrappingSub(a: int, b: int): int {
    (a - b) % (F.U128_MAX + 1)
  }

  /** The method did what the outcome says, with its effects in out. */
  ghost predicate Matches(r: Result<F.Reply, F.Reason>, now: F.State, out: F.Out, o: F.Outcome) {
    match o
    case Done(t, reply, told) => r == Success(reply) && now == t && out == told
    case Panicked(why) => r == Failure(why)
  }

  /** The longest account name there is, used to measure an account entry. */
  const TMP_ACCOUNT_ID := AccountId(seq(64, _ => 'a'))

  class FungibleToken {
    var accounts: map<AccountId, nat>
    var totalSupply: int
    var accountStorageUsage: nat
    const storageByteCost: nat

    // The host's side: callbacks to run, what the running call has told it, and the history.
    var pending: map<nat, F.Receipt>
    var nextReceipt: nat
    var out: F.Out
    ghost var log: F.Log

    ghost function View(): F.State
      reads this
    {
      F.State(accounts, totalSupply, StorageBalanceMin(), pending, nextReceipt, log)
    }

    ghost predicate Valid()
      reads this
    {
      T.Conserved(View()) && T.InFlight(View())
    }

    function StorageBalanceMin(): nat
      reads this
    {
      accountStorageUsage * storageByteCost
    }

    /** A new token; entryBytes is what the host reports for one account entry. */
    constructor (storageByteCost: nat, entryBytes: nat)
      ensures Valid()
      ensures View() == F.Initial(entryBytes * storageByteCost)
    {
      this.storageByteCost := storageByteCost;
      accounts, totalSupply, accountStorageUsage := map[], 0, 0;
      pending, nextReceipt, out, log := map[], 0, F.QUIET, F.Empty;
      new;
      MeasureAccountStorageUsage(TMP_ACCOUNT_ID, entryBytes);
    }

    /** Adds a dummy account, reads how the storage grew, and removes it again. */
    method MeasureAccountStorageUsage(tmpAccount: AccountId, entryBytes: nat)
      modifies this`accounts, this`accountStorageUsage
      ensures accounts == old(accounts) - {tmpAccount}
      ensures accountStorageUsage == entryBytes
    {
      accounts := accounts[tmpAccount := 0];
      accountStorageUsage := entryBytes;
      accounts := accounts - {tmpAccount};
    }

    method InternalUnwrapBalanceOf(account: AccountId) returns (r: Result<nat, F.Reason>)
      ensures r == if account in accounts then Success(accounts[account]) else Failure(F.NotRegistered(account))
    {
      if account in accounts {
        return Success(accounts[account]);
      }
      return Failure(F.NotRegistered(account));
    }

    method InternalDeposit(account: AccountId, amount: F.u128) returns (r: Result<F.Reply, F.Reason>)
      modifies this`accounts, this`totalSupply
      ensures match F.Credit(old(View()), account, amount)
        case Done(t, reply, _) => r == Success(reply) && View() == t
        case Panicked(why) => r == Failure(why)
    {
      var balance :- InternalUnwrapBalanceOf(account);
      match CheckedAdd(balance, amount) {
        case Some(newBalance) =>
          accounts := accounts[account := newBalance];
          var supply := CheckedAdd(totalSupply, amount);
          if supply.None? {
            return Failure(F.TotalSupplyOverflow);
          }
          totalSupply := supply.value;
          return Success(F.Nothing);
        case None =>
          return Failure(F.BalanceOverflow);
      }
    }

    method InternalWithdraw(account: AccountId, amount: F.u128) returns (r: Result<F.Reply, F.Reason>)
      requires Valid()
      modifies this`accounts, this`totalSupply
      ensures match F.Debit(old(View()), account, amount)
        case Done(t, reply, _) => r == Success(reply) && View() == t
        case Panicked(why) => r == Failure(why)
    {
      var balance :- InternalUnwrapBalanceOf(account);
      match CheckedSub(balance, amount) {
        case Some(newBalance) =>
          R.NoOverflow(View(), account, account, amount);
          accounts := accounts[account := newBalance];
          var supply := CheckedSub(totalSupply, amount);
          if supply.None? {
            return Failure(F.TotalSupplyOverflow);
          }
          totalSupply := supply.value;
          return Success(F.Nothing);
        case None =>
          return Failure(F.NotEnoughBalance);
      }
    }

    method InternalTransfer(sender: AccountId, receiver: AccountId, amount: F.u128, memo: Option<string>)
      returns (r: Result<F.Reply, F.Reason>)
      requires Valid() && out == F.ONE_YOCTO
      modifies this`accounts, this`totalSupply, this`out
      ensures Matches(r, View(), out, F.Transfer(old(View()), sender, receiver, amount, memo))
    {
      if sender == receiver {
        return Failure(F.SenderIsReceiver);
      }
      if amount == 0 {
        return Failure(F.AmountNotPositive);
      }
      if sender in accounts && amount <= accounts[sender] {
        R.NoOverflow(View(), sender, receiver, amount);
      }
      var _ :- InternalWithdraw(sender, amount);
      var _ :- InternalDeposit(receiver, amount);
      out := out.(event := F.TransferEvent(sender, receiver, amount, memo));
      return Success(F.Nothing);
    }

    method InternalRegisterAccount(account: AccountId, paid: bool) returns (r: Result<F.Reply, F.Reason>)
      modifies this`accounts, this`out
      ensures accounts == old(accounts)[account := 0]
      ensures account in old(accounts) ==> r == Failure(F.AlreadyRegistered)
      ensures account !in old(accounts) ==> r == Success(F.Nothing) && out == old(out).(event := F.Registered(account, paid))
    {
      var was := if account in accounts then Some(accounts[account]) else None;
      accounts := accounts[account := 0];
      if was.Some? {
        return Failure(F.AlreadyRegistered);
      }
      out := out.(event := F.Registered(account, paid));
      return Success(F.Nothing);
    }

    method AssertOneYocto(env: F.Env) returns (r: Result<F.Reply, F.Reason>)
      modifies this`out
      ensures env.attachedDeposit != 1 ==> r == Failure(F.OneYoctoRequired)
      ensures env.attachedDeposit == 1 ==> r == Success(F.Nothing) && out == old(out).(received := 1, oneYocto := true)
    {
      if env.attachedDeposit != 1 {
        return Failure(F.OneYoctoRequired);
      }
      out := out.(received := env.attachedDeposit, oneYocto := true);
      return Success(F.Nothing);
    }

    method FtTransfer(env: F.Env, receiver: AccountId, amount: F.u128, memo: Option<string>)
      returns (r: Result<F.Reply, F.Reason>)
      requires Valid() && out == F.QUIET
      modifies this`accounts, this`totalSupply, this`out
      ensures Matches(r, View(), out, F.Apply(old(View()), F.FtTransfer(env, receiver, amount, memo)))
    {
      var _ :- AssertOneYocto(env);
      r := InternalTransfer(env.predecessor, receiver, amount, memo);
    }

    method FtTransferCall(env: F.Env, receiver: AccountId, amount: F.u128, memo: Option<string>, msg: string)
      returns (r: Result<F.Reply, F.Reason>)
      requires Valid() && out == F.QUIET
      modifies this`accounts, this`totalSupply, this`out, this`pending, this`nextReceipt
      ensures Matches(r, View(), out, F.TransferCall(old(View()), env, receiver, amount, memo, msg))
    {
      var _ :- AssertOneYocto(env);
      if !(env.prepaidGas > F.GAS_FOR_FT_TRANSFER_CALL) {
        return Failure(F.MoreGasRequired);
      }
      var _ :- InternalTransfer(env.predecessor, receiver, amount, memo);
      var receiverGas := CheckedSub(env.prepaidGas, F.GAS_FOR_FT_TRANSFER_CALL);
      if receiverGas.None? {
        return Failure(F.PrepaidGasOverflow);
      }
      var id := nextReceipt;
      pending := pending[id := F.Receipt(env.predecessor, receiver, amount)];
      nextReceipt := id + 1;
      out := out.(callback := F.Scheduled(id, receiverGas.value, msg));
      return Success(F.Promise(id));
    }

    /** Returns the used and the burned amount. */
    method InternalFtResolveTransfer(sender: AccountId, receiver: AccountId, amount: nat, result: F.PromiseResult)
      returns (r: Result<(int, nat), F.Reason>)
      requires Valid() && amount <= F.U128_MAX
      modifies this`accounts, this`totalSupply, this`out
      ensures result.NotReady? ==> r == Failure(F.PromiseNotReady)
      ensures !result.NotReady? ==>
        var refund := F.Refund(old(View()), F.Receipt(sender, receiver, amount), result);
        var left := old(accounts)[receiver := F.BalanceOf(old(View()), receiver) - refund];
        if refund == 0 then
          r == Success((amount, 0)) && View() == old(View()) && out == old(out)
        else if sender in old(accounts) then
          && r == Success((amount - refund, 0))
          && View() == old(View()).(accounts := left[sender := left[sender] + refund])
          && out == old(out).(event := F.TransferEvent(receiver, sender, refund, Some("refund")))
        else
          && r == Success((amount, refund))
          && View() == old(View()).(accounts := left, totalSupply := old(totalSupply) - refund)
          && out == old(out).(event := F.BurnEvent(receiver, refund, Some("refund")))
    {
      var unused: nat;
      match result {
        case Successful(Some(value)) => unused := Min(amount, value);
        case Successful(None) => unused := amount;
        case Failed => unused := amount;
        case NotReady => return Failure(F.PromiseNotReady);
      }
      if unused > 0 {
        var receiverBalance := if receiver in accounts then accounts[receiver] else 0;
        if receiverBalance > 0 {
          var refund := Min(receiverBalance, unused);
          R.NoOverflow(View(), receiver, sender, refund);
          match CheckedSub(receiverBalance, refund) {
            case Some(newBalance) => accounts := accounts[receiver := newBalance];
            case None => return Failure(F.ReceiverShort);
          }
          if sender in accounts {
            match CheckedAdd(accounts[sender], refund) {
              case Some(newBalance) => accounts := accounts[sender := newBalance];
              case None => return Failure(F.SenderBalanceOverflow);
            }
            out := out.(event := F.TransferEvent(receiver, sender, refund, Some("refund")));
            var used := CheckedSub(amount, refund);
            if used.None? {
              return Failure(F.TotalSupplyOverflow);
            }
            return Success((used.value, 0));
          } else {
            var supply := CheckedSub(totalSupply, refund);
            if supply.None? {
              return Failure(F.TotalSupplyOverflow);
            }
            totalSupply := supply.value;
            out := out.(event := F.BurnEvent(receiver, refund, Some("refund")));
            return Success((amount, refund));
          }
        }
      }
      return Success((amount, 0));
    }

    /** The private callback; the host runs it for a pending receipt only. */
    method FtResolveTransfer(id: nat, result: F.PromiseResult) returns (r: Result<F.Reply, F.Reason>)
      requires Valid() && out == F.QUIET
      modifies this`accounts, this`totalSupply, this`out, this`pending
      ensures Matches(r, View(), out, F.Resolve(old(View()), id, result))
    {
      if id !in pending {
        return Failure(F.PrivateMethod);
      }
      var receipt := pending[id];
      out := out.(callback := F.Resolved(id));
      var amounts :- InternalFtResolveTransfer(receipt.sender, receipt.receiver, receipt.amount, result);
      pending := pending - {id};
      if amounts.1 > 0 {
        out := out.(hook := F.OnTokensBurned(receipt.sender, amounts.1));
      }
      return Success(F.Used(amounts.0));
    }

    method StorageDeposit(env: F.Env, account: Option<AccountId>, registrationOnly: Option<bool>)
      returns (r: Result<F.Reply, F.Reason>)
      requires Valid() && out == F.QUIET
      modifies this`accounts, this`out
      ensures Matches(r, View(), out, F.Deposit(old(View()), env, account))
    {
      var amount := env.attachedDeposit;
      out := out.(received := amount);
      var id := account.GetOr(env.predecessor);
      if id in accounts {
        if amount > 0 {
          out := out.(paid := Some(F.Payment(env.predecessor, amount)));
        }
      } else {
        var minBalance := StorageBalanceMin();
        if amount < minBalance {
          return Failure(F.DepositTooSmall);
        }
        r := InternalRegisterAccount(id, true);
        if r.Failure? {
          return;
        }
        var refund := amount - minBalance;
        if refund > 0 {
          out := out.(paid := Some(F.Payment(env.predecessor, refund)));
        }
      }
      return Success(F.StorageBalance(StorageBalanceMin(), 0));
    }

    method StorageWithdraw(env: F.Env, requested: Option<F.u128>) returns (r: Result<F.Reply, F.Reason>)
      requires Valid() && out == F.QUIET
      modifies this`out
      ensures Matches(r, View(), out, F.Apply(old(View()), F.StorageWithdraw(env, requested)))
    {
      var _ :- AssertOneYocto(env);
      if env.predecessor in accounts {
        match requested {
          case Some(amount) =>
            if amount > 0 {
              return Failure(F.MoreThanAvailable);
            }
          case None =>
        }
        return Success(F.StorageBalance(StorageBalanceMin(), 0));
      }
      return Failure(F.NotRegistered(env.predecessor));
    }

    method StorageUnregister(env: F.Env, force: Option<bool>) returns (r: Result<F.Reply, F.Reason>)
      requires Valid() && out == F.QUIET
      modifies this`accounts, this`totalSupply, this`out
      ensures Matches(r, View(), out, F.Unregister(old(View()), env, force.GetOr(false)))
    {
      var _ :- AssertOneYocto(env);
      var account := env.predecessor;
      if account !in accounts {
        return Success(F.Unregistered(false));
      }
      var balance := accounts[account];
      if !(balance == 0 || force.GetOr(false)) {
        return Failure(F.PositiveBalance);
      }
      R.NoOverflow(View(), account, account, balance);
      accounts := accounts - {account};
      totalSupply := WrappingSub(totalSupply, balance);
      out := out.(paid := Some(F.Payment(account, StorageBalanceMin() + 1)), event := F.Closed(account, balance));
      out := out.(hook := F.OnAccountClosed(account, balance));
      return Success(F.Unregistered(true));
    }

    /** One transaction: the host undoes everything a panicking call did. */
    method Execute(c: F.Call) returns (r: Result<F.Reply, F.Reason>)
      requires Valid() && out == F.QUIET
      modifies this
      ensures Valid() && out == F.QUIET
      ensures View() == F.Step(old(View()), c)
      ensures match F.Apply(old(View()), c)
        case Done(_, reply, _) => r == Success(reply)
        case Panicked(why) => r == Failure(why)
    {
      var before := (accounts, totalSupply, pending, nextReceipt);
      T.StepConserves(View(), c);
      T.StepKeepsInFlight(View(), c);
      r := Dispatch(c);
      if r.Success? {
        log := F.Then(log, out);
      } else {
        accounts, totalSupply, pending, nextReceipt := before.0, before.1, before.2, before.3;
      }
      out := F.QUIET;
    }

    method Dispatch(c: F.Call) returns (r: Result<F.Reply, F.Reason>)
      requires Valid() && out == F.QUIET
      modifies this`accounts, this`totalSupply, this`out, this`pending, this`nextReceipt
      ensures Matches(r, View(), out, F.Apply(old(View()), c))
    {
      match c {
        case FtTransfer(env, receiver, amount, memo) => r := FtTransfer(env, receiver, amount, memo);
        case FtTransferCall(env, receiver, amount, memo, msg) => r := FtTransferCall(env, receiver, amount, memo, msg);
        case FtResolveTransfer(id, result) => r := FtResolveTransfer(id, result);
        case StorageDeposit(env, account, registrationOnly) => r := StorageDeposit(env, account, registrationOnly);
        case StorageWithdraw(env, requested) => r := StorageWithdraw(env, requested);
        case StorageUnregister(env, force) => r := StorageUnregister(env, force);
        case InternalRegisterAccount(id) => r := InternalRegisterAccount(id, false);
        case InternalDeposit(id, amount) =>
          r := InternalDeposit(id, amount);
          out := out.(event := F.Deposited(id, amount));
        case InternalWithdraw(id, amount) =>
          r := InternalWithdraw(id, amount);
          out := out.(event := F.Withdrawn(id, amount));
      }
    }
  }
}
