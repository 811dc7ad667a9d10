/**
 What each call to the fungible token promises its caller, in terms of balances and payments: when
 it goes through, whose balance changes by how much, and who is paid.
 */
module FungibleTokenCalls {
  import opened Prelude
  import opened FungibleToken
  import opened FungibleTokenTheorems

  // Transfers

  /** The caller can pay the amount to another registered account. */
  predicate CanPay(s: State, env: Env, receiver: AccountId, amount: nat) {
    && env.attachedDeposit == 1
    && env.predecessor in s.accounts && receiver in s.accounts && env.predecessor != receiver
    && 0 < amount <= s.accounts[env.predecessor]
  }

  /** The amount went from one account to the other, and nothing else happened to any account. */
  ghost predicate Moved(s: State, t: State, from: AccountId, to: AccountId, amount: nat) {
    && t.accounts.Keys == s.accounts.Keys
    && BalanceOf(t, from) == BalanceOf(s, from) - amount
    && BalanceOf(t, to) == BalanceOf(s, to) + amount
    && (forall a :: a != from && a != to ==> BalanceOf(t, a) == BalanceOf(s, a))
    && t.totalSupply == s.totalSupply
    && t.minBalance == s.minBalance
  }

  /** ft_transfer moves exactly the amount asked for, or nothing. */
  lemma TransferMovesAmount(s: State, env: Env, receiver: AccountId, amount: u128, memo: Option<string>)
    ensures var c := FtTransfer(env, receiver, amount, memo); var o := Apply(s, c); var t := Step(s, c);
      && (o.Done? <==> CanPay(s, env, receiver, amount))
      && (o.Done? ==>
           && Moved(s, t, env.predecessor, receiver, amount)
           && t.pending == s.pending && t.nextReceipt == s.nextReceipt
           && o.out.event == TransferEvent(env.predecessor, receiver, amount, memo)
           && o.out.paid == None)
      && (o.Panicked? ==> t == s)
  {
  }

  /** ft_transfer_call moves the same, and schedules the callback for the amount the receiver got. */
  lemma TransferCallMovesAmount(s: State, env: Env, receiver: AccountId, amount: u128, memo: Option<string>, msg: string)
    ensures var c := FtTransferCall(env, receiver, amount, memo, msg); var o := Apply(s, c); var t := Step(s, c);
      && (o.Done? <==> CanPay(s, env, receiver, amount) && env.prepaidGas > 30_000_000_000_000)
      && (o.Done? ==>
           && Moved(s, t, env.predecessor, receiver, amount)
           && t.nextReceipt == s.nextReceipt + 1
           && t.pending == s.pending[s.nextReceipt := Receipt(env.predecessor, receiver, amount)]
           && o.reply == Promise(s.nextReceipt)
           && o.out.callback == Scheduled(s.nextReceipt, env.prepaidGas - 30_000_000_000_000, msg)
           && o.out.event == TransferEvent(env.predecessor, receiver, amount, memo)
           && o.out.paid == None)
      && (o.Panicked? ==> t == s)
  {
  }

  // The callback

  /** The callback took the refund back from the receiver, for the sender or to be burned. */
  ghost predicate Settled(s: State, o: Outcome, id: nat, sender: AccountId, receiver: AccountId, amount: int, refund: int) {
    && o.Done?
    && o.next.accounts.Keys == s.accounts.Keys
    && o.next.pending == s.pending - {id}
    && BalanceOf(o.next, receiver) == BalanceOf(s, receiver) - refund
    && (forall a :: a != sender && a != receiver ==> BalanceOf(o.next, a) == BalanceOf(s, a))
    && (sender in s.accounts ==>
         && BalanceOf(o.next, sender) == BalanceOf(s, sender) + refund
         && o.reply == Used(amount - refund)
         && o.next.totalSupply == s.totalSupply
         && o.out.event == (if refund > 0 then TransferEvent(receiver, sender, refund, Some("refund")) else NoEvent)
         && o.out.hook == NoHook)
    && (sender !in s.accounts ==>
         && o.reply == Used(amount)
         && o.next.totalSupply == s.totalSupply - refund
         && o.out.event == (if refund > 0 then BurnEvent(receiver, refund, Some("refund")) else NoEvent)
         && o.out.hook == (if refund > 0 then OnTokensBurned(sender, refund) else NoHook))
  }

  /** The call failed, or answered with something that is not an amount. */
  predicate NoAnswer(result: PromiseResult) {
    result == Failed || result == Successful(None)
  }

  /** The receiver answered that so much was not used. */
  predicate Answers(result: PromiseResult, unused: nat) {
    result.Successful? && result.unused.Some? && result.unused.value == unused
  }

  /**
   An answer is the amount not used: that much is taken back, as far as the receiver has it, but no
   more than was sent. Without an answer everything is taken back, and an answer of 0 moves nothing.
   */
  lemma AnswerDecidesRefund(s: State, id: nat, result: PromiseResult)
    requires InFlight(s) && id in s.pending && !result.NotReady?
    ensures var r := s.pending[id]; var o := Apply(s, FtResolveTransfer(id, result)); var held := BalanceOf(s, r.receiver);
      && (NoAnswer(result) ==> Settled(s, o, id, r.sender, r.receiver, r.amount, Min(held, r.amount)))
      && (forall unused: nat :: Answers(result, unused) ==>
           Settled(s, o, id, r.sender, r.receiver, r.amount, Min(held, Min(r.amount, unused))))
      && (Answers(result, 0) ==> o.next == s.(pending := s.pending - {id}) && o.reply == Used(r.amount))
  {
  }

  /** Nobody can call the callback, and the host has to wait for the answer. */
  lemma CallbackWaits(s: State, id: nat, result: PromiseResult)
    requires InFlight(s)
    ensures Apply(s, FtResolveTransfer(id, result)).Done? <==> id in s.pending && !result.NotReady?
  {
  }

  // Storage

  /** storage_deposit registers the account named, or its caller, and sends the caller back all but the minimum. */
  lemma DepositRegisters(s: State, env: Env, account: Option<AccountId>, registrationOnly: Option<bool>)
    ensures var c := StorageDeposit(env, account, registrationOnly); var o := Apply(s, c); var t := Step(s, c);
      var id := if account.Some? then account.value else env.predecessor;
      var kept := if id in s.accounts then 0 else s.minBalance;
      && (o.Done? <==> env.attachedDeposit >= kept)
      && (o.Done? ==>
           && t.accounts.Keys == s.accounts.Keys + {id}
           && (forall a :: BalanceOf(t, a) == BalanceOf(s, a))
           && t.totalSupply == s.totalSupply && t.pending == s.pending
           && o.out.received == env.attachedDeposit
           && o.out.paid == (if env.attachedDeposit > kept then Some(Payment(env.predecessor, env.attachedDeposit - kept)) else None)
           && o.reply == StorageBalance(s.minBalance, 0))
      && (o.Panicked? ==> t == s)
  {
  }

  /** storage_withdraw has nothing to give: it goes through for a registered account that asks for nothing. */
  lemma WithdrawGivesNothing(s: State, env: Env, requested: Option<u128>)
    ensures var c := StorageWithdraw(env, requested); var o := Apply(s, c); var t := Step(s, c);
      && (o.Done? <==>
           env.attachedDeposit == 1 && env.predecessor in s.accounts && (requested == None || requested == Some(0)))
      && t.accounts == s.accounts && t.totalSupply == s.totalSupply && t.pending == s.pending
      && (o.Done? ==> o.out.paid == None && o.reply == StorageBalance(s.minBalance, 0))
  {
  }

  /** storage_unregister closes the caller's account; one that still holds tokens only by force. */
  lemma UnregisterCloses(s: State, env: Env, force: Option<bool>)
    ensures var c := StorageUnregister(env, force); var o := Apply(s, c); var t := Step(s, c);
      var id := env.predecessor;
      && (o.Done? <==> env.attachedDeposit == 1 && (BalanceOf(s, id) == 0 || force == Some(true)))
      && (o.Done? ==>
           && t.accounts.Keys == s.accounts.Keys - {id}
           && (forall a :: a != id ==> BalanceOf(t, a) == BalanceOf(s, a))
           && t.totalSupply == s.totalSupply - BalanceOf(s, id) && t.pending == s.pending
           && o.reply == Unregistered(id in s.accounts)
           && o.out.paid == (if id in s.accounts then Some(Payment(id, s.minBalance + 1)) else None)
           && o.out.hook == (if id in s.accounts then OnAccountClosed(id, BalanceOf(s, id)) else NoHook))
      && (o.Panicked? ==> t == s)
  {
  }

  // What the contract around the token may do

  lemma RegisteringAddsAccount(s: State, id: AccountId)
    ensures var c := InternalRegisterAccount(id); var o := Apply(s, c); var t := Step(s, c);
      && (o.Done? <==> id !in s.accounts)
      && (o.Done? ==>
           && t.accounts.Keys == s.accounts.Keys + {id} && (forall a :: BalanceOf(t, a) == BalanceOf(s, a))
           && t.totalSupply == s.totalSupply && t.pending == s.pending)
      && (o.Panicked? ==> t == s)
  {
  }

  /** One balance and the supply changed by the same amount. */
  ghost predicate Minted(s: State, t: State, id: AccountId, amount: int) {
    && t.accounts.Keys == s.accounts.Keys
    && BalanceOf(t, id) == BalanceOf(s, id) + amount
    && (forall a :: a != id ==> BalanceOf(t, a) == BalanceOf(s, a))
    && t.totalSupply == s.totalSupply + amount
    && t.pending == s.pending
  }

  /** internal_deposit and internal_withdraw change one balance and the supply by the amount. */
  lemma DepositAndWithdrawMint(s: State, id: AccountId, amount: u128)
    requires Conserved(s)
    ensures var c := InternalDeposit(id, amount);
      && (Apply(s, c).Done? <==> id in s.accounts && s.totalSupply + amount <= U128_MAX)
      && (Apply(s, c).Done? ==> Minted(s, Step(s, c), id, amount))
    ensures var c := InternalWithdraw(id, amount);
      && (Apply(s, c).Done? <==> id in s.accounts && amount <= s.accounts[id])
      && (Apply(s, c).Done? ==> Minted(s, Step(s, c), id, 0 - amount))
  {
    if id in s.accounts {
      SumSplit(s.accounts, BalanceWeight, id);
    }
  }
}
