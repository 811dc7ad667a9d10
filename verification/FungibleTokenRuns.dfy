/** The theorems about whole runs of the fungible token. */
module FungibleTokenRuns {
  import opened Prelude
  import opened FungibleToken
  import opened FungibleTokenTheorems
  import opened FungibleTokenCalls

  /** Whatever is called, in whatever order, every invariant survives. */
  lemma {:induction false} RunKeepsInv(s: State, calls: seq<Call>)
    requires Inv(s)
    ensures Inv(Run(s, calls))
  {
    if calls != [] {
      var before := Run(s, calls[..|calls| - 1]);
      var c := calls[|calls| - 1];
      RunKeepsInv(s, calls[..|calls| - 1]);
      StepConserves(before, c);
      StepKeepsInFlight(before, c);
      StepReplays(before, c);
      StepAccountsForSupply(before, c);
      StepBalancesLedger(before, c);
      StepResolvesOnce(before, c);
    }
  }

  lemma InitialInv(minBalance: nat)
    ensures Inv(Initial(minBalance))
  {
  }

  // Log replay and supply

  /** An observer of the log knows every balance and the supply, at any point of any run. */
  lemma LogReplay(minBalance: nat, calls: seq<Call>)
    ensures var s := Run(Initial(minBalance), calls);
      && Replay(s.log) == Book(s.accounts, s.totalSupply)
      && s.totalSupply == Tally(s.log, SupplyFlow)
  {
    InitialInv(minBalance);
    RunKeepsInv(Initial(minBalance), calls);
  }

  /** The supply is always the sum of the balances and fits 128 bits. */
  lemma SupplyIsSumOfBalances(minBalance: nat, calls: seq<Call>)
    ensures var s := Run(Initial(minBalance), calls);
      Total(s.accounts) == s.totalSupply <= U128_MAX
  {
    InitialInv(minBalance);
    RunKeepsInv(Initial(minBalance), calls);
  }

  /** Why the overflow checks of a transfer, a refund, a burn and an unregistration never fire. */
  lemma NoOverflow(s: State, a: AccountId, b: AccountId, amount: nat)
    requires Conserved(s)
    requires a in s.accounts && amount <= s.accounts[a]
    ensures amount <= s.accounts[a] <= s.totalSupply <= U128_MAX
    ensures b in s.accounts && a != b ==> s.accounts[b] + amount <= U128_MAX
    ensures b in s.accounts && a != b ==> s.accounts[b] + s.accounts[a] <= s.totalSupply
  {
    SumSplit(s.accounts, BalanceWeight, a);
    if b in s.accounts && a != b {
      TwoWithinTotal(s.accounts, a, b);
    }
  }

  // Refunds, whatever ran in between

  lemma {:induction false} PendingIsStable(s: State, calls: seq<Call>, id: nat)
    requires InFlight(s) && id < s.nextReceipt
    ensures InFlight(Run(s, calls)) && id < Run(s, calls).nextReceipt
    ensures id in Run(s, calls).pending ==> id in s.pending && Run(s, calls).pending[id] == s.pending[id]
  {
    if calls != [] {
      PendingIsStable(s, calls[..|calls| - 1], id);
      StepKeepsInFlight(Run(s, calls[..|calls| - 1]), calls[|calls| - 1]);
    }
  }

  /**
   A callback settles the transfer it belongs to, whatever ran in between: what the receiver did
   not use and still has goes back to a registered sender and is burned otherwise. The registered
   accounts stay the same and nobody else's balance moves.
   */
  lemma ResolveAfterAnything(s: State, env: Env, receiver: AccountId, amount: u128, memo: Option<string>,
                             msg: string, between: seq<Call>, result: PromiseResult)
    requires Inv(s) && !result.NotReady?
    requires TransferCall(s, env, receiver, amount, memo, msg).Done?
    requires s.nextReceipt in Run(Step(s, FtTransferCall(env, receiver, amount, memo, msg)), between).pending
    ensures
      var u := Run(Step(s, FtTransferCall(env, receiver, amount, memo, msg)), between);
      var o := Apply(u, FtResolveTransfer(s.nextReceipt, result));
      var held := BalanceOf(u, receiver);
      && (NoAnswer(result) ==> Settled(u, o, s.nextReceipt, env.predecessor, receiver, amount, Min(held, amount)))
      && (forall unused: nat :: Answers(result, unused) ==>
           Settled(u, o, s.nextReceipt, env.predecessor, receiver, amount, Min(held, Min(amount, unused))))
      && (Answers(result, 0) ==> o.next == u.(pending := u.pending - {s.nextReceipt}))
  {
    var t := Step(s, FtTransferCall(env, receiver, amount, memo, msg));
    StepKeepsInFlight(s, FtTransferCall(env, receiver, amount, memo, msg));
    PendingIsStable(t, between, s.nextReceipt);
    var u := Run(t, between);
    assert u.pending[s.nextReceipt] == Receipt(env.predecessor, receiver, amount);
    AnswerDecidesRefund(u, s.nextReceipt, result);
  }

  /**
   A transfer call that is refused in full before anything else runs is undone in full: the receiver
   failed, did not answer with an amount, or answered that at least all of it was not used.
   */
  lemma RefusedTransferIsUndone(s: State, env: Env, receiver: AccountId, amount: u128, memo: Option<string>,
                                msg: string, result: PromiseResult)
    requires InFlight(s)
    requires result == Failed || result == Successful(None)
          || (result.Successful? && result.unused.Some? && result.unused.value >= amount)
    requires TransferCall(s, env, receiver, amount, memo, msg).Done?
    ensures
      var v := Step(Step(s, FtTransferCall(env, receiver, amount, memo, msg)), FtResolveTransfer(s.nextReceipt, result));
      v.accounts == s.accounts && v.totalSupply == s.totalSupply && v.pending == s.pending
  {
  }

  /** Every scheduled callback is resolved at most once, and exactly the unresolved ones are pending. */
  lemma CallbacksResolveOnce(minBalance: nat, calls: seq<Call>, id: nat)
    ensures var s := Run(Initial(minBalance), calls);
      && Tally(s.log, ResolvedAs(id)) <= Tally(s.log, ScheduledAs(id)) <= 1
      && (id in s.pending <==> Tally(s.log, ScheduledAs(id)) == 1 && Tally(s.log, ResolvedAs(id)) == 0)
  {
    InitialInv(minBalance);
    RunKeepsInv(Initial(minBalance), calls);
    assert OnceScheduled(Run(Initial(minBalance), calls), id);
  }

  // An account that does nothing

  function ExposureTo(x: AccountId): (nat, Receipt) -> nat {
    (id: nat, r: Receipt) => if r.receiver == x then r.amount else 0
  }

  /** What account x received by transfer calls that may still be taken back. */
  ghost function Exposure(s: State, x: AccountId): nat {
    SumMap(s.pending, ExposureTo(x))
  }

  /** The calls made by account x, and what the contract itself does to x. */
  predicate ActsFor(c: Call, x: AccountId) {
    match c
    case FtResolveTransfer(_, _) => false
    case InternalRegisterAccount(_) => false
    case InternalDeposit(_, _) => false
    case InternalWithdraw(id, _) => id == x
    case _ => c.env.predecessor == x
  }

  /** What x holds, less what can still be taken back from it. */
  ghost function Secure(s: State, x: AccountId): int {
    BalanceOf(s, x) - Exposure(s, x)
  }

  lemma IdleResolve(s: State, id: nat, result: PromiseResult, x: AccountId)
    requires InFlight(s) && x in s.accounts
    ensures var t := Step(s, FtResolveTransfer(id, result)); x in t.accounts && Secure(t, x) >= Secure(s, x)
  {
    if id in s.pending {
      SumUpdate(s.pending, ExposureTo(x), id, s.pending[id]);
    }
  }

  lemma IdleStep(s: State, c: Call, x: AccountId)
    requires InFlight(s) && x in s.accounts && !ActsFor(c, x)
    ensures var t := Step(s, c); x in t.accounts && Secure(t, x) >= Secure(s, x)
  {
    match c {
      case FtTransferCall(env, receiver, amount, _, _) =>
        SumUpdate(s.pending, ExposureTo(x), s.nextReceipt, Receipt(env.predecessor, receiver, amount));
      case FtResolveTransfer(id, result) => IdleResolve(s, id, result, x);
      case _ =>
    }
  }

  /**
   An account that makes no call stays registered and loses nothing but what was sent to it by
   transfer calls that had not been settled when it went idle.
   */
  lemma {:induction false} IdleAccountKeepsItsBalance(s: State, calls: seq<Call>, x: AccountId)
    requires InFlight(s) && x in s.accounts
    requires forall c :: c in calls ==> !ActsFor(c, x)
    ensures var t := Run(s, calls);
      && InFlight(t)
      && x in t.accounts
      && Secure(t, x) >= Secure(s, x)
  {
    if calls != [] {
      var before := Run(s, calls[..|calls| - 1]);
      IdleAccountKeepsItsBalance(s, calls[..|calls| - 1], x);
      StepKeepsInFlight(before, calls[|calls| - 1]);
      IdleStep(before, calls[|calls| - 1], x);
    }
  }

  // The NEAR ledger

  ghost function NearKept(s: State): int {
    Tally(s.log, NearFlow)
  }

  /** The exact ledger of any run: accounts the contract registered itself have nothing set aside. */
  lemma LedgerIsExact(minBalance: nat, calls: seq<Call>)
    ensures var s := Run(Initial(minBalance), calls);
      NearKept(s) == s.minBalance * AccountsLessFree(s) + Tally(s.log, YoctoKept)
  {
    InitialInv(minBalance);
    RunKeepsInv(Initial(minBalance), calls);
  }

  /** So every registered account is paid for just when the contract registered none itself. */
  lemma LedgerCoversAllExactly(s: State)
    requires LedgerBalanced(s)
    ensures NearKept(s) == s.minBalance * |s.accounts| + Tally(s.log, YoctoKept)
       <==> s.minBalance == 0 || Tally(s.log, FreeRegistration) == 0
  {
    Difference(s.minBalance, |s.accounts|, Tally(s.log, FreeRegistration));
  }

  lemma Difference(k: nat, n: int, free: int)
    ensures k * (n - free) == k * n <==> k == 0 || free == 0
  {
    assert k * (n - free) == k * n - k * free;
    if k > 0 && free > 0 {
      assert k * free > 0;
    } else if k > 0 && free < 0 {
      assert k * free < 0;
    }
  }

  lemma NothingFreeStep(s: State, c: Call)
    requires !c.InternalRegisterAccount?
    ensures var t := Step(s, c);
      && Tally(t.log, FreeRegistration) == Tally(s.log, FreeRegistration)
      && Tally(t.log, YoctoKept) >= Tally(s.log, YoctoKept)
      && t.minBalance == s.minBalance
  {
  }

  lemma {:induction false} NothingFree(s: State, calls: seq<Call>)
    requires forall c :: c in calls ==> !c.InternalRegisterAccount?
    ensures var t := Run(s, calls);
      && Tally(t.log, FreeRegistration) == Tally(s.log, FreeRegistration)
      && Tally(t.log, YoctoKept) >= Tally(s.log, YoctoKept)
      && t.minBalance == s.minBalance
  {
    if calls != [] {
      NothingFree(s, calls[..|calls| - 1]);
      NothingFreeStep(Run(s, calls[..|calls| - 1]), calls[|calls| - 1]);
    }
  }

  /**
   When every account came through storage_deposit, the contract has kept the minimum balance of
   each registered account and one yocto for each one-yocto call that did not close an account.
   */
  lemma StorageDepositsAreKept(minBalance: nat, calls: seq<Call>)
    requires forall c :: c in calls ==> !c.InternalRegisterAccount?
    ensures var s := Run(Initial(minBalance), calls);
      NearKept(s) == minBalance * |s.accounts| + Tally(s.log, YoctoKept) >= minBalance * |s.accounts|
  {
    LedgerIsExact(minBalance, calls);
    NothingFree(Initial(minBalance), calls);
  }

  /**
   The NEAR kept covers closing every registered account just when the yoctos kept from one-yocto
   calls make up for the accounts that the contract registered itself.
   */
  lemma ClosingAllIsCovered(s: State)
    requires LedgerBalanced(s)
    ensures NearKept(s) >= s.minBalance * |s.accounts|
       <==> s.minBalance * Tally(s.log, FreeRegistration) <= Tally(s.log, YoctoKept)
  {
    Distributes(s.minBalance, |s.accounts|, Tally(s.log, FreeRegistration));
  }

  lemma Distributes(k: int, a: int, b: int)
    ensures k * (a - b) == k * a - k * b
  {
  }

  /**
   Closing an account pays its owner min + 1, one yocto of it just attached. That is there just when
   the accounts besides this one and the yoctos kept make up for the registrations the contract ever
   made itself, so always if it made none.
   */
  lemma ClosingIsCovered(minBalance: nat, calls: seq<Call>, env: Env, force: Option<bool>)
    requires var s := Run(Initial(minBalance), calls);
      env.predecessor in s.accounts && Apply(s, StorageUnregister(env, force)).Done?
    ensures
      var s := Run(Initial(minBalance), calls);
      var close := StorageUnregister(env, force);
      && Apply(s, close).out.paid == Some(Payment(env.predecessor, s.minBalance + 1))
      && NearKept(Step(s, close)) == NearKept(s) - s.minBalance
      && (NearKept(s) >= s.minBalance <==> OneAccountCovered(s))
      && ((forall c :: c in calls ==> !c.InternalRegisterAccount?) ==> NearKept(s) >= s.minBalance)
  {
    LedgerIsExact(minBalance, calls);
    CloseCosts(Run(Initial(minBalance), calls), env, force);
    if forall c :: c in calls ==> !c.InternalRegisterAccount? {
      OneIsCoveredAlways(minBalance, calls, env.predecessor);
    }
  }

  /** The accounts besides one and the kept yoctos make up for the registrations the contract made itself. */
  predicate OneAccountCovered(s: State) {
    s.minBalance * Tally(s.log, FreeRegistration) <= s.minBalance * (|s.accounts| - 1) + Tally(s.log, YoctoKept)
  }

  lemma CloseCosts(s: State, env: Env, force: Option<bool>)
    requires LedgerBalanced(s)
    requires env.predecessor in s.accounts && Apply(s, StorageUnregister(env, force)).Done?
    ensures Apply(s, StorageUnregister(env, force)).out.paid == Some(Payment(env.predecessor, s.minBalance + 1))
    ensures NearKept(Step(s, StorageUnregister(env, force))) == NearKept(s) - s.minBalance
    ensures NearKept(s) >= s.minBalance <==> OneAccountCovered(s)
  {
    OneIsCovered(s.minBalance, |s.accounts|, Tally(s.log, FreeRegistration), Tally(s.log, YoctoKept), NearKept(s));
  }

  lemma OneIsCovered(k: nat, accounts: nat, free: int, yocto: int, near: int)
    requires near == k * (accounts - free) + yocto
    ensures near >= k <==> k * free <= k * (accounts - 1) + yocto
  {
    Distributes(k, accounts, free);
    Distributes(k, accounts, 1);
  }

  lemma OneIsCoveredAlways(minBalance: nat, calls: seq<Call>, account: AccountId)
    requires forall c :: c in calls ==> !c.InternalRegisterAccount?
    requires account in Run(Initial(minBalance), calls).accounts
    ensures NearKept(Run(Initial(minBalance), calls)) >= Run(Initial(minBalance), calls).minBalance
  {
    StorageDepositsAreKept(minBalance, calls);
    MinBalanceStays(Initial(minBalance), calls);
    var accounts := Run(Initial(minBalance), calls).accounts;
    SizeWithout(accounts, account);
    AtLeastOnce(minBalance, |accounts|);
  }

  lemma {:induction false} MinBalanceStays(s: State, calls: seq<Call>)
    ensures Run(s, calls).minBalance == s.minBalance
  {
    if calls != [] {
      MinBalanceStays(s, calls[..|calls| - 1]);
    }
  }

  lemma AtLeastOnce(k: nat, n: nat)
    requires n >= 1
    ensures k * n >= k
  {
    assert k * n == k * (n - 1) + k;
  }

  /** An account the contract registered itself is closed at the expense of the others. */
  lemma FreeAccountIsNotCovered(minBalance: nat, account: AccountId)
    ensures var close := StorageUnregister(Env(account, 1, 0), None);
      var s := Run(Initial(minBalance), [InternalRegisterAccount(account), close]);
      NearKept(s) == 0 - minBalance
  {
    var close := StorageUnregister(Env(account, 1, 0), None);
    var calls := [InternalRegisterAccount(account), close];
    assert calls[..1] == [InternalRegisterAccount(account)];
    assert calls[..1][..0] == [];
    var s := Step(Initial(minBalance), InternalRegisterAccount(account));
    assert Run(Initial(minBalance), calls[..1]) == s;
    assert Run(Initial(minBalance), calls) == Step(s, close);
    assert s.log == Then(Empty, QUIET.(event := Registered(account, false)));
    assert Tally(Empty, NearFlow) == 0 && Tally(s.log, NearFlow) == 0;
  }

  /** Registering with a deposit and closing again changes nothing and costs nothing. */
  lemma RegistrationIsRefunded(s: State, env: Env, account: Option<AccountId>, registrationOnly: Option<bool>, force: Option<bool>)
    requires account.GetOr(env.predecessor) !in s.accounts && env.attachedDeposit >= s.minBalance
    ensures
      var t := Step(s, StorageDeposit(env, account, registrationOnly));
      var u := Step(t, StorageUnregister(Env(account.GetOr(env.predecessor), 1, 0), force));
      && u.accounts == s.accounts
      && u.totalSupply == s.totalSupply
      && NearKept(u) == NearKept(s)
  {
    var id := account.GetOr(env.predecessor);
    var t := Step(s, StorageDeposit(env, account, registrationOnly));
    var u := Step(t, StorageUnregister(Env(id, 1, 0), force));
    assert NearKept(t) == NearKept(s) + s.minBalance;
    assert NearKept(u) == NearKept(t) - s.minBalance;
  }
}
