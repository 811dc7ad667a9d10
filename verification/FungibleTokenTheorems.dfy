/** The invariants of the fungible token, and what a single call does to each of them. */
module FungibleTokenTheorems {
  import opened Prelude
  import opened FungibleToken

  // Sums of balances

  function BalanceWeight(account: AccountId, balance: nat): nat { balance }

  ghost function Total(accounts: map<AccountId, nat>): nat {
    SumMap(accounts, BalanceWeight)
  }

  lemma TotalUpdate(accounts: map<AccountId, nat>, a: AccountId, v: nat)
    ensures Total(accounts[a := v]) == Total(accounts) - (if a in accounts then accounts[a] else 0) + v
    ensures Total(accounts - {a}) == Total(accounts) - (if a in accounts then accounts[a] else 0)
  {
    SumUpdate(accounts, BalanceWeight, a, v);
  }

  lemma TwoWithinTotal(accounts: map<AccountId, nat>, a: AccountId, b: AccountId)
    requires a in accounts && b in accounts && a != b
    ensures accounts[a] + accounts[b] <= Total(accounts)
  {
    SumSplit(accounts, BalanceWeight, a);
    SumSplit(accounts - {a}, BalanceWeight, b);
  }

  // The invariants

  /** The balances add up to the total supply, which fits 128 bits. */
  ghost predicate Conserved(s: State) {
    Total(s.accounts) == s.totalSupply <= U128_MAX
  }

  /** Every pending callback is for a positive amount between two different accounts. */
  ghost predicate InFlight(s: State) {
    forall id :: id in s.pending ==>
      var r := s.pending[id];
      id < s.nextReceipt && r.sender != r.receiver && 0 < r.amount <= U128_MAX
  }

  /** Replaying the log gives the balances and the supply. */
  ghost predicate Replayed(s: State) {
    Replay(s.log) == Book(s.accounts, s.totalSupply)
  }

  /** What a call adds to the supply: deposits in, withdrawals and what the two hooks report out. */
  function SupplyFlow(out: Out): int {
    (match out.event
     case Deposited(_, x) => x
     case Withdrawn(_, x) => 0 - x
     case _ => 0)
    - (match out.hook
       case OnTokensBurned(_, x) => x
       case OnAccountClosed(_, x) => x
       case NoHook => 0)
  }

  ghost predicate SupplyAccounted(s: State) {
    s.totalSupply == Tally(s.log, SupplyFlow)
  }

  function NearFlow(out: Out): int {
    out.received - if out.paid.Some? then out.paid.value.amount else 0
  }

  /** One-yocto calls whose yocto stayed: all of them but those that closed an account. */
  function YoctoKept(out: Out): int {
    if out.oneYocto && !out.hook.OnAccountClosed? then 1 else 0
  }

  /** Accounts registered by the contract itself, without a storage deposit. */
  function FreeRegistration(out: Out): int {
    if out.event.Registered? && !out.event.paid then 1 else 0
  }

  /** The NEAR kept pays for every account but the free ones, and holds the kept yoctos. */
  ghost predicate LedgerBalanced(s: State) {
    Tally(s.log, NearFlow)
    == s.minBalance * AccountsLessFree(s) + Tally(s.log, YoctoKept)
  }

  function ScheduledAs(id: nat): Out -> int {
    (out: Out) => if out.callback.Scheduled? && out.callback.id == id then 1 else 0
  }

  function ResolvedAs(id: nat): Out -> int {
    (out: Out) => if out.callback.Resolved? && out.callback.id == id then 1 else 0
  }

  /** Every issued callback was scheduled once, and resolved once unless it is still pending. */
  ghost predicate ResolvedOnce(s: State) {
    forall id: nat :: OnceScheduled(s, id)
  }

  ghost predicate OnceScheduled(s: State, id: nat) {
    && Tally(s.log, ScheduledAs(id)) == (if id < s.nextReceipt then 1 else 0)
    && Tally(s.log, ResolvedAs(id)) == (if id < s.nextReceipt && id !in s.pending then 1 else 0)
  }

  ghost predicate Inv(s: State) {
    && Conserved(s)
    && InFlight(s)
    && Replayed(s)
    && SupplyAccounted(s)
    && LedgerBalanced(s)
    && ResolvedOnce(s)
  }

  /** Calls that neither move tokens between accounts nor touch the pending callbacks. */
  predicate IsAccountCall(c: Call) {
    !c.FtTransfer? && !c.FtTransferCall? && !c.FtResolveTransfer?
  }

  // One step keeps the balances equal to the supply

  lemma TransferConserves(s: State, sender: AccountId, receiver: AccountId, amount: nat, memo: Option<string>)
    requires Conserved(s)
    ensures var o := Transfer(s, sender, receiver, amount, memo); o.Done? ==> Conserved(o.next)
  {
    if Transfer(s, sender, receiver, amount, memo).Done? {
      var debited := s.accounts[sender := s.accounts[sender] - amount];
      TotalUpdate(s.accounts, sender, s.accounts[sender] - amount);
      TotalUpdate(debited, receiver, s.accounts[receiver] + amount);
    }
  }

  lemma ResolveConserves(s: State, id: nat, result: PromiseResult)
    requires Conserved(s)
    ensures var o := Resolve(s, id, result); o.Done? ==> Conserved(o.next)
  {
    if Resolve(s, id, result).Done? {
      var r := s.pending[id];
      var refund := Refund(s, r, result);
      var left := BalanceOf(s, r.receiver) - refund;
      TotalUpdate(s.accounts, r.receiver, left);
      var refunded := s.accounts[r.receiver := left];
      TotalUpdate(refunded, r.sender, if r.sender in refunded then refunded[r.sender] + refund else 0);
    }
  }

  lemma AccountCallConserves(s: State, c: Call)
    requires Conserved(s) && IsAccountCall(c)
    ensures Conserved(Step(s, c))
  {
    match c {
      case StorageDeposit(env, account, _) =>
        TotalUpdate(s.accounts, account.GetOr(env.predecessor), 0);
      case StorageUnregister(env, force) =>
        TotalUpdate(s.accounts, env.predecessor, 0);
      case InternalRegisterAccount(id) =>
        TotalUpdate(s.accounts, id, 0);
      case InternalDeposit(id, amount) =>
        TotalUpdate(s.accounts, id, BalanceOf(s, id) + amount);
      case InternalWithdraw(id, amount) =>
        TotalUpdate(s.accounts, id, if amount <= BalanceOf(s, id) then BalanceOf(s, id) - amount else 0);
      case _ =>
    }
  }

  lemma StepConserves(s: State, c: Call)
    requires Conserved(s)
    ensures Conserved(Step(s, c))
  {
    match c {
      case FtTransfer(env, receiver, amount, memo) =>
        TransferConserves(s, env.predecessor, receiver, amount, memo);
      case FtTransferCall(env, receiver, amount, memo, msg) =>
        TransferConserves(s, env.predecessor, receiver, amount, memo);
      case FtResolveTransfer(id, result) => ResolveConserves(s, id, result);
      case _ => AccountCallConserves(s, c);
    }
  }

  // One step keeps the log readable as the balances and the supply

  lemma ResolveReplays(s: State, id: nat, result: PromiseResult)
    requires Replayed(s)
    ensures Replayed(Step(s, FtResolveTransfer(id, result)))
  {
  }

  lemma TransferReplays(s: State, sender: AccountId, receiver: AccountId, amount: nat, memo: Option<string>)
    requires Replayed(s)
    ensures var o := Transfer(s, sender, receiver, amount, memo); o.Done? ==>
      Post(Replay(s.log), o.out.event) == Book(o.next.accounts, o.next.totalSupply)
  {
  }

  lemma StepReplays(s: State, c: Call)
    requires Replayed(s)
    ensures Replayed(Step(s, c))
  {
    match c {
      case FtTransfer(env, receiver, amount, memo) => TransferReplays(s, env.predecessor, receiver, amount, memo);
      case FtTransferCall(env, receiver, amount, memo, _) => TransferReplays(s, env.predecessor, receiver, amount, memo);
      case FtResolveTransfer(id, result) => ResolveReplays(s, id, result);
      case _ =>
    }
  }

  lemma StepAccountsForSupply(s: State, c: Call)
    requires SupplyAccounted(s)
    ensures SupplyAccounted(Step(s, c))
  {
  }

  // One step keeps the callbacks and the NEAR ledger in order

  lemma StepKeepsInFlight(s: State, c: Call)
    requires InFlight(s)
    ensures InFlight(Step(s, c))
  {
  }

  lemma StepResolvesOnce(s: State, c: Call)
    requires InFlight(s) && ResolvedOnce(s)
    ensures ResolvedOnce(Step(s, c))
  {
    forall id: nat
      ensures OnceScheduled(Step(s, c), id)
    {
      assert OnceScheduled(s, id);
    }
  }

  /** The registered accounts less all registrations the contract ever made itself; closing such accounts makes it negative. */
  ghost function AccountsLessFree(s: State): int {
    |s.accounts| - Tally(s.log, FreeRegistration)
  }

  /** One more or one less of these accounts means one minimum balance kept or returned. */
  ghost predicate LedgerMoves(s: State, t: State) {
    var near := Tally(t.log, NearFlow) - Tally(s.log, NearFlow);
    var yocto := Tally(t.log, YoctoKept) - Tally(s.log, YoctoKept);
    && t.minBalance == s.minBalance
    && (|| (AccountsLessFree(t) == AccountsLessFree(s) && near == yocto)
        || (AccountsLessFree(t) == AccountsLessFree(s) + 1 && near == yocto + s.minBalance)
        || (AccountsLessFree(t) == AccountsLessFree(s) - 1 && near == yocto - s.minBalance))
  }

  lemma UnregisterMovesLedger(s: State, env: Env, force: Option<bool>)
    ensures LedgerMoves(s, Step(s, StorageUnregister(env, force)))
  {
    if env.predecessor in s.accounts {
      SizeWithout(s.accounts, env.predecessor);
    }
  }

  lemma ResolveMovesLedger(s: State, id: nat, result: PromiseResult)
    ensures LedgerMoves(s, Step(s, FtResolveTransfer(id, result)))
  {
  }

  lemma DepositMovesLedger(s: State, env: Env, account: Option<AccountId>, registrationOnly: Option<bool>)
    ensures LedgerMoves(s, Step(s, StorageDeposit(env, account, registrationOnly)))
  {
  }

  lemma StepMovesLedger(s: State, c: Call)
    ensures LedgerMoves(s, Step(s, c))
  {
    match c {
      case FtResolveTransfer(id, result) => ResolveMovesLedger(s, id, result);
      case StorageDeposit(env, account, registrationOnly) => DepositMovesLedger(s, env, account, registrationOnly);
      case StorageUnregister(env, force) => UnregisterMovesLedger(s, env, force);
      case _ =>
    }
  }

  lemma MovesKeepLedger(s: State, t: State)
    requires LedgerBalanced(s) && LedgerMoves(s, t)
    ensures LedgerBalanced(t)
  {
    OneMoreOrLess(s.minBalance, AccountsLessFree(s));
  }

  lemma OneMoreOrLess(k: int, n: int)
    ensures k * (n + 1) == k * n + k
    ensures k * (n - 1) == k * n - k
  {
  }

  lemma StepBalancesLedger(s: State, c: Call)
    requires LedgerBalanced(s)
    ensures LedgerBalanced(Step(s, c))
  {
    StepMovesLedger(s, c);
    MovesKeepLedger(s, Step(s, c));
  }
}
