/**
 What each call to the fungible token does, as a step of a state machine.

 The state holds the contract's own fields (accounts, total supply, storage cost of an account),
 the callbacks of ft_transfer_call that the host still has to run, and everything the contract
 has told the host so far. Between the transfer and its callback any other step may run.

 This is the protocol as its users see it: none of the overflow checks of the code appear here.
 Module FungibleTokenContract follows the code check by check and is proved to do the same.
 */
module FungibleToken {
  import opened Prelude

  const U128_MAX: nat := 0xFFFF_FFFF_FFFF_FFFF_FFFF_FFFF_FFFF_FFFF
  type u128 = n: int | 0 <= n <= U128_MAX

  const GAS_FOR_RESOLVE_TRANSFER: nat := 5_000_000_000_000
  const GAS_FOR_FT_TRANSFER_CALL: nat := 25_000_000_000_000 + GAS_FOR_RESOLVE_TRANSFER

  /** What the host reports about the running call. */
  datatype Env = Env(predecessor: AccountId, attachedDeposit: nat, prepaidGas: nat)

  /** The outcome of ft_on_transfer; a value that is not a U128 in JSON decodes to None. */
  datatype PromiseResult = Successful(unused: Option<u128>) | Failed | NotReady

  /** A scheduled ft_resolve_transfer. */
  datatype Receipt = Receipt(sender: AccountId, receiver: AccountId, amount: nat)

  /** The last three calls are made by the contract around the token, not by an account. */
  datatype Call =
    | FtTransfer(env: Env, receiver: AccountId, amount: u128, memo: Option<string>)
    | FtTransferCall(env: Env, receiver: AccountId, amount: u128, memo: Option<string>, msg: string)
    | FtResolveTransfer(receiptId: nat, result: PromiseResult)
    | StorageDeposit(env: Env, account: Option<AccountId>, registrationOnly: Option<bool>)
    | StorageWithdraw(env: Env, requested: Option<u128>)
    | StorageUnregister(env: Env, force: Option<bool>)
    | InternalRegisterAccount(id: AccountId)
    | InternalDeposit(id: AccountId, amount: u128)
    | InternalWithdraw(id: AccountId, amount: u128)

  datatype Reason =
    | OneYoctoRequired
    | MoreGasRequired
    | PrepaidGasOverflow
    | SenderIsReceiver
    | AmountNotPositive
    | NotRegistered(account: AccountId)
    | AlreadyRegistered
    | NotEnoughBalance
    | BalanceOverflow
    | TotalSupplyOverflow
    | ReceiverShort
    | SenderBalanceOverflow
    | PromiseNotReady
    | PrivateMethod
    | DepositTooSmall
    | PositiveBalance
    | MoreThanAvailable

  datatype Reply =
    | Nothing
    | Promise(id: nat)
    | Used(amount: int)
    | StorageBalance(total: nat, available: nat)
    | Unregistered(yes: bool)

  /** The token events, and the account changes the contract makes without an event. */
  datatype Event =
    | NoEvent
    | Registered(account: AccountId, paid: bool)
    | Deposited(account: AccountId, amount: nat)
    | Withdrawn(account: AccountId, amount: nat)
    | TransferEvent(oldOwner: AccountId, newOwner: AccountId, amount: nat, memo: Option<string>)
    | BurnEvent(owner: AccountId, amount: nat, memo: Option<string>)
    | Closed(account: AccountId, balance: nat)

  /** The contract's hooks: on_tokens_burned and on_account_closed. */
  datatype Hook =
    | NoHook
    | OnTokensBurned(sender: AccountId, amount: nat)
    | OnAccountClosed(account: AccountId, balance: nat)

  datatype Callback =
    | NoCallback
    | Scheduled(id: nat, gas: nat, msg: string)
    | Resolved(id: nat)

  datatype Payment = Payment(to: AccountId, amount: nat)

  /** Everything one call tells the host: NEAR kept and sent, event, hook, callback. */
  datatype Out = Out(
    received: nat,
    oneYocto: bool,
    paid: Option<Payment>,
    event: Event,
    hook: Hook,
    callback: Callback)

  const QUIET := Out(0, false, None, NoEvent, NoHook, NoCallback)
  const ONE_YOCTO := QUIET.(received := 1, oneYocto := true)

  datatype State = State(
    accounts: map<AccountId, nat>,
    totalSupply: int,
    minBalance: nat,
    pending: map<nat, Receipt>,
    nextReceipt: nat,
    log: Log)

  datatype Outcome = Done(next: State, reply: Reply, out: Out) | Panicked(reason: Reason)

  // Reading the log

  /** What the calls of a run told the host, in order, the latest outermost. */
  datatype Log = Empty | Then(earlier: Log, last: Out)

  /** The sum of the weights of the calls in the log. */
  function Tally(log: Log, weight: Out -> int): int {
    match log
    case Empty => 0
    case Then(earlier, out) => Tally(earlier, weight) + weight(out)
  }

  /** The balances and the supply as an outside observer keeps them. */
  datatype Book = Book(accounts: map<AccountId, int>, supply: int) {
    function Entry(account: AccountId): int {
      if account in accounts then accounts[account] else 0
    }
  }

  /** The observer's rule for one event. */
  function Post(book: Book, e: Event): Book {
    match e
    case NoEvent => book
    case Registered(a, _) => book.(accounts := book.accounts[a := 0])
    case Deposited(a, x) => Book(book.accounts[a := book.Entry(a) + x], book.supply + x)
    case Withdrawn(a, x) => Book(book.accounts[a := book.Entry(a) - x], book.supply - x)
    case TransferEvent(from, to, x, _) =>
      var debited := book.(accounts := book.accounts[from := book.Entry(from) - x]);
      debited.(accounts := debited.accounts[to := debited.Entry(to) + x])
    case BurnEvent(a, x, _) => Book(book.accounts[a := book.Entry(a) - x], book.supply - x)
    case Closed(a, b) => Book(book.accounts - {a}, book.supply - b)
  }

  function Replay(log: Log): Book {
    match log
    case Empty => Book(map[], 0)
    case Then(earlier, out) => Post(Replay(earlier), out.event)
  }

  // The steps

  function BalanceOf(s: State, account: AccountId): nat {
    if account in s.accounts then s.accounts[account] else 0
  }

  function Pay(to: AccountId, amount: nat): Option<Payment> {
    if amount > 0 then Some(Payment(to, amount)) else None
  }

  /** A transfer between two registered accounts; the supply is not touched. */
  function Transfer(s: State, sender: AccountId, receiver: AccountId, amount: nat, memo: Option<string>): Outcome {
    if sender == receiver then Panicked(SenderIsReceiver)
    else if amount == 0 then Panicked(AmountNotPositive)
    else if sender !in s.accounts then Panicked(NotRegistered(sender))
    else if s.accounts[sender] < amount then Panicked(NotEnoughBalance)
    else if receiver !in s.accounts then Panicked(NotRegistered(receiver))
    else
      Done(s.(accounts := s.accounts[sender := s.accounts[sender] - amount]
                                    [receiver := s.accounts[receiver] + amount]),
           Nothing,
           ONE_YOCTO.(event := TransferEvent(sender, receiver, amount, memo)))
  }

  function TransferCall(s: State, env: Env, receiver: AccountId, amount: nat, memo: Option<string>, msg: string): Outcome {
    if env.attachedDeposit != 1 then Panicked(OneYoctoRequired)
    else if env.prepaidGas <= GAS_FOR_FT_TRANSFER_CALL then Panicked(MoreGasRequired)
    else
      match Transfer(s, env.predecessor, receiver, amount, memo)
      case Panicked(why) => Panicked(why)
      case Done(t, _, out) =>
        var id := s.nextReceipt;
        Done(t.(pending := s.pending[id := Receipt(env.predecessor, receiver, amount)], nextReceipt := id + 1),
             Promise(id),
             out.(callback := Scheduled(id, env.prepaidGas - GAS_FOR_FT_TRANSFER_CALL, msg)))
  }

  /** How much of the amount the receiver hands back: all of it unless it answered with a number. */
  function Unused(amount: nat, result: PromiseResult): nat {
    match result
    case Successful(Some(unused)) => Min(amount, unused)
    case _ => amount
  }

  /** The refund is what the receiver did not use, as far as it still has it. */
  function Refund(s: State, r: Receipt, result: PromiseResult): nat {
    Min(BalanceOf(s, r.receiver), Unused(r.amount, result))
  }

  function Resolve(s: State, id: nat, result: PromiseResult): Outcome {
    if id !in s.pending then Panicked(PrivateMethod)
    else if result.NotReady? then Panicked(PromiseNotReady)
    else
      var r := s.pending[id];
      var refund := Refund(s, r, result);
      var t := s.(pending := s.pending - {id});
      var out := QUIET.(callback := Resolved(id));
      if refund == 0 then Done(t, Used(r.amount), out)
      else
        var left := s.accounts[r.receiver := BalanceOf(s, r.receiver) - refund];
        if r.sender in s.accounts then
          Done(t.(accounts := left[r.sender := left[r.sender] + refund]),
               Used(r.amount - refund),
               out.(event := TransferEvent(r.receiver, r.sender, refund, Some("refund"))))
        else
          Done(t.(accounts := left, totalSupply := s.totalSupply - refund),
               Used(r.amount),
               out.(event := BurnEvent(r.receiver, refund, Some("refund")), hook := OnTokensBurned(r.sender, refund)))
  }

  function Deposit(s: State, env: Env, account: Option<AccountId>): Outcome {
    var id := account.GetOr(env.predecessor);
    var reply := StorageBalance(s.minBalance, 0);
    var out := QUIET.(received := env.attachedDeposit);
    if id in s.accounts then
      Done(s, reply, out.(paid := Pay(env.predecessor, env.attachedDeposit)))
    else if env.attachedDeposit < s.minBalance then Panicked(DepositTooSmall)
    else
      Done(s.(accounts := s.accounts[id := 0]), reply,
           out.(event := Registered(id, true), paid := Pay(env.predecessor, env.attachedDeposit - s.minBalance)))
  }

  function Unregister(s: State, env: Env, force: bool): Outcome {
    var id := env.predecessor;
    if env.attachedDeposit != 1 then Panicked(OneYoctoRequired)
    else if id !in s.accounts then Done(s, Unregistered(false), ONE_YOCTO)
    else
      var balance := s.accounts[id];
      if balance > 0 && !force then Panicked(PositiveBalance)
      else
        Done(s.(accounts := s.accounts - {id}, totalSupply := s.totalSupply - balance),
             Unregistered(true),
             ONE_YOCTO.(paid := Pay(id, s.minBalance + 1), event := Closed(id, balance),
                        hook := OnAccountClosed(id, balance)))
  }

  /** internal_deposit: new tokens for a registered account. */
  function Credit(s: State, account: AccountId, amount: nat): Outcome {
    if account !in s.accounts then Panicked(NotRegistered(account))
    else if s.accounts[account] + amount > U128_MAX then Panicked(BalanceOverflow)
    else if s.totalSupply + amount > U128_MAX then Panicked(TotalSupplyOverflow)
    else Done(s.(accounts := s.accounts[account := s.accounts[account] + amount],
                 totalSupply := s.totalSupply + amount),
              Nothing, QUIET.(event := Deposited(account, amount)))
  }

  /** internal_withdraw: tokens taken out of circulation. */
  function Debit(s: State, account: AccountId, amount: nat): Outcome {
    if account !in s.accounts then Panicked(NotRegistered(account))
    else if s.accounts[account] < amount then Panicked(NotEnoughBalance)
    else Done(s.(accounts := s.accounts[account := s.accounts[account] - amount],
                 totalSupply := s.totalSupply - amount),
              Nothing, QUIET.(event := Withdrawn(account, amount)))
  }

  function Apply(s: State, c: Call): Outcome {
    match c
    case FtTransfer(env, receiver, amount, memo) =>
      if env.attachedDeposit != 1 then Panicked(OneYoctoRequired)
      else Transfer(s, env.predecessor, receiver, amount, memo)
    case FtTransferCall(env, receiver, amount, memo, msg) => TransferCall(s, env, receiver, amount, memo, msg)
    case FtResolveTransfer(id, result) => Resolve(s, id, result)
    case StorageDeposit(env, account, _) => Deposit(s, env, account)
    case StorageWithdraw(env, requested) =>
      if env.attachedDeposit != 1 then Panicked(OneYoctoRequired)
      else if env.predecessor !in s.accounts then Panicked(NotRegistered(env.predecessor))
      else if requested.GetOr(0) > 0 then Panicked(MoreThanAvailable)
      else Done(s, StorageBalance(s.minBalance, 0), ONE_YOCTO)
    case StorageUnregister(env, force) => Unregister(s, env, force.GetOr(false))
    case InternalRegisterAccount(id) =>
      if id in s.accounts then Panicked(AlreadyRegistered)
      else Done(s.(accounts := s.accounts[id := 0]), Nothing, QUIET.(event := Registered(id, false)))
    case InternalDeposit(id, amount) => Credit(s, id, amount)
    case InternalWithdraw(id, amount) => Debit(s, id, amount)
  }

  // Runs

  function Initial(minBalance: nat): State {
    State(map[], 0, minBalance, map[], 0, Empty)
  }

  /** A call that panics leaves everything as it was; the host rolls it back. */
  function Step(s: State, c: Call): State {
    match Apply(s, c)
    case Done(t, _, out) => t.(log := Then(s.log, out))
    case Panicked(_) => s
  }

  function Run(s: State, calls: seq<Call>): State {
    if calls == [] then s else Step(Run(s, calls[..|calls| - 1]), calls[|calls| - 1])
  }
}
