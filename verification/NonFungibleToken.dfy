/**
 What each call to the non-fungible token does, as a step of a state machine.

 The state holds the contract's collections (each extension may be off), the callbacks of
 nft_transfer_call that the host still has to run, and the history of what the contract told the
 host. Module NonFungibleTokenContract follows the code statement by statement and is proved to do
 the same.
 */
module NonFungibleToken {
  import opened Prelude

  datatype TokenId = TokenId(text: string)
  datatype Metadata = Metadata(text: string)
  type Approvals = map<AccountId, nat>

  const U64_SIZE: nat := 0x1_0000_0000_0000_0000

  const GAS_FOR_RESOLVE_TRANSFER: nat := 5_000_000_000_000
  const GAS_FOR_NFT_TRANSFER_CALL: nat := 25_000_000_000_000 + GAS_FOR_RESOLVE_TRANSFER
  const GAS_FOR_NFT_APPROVE: nat := 10_000_000_000_000

  datatype Env = Env(predecessor: AccountId, attachedDeposit: nat, prepaidGas: nat)

  /** The outcome of nft_on_transfer; a value that is not a JSON boolean decodes to None. */
  datatype PromiseResult = Successful(giveBack: Option<bool>) | Failed | NotReady

  /** A scheduled nft_resolve_transfer, with the approvals captured when the token was sent. */
  datatype Receipt = Receipt(previousOwner: AccountId, receiver: AccountId, token: TokenId, approvals: Option<Approvals>)

  datatype Token = Token(tokenId: TokenId, owner: AccountId, metadata: Option<Metadata>, approvals: Option<Approvals>)

  /** storageUsed is the number of bytes the host reports the mint to have taken. */
  datatype Call =
    | NftTransfer(env: Env, receiver: AccountId, token: TokenId, approvalId: Option<nat>, memo: Option<string>)
    | NftTransferCall(env: Env, receiver: AccountId, token: TokenId, approvalId: Option<nat>, memo: Option<string>, msg: string)
    | NftResolveTransfer(receiptId: nat, result: PromiseResult)
    | NftApprove(env: Env, token: TokenId, account: AccountId, notify: Option<string>)
    | NftRevoke(env: Env, token: TokenId, account: AccountId)
    | NftRevokeAll(env: Env, token: TokenId)
    | Mint(env: Env, token: TokenId, owner: AccountId, metadata: Option<Metadata>, storageUsed: nat)
    | InternalMint(env: Env, token: TokenId, owner: AccountId, metadata: Option<Metadata>, storageUsed: nat)
    | InternalMintWithRefund(env: Env, token: TokenId, owner: AccountId, metadata: Option<Metadata>, storageUsed: nat,
                             refundTo: Option<AccountId>)

  datatype Reason =
    | OneYoctoRequired
    | AtLeastOneYoctoRequired
    | MoreGasRequired
    | TokenNotFound
    | Unauthorized
    | SenderNotApproved
    | WrongApprovalId
    | OwnerIsReceiver
    | NoTokensOfOwner
    | PrivateMethod
    | PromiseNotReady
    | NoApprovalManagement
    | NextApprovalIdUnset
    | NotTheOwner
    | NotTheContractOwner
    | DepositTooSmall
    | MetadataRequired
    | TokenExists

  datatype Reply =
    | Nothing
    | Promise(id: nat)
    | Kept(byReceiver: bool)
    | Minted(token: Token)

  /** The token events; a mint without an event is noted as MintedSilently. */
  datatype Event =
    | NoEvent
    | MintEvent(owner: AccountId, token: TokenId)
    | MintedSilently(owner: AccountId, token: TokenId)
    | TransferEvent(oldOwner: AccountId, newOwner: AccountId, token: TokenId, authorized: Option<AccountId>, memo: Option<string>)

  /**
   What the host is to run next. The receiver of a transfer call learns the sender besides the
   previous owner and the token, which are in the receipt; an approved account learns of its approval.
   */
  datatype Callback =
    | NoCallback
    | Scheduled(id: nat, gas: nat, sender: AccountId, msg: string)
    | Resolved(id: nat)
    | ApprovalNotice(account: AccountId, gas: nat, token: TokenId, owner: AccountId, approvalId: nat, msg: string)

  /** What an attached deposit is for. */
  datatype Purpose = Safety | ForToken | ForApproval

  datatype Payment = Payment(to: AccountId, amount: nat)
  datatype Issue = Issue(token: TokenId, account: AccountId, id: nat)

  datatype Out = Out(
    received: nat,
    purpose: Purpose,
    paid: Option<Payment>,
    event: Event,
    issued: Option<Issue>,
    callback: Callback)

  const QUIET := Out(0, Safety, None, NoEvent, None, NoCallback)
  const ONE_YOCTO := QUIET.(received := 1)

  datatype Log = Empty | Then(earlier: Log, last: Out)

  type Index = map<AccountId, seq<TokenId>>

  datatype State = State(
    contractOwner: AccountId,
    byteCost: nat,
    ownerById: map<TokenId, AccountId>,
    metadataById: Option<map<TokenId, Metadata>>,
    tokensPerOwner: Option<Index>,
    approvalsById: Option<map<TokenId, Approvals>>,
    nextApprovalIdById: Option<map<TokenId, nat>>,
    pending: map<nat, Receipt>,
    nextReceipt: nat,
    log: Log)

  datatype Outcome = Done(next: State, reply: Reply, out: Out) | Panicked(reason: Reason)

  function Lookup<K, V>(m: map<K, V>, k: K): Option<V> {
    if k in m then Some(m[k]) else None
  }

  // Sets kept as lists: UnorderedSet appends, and fills a gap with its last element

  function SetInsert(ts: seq<TokenId>, t: TokenId): seq<TokenId> {
    if t in ts then ts else ts + [t]
  }

  function SetRemove(ts: seq<TokenId>, t: TokenId): seq<TokenId> {
    if t !in ts then ts
    else
      var at := Position(ts, t);
      ts[at := ts[|ts| - 1]][..|ts| - 1]
  }

  function Position(ts: seq<TokenId>, t: TokenId): (at: nat)
    requires t in ts
    ensures at < |ts| && ts[at] == t
  {
    if ts[0] == t then 0 else 1 + Position(ts[1..], t)
  }

  // The index of tokens by owner

  function Delist(index: Index, owner: AccountId, t: TokenId): Index {
    if owner !in index then index
    else
      var left := SetRemove(index[owner], t);
      if left == [] then index - {owner} else index[owner := left]
  }

  function Enlist(index: Index, owner: AccountId, t: TokenId): Index {
    index[owner := SetInsert(Lookup(index, owner).GetOr([]), t)]
  }

  // Costs

  function AccountBytes(account: AccountId): nat {
    |account.name| + 4 + 8
  }

  function ApprovalWeight(account: AccountId, id: nat): nat {
    AccountBytes(account)
  }

  /** The bytes that a token's approvals are charged for. */
  ghost function ApprovalBytes(approvals: Approvals): nat {
    SumMap(approvals, ApprovalWeight)
  }

  /** What goes back of an attached deposit: a single yocto is not worth sending. */
  function Change(to: AccountId, attached: nat, cost: nat): Option<Payment> {
    if attached > cost + 1 then Some(Payment(to, attached - cost)) else None
  }

  /** Unchecked 64-bit arithmetic wraps around. */
  function Wrap(n: int): nat {
    n % U64_SIZE
  }

  // The steps

  function ApprovalsOf(s: State, t: TokenId): Option<Approvals> {
    if s.approvalsById.Some? then Lookup(s.approvalsById.value, t) else None
  }

  function NextApprovalId(s: State, t: TokenId): nat {
    Lookup(s.nextApprovalIdById.GetOr(map[]), t).GetOr(1)
  }

  function WithApprovals(s: State, t: TokenId, approvals: Option<Approvals>): State {
    if s.approvalsById.None? then s
    else
      s.(approvalsById := Some(if approvals.Some? then s.approvalsById.value[t := approvals.value]
                               else s.approvalsById.value - {t}))
  }

  /** Hands the token over, with no checks. */
  function MoveToken(s: State, t: TokenId, from: AccountId, to: AccountId): State {
    s.(ownerById := s.ownerById[t := to],
       tokensPerOwner := if s.tokensPerOwner.None? then None
                         else Some(Enlist(Delist(s.tokensPerOwner.value, from, t), to, t)))
  }

  /** Why a sender may not move a token, if it may not. */
  function Refusal(owner: AccountId, approvals: Option<Approvals>, sender: AccountId, approvalId: Option<nat>): Option<Reason> {
    if sender == owner then None
    else if approvals.None? then Some(Unauthorized)
    else if sender !in approvals.value then Some(SenderNotApproved)
    else if approvalId.Some? && approvalId.value != approvals.value[sender] then Some(WrongApprovalId)
    else None
  }

  /** A transfer by the owner or an approved account; every approval of the token ends. */
  function Transfer(s: State, sender: AccountId, receiver: AccountId, t: TokenId, approvalId: Option<nat>,
                    memo: Option<string>): Outcome {
    if t !in s.ownerById then Panicked(TokenNotFound)
    else
      var owner := s.ownerById[t];
      var refusal := Refusal(owner, ApprovalsOf(s, t), sender, approvalId);
      if refusal.Some? then Panicked(refusal.value)
      else if owner == receiver then Panicked(OwnerIsReceiver)
      else
        Done(WithApprovals(MoveToken(s, t, owner, receiver), t, None), Nothing,
             ONE_YOCTO.(event := TransferEvent(owner, receiver, t, None, memo)))
  }

  function TransferCall(s: State, env: Env, receiver: AccountId, t: TokenId, approvalId: Option<nat>,
                        memo: Option<string>, msg: string): Outcome {
    if env.attachedDeposit != 1 then Panicked(OneYoctoRequired)
    else if env.prepaidGas <= GAS_FOR_NFT_TRANSFER_CALL then Panicked(MoreGasRequired)
    else
      match Transfer(s, env.predecessor, receiver, t, approvalId, memo)
      case Panicked(why) => Panicked(why)
      case Done(moved, _, out) =>
        var id := s.nextReceipt;
        var receipt := Receipt(s.ownerById[t], receiver, t, ApprovalsOf(s, t));
        Done(moved.(pending := s.pending[id := receipt], nextReceipt := id + 1),
             Promise(id),
             out.(callback := Scheduled(id, env.prepaidGas - GAS_FOR_NFT_TRANSFER_CALL, env.predecessor, msg)))
  }

  predicate MustRevert(result: PromiseResult) {
    !(result.Successful? && result.giveBack == Some(false))
  }

  /** The refund for a set of approvals, to whoever paid for them. */
  ghost function Refund(s: State, to: AccountId, approvals: Option<Approvals>): Option<Payment> {
    if approvals.Some? then Some(Payment(to, s.byteCost * ApprovalBytes(approvals.value))) else None
  }

  /** The callback takes the token back if the receiver gave it back and still has it. */
  ghost predicate Reverts(s: State, r: Receipt, result: PromiseResult) {
    MustRevert(result) && r.token in s.ownerById && s.ownerById[r.token] == r.receiver
  }

  /**
   A revert refunds the approvals the receiver has made and puts the captured ones back; when none
   were captured the receiver's approvals stay where they are.
   */
  ghost function Resolve(s: State, id: nat, result: PromiseResult): Outcome {
    if id !in s.pending then Panicked(PrivateMethod)
    else if result.NotReady? then Panicked(PromiseNotReady)
    else
      var r := s.pending[id];
      var t := s.(pending := s.pending - {id});
      var out := QUIET.(callback := Resolved(id));
      if !MustRevert(result) then Done(t, Kept(true), out)
      else if r.token !in s.ownerById then
        Done(t, Kept(true), out.(paid := Refund(s, r.previousOwner, r.approvals)))
      else if !Reverts(s, r, result) then Done(t, Kept(true), out)
      else
        var moved := MoveToken(t, r.token, r.receiver, r.previousOwner);
        Done(if r.approvals.Some? then WithApprovals(moved, r.token, r.approvals) else moved,
             Kept(false),
             out.(paid := Refund(s, r.receiver, ApprovalsOf(s, r.token)),
                  event := TransferEvent(r.receiver, r.previousOwner, r.token, None, None)))
  }

  /** The checks common to approving and revoking. */
  function OwnerCheck(s: State, env: Env, t: TokenId): Option<Reason> {
    if s.approvalsById.None? then Some(NoApprovalManagement)
    else if t !in s.ownerById then Some(TokenNotFound)
    else if env.predecessor != s.ownerById[t] then Some(NotTheOwner)
    else None
  }

  /** If asked to, tells the approved account; the gas that is left for it is not checked. */
  function Notice(env: Env, t: TokenId, account: AccountId, id: nat, notify: Option<string>): Callback {
    if notify.None? then NoCallback
    else ApprovalNotice(account, Wrap(env.prepaidGas - GAS_FOR_NFT_APPROVE), t, env.predecessor, id, notify.value)
  }

  function Approve(s: State, env: Env, t: TokenId, account: AccountId, notify: Option<string>): Outcome {
    if env.attachedDeposit < 1 then Panicked(AtLeastOneYoctoRequired)
    else
      var refusal := OwnerCheck(s, env, t);
      if refusal.Some? then Panicked(refusal.value)
      else
        var approvals := ApprovalsOf(s, t).GetOr(map[]);
        var id := NextApprovalId(s, t);
        var cost := s.byteCost * (if account in approvals then 0 else AccountBytes(account));
        if env.attachedDeposit < cost then Panicked(DepositTooSmall)
        else
          Done(WithApprovals(s, t, Some(approvals[account := id]))
                 .(nextApprovalIdById := Some(s.nextApprovalIdById.GetOr(map[])[t := Wrap(id + 1)])),
               Nothing,
               QUIET.(received := env.attachedDeposit, purpose := ForApproval,
                      paid := Change(env.predecessor, env.attachedDeposit, cost),
                      issued := Some(Issue(t, account, id)),
                      callback := Notice(env, t, account, id, notify)))
  }

  /** Revoking an account that is not approved does nothing. */
  function Revoke(s: State, env: Env, t: TokenId, account: AccountId): Outcome {
    if env.attachedDeposit != 1 then Panicked(OneYoctoRequired)
    else
      var refusal := OwnerCheck(s, env, t);
      if refusal.Some? then Panicked(refusal.value)
      else
        var approvals := ApprovalsOf(s, t).GetOr(map[]);
        if account !in approvals then Done(s, Nothing, ONE_YOCTO)
        else
          var left := approvals - {account};
          Done(WithApprovals(s, t, if left == map[] then None else Some(left)), Nothing,
               ONE_YOCTO.(paid := Some(Payment(env.predecessor, s.byteCost * AccountBytes(account)))))
  }

  ghost function RevokeAll(s: State, env: Env, t: TokenId): Outcome {
    if env.attachedDeposit != 1 then Panicked(OneYoctoRequired)
    else
      var refusal := OwnerCheck(s, env, t);
      if refusal.Some? then Panicked(refusal.value)
      else Done(WithApprovals(s, t, None), Nothing,
                ONE_YOCTO.(paid := Refund(s, env.predecessor, ApprovalsOf(s, t))))
  }

  function MintToken(s: State, env: Env, t: TokenId, owner: AccountId, metadata: Option<Metadata>, storageUsed: nat,
                     refundTo: Option<AccountId>, event: Event): Outcome {
    if s.metadataById.Some? && metadata.None? then Panicked(MetadataRequired)
    else if t in s.ownerById then Panicked(TokenExists)
    else if refundTo.Some? && env.attachedDeposit < s.byteCost * storageUsed then Panicked(DepositTooSmall)
    else
      Done(s.(ownerById := s.ownerById[t := owner],
              metadataById := if s.metadataById.None? then None else Some(s.metadataById.value[t := metadata.value]),
              tokensPerOwner := if s.tokensPerOwner.None? then None else Some(Enlist(s.tokensPerOwner.value, owner, t))),
           Minted(Token(t, owner, metadata, if s.approvalsById.Some? then Some(map[]) else None)),
           QUIET.(received := env.attachedDeposit, purpose := ForToken, event := event,
                  paid := if refundTo.None? then None
                          else Change(refundTo.value, env.attachedDeposit, s.byteCost * storageUsed)))
  }

  ghost function Apply(s: State, c: Call): Outcome {
    match c
    case NftTransfer(env, receiver, t, approvalId, memo) =>
      if env.attachedDeposit != 1 then Panicked(OneYoctoRequired)
      else Transfer(s, env.predecessor, receiver, t, approvalId, memo)
    case NftTransferCall(env, receiver, t, approvalId, memo, msg) =>
      TransferCall(s, env, receiver, t, approvalId, memo, msg)
    case NftResolveTransfer(id, result) => Resolve(s, id, result)
    case NftApprove(env, t, account, notify) => Approve(s, env, t, account, notify)
    case NftRevoke(env, t, account) => Revoke(s, env, t, account)
    case NftRevokeAll(env, t) => RevokeAll(s, env, t)
    case Mint(env, t, owner, metadata, used) =>
      if env.predecessor != s.contractOwner then Panicked(NotTheContractOwner)
      else MintToken(s, env, t, owner, metadata, used, Some(env.predecessor), MintEvent(owner, t))
    case InternalMint(env, t, owner, metadata, used) =>
      MintToken(s, env, t, owner, metadata, used, Some(env.predecessor), MintEvent(owner, t))
    case InternalMintWithRefund(env, t, owner, metadata, used, refundTo) =>
      MintToken(s, env, t, owner, metadata, used, refundTo, MintedSilently(owner, t))
  }

  // Runs

  /** A new contract with the chosen extensions. */
  function Initial(contractOwner: AccountId, byteCost: nat, metadata: bool, enumeration: bool, approval: bool): State {
    State(contractOwner, byteCost, map[],
          if metadata then Some(map[]) else None,
          if enumeration then Some(map[]) else None,
          if approval then Some(map[]) else None,
          if approval then Some(map[]) else None,
          map[], 0, Empty)
  }

  /** A call that panics leaves everything as it was; the host rolls it back. */
  ghost function Step(s: State, c: Call): State {
    match Apply(s, c)
    case Done(t, _, out) => t.(log := Then(s.log, out))
    case Panicked(_) => s
  }

  ghost function Run(s: State, calls: seq<Call>): State {
    if calls == [] then s else Step(Run(s, calls[..|calls| - 1]), calls[|calls| - 1])
  }
}
