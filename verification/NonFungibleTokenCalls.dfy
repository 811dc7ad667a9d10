/**
 What each call to the non-fungible token promises its caller, in terms of what nft_token and
 nft_is_approved then show: when it goes through, which token changes and how, and who is paid.
 */
module NonFungibleTokenCalls {
  import opened Prelude
  import opened NonFungibleToken
  import opened NonFungibleTokenIndex
  import opened NonFungibleTokenApprovals
  import opened NonFungibleTokenViews

  // What the views show

  /** An account that nft_is_approved names may move the token. */
  predicate MayMove(s: State, t: TokenId, account: AccountId, approvalId: Option<nat>) {
    Owns(s.ownerById, account, t) || NftIsApproved(s, t, account, approvalId) == Success(true)
  }

  /** nft_token shows the token with this owner and these approvals, and is otherwise as before. */
  ghost predicate Shows(s: State, u: State, t: TokenId, owner: AccountId, approvals: Approvals) {
    && t in s.ownerById
    && NftToken(u, t)
       == Some(NftToken(s, t).value.(owner := owner, approvals := if s.approvalsById.Some? then Some(approvals) else None))
    && forall other :: other != t ==> NftToken(u, other) == NftToken(s, other)
  }

  /** The approvals that nft_token shows. */
  function Shown(s: State, t: TokenId): Approvals {
    var token := NftToken(s, t);
    if token.Some? && token.value.approvals.Some? then token.value.approvals.value else map[]
  }

  /** nft_is_approved is about the approvals that nft_token shows, and panics for an unknown token. */
  lemma ApprovedIsShown(s: State, t: TokenId, account: AccountId, approvalId: Option<nat>)
    ensures NftIsApproved(s, t, account, approvalId).Failure? <==> NftToken(s, t) == None
    ensures NftIsApproved(s, t, account, approvalId) == Success(true) <==>
      account in Shown(s, t) && (approvalId == None || approvalId == Some(Shown(s, t)[account]))
  {
  }

  /** A new contract has no tokens, and the listings by owner just if it was asked for them. */
  lemma NewContractIsEmpty(owner: AccountId, byteCost: nat, metadata: bool, enumeration: bool, approval: bool, t: TokenId,
                           account: AccountId)
    ensures var s := Initial(owner, byteCost, metadata, enumeration, approval);
      && NftToken(s, t) == None && NftTotalSupply(s) == 0
      && NftSupplyForOwner(s, account) == (if enumeration then Success(0) else Failure(NoEnumeration))
      && (s.metadataById.Some? <==> metadata) && (s.approvalsById.Some? <==> approval)
      && s.contractOwner == owner && s.byteCost == byteCost
  {
  }

  ghost predicate SameContract(s: State, u: State) {
    && u.contractOwner == s.contractOwner && u.byteCost == s.byteCost
    && (u.metadataById.Some? <==> s.metadataById.Some?)
    && (u.tokensPerOwner.Some? <==> s.tokensPerOwner.Some?)
    && (u.approvalsById.Some? <==> s.approvalsById.Some?)
  }

  lemma TransferKeepsContract(s: State, sender: AccountId, receiver: AccountId, t: TokenId, approvalId: Option<nat>,
                              memo: Option<string>)
    ensures var o := Transfer(s, sender, receiver, t, approvalId, memo); o.Done? ==> SameContract(s, o.next)
  {
  }

  lemma ResolveKeepsContract(s: State, id: nat, result: PromiseResult)
    ensures var o := Resolve(s, id, result); o.Done? ==> SameContract(s, o.next)
  {
  }

  /** No call changes the contract's owner, the cost of a byte or which extensions are on. */
  lemma ContractStays(s: State, c: Call)
    ensures SameContract(s, Step(s, c))
  {
    match c {
      case NftTransfer(env, receiver, t, approvalId, memo) =>
        TransferKeepsContract(s, env.predecessor, receiver, t, approvalId, memo);
      case NftTransferCall(env, receiver, t, approvalId, memo, _) =>
        TransferKeepsContract(s, env.predecessor, receiver, t, approvalId, memo);
      case NftResolveTransfer(id, result) => ResolveKeepsContract(s, id, result);
      case _ =>
    }
  }

  // Transfers

  /** The caller may move the token, and the receiver does not have it already. */
  predicate CanGive(s: State, env: Env, receiver: AccountId, t: TokenId, approvalId: Option<nat>) {
    && env.attachedDeposit == 1
    && t in s.ownerById && receiver != s.ownerById[t]
    && MayMove(s, t, env.predecessor, approvalId)
  }

  /** The receiver has the token, nobody is approved for it, and no other token has changed. */
  ghost predicate Given(s: State, u: State, t: TokenId, receiver: AccountId) {
    && u.ownerById == s.ownerById[t := receiver]
    && ApprovalsOf(u, t) == None
    && Shows(s, u, t, receiver, map[])
  }

  /** nft_transfer gives the token to the receiver when its caller may move it, and is refused otherwise. */
  lemma TransferGivesToken(s: State, env: Env, receiver: AccountId, t: TokenId, approvalId: Option<nat>, memo: Option<string>)
    ensures var o := Apply(s, NftTransfer(env, receiver, t, approvalId, memo));
      && (o.Done? <==> CanGive(s, env, receiver, t, approvalId))
      && (o.Done? ==>
           && Given(s, o.next, t, receiver)
           && o.next.pending == s.pending && o.next.nextReceipt == s.nextReceipt
           && o.out.event == TransferEvent(s.ownerById[t], receiver, t, None, memo)
           && o.out.paid == None)
  {
  }

  /** nft_transfer_call does the same, and schedules both calls with the owner and the approvals of before. */
  lemma TransferCallGivesToken(s: State, env: Env, receiver: AccountId, t: TokenId, approvalId: Option<nat>,
                               memo: Option<string>, msg: string)
    ensures var o := Apply(s, NftTransferCall(env, receiver, t, approvalId, memo, msg)); var id := s.nextReceipt;
      && (o.Done? <==> CanGive(s, env, receiver, t, approvalId) && env.prepaidGas > 30_000_000_000_000)
      && (o.Done? ==>
           && Given(s, o.next, t, receiver)
           && o.next.pending == s.pending[id := Receipt(s.ownerById[t], receiver, t, ApprovalsOf(s, t))]
           && o.next.nextReceipt == id + 1
           && o.reply == Promise(id)
           && o.out.callback == Scheduled(id, env.prepaidGas - 30_000_000_000_000, env.predecessor, msg)
           && o.out.event == TransferEvent(s.ownerById[t], receiver, t, None, memo)
           && o.out.paid == None)
  {
  }

  // The callback

  /**
   The token is taken back unless the receiver answered false or no longer has it. Then it goes to
   the previous owner, with the captured approvals if there were some, and the receiver is paid for
   the approvals it has made.
   */
  lemma AnswerDecidesOwner(s: State, id: nat, result: PromiseResult)
    requires InFlight(s) && id in s.pending && !result.NotReady?
    ensures var r := s.pending[id]; var o := Apply(s, NftResolveTransfer(id, result));
      && o.Done?
      && (result == Successful(Some(false)) || s.ownerById[r.token] != r.receiver ==>
           o.reply == Kept(true) && o.next == s.(pending := s.pending - {id}) && o.out.paid == None && o.out.event == NoEvent)
      && (result != Successful(Some(false)) && s.ownerById[r.token] == r.receiver ==>
           && o.reply == Kept(false)
           && o.next.ownerById == s.ownerById[r.token := r.previousOwner]
           && o.next.pending == s.pending - {id}
           && Shows(s, o.next, r.token, r.previousOwner, r.approvals.GetOr(Shown(s, r.token)))
           && o.out.event == TransferEvent(r.receiver, r.previousOwner, r.token, None, None)
           && o.out.paid == (if ApprovalsOf(s, r.token).None? then None
                             else Some(Payment(r.receiver, s.byteCost * ApprovalBytes(Shown(s, r.token))))))
  {
  }

  /** Nobody can call the callback, and the host has to wait for the answer. */
  lemma CallbackWaits(s: State, id: nat, result: PromiseResult)
    requires InFlight(s)
    ensures Apply(s, NftResolveTransfer(id, result)).Done? <==> id in s.pending && !result.NotReady?
  {
  }

  // Approvals

  /** Approvals are managed, and the caller owns the token. */
  predicate Manages(s: State, env: Env, t: TokenId) {
    s.approvalsById.Some? && Owns(s.ownerById, env.predecessor, t)
  }

  /** The cost of an approval: the bytes of the name and twelve more, unless the account has one already. */
  function ApprovalCost(s: State, t: TokenId, account: AccountId): nat {
    if account in Shown(s, t) then 0 else s.byteCost * (|account.name| + 12)
  }

  /** nft_approve enters or renews one approval of the owner's token, and sends back change of over one yocto. */
  lemma ApproveAdds(s: State, env: Env, t: TokenId, account: AccountId, notify: Option<string>)
    ensures var o := Apply(s, NftApprove(env, t, account, notify)); var cost := ApprovalCost(s, t, account);
      var id := NextApprovalId(s, t);
      && (o.Done? <==> env.attachedDeposit >= 1 && Manages(s, env, t) && env.attachedDeposit >= cost)
      && (o.Done? ==>
           && Shows(s, o.next, t, env.predecessor, Shown(s, t)[account := id])
           && o.next.ownerById == s.ownerById && o.next.pending == s.pending
           && o.out.received == env.attachedDeposit
           && o.out.paid == (if env.attachedDeposit - cost > 1 then Some(Payment(env.predecessor, env.attachedDeposit - cost)) else None)
           && (notify == None ==> o.out.callback == NoCallback)
           && (notify.Some? && env.prepaidGas < U64_SIZE ==>
                var left := env.prepaidGas - 10_000_000_000_000;
                o.out.callback == ApprovalNotice(account, if left >= 0 then left else left + U64_SIZE, t, env.predecessor, id,
                                                 notify.value)))
  {
  }

  /** The account approved can then move the token, with the id it was given or without one. */
  lemma ApprovedMayMove(s: State, env: Env, t: TokenId, account: AccountId, notify: Option<string>, other: AccountId)
    requires Apply(s, NftApprove(env, t, account, notify)).Done?
    ensures var u := Step(s, NftApprove(env, t, account, notify));
      && MayMove(u, t, account, Some(NextApprovalId(s, t))) && MayMove(u, t, account, None)
      && (other != account ==> (MayMove(u, t, other, None) <==> MayMove(s, t, other, None)))
  {
  }

  /** nft_revoke takes out one approval of the owner's token and pays the owner back its cost. */
  lemma RevokeRemoves(s: State, env: Env, t: TokenId, account: AccountId)
    ensures var o := Apply(s, NftRevoke(env, t, account));
      && (o.Done? <==> env.attachedDeposit == 1 && Manages(s, env, t))
      && (o.Done? ==>
           && Shows(s, o.next, t, env.predecessor, Shown(s, t) - {account})
           && o.next.ownerById == s.ownerById && o.next.pending == s.pending
           && o.out.paid == (if account in Shown(s, t) then Some(Payment(env.predecessor, s.byteCost * (|account.name| + 12)))
                             else None))
  {
    assert account !in Shown(s, t) ==> Shown(s, t) - {account} == Shown(s, t);
  }

  /** nft_revoke_all takes out all approvals of the owner's token and pays the owner back their cost. */
  lemma RevokeAllRemoves(s: State, env: Env, t: TokenId)
    requires WellKept(s)
    ensures var o := Apply(s, NftRevokeAll(env, t));
      && (o.Done? <==> env.attachedDeposit == 1 && Manages(s, env, t))
      && (o.Done? ==>
           && Shows(s, o.next, t, env.predecessor, map[])
           && o.next.ownerById == s.ownerById && o.next.pending == s.pending
           && o.out.paid == (if Shown(s, t) == map[] then None
                             else Some(Payment(env.predecessor, s.byteCost * ApprovalBytes(Shown(s, t))))))
  {
  }

  // Minting

  /** A new token can be minted, with metadata if the contract keeps it, and the deposit pays for the storage. */
  predicate CanMint(s: State, env: Env, t: TokenId, metadata: Option<Metadata>, storageUsed: nat, charged: bool) {
    && NftToken(s, t) == None
    && (s.metadataById.Some? ==> metadata.Some?)
    && (charged ==> env.attachedDeposit >= s.byteCost * storageUsed)
  }

  /** The owner named has the new token, no other token has changed, and nothing else is known about it but its metadata. */
  ghost predicate HasMinted(s: State, u: State, t: TokenId, owner: AccountId, metadata: Option<Metadata>) {
    && u.ownerById == s.ownerById[t := owner]
    && NftToken(u, t) == Some(Token(t, owner, if s.metadataById.Some? then metadata else None,
                                    if s.approvalsById.Some? then Some(map[]) else None))
    && (forall other :: other != t ==> NftToken(u, other) == NftToken(s, other))
    && u.pending == s.pending
  }

  /** What is left of a deposit after its cost, if it is worth sending back. */
  predicate SendsBack(out: Out, to: AccountId, left: int) {
    out.paid == if left > 1 then Some(Payment(to, left)) else None
  }

  /** mint is for the contract's owner; internal_mint is the same for anyone the contract lets call it. */
  lemma MintGivesToken(s: State, env: Env, t: TokenId, owner: AccountId, metadata: Option<Metadata>, used: nat)
    requires WellKept(s)
    ensures var o := Apply(s, InternalMint(env, t, owner, metadata, used));
      && (o.Done? <==> CanMint(s, env, t, metadata, used, true))
      && (o.Done? ==>
           && HasMinted(s, o.next, t, owner, metadata)
           && o.out.event == MintEvent(owner, t)
           && SendsBack(o.out, env.predecessor, env.attachedDeposit - s.byteCost * used))
    ensures var o := Apply(s, Mint(env, t, owner, metadata, used));
      && (o.Done? <==> env.predecessor == s.contractOwner && CanMint(s, env, t, metadata, used, true))
      && (o.Done? ==> o == Apply(s, InternalMint(env, t, owner, metadata, used)))
  {
  }

  /** internal_mint_with_refund charges just when it is told whom to send the rest. */
  lemma MintWithRefundGivesToken(s: State, env: Env, t: TokenId, owner: AccountId, metadata: Option<Metadata>, used: nat,
                                 refundTo: Option<AccountId>)
    requires WellKept(s)
    ensures var o := Apply(s, InternalMintWithRefund(env, t, owner, metadata, used, refundTo));
      && (o.Done? <==> CanMint(s, env, t, metadata, used, refundTo.Some?))
      && (o.Done? ==>
           && HasMinted(s, o.next, t, owner, metadata)
           && o.out.event == MintedSilently(owner, t)
           && (refundTo == None ==> o.out.paid == None)
           && (refundTo.Some? ==> SendsBack(o.out, refundTo.value, env.attachedDeposit - s.byteCost * used)))
  {
  }
}
