/** The theorems about whole runs of the non-fungible token. */
module NonFungibleTokenRuns {
  import opened Prelude
  import opened NonFungibleToken
  import opened NonFungibleTokenIndex
  import opened NonFungibleTokenApprovals
  import opened NonFungibleTokenEscrow
  import opened NonFungibleTokenViews
  import opened NonFungibleTokenCalls

  // What an observer of the events knows

  /** The owners according to the mint and transfer events. */
  function Owners(log: Log): map<TokenId, AccountId> {
    match log
    case Empty => map[]
    case Then(earlier, out) =>
      match out.event
      case MintEvent(owner, t) => Owners(earlier)[t := owner]
      case TransferEvent(_, owner, t, _, _) => Owners(earlier)[t := owner]
      case _ => Owners(earlier)
  }

  /** The token was minted without an event, so an observer may not know it. */
  predicate SilentlyMinted(log: Log, t: TokenId) {
    match log
    case Empty => false
    case Then(earlier, out) => SilentlyMinted(earlier, t) || (out.event.MintedSilently? && out.event.token == t)
  }

  /** Each transfer event names as old owner whom the observer takes for the owner. */
  predicate NamesTrueOwners(log: Log) {
    match log
    case Empty => true
    case Then(earlier, out) =>
      && NamesTrueOwners(earlier)
      && (out.event.TransferEvent? && !SilentlyMinted(earlier, out.event.token) ==>
           Lookup(Owners(earlier), out.event.token) == Some(out.event.oldOwner))
  }

  /** No transfer event says who, other than the owner, authorized it. */
  predicate NamesNoAuthorizer(log: Log) {
    match log
    case Empty => true
    case Then(earlier, out) => NamesNoAuthorizer(earlier) && (out.event.TransferEvent? ==> out.event.authorized == None)
  }

  ghost predicate Replayed(s: State) {
    && NamesTrueOwners(s.log)
    && NamesNoAuthorizer(s.log)
    && forall t :: OwnerKnown(s, t)
  }

  /** The events so far tell who owns the token, or that it is not minted. */
  predicate OwnerKnown(s: State, t: TokenId) {
    !SilentlyMinted(s.log, t) ==> Lookup(Owners(s.log), t) == Lookup(s.ownerById, t)
  }

  lemma StepTellsOwner(s: State, c: Call, t: TokenId)
    requires OwnerKnown(s, t)
    ensures OwnerKnown(Step(s, c), t)
  {
  }

  /** A transfer event names the owner of before, and no authorizer. */
  lemma EventNamesOwner(s: State, c: Call)
    requires Apply(s, c).Done? && Apply(s, c).out.event.TransferEvent?
    ensures var e := Apply(s, c).out.event; Lookup(s.ownerById, e.token) == Some(e.oldOwner) && e.authorized == None
  {
  }

  lemma StepReplays(s: State, c: Call)
    requires Replayed(s)
    ensures Replayed(Step(s, c))
  {
    if Apply(s, c).Done? && Apply(s, c).out.event.TransferEvent? {
      EventNamesOwner(s, c);
      assert OwnerKnown(s, Apply(s, c).out.event.token);
    }
    forall t
      ensures OwnerKnown(Step(s, c), t)
    {
      StepTellsOwner(s, c, t);
    }
  }

  // Runs

  ghost predicate Inv(s: State) {
    && Indexed(s)
    && WellKept(s)
    && InFlight(s)
    && Counting(s)
    && HeldWereIssued(s)
    && Replayed(s)
    && forall t :: |IssuedIds(s.log, t)| <= U64_SIZE ==> Linear(s, t)
  }

  lemma StepKeepsInv(s: State, c: Call)
    requires Inv(s)
    ensures Inv(Step(s, c))
  {
    StepIndexes(s, c);
    StepKeepsWell(s, c);
    StepKeepsInFlight(s, c);
    StepCounts(s, c);
    StepHoldsIssued(s, c);
    StepReplays(s, c);
    forall t | |IssuedIds(Step(s, c).log, t)| <= U64_SIZE
      ensures Linear(Step(s, c), t)
    {
      StepIssues(s, c, t);
      StepIsLinear(s, c, t);
    }
  }

  /** Whatever is called, in whatever order, every invariant survives. */
  lemma {:induction false} RunKeepsInv(s: State, calls: seq<Call>)
    requires Inv(s)
    ensures Inv(Run(s, calls))
  {
    if calls != [] {
      RunKeepsInv(s, calls[..|calls| - 1]);
      StepKeepsInv(Run(s, calls[..|calls| - 1]), calls[|calls| - 1]);
    }
  }

  ghost predicate IsInitial(s: State) {
    exists owner, byteCost, metadata, enumeration, approval :: s == Initial(owner, byteCost, metadata, enumeration, approval)
  }

  lemma InitialInv(s: State)
    requires IsInitial(s)
    ensures Inv(s)
  {
    if s.tokensPerOwner.Some? {
      assert forall owner, t :: !Lists(s.tokensPerOwner.value, owner, t);
    }
    forall t
      ensures |IssuedIds(s.log, t)| == 0 && NextApprovalId(s, t) == NthId(0)
    {
    }
  }

  /** In every reachable state the index lists each token once, under its owner, and no owner without tokens. */
  lemma IndexAgrees(s: State, calls: seq<Call>)
    requires IsInitial(s)
    ensures Indexed(Run(s, calls))
  {
    InitialInv(s);
    RunKeepsInv(s, calls);
  }

  /** Every pending callback is about an existing token, so the branch for a vanished token is never taken. */
  lemma PendingTokensExist(s: State, calls: seq<Call>, id: nat)
    requires IsInitial(s) && id in Run(s, calls).pending
    ensures var u := Run(s, calls); var r := u.pending[id];
      r.token in u.ownerById && r.previousOwner != r.receiver
  {
    InitialInv(s);
    RunKeepsInv(s, calls);
  }

  /**
   In every reachable state the supplies shown for all owners add up to the number of tokens, and
   the owners' listings are a partition of the listing of all tokens.
   */
  lemma OwnersPartitionTokens(s: State, calls: seq<Call>)
    requires IsInitial(s) && Run(s, calls).tokensPerOwner.Some?
    ensures var u := Run(s, calls);
      && SumMap(u.tokensPerOwner.value, SupplyShown(u)) == NftTotalSupply(u)
      && (forall owner :: owner in u.tokensPerOwner.value <==> NftSupplyForOwner(u, owner) != Success(0))
      && ListingsPartition(u)
  {
    IndexAgrees(s, calls);
    SuppliesPartitionTokens(Run(s, calls));
    ListingsPartitionTokens(Run(s, calls));
  }

  /** The events of a run tell every owner, and each transfer event the true previous one. */
  lemma EventReplay(s: State, calls: seq<Call>, t: TokenId)
    requires IsInitial(s)
    ensures var u := Run(s, calls);
      && NamesTrueOwners(u.log)
      && (!SilentlyMinted(u.log, t) ==> Lookup(Owners(u.log), t) == Lookup(u.ownerById, t))
  {
    InitialInv(s);
    RunKeepsInv(s, calls);
    assert OwnerKnown(Run(s, calls), t);
  }

  /** Even a transfer by an approved account is reported without its authorizer. */
  lemma NoAuthorizerIsReported(s: State, calls: seq<Call>)
    requires IsInitial(s)
    ensures NamesNoAuthorizer(Run(s, calls).log)
  {
    InitialInv(s);
    RunKeepsInv(s, calls);
  }

  // Approval ids

  /** Counting up from 1 in 64 bits repeats after 2^64 ids, and drops to 0 at the last of those. */
  lemma CountedIds(ids: seq<nat>)
    requires forall n :: 0 <= n < |ids| ==> ids[n] == NthId(n)
    ensures NoDuplicates(ids) <==> |ids| <= U64_SIZE
    ensures (forall i, j :: 0 <= i < j < |ids| ==> ids[i] < ids[j]) <==> |ids| < U64_SIZE
  {
    if |ids| <= U64_SIZE {
      forall i, j | 0 <= i < j < |ids|
        ensures ids[i] != ids[j]
      {
        NthIdsDiffer(i, j);
      }
    } else {
      assert ids[0] == NthId(0) == NthId(U64_SIZE) == ids[U64_SIZE];
    }
    if |ids| >= U64_SIZE {
      assert ids[0] == NthId(0) == 1 && ids[U64_SIZE - 1] == NthId(U64_SIZE - 1) == 0;
    }
  }

  /** So no id of a token is issued twice, and ids strictly increase, for just that many approvals. */
  lemma IssuedIdsAreFresh(s: State, calls: seq<Call>, t: TokenId)
    requires IsInitial(s)
    ensures var ids := IssuedIds(Run(s, calls).log, t);
      && (NoDuplicates(ids) <==> |ids| <= U64_SIZE)
      && ((forall i, j :: 0 <= i < j < |ids| ==> ids[i] < ids[j]) <==> |ids| < U64_SIZE)
  {
    InitialInv(s);
    RunKeepsInv(s, calls);
    assert CountedFor(Run(s, calls), t);
    CountedIds(IssuedIds(Run(s, calls).log, t));
  }

  /** No approval id of a token is held in two places, stored or captured, until the ids start over. */
  lemma ApprovalIdsAreLinear(s: State, calls: seq<Call>, t: TokenId)
    requires IsInitial(s) && |IssuedIds(Run(s, calls).log, t)| <= U64_SIZE
    ensures Linear(Run(s, calls), t)
    ensures forall slot, id :: Holds(Run(s, calls), t, slot, id) ==> id in IssuedIds(Run(s, calls).log, t)
  {
    InitialInv(s);
    RunKeepsInv(s, calls);
  }

  // Solvency

  /** The bytes that the calls of a run refunded and left in place. */
  ghost function LeftBehindIn(s: State, calls: seq<Call>): nat {
    if calls == [] then 0
    else LeftBehindIn(s, calls[..|calls| - 1]) + LeftBehind(Run(s, calls[..|calls| - 1]), calls[|calls| - 1])
  }

  lemma {:induction false} RunSurplus(s: State, calls: seq<Call>)
    requires WellKept(s) && InFlight(s)
    ensures WellKept(Run(s, calls)) && InFlight(Run(s, calls))
    ensures Run(s, calls).byteCost == s.byteCost
    ensures Surplus(Run(s, calls)) >= Surplus(s) - s.byteCost * LeftBehindIn(s, calls)
  {
    if calls != [] {
      var init, c := calls[..|calls| - 1], calls[|calls| - 1];
      RunSurplus(s, init);
      var before := Run(s, init);
      var left, more := LeftBehindIn(s, init), LeftBehind(before, c);
      StepSurplus(before, c);
      ChainSurplus(s.byteCost, Surplus(s), Surplus(before), Surplus(Step(before, c)), left, more);
    }
  }

  lemma ChainSurplus(k: int, first: int, before: int, after: int, left: int, more: int)
    requires before >= first - k * left && after >= before - k * more
    ensures after >= first - k * (left + more)
  {
    Adds(k, left, more);
  }

  lemma StepSurplus(s: State, c: Call)
    requires WellKept(s) && InFlight(s)
    ensures WellKept(Step(s, c)) && InFlight(Step(s, c))
    ensures Step(s, c).byteCost == s.byteCost
    ensures Surplus(Step(s, c)) >= Surplus(s) - s.byteCost * LeftBehind(s, c)
  {
    StepKeepsWell(s, c);
    StepKeepsInFlight(s, c);
    var _ := StepAccounts(s, c);
    StepKeepsSurplus(s, c);
  }

  lemma Adds(k: int, a: int, b: int)
    ensures k * (a + b) == k * a + k * b
  {
  }

  /** Approval deposits, with what was refunded too often added back, cover all approvals held. */
  lemma EscrowCoversApprovals(s: State, calls: seq<Call>)
    requires IsInitial(s)
    ensures var u := Run(s, calls);
      Escrow(u.log) + s.byteCost * LeftBehindIn(s, calls) >= s.byteCost * HeldBytes(u)
  {
    InitialInv(s);
    RunSurplus(s, calls);
    assert HeldBytes(s) == 0;
    assert Surplus(s) == 0;
  }

  lemma HeldCoversToken(s: State, t: TokenId)
    ensures s.byteCost * HeldBytes(s) >= s.byteCost * BytesAt(s, t)
  {
    if ApprovalsOf(s, t).Some? {
      SumSplit(s.approvalsById.value, ApprovalsWeight, t);
    }
    Adds(s.byteCost, BytesAt(s, t), HeldBytes(s) - BytesAt(s, t));
  }

  /** So unless some revert left refunded approvals in place, every refund by nft_revoke_all is covered. */
  lemma RevokeAllIsCovered(s: State, calls: seq<Call>, t: TokenId)
    requires IsInitial(s) && LeftBehindIn(s, calls) == 0
    ensures var u := Run(s, calls); Escrow(u.log) >= u.byteCost * HeldBytes(u) >= u.byteCost * BytesAt(u, t)
  {
    InitialInv(s);
    RunSurplus(s, calls);
    EscrowCoversApprovals(s, calls);
    HeldCoversToken(Run(s, calls), t);
  }

  /** A token is minted for its storage cost and sent by transfer call, and the receiver approves a friend. */
  ghost function SentAndApproved(owner: AccountId, receiver: AccountId, friend: AccountId, t: TokenId, byteCost: nat,
                                 used: nat): State {
    var mint := InternalMint(Env(owner, byteCost * used, 0), t, owner, None, used);
    var send := NftTransferCall(Env(owner, 1, GAS_FOR_NFT_TRANSFER_CALL + 1), receiver, t, None, None, "");
    var approve := NftApprove(Env(receiver, byteCost * AccountBytes(friend) + 1, 0), t, friend, None);
    Step(Step(Step(Initial(owner, byteCost, false, false, true), mint), send), approve)
  }

  lemma SentAndApprovedState(owner: AccountId, receiver: AccountId, friend: AccountId, t: TokenId, byteCost: nat, used: nat)
    requires owner != receiver
    ensures var s := SentAndApproved(owner, receiver, friend, t, byteCost, used);
      && s.byteCost == byteCost
      && s.ownerById == map[t := receiver]
      && s.pending == map[0 := Receipt(owner, receiver, t, None)]
      && s.approvalsById == Some(map[t := map[friend := 1]])
      && Escrow(s.log) == byteCost * AccountBytes(friend) + 1
  {
    var mint := InternalMint(Env(owner, byteCost * used, 0), t, owner, None, used);
    var s1 := Step(Initial(owner, byteCost, false, false, true), mint);
    assert s1.ownerById == map[t := owner] && s1.approvalsById == Some(map[]) && Escrow(s1.log) == 0;
    var send := NftTransferCall(Env(owner, 1, GAS_FOR_NFT_TRANSFER_CALL + 1), receiver, t, None, None, "");
    var s2 := Step(s1, send);
    assert s2.ownerById == map[t := receiver] && s2.approvalsById == Some(map[]) && Escrow(s2.log) == 0;
    assert s2.pending == map[0 := Receipt(owner, receiver, t, None)];
  }

  /**
   When the callback then takes the token back, the friend is still approved for it although the
   receiver has its deposit back: one yocto is left of the approval deposits, yet the owner of before
   may ask for the same refund again.
   */
  lemma RevertCanLeaveApprovals(owner: AccountId, receiver: AccountId, friend: AccountId, t: TokenId, byteCost: nat, used: nat)
    requires owner != receiver
    ensures var s := SentAndApproved(owner, receiver, friend, t, byteCost, used);
      var back := NftResolveTransfer(0, Failed);
      var o := Apply(s, back);
      var revoke := RevokeAll(Step(s, back), Env(owner, 1, 0), t);
      && o.Done?
      && o.next.ownerById[t] == owner
      && NftIsApproved(o.next, t, friend, None) == Success(true)
      && LeftBehind(s, back) == AccountBytes(friend)
      && o.out.paid == Some(Payment(receiver, byteCost * AccountBytes(friend)))
      && Escrow(Step(s, back).log) == 1
      && Surplus(Step(s, back)) == 1 - byteCost * AccountBytes(friend)
      && revoke.Done? && revoke.out.paid == Some(Payment(owner, byteCost * AccountBytes(friend)))
  {
    SentAndApprovedState(owner, receiver, friend, t, byteCost, used);
    OneApproval(friend, 1);
    var after := Step(SentAndApproved(owner, receiver, friend, t, byteCost, used), NftResolveTransfer(0, Failed));
    assert after.approvalsById == Some(map[t := map[friend := 1]]) && after.pending == map[];
    OnlyHeld(after, t, map[friend := 1]);
  }

  /** With a single token approved and nothing pending, its approvals are all there are. */
  lemma OnlyHeld(s: State, t: TokenId, approvals: Approvals)
    requires s.approvalsById == Some(map[t := approvals]) && s.pending == map[]
    ensures HeldBytes(s) == ApprovalBytes(approvals)
  {
    var stored: map<TokenId, Approvals> := map[t := approvals];
    SumSplit(stored, ApprovalsWeight, t);
    assert stored - {t} == map[];
  }

  lemma OneApproval(account: AccountId, id: nat)
    ensures ApprovalBytes(map[account := id]) == AccountBytes(account)
  {
    var approvals: Approvals := map[account := id];
    SumSplit(approvals, ApprovalWeight, account);
    assert approvals - {account} == map[];
  }

  // Rollback

  /** A callback that reports the token kept changes no collection. */
  lemma KeptChangesNothing(s: State, id: nat, result: PromiseResult)
    requires Resolve(s, id, result).Done? && Resolve(s, id, result).reply == Kept(true)
    ensures Resolve(s, id, result).next == s.(pending := s.pending - {id})
  {
  }

  /** The receiver has not answered that it keeps the token, and still has it. */
  predicate TakesBack(s: State, r: Receipt, result: PromiseResult) {
    result != NotReady && result != Successful(Some(false)) && Owns(s.ownerById, r.receiver, r.token)
  }

  /**
   A callback that takes the token back makes the previous owner the owner and touches no other
   token. The token then has exactly the approvals captured with it, unless none were captured and
   the receiver has made some: those stay.
   */
  lemma RevertRestores(s: State, id: nat, result: PromiseResult)
    requires Indexed(s) && InFlight(s) && id in s.pending && TakesBack(s, s.pending[id], result)
    ensures var r := s.pending[id]; var o := Resolve(s, id, result);
      && o.Done? && o.reply == Kept(false)
      && o.next.ownerById == s.ownerById[r.token := r.previousOwner]
      && Indexed(o.next)
      && (forall t :: t != r.token ==> ApprovalsOf(o.next, t) == ApprovalsOf(s, t))
      && (ApprovalsOf(o.next, r.token) == r.approvals <==> r.approvals.Some? || ApprovalsOf(s, r.token).None?)
      && (r.approvals.None? ==> ApprovalsOf(o.next, r.token) == ApprovalsOf(s, r.token))
  {
    StepIndexes(s, NftResolveTransfer(id, result));
  }

  lemma {:induction false} PendingIsStable(s: State, calls: seq<Call>, id: nat)
    requires WellKept(s) && InFlight(s) && id < s.nextReceipt
    ensures WellKept(Run(s, calls)) && InFlight(Run(s, calls)) && id < Run(s, calls).nextReceipt
    ensures id in Run(s, calls).pending ==> id in s.pending && Run(s, calls).pending[id] == s.pending[id]
  {
    if calls != [] {
      var before := Run(s, calls[..|calls| - 1]);
      PendingIsStable(s, calls[..|calls| - 1], id);
      StepKeepsWell(before, calls[|calls| - 1]);
      StepKeepsInFlight(before, calls[|calls| - 1]);
      ReceiptIsStable(before, calls[|calls| - 1], id);
    }
  }

  lemma ReceiptIsStable(s: State, c: Call, id: nat)
    requires id < s.nextReceipt
    ensures id < Step(s, c).nextReceipt
    ensures id in Step(s, c).pending ==> id in s.pending && Step(s, c).pending[id] == s.pending[id]
  {
    StepSchedules(s, c);
  }

  /**
   The callback of a transfer call, whatever ran in between. Unless the receiver answers that it keeps
   the token, or has it no longer, the token goes back to its owner of before the call, with the
   approvals of before the call: just when there were some, or the receiver has left none. Otherwise
   owners, index and approvals stay.
   */
  lemma RollbackAfterAnything(s: State, env: Env, receiver: AccountId, t: TokenId, approvalId: Option<nat>,
                              memo: Option<string>, msg: string, between: seq<Call>, result: PromiseResult)
    requires Inv(s) && result != NotReady
    requires TransferCall(s, env, receiver, t, approvalId, memo, msg).Done?
    requires s.nextReceipt in Run(Step(s, NftTransferCall(env, receiver, t, approvalId, memo, msg)), between).pending
    ensures
      var u := Run(Step(s, NftTransferCall(env, receiver, t, approvalId, memo, msg)), between);
      var v := Step(u, NftResolveTransfer(s.nextReceipt, result));
      if result != Successful(Some(false)) && Owns(u.ownerById, receiver, t) then
        && v.ownerById == u.ownerById[t := s.ownerById[t]]
        && Indexed(v)
        && (ApprovalsOf(v, t) == ApprovalsOf(s, t) <==> ApprovalsOf(s, t).Some? || ApprovalsOf(u, t).None?)
      else
        v.ownerById == u.ownerById && v.tokensPerOwner == u.tokensPerOwner && v.approvalsById == u.approvalsById
  {
    var c := NftTransferCall(env, receiver, t, approvalId, memo, msg);
    var sent := Step(s, c);
    StepKeepsInv(s, c);
    RunKeepsInv(sent, between);
    PendingIsStable(sent, between, s.nextReceipt);
    var u := Run(sent, between);
    assert u.pending[s.nextReceipt] == Receipt(s.ownerById[t], receiver, t, ApprovalsOf(s, t));
    if TakesBack(u, u.pending[s.nextReceipt], result) {
      RevertRestores(u, s.nextReceipt, result);
    } else {
      AnswerDecidesOwner(u, s.nextReceipt, result);
    }
  }

  // Who may move a token

  /** A token changes hands only by a call of someone who may move it, or back by a revert. */
  lemma OwnerChangesByAuthority(s: State, c: Call, t: TokenId)
    requires t in s.ownerById
    ensures t in Step(s, c).ownerById
    ensures Step(s, c).ownerById[t] != s.ownerById[t] ==>
      || (c.NftTransfer? && c.token == t && MayMove(s, t, c.env.predecessor, c.approvalId))
      || (c.NftTransferCall? && c.token == t && MayMove(s, t, c.env.predecessor, c.approvalId))
      || (c.NftResolveTransfer? && c.receiptId in s.pending && s.pending[c.receiptId].token == t
          && s.ownerById[t] == s.pending[c.receiptId].receiver
          && Step(s, c).ownerById[t] == s.pending[c.receiptId].previousOwner)
  {
  }

  /** The token is x's, nobody is approved for it, and no callback can take it from x. */
  ghost predicate Secure(s: State, t: TokenId, x: AccountId) {
    && Owns(s.ownerById, x, t)
    && ApprovalsOf(s, t).None?
    && forall id :: id in s.pending ==> s.pending[id].token != t || s.pending[id].receiver != x
  }

  predicate CalledBy(c: Call, x: AccountId) {
    !c.NftResolveTransfer? && c.env.predecessor == x
  }

  lemma IdleStep(s: State, c: Call, t: TokenId, x: AccountId)
    requires Secure(s, t, x) && !CalledBy(c, x)
    ensures Secure(Step(s, c), t, x)
  {
    OwnerChangesByAuthority(s, c, t);
    NobodyApproves(s, c, t, x);
    if c.NftTransferCall? && c.token == t {
      NobodySends(s, c, t, x);
    }
    StepSchedules(s, c);
  }

  lemma NobodyApproves(s: State, c: Call, t: TokenId, x: AccountId)
    requires Secure(s, t, x) && !CalledBy(c, x)
    ensures ApprovalsOf(Step(s, c), t).None?
  {
  }

  lemma NobodySends(s: State, c: Call, t: TokenId, x: AccountId)
    requires Secure(s, t, x) && !CalledBy(c, x) && c.NftTransferCall? && c.token == t
    ensures Step(s, c) == s
  {
  }

  /** An owner that makes no call keeps such a token, whatever everybody else does. */
  lemma {:induction false} IdleOwnerKeepsToken(s: State, calls: seq<Call>, t: TokenId, x: AccountId)
    requires Secure(s, t, x)
    requires forall c :: c in calls ==> !CalledBy(c, x)
    ensures Secure(Run(s, calls), t, x)
  {
    if calls != [] {
      IdleOwnerKeepsToken(s, calls[..|calls| - 1], t, x);
      IdleStep(Run(s, calls[..|calls| - 1]), calls[|calls| - 1], t, x);
    }
  }

  // Minting

  /** A mint returns the token that nft_token then shows, just when metadata is given iff it is kept. */
  lemma MintShowsToken(s: State, env: Env, t: TokenId, owner: AccountId, metadata: Option<Metadata>, storageUsed: nat,
                       refundTo: Option<AccountId>, event: Event)
    requires WellKept(s)
    requires MintToken(s, env, t, owner, metadata, storageUsed, refundTo, event).Done?
    ensures var o := MintToken(s, env, t, owner, metadata, storageUsed, refundTo, event);
      && o.reply.Minted?
      && (NftToken(o.next, t) == Some(o.reply.token) <==> (metadata.Some? <==> s.metadataById.Some?))
  {
  }
}
