/**
 The non-fungible token contract as it is written: collections updated in place, one statement at
 a time. Every entry point is proved to do what NonFungibleToken.Apply says; in particular the
 panic on a missing list of an owner's tokens can never happen.
 */
module NonFungibleTokenContract {
  import opened Prelude
  import N = NonFungibleToken
  import I = NonFungibleTokenIndex
  import A = NonFungibleTokenApprovals

  /** The method did what the outcome says, with its effects in out. */
  ghost predicate Matches(r: Result<N.Reply, N.Reason>, now: N.State, out: N.Out, o: N.Outcome) {
    match o
    case Done(t, reply, told) => r == Success(reply) && now == t && out == told
    case Panicked(why) => r == Failure(why)
  }

  ghost predicate Sound(s: N.State) {
    I.Indexed(s) && A.WellKept(s) && A.InFlight(s)
  }

  lemma StepIsSound(s: N.State, c: N.Call)
    requires Sound(s)
    ensures Sound(N.Step(s, c))
  {
    I.StepIndexes(s, c);
    A.StepKeepsWell(s, c);
    A.StepKeepsInFlight(s, c);
  }

  /** refund_approved_account_ids_iter: adds up the bytes of the accounts, in any order. */
  method StorageReleased(approvals: N.Approvals) returns (bytes: nat)
    ensures bytes == N.ApprovalBytes(approvals)
  {
    bytes := 0;
    var rest := approvals;
    while rest.Keys != {}
      invariant bytes + N.ApprovalBytes(rest) == N.ApprovalBytes(approvals)
      decreases |rest|
    {
      var account :| account in rest.Keys;
      SizeWithout(rest, account);
      SumSplit(rest, N.ApprovalWeight, account);
      bytes := bytes + N.AccountBytes(account);
      rest := rest - {account};
    }
    assert rest == map[];
  }

  const TMP_ID := seq(64, _ => 'a')

  class NonFungibleToken {
    var contractOwner: AccountId
    var extraStorageInBytesPerToken: nat
    var ownerById: map<N.TokenId, AccountId>
    var metadataById: Option<map<N.TokenId, N.Metadata>>
    var tokensPerOwner: Option<N.Index>
    var approvalsById: Option<map<N.TokenId, N.Approvals>>
    var nextApprovalIdById: Option<map<N.TokenId, nat>>
    const byteCost: nat

    // The host's side: callbacks to run, what the running call has told it, and the history.
    var pending: map<nat, N.Receipt>
    var nextReceipt: nat
    var out: N.Out
    ghost var log: N.Log

    ghost function View(): N.State
      reads this
    {
      N.State(contractOwner, byteCost, ownerById, metadataById, tokensPerOwner, approvalsById, nextApprovalIdById,
              pending, nextReceipt, log)
    }

    ghost predicate Valid()
      reads this
    {
      Sound(View())
    }

    constructor (contractOwner: AccountId, byteCost: nat, metadata: bool, enumeration: bool, approval: bool, tokenBytes: nat)
      ensures Valid()
      ensures View() == N.Initial(contractOwner, byteCost, metadata, enumeration, approval)
    {
      this.contractOwner, this.byteCost, extraStorageInBytesPerToken := contractOwner, byteCost, 0;
      ownerById := map[];
      metadataById := if metadata then Some(map[]) else None;
      tokensPerOwner := if enumeration then Some(map[]) else None;
      approvalsById := if approval then Some(map[]) else None;
      nextApprovalIdById := if approval then Some(map[]) else None;
      pending, nextReceipt, out, log := map[], 0, N.QUIET, N.Empty;
      new;
      assert enumeration ==> forall owner, t :: !I.Lists(tokensPerOwner.value, owner, t);
      MeasureMinTokenStorageCost(N.TokenId(TMP_ID), AccountId(TMP_ID), tokenBytes);
    }

    /** Stores a dummy token with everything a token can have, reads how the storage grew, and rolls it back. */
    method MeasureMinTokenStorageCost(token: N.TokenId, owner: AccountId, tokenBytes: nat)
      modifies this`extraStorageInBytesPerToken, this`ownerById, this`metadataById, this`tokensPerOwner,
               this`approvalsById, this`nextApprovalIdById
      ensures extraStorageInBytesPerToken == tokenBytes
      ensures ownerById == old(ownerById) - {token}
      ensures metadataById == Without(old(metadataById), token)
      ensures tokensPerOwner == Without(old(tokensPerOwner), owner)
      ensures approvalsById == Without(old(approvalsById), token)
      ensures nextApprovalIdById == Without(old(nextApprovalIdById), token)
    {
      SetThenRemoved(Some(ownerById), token, owner);
      SetThenRemoved(metadataById, token, N.Metadata(owner.name));
      SetThenRemoved(tokensPerOwner, owner, [token]);
      SetThenRemoved(approvalsById, token, map[owner := 1]);
      SetThenRemoved(nextApprovalIdById, token, 1);
      SetDummyData(token, owner);
      extraStorageInBytesPerToken := tokenBytes;
      RollBackDummyData(token, owner);
    }

    method SetDummyData(token: N.TokenId, owner: AccountId)
      modifies this`ownerById, this`metadataById, this`tokensPerOwner, this`approvalsById, this`nextApprovalIdById
      ensures ownerById == old(ownerById)[token := owner]
      ensures metadataById == With(old(metadataById), token, N.Metadata(owner.name))
      ensures tokensPerOwner == With(old(tokensPerOwner), owner, [token])
      ensures approvalsById == With(old(approvalsById), token, map[owner := 1])
      ensures nextApprovalIdById == With(old(nextApprovalIdById), token, 1)
    {
      ownerById := ownerById[token := owner];
      if metadataById.Some? {
        metadataById := Some(metadataById.value[token := N.Metadata(owner.name)]);
      }
      if tokensPerOwner.Some? {
        tokensPerOwner := Some(tokensPerOwner.value[owner := [token]]);
      }
      if approvalsById.Some? {
        approvalsById := Some(approvalsById.value[token := map[owner := 1]]);
      }
      if nextApprovalIdById.Some? {
        nextApprovalIdById := Some(nextApprovalIdById.value[token := 1]);
      }
    }

    method RollBackDummyData(token: N.TokenId, owner: AccountId)
      modifies this`ownerById, this`metadataById, this`tokensPerOwner, this`approvalsById, this`nextApprovalIdById
      ensures ownerById == old(ownerById) - {token}
      ensures metadataById == Without(old(metadataById), token)
      ensures tokensPerOwner == Without(old(tokensPerOwner), owner)
      ensures approvalsById == Without(old(approvalsById), token)
      ensures nextApprovalIdById == Without(old(nextApprovalIdById), token)
    {
      if nextApprovalIdById.Some? {
        nextApprovalIdById := Some(nextApprovalIdById.value - {token});
      }
      if approvalsById.Some? {
        approvalsById := Some(approvalsById.value - {token});
      }
      if tokensPerOwner.Some? {
        tokensPerOwner := Some(tokensPerOwner.value - {owner});
      }
      if metadataById.Some? {
        metadataById := Some(metadataById.value - {token});
      }
      ownerById := ownerById - {token};
    }

    static function With<K, V>(m: Option<map<K, V>>, k: K, v: V): Option<map<K, V>> {
      if m.Some? then Some(m.value[k := v]) else None
    }

    static function Without<K, V>(m: Option<map<K, V>>, k: K): Option<map<K, V>> {
      if m.Some? then Some(m.value - {k}) else None
    }

    static lemma SetThenRemoved<K, V>(m: Option<map<K, V>>, k: K, v: V)
      ensures Without(With(m, k, v), k) == Without(m, k)
    {
      if m.Some? {
        assert m.value[k := v] - {k} == m.value - {k};
      }
    }

    method InternalTransferUnguarded(t: N.TokenId, from: AccountId, to: AccountId) returns (r: Result<N.Reply, N.Reason>)
      requires I.Indexed(View()) && I.Owns(ownerById, from, t)
      modifies this`ownerById, this`tokensPerOwner
      ensures r == Success(N.Nothing)
      ensures View() == N.MoveToken(old(View()), t, from, to)
      ensures I.Indexed(View())
    {
      I.MoveTokenIndexes(View(), t, to);
      ownerById := ownerById[t := to];
      if tokensPerOwner.Some? {
        var index := tokensPerOwner.value;
        if from !in index {
          return Failure(N.NoTokensOfOwner);
        }
        var ownerTokens := N.SetRemove(index[from], t);
        if ownerTokens == [] {
          index := index - {from};
        } else {
          index := index[from := ownerTokens];
        }
        var receiverTokens := if to in index then index[to] else [];
        receiverTokens := N.SetInsert(receiverTokens, t);
        index := index[to := receiverTokens];
        tokensPerOwner := Some(index);
      }
      return Success(N.Nothing);
    }

    /** Notes the transfer; the sender is passed on only if it is the owner. */
    method EmitTransfer(owner: AccountId, receiver: AccountId, t: N.TokenId, sender: Option<AccountId>, memo: Option<string>)
      modifies this`out
      ensures out == old(out).(event := N.TransferEvent(owner, receiver, t,
        if sender == Some(owner) then sender else None, memo))
    {
      var authorized := if sender.Some? && sender.value == owner then sender else None;
      out := out.(event := N.TransferEvent(owner, receiver, t, authorized, memo));
    }

    /** Returns the previous owner and the approvals that ended. */
    method InternalTransfer(sender: AccountId, receiver: AccountId, t: N.TokenId, approvalId: Option<nat>, memo: Option<string>)
      returns (r: Result<(AccountId, Option<N.Approvals>), N.Reason>)
      requires I.Indexed(View()) && out == N.ONE_YOCTO
      modifies this`ownerById, this`tokensPerOwner, this`approvalsById, this`out
      ensures match N.Transfer(old(View()), sender, receiver, t, approvalId, memo)
        case Done(next, _, told) =>
          && r == Success((old(ownerById)[t], N.ApprovalsOf(old(View()), t)))
          && View() == next && out == told
        case Panicked(why) => r == Failure(why)
    {
      if t !in ownerById {
        return Failure(N.TokenNotFound);
      }
      var owner := ownerById[t];
      var approvals := None;
      if approvalsById.Some? {
        approvals := N.Lookup(approvalsById.value, t);
        approvalsById := Some(approvalsById.value - {t});
      }
      var authorized := None;
      if sender != owner {
        if approvals.None? {
          return Failure(N.Unauthorized);
        }
        var actual := N.Lookup(approvals.value, sender);
        if actual.None? {
          return Failure(N.SenderNotApproved);
        }
        if !(approvalId.None? || actual == approvalId) {
          return Failure(N.WrongApprovalId);
        }
        authorized := Some(sender);
      }
      if owner == receiver {
        return Failure(N.OwnerIsReceiver);
      }
      var moved := InternalTransferUnguarded(t, owner, receiver);
      match moved {
        case Failure(why) => return Failure(why);
        case Success(_) =>
      }
      EmitTransfer(owner, receiver, t, authorized, memo);
      return Success((owner, approvals));
    }

    method AssertOneYocto(env: N.Env) returns (r: Result<N.Reply, N.Reason>)
      modifies this`out
      ensures env.attachedDeposit != 1 ==> r == Failure(N.OneYoctoRequired)
      ensures env.attachedDeposit == 1 ==> r == Success(N.Nothing) && out == old(out).(received := 1)
    {
      if env.attachedDeposit != 1 {
        return Failure(N.OneYoctoRequired);
      }
      out := out.(received := env.attachedDeposit);
      return Success(N.Nothing);
    }

    method NftTransfer(env: N.Env, receiver: AccountId, t: N.TokenId, approvalId: Option<nat>, memo: Option<string>)
      returns (r: Result<N.Reply, N.Reason>)
      requires I.Indexed(View()) && out == N.QUIET
      modifies this`ownerById, this`tokensPerOwner, this`approvalsById, this`out
      ensures Matches(r, View(), out, N.Apply(old(View()), N.NftTransfer(env, receiver, t, approvalId, memo)))
    {
      var _ :- AssertOneYocto(env);
      var _ :- InternalTransfer(env.predecessor, receiver, t, approvalId, memo);
      return Success(N.Nothing);
    }

    method NftTransferCall(env: N.Env, receiver: AccountId, t: N.TokenId, approvalId: Option<nat>, memo: Option<string>,
                           msg: string)
      returns (r: Result<N.Reply, N.Reason>)
      requires I.Indexed(View()) && out == N.QUIET
      modifies this`ownerById, this`tokensPerOwner, this`approvalsById, this`out, this`pending, this`nextReceipt
      ensures Matches(r, View(), out, N.TransferCall(old(View()), env, receiver, t, approvalId, memo, msg))
    {
      var _ :- AssertOneYocto(env);
      if !(env.prepaidGas > N.GAS_FOR_NFT_TRANSFER_CALL) {
        return Failure(N.MoreGasRequired);
      }
      var before :- InternalTransfer(env.predecessor, receiver, t, approvalId, memo);
      var id := nextReceipt;
      pending := pending[id := N.Receipt(before.0, receiver, t, before.1)];
      nextReceipt := id + 1;
      out := out.(callback := N.Scheduled(id, env.prepaidGas - N.GAS_FOR_NFT_TRANSFER_CALL, env.predecessor, msg));
      return Success(N.Promise(id));
    }

    method RefundApprovedAccountIds(to: AccountId, approvals: N.Approvals)
      modifies this`out
      ensures out == old(out).(paid := N.Refund(View(), to, Some(approvals)))
    {
      var bytes := StorageReleased(approvals);
      out := out.(paid := Some(N.Payment(to, byteCost * bytes)));
    }

    /** The private callback; the host runs it for a pending receipt only. */
    method NftResolveTransfer(id: nat, result: N.PromiseResult) returns (r: Result<N.Reply, N.Reason>)
      requires I.Indexed(View()) && out == N.QUIET
      modifies this`ownerById, this`tokensPerOwner, this`approvalsById, this`out, this`pending
      ensures Matches(r, View(), out, N.Resolve(old(View()), id, result))
    {
      if id !in pending {
        return Failure(N.PrivateMethod);
      }
      var receipt := pending[id];
      var mustRevert;
      match result {
        case Successful(Some(yesOrNo)) => mustRevert := yesOrNo;
        case Successful(None) => mustRevert := true;
        case Failed => mustRevert := true;
        case NotReady => return Failure(N.PromiseNotReady);
      }
      pending := pending - {id};
      out := out.(callback := N.Resolved(id));
      if !mustRevert {
        return Success(N.Kept(true));
      }
      if receipt.token in ownerById {
        if ownerById[receipt.token] != receipt.receiver {
          return Success(N.Kept(true));
        }
      } else {
        if receipt.approvals.Some? {
          RefundApprovedAccountIds(receipt.previousOwner, receipt.approvals.value);
        }
        return Success(N.Kept(true));
      }
      var moved := InternalTransferUnguarded(receipt.token, receipt.receiver, receipt.previousOwner);
      match moved {
        case Failure(why) => return Failure(why);
        case Success(_) =>
      }
      if approvalsById.Some? {
        if receipt.token in approvalsById.value {
          RefundApprovedAccountIds(receipt.receiver, approvalsById.value[receipt.token]);
        }
        if receipt.approvals.Some? {
          approvalsById := Some(approvalsById.value[receipt.token := receipt.approvals.value]);
        }
      }
      EmitTransfer(receipt.receiver, receipt.previousOwner, receipt.token, None, None);
      return Success(N.Kept(false));
    }

    /** Takes the cost out of the attached deposit and sends the rest back. */
    method RefundDepositToAccount(env: N.Env, storageUsed: nat, to: AccountId) returns (r: Result<N.Reply, N.Reason>)
      requires out.paid == None
      modifies this`out
      ensures env.attachedDeposit < byteCost * storageUsed ==> r == Failure(N.DepositTooSmall)
      ensures env.attachedDeposit >= byteCost * storageUsed ==>
        && r == Success(N.Nothing)
        && out == old(out).(paid := N.Change(to, env.attachedDeposit, byteCost * storageUsed))
    {
      var requiredCost := byteCost * storageUsed;
      if !(requiredCost <= env.attachedDeposit) {
        return Failure(N.DepositTooSmall);
      }
      var refund := env.attachedDeposit - requiredCost;
      if refund > 1 {
        out := out.(paid := Some(N.Payment(to, refund)));
      }
      return Success(N.Nothing);
    }

    /** Enters the approval under the next id; the caller learns the id and whether the entry is new. */
    method RecordApproval(t: N.TokenId, account: AccountId) returns (id: nat, isNew: bool)
      requires approvalsById.Some? && nextApprovalIdById.Some?
      modifies this`approvalsById, this`nextApprovalIdById
      ensures id == N.NextApprovalId(old(View()), t)
      ensures var before := N.ApprovalsOf(old(View()), t).GetOr(map[]);
        && isNew == (account !in before)
        && View() == N.WithApprovals(old(View()), t, Some(before[account := id]))
                       .(nextApprovalIdById := Some(old(nextApprovalIdById).value[t := N.Wrap(id + 1)]))
    {
      var approvals: N.Approvals := if t in approvalsById.value then approvalsById.value[t] else map[];
      id := if t in nextApprovalIdById.value then nextApprovalIdById.value[t] else 1;
      isNew := account !in approvals;
      approvals := approvals[account := id];
      approvalsById := Some(approvalsById.value[t := approvals]);
      nextApprovalIdById := Some(nextApprovalIdById.value[t := N.Wrap(id + 1)]);
    }

    method NftApprove(env: N.Env, t: N.TokenId, account: AccountId, notify: Option<string>) returns (r: Result<N.Reply, N.Reason>)
      requires A.WellKept(View()) && out == N.QUIET
      modifies this`approvalsById, this`nextApprovalIdById, this`out
      ensures Matches(r, View(), out, N.Approve(old(View()), env, t, account, notify))
    {
      if !(env.attachedDeposit >= 1) {
        return Failure(N.AtLeastOneYoctoRequired);
      }
      out := out.(received := env.attachedDeposit, purpose := N.ForApproval);
      if approvalsById.None? {
        return Failure(N.NoApprovalManagement);
      }
      if t !in ownerById {
        return Failure(N.TokenNotFound);
      }
      var owner := ownerById[t];
      if env.predecessor != owner {
        return Failure(N.NotTheOwner);
      }
      if nextApprovalIdById.None? {
        return Failure(N.NextApprovalIdUnset);
      }
      var id, isNew := RecordApproval(t, account);
      out := out.(issued := Some(N.Issue(t, account, id)));
      var storageUsed := if isNew then N.AccountBytes(account) else 0;
      var _ :- RefundDepositToAccount(env, storageUsed, env.predecessor);
      ScheduleNotice(env, account, t, owner, id, notify);
      return Success(N.Nothing);
    }

    /** Given a message, schedules nft_on_approve on the approved account. */
    method ScheduleNotice(env: N.Env, account: AccountId, t: N.TokenId, owner: AccountId, id: nat, notify: Option<string>)
      requires owner == env.predecessor && out.callback == N.NoCallback
      modifies this`out
      ensures out == old(out).(callback := N.Notice(env, t, account, id, notify))
    {
      if notify.Some? {
        var gas := N.Wrap(env.prepaidGas - N.GAS_FOR_NFT_APPROVE);
        out := out.(callback := N.ApprovalNotice(account, gas, t, owner, id, notify.value));
      }
    }

    method NftRevoke(env: N.Env, t: N.TokenId, account: AccountId) returns (r: Result<N.Reply, N.Reason>)
      requires out == N.QUIET
      modifies this`approvalsById, this`out
      ensures Matches(r, View(), out, N.Revoke(old(View()), env, t, account))
    {
      var _ :- AssertOneYocto(env);
      if approvalsById.None? {
        return Failure(N.NoApprovalManagement);
      }
      if t !in ownerById {
        return Failure(N.TokenNotFound);
      }
      if env.predecessor != ownerById[t] {
        return Failure(N.NotTheOwner);
      }
      if t in approvalsById.value {
        var approvals := approvalsById.value[t];
        if account in approvals {
          approvals := approvals - {account};
          out := out.(paid := Some(N.Payment(env.predecessor, byteCost * N.AccountBytes(account))));
          if approvals == map[] {
            approvalsById := Some(approvalsById.value - {t});
          } else {
            approvalsById := Some(approvalsById.value[t := approvals]);
          }
        }
      }
      return Success(N.Nothing);
    }

    method NftRevokeAll(env: N.Env, t: N.TokenId) returns (r: Result<N.Reply, N.Reason>)
      requires out == N.QUIET
      modifies this`approvalsById, this`out
      ensures Matches(r, View(), out, N.RevokeAll(old(View()), env, t))
    {
      var _ :- AssertOneYocto(env);
      if approvalsById.None? {
        return Failure(N.NoApprovalManagement);
      }
      if t !in ownerById {
        return Failure(N.TokenNotFound);
      }
      if env.predecessor != ownerById[t] {
        return Failure(N.NotTheOwner);
      }
      if t in approvalsById.value {
        RefundApprovedAccountIds(env.predecessor, approvalsById.value[t]);
        approvalsById := Some(approvalsById.value - {t});
      } else {
        assert approvalsById.value - {t} == approvalsById.value;
      }
      return Success(N.Nothing);
    }

    /** storageUsed is how much the host says the storage grew during the call. */
    method InternalMintWithRefund(env: N.Env, t: N.TokenId, owner: AccountId, metadata: Option<N.Metadata>, storageUsed: nat,
                                  refundTo: Option<AccountId>)
      returns (r: Result<N.Token, N.Reason>)
      requires out == N.QUIET
      modifies this`ownerById, this`metadataById, this`tokensPerOwner, this`out
      ensures match N.MintToken(old(View()), env, t, owner, metadata, storageUsed, refundTo, N.NoEvent)
        case Done(next, reply, told) => r.Success? && reply == N.Minted(r.value) && View() == next && out == told
        case Panicked(why) => r == Failure(why)
    {
      out := out.(received := env.attachedDeposit, purpose := N.ForToken);
      if metadataById.Some? && metadata.None? {
        return Failure(N.MetadataRequired);
      }
      if t in ownerById {
        return Failure(N.TokenExists);
      }
      ownerById := ownerById[t := owner];
      if metadataById.Some? {
        metadataById := Some(metadataById.value[t := metadata.value]);
      }
      if tokensPerOwner.Some? {
        var tokens := if owner in tokensPerOwner.value then tokensPerOwner.value[owner] else [];
        tokens := N.SetInsert(tokens, t);
        tokensPerOwner := Some(tokensPerOwner.value[owner := tokens]);
      }
      var approvals: Option<N.Approvals> := if approvalsById.Some? then Some(map[]) else None;
      if refundTo.Some? {
        var _ :- RefundDepositToAccount(env, storageUsed, refundTo.value);
      }
      return Success(N.Token(t, owner, metadata, approvals));
    }

    method InternalMint(env: N.Env, t: N.TokenId, owner: AccountId, metadata: Option<N.Metadata>, storageUsed: nat)
      returns (r: Result<N.Reply, N.Reason>)
      requires out == N.QUIET
      modifies this`ownerById, this`metadataById, this`tokensPerOwner, this`out
      ensures Matches(r, View(), out, N.Apply(old(View()), N.InternalMint(env, t, owner, metadata, storageUsed)))
    {
      var token :- InternalMintWithRefund(env, t, owner, metadata, storageUsed, Some(env.predecessor));
      out := out.(event := N.MintEvent(token.owner, token.tokenId));
      return Success(N.Minted(token));
    }

    /** The deprecated entry point, for the contract's owner only. */
    method Mint(env: N.Env, t: N.TokenId, owner: AccountId, metadata: Option<N.Metadata>, storageUsed: nat)
      returns (r: Result<N.Reply, N.Reason>)
      requires out == N.QUIET
      modifies this`ownerById, this`metadataById, this`tokensPerOwner, this`out
      ensures Matches(r, View(), out, N.Apply(old(View()), N.Mint(env, t, owner, metadata, storageUsed)))
    {
      if env.predecessor != contractOwner {
        return Failure(N.NotTheContractOwner);
      }
      r := InternalMint(env, t, owner, metadata, storageUsed);
    }

    method Dispatch(c: N.Call) returns (r: Result<N.Reply, N.Reason>)
      requires Valid() && out == N.QUIET
      modifies this`ownerById, this`metadataById, this`tokensPerOwner, this`approvalsById, this`nextApprovalIdById,
               this`pending, this`nextReceipt, this`out
      ensures Matches(r, View(), out, N.Apply(old(View()), c))
    {
      match c {
        case NftTransfer(env, receiver, t, approvalId, memo) => r := NftTransfer(env, receiver, t, approvalId, memo);
        case NftTransferCall(env, receiver, t, approvalId, memo, msg) =>
          r := NftTransferCall(env, receiver, t, approvalId, memo, msg);
        case NftResolveTransfer(id, result) => r := NftResolveTransfer(id, result);
        case NftApprove(env, t, account, notify) => r := NftApprove(env, t, account, notify);
        case NftRevoke(env, t, account) => r := NftRevoke(env, t, account);
        case NftRevokeAll(env, t) => r := NftRevokeAll(env, t);
        case Mint(env, t, owner, metadata, used) => r := Mint(env, t, owner, metadata, used);
        case InternalMint(env, t, owner, metadata, used) => r := InternalMint(env, t, owner, metadata, used);
        case InternalMintWithRefund(env, t, owner, metadata, used, refundTo) =>
          var token :- InternalMintWithRefund(env, t, owner, metadata, used, refundTo);
          out := out.(event := N.MintedSilently(owner, t));
          return Success(N.Minted(token));
      }
    }

    /** One transaction: the host undoes everything a panicking call did. */
    method Execute(c: N.Call) returns (r: Result<N.Reply, N.Reason>)
      requires Valid() && out == N.QUIET
      modifies this
      ensures Valid() && out == N.QUIET
      ensures View() == N.Step(old(View()), c)
      ensures match N.Apply(old(View()), c)
        case Done(_, reply, _) => r == Success(reply)
        case Panicked(why) => r == Failure(why)
    {
      var owners, metadata, index := ownerById, metadataById, tokensPerOwner;
      var approvals, nextIds, receipts, receiptId := approvalsById, nextApprovalIdById, pending, nextReceipt;
      StepIsSound(View(), c);
      r := Dispatch(c);
      if r.Success? {
        log := N.Then(log, out);
      } else {
        ownerById, metadataById, tokensPerOwner := owners, metadata, index;
        approvalsById, nextApprovalIdById, pending, nextReceipt := approvals, nextIds, receipts, receiptId;
      }
      out := N.QUIET;
    }
  }
}
