/** What the contract has kept of approval deposits covers every refund it may have to pay. */
module NonFungibleTokenEscrow {
  import opened Prelude
  import opened NonFungibleToken
  import opened NonFungibleTokenApprovals

  ghost function ApprovalsWeight(t: TokenId, approvals: Approvals): nat {
    ApprovalBytes(approvals)
  }

  ghost function ReceiptWeight(id: nat, r: Receipt): nat {
    if r.approvals.Some? then ApprovalBytes(r.approvals.value) else 0
  }

  /** The bytes of all approvals, stored and captured by pending callbacks. */
  ghost function HeldBytes(s: State): nat {
    SumMap(s.approvalsById.GetOr(map[]), ApprovalsWeight) + SumMap(s.pending, ReceiptWeight)
  }

  /** What a call adds to the approval deposits: attached to nft_approve, less its change and the refunds. */
  function EscrowFlow(out: Out): int {
    match out.purpose
    case ForToken => 0
    case Safety => 0 - PaidBy(out)
    case ForApproval => out.received - PaidBy(out)
  }

  function PaidBy(out: Out): nat {
    if out.paid.Some? then out.paid.value.amount else 0
  }

  function Escrow(log: Log): int {
    match log
    case Empty => 0
    case Then(earlier, out) => Escrow(earlier) + EscrowFlow(out)
  }

  /**
   The bytes a revert refunds although it leaves them in place: no approvals were captured with
   the token, and the receiver has made some since.
   */
  ghost function LeftBehind(s: State, c: Call): nat {
    if c.NftResolveTransfer? && c.receiptId in s.pending && !c.result.NotReady? then
      var r := s.pending[c.receiptId];
      if Reverts(s, r, c.result) && r.approvals.None? && ApprovalsOf(s, r.token).Some?
      then ApprovalBytes(ApprovalsOf(s, r.token).value) else 0
    else 0
  }

  /** Some number of bytes accounts for both the money and the approvals of a step. */
  ghost predicate Accounts(s: State, u: State, left: nat, bytes: int) {
    && u.byteCost == s.byteCost
    && Escrow(u.log) - Escrow(s.log) >= s.byteCost * bytes
    && bytes >= HeldBytes(u) - HeldBytes(s) - left
  }

  lemma ApprovalsUpdate(s: State, t: TokenId, approvals: Option<Approvals>)
    requires s.approvalsById.Some?
    ensures var u := WithApprovals(s, t, approvals);
      HeldBytes(u) == HeldBytes(s)
        - (if ApprovalsOf(s, t).Some? then ApprovalBytes(ApprovalsOf(s, t).value) else 0)
        + (if approvals.Some? then ApprovalBytes(approvals.value) else 0)
  {
    SumUpdate(s.approvalsById.value, ApprovalsWeight, t, approvals.GetOr(map[]));
  }

  lemma PendingUpdate(s: State, id: nat, r: Receipt)
    ensures HeldBytes(s.(pending := s.pending[id := r]))
         == HeldBytes(s) - (if id in s.pending then ReceiptWeight(id, s.pending[id]) else 0) + ReceiptWeight(id, r)
    ensures HeldBytes(s.(pending := s.pending - {id}))
         == HeldBytes(s) - (if id in s.pending then ReceiptWeight(id, s.pending[id]) else 0)
  {
    SumUpdate(s.pending, ReceiptWeight, id, r);
  }

  ghost function BytesAt(s: State, t: TokenId): nat {
    if ApprovalsOf(s, t).Some? then ApprovalBytes(ApprovalsOf(s, t).value) else 0
  }

  lemma ApproveAccounts(s: State, env: Env, t: TokenId, account: AccountId, notify: Option<string>) returns (bytes: int)
    ensures Accounts(s, Step(s, NftApprove(env, t, account, notify)), 0, bytes)
  {
    var o := Approve(s, env, t, account, notify);
    if o.Panicked? {
      return 0;
    }
    var approvals := ApprovalsOf(s, t).GetOr(map[]);
    var more := approvals[account := NextApprovalId(s, t)];
    ApprovalsUpdate(s, t, Some(more));
    SumUpdate(approvals, ApprovalWeight, account, NextApprovalId(s, t));
    bytes := if account in approvals then 0 else AccountBytes(account);
    assert HeldBytes(o.next) == HeldBytes(WithApprovals(s, t, Some(more)));
  }

  lemma RevokeAccounts(s: State, env: Env, t: TokenId, account: AccountId) returns (bytes: int)
    ensures Accounts(s, Step(s, NftRevoke(env, t, account)), 0, bytes)
  {
    var o := Revoke(s, env, t, account);
    var approvals := ApprovalsOf(s, t).GetOr(map[]);
    if o.Panicked? || account !in approvals {
      return 0;
    }
    var left := approvals - {account};
    ApprovalsUpdate(s, t, if left == map[] then None else Some(left));
    SumUpdate(approvals, ApprovalWeight, account, 0);
    bytes := 0 - AccountBytes(account);
    Negate(s.byteCost, AccountBytes(account));
  }

  lemma Negate(k: int, n: int)
    ensures k * (0 - n) == 0 - k * n
  {
  }

  lemma RevokeAllAccounts(s: State, env: Env, t: TokenId) returns (bytes: int)
    ensures Accounts(s, Step(s, NftRevokeAll(env, t)), 0, bytes)
  {
    if RevokeAll(s, env, t).Panicked? {
      return 0;
    }
    ApprovalsUpdate(s, t, None);
    bytes := 0 - BytesAt(s, t);
    Negate(s.byteCost, BytesAt(s, t));
  }

  /** A transfer drops the token's approvals; nothing is refunded for them. */
  lemma TransferHolds(s: State, sender: AccountId, receiver: AccountId, t: TokenId, approvalId: Option<nat>, memo: Option<string>)
    ensures var o := Transfer(s, sender, receiver, t, approvalId, memo); o.Done? ==>
      && HeldBytes(o.next) == HeldBytes(s) - BytesAt(s, t)
      && o.next.pending == s.pending
  {
    var o := Transfer(s, sender, receiver, t, approvalId, memo);
    if o.Done? && s.approvalsById.Some? {
      ApprovalsUpdate(s, t, None);
      assert HeldBytes(o.next) == HeldBytes(WithApprovals(s, t, None));
    }
  }

  /** A transfer call keeps the approvals with its callback. */
  lemma TransferCallHolds(s: State, env: Env, receiver: AccountId, t: TokenId, approvalId: Option<nat>,
                          memo: Option<string>, msg: string)
    requires InFlight(s)
    ensures var o := TransferCall(s, env, receiver, t, approvalId, memo, msg); o.Done? ==> HeldBytes(o.next) == HeldBytes(s)
  {
    var o := TransferCall(s, env, receiver, t, approvalId, memo, msg);
    if o.Done? {
      var moved := Transfer(s, env.predecessor, receiver, t, approvalId, memo).next;
      var receipt := Receipt(s.ownerById[t], receiver, t, ApprovalsOf(s, t));
      TransferHolds(s, env.predecessor, receiver, t, approvalId, memo);
      PendingUpdate(moved, s.nextReceipt, receipt);
      assert HeldBytes(o.next) == HeldBytes(moved.(pending := s.pending[s.nextReceipt := receipt]));
    }
  }

  /** A revert moves the captured approvals back over the stored ones, or leaves those in place. */
  lemma RevertHolds(s: State, id: nat, result: PromiseResult)
    requires InFlight(s) && id in s.pending && !result.NotReady? && Reverts(s, s.pending[id], result)
    ensures HeldBytes(Resolve(s, id, result).next)
         == HeldBytes(s) - if s.pending[id].approvals.Some? then BytesAt(s, s.pending[id].token) else 0
  {
    var r := s.pending[id];
    var t := s.(pending := s.pending - {id});
    PendingUpdate(s, id, r);
    if r.approvals.Some? {
      ApprovalsUpdate(t, r.token, r.approvals);
      assert HeldBytes(Resolve(s, id, result).next) == HeldBytes(WithApprovals(t, r.token, r.approvals));
    } else {
      assert HeldBytes(Resolve(s, id, result).next) == HeldBytes(t);
    }
  }

  lemma ResolveAccounts(s: State, id: nat, result: PromiseResult) returns (bytes: int)
    requires InFlight(s)
    ensures var c := NftResolveTransfer(id, result); Accounts(s, Step(s, c), LeftBehind(s, c), bytes)
  {
    if Resolve(s, id, result).Panicked? {
      return 0;
    }
    var r := s.pending[id];
    if Reverts(s, r, result) {
      RevertHolds(s, id, result);
      bytes := 0 - BytesAt(s, r.token);
      Negate(s.byteCost, BytesAt(s, r.token));
    } else {
      PendingUpdate(s, id, r);
      bytes := 0;
    }
  }

  /** A mint concerns no approval, and its deposit is for the token. */
  lemma MintHolds(s: State, c: Call)
    requires c.Mint? || c.InternalMint? || c.InternalMintWithRefund?
    ensures Accounts(s, Step(s, c), 0, 0)
  {
  }

  lemma StepAccounts(s: State, c: Call) returns (bytes: int)
    requires WellKept(s) && InFlight(s)
    ensures Accounts(s, Step(s, c), LeftBehind(s, c), bytes)
  {
    bytes := 0;
    match c {
      case NftTransfer(env, receiver, t, approvalId, memo) =>
        TransferHolds(s, env.predecessor, receiver, t, approvalId, memo);
      case NftTransferCall(env, receiver, t, approvalId, memo, msg) =>
        TransferCallHolds(s, env, receiver, t, approvalId, memo, msg);
      case NftResolveTransfer(id, result) => bytes := ResolveAccounts(s, id, result);
      case NftApprove(env, t, account, notify) => bytes := ApproveAccounts(s, env, t, account, notify);
      case NftRevoke(env, t, account) => bytes := RevokeAccounts(s, env, t, account);
      case NftRevokeAll(env, t) => bytes := RevokeAllAccounts(s, env, t);
      case _ => MintHolds(s, c);
    }
  }

  // Solvency

  /** What the approval deposits exceed the refunds by that could be asked for. */
  ghost function Surplus(s: State): int {
    Escrow(s.log) - s.byteCost * HeldBytes(s)
  }

  lemma AccountsSurplus(s: State, u: State, left: nat, bytes: int)
    requires Accounts(s, u, left, bytes)
    ensures Surplus(u) >= Surplus(s) - s.byteCost * left
  {
    SurplusArithmetic(s.byteCost, HeldBytes(s), HeldBytes(u), left, bytes);
  }

  lemma SurplusArithmetic(k: nat, before: int, after: int, left: int, bytes: int)
    requires bytes >= after - before - left
    ensures k * bytes >= k * after - k * before - k * left
  {
    var slack := bytes - (after - before - left);
    assert k * bytes == k * after - k * before - k * left + k * slack;
    assert k * slack >= 0;
  }

  /** The deposits stay sufficient in every step except one that refunds approvals and leaves them. */
  lemma StepKeepsSurplus(s: State, c: Call)
    requires WellKept(s) && InFlight(s)
    ensures Surplus(Step(s, c)) >= Surplus(s) - s.byteCost * LeftBehind(s, c)
  {
    var bytes := StepAccounts(s, c);
    AccountsSurplus(s, Step(s, c), LeftBehind(s, c), bytes);
  }

  /** In that step the surplus falls by exactly the refund. */
  lemma LeavingBehindCosts(s: State, c: Call)
    requires WellKept(s) && InFlight(s) && LeftBehind(s, c) > 0
    ensures Surplus(Step(s, c)) == Surplus(s) - s.byteCost * LeftBehind(s, c)
  {
    var r := s.pending[c.receiptId];
    PendingUpdate(s, c.receiptId, r);
    assert HeldBytes(Step(s, c)) == HeldBytes(s.(pending := s.pending - {c.receiptId}));
  }

  /** The surplus falls just when a revert without captured approvals finds approvals stored. */
  lemma SurplusFallsExactly(s: State, c: Call)
    requires WellKept(s) && InFlight(s) && s.byteCost > 0
    ensures Surplus(Step(s, c)) < Surplus(s) <==>
      && c.NftResolveTransfer? && c.receiptId in s.pending && !c.result.NotReady?
      && Reverts(s, s.pending[c.receiptId], c.result)
      && s.pending[c.receiptId].approvals.None?
      && ApprovalsOf(s, s.pending[c.receiptId].token).Some?
  {
    LeavesBehind(s, c);
    if LeftBehind(s, c) > 0 {
      LeavingBehindCosts(s, c);
      Positive(s.byteCost, LeftBehind(s, c));
    } else {
      StepKeepsSurplus(s, c);
    }
  }

  /** Something is left behind just in that case: stored approvals are never empty. */
  lemma LeavesBehind(s: State, c: Call)
    requires WellKept(s)
    ensures LeftBehind(s, c) > 0 <==>
      && c.NftResolveTransfer? && c.receiptId in s.pending && !c.result.NotReady?
      && Reverts(s, s.pending[c.receiptId], c.result)
      && s.pending[c.receiptId].approvals.None?
      && ApprovalsOf(s, s.pending[c.receiptId].token).Some?
  {
    if c.NftResolveTransfer? && c.receiptId in s.pending {
      var approvals := ApprovalsOf(s, s.pending[c.receiptId].token);
      if approvals.Some? {
        SomeBytes(approvals.value);
      }
    }
  }

  lemma Positive(a: nat, b: nat)
    requires a > 0 && b > 0
    ensures a * b > 0
  {
  }

  lemma SomeBytes(approvals: Approvals)
    requires approvals != map[]
    ensures ApprovalBytes(approvals) > 0
  {
    SumSplit(approvals, ApprovalWeight, Pick(approvals));
  }

  /**
   Revoking a fresh approval puts the approvals back as they were and refunds what approving kept,
   but for a single yocto that was not worth sending back.
   */
  lemma RevokeUndoesApprove(s: State, env: Env, t: TokenId, account: AccountId, notify: Option<string>)
    requires WellKept(s)
    requires Approve(s, env, t, account, notify).Done?
    requires account !in ApprovalsOf(s, t).GetOr(map[])
    ensures
      var approved := Approve(s, env, t, account, notify);
      var revoked := Revoke(approved.next, Env(env.predecessor, 1, 0), t, account);
      && revoked.Done?
      && revoked.next.approvalsById == s.approvalsById
      && revoked.out.paid.Some? && revoked.out.paid.value.to == env.predecessor
      && 0 <= EscrowFlow(approved.out) - PaidBy(revoked.out) <= 1
  {
    var before := ApprovalsOf(s, t).GetOr(map[]);
    var approved := Approve(s, env, t, account, notify).next;
    assert ApprovalsOf(approved, t) == Some(before[account := NextApprovalId(s, t)]);
    assert before[account := NextApprovalId(s, t)] - {account} == before;
    var revoked := Revoke(approved, Env(env.predecessor, 1, 0), t, account).next;
    assert revoked.approvalsById.value == s.approvalsById.value;
  }
}
