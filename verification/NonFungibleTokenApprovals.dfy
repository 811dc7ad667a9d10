/** Approval ids are issued by counting, and move between storage and callbacks without being shared. */
module NonFungibleTokenApprovals {
  import opened Prelude
  import opened NonFungibleToken

  /** Tokens never disappear, so whatever is kept about a token is about an existing one. */
  ghost predicate WellKept(s: State) {
    && (s.approvalsById.Some? <==> s.nextApprovalIdById.Some?)
    && (s.metadataById.Some? ==> s.metadataById.value.Keys == s.ownerById.Keys)
    && (s.approvalsById.Some? ==>
         forall t :: t in s.approvalsById.value ==> t in s.ownerById && s.approvalsById.value[t] != map[])
  }

  ghost predicate InFlight(s: State) {
    forall id :: id in s.pending ==>
      var r := s.pending[id];
      && id < s.nextReceipt
      && r.token in s.ownerById
      && r.previousOwner != r.receiver
      && (r.approvals.Some? ==> s.approvalsById.Some? && r.approvals.value != map[])
  }

  lemma ApproveKeepsWell(s: State, env: Env, t: TokenId, account: AccountId, notify: Option<string>)
    requires WellKept(s)
    ensures WellKept(Step(s, NftApprove(env, t, account, notify)))
  {
    assert account in ApprovalsOf(s, t).GetOr(map[])[account := NextApprovalId(s, t)];
  }

  lemma TransferKeepsWell(s: State, sender: AccountId, receiver: AccountId, t: TokenId, approvalId: Option<nat>,
                          memo: Option<string>)
    requires WellKept(s)
    ensures var o := Transfer(s, sender, receiver, t, approvalId, memo); o.Done? ==> WellKept(o.next)
  {
  }

  lemma ResolveKeepsWell(s: State, id: nat, result: PromiseResult)
    requires WellKept(s) && InFlight(s)
    ensures WellKept(Step(s, NftResolveTransfer(id, result)))
  {
  }

  lemma MintKeepsWell(s: State, env: Env, t: TokenId, owner: AccountId, metadata: Option<Metadata>, storageUsed: nat,
                      refundTo: Option<AccountId>, event: Event)
    requires WellKept(s)
    ensures var o := MintToken(s, env, t, owner, metadata, storageUsed, refundTo, event); o.Done? ==> WellKept(o.next)
  {
  }

  lemma StepKeepsWell(s: State, c: Call)
    requires WellKept(s) && InFlight(s)
    ensures WellKept(Step(s, c))
  {
    match c {
      case NftTransfer(env, receiver, t, approvalId, memo) =>
        TransferKeepsWell(s, env.predecessor, receiver, t, approvalId, memo);
      case NftTransferCall(env, receiver, t, approvalId, memo, _) =>
        TransferKeepsWell(s, env.predecessor, receiver, t, approvalId, memo);
      case NftResolveTransfer(id, result) => ResolveKeepsWell(s, id, result);
      case NftApprove(env, t, account, notify) => ApproveKeepsWell(s, env, t, account, notify);
      case NftRevoke(_, _, _) =>
      case NftRevokeAll(_, _) =>
      case Mint(env, t, owner, metadata, used) =>
        MintKeepsWell(s, env, t, owner, metadata, used, Some(env.predecessor), MintEvent(owner, t));
      case InternalMint(env, t, owner, metadata, used) =>
        MintKeepsWell(s, env, t, owner, metadata, used, Some(env.predecessor), MintEvent(owner, t));
      case InternalMintWithRefund(env, t, owner, metadata, used, refundTo) =>
        MintKeepsWell(s, env, t, owner, metadata, used, refundTo, MintedSilently(owner, t));
    }
  }

  /** What a call does to the tokens and callbacks: only a transfer call adds one, with what it captured. */
  lemma StepSchedules(s: State, c: Call)
    ensures var u := Step(s, c);
      && s.ownerById.Keys <= u.ownerById.Keys
      && (u.approvalsById.Some? <==> s.approvalsById.Some?)
      && s.nextReceipt <= u.nextReceipt
      && forall id :: id in u.pending ==>
           || (id in s.pending && u.pending[id] == s.pending[id])
           || (id == s.nextReceipt < u.nextReceipt && c.NftTransferCall? && c.token in s.ownerById
               && s.ownerById[c.token] != c.receiver
               && u.pending[id] == Receipt(s.ownerById[c.token], c.receiver, c.token, ApprovalsOf(s, c.token)))
  {
  }

  lemma StepKeepsInFlight(s: State, c: Call)
    requires WellKept(s) && InFlight(s)
    ensures InFlight(Step(s, c))
  {
    StepSchedules(s, c);
  }

  // Issued ids

  function IssuedBy(out: Out, t: TokenId): seq<nat> {
    if out.issued.Some? && out.issued.value.token == t then [out.issued.value.id] else []
  }

  /** The approval ids issued for a token, in order. */
  function IssuedIds(log: Log, t: TokenId): seq<nat> {
    match log
    case Empty => []
    case Then(earlier, out) => IssuedIds(earlier, t) + IssuedBy(out, t)
  }

  /** The n-th id issued for a token, counting from 0. */
  function NthId(n: nat): nat {
    Wrap(n + 1)
  }

  /** Ids are issued by counting up from 1 in 64 bits. */
  ghost predicate Counting(s: State) {
    forall t :: CountedFor(s, t)
  }

  ghost predicate CountedFor(s: State, t: TokenId) {
    var ids := IssuedIds(s.log, t);
    && NextApprovalId(s, t) == NthId(|ids|)
    && forall n :: 0 <= n < |ids| ==> ids[n] == NthId(n)
  }

  lemma WrapNext(n: nat)
    ensures Wrap(Wrap(n) + 1) == Wrap(n + 1)
  {
  }

  lemma StepCounts(s: State, c: Call)
    requires Counting(s)
    ensures Counting(Step(s, c))
  {
    forall t
      ensures CountedFor(Step(s, c), t)
    {
      assert CountedFor(s, t);
      StepIssues(s, c, t);
      StepAdvances(s, c, t);
      WrapNext(|IssuedIds(s.log, t)| + 1);
    }
  }

  /** The call enters an approval for the token. */
  ghost predicate Approves(s: State, c: Call, t: TokenId) {
    c.NftApprove? && c.token == t && Apply(s, c).Done?
  }

  lemma StepIssues(s: State, c: Call, t: TokenId)
    ensures IssuedIds(Step(s, c).log, t)
         == IssuedIds(s.log, t) + if Approves(s, c, t) then [NextApprovalId(s, t)] else []
  {
  }

  lemma StepAdvances(s: State, c: Call, t: TokenId)
    ensures NextApprovalId(Step(s, c), t)
         == if Approves(s, c, t) then Wrap(NextApprovalId(s, t) + 1) else NextApprovalId(s, t)
  {
  }

  // Where approval ids are held

  /** An approval id sits in the token's approvals or is captured in a pending callback. */
  datatype Slot = Stored(account: AccountId) | Captured(receiptId: nat, account: AccountId)

  ghost predicate Holds(s: State, t: TokenId, slot: Slot, id: nat) {
    match slot
    case Stored(account) =>
      var approvals := ApprovalsOf(s, t);
      approvals.Some? && account in approvals.value && approvals.value[account] == id
    case Captured(receipt, account) =>
      && receipt in s.pending
      && s.pending[receipt].token == t
      && var approvals := s.pending[receipt].approvals;
         approvals.Some? && account in approvals.value && approvals.value[account] == id
  }

  /** No two places hold the same approval id of a token. */
  ghost predicate Linear(s: State, t: TokenId) {
    forall p, q, id :: Holds(s, t, p, id) && Holds(s, t, q, id) ==> p == q
  }

  /** Whatever is held was issued. */
  ghost predicate HeldWereIssued(s: State) {
    forall t, slot, id :: Holds(s, t, slot, id) ==> id in IssuedIds(s.log, t)
  }

  /** A callback that takes the token back and puts captured approvals back in place. */
  ghost predicate PutsBack(s: State, c: Call, t: TokenId) {
    && c.NftResolveTransfer? && !c.result.NotReady? && c.receiptId in s.pending
    && s.pending[c.receiptId].token == t
    && s.pending[c.receiptId].approvals.Some?
    && Reverts(s, s.pending[c.receiptId], c.result)
  }

  /** Where an id that a slot holds after a step was before it: approvals travel as a whole. */
  ghost function Origin(s: State, c: Call, t: TokenId, slot: Slot): Slot {
    match slot
    case Captured(receipt, account) => if receipt == s.nextReceipt then Stored(account) else slot
    case Stored(account) => if PutsBack(s, c, t) then Captured(c.receiptId, account) else slot
  }

  /** The slot holds the id that this step issues. */
  predicate JustIssued(s: State, c: Call, t: TokenId, slot: Slot, id: nat) {
    c.NftApprove? && c.token == t && slot == Stored(c.account) && id == NextApprovalId(s, t)
  }

  /** An approval stored after a step was stored before it, was issued by it or is put back by it. */
  lemma StepStores(s: State, c: Call, t: TokenId, account: AccountId, id: nat)
    requires InFlight(s)
    requires Holds(Step(s, c), t, Stored(account), id)
    ensures
      || (Approves(s, c, t) && JustIssued(s, c, t, Stored(account), id))
      || Holds(s, t, if PutsBack(s, c, t) then Captured(c.receiptId, account) else Stored(account), id)
  {
  }

  lemma HeldBefore(s: State, c: Call, t: TokenId, slot: Slot, id: nat)
    requires InFlight(s)
    requires Holds(Step(s, c), t, slot, id)
    ensures (JustIssued(s, c, t, slot, id) && Apply(s, c).Done?) || Holds(s, t, Origin(s, c, t, slot), id)
  {
    if slot.Stored? {
      StepStores(s, c, t, slot.account, id);
    } else {
      StepSchedules(s, c);
    }
  }

  lemma OriginIsInjective(s: State, c: Call, t: TokenId, p: Slot, q: Slot, id: nat)
    requires InFlight(s)
    requires Holds(Step(s, c), t, p, id) && Holds(Step(s, c), t, q, id)
    requires Origin(s, c, t, p) == Origin(s, c, t, q)
    ensures p == q
  {
    StepSchedules(s, c);
    StepEmpties(s, c);
  }

  /** Where approvals move out of, none stay: a transfer call clears the token's, a revert takes the callback away. */
  lemma StepEmpties(s: State, c: Call)
    ensures c.NftTransferCall? && s.nextReceipt < Step(s, c).nextReceipt ==> ApprovalsOf(Step(s, c), c.token).None?
    ensures c.NftResolveTransfer? && !c.result.NotReady? ==> c.receiptId !in Step(s, c).pending
  {
  }

  /** Ids repeat only after 2^64 of them. */
  lemma NthIdsDiffer(m: nat, n: nat)
    requires m < n < m + U64_SIZE
    ensures NthId(m) != NthId(n)
  {
    var a, b := (m + 1) / U64_SIZE, (n + 1) / U64_SIZE;
    assert b == a || b == a + 1;
  }

  lemma NewIdIsNew(s: State, t: TokenId)
    requires Counting(s) && |IssuedIds(s.log, t)| < U64_SIZE
    ensures NextApprovalId(s, t) !in IssuedIds(s.log, t)
  {
    var ids := IssuedIds(s.log, t);
    assert CountedFor(s, t);
    forall m | 0 <= m < |ids|
      ensures ids[m] != NextApprovalId(s, t)
    {
      NthIdsDiffer(m, |ids|);
    }
  }

  lemma StepHoldsIssued(s: State, c: Call)
    requires InFlight(s) && HeldWereIssued(s)
    ensures HeldWereIssued(Step(s, c))
  {
    forall t, slot, id | Holds(Step(s, c), t, slot, id)
      ensures id in IssuedIds(Step(s, c).log, t)
    {
      HeldBefore(s, c, t, slot, id);
      StepIssues(s, c, t);
    }
  }

  /** A step hands approval ids on but never copies one, and never issues one that is held. */
  lemma StepIsLinear(s: State, c: Call, t: TokenId)
    requires InFlight(s) && Counting(s) && HeldWereIssued(s) && Linear(s, t)
    requires |IssuedIds(Step(s, c).log, t)| <= U64_SIZE
    ensures Linear(Step(s, c), t)
  {
    StepIssues(s, c, t);
    forall p, q, id | Holds(Step(s, c), t, p, id) && Holds(Step(s, c), t, q, id)
      ensures p == q
    {
      HeldBefore(s, c, t, p, id);
      HeldBefore(s, c, t, q, id);
      if Approves(s, c, t) {
        NewIdIsNew(s, t);
      }
      if Holds(s, t, Origin(s, c, t, p), id) && Holds(s, t, Origin(s, c, t, q), id) {
        OriginIsInjective(s, c, t, p, q, id);
      }
    }
  }
}
