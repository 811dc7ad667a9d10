/** The index of tokens by owner agrees with the owners in every step. */
module NonFungibleTokenIndex {
  import opened Prelude
  import opened NonFungibleToken

  predicate NoDuplicates<T(==)>(ts: seq<T>) {
    forall i, j :: 0 <= i < j < |ts| ==> ts[i] != ts[j]
  }

  predicate Lists(index: Index, owner: AccountId, t: TokenId) {
    owner in index && t in index[owner]
  }

  predicate Owns(owners: map<TokenId, AccountId>, owner: AccountId, t: TokenId) {
    t in owners && owners[t] == owner
  }

  /** No owner is listed without tokens, and no token is listed twice under an owner. */
  predicate Tidy(index: Index) {
    forall owner :: owner in index ==> index[owner] != [] && NoDuplicates(index[owner])
  }

  /** The index lists exactly the tokens each account owns. */
  ghost predicate Inverse(index: Index, owners: map<TokenId, AccountId>) {
    && Tidy(index)
    && forall owner, t :: Lists(index, owner, t) <==> Owns(owners, owner, t)
  }

  lemma SetRemoveIsRemoval(ts: seq<TokenId>, t: TokenId)
    requires NoDuplicates(ts)
    ensures NoDuplicates(SetRemove(ts, t))
    ensures forall u :: u in SetRemove(ts, t) <==> u in ts && u != t
  {
    if t in ts {
      var at := Position(ts, t);
      var left := SetRemove(ts, t);
      forall u | u in ts && u != t
        ensures u in left
      {
        var i :| 0 <= i < |ts| && ts[i] == u;
        assert left[if i == |ts| - 1 then at else i] == u;
      }
    }
  }

  lemma SetInsertIsInsertion(ts: seq<TokenId>, t: TokenId)
    requires NoDuplicates(ts)
    ensures NoDuplicates(SetInsert(ts, t))
    ensures forall u :: u in SetInsert(ts, t) <==> u in ts || u == t
  {
  }

  lemma DelistTakesOut(index: Index, owners: map<TokenId, AccountId>, t: TokenId)
    requires Inverse(index, owners) && t in owners
    ensures owners[t] in index
    ensures Inverse(Delist(index, owners[t], t), owners - {t})
  {
    var owner := owners[t];
    assert Owns(owners, owner, t);
    assert Lists(index, owner, t);
    SetRemoveIsRemoval(index[owner], t);
    var left := Delist(index, owner, t);
    forall o, u
      ensures Lists(left, o, u) <==> Owns(owners - {t}, o, u)
    {
      assert Lists(index, o, u) <==> Owns(owners, o, u);
      assert o == owner || (o in left <==> o in index);
    }
  }

  lemma EnlistPutsIn(index: Index, owners: map<TokenId, AccountId>, owner: AccountId, t: TokenId)
    requires Inverse(index, owners) && t !in owners
    ensures Inverse(Enlist(index, owner, t), owners[t := owner])
  {
    var listed := Lookup(index, owner).GetOr([]);
    SetInsertIsInsertion(listed, t);
    var more := Enlist(index, owner, t);
    forall o, u
      ensures Lists(more, o, u) <==> Owns(owners[t := owner], o, u)
    {
      assert Lists(index, o, u) <==> Owns(owners, o, u);
    }
  }

  /** With enumeration on, the index lists every token under its owner and nowhere else. */
  ghost predicate Indexed(s: State) {
    s.tokensPerOwner.Some? ==> Inverse(s.tokensPerOwner.value, s.ownerById)
  }

  lemma MoveTokenIndexes(s: State, t: TokenId, to: AccountId)
    requires Indexed(s) && t in s.ownerById
    ensures Indexed(MoveToken(s, t, s.ownerById[t], to))
    ensures s.tokensPerOwner.Some? ==> s.ownerById[t] in s.tokensPerOwner.value
  {
    if s.tokensPerOwner.Some? {
      var index := s.tokensPerOwner.value;
      DelistTakesOut(index, s.ownerById, t);
      EnlistPutsIn(Delist(index, s.ownerById[t], t), s.ownerById - {t}, to, t);
      assert (s.ownerById - {t})[t := to] == s.ownerById[t := to];
    }
  }

  lemma StepIndexes(s: State, c: Call)
    requires Indexed(s)
    ensures Indexed(Step(s, c))
  {
    match c {
      case NftTransfer(_, receiver, t, _, _) =>
        if t in s.ownerById { MoveTokenIndexes(s, t, receiver); }
      case NftTransferCall(_, receiver, t, _, _, _) =>
        if t in s.ownerById { MoveTokenIndexes(s, t, receiver); }
      case NftResolveTransfer(id, _) =>
        if id in s.pending && s.pending[id].token in s.ownerById {
          MoveTokenIndexes(s.(pending := s.pending - {id}), s.pending[id].token, s.pending[id].previousOwner);
        }
      case Mint(_, t, owner, _, _) => MintIndexes(s, t, owner);
      case InternalMint(_, t, owner, _, _) => MintIndexes(s, t, owner);
      case InternalMintWithRefund(_, t, owner, _, _, _) => MintIndexes(s, t, owner);
      case _ =>
    }
  }

  lemma MintIndexes(s: State, t: TokenId, owner: AccountId)
    requires Indexed(s)
    ensures t !in s.ownerById && s.tokensPerOwner.Some? ==>
      Inverse(Enlist(s.tokensPerOwner.value, owner, t), s.ownerById[t := owner])
  {
    if t !in s.ownerById && s.tokensPerOwner.Some? {
      EnlistPutsIn(s.tokensPerOwner.value, s.ownerById, owner, t);
    }
  }
}
