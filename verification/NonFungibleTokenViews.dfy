/** The read-only views: one token, approval checks, and the paged listings. */
module NonFungibleTokenViews {
  import opened Prelude
  import opened NonFungibleToken
  import opened NonFungibleTokenIndex

  // The order of the tree map: token ids as strings

  predicate AtMost(a: string, b: string) {
    a == "" || (b != "" && (a[0] < b[0] || (a[0] == b[0] && AtMost(a[1..], b[1..]))))
  }

  lemma {:induction false} AtMostIsTotal(a: string, b: string)
    ensures AtMost(a, b) || AtMost(b, a)
  {
    if a != "" && b != "" && a[0] == b[0] {
      AtMostIsTotal(a[1..], b[1..]);
    }
  }

  lemma {:induction false} AtMostIsTransitive(a: string, b: string, c: string)
    requires AtMost(a, b) && AtMost(b, c)
    ensures AtMost(a, c)
  {
    if a != "" && a[0] == b[0] && b[0] == c[0] {
      AtMostIsTransitive(a[1..], b[1..], c[1..]);
    }
  }

  predicate Precedes(t: TokenId, u: TokenId) {
    AtMost(t.text, u.text)
  }

  ghost predicate IsFirst(t: TokenId, ids: set<TokenId>) {
    t in ids && forall u :: u in ids ==> Precedes(t, u)
  }

  lemma {:induction false} FirstExists(ids: set<TokenId>)
    requires ids != {}
    ensures exists t :: IsFirst(t, ids)
    decreases |ids|
  {
    var t :| t in ids;
    var rest := ids - {t};
    AtMostIsTotal(t.text, t.text);
    if rest == {} {
      assert ids == {t};
      assert IsFirst(t, ids);
    } else {
      FirstExists(rest);
      var f :| IsFirst(f, rest);
      AtMostIsTotal(t.text, f.text);
      if AtMost(f.text, t.text) {
        assert Precedes(f, t);
        assert IsFirst(f, ids);
      } else {
        forall u | u in rest
          ensures Precedes(t, u)
        {
          assert Precedes(f, u);
          AtMostIsTransitive(t.text, f.text, u.text);
        }
        assert IsFirst(t, ids);
      }
    }
  }

  /** The keys of the tree map in the order it lists them: ascending, each once. */
  ghost function Listing(ids: set<TokenId>): (ts: seq<TokenId>)
    ensures |ts| == |ids|
    ensures forall t :: t in ts <==> t in ids
    ensures NoDuplicates(ts)
  {
    if ids == {} then []
    else [First(ids)] + Listing(ids - {First(ids)})
  }

  ghost function First(ids: set<TokenId>): (t: TokenId)
    requires ids != {}
    ensures IsFirst(t, ids)
  {
    FirstExists(ids);
    var t :| IsFirst(t, ids);
    t
  }

  predicate Ascending(ts: seq<TokenId>) {
    forall i, j :: 0 <= i < j < |ts| ==> Precedes(ts[i], ts[j])
  }

  lemma FirstThenAscending(t: TokenId, ts: seq<TokenId>)
    requires Ascending(ts) && forall u :: u in ts ==> Precedes(t, u)
    ensures Ascending([t] + ts)
  {
  }

  lemma {:induction false} ListingIsAscending(ids: set<TokenId>)
    ensures Ascending(Listing(ids))
    decreases |ids|
  {
    if ids != {} {
      var first := First(ids);
      ListingIsAscending(ids - {first});
      FirstThenAscending(first, Listing(ids - {first}));
    }
  }

  // Views

  /** nft_token */
  function NftToken(s: State, t: TokenId): Option<Token> {
    if t !in s.ownerById then None
    else
      Some(Token(t, s.ownerById[t],
                 if s.metadataById.None? then None else Lookup(s.metadataById.value, t),
                 if s.approvalsById.None? then None else Some(Lookup(s.approvalsById.value, t).GetOr(map[]))))
  }

  /** The token as the enumeration methods show it, for the owner they found it under. */
  function EnumGetToken(s: State, owner: AccountId, t: TokenId): Token {
    Token(t, owner,
          if s.metadataById.None? then None else Lookup(s.metadataById.value, t),
          if s.approvalsById.None? then None else Some(Lookup(s.approvalsById.value, t).GetOr(map[])))
  }

  function NftIsApproved(s: State, t: TokenId, account: AccountId, approvalId: Option<nat>): Result<bool, Reason> {
    if t !in s.ownerById then Failure(TokenNotFound)
    else if s.approvalsById.None? then Success(false)
    else if t !in s.approvalsById.value then Success(false)
    else
      var approvals := s.approvalsById.value[t];
      if account !in approvals then Success(false)
      else if approvalId.Some? then Success(approvalId.value == approvals[account])
      else Success(true)
  }

  ghost function NftTotalSupply(s: State): nat {
    |s.ownerById|
  }

  datatype ViewReason = OutOfBounds | LimitOfZero | NoEnumeration

  /** iter().skip(from).take(limit) */
  function Page<T>(all: seq<T>, from: nat, limit: Option<nat>): seq<T> {
    if from >= |all| then []
    else if limit.Some? && from + limit.value <= |all| then all[from..from + limit.value]
    else all[from..]
  }

  function OwnerEntries(s: State, owner: AccountId, ids: seq<TokenId>): seq<Token> {
    seq(|ids|, i requires 0 <= i < |ids| => EnumGetToken(s, owner, ids[i]))
  }

  ghost function Entries(s: State, ids: seq<TokenId>): seq<Token>
    requires forall t :: t in ids ==> t in s.ownerById
  {
    seq(|ids|, i requires 0 <= i < |ids| => EnumGetToken(s, s.ownerById[ids[i]], ids[i]))
  }

  ghost function NftTokens(s: State, fromIndex: Option<nat>, limit: Option<nat>): Result<seq<Token>, ViewReason> {
    var from := fromIndex.GetOr(0);
    if |s.ownerById| < from then Failure(OutOfBounds)
    else if limit == Some(0) then Failure(LimitOfZero)
    else Success(Entries(s, Page(Listing(s.ownerById.Keys), from, limit)))
  }

  function NftSupplyForOwner(s: State, owner: AccountId): Result<nat, ViewReason> {
    if s.tokensPerOwner.None? then Failure(NoEnumeration)
    else Success(|Lookup(s.tokensPerOwner.value, owner).GetOr([])|)
  }

  function NftTokensForOwner(s: State, owner: AccountId, fromIndex: Option<nat>, limit: Option<nat>)
    : Result<seq<Token>, ViewReason>
  {
    if s.tokensPerOwner.None? then Failure(NoEnumeration)
    else
      var ids := Lookup(s.tokensPerOwner.value, owner).GetOr([]);
      if ids == [] then Success([])
      else if limit == Some(0) then Failure(LimitOfZero)
      else if |ids| <= fromIndex.GetOr(0) then Failure(OutOfBounds)
      else Success(OwnerEntries(s, owner, Page(ids, fromIndex.GetOr(0), limit)))
  }

  // The listings show what nft_token shows

  lemma ListingAgrees(s: State, fromIndex: Option<nat>, limit: Option<nat>, i: nat)
    requires NftTokens(s, fromIndex, limit).Success? && i < |NftTokens(s, fromIndex, limit).value|
    ensures var shown := NftTokens(s, fromIndex, limit).value[i]; NftToken(s, shown.tokenId) == Some(shown)
  {
    EntriesAgree(s, Page(Listing(s.ownerById.Keys), fromIndex.GetOr(0), limit), i);
  }

  lemma EntriesAgree(s: State, ids: seq<TokenId>, i: nat)
    requires (forall t :: t in ids ==> t in s.ownerById) && i < |ids|
    ensures var shown := Entries(s, ids)[i]; shown.tokenId == ids[i] && NftToken(s, ids[i]) == Some(shown)
  {
    assert ids[i] in ids;
    EntryAgrees(s, ids[i]);
  }

  lemma EntryAgrees(s: State, t: TokenId)
    requires t in s.ownerById
    ensures var shown := EnumGetToken(s, s.ownerById[t], t);
      shown.tokenId == t && shown.owner == s.ownerById[t] && NftToken(s, t) == Some(shown)
  {
  }

  lemma OwnerListingAgrees(s: State, owner: AccountId, fromIndex: Option<nat>, limit: Option<nat>, i: nat)
    requires Indexed(s)
    requires NftTokensForOwner(s, owner, fromIndex, limit).Success?
    requires i < |NftTokensForOwner(s, owner, fromIndex, limit).value|
    ensures var shown := NftTokensForOwner(s, owner, fromIndex, limit).value[i];
      NftToken(s, shown.tokenId) == Some(shown) && shown.owner == owner
  {
    var ids := s.tokensPerOwner.value[owner];
    var t := Page(ids, fromIndex.GetOr(0), limit)[i];
    assert t in ids;
    assert Lists(s.tokensPerOwner.value, owner, t);
    assert Owns(s.ownerById, owner, t);
    EntryAgrees(s, t);
  }

  // Pages

  /** What a client collects that asks for k tokens at a time, starting at from. */
  ghost function CollectTokens(s: State, k: nat, from: nat): seq<Token>
    requires k > 0
    decreases |s.ownerById| - from
  {
    if from >= |s.ownerById| then []
    else
      match NftTokens(s, Some(from), Some(k))
      case Failure(_) => []
      case Success(page) => page + CollectTokens(s, k, from + k)
  }

  lemma EntriesJoin(s: State, a: seq<TokenId>, b: seq<TokenId>)
    requires forall t :: t in a + b ==> t in s.ownerById
    ensures forall t :: t in a || t in b ==> t in s.ownerById
    ensures Entries(s, a + b) == Entries(s, a) + Entries(s, b)
  {
    forall t | t in a || t in b
      ensures t in s.ownerById
    {
      assert t in a + b;
    }
  }

  lemma PageSplits<T>(all: seq<T>, from: nat, k: nat)
    requires from <= |all|
    ensures all[from..] == Page(all, from, Some(k)) + all[Min(from + k, |all|)..]
  {
  }

  lemma CollectStep(s: State, k: nat, from: nat)
    requires k > 0 && from < |s.ownerById|
    ensures CollectTokens(s, k, from)
         == Entries(s, Page(Listing(s.ownerById.Keys), from, Some(k))) + CollectTokens(s, k, Min(from + k, |s.ownerById|))
  {
    var ids := Listing(s.ownerById.Keys);
    assert NftTokens(s, Some(from), Some(k)) == Success(Entries(s, Page(ids, from, Some(k))));
    assert from + k >= |s.ownerById| ==> CollectTokens(s, k, from + k) == [] == CollectTokens(s, k, |s.ownerById|);
  }

  lemma {:induction false} PagesFrom(s: State, k: nat, from: nat)
    requires k > 0 && from <= |s.ownerById|
    ensures CollectTokens(s, k, from) == Entries(s, Listing(s.ownerById.Keys)[from..])
    decreases |s.ownerById| - from
  {
    var ids := Listing(s.ownerById.Keys);
    if from < |ids| {
      var next := Min(from + k, |ids|);
      PagesFrom(s, k, next);
      PageSplits(ids, from, k);
      EntriesJoin(s, Page(ids, from, Some(k)), ids[next..]);
      CollectStep(s, k, from);
    }
  }

  /** Whatever the page size, the pages together are the whole listing: no gap, no repeat. */
  lemma PagesAreTheListing(s: State, k: nat)
    requires k > 0
    ensures NftTokens(s, None, None).Success?
    ensures CollectTokens(s, k, 0) == NftTokens(s, None, None).value
  {
    PagesFrom(s, k, 0);
    var ids := Listing(s.ownerById.Keys);
    assert ids[0..] == ids;
  }

  function OwnedIds(s: State, owner: AccountId): seq<TokenId> {
    if s.tokensPerOwner.None? then [] else Lookup(s.tokensPerOwner.value, owner).GetOr([])
  }

  ghost function CollectOwned(s: State, owner: AccountId, k: nat, from: nat): seq<Token>
    requires k > 0
    decreases |OwnedIds(s, owner)| - from
  {
    if from >= |OwnedIds(s, owner)| then []
    else
      match NftTokensForOwner(s, owner, Some(from), Some(k))
      case Failure(_) => []
      case Success(page) => page + CollectOwned(s, owner, k, from + k)
  }

  lemma {:induction false} OwnedPagesFrom(s: State, owner: AccountId, k: nat, from: nat)
    requires k > 0 && from <= |OwnedIds(s, owner)|
    ensures CollectOwned(s, owner, k, from) == OwnerEntries(s, owner, OwnedIds(s, owner)[from..])
    decreases |OwnedIds(s, owner)| - from
  {
    var ids := OwnedIds(s, owner);
    if from + k <= |ids| {
      OwnedPagesFrom(s, owner, k, from + k);
      assert ids[from..] == Page(ids, from, Some(k)) + ids[from + k..];
    }
  }

  /** The same for one owner's tokens, where the start must lie inside the listing. */
  lemma OwnedPagesAreTheListing(s: State, owner: AccountId, k: nat)
    requires k > 0 && s.tokensPerOwner.Some?
    ensures NftTokensForOwner(s, owner, None, None).Success?
    ensures CollectOwned(s, owner, k, 0) == NftTokensForOwner(s, owner, None, None).value
  {
    OwnedPagesFrom(s, owner, k, 0);
    assert OwnedIds(s, owner)[0..] == OwnedIds(s, owner);
  }

  // The owners' listings are a partition of all tokens

  ghost function ListLength(owner: AccountId, ts: seq<TokenId>): nat {
    |ts|
  }

  lemma {:induction false} LengthOfNoDuplicates(ts: seq<TokenId>, ids: set<TokenId>)
    requires NoDuplicates(ts) && forall t :: t in ts <==> t in ids
    ensures |ts| == |ids|
  {
    if ts != [] {
      var rest := ids - {ts[0]};
      forall t
        ensures t in ts[1..] <==> t in rest
      {
        if t in rest {
          var i :| 0 <= i < |ts| && ts[i] == t;
          assert ts[1..][i - 1] == t;
        }
      }
      LengthOfNoDuplicates(ts[1..], rest);
    } else {
      assert ids == {};
    }
  }

  /** By induction over the owners: each owner's tokens are taken out together. */
  lemma {:induction false} SuppliesAddUp(index: Index, owners: map<TokenId, AccountId>)
    requires Inverse(index, owners)
    ensures SumMap(index, ListLength) == |owners|
    decreases |index|
  {
    if index == map[] {
      assert forall o, t :: !Lists(index, o, t);
      assert forall t :: t in owners ==> Owns(owners, owners[t], t);
      assert owners.Keys == {};
    } else {
      var o := Pick(index);
      var mine := TokensOf(index, owners, o);
      SizeWithout(index, o);
      SuppliesAddUp(index - {o}, owners - mine);
      SumSplit(index, ListLength, o);
    }
  }

  /** Taking out one owner with all its tokens leaves an index of the rest. */
  lemma TokensOf(index: Index, owners: map<TokenId, AccountId>, o: AccountId) returns (mine: set<TokenId>)
    requires Inverse(index, owners) && o in index
    ensures |index[o]| == |owners| - |owners - mine|
    ensures Inverse(index - {o}, owners - mine)
  {
    mine := set t | t in owners && owners[t] == o;
    forall owner, t
      ensures Lists(index - {o}, owner, t) <==> Owns(owners - mine, owner, t)
    {
      assert Lists(index, owner, t) <==> Owns(owners, owner, t);
    }
    forall t
      ensures t in index[o] <==> t in mine
    {
      assert Lists(index, o, t) <==> Owns(owners, o, t);
    }
    LengthOfNoDuplicates(index[o], mine);
    assert (owners - mine).Keys == owners.Keys - mine;
    assert |owners| == |owners.Keys| && |owners - mine| == |(owners - mine).Keys|;
  }

  ghost function TokensOwnedBy(s: State, owner: AccountId): set<TokenId> {
    set t | t in s.ownerById && s.ownerById[t] == owner
  }

  lemma ListedIffOwned(s: State, owner: AccountId, t: TokenId)
    requires Indexed(s) && s.tokensPerOwner.Some?
    ensures t in OwnedIds(s, owner) <==> Owns(s.ownerById, owner, t)
    ensures NoDuplicates(OwnedIds(s, owner))
  {
    assert Lists(s.tokensPerOwner.value, owner, t) <==> Owns(s.ownerById, owner, t);
  }

  /** nft_supply_for_owner counts the tokens that the account owns. */
  lemma SupplyForOwnerCounts(s: State, owner: AccountId)
    requires Indexed(s) && s.tokensPerOwner.Some?
    ensures NftSupplyForOwner(s, owner) == Success(|TokensOwnedBy(s, owner)|)
  {
    forall t
      ensures t in OwnedIds(s, owner) <==> t in TokensOwnedBy(s, owner)
    {
      ListedIffOwned(s, owner, t);
    }
    LengthOfNoDuplicates(OwnedIds(s, owner), TokensOwnedBy(s, owner));
  }

  /** The supply that nft_supply_for_owner shows for an owner in the index. */
  function SupplyShown(s: State): (AccountId, seq<TokenId>) -> nat {
    (owner: AccountId, ts: seq<TokenId>) =>
      var shown := NftSupplyForOwner(s, owner); if shown.Success? then shown.value else 0
  }

  lemma {:induction false} ShownAddsUp(s: State, index: Index)
    requires s.tokensPerOwner.Some?
    requires forall o :: o in index ==> o in s.tokensPerOwner.value && index[o] == s.tokensPerOwner.value[o]
    ensures SumMap(index, SupplyShown(s)) == SumMap(index, ListLength)
    decreases |index|
  {
    if index != map[] {
      SizeWithout(index, Pick(index));
      ShownAddsUp(s, index - {Pick(index)});
    }
  }

  /**
   The supplies of all owners add up to the total supply, and nobody outside the index has any; each
   token is listed once, by its owner only.
   */
  lemma SuppliesPartitionTokens(s: State)
    requires Indexed(s) && s.tokensPerOwner.Some?
    ensures SumMap(s.tokensPerOwner.value, SupplyShown(s)) == NftTotalSupply(s)
    ensures forall owner :: NftSupplyForOwner(s, owner) == Success(|TokensOwnedBy(s, owner)|)
    ensures forall owner :: owner in s.tokensPerOwner.value <==> NftSupplyForOwner(s, owner) != Success(0)
    ensures forall owner, t :: t in OwnedIds(s, owner) <==> Owns(s.ownerById, owner, t)
    ensures forall owner :: NoDuplicates(OwnedIds(s, owner))
  {
    ShownAddsUp(s, s.tokensPerOwner.value);
    SuppliesAddUp(s.tokensPerOwner.value, s.ownerById);
    forall owner
      ensures NftSupplyForOwner(s, owner) == Success(|TokensOwnedBy(s, owner)|)
    {
      SupplyForOwnerCounts(s, owner);
    }
    forall owner, t
      ensures t in OwnedIds(s, owner) <==> Owns(s.ownerById, owner, t)
    {
      ListedIffOwned(s, owner, t);
    }
  }

  /** All of nft_tokens. */
  ghost function AllTokens(s: State): seq<Token> {
    Entries(s, Listing(s.ownerById.Keys))
  }

  /** All of nft_tokens_for_owner. */
  function TokensFor(s: State, owner: AccountId): seq<Token> {
    OwnerEntries(s, owner, OwnedIds(s, owner))
  }

  lemma WholeListing(s: State)
    ensures NftTokens(s, None, None) == Success(AllTokens(s))
  {
    assert Page(Listing(s.ownerById.Keys), 0, None) == Listing(s.ownerById.Keys);
  }

  lemma WholeListingFor(s: State, owner: AccountId)
    requires s.tokensPerOwner.Some?
    ensures NftTokensForOwner(s, owner, None, None) == Success(TokensFor(s, owner))
  {
    assert Page(OwnedIds(s, owner), 0, None) == OwnedIds(s, owner);
    assert OwnedIds(s, owner) == [] ==> TokensFor(s, owner) == [];
  }

  /** Any page of nft_tokens is that slice of the whole listing; it may start at the end, but not be of size 0. */
  lemma PageIsSlice(s: State, fromIndex: Option<nat>, limit: Option<nat>)
    ensures var o := NftTokens(s, fromIndex, limit); var all := AllTokens(s);
      var from := if fromIndex.Some? then fromIndex.value else 0;
      && (o.Success? <==> from <= |all| && limit != Some(0))
      && (o.Success? ==> o.value == all[from..if limit.Some? then Min(from + limit.value, |all|) else |all|])
  {
    var from := fromIndex.GetOr(0);
    if from <= |s.ownerById| {
      PageOfEntries(s, Listing(s.ownerById.Keys), from, limit);
    }
  }

  lemma PageOfEntries(s: State, ids: seq<TokenId>, from: nat, limit: Option<nat>)
    requires (forall t :: t in ids ==> t in s.ownerById) && from <= |ids|
    ensures forall t :: t in Page(ids, from, limit) ==> t in s.ownerById
    ensures Entries(s, Page(ids, from, limit))
         == Entries(s, ids)[from..if limit.Some? then Min(from + limit.value, |ids|) else |ids|]
  {
  }

  /** The same for one owner, where the start must lie inside the listing, unless that is empty. */
  lemma OwnedPageIsSlice(s: State, owner: AccountId, fromIndex: Option<nat>, limit: Option<nat>)
    ensures var o := NftTokensForOwner(s, owner, fromIndex, limit); var all := TokensFor(s, owner);
      var from := if fromIndex.Some? then fromIndex.value else 0;
      && (o.Success? <==> s.tokensPerOwner.Some? && (all == [] || (from < |all| && limit != Some(0))))
      && (o.Success? && all == [] ==> o.value == [])
      && (o.Success? && all != [] ==> o.value == all[from..if limit.Some? then Min(from + limit.value, |all|) else |all|])
  {
    assert TokensFor(s, owner) == [] <==> OwnedIds(s, owner) == [];
  }

  lemma AllTokensAre(s: State, x: Token)
    ensures x in AllTokens(s) <==> NftToken(s, x.tokenId) == Some(x)
  {
    var ids := Listing(s.ownerById.Keys);
    if x in AllTokens(s) {
      var i :| 0 <= i < |ids| && AllTokens(s)[i] == x;
      EntriesAgree(s, ids, i);
    }
    if NftToken(s, x.tokenId) == Some(x) {
      var i :| 0 <= i < |ids| && ids[i] == x.tokenId;
      EntriesAgree(s, ids, i);
      assert AllTokens(s)[i] == x;
    }
  }

  lemma TokensForAre(s: State, owner: AccountId, x: Token)
    requires Indexed(s) && s.tokensPerOwner.Some?
    ensures x in TokensFor(s, owner) <==> NftToken(s, x.tokenId) == Some(x) && x.owner == owner
    ensures NoDuplicates(TokensFor(s, owner))
  {
    var ids := OwnedIds(s, owner);
    ListedIffOwned(s, owner, x.tokenId);
    if x in TokensFor(s, owner) {
      var i :| 0 <= i < |ids| && TokensFor(s, owner)[i] == x;
      EntryAgrees(s, ids[i]);
    }
    if NftToken(s, x.tokenId) == Some(x) && x.owner == owner {
      var i :| 0 <= i < |ids| && ids[i] == x.tokenId;
      EntryAgrees(s, ids[i]);
      assert TokensFor(s, owner)[i] == x;
    }
  }

  lemma AllTokensOnce(s: State)
    ensures NoDuplicates(AllTokens(s))
  {
    var ids := Listing(s.ownerById.Keys);
    forall i, j | 0 <= i < j < |ids|
      ensures AllTokens(s)[i] != AllTokens(s)[j]
    {
      assert AllTokens(s)[i].tokenId == ids[i] != ids[j] == AllTokens(s)[j].tokenId;
    }
  }

  /** The owner's whole listing holds just the owner's tokens out of all, each once. */
  ghost predicate ListsOwnPart(s: State, owner: AccountId, all: seq<Token>) {
    var own := NftTokensForOwner(s, owner, None, None);
    && own.Success? && NoDuplicates(own.value)
    && forall x :: x in own.value <==> x in all && x.owner == owner
  }

  lemma OwnPartIsListed(s: State, owner: AccountId)
    requires Indexed(s) && s.tokensPerOwner.Some?
    ensures ListsOwnPart(s, owner, AllTokens(s))
  {
    WholeListingFor(s, owner);
    forall x
      ensures NoDuplicates(TokensFor(s, owner))
      ensures x in TokensFor(s, owner) <==> x in AllTokens(s) && x.owner == owner
    {
      AllTokensAre(s, x);
      TokensForAre(s, owner, x);
    }
  }

  /**
   The whole listings of the owners are a partition of the whole listing: a token is in the listing
   of all tokens just when it is in that of its owner, it is in no other, and in each at most once.
   */
  ghost predicate ListingsPartition(s: State) {
    var all := NftTokens(s, None, None);
    && all.Success? && NoDuplicates(all.value)
    && forall owner :: ListsOwnPart(s, owner, all.value)
  }

  lemma ListingsPartitionTokens(s: State)
    requires Indexed(s) && s.tokensPerOwner.Some?
    ensures ListingsPartition(s)
  {
    WholeListing(s);
    AllTokensOnce(s);
    forall owner
      ensures ListsOwnPart(s, owner, AllTokens(s))
    {
      OwnPartIsListed(s, owner);
    }
  }

  // Approval checks

  /** nft_is_approved answers exactly whether a transfer with that approval id would be authorized. */
  lemma ApprovalIsAuthorization(s: State, t: TokenId, sender: AccountId, receiver: AccountId, approvalId: Option<nat>,
                                memo: Option<string>)
    requires t in s.ownerById && sender != s.ownerById[t] && receiver != s.ownerById[t]
    ensures Transfer(s, sender, receiver, t, approvalId, memo).Done? <==> NftIsApproved(s, t, sender, approvalId) == Success(true)
  {
  }

  /** After a transfer nobody is approved, until the new owner approves someone. */
  lemma TransferEndsApprovals(s: State, sender: AccountId, receiver: AccountId, t: TokenId, approvalId: Option<nat>,
                              memo: Option<string>, account: AccountId, anyId: Option<nat>)
    requires Transfer(s, sender, receiver, t, approvalId, memo).Done?
    ensures NftIsApproved(Transfer(s, sender, receiver, t, approvalId, memo).next, t, account, anyId) == Success(false)
  {
  }
}
