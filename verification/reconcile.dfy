/**
 * What one `refreshPositions` pass computes from the subgraph records and the
 * on-chain reads: which positions it keeps, when it gives up, and the order
 * it publishes them in.
 */
module Reconcile {
  import opened Values
  import opened Config
  import opened StakingTypes

  /** One row of the subgraph's `positions(where: { owner })` query. */
  datatype PositionRecord = PositionRecord(tokenId: nat, owner: string, staked: bool)

  /** What `nftManagerPositionsContract.positions(tokenId)` returns. */
  datatype ChainPosition = ChainPosition(liquidity: nat, token0: string, token1: string)

  /**
   * The contract reads of one pass, as the outcomes they settle to:
   * `positions(tokenId)` on the position manager, and the first component of
   * `getRewardInfo(key, tokenId)` on the staking contract.
   */
  datatype ChainReads = ChainReads(
    positions: nat -> Outcome<ChainPosition>,
    rewardInfo: (IncentiveKey, nat) -> Outcome<nat>)

  /** The token-pair test: the configured pair of `network`, in either order, by exact string equality. */
  predicate PairMatches(token0: string, token1: string, network: string) {
    (Some(token0) == Lookup(Token0Address, network) && Some(token1) == Lookup(Token1Address, network)) ||
    (Some(token0) == Lookup(Token1Address, network) && Some(token1) == Lookup(Token0Address, network))
  }

  /** On a supported network the pair test accepts exactly the two configured tokens, and never one token twice. */
  lemma PairMatchesExactly(token0: string, token1: string, network: string)
    requires IsAvailable(network)
    ensures PairMatches(token0, token1, network) <==> PairMatches(token1, token0, network)
    ensures PairMatches(token0, token1, network) ==> token0 != token1
    ensures PairMatches(token0, token1, network) <==>
              multiset{token0, token1} == multiset{Token0Address[network], Token1Address[network]}
  {
    NetworkTablesComplete(network);
    var a, b := Token0Address[network], Token1Address[network];
    if multiset{token0, token1} == multiset{a, b} {
      assert token0 in multiset{a, b} && token1 in multiset{a, b};
      if token0 == a {
        assert multiset{token0, token1} - multiset{a} == multiset{token1};
      } else {
        assert multiset{token0, token1} - multiset{b} == multiset{token1};
      }
    }
  }

  /** A `positions(tokenId)` read that resolved with zero liquidity: the pass returns early. */
  predicate ZeroLiquidity(read: Outcome<ChainPosition>) {
    read.Ok? && read.value.liquidity == 0
  }

  /** Some record's position read reports zero liquidity, so `return null` ends the pass. */
  predicate Aborts(records: seq<PositionRecord>, chain: ChainReads) {
    exists i | 0 <= i < |records| :: ZeroLiquidity(chain.positions(records[i].tokenId))
  }

  /** The reward of a kept position: read only when staked; a failed read counts as 0. */
  function RewardOf(rec: PositionRecord, key: IncentiveKey, chain: ChainReads): nat {
    if rec.staked then chain.rewardInfo(key, rec.tokenId).GetOr(0) else 0
  }

  /** The position a record becomes once its on-chain read resolved with `c`. */
  function Detail(rec: PositionRecord, c: ChainPosition, key: IncentiveKey, chain: ChainReads): LiquidityPosition {
    LiquidityPosition(rec.tokenId, rec.owner, RewardOf(rec, key, chain), rec.staked, c.token0, c.token1)
  }

  /** What one record contributes: nothing if its read failed or its pair does not match. */
  function KeepOne(rec: PositionRecord, network: string, key: IncentiveKey, chain: ChainReads): seq<LiquidityPosition> {
    match chain.positions(rec.tokenId)
    case Fail => []
    case Ok(c) => if PairMatches(c.token0, c.token1, network) then [Detail(rec, c, key, chain)] else []
  }

  /** `detailedPositions` after the loop has visited `records`, in visiting order. */
  function Kept(records: seq<PositionRecord>, network: string, key: IncentiveKey, chain: ChainReads): seq<LiquidityPosition>
  {
    if records == [] then []
    else Kept(records[..|records| - 1], network, key, chain) + KeepOne(records[|records| - 1], network, key, chain)
  }

  /** `position` is what record `rec` becomes in a pass. */
  predicate Produces(rec: PositionRecord, position: LiquidityPosition, network: string, key: IncentiveKey, chain: ChainReads) {
    chain.positions(rec.tokenId).Ok? &&
    PairMatches(chain.positions(rec.tokenId).value.token0, chain.positions(rec.tokenId).value.token1, network) &&
    position == Detail(rec, chain.positions(rec.tokenId).value, key, chain)
  }

  /**
   * Addresses are compared as exact strings: goerli's pair with TOKEN_1 spelled
   * in lower case, in either order, is not accepted.
   */
  lemma AddressesAreCaseSensitive()
    ensures !PairMatches(Token0Address[NetworkGoerli], "0xb4fbf271143f4fbf7b91a5ded31805e42b2208d6", NetworkGoerli)
    ensures !PairMatches("0xb4fbf271143f4fbf7b91a5ded31805e42b2208d6", Token0Address[NetworkGoerli], NetworkGoerli)
  {
    assert Token1Address[NetworkGoerli][2] == 'B';
  }

  /** Descending order of `tokenId`. */
  predicate SortedDesc(ps: seq<LiquidityPosition>) {
    forall i, j | 0 <= i < j < |ps| :: ps[i].tokenId >= ps[j].tokenId
  }

  /** Inserts `p` into a descending list, before the first entry whose `tokenId` is not larger. */
  function InsertDesc(p: LiquidityPosition, ps: seq<LiquidityPosition>): seq<LiquidityPosition> {
    if ps == [] || ps[0].tokenId <= p.tokenId then [p] + ps
    else [ps[0]] + InsertDesc(p, ps[1..])
  }

  /** `_orderBy(list, ['tokenId'], ['desc'])`. */
  function SortDesc(ps: seq<LiquidityPosition>): seq<LiquidityPosition> {
    if ps == [] then [] else InsertDesc(ps[0], SortDesc(ps[1..]))
  }

  /** The published list of a pass over `records`, or None when the pass returns before publishing. */
  function Reconciled(records: seq<PositionRecord>, network: string, key: IncentiveKey, chain: ChainReads): Option<seq<LiquidityPosition>> {
    if Aborts(records, chain) then None else Some(SortDesc(Kept(records, network, key, chain)))
  }

  lemma {:induction false} InsertDescPermutes(p: LiquidityPosition, ps: seq<LiquidityPosition>)
    ensures multiset(InsertDesc(p, ps)) == multiset{p} + multiset(ps)
    decreases |ps|
  {
    if ps != [] && ps[0].tokenId > p.tokenId {
      InsertDescPermutes(p, ps[1..]);
      assert ps == [ps[0]] + ps[1..];
    }
  }

  lemma {:induction false} InsertDescSorted(p: LiquidityPosition, ps: seq<LiquidityPosition>)
    requires SortedDesc(ps)
    ensures SortedDesc(InsertDesc(p, ps))
    decreases |ps|
  {
    if ps != [] && ps[0].tokenId > p.tokenId {
      var rest := InsertDesc(p, ps[1..]);
      InsertDescSorted(p, ps[1..]);
      InsertDescPermutes(p, ps[1..]);
      forall k | 0 <= k < |rest| ensures ps[0].tokenId >= rest[k].tokenId {
        assert rest[k] in multiset(rest);
        if rest[k] != p {
          assert rest[k] in multiset(ps[1..]);
          var j :| 0 <= j < |ps[1..]| && ps[1..][j] == rest[k];
          assert ps[j + 1] == rest[k];
        }
      }
      assert InsertDesc(p, ps) == [ps[0]] + rest;
    }
  }

  /** The sort yields a descending list holding exactly the same positions. */
  lemma {:induction false} SortDescCorrect(ps: seq<LiquidityPosition>)
    ensures SortedDesc(SortDesc(ps))
    ensures multiset(SortDesc(ps)) == multiset(ps)
    decreases |ps|
  {
    if ps != [] {
      SortDescCorrect(ps[1..]);
      InsertDescSorted(ps[0], SortDesc(ps[1..]));
      InsertDescPermutes(ps[0], SortDesc(ps[1..]));
      assert ps == [ps[0]] + ps[1..];
    }
  }

  /** Token ids [3, 10, 1] are published as [10, 3, 1]. */
  lemma SortDescExample(a: LiquidityPosition, b: LiquidityPosition, c: LiquidityPosition)
    requires a.tokenId == 3 && b.tokenId == 10 && c.tokenId == 1
    ensures SortDesc([a, b, c]) == [b, a, c]
  {
    assert [a, b, c][1..] == [b, c] && [b, c][1..] == [c] && [c][1..] == [];
    assert SortDesc([c]) == [c];
    assert SortDesc([b, c]) == InsertDesc(b, [c]) == [b, c];
    assert InsertDesc(a, [c]) == [a, c];
    assert InsertDesc(a, [b, c]) == [b] + InsertDesc(a, [c]);
  }

  /** The loop over records distributes over concatenation. */
  lemma {:induction false} KeptAppend(xs: seq<PositionRecord>, ys: seq<PositionRecord>, network: string, key: IncentiveKey, chain: ChainReads)
    ensures Kept(xs + ys, network, key, chain) == Kept(xs, network, key, chain) + Kept(ys, network, key, chain)
    decreases |ys|
  {
    if ys == [] {
      assert xs + ys == xs;
    } else {
      var ys' := ys[..|ys| - 1];
      KeptAppend(xs, ys', network, key, chain);
      assert (xs + ys)[..|xs + ys| - 1] == xs + ys';
      assert (xs + ys)[|xs + ys| - 1] == ys[|ys| - 1];
    }
  }

  /** A position is kept exactly when some record produces it. */
  lemma {:induction false} KeptMembers(records: seq<PositionRecord>, network: string, key: IncentiveKey, chain: ChainReads, p: LiquidityPosition)
    ensures p in Kept(records, network, key, chain) <==>
              exists i | 0 <= i < |records| :: Produces(records[i], p, network, key, chain)
    decreases |records|
  {
    if records != [] {
      var init := records[..|records| - 1];
      var last := records[|records| - 1];
      KeptMembers(init, network, key, chain, p);
      assert forall i | 0 <= i < |init| :: init[i] == records[i];
      assert p in KeepOne(last, network, key, chain) <==> Produces(last, p, network, key, chain);
      if p in Kept(records, network, key, chain) && !(p in Kept(init, network, key, chain)) {
        assert Produces(records[|records| - 1], p, network, key, chain);
      }
    }
  }

  /**
   * Every kept position carries the configured pair, its record's `staked` flag
   * and owner, and a zero reward unless it is staked.
   */
  lemma KeptPositionsWellFormed(records: seq<PositionRecord>, network: string, key: IncentiveKey, chain: ChainReads)
    ensures forall p | p in Kept(records, network, key, chain) ::
              PairMatches(p.token0, p.token1, network) &&
              (!p.staked ==> p.reward == 0) &&
              exists i | 0 <= i < |records| ::
                records[i].tokenId == p.tokenId && records[i].staked == p.staked && records[i].owner == p.owner
  {
    forall p | p in Kept(records, network, key, chain)
      ensures PairMatches(p.token0, p.token1, network)
      ensures !p.staked ==> p.reward == 0
      ensures exists i | 0 <= i < |records| ::
                records[i].tokenId == p.tokenId && records[i].staked == p.staked && records[i].owner == p.owner
    {
      KeptMembers(records, network, key, chain, p);
      var i :| 0 <= i < |records| && Produces(records[i], p, network, key, chain);
    }
  }

  /**
   * A record whose position read resolved with the configured pair is kept,
   * with reward 0 when it is unstaked or its reward read failed, and the read
   * value otherwise.
   */
  lemma KeptIncludes(records: seq<PositionRecord>, k: nat, network: string, key: IncentiveKey, chain: ChainReads)
    requires k < |records|
    requires chain.positions(records[k].tokenId).Ok?
    requires PairMatches(chain.positions(records[k].tokenId).value.token0, chain.positions(records[k].tokenId).value.token1, network)
    ensures var rec, c := records[k], chain.positions(records[k].tokenId).value;
            var reward := if rec.staked && chain.rewardInfo(key, rec.tokenId).Ok? then chain.rewardInfo(key, rec.tokenId).value else 0;
            LiquidityPosition(rec.tokenId, rec.owner, reward, rec.staked, c.token0, c.token1) in Kept(records, network, key, chain)
  {
    var rec := records[k];
    var p := Detail(rec, chain.positions(rec.tokenId).value, key, chain);
    assert Produces(records[k], p, network, key, chain);
    KeptMembers(records, network, key, chain, p);
  }

  /** A failed `positions()` read drops that record and nothing else. */
  lemma FailedReadDropsOnlyThat(records: seq<PositionRecord>, k: nat, network: string, key: IncentiveKey, chain: ChainReads)
    requires k < |records|
    requires chain.positions(records[k].tokenId).Fail?
    ensures Kept(records, network, key, chain) == Kept(records[..k] + records[k + 1..], network, key, chain)
  {
    var pre, rec, post := records[..k], records[k], records[k + 1..];
    assert records == pre + ([rec] + post);
    KeptAppend(pre, [rec] + post, network, key, chain);
    KeptAppend([rec], post, network, key, chain);
    KeptOfFailedRead(rec, network, key, chain);
    KeptAppend(pre, post, network, key, chain);
  }

  lemma KeptOfFailedRead(rec: PositionRecord, network: string, key: IncentiveKey, chain: ChainReads)
    requires chain.positions(rec.tokenId).Fail?
    ensures Kept([rec], network, key, chain) == []
  {
    assert [rec][..0] == [];
  }

  /**
   * What a completed pass publishes: sorted by `tokenId` descending, exactly the
   * kept positions, each with the configured pair and a zero reward unless staked.
   */
  lemma PublishedPositions(records: seq<PositionRecord>, network: string, key: IncentiveKey, chain: ChainReads)
    ensures Reconciled(records, network, key, chain).None? <==> Aborts(records, chain)
    ensures Reconciled(records, network, key, chain).Some? ==>
              var ps := Reconciled(records, network, key, chain).value;
              SortedDesc(ps) &&
              multiset(ps) == multiset(Kept(records, network, key, chain)) &&
              forall p | p in ps :: PairMatches(p.token0, p.token1, network) && (!p.staked ==> p.reward == 0)
  {
    var kept := Kept(records, network, key, chain);
    SortDescCorrect(kept);
    KeptPositionsWellFormed(records, network, key, chain);
    forall p | p in SortDesc(kept) ensures p in kept {
      assert p in multiset(SortDesc(kept));
    }
  }
}
