/**
 * The data context: the incentive list, the selected incentive, the published
 * position list, and the event listener that patches it.
 */
module DataContext {
  import opened Values
  import opened Config
  import opened StakingTypes
  import opened Incentives
  import opened Reconcile

  /** `positions.map(...)` of the event handlers: flip `staked` on the positions with `tokenId`. */
  function SetStaked(ps: seq<LiquidityPosition>, tokenId: nat, staked: bool): (r: seq<LiquidityPosition>)
    ensures |r| == |ps|
    ensures forall i | 0 <= i < |ps| && ps[i].tokenId != tokenId :: r[i] == ps[i]
    ensures forall i | 0 <= i < |ps| && ps[i].tokenId == tokenId :: r[i].staked == staked
    ensures forall i | 0 <= i < |ps| ::
              r[i].tokenId == ps[i].tokenId && r[i].reward == ps[i].reward && r[i].owner == ps[i].owner &&
              r[i].token0 == ps[i].token0 && r[i].token1 == ps[i].token1
  {
    seq(|ps|, i requires 0 <= i < |ps| => if ps[i].tokenId == tokenId then ps[i].(staked := staked) else ps[i])
  }

  /** Delivering the same event twice gives the same list as delivering it once. */
  lemma SetStakedIdempotent(ps: seq<LiquidityPosition>, tokenId: nat, staked: bool)
    ensures SetStaked(SetStaked(ps, tokenId, staked), tokenId, staked) == SetStaked(ps, tokenId, staked)
  {
    var once := SetStaked(ps, tokenId, staked);
    var twice := SetStaked(once, tokenId, staked);
    forall i | 0 <= i < |ps| ensures twice[i] == once[i] {
      if ps[i].tokenId == tokenId {
        assert once[i] == ps[i].(staked := staked);
      }
    }
  }

  /** A position carries the token pair of some supported network. */
  predicate HasConfiguredPair(p: LiquidityPosition) {
    exists n | n in AvailableNetworks :: PairMatches(p.token0, p.token1, n)
  }

  /** A patch keeps the list's order and every position's tokens. */
  lemma SetStakedKeepsShape(ps: seq<LiquidityPosition>, tokenId: nat, staked: bool)
    requires SortedDesc(ps) && forall p | p in ps :: HasConfiguredPair(p)
    ensures SortedDesc(SetStaked(ps, tokenId, staked))
    ensures forall p | p in SetStaked(ps, tokenId, staked) :: HasConfiguredPair(p)
  {
    var r := SetStaked(ps, tokenId, staked);
    forall p | p in r ensures HasConfiguredPair(p) {
      var i :| 0 <= i < |r| && r[i] == p;
      assert ps[i] in ps;
      var n :| n in AvailableNetworks && PairMatches(ps[i].token0, ps[i].token1, n);
      assert PairMatches(p.token0, p.token1, n);
    }
  }

  class DataProvider {
    var positions: seq<LiquidityPosition>
    var incentives: seq<Incentive>
    var currentIncentiveId: Option<string>
    /** `isMounted` of the event-subscription effect now installed. */
    var listenerMounted: bool
    /** The `currentIncentiveId` that effect closed over when it subscribed. */
    var listenerIncentiveId: Option<string>

    /** The published list is always sorted and holds only configured pairs. */
    ghost predicate Valid()
      reads this
    {
      SortedDesc(positions) && forall p | p in positions :: HasConfiguredPair(p)
    }

    constructor ()
      ensures Valid()
      ensures positions == [] && incentives == [] && currentIncentiveId == None
      ensures !listenerMounted && listenerIncentiveId == None
    {
      positions := [];
      incentives := [];
      currentIncentiveId := None;
      listenerMounted := false;
      listenerIncentiveId := None;
    }

    /** The `currentIncentive` memo. */
    function CurrentIncentive(): (r: Option<Incentive>)
      reads this
      ensures !Truthy(currentIncentiveId) ==> r.None?
      ensures Truthy(currentIncentiveId) ==>
                (r.None? <==> forall i | 0 <= i < |incentives| :: incentives[i].id != currentIncentiveId.value)
      ensures r.Some? ==> r.value.id == currentIncentiveId.value && exists i | 0 <= i < |incentives| ::
                incentives[i] == r.value && forall j | 0 <= j < i :: incentives[j].id != currentIncentiveId.value
    {
      CurrentIncentiveOf(currentIncentiveId, incentives)
    }

    /** `setCurrentIncentiveId`: a user override; it reloads nothing. */
    method SetCurrentIncentiveId(id: string)
      requires Valid()
      modifies this`currentIncentiveId
      ensures Valid()
      ensures currentIncentiveId == Some(id)
    {
      currentIncentiveId := Some(id);
    }

    /**
     * The incentive-loading effect, with the subgraph answer as `results`
     * (None when the request failed or returned null). A skipped guard, a
     * failure or an empty answer changes nothing; otherwise the list is
     * replaced and the first row becomes the current incentive.
     */
    method LoadIncentives(network: Option<string>, results: Option<seq<IncentiveRecord>>)
      requires Valid()
      modifies this`incentives, this`currentIncentiveId
      ensures Valid()
      ensures !IncentiveLoadEnabled(network) || results.None? || results.value == [] ==>
                incentives == old(incentives) && currentIncentiveId == old(currentIncentiveId)
      ensures IncentiveLoadEnabled(network) && results.Some? && results.value != [] ==>
                incentives == ToIncentives(results.value) && currentIncentiveId == Some(results.value[0].id)
    {
      if !IncentiveLoadEnabled(network) {
        return;
      }
      if results.None? || |results.value| == 0 {
        return;
      }
      incentives := ToIncentives(results.value);
      currentIncentiveId := Some(results.value[0].id);
    }

    /** The guard at the top of `refreshPositions`. */
    static predicate RefreshEnabled(session: Session, current: Option<Incentive>) {
      session.nftManager.Some? && session.stakingRewards.Some? && Truthy(session.address) &&
      Truthy(session.network) && IsAvailable(session.network.value) &&
      Lookup(Token0Address, session.network.value) != Some("") &&
      Lookup(Token1Address, session.network.value) != Some("") &&
      current.Some?
    }

    /**
     * One `refreshPositions` pass. `subgraphAvailable` is whether the subgraph
     * client could be built, `query` the settled positions query, `chain` the
     * contract reads. The list is replaced only by a pass that gets through every
     * record; otherwise it is left as it was.
     */
    method RefreshPositions(session: Session, subgraphAvailable: bool, query: Outcome<seq<PositionRecord>>, chain: ChainReads)
      requires Valid()
      modifies this`positions
      ensures Valid()
      ensures var current := old(CurrentIncentive());
              positions ==
                if RefreshEnabled(session, current) && subgraphAvailable && query.Ok? && !Aborts(query.value, chain)
                then SortDesc(Kept(query.value, session.network.value, current.value.key, chain))
                else old(positions)
    {
      var current := CurrentIncentive();
      if !RefreshEnabled(session, current) {
        return;
      }
      if !subgraphAvailable {
        return;
      }
      if query.Fail? {
        return;
      }
      var network, key, records := session.network.value, current.value.key, query.value;
      var detailed: seq<LiquidityPosition> := [];
      var i := 0;
      while i < |records|
        invariant 0 <= i <= |records|
        invariant detailed == Kept(records[..i], network, key, chain)
        invariant forall j | 0 <= j < i :: !ZeroLiquidity(chain.positions(records[j].tokenId))
      {
        var pos := records[i];
        assert records[..i + 1][..i] == records[..i];
        var read := chain.positions(pos.tokenId);
        if read.Ok? {
          if read.value.liquidity == 0 {
            // `return null` inside the loop leaves the whole pass
            assert ZeroLiquidity(chain.positions(records[i].tokenId));
            return;
          }
          if PairMatches(read.value.token0, read.value.token1, network) {
            var reward := 0;
            var staked := pos.staked;
            if staked {
              var info := chain.rewardInfo(key, pos.tokenId);
              if info.Ok? {
                reward := info.value;
              }
            }
            detailed := detailed + [LiquidityPosition(pos.tokenId, pos.owner, reward, staked, read.value.token0, read.value.token1)];
          }
        }
        i := i + 1;
      }
      assert records[..i] == records;
      PublishedPositions(records, network, key, chain);
      positions := SortDesc(detailed);
    }

    /** The effect's cleanup: `isMounted = false` and the listeners are removed. */
    method TeardownEvents()
      requires Valid()
      modifies this`listenerMounted
      ensures Valid()
      ensures !listenerMounted
    {
      listenerMounted := false;
    }

    /**
     * The event-subscription effect: it subscribes only with a staking contract
     * and a non-empty incentive id. React has run the previous effect's cleanup
     * before, so no listener is mounted on entry.
     */
    method SubscribeEvents(session: Session)
      requires Valid() && !listenerMounted
      modifies this`listenerMounted, this`listenerIncentiveId
      ensures Valid()
      ensures session.stakingRewards.Some? && Truthy(currentIncentiveId) ==>
                listenerMounted && listenerIncentiveId == currentIncentiveId
      ensures !(session.stakingRewards.Some? && Truthy(currentIncentiveId)) ==>
                !listenerMounted && listenerIncentiveId == old(listenerIncentiveId)
    {
      if !(session.stakingRewards.Some? && Truthy(currentIncentiveId)) {
        return;
      }
      listenerMounted := true;
      listenerIncentiveId := currentIncentiveId;
    }

    /** `updateStaked`, the `TokenStaked` handler. */
    method OnTokenStaked(tokenId: nat, incentiveId: string)
      requires Valid()
      modifies this`positions
      ensures Valid()
      ensures positions ==
                if Some(incentiveId) == listenerIncentiveId && listenerMounted
                then SetStaked(old(positions), tokenId, true)
                else old(positions)
    {
      if Some(incentiveId) != listenerIncentiveId {
        return;
      }
      if listenerMounted {
        SetStakedKeepsShape(positions, tokenId, true);
        positions := SetStaked(positions, tokenId, true);
      }
    }

    /** `updateUnstaked`, the `TokenUnstaked` handler. */
    method OnTokenUnstaked(tokenId: nat, incentiveId: string)
      requires Valid()
      modifies this`positions
      ensures Valid()
      ensures positions ==
                if Some(incentiveId) == listenerIncentiveId && listenerMounted
                then SetStaked(old(positions), tokenId, false)
                else old(positions)
    {
      if Some(incentiveId) != listenerIncentiveId {
        return;
      }
      if listenerMounted {
        SetStakedKeepsShape(positions, tokenId, false);
        positions := SetStaked(positions, tokenId, false);
      }
    }
  }

  /** With the configuration table, the refresh guard reduces to its session and incentive parts. */
  lemma RefreshEnabledExactly(session: Session, current: Option<Incentive>)
    ensures DataProvider.RefreshEnabled(session, current) <==>
              session.nftManager.Some? && session.stakingRewards.Some? && Truthy(session.address) &&
              (session.network == Some("mainnet") || session.network == Some("goerli")) && current.Some?
  {
    if session.network.Some? {
      AvailableNetworksExactly(session.network.value);
      if IsAvailable(session.network.value) {
        NetworkTablesComplete(session.network.value);
      }
    }
  }
}
