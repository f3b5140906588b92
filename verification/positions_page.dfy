/**
 * The logic of the positions page: the reward-claim panel and the rules that
 * decide what a position row shows.
 */
module PositionsPage {
  import opened Values
  import opened StakingTypes
  import opened Reconcile
  import opened DataContext
  import PositionActions

  /** The action button of a position row. */
  datatype RowAction = StakeButton | UnstakeButton

  /** The reward cell of a position row: '-' or the amount. */
  datatype RewardCell = Dash | Amount(reward: nat)

  /** Unstake for a staked position, Stake otherwise. */
  function RowActionOf(p: LiquidityPosition): (a: RowAction)
    ensures a == UnstakeButton <==> p.staked
  {
    if p.staked then UnstakeButton else StakeButton
  }

  /** The Withdraw button is disabled while the wallet address still owns the NFT. */
  function WithdrawDisabled(p: LiquidityPosition, address: Option<string>): (disabled: bool)
    ensures disabled <==> address.Some? && address.value == p.owner
  {
    Some(p.owner) == address
  }

  /** '-' exactly for a zero reward; the amount otherwise. */
  function RewardCellOf(p: LiquidityPosition): (c: RewardCell)
    ensures c == Dash <==> p.reward == 0
    ensures c.Amount? ==> c.reward == p.reward
  {
    if p.reward != 0 then Amount(p.reward) else Dash
  }

  /** The Claim button can be pressed only when no claim runs and some reward is shown. */
  function ClaimButtonDisabled(isClaiming: bool, reward: nat): (disabled: bool)
    ensures !disabled <==> !isClaiming && reward > 0
  {
    isClaiming || reward == 0
  }

  /** The Claim button's caption: "Claiming..." while a claim runs, "Claim" otherwise. */
  function ClaimButtonLabel(isClaiming: bool): (caption: string)
    ensures isClaiming ==> caption == "Claiming..."
    ensures !isClaiming ==> caption == "Claim"
  {
    if isClaiming then "Claiming..." else "Claim"
  }

  /**
   * In a list a pass publishes, every unstaked position shows '-' as its reward
   * and offers Stake.
   */
  lemma UnstakedRowsShowDash(records: seq<PositionRecord>, network: string, key: IncentiveKey, chain: ChainReads)
    requires Reconciled(records, network, key, chain).Some?
    ensures forall p | p in Reconciled(records, network, key, chain).value && !p.staked ::
              RewardCellOf(p) == Dash && RowActionOf(p) == StakeButton
  {
    PublishedPositions(records, network, key, chain);
  }

  /**
   * After a `TokenStaked` patch, the rows of that token offer Unstake, and no
   * row's reward cell changes.
   */
  lemma StakedPatchShowsUnstake(ps: seq<LiquidityPosition>, tokenId: nat)
    ensures var r := SetStaked(ps, tokenId, true);
            forall i | 0 <= i < |r| ::
              RewardCellOf(r[i]) == RewardCellOf(ps[i]) &&
              (r[i].tokenId == tokenId ==> RowActionOf(r[i]) == UnstakeButton) &&
              (r[i].tokenId != tokenId ==> RowActionOf(r[i]) == RowActionOf(ps[i]))
  {
  }

  /** A `rewards(rewardToken, owner)` read as the panel issues it; `owner` may be null in `claim`. */
  datatype RewardRead = RewardRead(rewardToken: string, owner: Option<string>)

  /** The `claimReward(rewardToken, recipient, amount)` call the panel hands to `tx`. */
  datatype ClaimRequest = ClaimRequest(rewardToken: string, recipient: Option<string>, amount: nat)

  /** `ClaimAvailableReward`. */
  class ClaimPanel {
    /** The displayed reward. */
    var reward: nat
    var isClaiming: bool
    /** `isMounted` of the subscription effect run `generation`. */
    var mounted: bool
    /** How many times the subscription effect has installed itself; each run has its own `isMounted`. */
    var generation: nat
    /** The read `load` closes over: the incentive's reward token and the wallet address. */
    var loadRead: Option<RewardRead>
    /** The `load` calls still awaiting their read, each tagged with the effect run that issued it. */
    var inFlight: multiset<nat>
    /** Every value `setIsClaiming` was called with, in order. */
    var claimingLog: seq<bool>
    /** Every `rewards(...)` read the panel issued, in order. */
    var rewardReads: seq<RewardRead>
    /** Every claim handed to `tx`, with how it settled (nothing runs after it, so only this log records it). */
    var claims: seq<(ClaimRequest, PositionActions.TxOutcome)>

    ghost predicate Valid()
      reads this
    {
      !isClaiming && (mounted ==> loadRead.Some?) && forall g | g in inFlight :: g <= generation
    }

    constructor ()
      ensures Valid()
      ensures reward == 0 && !mounted && generation == 0 && loadRead == None && inFlight == multiset{}
      ensures claimingLog == [] && rewardReads == [] && claims == []
    {
      reward := 0;
      isClaiming := false;
      mounted := false;
      generation := 0;
      loadRead := None;
      inFlight := multiset{};
      claimingLog := [];
      rewardReads := [];
      claims := [];
    }

    /** The Claim button's `disabled` expression, as `ClaimButtonDisabled` defines it. */
    function ClaimDisabled(): (disabled: bool)
      reads this
      ensures disabled == ClaimButtonDisabled(isClaiming, reward)
    {
      ClaimButtonDisabled(isClaiming, reward)
    }

    /**
     * `load` up to its `await`: the `rewards(rewardToken, address)` read is
     * issued for the effect run now installed and is in flight.
     */
    method IssueLoad()
      requires Valid() && mounted
      modifies this`rewardReads, this`inFlight
      ensures Valid()
      ensures rewardReads == old(rewardReads) + [loadRead.value]
      ensures inFlight == old(inFlight) + multiset{generation}
    {
      rewardReads := rewardReads + [loadRead.value];
      inFlight := inFlight + multiset{generation};
    }

    /**
     * `load` after its `await`: a read issued by effect run `issuedBy` settles
     * with `read`. The displayed reward takes the amount only if that run's
     * `isMounted` is still true and the read resolved; a read that settles
     * after its effect was cleaned up changes nothing.
     */
    method LoadSettled(issuedBy: nat, read: Outcome<nat>)
      requires Valid() && issuedBy in inFlight
      modifies this`reward, this`inFlight
      ensures Valid()
      ensures inFlight == old(inFlight) - multiset{issuedBy}
      ensures reward == if mounted && issuedBy == generation && read.Ok? then read.value else old(reward)
    {
      inFlight := inFlight - multiset{issuedBy};
      if read.Ok? && mounted && issuedBy == generation {
        reward := read.value;
      }
    }

    /**
     * The subscription effect: with a staking contract, an incentive and an
     * address it mounts a new run, captures the read, and issues `load` once.
     * The same `load` is what the `TokenUnstaked` and `RewardClaimed` listeners
     * call (`IssueLoad`). React has run the previous effect's cleanup before,
     * so nothing is mounted on entry.
     */
    method Setup(session: Session, currentIncentive: Option<Incentive>)
      requires Valid() && !mounted
      modifies this`mounted, this`generation, this`loadRead, this`rewardReads, this`inFlight
      ensures Valid()
      ensures !(session.stakingRewards.Some? && currentIncentive.Some? && Truthy(session.address)) ==>
                !mounted && generation == old(generation) && loadRead == old(loadRead) &&
                rewardReads == old(rewardReads) && inFlight == old(inFlight)
      ensures session.stakingRewards.Some? && currentIncentive.Some? && Truthy(session.address) ==>
                var q := RewardRead(currentIncentive.value.key.rewardToken, session.address);
                mounted && generation == old(generation) + 1 && loadRead == Some(q) &&
                rewardReads == old(rewardReads) + [q] && inFlight == old(inFlight) + multiset{generation}
    {
      if !(session.stakingRewards.Some? && currentIncentive.Some? && Truthy(session.address)) {
        return;
      }
      mounted := true;
      generation := generation + 1;
      loadRead := Some(RewardRead(currentIncentive.value.key.rewardToken, session.address));
      IssueLoad();
    }

    /** The effect's cleanup: `isMounted = false`; a `load` still in flight no longer updates the reward. */
    method Teardown()
      requires Valid()
      modifies this`mounted
      ensures Valid() && !mounted
    {
      mounted := false;
    }

    /**
     * `claim`: guarded by the staking contract and the incentive only (not the
     * address). It reads `rewards(rewardToken, address)` afresh and claims
     * exactly that amount, not the displayed one; `isClaiming` is true while it
     * runs and false afterwards in every outcome.
     */
    method Claim(session: Session, currentIncentive: Option<Incentive>, rewards: (string, Option<string>) -> Outcome<nat>, outcome: PositionActions.TxOutcome)
      requires Valid()
      modifies this`isClaiming, this`claimingLog, this`rewardReads, this`claims
      ensures Valid()
      ensures !(session.stakingRewards.Some? && currentIncentive.Some?) ==>
                claimingLog == old(claimingLog) && rewardReads == old(rewardReads) && claims == old(claims)
      ensures session.stakingRewards.Some? && currentIncentive.Some? ==>
                var q := RewardRead(currentIncentive.value.key.rewardToken, session.address);
                var read := rewards(q.rewardToken, q.owner);
                claimingLog == old(claimingLog) + [true, false] &&
                rewardReads == old(rewardReads) + [q] &&
                claims == old(claims) + (if read.Ok? then [(ClaimRequest(q.rewardToken, session.address, read.value), outcome)] else [])
    {
      if !(session.stakingRewards.Some? && currentIncentive.Some?) {
        return;
      }
      isClaiming := true;
      claimingLog := claimingLog + [isClaiming];
      var q := RewardRead(currentIncentive.value.key.rewardToken, session.address);
      rewardReads := rewardReads + [q];
      var read := rewards(q.rewardToken, q.owner);
      if read.Ok? {
        claims := claims + [(ClaimRequest(q.rewardToken, session.address, read.value), outcome)];
      }
      // finally
      isClaiming := false;
      claimingLog := claimingLog + [isClaiming];
    }
  }
}
