/**
 * The `usePosition` hook: six transaction actions on one position, each with a
 * guard, a busy label, one call through the notification wrapper `tx`, the
 * continuation `next` on success, and the busy label cleared in `finally`.
 */
module PositionActions {
  import opened Values
  import opened StakingTypes

  /** The contract write an action hands to `tx`. */
  datatype Call =
    | Approve(spender: string, tokenId: nat)
    | SafeTransferFrom(from: string, to: string, tokenId: nat)
    | StakeToken(key: IncentiveKey, tokenId: nat)
    | UnstakeToken(key: IncentiveKey, tokenId: nat)
    | ClaimReward(rewardToken: string, to: string, amount: nat)
    | WithdrawToken(tokenId: nat, to: string, data: seq<int>)

  /** One `tx(pendingLabel, successLabel, thunk)` invocation. */
  datatype TxRequest = TxRequest(pending: string, success: string, call: Call)

  /** How the awaited `tx(...)` settled: confirmed, or it threw (rejection, revert, dropped network). */
  datatype TxOutcome = Confirmed | Rejected

  /** A `rewards(rewardToken, owner)` read. */
  datatype RewardQuery = RewardQuery(rewardToken: string, owner: string)

  /** What the hook reads from the wallet, contracts and data contexts. */
  datatype Deps = Deps(session: Session, currentIncentive: Option<Incentive>)

  predicate ApproveReady(d: Deps) {
    d.session.nftManager.Some? && d.session.stakingRewards.Some? && d.currentIncentive.Some?
  }

  predicate TransferReady(d: Deps) {
    Truthy(d.session.address) && d.session.nftManager.Some? && d.session.stakingRewards.Some? && d.currentIncentive.Some?
  }

  /** Guard shared by `stake` and `unstake`. */
  predicate StakingReady(d: Deps) {
    d.session.stakingRewards.Some? && d.currentIncentive.Some?
  }

  predicate ClaimReady(d: Deps) {
    d.session.stakingRewards.Some? && d.currentIncentive.Some? && Truthy(d.session.address)
  }

  predicate WithdrawReady(d: Deps) {
    d.session.stakingRewards.Some? && Truthy(d.session.address)
  }

  class PositionHook {
    const tokenId: nat
    /** `isWorking`: the label of the running action, or null. */
    var isWorking: Option<string>
    /** Every value `setIsWorking` was called with, in order. */
    var busyLog: seq<Option<string>>
    /** Every `tx(...)` invocation, in order. */
    var txLog: seq<TxRequest>
    /** Every `rewards(...)` read issued by `claim`, in order. */
    var rewardQueries: seq<RewardQuery>
    /** How many times a `next` continuation was called. */
    var nextCalls: nat

    /** Between actions the hook is idle. */
    ghost predicate Valid()
      reads this
    {
      isWorking == None
    }

    constructor (tokenId: nat)
      ensures Valid() && this.tokenId == tokenId
      ensures busyLog == [] && txLog == [] && rewardQueries == [] && nextCalls == 0
    {
      this.tokenId := tokenId;
      isWorking := None;
      busyLog := [];
      txLog := [];
      rewardQueries := [];
      nextCalls := 0;
    }

    /** The body shared by the actions once their guard passed: try / catch / finally around one `tx`. */
    method Run(pending: string, success: string, call: Call, outcome: TxOutcome)
      requires Valid()
      modifies this`isWorking, this`busyLog, this`txLog, this`nextCalls
      ensures Valid()
      ensures busyLog == old(busyLog) + [Some(pending), None]
      ensures txLog == old(txLog) + [TxRequest(pending, success, call)]
      ensures nextCalls == old(nextCalls) + (if outcome == Confirmed then 1 else 0)
    {
      isWorking := Some(pending);
      busyLog := busyLog + [isWorking];
      txLog := txLog + [TxRequest(pending, success, call)];
      if outcome == Confirmed {
        nextCalls := nextCalls + 1;
      }
      // finally
      isWorking := None;
      busyLog := busyLog + [isWorking];
    }

    /** `approve`: the staking contract becomes the spender of this NFT. */
    method Approve(d: Deps, outcome: TxOutcome)
      requires Valid()
      modifies this`isWorking, this`busyLog, this`txLog, this`nextCalls
      ensures Valid() && rewardQueries == old(rewardQueries)
      ensures !ApproveReady(d) ==> busyLog == old(busyLog) && txLog == old(txLog) && nextCalls == old(nextCalls)
      ensures ApproveReady(d) ==>
                busyLog == old(busyLog) + [Some("Approving"), None] &&
                txLog == old(txLog) + [TxRequest("Approving", "Approved", Call.Approve(d.session.stakingRewards.value.address, tokenId))] &&
                nextCalls == old(nextCalls) + (if outcome == Confirmed then 1 else 0)
    {
      if !ApproveReady(d) {
        return;
      }
      Run("Approving", "Approved", Call.Approve(d.session.stakingRewards.value.address, tokenId), outcome);
    }

    /** `transfer`: the NFT moves from the wallet address to the staking contract. */
    method Transfer(d: Deps, outcome: TxOutcome)
      requires Valid()
      modifies this`isWorking, this`busyLog, this`txLog, this`nextCalls
      ensures Valid() && rewardQueries == old(rewardQueries)
      ensures !TransferReady(d) ==> busyLog == old(busyLog) && txLog == old(txLog) && nextCalls == old(nextCalls)
      ensures TransferReady(d) ==>
                busyLog == old(busyLog) + [Some("Transfering"), None] &&
                txLog == old(txLog) + [TxRequest("Transfering", "Transfered",
                           SafeTransferFrom(d.session.address.value, d.session.stakingRewards.value.address, tokenId))] &&
                nextCalls == old(nextCalls) + (if outcome == Confirmed then 1 else 0)
    {
      if !TransferReady(d) {
        return;
      }
      Run("Transfering", "Transfered", SafeTransferFrom(d.session.address.value, d.session.stakingRewards.value.address, tokenId), outcome);
    }

    /** `stake`: registers the NFT under the current incentive's key. */
    method Stake(d: Deps, outcome: TxOutcome)
      requires Valid()
      modifies this`isWorking, this`busyLog, this`txLog, this`nextCalls
      ensures Valid() && rewardQueries == old(rewardQueries)
      ensures !StakingReady(d) ==> busyLog == old(busyLog) && txLog == old(txLog) && nextCalls == old(nextCalls)
      ensures StakingReady(d) ==>
                busyLog == old(busyLog) + [Some("Staking"), None] &&
                txLog == old(txLog) + [TxRequest("Staking", "Staked", Call.StakeToken(d.currentIncentive.value.key, tokenId))] &&
                nextCalls == old(nextCalls) + (if outcome == Confirmed then 1 else 0)
    {
      if !StakingReady(d) {
        return;
      }
      Run("Staking", "Staked", Call.StakeToken(d.currentIncentive.value.key, tokenId), outcome);
    }

    /** `unstake`: deregisters the NFT from the current incentive's key. */
    method Unstake(d: Deps, outcome: TxOutcome)
      requires Valid()
      modifies this`isWorking, this`busyLog, this`txLog, this`nextCalls
      ensures Valid() && rewardQueries == old(rewardQueries)
      ensures !StakingReady(d) ==> busyLog == old(busyLog) && txLog == old(txLog) && nextCalls == old(nextCalls)
      ensures StakingReady(d) ==>
                busyLog == old(busyLog) + [Some("Unstaking"), None] &&
                txLog == old(txLog) + [TxRequest("Unstaking", "Unstaked", Call.UnstakeToken(d.currentIncentive.value.key, tokenId))] &&
                nextCalls == old(nextCalls) + (if outcome == Confirmed then 1 else 0)
    {
      if !StakingReady(d) {
        return;
      }
      Run("Unstaking", "Unstaked", Call.UnstakeToken(d.currentIncentive.value.key, tokenId), outcome);
    }

    /**
     * `claim`: reads `rewards(rewardToken, address)` and claims exactly the
     * amount that read returned. A failed read skips `tx` and `next`.
     */
    method Claim(d: Deps, rewards: (string, string) -> Outcome<nat>, outcome: TxOutcome)
      requires Valid()
      modifies this`isWorking, this`busyLog, this`txLog, this`rewardQueries, this`nextCalls
      ensures Valid()
      ensures !ClaimReady(d) ==>
                busyLog == old(busyLog) && txLog == old(txLog) && nextCalls == old(nextCalls) &&
                rewardQueries == old(rewardQueries)
      ensures ClaimReady(d) ==>
                var token, owner := d.currentIncentive.value.key.rewardToken, d.session.address.value;
                var read := rewards(token, owner);
                busyLog == old(busyLog) + [Some("Claiming"), None] &&
                rewardQueries == old(rewardQueries) + [RewardQuery(token, owner)] &&
                txLog == old(txLog) + (if read.Ok? then [TxRequest("Claiming", "ClaimedEx", ClaimReward(token, owner, read.value))] else []) &&
                nextCalls == old(nextCalls) + (if read.Ok? && outcome == Confirmed then 1 else 0)
    {
      if !ClaimReady(d) {
        return;
      }
      var token, owner := d.currentIncentive.value.key.rewardToken, d.session.address.value;
      isWorking := Some("Claiming");
      busyLog := busyLog + [isWorking];
      rewardQueries := rewardQueries + [RewardQuery(token, owner)];
      var read := rewards(token, owner);
      if read.Ok? {
        txLog := txLog + [TxRequest("Claiming", "ClaimedEx", ClaimReward(token, owner, read.value))];
        if outcome == Confirmed {
          nextCalls := nextCalls + 1;
        }
      }
      // finally
      isWorking := None;
      busyLog := busyLog + [isWorking];
    }

    /** `withdraw`: returns the NFT to the wallet address, with empty data. */
    method Withdraw(d: Deps, outcome: TxOutcome)
      requires Valid()
      modifies this`isWorking, this`busyLog, this`txLog, this`nextCalls
      ensures Valid() && rewardQueries == old(rewardQueries)
      ensures !WithdrawReady(d) ==> busyLog == old(busyLog) && txLog == old(txLog) && nextCalls == old(nextCalls)
      ensures WithdrawReady(d) ==>
                busyLog == old(busyLog) + [Some("Withdrawing"), None] &&
                txLog == old(txLog) + [TxRequest("Withdrawing", "Withdrew", WithdrawToken(tokenId, d.session.address.value, []))] &&
                nextCalls == old(nextCalls) + (if outcome == Confirmed then 1 else 0)
    {
      if !WithdrawReady(d) {
        return;
      }
      Run("Withdrawing", "Withdrew", WithdrawToken(tokenId, d.session.address.value, []), outcome);
    }
  }
}
