/** The entities the staking data layer passes around. */
module StakingTypes {
  import opened Values

  /** Identifies a reward program; passed verbatim to the staking contract. */
  datatype IncentiveKey = IncentiveKey(
    rewardToken: string,
    pool: string,
    startTime: int,
    endTime: int,
    refundee: string)

  datatype Incentive = Incentive(id: string, key: IncentiveKey, reward: nat, ended: bool)

  /** A liquidity-position NFT as the dashboard publishes it; identity is `tokenId`. */
  datatype LiquidityPosition = LiquidityPosition(
    tokenId: nat,
    owner: string,
    reward: nat,
    staked: bool,
    token0: string,
    token1: string)

  /** An ethers contract handle; only its address is ever used. */
  datatype Contract = Contract(address: string)

  /** What the wallet and contracts contexts hand to the data layer and the hooks. */
  datatype Session = Session(
    address: Option<string>,
    network: Option<string>,
    nftManager: Option<Contract>,
    stakingRewards: Option<Contract>)
}
