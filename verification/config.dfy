/** The per-network configuration table the data layer is guarded by. */
module Config {
  import opened Values

  const NetworkMainnet: string := "mainnet"
  const NetworkGoerli: string := "goerli"

  /** The networks the dashboard supports, in declaration order. */
  const AvailableNetworks: seq<string> := [NetworkMainnet, NetworkGoerli]

  /** Reward token; also one side of the liquidity pair. */
  const Token0Address: map<string, string> := map[
    NetworkMainnet := "0x4343d80ef5808490a079aa0907ffdc9373c7a4dd",
    NetworkGoerli := "0x4343d80ef5808490a079aa0907ffdc9373c7a4dd"
  ]

  /** The other side of the liquidity pair. */
  const Token1Address: map<string, string> := map[
    NetworkMainnet := "0xc02aaa39b223fe8d0a0e5c4f27ead9083c756cc2",
    NetworkGoerli := "0xB4FBF271143F4FBf7B91A5ded31805e42b2208d6"
  ]

  const NftPositionsManagerAddress: map<string, string> := map[
    NetworkMainnet := "0xC36442b4a4522E871399CD717aBDD847Ab11FE88",
    NetworkGoerli := "0xC36442b4a4522E871399CD717aBDD847Ab11FE88"
  ]

  const StakingRewardsAddress: map<string, string> := map[
    NetworkMainnet := "0xe34139463bA50bD61336E0c446Bd8C0867c6fE65",
    NetworkGoerli := "0xe34139463bA50bD61336E0c446Bd8C0867c6fE65"
  ]

  const Subgraphs: map<string, string> := map[
    NetworkMainnet := "https://api.thegraph.com/subgraphs/name/mchainnetwork/mar-staking-mainnet",
    NetworkGoerli := "https://api.thegraph.com/subgraphs/name/mchainnetwork/mar-staking-goerli"
  ]

  /** `table[network]` on a `Record<string, string>`: undefined (None) for a network it has no entry for. */
  function Lookup(table: map<string, string>, network: string): Option<string> {
    if network in table then Some(table[network]) else None
  }

  /** `AVAILABLE_NETWORKS.includes(network)`. */
  predicate IsAvailable(network: string) {
    network in AvailableNetworks
  }

  /** The supported networks are exactly mainnet and goerli. */
  lemma AvailableNetworksExactly(network: string)
    ensures IsAvailable(network) <==> network == "mainnet" || network == "goerli"
  {
  }

  /**
   * Every supported network has a non-empty address for both pair tokens, the two
   * differ, and it has a subgraph endpoint: the "address is empty" guards never
   * fire for a supported network.
   */
  lemma NetworkTablesComplete(network: string)
    requires IsAvailable(network)
    ensures Lookup(Token0Address, network).Some? && Lookup(Token0Address, network) != Some("")
    ensures Lookup(Token1Address, network).Some? && Lookup(Token1Address, network) != Some("")
    ensures Lookup(Token0Address, network) != Lookup(Token1Address, network)
    ensures network in Subgraphs && network in NftPositionsManagerAddress && network in StakingRewardsAddress
  {
    AvailableNetworksExactly(network);
    var mainT1 := Token1Address[NetworkMainnet];
    var goerliT1 := Token1Address[NetworkGoerli];
    assert mainT1[2] != Token0Address[NetworkMainnet][2];
    assert goerliT1[2] != Token0Address[NetworkGoerli][2];
  }
}
