/** The incentive registry: mapping subgraph rows, the load guard and the current incentive. */
module Incentives {
  import opened Values
  import opened Config
  import opened StakingTypes

  /** One row of the subgraph's `incentives` query. */
  datatype IncentiveRecord = IncentiveRecord(
    id: string,
    rewardToken: string,
    pool: string,
    startTime: int,
    endTime: int,
    refundee: string,
    reward: nat,
    ended: bool)

  function ToIncentive(r: IncentiveRecord): Incentive {
    Incentive(r.id, IncentiveKey(r.rewardToken, r.pool, r.startTime, r.endTime, r.refundee), r.reward, r.ended)
  }

  /** `results.incentives.map(...)`: one incentive per row, same order. */
  function ToIncentives(results: seq<IncentiveRecord>): (r: seq<Incentive>)
    ensures |r| == |results|
    ensures forall i | 0 <= i < |results| :: r[i].id == results[i].id && r[i].reward == results[i].reward
    ensures forall i | 0 <= i < |results| :: r[i].ended == results[i].ended
    ensures forall i | 0 <= i < |results| ::
              r[i].key == IncentiveKey(results[i].rewardToken, results[i].pool, results[i].startTime, results[i].endTime, results[i].refundee)
  {
    seq(|results|, i requires 0 <= i < |results| => ToIncentive(results[i]))
  }

  /** `incentives.find(incentive => incentive.id === id)`. */
  function FindIncentive(incentives: seq<Incentive>, id: string): (r: Option<Incentive>)
    ensures r.None? <==> forall i | 0 <= i < |incentives| :: incentives[i].id != id
    ensures r.Some? ==> r.value.id == id
    ensures r.Some? ==> exists i | 0 <= i < |incentives| ::
              incentives[i] == r.value && forall j | 0 <= j < i :: incentives[j].id != id
  {
    if incentives == [] then None
    else if incentives[0].id == id then Some(incentives[0])
    else
      var r := FindIncentive(incentives[1..], id);
      assert r.Some? ==> exists i | 0 <= i < |incentives[1..]| ::
          incentives[1..][i] == r.value && forall j | 0 <= j < i :: incentives[1..][j].id != id;
      assert forall i | 1 <= i < |incentives| :: incentives[i] == incentives[1..][i - 1];
      r
  }

  /**
   * The `currentIncentive` memo: null when the id is null or empty or names no
   * loaded incentive, otherwise the first incentive carrying that id.
   */
  function CurrentIncentiveOf(currentIncentiveId: Option<string>, incentives: seq<Incentive>): (r: Option<Incentive>)
    ensures !Truthy(currentIncentiveId) ==> r.None?
    ensures r.Some? ==> r.value.id == currentIncentiveId.value && r.value in incentives
    ensures Truthy(currentIncentiveId) ==>
              (r.None? <==> forall i | 0 <= i < |incentives| :: incentives[i].id != currentIncentiveId.value)
    ensures r.Some? ==> exists i | 0 <= i < |incentives| ::
              incentives[i] == r.value && forall j | 0 <= j < i :: incentives[j].id != currentIncentiveId.value
  {
    if !Truthy(currentIncentiveId) then None else FindIncentive(incentives, currentIncentiveId.value)
  }

  /** The guard of the incentive-loading effect. */
  predicate IncentiveLoadEnabled(network: Option<string>) {
    Truthy(network) && IsAvailable(network.value) && Lookup(Token0Address, network.value) != Some("")
  }

  /** Because of the configuration table, loading runs exactly for mainnet and goerli. */
  lemma IncentiveLoadEnabledExactly(network: Option<string>)
    ensures IncentiveLoadEnabled(network) <==> network == Some("mainnet") || network == Some("goerli")
  {
    if network.Some? {
      AvailableNetworksExactly(network.value);
      if IsAvailable(network.value) {
        NetworkTablesComplete(network.value);
      }
    }
  }

  /**
   * After a non-empty load, the current incentive resolves to the first mapped
   * row (the one ending last), unless that row's id is the empty string.
   */
  lemma {:induction false} LoadedCurrentIsFirst(results: seq<IncentiveRecord>)
    requires |results| > 0
    ensures results[0].id != "" ==>
              CurrentIncentiveOf(Some(results[0].id), ToIncentives(results)) == Some(ToIncentive(results[0]))
    ensures results[0].id == "" ==> CurrentIncentiveOf(Some(results[0].id), ToIncentives(results)).None?
  {
    var mapped := ToIncentives(results);
    assert mapped[0] == ToIncentive(results[0]);
  }
}
