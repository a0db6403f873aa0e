/** Keys, providers and configuration of `src/model.rs` and `src/benchmark.rs`. */
module Model {
  import opened Common

  type Coin = string

  /** Index into PROVIDERS. */
  type Provider = p: nat | p < 6

  const PROVIDERS: nat := 6
  const FOUNDATION_WS: Provider := 0
  const HYDROMANCER_WS: Provider := 1
  const QUICKNODE_GRPC: Provider := 2
  const QUICKNODE_PEERING: Provider := 3
  const HYDROMANCER_PEERING: Provider := 4
  const QUICKNODE_VPC: Provider := 5

  /** Canonical content; the level and trade details are opaque text here. */
  datatype ContentKey =
    | Bbo(levels: string)
    | L2(levels: string)
    | Trade(tid: nat, terms: string)
    | Mempool(txHash: string)
    | Peering(round: nat)

  datatype EventKey = EventKey(coin: Coin, eventMs: nat, content: ContentKey)
  {
    function Base(): BaseKey {
      BaseKey(coin, eventMs,
              match content case Trade(tid, _) => Some(tid) case _ => None,
              match content case Mempool(h) => Some(h) case _ => None,
              match content case Peering(r) => Some(r) case _ => None)
    }
  }

  datatype BaseKey = BaseKey(coin: Coin, eventMs: nat, tradeId: Option<nat>, txHash: Option<string>,
                             round: Option<nat>)

  datatype Dataset = BboSet | L2BookSet | FillsSet | MempoolSet | PeeringSet
  datatype PeeringMode = QuicknodeMode | HydromancerMode | ComparisonMode

  datatype Config = Config(
    dataset: Dataset, mode: PeeringMode, vpcLocal: bool, coins: set<Coin>,
    rollingWindow: nat, publishInterval: nat, cohortTimeout: nat,
    maxPending: nat, maxSettled: nat, maxRolling: nat)
  {
    /** The providers of one process, in table order. */
    function Providers(): seq<Provider> {
      match dataset
      case PeeringSet =>
        (match mode
         case QuicknodeMode => [QUICKNODE_PEERING]
         case HydromancerMode => [HYDROMANCER_PEERING]
         case ComparisonMode => [QUICKNODE_PEERING, HYDROMANCER_PEERING])
        + (if vpcLocal then [QUICKNODE_VPC] else [])
      case MempoolSet => if vpcLocal then [QUICKNODE_GRPC, QUICKNODE_VPC] else [QUICKNODE_GRPC]
      case FillsSet => if vpcLocal then [QUICKNODE_VPC] else [FOUNDATION_WS, QUICKNODE_GRPC]
      case _ => if vpcLocal then [QUICKNODE_VPC] else [FOUNDATION_WS, HYDROMANCER_WS, QUICKNODE_GRPC]
    }

    function Reference(): Provider {
      match dataset
      case PeeringSet => if mode == HydromancerMode then HYDROMANCER_PEERING else QUICKNODE_PEERING
      case MempoolSet => QUICKNODE_GRPC
      case _ => if vpcLocal then QUICKNODE_VPC else FOUNDATION_WS
    }

    predicate HasComparison() {
      match dataset
      case PeeringSet => vpcLocal || mode == ComparisonMode
      case MempoolSet => vpcLocal
      case _ => !vpcLocal
    }

    /** Peering rounds and box mempool bundles are canonical whoever delivered them. */
    predicate CanonicalByAnyArrival() {
      dataset == PeeringSet || (dataset == MempoolSet && vpcLocal)
    }

    predicate Active(p: Provider) { p in Providers() }
  }

  /** Every configuration has a provider, lists none twice, includes its reference, and races
      providers exactly when it has more than one. */
  lemma ConfigIsSound(c: Config)
    ensures c.Providers() != [] && Distinct(c.Providers())
    ensures c.Active(c.Reference())
    ensures c.HasComparison() <==> |c.Providers()| > 1
  {
  }
}
