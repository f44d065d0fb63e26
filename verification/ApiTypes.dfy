/** Value types shared by the agent and the operator (operator/api/v1). */
module ApiTypes {

  datatype Option<+T> = None | Some(value: T)

  datatype Thresholds = Thresholds(maxNcclLatencyUs: int, maxJitterUs: int,
                                   minP2PBandwidthGbps: int, minHbmBandwidthGbps: int)

  datatype EvalConfig = EvalConfig(windowSize: int, errorCountLimit: int)

  /** What the webhook writes on a pod and the agent reads back.  An omitted field is 0. */
  datatype GovernanceConfig = GovernanceConfig(thresholds: Thresholds, evalConfig: EvalConfig)

  datatype NodeTaintThreshold = NodeTaintThreshold(minCount: Option<int>, minPercentage: Option<int>)

  datatype Actions = Actions(enableTaint: bool, enableEvict: bool, threshold: Option<NodeTaintThreshold>)
}
