/** The configuration dictionary, as far as the engine reads it. A key that may
    be absent is an `Option`; each reader applies its own default, exactly as the
    source's `.get(key, default)` calls do. */
module Config {
  import opened Wrappers

  /** A configuration value as the grid model inspects it: a number, a list of
      numbers, or anything else. */
  datatype Value = Num(x: real) | List(items: seq<real>) | Other

  /** A regional value set: a dictionary from region id to value, or something
      that is not a dictionary at all. */
  datatype ValueSet = NotADict | Dict(entries: seq<(string, Value)>)

  function Keys(entries: seq<(string, Value)>): (ks: seq<string>)
    ensures |ks| == |entries|
    ensures forall i :: 0 <= i < |entries| ==> ks[i] == entries[i].0
  {
    if |entries| == 0 then [] else [entries[0].0] + Keys(entries[1..])
  }

  /** `d.get(key)` on a dictionary's entries. */
  function Lookup(entries: seq<(string, Value)>, key: string): (r: Option<Value>)
    ensures r.Some? <==> exists i :: 0 <= i < |entries| && entries[i].0 == key
    ensures r.Some? ==> exists i :: 0 <= i < |entries| && entries[i] == (key, r.value)
  {
    if |entries| == 0 then None
    else if entries[0].0 == key then Some(entries[0].1)
    else
      var r := Lookup(entries[1..], key);
      assert forall i :: 1 <= i < |entries| ==> entries[i] == entries[1..][i - 1];
      r
  }

  datatype GridConfig = GridConfig(
    baseLoad: ValueSet,
    solarGeneration: ValueSet,
    windGeneration: ValueSet,
    systemCapacity: ValueSet,
    peakHours: Option<seq<int>>,
    valleyHours: Option<seq<int>>,
    normalPrice: Option<real>,
    peakPrice: Option<real>,
    valleyPrice: Option<real>)

  datatype EnvConfig = EnvConfig(
    stepMinutes: nat,
    simulationDays: int,
    regionCount: Option<int>,
    chargerCount: Option<int>,
    stationCount: Option<int>,
    chargersPerStation: Option<int>,
    minChargeThreshold: Option<real>,
    forceChargeThreshold: Option<real>,
    defaultChargeThreshold: Option<real>,
    maxQueuePeak: Option<int>,
    maxQueueValley: Option<int>,
    maxQueueShoulder: Option<int>,
    candidateLimit: Option<int>,
    queuePenalty: Option<real>,
    enableBaseline: Option<bool>)

  /** `optimization_weights`; a key missing from a present dictionary is `None`. */
  datatype Weights = Weights(user: Option<real>, profit: Option<real>, grid: Option<real>)

  datatype MarlConfig = MarlConfig(
    actionSpaceSize: Option<int>,
    learningRate: Option<real>,
    discountFactor: Option<real>,
    explorationRate: Option<real>,
    maxDistSq: Option<real>,
    wSoc: Option<real>,
    wDist: Option<real>,
    wUrgency: Option<real>)

  datatype SchedulerConfig = SchedulerConfig(
    algorithm: Option<string>,
    weights: Option<Weights>,
    marl: MarlConfig)

  datatype Config = Config(env: EnvConfig, grid: GridConfig, scheduler: SchedulerConfig)
}
