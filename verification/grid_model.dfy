/** The regional grid (`GridModel`): hourly base-load, solar and wind profiles
    per region, a capacity per region, the global EV load split across regions
    in proportion to capacity, and a global time-of-use price. */
module GridModel {
  import opened Wrappers
  import opened Config
  import opened Entities
  import Names

  const DefaultPeakHours: seq<int> := [7, 8, 9, 10, 18, 19, 20, 21]
  const DefaultValleyHours: seq<int> := [0, 1, 2, 3, 4, 5]

  /** The global price settings `_get_current_price` reads from the status. */
  datatype PriceTable = PriceTable(
    peakHours: seq<int>, valleyHours: seq<int>,
    normalPrice: real, peakPrice: real, valleyPrice: real)

  /** What `_get_current_price` finds in a status dictionary that is still
      empty: no peak or valley hours and the three fallback prices. */
  const EmptyStatusPrices := PriceTable([], [], 0.85, 1.2, 0.4)

  datatype Region = Region(
    id: string,
    baseProfile: seq<real>,
    solarProfile: seq<real>,
    windProfile: seq<real>,
    capacity: real,
    base: real,
    solar: real,
    wind: real,
    ev: real,
    total: real,
    loadPercentage: real,
    renewableRatio: real)

  datatype GridState = GridState(regions: seq<Region>, prices: PriceTable, price: real)

  ghost predicate ValidRegion(r: Region) {
    |r.baseProfile| == 24 && |r.solarProfile| == 24 && |r.windProfile| == 24
  }

  ghost predicate Valid(g: GridState) {
    forall i :: 0 <= i < |g.regions| ==> ValidRegion(g.regions[i])
  }

  /** `_get_current_price`: peak hours are checked first, then valley hours. */
  function Price(t: PriceTable, hour: int): (p: real)
    ensures hour in t.peakHours ==> p == t.peakPrice
    ensures hour !in t.peakHours && hour in t.valleyHours ==> p == t.valleyPrice
    ensures hour !in t.peakHours && hour !in t.valleyHours ==> p == t.normalPrice
  {
    if hour in t.peakHours then t.peakPrice
    else if hour in t.valleyHours then t.valleyPrice
    else t.normalPrice
  }

  function Constant(x: real): (s: seq<real>)
    ensures |s| == 24 && forall i :: 0 <= i < 24 ==> s[i] == x
  {
    seq(24, _ => x)
  }

  /** `_get_regional_profile_or_default`: the region's list when the vs is a
      dictionary holding a 24-element list for it, else 24 copies of the fallback. */
  function ProfileOrDefault(vs: ValueSet, region: string, fallback: real): (p: seq<real>)
    ensures |p| == 24
    ensures vs.Dict? && Lookup(vs.entries, region).Some?
            && Lookup(vs.entries, region).value.List?
            && |Lookup(vs.entries, region).value.items| == 24
            ==> p == Lookup(vs.entries, region).value.items
    ensures vs.NotADict? || Lookup(vs.entries, region).None?
            || !Lookup(vs.entries, region).value.List?
            || |Lookup(vs.entries, region).value.items| != 24
            ==> p == Constant(fallback)
  {
    if vs.NotADict? then Constant(fallback)
    else match Lookup(vs.entries, region)
      case Some(List(items)) => if |items| == 24 then items else Constant(fallback)
      case _ => Constant(fallback)
  }

  /** `_get_regional_value_or_default`: the region's number, else the fallback. */
  function ValueOrDefault(vs: ValueSet, region: string, fallback: real): (x: real)
    ensures vs.Dict? && Lookup(vs.entries, region).Some?
            && Lookup(vs.entries, region).value.Num?
            ==> x == Lookup(vs.entries, region).value.x
    ensures vs.NotADict? || Lookup(vs.entries, region).None?
            || !Lookup(vs.entries, region).value.Num?
            ==> x == fallback
  {
    if vs.NotADict? then fallback
    else match Lookup(vs.entries, region)
      case Some(Num(v)) => v
      case _ => fallback
  }

  function FallbackRegions(n: nat): (ids: seq<string>)
    ensures |ids| == n
    ensures forall i :: 0 <= i < n ==> ids[i] == Names.RegionName(i)
  {
    seq(n, i requires 0 <= i < n => Names.RegionName(i))
  }

  /** Region ids: the keys of a non-empty `base_load` dictionary, else
      `region_0 .. region_{n-1}` for a positive `region_count`, else `region_0`. */
  function RegionIds(cfg: GridConfig, regionCount: Option<int>): (ids: seq<string>)
    ensures |ids| >= 1
    ensures cfg.baseLoad.Dict? && |cfg.baseLoad.entries| > 0 ==> ids == Keys(cfg.baseLoad.entries)
    ensures !(cfg.baseLoad.Dict? && |cfg.baseLoad.entries| > 0) && regionCount.Some? && regionCount.value > 0
            ==> ids == FallbackRegions(regionCount.value)
    ensures !(cfg.baseLoad.Dict? && |cfg.baseLoad.entries| > 0) && !(regionCount.Some? && regionCount.value > 0)
            ==> ids == ["region_0"]
  {
    if cfg.baseLoad.Dict? && |cfg.baseLoad.entries| > 0 then Keys(cfg.baseLoad.entries)
    else if regionCount.Some? && regionCount.value > 0 then FallbackRegions(regionCount.value)
    else ["region_0"]
  }

  /** Percent of capacity, zero for a non-positive capacity. */
  function LoadPercentage(total: real, capacity: real): real {
    if capacity > 0.0 then total / capacity * 100.0 else 0.0
  }

  /** Renewable share of the load in percent, zero for a non-positive load. */
  function RenewableRatio(solar: real, wind: real, total: real): real {
    if total > 0.0 then (solar + wind) / total * 100.0 else 0.0
  }

  /** A region's current values for hour `h` and EV load `ev`. */
  function RegionAt(r: Region, h: nat, ev: real): (out: Region)
    requires ValidRegion(r) && h < 24
    ensures ValidRegion(out)
    ensures out.id == r.id && out.capacity == r.capacity && out.baseProfile == r.baseProfile
            && out.solarProfile == r.solarProfile && out.windProfile == r.windProfile
    ensures out.base == r.baseProfile[h] && out.solar == r.solarProfile[h] && out.wind == r.windProfile[h]
    ensures out.ev == ev && out.total == out.base + out.ev
    ensures out.loadPercentage == LoadPercentage(out.total, r.capacity)
    ensures out.renewableRatio == RenewableRatio(out.solar, out.wind, out.total)
  {
    var total := r.baseProfile[h] + ev;
    r.(base := r.baseProfile[h], solar := r.solarProfile[h], wind := r.windProfile[h],
       ev := ev, total := total,
       loadPercentage := LoadPercentage(total, r.capacity),
       renewableRatio := RenewableRatio(r.solarProfile[h], r.windProfile[h], total))
  }

  function InitialRegion(cfg: GridConfig, id: string): (r: Region)
    ensures ValidRegion(r)
  {
    var r := Region(id,
      ProfileOrDefault(cfg.baseLoad, id, 1000.0),
      ProfileOrDefault(cfg.solarGeneration, id, 0.0),
      ProfileOrDefault(cfg.windGeneration, id, 100.0),
      ValueOrDefault(cfg.systemCapacity, id, 10000.0),
      0.0, 0.0, 0.0, 0.0, 0.0, 0.0, 0.0);
    RegionAt(r, 0, 0.0)
  }

  function ConfiguredPrices(cfg: GridConfig): PriceTable {
    PriceTable(
      cfg.peakHours.GetOr(DefaultPeakHours), cfg.valleyHours.GetOr(DefaultValleyHours),
      cfg.normalPrice.GetOr(0.85), cfg.peakPrice.GetOr(1.2), cfg.valleyPrice.GetOr(0.4))
  }

  /** `reset`. The price is computed by `_get_current_price(0)` BEFORE the new
      status is stored, so it reads the previous status (`prev`), which is the
      empty dictionary the first time. */
  function Reset(cfg: GridConfig, regionCount: Option<int>, prev: Option<GridState>): (g: GridState)
    ensures Valid(g)
    ensures |g.regions| == |RegionIds(cfg, regionCount)| >= 1
    ensures forall i :: 0 <= i < |g.regions| ==>
              g.regions[i].id == RegionIds(cfg, regionCount)[i]
              && g.regions[i].ev == 0.0
              && g.regions[i].total == g.regions[i].baseProfile[0]
              && g.regions[i].baseProfile == ProfileOrDefault(cfg.baseLoad, g.regions[i].id, 1000.0)
              && g.regions[i].capacity == ValueOrDefault(cfg.systemCapacity, g.regions[i].id, 10000.0)
    ensures g.prices == ConfiguredPrices(cfg)
    ensures g.price == Price(if prev.Some? then prev.value.prices else EmptyStatusPrices, 0)
  {
    var ids := RegionIds(cfg, regionCount);
    var before := if prev.Some? then prev.value.prices else EmptyStatusPrices;
    GridState(seq(|ids|, i requires 0 <= i < |ids| => InitialRegion(cfg, ids[i])),
              ConfiguredPrices(cfg), Price(before, 0))
  }

  function TotalCapacity(rs: seq<Region>): real {
    if |rs| == 0 then 0.0 else rs[0].capacity + TotalCapacity(rs[1..])
  }

  function TotalEv(rs: seq<Region>): real {
    if |rs| == 0 then 0.0 else rs[0].ev + TotalEv(rs[1..])
  }

  /** A region's share of the global EV load. */
  function Share(ev: real, capacity: real, total: real): real {
    if total == 0.0 then 0.0 else ev * (capacity / total)
  }

  function UpdateRegions(rs: seq<Region>, h: nat, ev: real, total: real): (out: seq<Region>)
    requires h < 24 && forall i :: 0 <= i < |rs| ==> ValidRegion(rs[i])
    ensures |out| == |rs|
    ensures forall i :: 0 <= i < |rs| ==> out[i] == RegionAt(rs[i], h, Share(ev, rs[i].capacity, total))
  {
    if |rs| == 0 then []
    else [RegionAt(rs[0], h, Share(ev, rs[0].capacity, total))] + UpdateRegions(rs[1..], h, ev, total)
  }

  /** The hour `update_step` uses: out-of-range hours fall back to 0. */
  function EffectiveHour(hour: int): (h: nat)
    ensures h < 24
    ensures 0 <= hour < 24 ==> h == hour
    ensures !(0 <= hour < 24) ==> h == 0
  {
    if 0 <= hour < 24 then hour else 0
  }

  /** `update_step(current_time, global_ev_load)`. */
  function Update(g: GridState, hour: int, ev: real): (g': GridState)
    requires Valid(g)
    ensures Valid(g') && |g'.regions| == |g.regions| && g'.prices == g.prices
    ensures g'.price == Price(g.prices, EffectiveHour(hour))
    ensures forall i :: 0 <= i < |g.regions| ==>
              var r, r' := g.regions[i], g'.regions[i];
              r'.id == r.id && r'.capacity == r.capacity
              && r'.baseProfile == r.baseProfile
              && r'.solarProfile == r.solarProfile && r'.windProfile == r.windProfile
              && r'.base == r.baseProfile[EffectiveHour(hour)]
              && r'.solar == r.solarProfile[EffectiveHour(hour)]
              && r'.wind == r.windProfile[EffectiveHour(hour)]
              && r'.ev == Share(ev, r.capacity, TotalCapacity(g.regions))
              && r'.total == r'.base + r'.ev
              && r'.loadPercentage == LoadPercentage(r'.total, r.capacity)
              && r'.renewableRatio == RenewableRatio(r'.solar, r'.wind, r'.total)
  {
    var h := EffectiveHour(hour);
    GridState(UpdateRegions(g.regions, h, ev, TotalCapacity(g.regions)), g.prices, Price(g.prices, h))
  }

  /** `get_status()` as the rest of the engine reads it: the price and the
      hour lists, and none of the aggregate keys the consumers look for. */
  function Status(g: GridState): (s: GridReading)
    ensures s.loadPercentage.None? && s.renewableRatio.None?
    ensures s.totalLoad.None? && s.evLoad.None?
    ensures s.price == Some(g.price)
    ensures s.peakHours == Some(g.prices.peakHours) && s.valleyHours == Some(g.prices.valleyHours)
  {
    GridReading(None, None, None, None, Some(g.price), Some(g.prices.peakHours), Some(g.prices.valleyHours))
  }

  // ---------------------------------------------------------------------------
  // Properties

  lemma AddShares(ev: real, a: real, b: real, t: real)
    requires t != 0.0
    ensures ev * (a / t) + ev * (b / t) == ev * ((a + b) / t)
  {
    assert a / t + b / t == (a + b) / t;
  }

  lemma {:induction false} SharesSum(rs: seq<Region>, h: nat, ev: real, t: real)
    requires h < 24 && forall i :: 0 <= i < |rs| ==> ValidRegion(rs[i])
    requires t != 0.0
    ensures TotalEv(UpdateRegions(rs, h, ev, t)) == ev * (TotalCapacity(rs) / t)
    decreases |rs|
  {
    if |rs| > 0 {
      var out := UpdateRegions(rs, h, ev, t);
      assert out[1..] == UpdateRegions(rs[1..], h, ev, t);
      assert out[0].ev == ev * (rs[0].capacity / t);
      assert TotalEv(out) == out[0].ev + TotalEv(out[1..]);
      SharesSum(rs[1..], h, ev, t);
      AddShares(ev, rs[0].capacity, TotalCapacity(rs[1..]), t);
    } else {
      assert ev * (0.0 / t) == 0.0;
    }
  }

  /** With a non-zero total capacity the regional EV loads add up to the
      global EV load. */
  lemma EvLoadConserved(g: GridState, hour: int, ev: real)
    requires Valid(g) && TotalCapacity(g.regions) != 0.0
    ensures TotalEv(Update(g, hour, ev).regions) == ev
  {
    var t := TotalCapacity(g.regions);
    assert Update(g, hour, ev).regions == UpdateRegions(g.regions, EffectiveHour(hour), ev, t);
    SharesSum(g.regions, EffectiveHour(hour), ev, t);
    WholeShare(ev, t);
  }

  lemma WholeShare(ev: real, t: real)
    requires t != 0.0
    ensures ev * (t / t) == ev
  {
    assert t / t == 1.0;
  }

  /** With zero total capacity every region's EV load is zero. */
  lemma ZeroCapacityNoEvLoad(g: GridState, hour: int, ev: real)
    requires Valid(g) && TotalCapacity(g.regions) == 0.0
    ensures forall i :: 0 <= i < |g.regions| ==> Update(g, hour, ev).regions[i].ev == 0.0
  {
  }

  /** An hour outside 0..23 behaves exactly as hour 0. */
  lemma InvalidHourIsHourZero(g: GridState, hour: int, ev: real)
    requires Valid(g) && !(0 <= hour < 24)
    ensures Update(g, hour, ev) == Update(g, 0, ev)
  {
  }

  /** A freshly constructed model reads the empty status, so its first price
      is the fallback normal price 0.85 whatever the configuration says. */
  lemma FirstResetPrice(cfg: GridConfig, regionCount: Option<int>)
    ensures Reset(cfg, regionCount, None).price == 0.85
  {
  }

  /** The environment resets the model a second time; from then on the price
      is the configured price for hour 0. */
  lemma SecondResetPrice(cfg: GridConfig, regionCount: Option<int>)
    ensures var g := Reset(cfg, regionCount, Some(Reset(cfg, regionCount, None)));
            g.price == Price(ConfiguredPrices(cfg), 0)
  {
  }

  /** A malformed entry for one region only affects that region: every other
      region keeps the value the configuration gives it. */
  lemma DefaultsAreLocal(vs: ValueSet, region: string, fallback: real)
    requires vs.Dict? && Lookup(vs.entries, region).Some? && !Lookup(vs.entries, region).value.Num?
    ensures ValueOrDefault(vs, region, fallback) == fallback
    ensures forall other :: other != region && Lookup(vs.entries, other).Some?
              && Lookup(vs.entries, other).value.Num?
              ==> ValueOrDefault(vs, other, fallback) == Lookup(vs.entries, other).value.x
  {
  }
}
