/**
 * The rule-based layer of `src/agent_system.py`: the query noise filter,
 * the margin archetype, the sovereign ratios, the denominator audit, the
 * normalization stress test and the insufficiency guard of `run`.
 * Fundamentals and benchmarks are maps from names to values, as the
 * fetching code would hand them over.
 */
module AgentSystem {
  import opened Strings
  import opened Numeral

  // ---------------------------------------------------------------------
  // _epistemic_noise_filter
  // ---------------------------------------------------------------------

  const SpeculativeNoise: seq<string> := ["buy", "sell", "long", "short", "reco", "advice", "target"]

  const SentimentNoise: seq<string> := ["bullish", "bearish", "hype", "undervalued", "overvalued", "moon"]

  const TemporalNoise: seq<string> := ["surge", "plunge", "daily", "news", "rally", "correction"]

  const AllNoise: seq<string> := SpeculativeNoise + SentimentNoise + TemporalNoise

  /** The words of `words` occurring in `text`, in the order of `words`. */
  function Detected(words: seq<string>, text: string): (r: seq<string>)
    ensures |r| <= |words|
    ensures forall w :: w in r <==> w in words && Contains(text, w)
  {
    if |words| == 0 then []
    else
      var w := words[|words| - 1];
      assert forall v :: v in words <==> v in words[..|words| - 1] || v == w;
      Detected(words[..|words| - 1], text) + (if Contains(text, w) then [w] else [])
  }

  /** Detecting over a concatenated list detects over each part, in turn. */
  lemma {:induction false} DetectedAppend(a: seq<string>, b: seq<string>, text: string)
    ensures Detected(a + b, text) == Detected(a, text) + Detected(b, text)
  {
    if |b| > 0 {
      var front := b[..|b| - 1];
      assert (a + b)[..|a + b| - 1] == a + front;
      DetectedAppend(a, front, text);
    } else {
      assert a + b == a;
    }
  }

  datatype NoiseAction = BlockReco | Ignore

  datatype NoiseAudit = NoiseAudit(isNoisy: bool, elements: seq<string>, action: NoiseAction)

  /**
   * `_epistemic_noise_filter`: the listed noise words found in the
   * lower-cased query; a speculative one blocks recommendations.
   */
  function NoiseFilter(query: string): (r: NoiseAudit)
    ensures r.isNoisy <==> |r.elements| > 0
    ensures forall w :: w in r.elements <==> w in AllNoise && Contains(Lower(query), w)
    ensures r.action == BlockReco <==>
      exists i :: 0 <= i < |SpeculativeNoise| && Contains(Lower(query), SpeculativeNoise[i])
  {
    var text := Lower(query);
    var detected := Detected(AllNoise, text);
    var blocked := exists i :: 0 <= i < |detected| && detected[i] in SpeculativeNoise;
    SpeculativeDetected(query, detected);
    NoiseAudit(|detected| > 0, detected, if blocked then BlockReco else Ignore)
  }

  /** Some detected word is speculative exactly when the query holds a speculative word. */
  lemma {:induction false} SpeculativeDetected(query: string, detected: seq<string>)
    requires detected == Detected(AllNoise, Lower(query))
    ensures (exists i :: 0 <= i < |detected| && detected[i] in SpeculativeNoise) <==>
      exists i :: 0 <= i < |SpeculativeNoise| && Contains(Lower(query), SpeculativeNoise[i])
  {
    var text := Lower(query);
    if i :| 0 <= i < |SpeculativeNoise| && Contains(text, SpeculativeNoise[i]) {
      var w := SpeculativeNoise[i];
      assert w in AllNoise;
      assert w in detected;
      var j :| 0 <= j < |detected| && detected[j] == w;
    }
    if i :| 0 <= i < |detected| && detected[i] in SpeculativeNoise {
      var w := detected[i];
      var j :| 0 <= j < |SpeculativeNoise| && SpeculativeNoise[j] == w;
      assert Contains(text, SpeculativeNoise[j]);
    }
  }

  /** The detected words come speculative first, then sentiment, then temporal. */
  lemma {:induction false} NoiseOrder(query: string)
    ensures NoiseFilter(query).elements ==
      Detected(SpeculativeNoise, Lower(query)) + Detected(SentimentNoise, Lower(query)) + Detected(TemporalNoise, Lower(query))
  {
    var text := Lower(query);
    DetectedAppend(SpeculativeNoise + SentimentNoise, TemporalNoise, text);
    DetectedAppend(SpeculativeNoise, SentimentNoise, text);
  }

  // ---------------------------------------------------------------------
  // Structure
  // ---------------------------------------------------------------------

  /** `d.get(key, 0)` on a map of numbers. */
  function Get(m: map<string, real>, key: string): real
  {
    if key in m then m[key] else 0.0
  }

  /** Net income over revenue when both are present and nonzero, else 0. */
  function Margin(fundamentals: map<string, real>): (m: real)
    ensures Get(fundamentals, "revenue") == 0.0 || Get(fundamentals, "net_income") == 0.0 ==> m == 0.0
    ensures Get(fundamentals, "revenue") != 0.0 && Get(fundamentals, "net_income") != 0.0
      ==> m * Get(fundamentals, "revenue") == Get(fundamentals, "net_income")
  {
    var revenue, netIncome := Get(fundamentals, "revenue"), Get(fundamentals, "net_income");
    if revenue != 0.0 && netIncome != 0.0 then netIncome / revenue else 0.0
  }

  /** Archetypes, from the lowest margin band to the highest. */
  datatype Archetype = CommodityVolumePlayer | StandardManufacturing | IpDrivenPremiumIndustrial
  {
    function Rank(): nat
    {
      match this
      case CommodityVolumePlayer => 0
      case StandardManufacturing => 1
      case IpDrivenPremiumIndustrial => 2
    }
  }

  /** `_identify_business_archetype`: margins above 15% are premium, below 5% commodity. */
  function BusinessArchetype(fundamentals: map<string, real>): (a: Archetype)
    ensures a == IpDrivenPremiumIndustrial <==> Margin(fundamentals) > 0.15
    ensures a == CommodityVolumePlayer <==> Margin(fundamentals) < 0.05
  {
    var margin := Margin(fundamentals);
    if margin > 0.15 then IpDrivenPremiumIndustrial
    else if margin < 0.05 then CommodityVolumePlayer
    else StandardManufacturing
  }

  /** Missing or zero revenue or income leaves a zero margin: a commodity player. */
  lemma {:induction false} MissingDataIsCommodity(fundamentals: map<string, real>)
    requires Get(fundamentals, "revenue") == 0.0 || Get(fundamentals, "net_income") == 0.0
    ensures BusinessArchetype(fundamentals) == CommodityVolumePlayer
  {
  }

  /** A higher margin never lands in a lower band. */
  lemma {:induction false} ArchetypeMonotone(f: map<string, real>, g: map<string, real>)
    requires Margin(f) <= Margin(g)
    ensures BusinessArchetype(f).Rank() <= BusinessArchetype(g).Rank()
  {
  }

  const SovereignKeys: set<string> := {"asset_turnover", "capital_intensity_ratio", "net_profit_margin", "return_on_assets"}

  /**
   * `_calculate_sovereign_metrics`: the four ratios, rounded to hundredths,
   * when revenue and assets are positive; nothing otherwise.
   */
  function SovereignMetrics(fundamentals: map<string, real>): (m: map<string, real>)
    ensures m == map[] <==> !(Get(fundamentals, "revenue") > 0.0 && Get(fundamentals, "total_assets") > 0.0)
    ensures m != map[] ==> m.Keys == SovereignKeys
    ensures m != map[] ==> 0.0 <= m["asset_turnover"] && 0.0 <= m["capital_intensity_ratio"]
  {
    var revenue, assets := Get(fundamentals, "revenue"), Get(fundamentals, "total_assets");
    var netIncome := Get(fundamentals, "net_income");
    if revenue > 0.0 && assets > 0.0 then
      RatioRoundsNonNegative(revenue, assets);
      RatioRoundsNonNegative(assets, revenue);
      map[
        "asset_turnover" := RoundTo(revenue / assets, 2),
        "capital_intensity_ratio" := RoundTo(assets / revenue, 2),
        "net_profit_margin" := RoundTo((netIncome / revenue) * 100.0, 2),
        "return_on_assets" := RoundTo((netIncome / assets) * 100.0, 2)]
    else map[]
  }

  lemma {:induction false} RatioRoundsNonNegative(a: real, b: real)
    requires 0.0 < a && 0.0 < b
    ensures 0.0 <= RoundTo(a / b, 2)
  {
    RoundNonNegative(a / b, 2);
  }

  /** Each sovereign ratio is within half a hundredth of its exact value. */
  lemma {:induction false} SovereignMetricsClose(fundamentals: map<string, real>)
    requires SovereignMetrics(fundamentals) != map[]
    ensures Abs(SovereignMetrics(fundamentals)["asset_turnover"] - Get(fundamentals, "revenue") / Get(fundamentals, "total_assets")) <= 0.005
    ensures Abs(SovereignMetrics(fundamentals)["capital_intensity_ratio"] - Get(fundamentals, "total_assets") / Get(fundamentals, "revenue")) <= 0.005
    ensures Abs(SovereignMetrics(fundamentals)["net_profit_margin"] - (Get(fundamentals, "net_income") / Get(fundamentals, "revenue")) * 100.0) <= 0.005
    ensures Abs(SovereignMetrics(fundamentals)["return_on_assets"] - (Get(fundamentals, "net_income") / Get(fundamentals, "total_assets")) * 100.0) <= 0.005
  {
    assert Pow10(2) == 100;
  }

  /** The reported profit margin is the archetype's margin, in percent, to within rounding. */
  lemma {:induction false} ProfitMarginIsMargin(fundamentals: map<string, real>)
    requires SovereignMetrics(fundamentals) != map[] && Get(fundamentals, "net_income") != 0.0
    ensures Abs(SovereignMetrics(fundamentals)["net_profit_margin"] - Margin(fundamentals) * 100.0) <= 0.005
  {
    SovereignMetricsClose(fundamentals);
  }

  function Abs(x: real): real { if x < 0.0 then -x else x }

  datatype AssetStructure = Externalized | Integrated

  datatype DenominatorAudit = DenominatorAudit(ppeToAssets: real, structure: AssetStructure, isAssetLight: bool)

  /** Net PPE over total assets, or 0 when assets are not positive. */
  function PpeRatio(fundamentals: map<string, real>): real
  {
    var assets := Get(fundamentals, "total_assets");
    if assets > 0.0 then Get(fundamentals, "ppe_net") / assets else 0.0
  }

  /**
   * `_audit_denominator_integrity`: asset-light below a 15% PPE share,
   * judged on the exact ratio, which is reported rounded to thousandths.
   */
  function AuditDenominator(fundamentals: map<string, real>): (r: DenominatorAudit)
    ensures r.isAssetLight <==> PpeRatio(fundamentals) < 0.15
    ensures r.structure == Externalized <==> r.isAssetLight
    ensures Get(fundamentals, "total_assets") <= 0.0 ==> r.ppeToAssets == 0.0 && r.isAssetLight
    ensures Abs(r.ppeToAssets - PpeRatio(fundamentals)) <= 0.0005
  {
    var ratio := PpeRatio(fundamentals);
    assert Pow10(3) == 1000;
    DenominatorAudit(RoundTo(ratio, 3), if ratio < 0.15 then Externalized else Integrated, ratio < 0.15)
  }

  /** PPE within total assets gives a share between 0 and 1 before rounding. */
  lemma {:induction false} PpeShareIsFraction(fundamentals: map<string, real>)
    requires 0.0 <= Get(fundamentals, "ppe_net") <= Get(fundamentals, "total_assets")
    ensures 0.0 <= PpeRatio(fundamentals) <= 1.0
  {
    var assets := Get(fundamentals, "total_assets");
    if assets > 0.0 {
      RatioIsFraction(Get(fundamentals, "ppe_net"), assets);
    }
  }

  // ---------------------------------------------------------------------
  // _calculate_normalization_stress_test
  // ---------------------------------------------------------------------

  const DefaultMedianIntensity: real := 1.5

  datatype Risk = High | Stable

  /**
   * The stress test's outcome; `DivisionByZero` is the exception a zero
   * median intensity raises when the current intensity is below it.
   */
  datatype StressResult =
    | AlreadyCapitalIntense(roa: real)
    | Normalized(normalizedRoa: real, targetIntensity: real, collapsePct: real, risk: Risk)
    | DivisionByZero

  function MedianIntensity(benchmarks: map<string, real>): real
  {
    if "median_capital_intensity" in benchmarks then benchmarks["median_capital_intensity"] else DefaultMedianIntensity
  }

  /**
   * Scales the return on assets down to the sector's capital intensity and
   * reports how far it falls, in percent of the reported value.
   */
  function StressTest(audit: map<string, real>, benchmarks: map<string, real>): (r: StressResult)
    ensures Get(audit, "capital_intensity") >= MedianIntensity(benchmarks) <==> r.AlreadyCapitalIntense?
    ensures r.AlreadyCapitalIntense? ==> r.roa == Get(audit, "roa")
    ensures r.DivisionByZero? <==> Get(audit, "capital_intensity") < MedianIntensity(benchmarks) == 0.0
    ensures r.Normalized? ==> r.targetIntensity == MedianIntensity(benchmarks)
    ensures r.Normalized? && Get(audit, "roa") <= 0.0 ==> r.collapsePct == 0.0
    ensures r.Normalized? ==> (r.risk == High <==> r.collapsePct > 40.0)
  {
    var roa, intensity := Get(audit, "roa"), Get(audit, "capital_intensity");
    var median := MedianIntensity(benchmarks);
    if intensity >= median then AlreadyCapitalIntense(roa)
    else if median == 0.0 then DivisionByZero
    else
      var normalized := RoundTo(roa * (intensity / median), 2);
      var collapse := if roa > 0.0 then RoundTo(((roa - normalized) / roa) * 100.0, 2) else 0.0;
      Normalized(normalized, median, collapse, if collapse > 40.0 then High else Stable)
  }

  /** Without a sector median the default 1.5 is used, which can never be divided by zero. */
  lemma {:induction false} DefaultMedianNeverDivides(audit: map<string, real>, benchmarks: map<string, real>)
    requires "median_capital_intensity" !in benchmarks
    ensures !StressTest(audit, benchmarks).DivisionByZero?
    ensures StressTest(audit, benchmarks).Normalized? ==> StressTest(audit, benchmarks).targetIntensity == 1.5
  {
  }

  /** A firm at half the sector intensity keeps half its ROA, up to rounding. */
  lemma {:induction false} NormalizedRoaScales(audit: map<string, real>, benchmarks: map<string, real>)
    requires 0.0 < MedianIntensity(benchmarks) && Get(audit, "capital_intensity") < MedianIntensity(benchmarks)
    ensures StressTest(audit, benchmarks).Normalized?
    ensures Abs(StressTest(audit, benchmarks).normalizedRoa
      - Get(audit, "roa") * (Get(audit, "capital_intensity") / MedianIntensity(benchmarks))) <= 0.005
  {
    assert Pow10(2) == 100;
  }

  // ---------------------------------------------------------------------
  // run
  // ---------------------------------------------------------------------

  /** The numeric sector benchmarks: the fallback values, which a live search never replaces. */
  const SectorBenchmarks: map<string, real> := map["median_roa" := 10.0, "median_turnover" := 0.7]

  datatype Grade = EvidenceStrong | EvidenceContaminatedByNoise

  /** The decision-relevant part of `run`'s answer. */
  datatype Analysis =
    | Insufficient(error: string)
    | Analysis(
        noise: NoiseAudit,
        archetype: Archetype,
        metrics: map<string, real>,
        stress: StressResult,
        denominator: DenominatorAudit,
        grade: Grade)

  /** What `run` hands to the stress test: the rounded ROA and capital intensity. */
  function MechanicalAudit(metrics: map<string, real>): map<string, real>
  {
    map["roa" := Get(metrics, "return_on_assets"), "capital_intensity" := Get(metrics, "capital_intensity_ratio")]
  }

  /**
   * `run` on the fundamentals of `ticker`: an empty fetch or zero total
   * assets blocks the analysis; otherwise every rule above is applied.
   */
  function Run(ticker: string, fundamentals: map<string, real>, query: string): (r: Analysis)
    ensures r.Insufficient? <==> fundamentals == map[] || Get(fundamentals, "total_assets") == 0.0
    ensures r.Insufficient? ==> r.error == "Data Insufficient for " + ticker + ". Epistemic Block active."
    ensures r.Analysis? ==> (r.grade == EvidenceStrong <==> !r.noise.isNoisy)
    ensures r.Analysis? ==> !r.stress.DivisionByZero?
  {
    var noise := NoiseFilter(query);
    if fundamentals == map[] || Get(fundamentals, "total_assets") == 0.0 then
      Insufficient("Data Insufficient for " + ticker + ". Epistemic Block active.")
    else
      var metrics := SovereignMetrics(fundamentals);
      DefaultMedianNeverDivides(MechanicalAudit(metrics), SectorBenchmarks);
      Analysis(
        noise,
        BusinessArchetype(fundamentals),
        metrics,
        StressTest(MechanicalAudit(metrics), SectorBenchmarks),
        AuditDenominator(fundamentals),
        if noise.isNoisy then EvidenceContaminatedByNoise else EvidenceStrong)
  }

  /**
   * Negative total assets pass the guard but yield no ratios, so the stress
   * test sees a zero ROA and intensity: a stable, zero normalized return.
   */
  lemma {:induction false} NegativeAssetsStable(ticker: string, fundamentals: map<string, real>, query: string)
    requires Get(fundamentals, "total_assets") < 0.0
    ensures Run(ticker, fundamentals, query).Analysis?
    ensures Run(ticker, fundamentals, query).metrics == map[]
    ensures Run(ticker, fundamentals, query).stress == Normalized(0.0, 1.5, 0.0, Stable)
  {
    var audit := MechanicalAudit(map[]);
    assert Get(audit, "roa") == 0.0 && Get(audit, "capital_intensity") == 0.0;
    assert Pow10(2) == 100;
    assert RoundTo(0.0, 2) == 0.0;
  }
}
