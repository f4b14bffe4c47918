/** Versioned legal parameters, their structural validation and the look-ups of the engine. */
module PayrollParameters {
  import opened Calendar
  import opened Common
  import opened Decimals
  import opened Sorting

  datatype VersionStatus = Draft | UnderReview | Published | Archived

  datatype LiveInMode = WithWithdrawal | WithoutWithdrawal

  datatype Scheme = Monthly | Hourly

  datatype Rounding = Rounding(conceptDecimals: int, totalDecimals: int, mode: RoundingMode)

  datatype CategoryScale = CategoryScale(
    categoryCode: string,
    liveInMode: LiveInMode,
    monthlyMinimum: real,
    hourlyMinimum: real)

  /** No upper bound means that the tier is open. */
  datatype SeniorityTier = SeniorityTier(fromYears: int, toYears: Option<int>, percentage: real)

  datatype SeniorityRule = SeniorityRule(enabled: bool, tiers: seq<SeniorityTier>, basePlusOvertime: bool)

  datatype OvertimeKind = OvertimeKind(code: string, multiplier: real)

  datatype OvertimeRule = OvertimeRule(enabled: bool, kinds: seq<OvertimeKind>, monthlyHoursDivisor: real)

  datatype HolidayRule = HolidayRule(enabled: bool, workedMultiplier: real)

  datatype Zone = Zone(code: string, percentage: real)

  datatype ZoneRule = ZoneRule(enabled: bool, zones: seq<Zone>)

  datatype DivisorRule = DivisorRule(enabled: bool, divisor: real)

  datatype Contribution = Contribution(
    code: string,
    percentage: real,
    borneByWorker: bool,
    isFixed: bool,
    fixedAmount: Option<real>)

  datatype WorkRiskRule = WorkRiskRule(enabled: bool, code: string, percentage: real, fixedAmount: Option<real>)

  datatype ParameterVersion = ParameterVersion(
    status: VersionStatus,
    source: string,
    isFixture: bool,
    effectiveFrom: Date,
    effectiveTo: Option<Date>,
    rounding: Rounding,
    categories: seq<CategoryScale>,
    seniority: SeniorityRule,
    overtime: OvertimeRule,
    holiday: HolidayRule,
    unfavorableZone: Option<ZoneRule>,
    vacation: DivisorRule,
    annualBonus: DivisorRule,
    absence: DivisorRule,
    contributions: seq<Contribution>,
    workRisk: WorkRiskRule,
    preparedBy: Option<string>,
    approvedBy: Option<string>)

  const FIXTURE_SOURCE_PREFIX := "FIXTURE — DATO DE PRUEBA, NO OFICIAL"

  datatype Problem =
    | SourceMissing
    | FixtureWithoutPrefix
    | PrefixWithoutFixture
    | SignersMissing
    | SameSigner
    | NoCategories
    | DuplicateScale
    | OpenTierNotLast
    | OverlappingTiers

  // ---------------------------------------------------------------- problems, as a function

  function SourceProblems(v: ParameterVersion): seq<Problem> {
    (if !HasText(v.source) then [SourceMissing] else []) +
    (if v.isFixture && !StartsWith(v.source, FIXTURE_SOURCE_PREFIX) then [FixtureWithoutPrefix] else []) +
    (if !v.isFixture && StartsWith(v.source, FIXTURE_SOURCE_PREFIX) then [PrefixWithoutFixture] else [])
  }

  function ControlProblems(v: ParameterVersion): seq<Problem> {
    if v.status != Published then []
    else if v.preparedBy.None? || v.approvedBy.None? then [SignersMissing]
    else if v.preparedBy == v.approvedBy then [SameSigner]
    else []
  }

  function ModeName(m: LiveInMode): string {
    match m
    case WithWithdrawal => "WITH_WITHDRAWAL"
    case WithoutWithdrawal => "WITHOUT_WITHDRAWAL"
  }

  /** The key under which the validation remembers a scale. */
  function ScaleKey(s: CategoryScale): string {
    s.categoryCode + "::" + ModeName(s.liveInMode)
  }

  /** The keys of the first `n` scales. */
  function SeenKeys(categories: seq<CategoryScale>, n: nat): set<string>
    requires n <= |categories|
  {
    set k | 0 <= k < n :: ScaleKey(categories[k])
  }

  function ScaleProblems(categories: seq<CategoryScale>, n: nat): seq<Problem>
    requires n <= |categories|
  {
    if n == 0 then []
    else ScaleProblems(categories, n - 1) +
         (if ScaleKey(categories[n - 1]) in SeenKeys(categories, n - 1) then [DuplicateScale] else [])
  }

  function TierStart(t: SeniorityTier): int {
    t.fromYears
  }

  /** What is wrong between a tier and its successor. */
  function NeighbourProblems(previous: SeniorityTier, current: SeniorityTier): seq<Problem> {
    if previous.toYears.None? then [OpenTierNotLast]
    else if current.fromYears <= previous.toYears.value then [OverlappingTiers]
    else []
  }

  function TierProblems(sorted: seq<SeniorityTier>, n: nat): seq<Problem>
    requires n <= |sorted|
  {
    if n <= 1 then []
    else TierProblems(sorted, n - 1) + NeighbourProblems(sorted[n - 2], sorted[n - 1])
  }

  function Problems(v: ParameterVersion): seq<Problem> {
    var tiers := SortBy(v.seniority.tiers, TierStart);
    SourceProblems(v) + ControlProblems(v) + (if |v.categories| == 0 then [NoCategories] else []) +
    ScaleProblems(v.categories, |v.categories|) +
    (if v.seniority.enabled then TierProblems(tiers, |tiers|) else [])
  }

  /** validateParameterVersion. */
  method ValidateParameterVersion(v: ParameterVersion) returns (problems: seq<Problem>)
    ensures problems == Problems(v)
  {
    hide HasText;
    hide StartsWith;
    hide SortBy;
    hide ScaleProblems;
    hide TierProblems;
    problems := [];
    if !HasText(v.source) {
      problems := problems + [SourceMissing];
    }
    if v.isFixture && !StartsWith(v.source, FIXTURE_SOURCE_PREFIX) {
      problems := problems + [FixtureWithoutPrefix];
    }
    if !v.isFixture && StartsWith(v.source, FIXTURE_SOURCE_PREFIX) {
      problems := problems + [PrefixWithoutFixture];
    }
    assert problems == SourceProblems(v);
    hide SourceProblems;
    if v.status == Published {
      if v.preparedBy.None? || v.approvedBy.None? {
        problems := problems + [SignersMissing];
      } else if v.preparedBy == v.approvedBy {
        problems := problems + [SameSigner];
      }
    }
    if |v.categories| == 0 {
      problems := problems + [NoCategories];
    }
    assert problems == SourceProblems(v) + ControlProblems(v) + (if |v.categories| == 0 then [NoCategories] else []);
    var scales := CollectScaleProblems(v.categories);
    problems := problems + scales;
    if v.seniority.enabled {
      var tiers := CollectTierProblems(SortBy(v.seniority.tiers, TierStart));
      problems := problems + tiers;
    }
  }

  /** The pass over the scales, with the set of keys seen so far. */
  method CollectScaleProblems(categories: seq<CategoryScale>) returns (problems: seq<Problem>)
    ensures problems == ScaleProblems(categories, |categories|)
  {
    hide ScaleKey;
    problems := [];
    var seen: set<string> := {};
    var i := 0;
    while i < |categories|
      invariant 0 <= i <= |categories|
      invariant seen == SeenKeys(categories, i)
      invariant problems == ScaleProblems(categories, i)
    {
      var key := ScaleKey(categories[i]);
      if key in seen {
        problems := problems + [DuplicateScale];
      }
      seen := seen + {key};
      i := i + 1;
    }
  }

  /** The pass over the sorted tiers, neighbour by neighbour. */
  method CollectTierProblems(tiers: seq<SeniorityTier>) returns (problems: seq<Problem>)
    ensures problems == TierProblems(tiers, |tiers|)
  {
    problems := [];
    var i := 1;
    while i < |tiers|
      invariant 1 <= i
      invariant i <= |tiers| || i == 1
      invariant problems == TierProblems(tiers, Min(i, |tiers|))
    {
      if tiers[i - 1].toYears.None? {
        problems := problems + [OpenTierNotLast];
      } else if tiers[i].fromYears <= tiers[i - 1].toYears.value {
        problems := problems + [OverlappingTiers];
      }
      i := i + 1;
    }
  }

  // ---------------------------------------------------------------- what a coherent version guarantees

  /** The key separates category and mode: no two different pairs share it. */
  lemma ScaleKeyIsInjective(a: CategoryScale, b: CategoryScale)
    ensures ScaleKey(a) == ScaleKey(b) <==> SameScale(a, b)
  {
    var ka, kb := ScaleKey(a), ScaleKey(b);
    if ka == kb {
      assert ka[|ka| - 12] == if a.liveInMode == WithWithdrawal then 'H' else 'T';
      assert kb[|kb| - 12] == if b.liveInMode == WithWithdrawal then 'H' else 'T';
      var n := |ka| - 2 - |ModeName(a.liveInMode)|;
      assert ka[..n] == a.categoryCode && kb[..n] == b.categoryCode;
    }
  }

  predicate Matches(s: CategoryScale, code: string, mode: LiveInMode) {
    s.categoryCode == code && s.liveInMode == mode
  }

  predicate InTier(t: SeniorityTier, years: int) {
    years >= t.fromYears && (t.toYears.None? || years <= t.toYears.value)
  }

  ghost predicate OneScaleEach(categories: seq<CategoryScale>, n: nat)
    requires n <= |categories|
  {
    forall i, j :: 0 <= i < j < n ==> !SameScale(categories[i], categories[j])
  }

  ghost predicate OneTierPerYear(tiers: seq<SeniorityTier>) {
    forall years, i, j :: 0 <= i < j < |tiers| ==> !(InTier(tiers[i], years) && InTier(tiers[j], years))
  }

  predicate SameScale(a: CategoryScale, b: CategoryScale) {
    a.categoryCode == b.categoryCode && a.liveInMode == b.liveInMode
  }

  lemma {:induction false} ScaleProblemsExact(categories: seq<CategoryScale>, n: nat)
    requires n <= |categories|
    ensures ScaleProblems(categories, n) == [] <==> OneScaleEach(categories, n)
  {
    hide ScaleKey;
    if n > 0 {
      ScaleProblemsExact(categories, n - 1);
      var last := categories[n - 1];
      forall i | 0 <= i < n - 1
        ensures ScaleKey(categories[i]) == ScaleKey(last) <==> SameScale(categories[i], last)
      {
        ScaleKeyIsInjective(categories[i], last);
      }
      assert ScaleKey(last) in SeenKeys(categories, n - 1) <==> exists i :: 0 <= i < n - 1 && SameScale(categories[i], last);
    }
  }

  predicate FineNeighbours(sorted: seq<SeniorityTier>, k: nat)
    requires 1 <= k < |sorted|
  {
    NeighbourProblems(sorted[k - 1], sorted[k]) == []
  }

  lemma {:induction false} TierProblemsExact(sorted: seq<SeniorityTier>, n: nat)
    requires n <= |sorted|
    ensures TierProblems(sorted, n) == [] <==> forall k :: 1 <= k < n ==> FineNeighbours(sorted, k)
  {
    hide NeighbourProblems;
    if n > 1 {
      TierProblemsExact(sorted, n - 1);
      assert FineNeighbours(sorted, n - 1) <==> NeighbourProblems(sorted[n - 2], sorted[n - 1]) == [];
      hide FineNeighbours;
      assert TierProblems(sorted, n) == TierProblems(sorted, n - 1) + NeighbourProblems(sorted[n - 2], sorted[n - 1]);
      hide TierProblems;
    }
  }

  /** In a sorted list whose neighbours are fine, every earlier tier ends before every later one starts. */
  lemma {:induction false} TiersAreApart(sorted: seq<SeniorityTier>, i: nat, j: nat)
    requires Sorted(sorted, TierStart)
    requires forall k :: 1 <= k < |sorted| ==> FineNeighbours(sorted, k)
    requires i < j < |sorted|
    ensures sorted[i].toYears.Some? && sorted[i].toYears.value < sorted[j].fromYears
    decreases j
  {
    assert FineNeighbours(sorted, j);
    assert TierStart(sorted[j - 1]) <= TierStart(sorted[j]);
    if i < j - 1 {
      TiersAreApart(sorted, i, j - 1);
    }
  }

  function TierConflict(a: SeniorityTier, b: SeniorityTier): bool {
    Overlapping(a, b)
  }

  /** Some number of years lies in both tiers. */
  predicate Overlapping(a: SeniorityTier, b: SeniorityTier) {
    InTier(a, Max(a.fromYears, b.fromYears)) && InTier(b, Max(a.fromYears, b.fromYears))
  }

  lemma PairwiseIsOneTier(tiers: seq<SeniorityTier>)
    ensures Pairwise(tiers, TierConflict) <==> OneTierPerYear(tiers)
  {
    if OneTierPerYear(tiers) {
      forall i, j | 0 <= i < j < |tiers|
        ensures !TierConflict(tiers[i], tiers[j])
      {
        var y := Max(tiers[i].fromYears, tiers[j].fromYears);
        assert !(InTier(tiers[i], y) && InTier(tiers[j], y));
      }
    }
    if Pairwise(tiers, TierConflict) {
      forall years, i, j | 0 <= i < j < |tiers|
        ensures !(InTier(tiers[i], years) && InTier(tiers[j], years))
      {
        assert !TierConflict(tiers[i], tiers[j]);
      }
    }
  }

  /** In the sorted copy, no tier's first year falls into a tier sorted before it. */
  ghost predicate FirstYearsAreFree(sorted: seq<SeniorityTier>) {
    forall i, j :: 0 <= i < j < |sorted| ==> !InTier(sorted[i], sorted[j].fromYears)
  }

  /** The neighbour check decides the pairwise condition, tiers that hold no year included. */
  lemma TierCheckDecides(tiers: seq<SeniorityTier>)
    ensures var sorted := SortBy(tiers, TierStart);
            TierProblems(sorted, |sorted|) == [] <==> FirstYearsAreFree(sorted)
  {
    var sorted := SortBy(tiers, TierStart);
    SortByKeeps(tiers, TierStart);
    hide SortBy;
    TierProblemsExact(sorted, |sorted|);
    hide TierProblems;
    if forall k :: 1 <= k < |sorted| ==> FineNeighbours(sorted, k) {
      forall i, j | 0 <= i < j < |sorted|
        ensures !InTier(sorted[i], sorted[j].fromYears)
      {
        TiersAreApart(sorted, i, j);
      }
    }
    if FirstYearsAreFree(sorted) {
      forall k | 1 <= k < |sorted|
        ensures FineNeighbours(sorted, k)
      {
        assert !InTier(sorted[k - 1], sorted[k].fromYears);
        assert TierStart(sorted[k - 1]) <= TierStart(sorted[k]);
      }
    }
  }

  /**
   * The neighbour check of a sorted copy is sound and, for tiers that hold at least one year, complete: no problem is
   * reported exactly when every number of years has at most one tier.
   */
  lemma TierCheckIsExact(tiers: seq<SeniorityTier>)
    ensures var sorted := SortBy(tiers, TierStart);
            && (TierProblems(sorted, |sorted|) == [] ==> OneTierPerYear(tiers))
            && ((forall t :: t in tiers ==> InTier(t, t.fromYears)) && OneTierPerYear(tiers) ==>
                  TierProblems(sorted, |sorted|) == [])
  {
    var sorted := SortBy(tiers, TierStart);
    SortByKeeps(tiers, TierStart);
    hide SortBy;
    TierProblemsExact(sorted, |sorted|);
    hide TierProblems;
    PairwiseIsOneTier(tiers);
    hide OneTierPerYear;
    PairwiseIsOrderFree(tiers, sorted, TierConflict);
    if TierProblems(sorted, |sorted|) == [] {
      SoundNeighbours(sorted);
    }
    if (forall t :: t in tiers ==> InTier(t, t.fromYears)) && Pairwise(sorted, TierConflict) {
      forall t | t in sorted
        ensures InTier(t, t.fromYears)
      {
        assert t in multiset(sorted) && t in multiset(tiers);
      }
      CompleteNeighbours(sorted);
    }
  }

  lemma SoundNeighbours(sorted: seq<SeniorityTier>)
    requires Sorted(sorted, TierStart)
    requires forall k :: 1 <= k < |sorted| ==> FineNeighbours(sorted, k)
    ensures Pairwise(sorted, TierConflict)
  {
    forall i, j | 0 <= i < j < |sorted|
      ensures !TierConflict(sorted[i], sorted[j])
    {
      TiersAreApart(sorted, i, j);
    }
  }

  lemma CompleteNeighbours(sorted: seq<SeniorityTier>)
    requires Sorted(sorted, TierStart) && Pairwise(sorted, TierConflict)
    requires forall t :: t in sorted ==> InTier(t, t.fromYears)
    ensures forall k :: 1 <= k < |sorted| ==> FineNeighbours(sorted, k)
  {
    forall k | 1 <= k < |sorted|
      ensures FineNeighbours(sorted, k)
    {
      assert !TierConflict(sorted[k - 1], sorted[k]);
      assert TierStart(sorted[k - 1]) <= TierStart(sorted[k]);
      assert sorted[k - 1] in sorted && sorted[k] in sorted;
    }
  }

  /** findCategoryScale. */
  function FindCategoryScale(v: ParameterVersion, code: string, mode: LiveInMode): seq<CategoryScale> {
    First(v.categories, (s: CategoryScale) => Matches(s, code, mode))
  }

  /** The engine's tier look-up. */
  function FindTier(tiers: seq<SeniorityTier>, years: int): seq<SeniorityTier> {
    First(tiers, (t: SeniorityTier) => InTier(t, years))
  }

  /**
   * In a version without problems, reordering its scales changes no look-up of the engine, and neither does reordering
   * its tiers when the seniority rule, and with it their check, is enabled.
   */
  lemma LookupsAreOrderFree(v: ParameterVersion, w: ParameterVersion, code: string, mode: LiveInMode, years: int)
    requires Problems(v) == []
    ensures multiset(w.categories) == multiset(v.categories) ==>
              FindCategoryScale(w, code, mode) == FindCategoryScale(v, code, mode)
    ensures v.seniority.enabled && multiset(w.seniority.tiers) == multiset(v.seniority.tiers) ==>
              FindTier(w.seniority.tiers, years) == FindTier(v.seniority.tiers, years)
  {
    var tiers := SortBy(v.seniority.tiers, TierStart);
    assert ScaleProblems(v.categories, |v.categories|) == [];
    assert v.seniority.enabled ==> TierProblems(tiers, |tiers|) == [];
    ScaleProblemsExact(v.categories, |v.categories|);
    TierCheckIsExact(v.seniority.tiers);
    hide SortBy;
    hide Problems;
    if multiset(w.categories) == multiset(v.categories) {
      FirstIsOrderFree(v.categories, w.categories, (s: CategoryScale) => Matches(s, code, mode));
    }
    if v.seniority.enabled && multiset(w.seniority.tiers) == multiset(v.seniority.tiers) {
      FirstIsOrderFree(v.seniority.tiers, w.seniority.tiers, (t: SeniorityTier) => InTier(t, years));
    }
  }
}
