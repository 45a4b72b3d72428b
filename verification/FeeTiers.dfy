/** Trading fees: the volume tier a trader has reached and the fee it charges. */
module FeeTiers {
  import opened Fixed
  import opened VolumeWindow

  const FEE_PRECISION: int := 100_000

  /** A volume threshold and the rates that apply from there on, in tenths of a basis point. */
  datatype FeeTier = FeeTier(minVolume: int, makerRate: nat, takerRate: nat) {
    function Rate(isMaker: bool): nat {
      if isMaker then makerRate else takerRate
    }
  }

  const BASE := FeeTier(0, 20, 50)

  const DEFAULT_TIERS: seq<FeeTier> :=
    [FeeTier(0, 20, 50), FeeTier(20_000 * PRECISION, 15, 40),
     FeeTier(50_000 * PRECISION, 10, 30), FeeTier(100_000 * PRECISION, 5, 20)]

  /** The last tier of the list whose threshold the volume reaches, the base tier if there is none. */
  function LastReached(volume: int, tiers: seq<FeeTier>): FeeTier {
    if tiers == [] then BASE
    else if volume >= tiers[|tiers| - 1].minVolume then tiers[|tiers| - 1]
    else LastReached(volume, tiers[..|tiers| - 1])
  }

  method DetermineFeeTier(volume: int, tiers: seq<FeeTier>) returns (best: FeeTier)
    ensures best == LastReached(volume, tiers)
  {
    best := BASE;
    for i := 0 to |tiers|
      invariant best == LastReached(volume, tiers[..i])
    {
      assert tiers[..i + 1][..i] == tiers[..i];
      if volume >= tiers[i].minVolume {
        best := tiers[i];
      }
    }
    assert tiers[..|tiers|] == tiers;
  }

  function TieredFee(size: int, isMaker: bool, tier: FeeTier): Outcome<int> {
    var scaled :- Checked(size * tier.Rate(isMaker));
    Done(TruncDiv(scaled, FEE_PRECISION))
  }

  /** The tier a trade is charged at: the stored window is summed as it is, before
      the trade's own day has rotated it. */
  function ChargedTier(log: seq<Trade>, tiers: seq<FeeTier>): FeeTier
    requires Run(log).Done?
  {
    LastReached(Sum(Run(log).value.volumes), tiers)
  }

  // ------------------------------------------------------------ highest tier

  predicate Ascending(tiers: seq<FeeTier>) {
    forall i, j :: 0 <= i < j < |tiers| ==> tiers[i].minVolume < tiers[j].minVolume
  }

  predicate DistinctThresholds(tiers: seq<FeeTier>) {
    forall i, j :: 0 <= i < j < |tiers| ==> tiers[i].minVolume != tiers[j].minVolume
  }

  /** The tier charged is the highest one the volume reaches. */
  predicate PicksHighest(volume: int, tiers: seq<FeeTier>) {
    forall i :: 0 <= i < |tiers| && volume >= tiers[i].minVolume ==>
      tiers[i].minVolume <= LastReached(volume, tiers).minVolume
  }

  lemma {:induction false} LastReachedAt(volume: int, tiers: seq<FeeTier>, k: nat)
    requires k < |tiers| && volume >= tiers[k].minVolume
    requires forall j :: k < j < |tiers| ==> volume < tiers[j].minVolume
    ensures LastReached(volume, tiers) == tiers[k]
  {
    if k < |tiers| - 1 {
      LastReachedAt(volume, tiers[..|tiers| - 1], k);
    }
  }

  lemma {:induction false} NoneReached(volume: int, tiers: seq<FeeTier>)
    requires forall j :: 0 <= j < |tiers| ==> volume < tiers[j].minVolume
    ensures LastReached(volume, tiers) == BASE
  {
    if tiers != [] {
      NoneReached(volume, tiers[..|tiers| - 1]);
    }
  }

  /** The last reached tier, as an index; -1 for none. */
  lemma ReachedIndex(volume: int, tiers: seq<FeeTier>) returns (k: int)
    ensures -1 <= k < |tiers|
    ensures forall j :: k < j < |tiers| ==> volume < tiers[j].minVolume
    ensures if k < 0 then LastReached(volume, tiers) == BASE
            else volume >= tiers[k].minVolume && LastReached(volume, tiers) == tiers[k]
  {
    k := |tiers| - 1;
    while k >= 0 && volume < tiers[k].minVolume
      invariant -1 <= k < |tiers|
      invariant forall j :: k < j < |tiers| ==> volume < tiers[j].minVolume
    {
      k := k - 1;
    }
    if k < 0 {
      NoneReached(volume, tiers);
    } else {
      LastReachedAt(volume, tiers, k);
    }
  }

  /** Taking the last reached tier finds the highest one at every volume exactly
      when the thresholds ascend. */
  lemma HighestIffAscending(tiers: seq<FeeTier>)
    requires DistinctThresholds(tiers)
    ensures (forall volume :: PicksHighest(volume, tiers)) <==> Ascending(tiers)
  {
    if Ascending(tiers) {
      forall volume: int
        ensures PicksHighest(volume, tiers)
      {
        var k := ReachedIndex(volume, tiers);
      }
    } else {
      var i, j :| 0 <= i < j < |tiers| && tiers[i].minVolume > tiers[j].minVolume;
      var volume := tiers[i].minVolume;
      var k := ReachedIndex(volume, tiers);
      assert k >= j && k != i;
      assert tiers[k].minVolume < volume;
      assert !PicksHighest(volume, tiers);
    }
  }

  // -------------------------------------------------------- fees over volume

  /** Rates do not rise along the list, nor above the base rates. */
  predicate RatesFall(tiers: seq<FeeTier>, isMaker: bool) {
    && (forall i :: 0 <= i < |tiers| ==> tiers[i].Rate(isMaker) <= BASE.Rate(isMaker))
    && (forall i, j :: 0 <= i < j < |tiers| ==> tiers[j].Rate(isMaker) <= tiers[i].Rate(isMaker))
  }

  /** More volume never costs more, whatever the order of the thresholds. */
  lemma FeeFallsWithVolume(low: int, high: int, size: int, isMaker: bool, tiers: seq<FeeTier>)
    requires low <= high && size >= 0 && RatesFall(tiers, isMaker)
    ensures var less := TieredFee(size, isMaker, LastReached(low, tiers));
            var more := TieredFee(size, isMaker, LastReached(high, tiers));
            less.Done? ==> more.Done? && 0 <= more.value <= less.value
  {
    var a := ReachedIndex(low, tiers);
    var b := ReachedIndex(high, tiers);
    assert a <= b;
    LowerRate(size, LastReached(high, tiers).Rate(isMaker), LastReached(low, tiers).Rate(isMaker));
  }

  lemma LowerRate(size: int, rate: nat, higher: nat)
    requires size >= 0 && rate <= higher
    ensures 0 <= size * rate <= size * higher
    ensures 0 <= TruncDiv(size * rate, FEE_PRECISION) <= TruncDiv(size * higher, FEE_PRECISION)
  {
    MulNonNegative(size, rate);
    MulNonNegative(size, higher - rate);
    assert size * (higher - rate) == size * higher - size * rate;
    TruncDivBounds(size * rate, FEE_PRECISION);
    TruncDivMonotone(size * rate, size * higher, FEE_PRECISION);
  }

  lemma {:induction false} VolumeNonNegative(log: seq<Trade>, from: int, to: int)
    ensures VolumeBetween(log, from, to) >= 0
  {
    if log != [] {
      VolumeNonNegative(log[..|log| - 1], from, to);
    }
  }

  /** The stored ring sums to at least the volume of the current 14 days, since
      nothing has been traded after its last day. */
  lemma StoredSumCoversWindow(log: seq<Trade>, now: nat)
    requires Chronological(log) && Run(log).Done? && 1 <= LastDay(log) <= now
    ensures Sum(Run(log).value.volumes) >= VolumeBetween(log, now - 13, now + 1)
  {
    UnrotatedSumCountsExpiredDays(log, now);
    RollingVolumeIsWindowVolume(log, now);
    VolumeNonNegative(log, LastDay(log) - 13, now - 13);
  }

  /** Expired days still in the ring can only make a trade cheaper: the fee
      charged never exceeds the fee at the volume of the last 14 days. */
  lemma StaleWindowNeverRaisesFee(log: seq<Trade>, now: nat, size: int, isMaker: bool, tiers: seq<FeeTier>)
    requires Chronological(log) && Run(log).Done? && 1 <= LastDay(log) <= now && size >= 0
    requires RatesFall(tiers, isMaker)
    ensures var due := TieredFee(size, isMaker, LastReached(VolumeBetween(log, now - 13, now + 1), tiers));
            var charged := TieredFee(size, isMaker, ChargedTier(log, tiers));
            due.Done? ==> charged.Done? && 0 <= charged.value <= due.value
  {
    StoredSumCoversWindow(log, now);
    FeeFallsWithVolume(VolumeBetween(log, now - 13, now + 1), Sum(Run(log).value.volumes), size, isMaker, tiers);
  }

  /** The default tiers are such a list. */
  lemma DefaultRatesFall(isMaker: bool)
    ensures RatesFall(DEFAULT_TIERS, isMaker) && Ascending(DEFAULT_TIERS)
  {
  }

  /** The default schedule, by the volume of the window in whole units: what a maker and
      a taker pay, in tenths of a basis point of the size. */
  lemma DefaultSchedule(units: nat, size: nat)
    requires size * 50 <= I128_MAX
    ensures var tier := LastReached(units * 10_000_000, DEFAULT_TIERS);
            && TieredFee(size, true, tier) == Done(size * (
                 if units < 20_000 then 20 else if units < 50_000 then 15 else if units < 100_000 then 10 else 5) / 100_000)
            && TieredFee(size, false, tier) == Done(size * (
                 if units < 20_000 then 50 else if units < 50_000 then 40 else if units < 100_000 then 30 else 20) / 100_000)
  {
    var k := ReachedIndex(units * 10_000_000, DEFAULT_TIERS);
    var thresholds := (DEFAULT_TIERS[0].minVolume, DEFAULT_TIERS[1].minVolume, DEFAULT_TIERS[2].minVolume, DEFAULT_TIERS[3].minVolume);
    assert k == 0 || k == 1 || k == 2 || k == 3;
  }

  /** No threshold is above the lower volume and within the higher one. */
  predicate NoneBetween(low: int, high: int, tiers: seq<FeeTier>) {
    forall i :: 0 <= i < |tiers| ==> !(low < tiers[i].minVolume <= high)
  }

  /** The tier charged on the stored sum is the one due exactly when no threshold lies
      between the volume of the last 14 days and that sum. */
  lemma ChargedTierIsDueExactly(log: seq<Trade>, now: nat, tiers: seq<FeeTier>)
    requires Chronological(log) && Run(log).Done? && 1 <= LastDay(log) <= now
    requires tiers != [] && Ascending(tiers) && tiers[0].minVolume <= 0
    ensures var due := VolumeBetween(log, now - 13, now + 1);
            ChargedTier(log, tiers) == LastReached(due, tiers) <==> NoneBetween(due, Sum(Run(log).value.volumes), tiers)
  {
    StoredSumCoversWindow(log, now);
    VolumeNonNegative(log, now - 13, now + 1);
    SameTierExactly(VolumeBetween(log, now - 13, now + 1), Sum(Run(log).value.volumes), tiers);
  }

  lemma SameTierExactly(low: int, high: int, tiers: seq<FeeTier>)
    requires low <= high && tiers != [] && Ascending(tiers) && tiers[0].minVolume <= low
    ensures LastReached(high, tiers) == LastReached(low, tiers) <==> NoneBetween(low, high, tiers)
  {
    var a := ReachedIndex(low, tiers);
    var b := ReachedIndex(high, tiers);
    assert 0 <= a <= b;
    if a < b {
      assert tiers[a].minVolume < tiers[b].minVolume;
      assert low < tiers[b].minVolume <= high;
    }
  }

  lemma OneTrade(t: Trade, from: int, to: int)
    requires 0 < t.size <= I128_MAX
    ensures Run([t]).Done?
    ensures LastDay([t]) == t.day
    ensures VolumeBetween([t], from, to) == if from <= t.day < to then t.size else 0
  {
    assert [t][..0] == [];
    assert VolumeBetween([], from, to) == 0;
    assert ZEROS[t.day % DAYS] == 0;
    assert Run([]) == Done(Window([], 0));
  }

  /** And it does make one cheaper: after a month without trades the discount of
      the last active day still applies to the next trade. */
  lemma StaleDiscount()
    ensures var log := [Trade(20_000 * PRECISION, 1)];
            && Chronological(log) && Run(log).Done? && LastDay(log) == 1
            && VolumeBetween(log, 31 - 13, 31 + 1) == 0
            && TieredFee(PRECISION, false, ChargedTier(log, DEFAULT_TIERS)) == Done(4_000)
            && TieredFee(PRECISION, false, LastReached(0, DEFAULT_TIERS)) == Done(5_000)
  {
    var log := [Trade(20_000 * PRECISION, 1)];
    OneTrade(log[0], 1 - 13, 1 + 1);
    OneTrade(log[0], 31 - 13, 31 + 1);
    RingRefinesLog(log);
    SumOfRing(Run(log).value, log);
    LastReachedAt(20_000 * PRECISION, DEFAULT_TIERS, 1);
    LastReachedAt(0, DEFAULT_TIERS, 0);
  }
}
