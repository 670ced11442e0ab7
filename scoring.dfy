/**
 * The scoring rule of `SeedCatalog.search` (src/music_suggester.py):
 * alignment kernel, target resolution, soft range penalty, the fixed
 * weighted sum, and what "top k by descending score" means.
 *
 * `np.exp` cannot be evaluated here, so the Gaussian kernel
 * exp(-(d / b)^2) is a parameter `kernel(d, b)` constrained by IsKernel:
 * 1 at distance 0, within (0, 1] on [0, 1], and non-increasing in d.
 */
module Scoring {
  import opened Wrappers
  import opened Text

  /** The 1e-6 guards of the source, as an exact positive constant. */
  const Eps: real := 0.000001

  const TempoWeight: real := 0.35
  const EnergyWeight: real := 0.30
  const ValenceWeight: real := 0.25
  const DanceWeight: real := 0.10

  const TempoBandwidth: real := 0.20
  const EnergyBandwidth: real := 0.20
  const ValenceBandwidth: real := 0.25
  const DanceBandwidth: real := 0.30

  /** Danceability is always aimed at the middle of its range. */
  const DanceTarget: real := 0.5
  /** The soft penalty for each supplied range a row falls outside. */
  const OutOfRangeFactor: real := 0.85

  function Clip(x: real, lo: real, hi: real): (r: real)
    requires lo <= hi
    ensures lo <= r <= hi
    ensures lo <= x <= hi ==> r == x
    ensures x < lo ==> r == lo
    ensures hi < x ==> r == hi
  {
    if x < lo then lo else if hi < x then hi else x
  }

  function Abs(x: real): real {
    if x < 0.0 then -x else x
  }

  /** What the code relies on of exp(-(d / b)^2) for d in [0, 1] and b > 0. */
  ghost predicate IsKernel(kernel: (real, real) -> real) {
    && (forall b :: b > 0.0 ==> kernel(0.0, b) == 1.0)
    && (forall d, b :: 0.0 <= d <= 1.0 && b > 0.0 ==> 0.0 < kernel(d, b) <= 1.0)
    && (forall d1, d2, b :: 0.0 <= d1 <= d2 <= 1.0 && b > 0.0 ==> kernel(d2, b) <= kernel(d1, b))
  }

  /** `_align` on one value: the kernel at the distance |v - t| clipped to [0, 1]. */
  function Align(v: real, t: real, b: real, kernel: (real, real) -> real): (a: real)
    requires b > 0.0 && IsKernel(kernel)
    ensures 0.0 < a <= 1.0
    ensures v == t ==> a == 1.0
  {
    kernel(Clip(Abs(v - t), 0.0, 1.0), b)
  }

  /** Alignment depends only on the distance to the target, so it is symmetric about it. */
  lemma AlignSymmetric(x: real, t: real, b: real, kernel: (real, real) -> real)
    requires b > 0.0 && IsKernel(kernel)
    ensures Align(t + x, t, b, kernel) == Align(t - x, t, b, kernel)
  {
    assert Abs(t + x - t) == Abs(t - x - t);
  }

  /** A value nearer the target never aligns worse. */
  lemma AlignMonotone(v1: real, v2: real, t: real, b: real, kernel: (real, real) -> real)
    requires b > 0.0 && IsKernel(kernel)
    requires Abs(v1 - t) <= Abs(v2 - t)
    ensures Align(v2, t, b, kernel) <= Align(v1, t, b, kernel)
  {
    var d1, d2 := Clip(Abs(v1 - t), 0.0, 1.0), Clip(Abs(v2 - t), 0.0, 1.0);
    assert d1 <= d2;
  }

  /** Distances beyond 1 are clipped: every value at least 1 away aligns the same. */
  lemma AlignSaturates(v1: real, v2: real, t: real, b: real, kernel: (real, real) -> real)
    requires b > 0.0 && IsKernel(kernel)
    requires 1.0 <= Abs(v1 - t) && 1.0 <= Abs(v2 - t)
    ensures Align(v1, t, b, kernel) == Align(v2, t, b, kernel)
  {
    assert Clip(Abs(v1 - t), 0.0, 1.0) == 1.0 == Clip(Abs(v2 - t), 0.0, 1.0);
  }

  datatype Targets = Targets(tempo: real, energy: real, valence: real)

  /**
   * Tempo target: the midpoint of the BPM range, else the tempo median,
   * normalised by the catalog's tempo bounds with a guarded denominator.
   */
  function TempoTarget(bpmRange: Option<(int, int)>, median: real, lo: real, hi: real): (t: real)
    requires lo <= hi
    ensures bpmRange.None? && lo <= median <= hi ==> 0.0 <= t < 1.0
    ensures bpmRange.Some? && lo <= bpmRange.value.0 as real <= hi && lo <= bpmRange.value.1 as real <= hi
      ==> 0.0 <= t < 1.0
  {
    var mid := match bpmRange
      case Some((a, b)) => (a + b) as real / 2.0
      case None => median;
    NormalisedBelowOne(mid - lo, hi - lo);
    (mid - lo) / (hi - lo + Eps)
  }

  lemma NormalisedBelowOne(x: real, width: real)
    requires width >= 0.0
    ensures 0.0 <= x <= width ==> 0.0 <= x / (width + Eps) < 1.0
  {
    if 0.0 <= x <= width {
      var q := x / (width + Eps);
      assert q * (width + Eps) == x;
    }
  }

  /** Energy target: the midpoint of the energy range, else the energy median. */
  function EnergyTarget(energyRange: Option<(real, real)>, median: real): (t: real)
    ensures energyRange.None? ==> t == median
    ensures energyRange.Some? ==> var (lo, hi) := energyRange.value;
      (lo <= hi ==> lo <= t <= hi) && (hi <= lo ==> hi <= t <= lo)
  {
    match energyRange
    case Some((lo, hi)) => (lo + hi) / 2.0
    case None => median
  }

  /** The valence lookup table, keyed by the lower-cased label. */
  function ValenceTarget(pref: Option<string>): (t: real)
    ensures t == 0.25 <==> pref.Some? && Lower(pref.value) == "low"
    ensures t == 0.75 <==> pref.Some? && Lower(pref.value) == "high"
    ensures t == 0.5 <==> pref.None? || Lower(pref.value) !in {"low", "high"}
  {
    var key := Lower(pref.GetOr(""));
    if key == "low" then 0.25
    else if key == "neutral" || key == "medium" then 0.5
    else if key == "high" then 0.75
    else 0.5
  }

  lemma LowerIdempotent(s: string)
    ensures Lower(Lower(s)) == Lower(s)
  {
    assert forall i :: 0 <= i < |s| ==> LowerChar(LowerChar(s[i])) == LowerChar(s[i]);
  }

  /** The valence label is matched case-insensitively. */
  lemma ValenceCaseInsensitive(pref: string)
    ensures ValenceTarget(Some(pref)) == ValenceTarget(Some(Lower(pref)))
  {
    LowerIdempotent(pref);
  }

  /** One supplied range: 1 inside it (bounds included), the soft penalty outside. */
  function RangeFactor(x: real, range: Option<(real, real)>): (f: real)
    ensures f == 1.0 <==> range.None? || range.value.0 <= x <= range.value.1
    ensures f == 1.0 || f == OutOfRangeFactor
  {
    match range
    case None => 1.0
    case Some((lo, hi)) => if lo <= x && x <= hi then 1.0 else OutOfRangeFactor
  }

  function BpmAsReal(bpmRange: Option<(int, int)>): Option<(real, real)> {
    match bpmRange
    case Some((lo, hi)) => Some((lo as real, hi as real))
    case None => None
  }

  /** The product of the per-range penalties (`soft`). */
  function SoftFactor(tempo: real, energy: real, bpmRange: Option<(int, int)>, energyRange: Option<(real, real)>): (f: real)
    ensures f == 1.0 || f == 0.85 || f == 0.7225
    ensures f == 1.0 <==> RangeFactor(tempo, BpmAsReal(bpmRange)) == 1.0 && RangeFactor(energy, energyRange) == 1.0
    ensures f == 0.7225 <==> RangeFactor(tempo, BpmAsReal(bpmRange)) != 1.0 && RangeFactor(energy, energyRange) != 1.0
  {
    RangeFactor(tempo, BpmAsReal(bpmRange)) * RangeFactor(energy, energyRange)
  }

  /** The weighted alignment sum over tempo, energy, valence and danceability. */
  function Blend(tempoNorm: real, energy: real, valence: real, dance: real, t: Targets, kernel: (real, real) -> real): (s: real)
    requires IsKernel(kernel)
    ensures 0.0 < s <= 1.0
  {
    TempoWeight * Align(tempoNorm, t.tempo, TempoBandwidth, kernel)
    + EnergyWeight * Align(energy, t.energy, EnergyBandwidth, kernel)
    + ValenceWeight * Align(valence, t.valence, ValenceBandwidth, kernel)
    + DanceWeight * Align(dance, DanceTarget, DanceBandwidth, kernel)
  }

  /** The weights sum to 1: a row on every target scores exactly 1. */
  lemma BlendAtTargets(t: Targets, kernel: (real, real) -> real)
    requires IsKernel(kernel)
    ensures Blend(t.tempo, t.energy, t.valence, DanceTarget, t, kernel) == 1.0
  {
  }

  /** A row nearer every target never blends lower. */
  lemma BlendMonotone(a: (real, real, real, real), b: (real, real, real, real), t: Targets, kernel: (real, real) -> real)
    requires IsKernel(kernel)
    requires Abs(a.0 - t.tempo) <= Abs(b.0 - t.tempo) && Abs(a.1 - t.energy) <= Abs(b.1 - t.energy)
    requires Abs(a.2 - t.valence) <= Abs(b.2 - t.valence) && Abs(a.3 - DanceTarget) <= Abs(b.3 - DanceTarget)
    ensures Blend(b.0, b.1, b.2, b.3, t, kernel) <= Blend(a.0, a.1, a.2, a.3, t, kernel)
  {
    AlignMonotone(a.0, b.0, t.tempo, TempoBandwidth, kernel);
    AlignMonotone(a.1, b.1, t.energy, EnergyBandwidth, kernel);
    AlignMonotone(a.2, b.2, t.valence, ValenceBandwidth, kernel);
    AlignMonotone(a.3, b.3, DanceTarget, DanceBandwidth, kernel);
  }

  /** The final score: blend times soft factor. Ranges bias, they never exclude. */
  lemma ScoreBounds(blend: real, soft: real)
    requires 0.0 < blend <= 1.0
    requires soft == 1.0 || soft == 0.85 || soft == 0.7225
    ensures 0.0 < blend * soft <= blend <= 1.0
    ensures 0.7225 * blend <= blend * soft
  {
  }

  /**
   * Of two rows with the same blend, the one that breaks no supplied range
   * the other keeps never scores lower, and strictly higher when the other
   * breaks a range it keeps.
   */
  lemma InRangeNeverBelow(blend: real, tIn: real, eIn: real, tOut: real, eOut: real,
                          bpmRange: Option<(int, int)>, energyRange: Option<(real, real)>)
    requires 0.0 < blend
    requires RangeFactor(tOut, BpmAsReal(bpmRange)) == 1.0 ==> RangeFactor(tIn, BpmAsReal(bpmRange)) == 1.0
    requires RangeFactor(eOut, energyRange) == 1.0 ==> RangeFactor(eIn, energyRange) == 1.0
    ensures blend * SoftFactor(tOut, eOut, bpmRange, energyRange) <= blend * SoftFactor(tIn, eIn, bpmRange, energyRange)
    ensures SoftFactor(tIn, eIn, bpmRange, energyRange) == 1.0 != SoftFactor(tOut, eOut, bpmRange, energyRange)
      ==> blend * SoftFactor(tOut, eOut, bpmRange, energyRange) < blend * SoftFactor(tIn, eIn, bpmRange, energyRange)
  {
    var fIn, fOut := SoftFactor(tIn, eIn, bpmRange, energyRange), SoftFactor(tOut, eOut, bpmRange, energyRange);
    assert fOut <= fIn;
  }

  /** The score of one row: its blend times its soft range factor. */
  function Score(tempoNorm: real, tempo: real, energy: real, valence: real, dance: real, t: Targets,
                 bpmRange: Option<(int, int)>, energyRange: Option<(real, real)>, kernel: (real, real) -> real): (s: real)
    requires IsKernel(kernel)
    ensures 0.0 < s <= 1.0
  {
    var blend := Blend(tempoNorm, energy, valence, dance, t, kernel);
    var soft := SoftFactor(tempo, energy, bpmRange, energyRange);
    ScoreBounds(blend, soft);
    blend * soft
  }

  /**
   * With the energy target at the range's midpoint, an energy inside the
   * range beats one outside it when every other feature is the same.
   */
  lemma EnergyRangeFavours(tempoNorm: real, eIn: real, eOut: real, valence: real, dance: real, tempo: real,
                           t: Targets, bpmRange: Option<(int, int)>, eLo: real, eHi: real,
                           kernel: (real, real) -> real)
    requires IsKernel(kernel) && t.energy == (eLo + eHi) / 2.0
    requires eLo <= eIn <= eHi && !(eLo <= eOut <= eHi)
    ensures Score(tempoNorm, tempo, eOut, valence, dance, t, bpmRange, Some((eLo, eHi)), kernel)
          < Score(tempoNorm, tempo, eIn, valence, dance, t, bpmRange, Some((eLo, eHi)), kernel)
  {
    assert Abs(eIn - t.energy) <= Abs(eOut - t.energy);
    AlignMonotone(eIn, eOut, t.energy, EnergyBandwidth, kernel);
    PenaltyDecides(Blend(tempoNorm, eIn, valence, dance, t, kernel), Blend(tempoNorm, eOut, valence, dance, t, kernel),
                   SoftFactor(tempo, eIn, bpmRange, Some((eLo, eHi))), SoftFactor(tempo, eOut, bpmRange, Some((eLo, eHi))));
  }

  /** A blend no lower and a strictly smaller penalty give a strictly higher score. */
  lemma PenaltyDecides(bIn: real, bOut: real, sIn: real, sOut: real)
    requires 0.0 < bOut <= bIn && 0.0 < sOut < sIn
    ensures bOut * sOut < bIn * sIn
  {
    assert bOut * sOut < bOut * sIn;
  }

  /** A row's position in the table and its score. */
  datatype Scored = Scored(index: nat, score: real)

  predicate SortedDesc(s: seq<Scored>) {
    forall i, j :: 0 <= i < j < |s| ==> s[i].score >= s[j].score
  }

  /** Insert x before the first element it does not score below (stable). */
  function InsertDesc(x: Scored, s: seq<Scored>): (r: seq<Scored>)
    requires SortedDesc(s)
    ensures |r| == |s| + 1
    ensures SortedDesc(r)
    ensures multiset(r) == multiset(s) + multiset{x}
  {
    if s == [] || x.score >= s[0].score then [x] + s
    else
      var rest := InsertDesc(x, s[1..]);
      assert s == [s[0]] + s[1..];
      HeadAboveInsert(x, s, rest);
      ConsDesc(s[0], rest);
      [s[0]] + rest
  }

  /** The head of a descending list stays above everything the rest and a smaller x become. */
  lemma HeadAboveInsert(x: Scored, s: seq<Scored>, rest: seq<Scored>)
    requires |s| > 0 && SortedDesc(s) && x.score < s[0].score
    requires multiset(rest) == multiset(s[1..]) + multiset{x}
    ensures forall i :: 0 <= i < |rest| ==> s[0].score >= rest[i].score
  {
    forall i | 0 <= i < |rest| ensures s[0].score >= rest[i].score {
      assert rest[i] in multiset(rest);
    }
  }

  /** A head scoring at least every element keeps a descending list descending. */
  lemma ConsDesc(h: Scored, rest: seq<Scored>)
    requires SortedDesc(rest) && forall i :: 0 <= i < |rest| ==> h.score >= rest[i].score
    ensures SortedDesc([h] + rest)
  {
    var r := [h] + rest;
    forall i, j | 0 <= i < j < |r| ensures r[i].score >= r[j].score {
      assert r[j] == rest[j - 1];
      if i > 0 { assert r[i] == rest[i - 1]; }
    }
  }

  /** `sort_values("score", ascending=False)`: descending, a permutation of the input. */
  function SortDesc(s: seq<Scored>): (r: seq<Scored>)
    ensures |r| == |s|
    ensures SortedDesc(r)
    ensures multiset(r) == multiset(s)
  {
    if s == [] then []
    else
      assert s == [s[0]] + s[1..];
      InsertDesc(s[0], SortDesc(s[1..]))
  }

  function Min(a: nat, b: nat): nat {
    if a <= b then a else b
  }

  /**
   * `top` is a top-k selection of `cands`: min(k, n) of them, in
   * non-increasing score order, and no omitted candidate outscores a kept one.
   */
  ghost predicate IsTopK(cands: seq<Scored>, top: seq<Scored>, k: nat) {
    && |top| == Min(k, |cands|)
    && SortedDesc(top)
    && multiset(top) <= multiset(cands)
    && forall x, y :: x in multiset(cands) - multiset(top) && y in top ==> x.score <= y.score
  }

  /** Cutting a descending sequence at m: nothing after the cut outscores anything before it. */
  lemma CutOfSorted(sorted: seq<Scored>, m: nat)
    requires SortedDesc(sorted) && m <= |sorted|
    ensures multiset(sorted) - multiset(sorted[..m]) == multiset(sorted[m..])
    ensures forall x, y :: x in multiset(sorted) - multiset(sorted[..m]) && y in sorted[..m] ==> x.score <= y.score
  {
    assert sorted == sorted[..m] + sorted[m..];
    assert multiset(sorted) == multiset(sorted[..m]) + multiset(sorted[m..]);
    forall x, y | x in multiset(sorted[m..]) && y in sorted[..m]
      ensures x.score <= y.score
    {
      var j :| m <= j < |sorted| && sorted[j] == x;
      var i :| 0 <= i < m && sorted[i] == y;
    }
  }

  /** A prefix of a descending sequence is descending and drawn from it. */
  lemma PrefixOfSorted(sorted: seq<Scored>, m: nat)
    requires SortedDesc(sorted) && m <= |sorted|
    ensures SortedDesc(sorted[..m])
    ensures multiset(sorted[..m]) <= multiset(sorted)
  {
    var top := sorted[..m];
    forall i, j | 0 <= i < j < |top| ensures top[i].score >= top[j].score {
      assert top[i] == sorted[i] && top[j] == sorted[j];
    }
    assert sorted == top + sorted[m..];
    assert multiset(sorted) == multiset(top) + multiset(sorted[m..]);
  }

  /** The first k of any descending permutation of the candidates are a top-k selection. */
  lemma PrefixIsTopK(cands: seq<Scored>, sorted: seq<Scored>, k: nat)
    requires |sorted| == |cands| && SortedDesc(sorted) && multiset(sorted) == multiset(cands)
    ensures IsTopK(cands, sorted[..Min(k, |cands|)], k)
  {
    var m := Min(k, |cands|);
    CutOfSorted(sorted, m);
    PrefixOfSorted(sorted, m);
  }

  /** A top-k selection holds only candidates. */
  lemma TopKDrawnFrom(cands: seq<Scored>, top: seq<Scored>, k: nat)
    requires IsTopK(cands, top, k)
    ensures forall j :: 0 <= j < |top| ==> top[j] in cands
  {
    forall j | 0 <= j < |top| ensures top[j] in cands {
      assert top[j] in multiset(top);
    }
  }

  /** The first k of the descending sort are a top-k selection. */
  lemma SortedPrefixIsTopK(cands: seq<Scored>, k: nat)
    ensures IsTopK(cands, SortDesc(cands)[..Min(k, |cands|)], k)
  {
    PrefixIsTopK(cands, SortDesc(cands), k);
  }
}
