/**
 * The deterministic part of `Mood2MusicAgent.recommend` (src/agent.py):
 * turning a parsed mood into search constraints, and attaching links to
 * the picks the language model returns. Both model calls are inputs here:
 * the parsed mood and the list of picks arrive as values.
 */
module Agent {
  import opened Wrappers
  import opened Text
  import opened Scoring
  import opened Catalog
  import Links
  import SpotifyClient

  /** The fields of the parsed mood that the search reads. */
  datatype ParsedMood = ParsedMood(valence: Option<string>, energy: string, tempoBpm: seq<real>)

  /** One entry of the model's `recommendations` list; either key may be missing. */
  datatype Pick = Pick(uri: Option<string>, reason: Option<string>)

  /** One entry of the returned `recommendations`. */
  datatype Recommendation = Recommendation(uri: Option<string>, reason: Option<string>, links: map<string, string>)

  /** The arguments `recommend` passes to `SeedCatalog.search`. */
  datatype SearchRequest = SearchRequest(k: nat, bpmRange: Option<(int, int)>, energyRange: Option<(real, real)>,
                                         valencePref: Option<string>)

  const MinCandidates: nat := 18
  const CandidatesPerPick: int := 3

  /** The energy level table, keyed by the lower-cased level. */
  const EnergyMap: map<string, (real, real)> :=
    map["low" := (0.0, 0.4), "medium" := (0.35, 0.7), "high" := (0.65, 1.0)]

  /** Python's `int()` on a number: truncation toward zero. */
  function Trunc(x: real): (n: int)
    ensures 0.0 <= x ==> n as real <= x < n as real + 1.0
    ensures x < 0.0 ==> n as real - 1.0 < x <= n as real
  {
    if 0.0 <= x then x.Floor else -((-x).Floor)
  }

  /** Truncation keeps whole numbers and commutes with negation. */
  lemma TruncProperties(x: real, m: int)
    ensures Trunc(m as real) == m
    ensures Trunc(-x) == -Trunc(x)
  {
  }

  /** The BPM range: both ends truncated, present exactly when the mood gives two values. */
  function BpmRange(tempoBpm: seq<real>): (r: Option<(int, int)>)
    ensures r.Some? <==> |tempoBpm| == 2
    ensures r.Some? ==> r.value == (Trunc(tempoBpm[0]), Trunc(tempoBpm[1]))
  {
    if |tempoBpm| == 2 then Some((Trunc(tempoBpm[0]), Trunc(tempoBpm[1]))) else None
  }

  /** The energy range for a level, looked up case-insensitively. */
  function EnergyRange(level: string): (r: Option<(real, real)>)
    ensures r.Some? <==> Lower(level) in {"low", "medium", "high"}
    ensures r.Some? ==> 0.0 <= r.value.0 < r.value.1 <= 1.0
  {
    var key := Lower(level);
    if key in EnergyMap then Some(EnergyMap[key]) else None
  }

  /** Upper and lower case spell the same level. */
  lemma EnergyRangeCaseInsensitive(level: string)
    ensures EnergyRange(level) == EnergyRange(Lower(level))
  {
    LowerIdempotent(level);
  }

  /** How many candidates the search is asked for: three per requested pick, at least 18. */
  function CandidateCount(k: int): (n: nat)
    ensures n >= MinCandidates && n >= CandidatesPerPick * k
    ensures n == MinCandidates || n == CandidatesPerPick * k
  {
    if k * CandidatesPerPick >= MinCandidates then k * CandidatesPerPick else MinCandidates
  }

  /** The search constraints derived from a parsed mood; tags are never passed. */
  function Constraints(parsed: ParsedMood, k: int): (req: SearchRequest)
    ensures req.k >= MinCandidates && req.k >= CandidatesPerPick * k
    ensures req.k == MinCandidates || req.k == CandidatesPerPick * k
    ensures req.bpmRange.Some? <==> |parsed.tempoBpm| == 2
    ensures req.bpmRange.Some? ==> req.bpmRange.value == (Trunc(parsed.tempoBpm[0]), Trunc(parsed.tempoBpm[1]))
    ensures req.energyRange.Some? <==> Lower(parsed.energy) in EnergyMap
    ensures req.energyRange.Some? ==> req.energyRange.value == EnergyMap[Lower(parsed.energy)]
    ensures req.valencePref == parsed.valence
  {
    SearchRequest(CandidateCount(k), BpmRange(parsed.tempoBpm), EnergyRange(parsed.energy), parsed.valence)
  }

  /** An energy level steers the energy target into its own range, inside [0, 1]. */
  lemma EnergyTargetOfLabel(level: string, median: real)
    ensures EnergyRange(level).Some? ==>
      var (lo, hi) := EnergyRange(level).value;
      var t := EnergyTarget(EnergyRange(level), median);
      0.0 <= lo <= t <= hi <= 1.0
    ensures EnergyRange(level).None? ==> EnergyTarget(EnergyRange(level), median) == median
  {
  }

  /** The recommendation for one pick: the pick's own fields plus the links of its uri. */
  function Recommend1(p: Pick): Recommendation {
    Recommendation(p.uri, p.reason, Links.MkLinksFromUri(p.uri))
  }

  /** The "Attach links" loop: one recommendation per pick, in the model's order. */
  method AttachLinks(reply: Option<seq<Pick>>) returns (recs: seq<Recommendation>)
    ensures |recs| == |reply.GetOr([])|
    ensures forall i :: 0 <= i < |recs| ==> recs[i] == Recommend1(reply.GetOr([])[i])
    ensures forall i :: 0 <= i < |recs| && "spotify" in recs[i].links ==>
      SpotifyClient.ExtractTrackId(recs[i].links["spotify"]).Some?
  {
    var picks := reply.GetOr([]);
    recs := [];
    for i := 0 to |picks|
      invariant |recs| == i
      invariant forall j :: 0 <= j < i ==> recs[j] == Recommend1(picks[j])
    {
      var uri := picks[i].uri;
      recs := recs + [Recommendation(uri, picks[i].reason, Links.MkLinksFromUri(uri))];
    }
    forall i | 0 <= i < |recs| && "spotify" in recs[i].links
      ensures SpotifyClient.ExtractTrackId(recs[i].links["spotify"]).Some?
    {
      SpotifyClient.DerivedLinkHasId(picks[i].uri);
    }
  }

  /**
   * `recommend` with both model calls as inputs: searches the catalog with
   * the derived constraints and returns the seeds offered to the model and
   * the recommendations built from its reply.
   */
  method Recommend(catalog: SeedCatalog, parsed: ParsedMood, k: int, kernel: (real, real) -> real,
                   reply: Option<seq<Pick>>) returns (seeds: seq<Hit>, recs: seq<Recommendation>)
    requires catalog.Valid() && IsKernel(kernel)
    ensures var q := Constraints(parsed, k);
      IsTopK(Candidates(catalog.rows,
                        ResolveTargets(catalog.rows, catalog.tempoLo, catalog.tempoHi, q.bpmRange, q.energyRange, q.valencePref),
                        q.bpmRange, q.energyRange, kernel),
             Ranking(seeds), q.k)
    ensures |seeds| == Min(CandidateCount(k), |catalog.rows|)
    ensures |seeds| >= Min(MinCandidates, |catalog.rows|)
    ensures |recs| == |reply.GetOr([])|
    ensures forall i :: 0 <= i < |recs| ==> recs[i] == Recommend1(reply.GetOr([])[i])
  {
    var q := Constraints(parsed, k);
    seeds := catalog.Search(q.k, q.bpmRange, q.energyRange, q.valencePref, kernel);
    recs := AttachLinks(reply);
  }
}
