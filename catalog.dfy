/**
 * `SeedCatalog` of src/music_suggester.py: load-time normalisation of the
 * track table and the `search` ranking over it.
 *
 * The CSV read is left to the caller: a table arrives as its set of column
 * names and one RawRow per line, where None is a missing cell or a value
 * `pd.to_numeric(errors="coerce")` could not read.
 */
module Catalog {
  import opened Wrappers
  import opened Stats
  import opened Scoring
  import Links

  const RequiredColumns: seq<string> := ["uri", "tempo", "energy", "valence", "danceability"]
  /** Tempo used when no row has a tempo. */
  const FallbackTempo: real := 120.0
  /** Fill value of the bounded features. */
  const NeutralFeature: real := 0.5

  datatype RawRow = RawRow(uri: Option<string>, tempo: Option<real>, energy: Option<real>,
                           valence: Option<real>, danceability: Option<real>)

  datatype RawTable = RawTable(columns: set<string>, rows: seq<RawRow>)

  /** A normalised row; `tempoNorm` is the derived `tempo_norm` column. */
  datatype Row = Row(uri: Option<string>, tempo: real, energy: real, valence: real,
                     danceability: real, tempoNorm: real)

  /** One row of the search result: its table index, the row, its score and `spotify_url`. */
  datatype Hit = Hit(index: nat, row: Row, score: real, spotifyUrl: Option<string>)

  /** The first required column that the table lacks, in the order they are checked. */
  function MissingColumn(columns: set<string>): (r: Option<string>)
    ensures r.None? <==> forall i :: 0 <= i < |RequiredColumns| ==> RequiredColumns[i] in columns
    ensures r.Some? ==> r.value !in columns
    ensures r.Some? ==> exists i :: (0 <= i < |RequiredColumns| && RequiredColumns[i] == r.value
      && forall j :: 0 <= j < i ==> RequiredColumns[j] in columns)
  {
    match FirstAbsent(RequiredColumns, columns, 0)
    case None => None
    case Some(i) => Some(RequiredColumns[i])
  }

  /** The position of the first name at or after `from` that is not a column. */
  function FirstAbsent(names: seq<string>, columns: set<string>, from: nat): (r: Option<nat>)
    requires from <= |names|
    ensures r.None? <==> forall i :: from <= i < |names| ==> names[i] in columns
    ensures r.Some? ==> from <= r.value < |names| && names[r.value] !in columns
    ensures r.Some? ==> forall j :: from <= j < r.value ==> names[j] in columns
    decreases |names| - from
  {
    if from == |names| then None
    else if names[from] !in columns then Some(from)
    else FirstAbsent(names, columns, from + 1)
  }

  function TempoColumn(raw: seq<RawRow>): seq<Option<real>> {
    seq(|raw|, i requires 0 <= i < |raw| => raw[i].tempo)
  }

  /** The values present in a column, in row order (what pandas' median skips NaN to). */
  function Present(col: seq<Option<real>>): (r: seq<real>)
    ensures r == [] <==> forall i :: 0 <= i < |col| ==> col[i].None?
    ensures forall i :: 0 <= i < |col| && col[i].Some? ==> col[i].value in r
  {
    if col == [] then []
    else
      var rest := Present(col[..|col| - 1]);
      assert forall i :: 0 <= i < |col| - 1 ==> col[..|col| - 1][i] == col[i];
      match col[|col| - 1]
      case Some(x) => rest + [x]
      case None => rest
  }

  /** The present values are exactly those of the column: each as often as it occurs there. */
  lemma {:induction false} PresentCounts(col: seq<Option<real>>)
    ensures forall x :: multiset(Present(col))[x] == multiset(col)[Some(x)]
  {
    if col != [] {
      var init, last := col[..|col| - 1], col[|col| - 1];
      PresentCounts(init);
      assert col == init + [last];
      assert multiset(col) == multiset(init) + multiset{last};
      match last {
        case Some(v) =>
          assert Present(col) == Present(init) + [v];
          assert multiset(Present(col)) == multiset(Present(init)) + multiset{v};
        case None =>
          assert Present(col) == Present(init);
      }
    }
  }

  /** The value a missing tempo takes: the median of the present tempos, or 120.0. */
  function TempoFill(col: seq<Option<real>>): (fill: real)
    ensures Present(col) == [] ==> fill == FallbackTempo
    ensures Present(col) != [] ==> SeqMin(Present(col)) <= fill <= SeqMax(Present(col))
  {
    var present := Present(col);
    if present == [] then FallbackTempo else Median(present)
  }

  /** A bounded feature after `fillna(0.5).clip(0.0, 1.0)`. */
  function Bounded(x: Option<real>): (v: real)
    ensures 0.0 <= v <= 1.0
    ensures x.None? ==> v == NeutralFeature
    ensures x.Some? && 0.0 <= x.value <= 1.0 ==> v == x.value
  {
    Clip(x.GetOr(NeutralFeature), 0.0, 1.0)
  }

  /** The present values of a column, gathered in row order. */
  method GatherPresent(col: seq<Option<real>>) returns (present: seq<real>)
    ensures present == Present(col)
    ensures forall x :: multiset(present)[x] == multiset(col)[Some(x)]
  {
    present := [];
    var i := 0;
    while i < |col|
      invariant 0 <= i <= |col|
      invariant present == Present(col[..i])
    {
      assert col[..i + 1][..i] == col[..i];
      match col[i] {
        case Some(x) => present := present + [x];
        case None =>
      }
      i := i + 1;
    }
    assert col[..|col|] == col;
    PresentCounts(col);
  }

  /** Every present value lies between the smallest and the largest present value. */
  lemma PresentBounds(col: seq<Option<real>>)
    requires Present(col) != []
    ensures forall j :: 0 <= j < |col| && col[j].Some? ==>
      SeqMin(Present(col)) <= col[j].value <= SeqMax(Present(col))
  {
    forall j | 0 <= j < |col| && col[j].Some?
      ensures SeqMin(Present(col)) <= col[j].value <= SeqMax(Present(col))
    {
      assert col[j].value in Present(col);
    }
  }

  /** The tempo column pass: coerce, then fill from the median or with 120.0. */
  method FillTempo(col: seq<Option<real>>) returns (tempo: seq<real>)
    ensures |tempo| == |col|
    ensures forall i :: 0 <= i < |col| && col[i].Some? ==> tempo[i] == col[i].value
    ensures forall i :: 0 <= i < |col| && col[i].None? ==> tempo[i] == TempoFill(col)
    ensures Present(col) == [] ==> forall i :: 0 <= i < |col| ==> tempo[i] == FallbackTempo
    ensures Present(col) != [] ==> forall i :: 0 <= i < |col| ==>
      SeqMin(Present(col)) <= tempo[i] <= SeqMax(Present(col))
  {
    var present := GatherPresent(col);
    var fill := if present == [] then FallbackTempo else Median(present);
    assert fill == TempoFill(col);
    tempo := FillMissing(col, fill);
    if present != [] {
      PresentBounds(col);
      forall i | 0 <= i < |col| ensures SeqMin(present) <= tempo[i] <= SeqMax(present) {
        assert tempo[i] == col[i].GetOr(fill);
      }
    }
  }

  /** `fillna(fill)`: present values are kept, missing ones become `fill`. */
  method FillMissing(col: seq<Option<real>>, fill: real) returns (out: seq<real>)
    ensures |out| == |col|
    ensures forall i :: 0 <= i < |col| ==> out[i] == col[i].GetOr(fill)
  {
    out := [];
    var i := 0;
    while i < |col|
      invariant 0 <= i <= |col| && |out| == i
      invariant forall j :: 0 <= j < i ==> out[j] == col[j].GetOr(fill)
    {
      out := out + [col[i].GetOr(fill)];
      i := i + 1;
    }
  }

  /** The pass over one bounded feature column: `fillna(0.5).clip(0.0, 1.0)`. */
  method FillBounded(col: seq<Option<real>>) returns (out: seq<real>)
    ensures |out| == |col|
    ensures forall i :: 0 <= i < |col| ==> out[i] == Bounded(col[i])
    ensures forall i :: 0 <= i < |col| ==> 0.0 <= out[i] <= 1.0
  {
    out := [];
    var i := 0;
    while i < |col|
      invariant 0 <= i <= |col| && |out| == i
      invariant forall j :: 0 <= j < i ==> out[j] == Bounded(col[j])
    {
      var v := col[i].GetOr(NeutralFeature);
      out := out + [Clip(v, 0.0, 1.0)];
      i := i + 1;
    }
  }

  /**
   * `t_lo, t_hi` from the tempo column, with `t_hi` bumped by 1e-6 when
   * all tempos are equal. pandas yields NaN for an empty column; here the
   * empty table gets 0.0 and 1e-6, which no row ever reads.
   */
  method TempoBounds(tempo: seq<real>) returns (lo: real, hi: real)
    ensures lo < hi
    ensures forall i :: 0 <= i < |tempo| ==> lo <= tempo[i] <= hi
    ensures |tempo| > 0 ==> lo == SeqMin(tempo)
    ensures |tempo| > 0 ==> hi == if SeqMin(tempo) == SeqMax(tempo) then SeqMin(tempo) + Eps else SeqMax(tempo)
  {
    if |tempo| == 0 {
      return 0.0, Eps;
    }
    lo, hi := tempo[0], tempo[0];
    var i := 1;
    while i < |tempo|
      invariant 1 <= i <= |tempo|
      invariant lo == SeqMin(tempo[..i]) && hi == SeqMax(tempo[..i])
    {
      ExtendBounds(tempo, i);
      if tempo[i] < lo { lo := tempo[i]; }
      if tempo[i] > hi { hi := tempo[i]; }
      i := i + 1;
    }
    assert tempo[..|tempo|] == tempo;
    if lo == hi {
      hi := lo + Eps;
    }
  }

  lemma ExtendBounds(s: seq<real>, i: nat)
    requires 1 <= i < |s|
    ensures SeqMin(s[..i + 1]) == if s[i] < SeqMin(s[..i]) then s[i] else SeqMin(s[..i])
    ensures SeqMax(s[..i + 1]) == if s[i] > SeqMax(s[..i]) then s[i] else SeqMax(s[..i])
  {
    var p := s[..i + 1];
    assert p[..|p| - 1] == s[..i];
  }

  /** The `tempo_norm` column. */
  method NormaliseTempo(tempo: seq<real>, lo: real, hi: real) returns (norm: seq<real>)
    requires lo < hi
    ensures |norm| == |tempo|
    ensures forall i :: 0 <= i < |tempo| ==> norm[i] == TempoNorm(tempo[i], lo, hi)
    ensures forall i :: 0 <= i < |tempo| && lo <= tempo[i] <= hi ==> 0.0 <= norm[i] <= 1.0
  {
    norm := [];
    var i := 0;
    while i < |tempo|
      invariant 0 <= i <= |tempo| && |norm| == i
      invariant forall j :: 0 <= j < i ==> norm[j] == TempoNorm(tempo[j], lo, hi)
    {
      norm := norm + [TempoNorm(tempo[i], lo, hi)];
      i := i + 1;
    }
  }

  /** `(tempo - t_lo) / (t_hi - t_lo)`: a tempo within the bounds lands in [0, 1]. */
  function TempoNorm(tempo: real, lo: real, hi: real): (n: real)
    requires lo < hi
    ensures lo <= tempo <= hi ==> 0.0 <= n <= 1.0
    ensures tempo == lo ==> n == 0.0
    ensures tempo == hi ==> n == 1.0
  {
    var n := (tempo - lo) / (hi - lo);
    assert n * (hi - lo) == tempo - lo;
    n
  }

  /** What holds of every row once the catalog is built. */
  ghost predicate RowValid(r: Row, lo: real, hi: real) {
    && 0.0 <= r.energy <= 1.0 && 0.0 <= r.valence <= 1.0 && 0.0 <= r.danceability <= 1.0
    && lo <= r.tempo <= hi
    && 0.0 <= r.tempoNorm <= 1.0
  }

  function Tempos(rows: seq<Row>): seq<real> {
    seq(|rows|, i requires 0 <= i < |rows| => rows[i].tempo)
  }

  function Energies(rows: seq<Row>): seq<real> {
    seq(|rows|, i requires 0 <= i < |rows| => rows[i].energy)
  }

  /** The three targets of a search, resolved against the catalog's columns. */
  function ResolveTargets(rows: seq<Row>, lo: real, hi: real, bpmRange: Option<(int, int)>,
                          energyRange: Option<(real, real)>, valencePref: Option<string>): (t: Targets)
    requires lo <= hi
    ensures t.tempo == TempoTarget(bpmRange, Median(Tempos(rows)), lo, hi)
    ensures energyRange.Some? ==> t.energy == (energyRange.value.0 + energyRange.value.1) / 2.0
    ensures energyRange.None? ==> t.energy == Median(Energies(rows))
    ensures t.valence == ValenceTarget(valencePref)
  {
    Targets(TempoTarget(bpmRange, Median(Tempos(rows)), lo, hi),
            EnergyTarget(energyRange, Median(Energies(rows))),
            ValenceTarget(valencePref))
  }

  /** The weighted alignment sum of a row times its soft range factor. */
  function RowScore(r: Row, t: Targets, bpmRange: Option<(int, int)>, energyRange: Option<(real, real)>,
                    kernel: (real, real) -> real): (s: real)
    requires IsKernel(kernel)
    ensures 0.0 < s <= 1.0
  {
    Score(r.tempoNorm, r.tempo, r.energy, r.valence, r.danceability, t, bpmRange, energyRange, kernel)
  }

  /**
   * Resolved against a catalog's own rows, the targets the medians supply
   * lie in the unit interval: the tempo one in [0, 1), the energy one in [0, 1].
   */
  lemma TargetsInUnit(rows: seq<Row>, lo: real, hi: real, bpmRange: Option<(int, int)>,
                      energyRange: Option<(real, real)>, valencePref: Option<string>)
    requires lo < hi && |rows| > 0
    requires forall i :: 0 <= i < |rows| ==> RowValid(rows[i], lo, hi)
    ensures var t := ResolveTargets(rows, lo, hi, bpmRange, energyRange, valencePref);
      && (bpmRange.None? ==> 0.0 <= t.tempo < 1.0)
      && (energyRange.None? ==> 0.0 <= t.energy <= 1.0)
      && 0.0 < t.valence < 1.0
  {
    MedianWithin(Tempos(rows), lo, hi);
    MedianWithin(Energies(rows), 0.0, 1.0);
  }

  /**
   * Of two rows that differ only in energy, the one inside the energy range
   * scores strictly higher than the one outside it. The search puts the
   * energy target at the range's midpoint (`ResolveTargets`), so the row
   * inside is no farther from it, and it escapes the 0.85 penalty.
   */
  lemma EnergyInRangeScoresHigher(t: Targets, bpmRange: Option<(int, int)>, eLo: real, eHi: real,
                                  r: Row, eOut: real, kernel: (real, real) -> real)
    requires IsKernel(kernel) && t.energy == (eLo + eHi) / 2.0
    requires eLo <= r.energy <= eHi && !(eLo <= eOut <= eHi)
    ensures RowScore(r.(energy := eOut), t, bpmRange, Some((eLo, eHi)), kernel)
          < RowScore(r, t, bpmRange, Some((eLo, eHi)), kernel)
  {
    EnergyRangeFavours(r.tempoNorm, r.energy, eOut, r.valence, r.danceability, r.tempo,
                       t, bpmRange, eLo, eHi, kernel);
  }

  /** Every row of the table with its score, in table order. */
  function Candidates(rows: seq<Row>, t: Targets, bpmRange: Option<(int, int)>, energyRange: Option<(real, real)>,
                      kernel: (real, real) -> real): (c: seq<Scored>)
    requires IsKernel(kernel)
    ensures |c| == |rows|
    ensures forall i :: 0 <= i < |c| ==> c[i].index == i && 0.0 < c[i].score <= 1.0
  {
    seq(|rows|, i requires 0 <= i < |rows| => Scored(i, RowScore(rows[i], t, bpmRange, energyRange, kernel)))
  }

  lemma CandidateBounds(rows: seq<Row>, t: Targets, bpmRange: Option<(int, int)>, energyRange: Option<(real, real)>,
                        kernel: (real, real) -> real, x: Scored)
    requires IsKernel(kernel) && x in Candidates(rows, t, bpmRange, energyRange, kernel)
    ensures x.index < |rows| && 0.0 < x.score <= 1.0
  {
    var c := Candidates(rows, t, bpmRange, energyRange, kernel);
    var i :| 0 <= i < |c| && c[i] == x;
  }

  /** The (index, score) pairs of a search result, in result order. */
  function Ranking(hits: seq<Hit>): (r: seq<Scored>)
    ensures |r| == |hits|
  {
    seq(|hits|, i requires 0 <= i < |hits| => Scored(hits[i].index, hits[i].score))
  }

  /** One row's score: the weighted alignment sum, times 0.85 per supplied range it breaks. */
  method ScoreRow(r: Row, t: Targets, bpmRange: Option<(int, int)>, energyRange: Option<(real, real)>,
                  kernel: (real, real) -> real) returns (s: real)
    requires IsKernel(kernel)
    ensures s == RowScore(r, t, bpmRange, energyRange, kernel)
  {
    var blend := Blend(r.tempoNorm, r.energy, r.valence, r.danceability, t, kernel);
    var soft := 1.0;
    if bpmRange.Some? {
      var (lo, hi) := bpmRange.value;
      soft := soft * (if lo as real <= r.tempo && r.tempo <= hi as real then 1.0 else OutOfRangeFactor);
    }
    if energyRange.Some? {
      var (lo, hi) := energyRange.value;
      soft := soft * (if lo <= r.energy && r.energy <= hi then 1.0 else OutOfRangeFactor);
    }
    assert soft == SoftFactor(r.tempo, r.energy, bpmRange, energyRange);
    s := blend * soft;
  }

  /** The `score` column: every row scored, in table order. */
  method ScoreAll(rows: seq<Row>, t: Targets, bpmRange: Option<(int, int)>, energyRange: Option<(real, real)>,
                  kernel: (real, real) -> real) returns (scored: seq<Scored>)
    requires IsKernel(kernel)
    ensures scored == Candidates(rows, t, bpmRange, energyRange, kernel)
  {
    ghost var cands := Candidates(rows, t, bpmRange, energyRange, kernel);
    scored := [];
    var i := 0;
    while i < |rows|
      invariant 0 <= i <= |rows|
      invariant scored == cands[..i]
    {
      var s := ScoreRow(rows[i], t, bpmRange, energyRange, kernel);
      scored := scored + [Scored(i, s)];
      i := i + 1;
    }
    assert cands[..|rows|] == cands;
  }

  /** The selected rows, in ranking order, each with its `spotify_url`. */
  method AttachUrls(rows: seq<Row>, top: seq<Scored>) returns (hits: seq<Hit>)
    requires forall j :: 0 <= j < |top| ==> top[j].index < |rows|
    ensures Ranking(hits) == top
    ensures forall m :: 0 <= m < |hits| ==> hits[m].index < |rows| && hits[m].row == rows[hits[m].index]
    ensures forall m :: 0 <= m < |hits| ==> hits[m].spotifyUrl == Links.SpotifyLinkFromUri(hits[m].row.uri)
  {
    hits := [];
    var j := 0;
    while j < |top|
      invariant 0 <= j <= |top| && |hits| == j
      invariant forall m :: 0 <= m < j ==> hits[m].index == top[m].index && hits[m].score == top[m].score
      invariant forall m :: 0 <= m < j ==> hits[m].index < |rows| && hits[m].row == rows[hits[m].index]
      invariant forall m :: 0 <= m < j ==> hits[m].spotifyUrl == Links.SpotifyLinkFromUri(hits[m].row.uri)
    {
      var s := top[j];
      var row := rows[s.index];
      hits := hits + [Hit(s.index, row, s.score, Links.SpotifyLinkFromUri(row.uri))];
      j := j + 1;
    }
    assert forall m :: 0 <= m < |top| ==> Ranking(hits)[m] == top[m];
  }

  /** Score, sort descending, keep the first k, attach links. */
  method Rank(rows: seq<Row>, t: Targets, k: nat, bpmRange: Option<(int, int)>, energyRange: Option<(real, real)>,
              kernel: (real, real) -> real) returns (hits: seq<Hit>)
    requires IsKernel(kernel)
    ensures IsTopK(Candidates(rows, t, bpmRange, energyRange, kernel), Ranking(hits), k)
    ensures forall i :: 0 <= i < |hits| ==> hits[i].index < |rows| && hits[i].row == rows[hits[i].index]
    ensures forall i :: 0 <= i < |hits| ==> 0.0 < hits[i].score <= 1.0
    ensures forall i :: 0 <= i < |hits| ==> hits[i].spotifyUrl == Links.SpotifyLinkFromUri(hits[i].row.uri)
  {
    var scored := ScoreAll(rows, t, bpmRange, energyRange, kernel);
    var sorted := SortDesc(scored);
    var top := sorted[..Min(k, |sorted|)];
    SortedPrefixIsTopK(scored, k);
    TopKDrawnFrom(scored, top, k);
    forall j | 0 <= j < |top| ensures top[j].index < |rows| && 0.0 < top[j].score <= 1.0 {
      CandidateBounds(rows, t, bpmRange, energyRange, kernel, top[j]);
    }
    hits := AttachUrls(rows, top);
    forall m | 0 <= m < |hits| ensures 0.0 < hits[m].score <= 1.0 {
      assert Ranking(hits)[m] == top[m];
    }
  }

  /**
   * `rows`, `lo` and `hi` are what `__init__` makes of the raw table: every
   * uri kept, a missing tempo filled, the other features filled and clipped,
   * tempo bounds from the filled column (widened by 1e-6 when flat) and each
   * row's normalised tempo.
   */
  ghost predicate Normalised(raw: seq<RawRow>, rows: seq<Row>, lo: real, hi: real) {
    && lo < hi
    && |rows| == |raw|
    && (forall i :: 0 <= i < |rows| ==> RowValid(rows[i], lo, hi))
    && (forall i :: 0 <= i < |rows| ==> rows[i].uri == raw[i].uri)
    && (forall i :: 0 <= i < |rows| ==> raw[i].tempo.Some? ==> rows[i].tempo == raw[i].tempo.value)
    && (forall i :: 0 <= i < |rows| ==> raw[i].tempo.None? ==> rows[i].tempo == TempoFill(TempoColumn(raw)))
    && (forall i :: 0 <= i < |rows| ==>
          && rows[i].energy == Bounded(raw[i].energy)
          && rows[i].valence == Bounded(raw[i].valence)
          && rows[i].danceability == Bounded(raw[i].danceability))
    && (forall i :: 0 <= i < |rows| ==> rows[i].tempoNorm == TempoNorm(rows[i].tempo, lo, hi))
    && (|rows| > 0 ==> lo == SeqMin(Tempos(rows)))
    && (|rows| > 0 ==> hi == if SeqMin(Tempos(rows)) == SeqMax(Tempos(rows)) then lo + Eps else SeqMax(Tempos(rows)))
  }

  /** The normalisation of `__init__` on the rows of a table with all required columns. */
  method NormaliseTable(raw: seq<RawRow>) returns (rows: seq<Row>, lo: real, hi: real)
    ensures Normalised(raw, rows, lo, hi)
  {
    var tempoCol := TempoColumn(raw);
    var tempo := FillTempo(tempoCol);
    var energy := FillBounded(EnergyColumn(raw));
    var valence := FillBounded(ValenceColumn(raw));
    var dance := FillBounded(DanceColumn(raw));
    lo, hi := TempoBounds(tempo);
    var norm := NormaliseTempo(tempo, lo, hi);
    rows := Assemble(raw, tempo, energy, valence, dance, norm);
    forall i | 0 <= i < |raw|
      ensures RowValid(rows[i], lo, hi)
      ensures rows[i].tempoNorm == TempoNorm(rows[i].tempo, lo, hi)
    {
      assert rows[i].tempo == tempo[i] && rows[i].tempoNorm == norm[i];
    }
    forall i | 0 <= i < |raw| ensures raw[i].tempo.Some? ==> rows[i].tempo == raw[i].tempo.value
      ensures raw[i].tempo.None? ==> rows[i].tempo == TempoFill(tempoCol)
    {
      assert tempoCol[i] == raw[i].tempo;
    }
  }

  function EnergyColumn(raw: seq<RawRow>): seq<Option<real>> {
    seq(|raw|, i requires 0 <= i < |raw| => raw[i].energy)
  }

  function ValenceColumn(raw: seq<RawRow>): seq<Option<real>> {
    seq(|raw|, i requires 0 <= i < |raw| => raw[i].valence)
  }

  function DanceColumn(raw: seq<RawRow>): seq<Option<real>> {
    seq(|raw|, i requires 0 <= i < |raw| => raw[i].danceability)
  }

  /** The rows of the normalised frame, one per table row. */
  function Assemble(raw: seq<RawRow>, tempo: seq<real>, energy: seq<real>, valence: seq<real>, dance: seq<real>,
                    norm: seq<real>): (rows: seq<Row>)
    requires |tempo| == |energy| == |valence| == |dance| == |norm| == |raw|
    ensures |rows| == |raw| && Tempos(rows) == tempo
    ensures forall i :: 0 <= i < |raw| ==> rows[i] == Row(raw[i].uri, tempo[i], energy[i], valence[i], dance[i], norm[i])
  {
    var rows := seq(|raw|, i requires 0 <= i < |raw| => Row(raw[i].uri, tempo[i], energy[i], valence[i], dance[i], norm[i]));
    assert Tempos(rows) == tempo;
    rows
  }

  class SeedCatalog {
    var rows: seq<Row>
    var tempoLo: real
    var tempoHi: real

    ghost predicate Valid()
      reads this
    {
      && tempoLo < tempoHi
      && forall i :: 0 <= i < |rows| ==> RowValid(rows[i], tempoLo, tempoHi)
    }

    /** The normalisation of `__init__`, once the required columns are known to be present. */
    constructor (table: RawTable)
      requires MissingColumn(table.columns).None?
      ensures Valid()
      ensures Normalised(table.rows, rows, tempoLo, tempoHi)
    {
      var normalised, lo, hi := NormaliseTable(table.rows);
      rows := normalised;
      tempoLo, tempoHi := lo, hi;
    }

    /** `SeedCatalog(path)`: fails with the first missing required column, else normalises. */
    static method Load(table: RawTable) returns (r: Result<SeedCatalog, string>)
      ensures r.Failure? <==> MissingColumn(table.columns).Some?
      ensures r.Failure? ==> r.error == "Missing required column: " + MissingColumn(table.columns).value
      ensures r.Success? ==> fresh(r.value) && r.value.Valid() && |r.value.rows| == |table.rows|
      ensures r.Success? ==> Normalised(table.rows, r.value.rows, r.value.tempoLo, r.value.tempoHi)
    {
      match MissingColumn(table.columns) {
        case Some(col) =>
          return Failure("Missing required column: " + col);
        case None =>
          var c := new SeedCatalog(table);
          return Success(c);
      }
    }

    /**
     * `search`: score every row, sort by descending score, keep the first k
     * and attach each row's Spotify link. Nothing of the catalog changes.
     */
    method Search(k: nat, bpmRange: Option<(int, int)>, energyRange: Option<(real, real)>,
                  valencePref: Option<string>, kernel: (real, real) -> real) returns (hits: seq<Hit>)
      requires Valid() && IsKernel(kernel)
      ensures IsTopK(Candidates(rows, ResolveTargets(rows, tempoLo, tempoHi, bpmRange, energyRange, valencePref),
                                bpmRange, energyRange, kernel), Ranking(hits), k)
      ensures forall i :: 0 <= i < |hits| ==> hits[i].index < |rows| && hits[i].row == rows[hits[i].index]
      ensures forall i :: 0 <= i < |hits| ==> 0.0 < hits[i].score <= 1.0
      ensures forall i :: 0 <= i < |hits| ==> hits[i].spotifyUrl == Links.SpotifyLinkFromUri(hits[i].row.uri)
    {
      var t := ResolveTargets(rows, tempoLo, tempoHi, bpmRange, energyRange, valencePref);
      hits := Rank(rows, t, k, bpmRange, energyRange, kernel);
    }
  }
}
