# mood2music seed catalog, in Dafny

mood2music turns a free-text mood into track recommendations. A language
model parses the mood into fields (valence, energy label, BPM range). The
`SeedCatalog` ranks a numeric track table against those fields. A second
model call picks tracks from the shortlist, and each pick gets a Spotify
link. This project models the deterministic core of that pipeline:

- `Links`: `spotify_link_from_uri` and `mk_links_from_uri`. The URI regex
  is written out as a leftmost search over start positions, with the two
  alternatives tried in order and a greedy alphanumeric capture. The bare
  22-character id fallback is included.
- `Catalog`: the `SeedCatalog` class.
  - `Load` checks the required columns and fails on the first missing
    one.
  - The constructor does the load-time normalisation of a table that has
    them: tempo fill by median or 120, energy, valence and danceability
    filled with 0.5 and clipped to [0, 1], tempo bounds with the 1e-6
    guard, and `tempo_norm`.
  - `Search` resolves the three targets, scores every row and keeps the
    top k by descending score. Each kept row gets its link.
- `Scoring`: the alignment kernel, the targets, the soft range penalty,
  the weighted score, and a specification of "the top k by score"
  (`IsTopK`) proved for a stable descending sort.
- `Stats`: minimum, maximum and the pandas-style median of a column.
- `SpotifyClient`: the track-id extraction that `get_track_info` performs
  before any request is made.
- `Agent`: how `recommend` derives the search constraints from a parsed
  mood, and the loop that attaches links to the model's picks.
- `Text` and `Wrappers`: supporting pieces.
  - ASCII lower-casing.
  - Substring search.
  - The first and last pieces of Python's `str.split`.
  - `Option` and `Result`.

The Gaussian kernel `exp(-(d/b)^2)` is a function parameter `kernel`,
constrained by `IsKernel`:

- it equals 1 at distance 0;
- it lies in (0, 1] on [0, 1];
- it does not increase with distance.

Every score property is proved for every such kernel. Numbers are exact
reals.

`search` scores four features (tempo, energy, valence, danceability) with
weights 0.35/0.30/0.25/0.10, and adds no bonus of any kind. `__init__`
raises `ValueError` when one of `uri`, `tempo`, `energy`, `valence`,
`danceability` is missing.

## Model

| member | source | states |
|---|---|---|
| Links.SpotifyLinkFromUri | src/music_suggester.py:11-21 | A missing or empty uri gives no link. Every link produced is `https://open.spotify.com/track/` followed by a non-empty alphanumeric id. |
| Links.MatchAt | src/music_suggester.py:8 | The alternation at one position matches exactly when one of its alternatives does. The alternatives are tried in order: `spotify:track:` wins when it matches, else `https://`, else `http://` decides the result. The capture is a non-empty alphanumeric run. |
| Links.FirstMatch | src/music_suggester.py:8 | The regex search finds the leftmost position where either alternative matches, and no match exists before it. None means no position matches. |
| Links.CaptureAt | src/music_suggester.py:8 | An alternative matches at i exactly when its prefix occurs there and an alphanumeric character follows. The capture is the maximal alphanumeric run after the prefix. |
| Links.AlnumRun | src/music_suggester.py:8 | The `[A-Za-z0-9]+` run starting at i is alphanumeric and maximal: it ends at the end of the string or before a non-alphanumeric character. |
| Links.LinkFromFirstMatch | src/music_suggester.py:14-21 | When a match exists, the leftmost match alone decides the link, whatever follows it. |
| Links.LinkWithoutMatch | src/music_suggester.py:15-19 | Without a match, the link exists exactly when the uri is 22 alphanumeric characters. |
| Links.AlnumNeverMatches | src/music_suggester.py:8 | An all-alphanumeric string contains no match of either alternative, since both prefixes need ':' or '/'. |
| Links.ColonFreeNeverMatches | src/music_suggester.py:8 | Every alternative has a ':' at a fixed offset, so a string without ':' matches nowhere. |
| Links.BareIdLink | src/music_suggester.py:17-18 | A bare 22-character alphanumeric id becomes the canonical link with that id. |
| Links.NoLinkForOtherStrings | src/music_suggester.py:15-19 | A string with no match that is not a bare id gets no link. |
| Links.CaptureWholeTail | src/music_suggester.py:8 | After a matching prefix, an alphanumeric id running to the end of the string is captured whole. |
| Links.SchemeUriLink | src/music_suggester.py:8-21 | `spotify:track:<id>` maps to the canonical link of the same id. |
| Links.HttpLinkUpgrades | src/music_suggester.py:8-21 | `http://open.spotify.com/track/<id>` maps to the `https://` link of the same id. |
| Links.CanonicalLinkIsFixpoint | src/music_suggester.py:8-21 | A canonical link maps to itself. |
| Links.LinkIdempotent | src/music_suggester.py:11-21 | Deriving a link from a derived link gives the same link back. |
| Links.MkLinksFromUri | src/music_suggester.py:122-125 | The map has key "spotify" exactly when a link exists, and its value is that link. The map has no other key. |
| Text.Lower | src/music_suggester.py:93 | Lower-casing keeps the length and lower-cases each character. |
| Text.IndexOf | src/spotify_client.py:35 | The first occurrence at or after `from`, and None only when there is none. |
| Text.LastPiece | src/spotify_client.py:34 | `split(sep)[-1]` is a suffix that contains no separator. It follows the last separator, or it is the whole string when there is no separator. |
| Text.FirstPiece | src/spotify_client.py:36 | `split(sep)[0]` is a prefix that contains no separator. It is the whole string or ends just before the first separator. |
| Stats.SeqMin | src/music_suggester.py:60 | The column minimum is an element and no element is smaller. |
| Stats.SeqMax | src/music_suggester.py:60 | The column maximum is an element and no element is larger. |
| Stats.SortAsc | src/music_suggester.py:53 | The ascending sort behind the median is sorted and a permutation of its input. |
| Stats.Median | src/music_suggester.py:53 | The median of a non-empty column lies between its minimum and maximum. For an odd length it is an element. |
| Stats.MedianWithin | src/music_suggester.py:84 | The median stays within any bounds that hold for every element. |
| Scoring.Clip | src/music_suggester.py:57 | Clipping lands in [lo, hi], keeps values already inside, and maps values below lo to lo and above hi to hi. |
| Scoring.Align | src/music_suggester.py:66-70 | Every alignment lies in (0, 1] and equals 1 on target. |
| Scoring.AlignSymmetric | src/music_suggester.py:69 | Alignment depends only on the distance to the target, not its side. |
| Scoring.AlignMonotone | src/music_suggester.py:66-70 | A value closer to the target never aligns worse. |
| Scoring.AlignSaturates | src/music_suggester.py:69 | Distances of 1 or more are clipped and all align the same. |
| Scoring.TempoTarget | src/music_suggester.py:81-85 | With the tempo inside the catalog bounds, the normalised tempo target lies in [0, 1). The 1e-6 in the denominator keeps it below 1. |
| Scoring.NormalisedBelowOne | src/music_suggester.py:85 | Dividing by the width plus 1e-6 maps [0, width] into [0, 1). |
| Scoring.EnergyTarget | src/music_suggester.py:87-90 | The energy target is the median without a range, and lies between the range ends with one. |
| Scoring.ValenceTarget | src/music_suggester.py:92-93 | The valence target is 0.25 exactly for "low", 0.75 exactly for "high", and 0.5 exactly otherwise, including a missing preference. |
| Scoring.ValenceCaseInsensitive | src/music_suggester.py:93 | The valence lookup ignores case. |
| Scoring.LowerIdempotent | src/music_suggester.py:93 | Lower-casing twice changes nothing. |
| Scoring.RangeFactor | src/music_suggester.py:101-110 | One range contributes factor 1 exactly when it is absent or the value is inside it, and 0.85 otherwise. |
| Scoring.SoftFactor | src/music_suggester.py:101-110 | The penalty is 1 when no range is broken, 0.7225 when both are broken, and 0.85 otherwise. |
| Scoring.Blend | src/music_suggester.py:112-113 | The weighted alignment sum lies in (0, 1]. |
| Scoring.BlendAtTargets | src/music_suggester.py:113 | A row exactly on all four targets scores 1, because the weights sum to 1. |
| Scoring.BlendMonotone | src/music_suggester.py:113 | Moving every feature closer to its target never lowers the blend. |
| Scoring.ScoreBounds | src/music_suggester.py:114 | The penalised score lies in (0, 1]. It is at most the blend and at least 0.7225 times it. |
| Scoring.InRangeNeverBelow | src/music_suggester.py:101-114 | With equal blends, a row that keeps every range another row keeps never scores below it. It scores strictly higher when it keeps all ranges and the other breaks one. |
| Scoring.Score | src/music_suggester.py:101-114 | The score of one row, the weighted blend times the soft range factor, lies in (0, 1]. |
| Scoring.PenaltyDecides | src/music_suggester.py:114 | With a blend no lower and a strictly smaller penalty factor, the score `blend * soft` is strictly higher. |
| Scoring.InsertDesc | src/music_suggester.py:118 | Inserting into a descending list keeps it descending and adds exactly the new element. |
| Scoring.SortDesc | src/music_suggester.py:118 | `sort_values(ascending=False)` gives a descending permutation of the scores. |
| Scoring.CutOfSorted | src/music_suggester.py:118 | Cutting a descending sequence at m leaves out exactly the tail, and nothing in the tail outscores anything kept. |
| Scoring.PrefixIsTopK | src/music_suggester.py:118 | The first k of any descending permutation are a top-k: length min(k, n), descending, drawn from the candidates, and no left-out candidate scores higher than a kept one. |
| Scoring.TopKDrawnFrom | src/music_suggester.py:118 | Every entry of a top-k is one of the candidates. |
| Scoring.SortedPrefixIsTopK | src/music_suggester.py:116-118 | `head(k)` after the descending sort is a top-k of the scored rows. |
| Catalog.MissingColumn | src/music_suggester.py:40-43 | None exactly when all five required columns are present. Otherwise it is a missing required column, and no earlier required column is missing. |
| Catalog.FirstAbsent | src/music_suggester.py:41-43 | The loop over the names stops at the first one that is not a column: every name before it is present, and None means every name is present. |
| Catalog.Present | src/music_suggester.py:50-53 | The present values of a column are empty exactly when every value is missing, and include every present value. |
| Catalog.PresentCounts | src/music_suggester.py:50-53 | The present values are exactly the non-missing values of the column, counted with multiplicity: each value occurs as often as it does in the column. |
| Catalog.GatherPresent | src/music_suggester.py:50-53 | The loop that collects the present tempos yields exactly the present values, in row order, each as often as it occurs in the column. |
| Catalog.PresentBounds | src/music_suggester.py:53 | Every present value lies between the smallest and the largest present value. |
| Catalog.TempoFill | src/music_suggester.py:49-53 | The fill is 120 when no tempo is present, and otherwise lies between the smallest and largest present tempo. |
| Catalog.Bounded | src/music_suggester.py:55-57 | A bounded feature lies in [0, 1]. A missing value becomes 0.5 and an in-range value is kept. |
| Catalog.FillTempo | src/music_suggester.py:49-53 | Present tempos are kept and missing ones get the fill: 120 when all are missing, else the median of the present values. Filled values stay within the present values' minimum and maximum. |
| Catalog.FillMissing | src/music_suggester.py:53 | `fillna` keeps every present value and puts the fill value in every missing place. |
| Catalog.FillBounded | src/music_suggester.py:55-57 | Each value is filled and clipped, and lies in [0, 1]. |
| Catalog.TempoBounds | src/music_suggester.py:60-63 | The bounds are the column's minimum and maximum, with the upper one bumped by 1e-6 when they coincide. Every tempo lies between them, and lo < hi. |
| Catalog.NormaliseTempo | src/music_suggester.py:64 | Each tempo is normalised by the bounds, and tempos within the bounds land in [0, 1]. |
| Catalog.TempoNorm | src/music_suggester.py:64 | The normalisation maps [lo, hi] into [0, 1], lo to 0 and hi to 1. |
| Catalog.NormaliseTable | src/music_suggester.py:45-64 | The whole load pass (`Normalised`) keeps every row and its uri. A present tempo is kept and a missing one gets the fill (median of the present tempos, or 120). Energy, valence and danceability are filled with 0.5 and clipped to [0, 1]. lo and hi are the filled column's minimum and maximum, with hi bumped by 1e-6 when they coincide, and each `tempo_norm` is the tempo normalised by them. lo < hi and every row is within bounds. |
| Catalog.ResolveTargets | src/music_suggester.py:81-93 | The tempo target is `TempoTarget` with the median of the filled tempo column as its fallback. The energy target is the energy range's midpoint, else the median of the clipped energy column. The valence target is the table lookup. |
| Catalog.TargetsInUnit | src/music_suggester.py:81-93 | On a catalog's own rows, a median-based tempo target lies in [0, 1), a median-based energy target in [0, 1], and the valence target in (0, 1). |
| Catalog.RowScore | src/music_suggester.py:112-114 | A row's score lies in (0, 1]. |
| Scoring.EnergyRangeFavours | src/music_suggester.py:87-114 | With the energy target at the range midpoint and every other feature equal, an energy inside the range gives a strictly higher score than one outside it, for every kernel. |
| Catalog.EnergyInRangeScoresHigher | src/music_suggester.py:87-114 | With the energy target at the range midpoint, as `ResolveTargets` sets it, a row inside the energy range scores strictly higher than the same row with an energy outside it, for every kernel. |
| Catalog.Candidates | src/music_suggester.py:116-117 | Every row is scored, in table order, with a score in (0, 1]. |
| Catalog.CandidateBounds | src/music_suggester.py:116-117 | Any scored candidate refers to a real row and has a score in (0, 1]. |
| Catalog.ScoreRow | src/music_suggester.py:101-114 | The masked, in-place computation of one row's score equals the specified score. |
| Catalog.ScoreAll | src/music_suggester.py:95-117 | The scoring pass yields exactly the scored candidate list. |
| Catalog.AttachUrls | src/music_suggester.py:119 | Each kept row carries its own row data and the link derived from its uri. |
| Catalog.Rank | src/music_suggester.py:116-120 | The result is a top-k of the scored rows. Each hit carries its row, a score in (0, 1] and its link. |
| Catalog.SeedCatalog.constructor | src/music_suggester.py:45-64 | For a table with every required column, the catalog's rows and tempo bounds are the normalised table (`Normalised`, as for `NormaliseTable`). The catalog invariant holds: lo < hi and every row is within bounds. |
| Catalog.SeedCatalog.Load | src/music_suggester.py:32-64 | Loading fails exactly when a required column is missing, with "Missing required column: " and the first missing one. Otherwise it yields a valid catalog whose rows and tempo bounds are the normalised table (`Normalised`). |
| Catalog.SeedCatalog.Search | src/music_suggester.py:72-120 | The result is a top-k of all rows scored against the targets resolved from the arguments. Each hit is a real row with a score in (0, 1] and its derived link. |
| SpotifyClient.ExtractTrackId | src/spotify_client.py:29-40 | An empty uri gives no id, and a produced id is never empty. A `spotify:track:` uri yields the ':'-free suffix right after its last ':', or nothing when it ends in ':'. Otherwise a uri holding "open.spotify.com/track/" yields, with q just after its last "track/", the text from q up to the first '?' or the end. That id holds no '?' and no "track/", and there is none exactly when q is the end or a '?'. Any other uri is taken whole exactly when it has 22 characters. |
| SpotifyClient.SchemeId | src/spotify_client.py:33-34 | `uri.split(":")[-1]` of a scheme uri, when not empty, is the ':'-free suffix right after the last ':'. It is empty exactly when the uri ends in ':'. |
| SpotifyClient.UrlId | src/spotify_client.py:35-36 | `uri.split("track/")[-1].split("?")[0]`, when not empty, is the text from just after the last "track/" up to the first '?' or the end. It is empty exactly when that position is the end or a '?'. |
| SpotifyClient.UrlTail | src/spotify_client.py:35-36 | The last "track/"-piece cut at its first '?' is the URL id at the position after the last "track/". |
| SpotifyClient.SchemePiece | src/spotify_client.py:33-34 | After the `spotify:track:` prefix, `split(":")[-1]` is a ':'-free suffix that directly follows a ':'. |
| SpotifyClient.LastCharPiece | src/spotify_client.py:34 | Once a separator character occurs, the last split piece is free of it and directly follows one. |
| SpotifyClient.SegmentBeforeTail | src/spotify_client.py:36 | In a uri holding "track/", `split("track/")[-1]` is the "track/"-free suffix that directly follows a "track/". |
| SpotifyClient.CutOfTail | src/spotify_client.py:36 | Cutting that suffix at its first '?' gives the URL id at its start: '?'-free and "track/"-free, running to the end or to a '?', and none exactly when it starts at the end or at a '?'. |
| SpotifyClient.QueryCut | src/spotify_client.py:36 | `t.split("?")[0]` is '?'-free, is empty exactly when t is empty or starts with '?', and is either all of t or stops just before a '?'. |
| SpotifyClient.PathHoldsSegment | src/spotify_client.py:35-36 | A uri holding "open.spotify.com/track/" holds "track/", so the split in the URL branch always has a separator to cut at. |
| SpotifyClient.LastPieceFollows | src/spotify_client.py:34-36 | Once the separator occurs, the last split piece starts right after an occurrence of it. |
| SpotifyClient.LastPieceAfter | src/spotify_client.py:34-36 | When no other separator occurs near or after a given one, the last split piece is the text after it. |
| SpotifyClient.FirstPieceWhole | src/spotify_client.py:36 | Text without '?' is its own first piece. |
| SpotifyClient.FirstPieceBefore | src/spotify_client.py:36 | The first piece of text stops just before its first '?'. |
| SpotifyClient.SchemeUriId | src/spotify_client.py:33-34 | `spotify:track:<id>` yields the id, for any non-empty id without ':'. |
| SpotifyClient.CanonicalLinkId | src/spotify_client.py:35-36 | A canonical track link yields its alphanumeric id. |
| SpotifyClient.UrlQueryId | src/spotify_client.py:35-36 | A track URL followed by an id and a query string, `https://open.spotify.com/track/<id>?<query>`, yields the id before the '?', for any non-empty id without '?' or '/' and any query without '/'. |
| SpotifyClient.QueryRest | src/spotify_client.py:36 | `<id>?<query>` starts with the id followed by '?', and holds no '/' when neither part does. |
| SpotifyClient.TrackUrlIsUrl | src/spotify_client.py:33-36 | The track URL prefix followed by '/'-free text is not a scheme uri, takes the URL branch, and its last "track/"-piece is that text. |
| SpotifyClient.TrackUrlPrefix | src/spotify_client.py:33-35 | A string starting with the track URL fails the scheme test and passes the "open.spotify.com/track/" test. |
| SpotifyClient.TrackUrlHoldsPath | src/spotify_client.py:35 | A string starting with the track URL holds "open.spotify.com/track/". |
| SpotifyClient.LinkTail | src/spotify_client.py:36 | After the track URL prefix, the text after the last "track/" is whatever follows the prefix, when it holds no '/'. |
| SpotifyClient.DerivedLinkHasId | src/spotify_client.py:29-40 | Every link the catalog derives is accepted by the client, which extracts the same id. |
| SpotifyClient.BareIdNeedsNoAlnum | src/spotify_client.py:37-38 | Every 22-character string without ':' that is not all alphanumeric is taken whole as an id by the client, while the catalog derives no link for it. |
| Agent.Trunc | src/agent.py:56 | `int()` truncates toward zero, within 1 of its argument. |
| Agent.TruncProperties | src/agent.py:56 | Truncation keeps integers and commutes with negation. |
| Agent.BpmRange | src/agent.py:54-56 | A BPM range exists exactly when the mood gives two tempo values, and it holds both truncated. |
| Agent.EnergyRange | src/agent.py:57-58 | A range exists exactly for "low", "medium" or "high" in any case, and it lies within [0, 1] with lo < hi. |
| Agent.EnergyRangeCaseInsensitive | src/agent.py:58 | The energy lookup ignores case. |
| Agent.Constraints | src/agent.py:54-67 | The search is asked for max(3k, 18) rows. The BPM range exists exactly for two tempo values and holds both truncated. The energy range exists exactly for a level whose lower-case form is in the table, and is that entry. The valence preference is passed on unchanged. |
| Agent.EnergyTargetOfLabel | src/agent.py:57-66 | With a known label, the search's energy target lies inside that label's range, within [0, 1]. With an unknown label it is the median. |
| Agent.CandidateCount | src/agent.py:63 | The search asks for at least 18 candidates and at least three per requested pick. |
| Agent.AttachLinks | src/agent.py:108-116 | One recommendation per pick, in order, carrying the pick's uri, its reason and its derived links. A missing list gives none. Every attached link is one the client accepts. |
| Agent.Recommend | src/agent.py:50-116 | The seeds are a top-k of the catalog for the derived constraints, of size min(max(3k, 18), rows). The recommendations are the picks with their links. |

## Left out

- Reading the CSV and `pd.to_numeric` coercion. A table arrives as rows of optional values, where a missing or unparseable cell is None. The `duration (ms)` rename and the columns the search never reads are not modelled.
- The exponential in `_align`. It is a parameter of the model, constrained by `IsKernel`. Floating-point rounding is not modelled: all arithmetic is on exact reals.
- Scoring.SortDesc: pandas' default sort is not stable, so the order of rows with equal scores is unspecified. The model uses a stable sort, and `IsTopK` states only what holds for any tie order.
- Catalog.SeedCatalog.Search: the `tags` argument is unused by the source and is not a parameter. A negative `k` (where `head` drops rows from the end) is excluded by the parameter type `nat`.
- Catalog.SeedCatalog.constructor: for an empty table, pandas produces NaN bounds and medians. The model uses bounds 0 and 1e-6 instead. No search result can observe them, because an empty table yields no hits.
- Text.Lower: Python's `str.lower()` is Unicode-aware. The model lower-cases ASCII only, which is exact for the lookup keys "low", "neutral", "medium" and "high".
- Links.SpotifyLinkFromUri: a non-string uri cell (NaN, a number) is modelled as None. Both give no link.
- SpotifyClient.ExtractTrackId: the token request, the HTTP call and the response fields of `get_track_info` are network I/O and are not modelled. A `None` uri is not a parameter value; the empty string stands for that early return.
- Scoring.InRangeNeverBelow: it compares rows with the same blend only. For energy, `Catalog.EnergyInRangeScoresHigher` states the row-level comparison. No such statement holds for tempo under an arbitrary kernel, because the tempo target is divided by `hi - lo + 1e-6` (src/music_suggester.py:85) while each row's `tempo_norm` is divided by `hi - lo` (line 64). A tempo just below the BPM range can then lie nearer the normalised target than one inside it. With bounds 60/180 and range (100, 140), 99.9999999 normalises nearer the target than 140 does, and a step-shaped kernel lets it score higher.
- Agent.Recommend: both language-model calls are inputs. The parsed mood and the list of picks arrive as values, so the prompt text, JSON parsing and its errors are not modelled. The returned dictionary's echo of the mood and the parsed fields is not modelled. Picks are not checked against the seeds, as in the source.
- Agent.BpmRange: a `tempo_bpm` that is not a list of numbers (a missing field, a string element) is outside the model.
- `src/server.py`, `src/cli.py` and `src/config.py` (HTTP and command-line front ends, settings) are not part of this model.
