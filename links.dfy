/**
 * Canonical Spotify track links: `spotify_link_from_uri` and
 * `SeedCatalog.mk_links_from_uri` of src/music_suggester.py.
 *
 * The regular expression
 *   spotify:track:([A-Za-z0-9]+)|https?://open\.spotify\.com/track/([A-Za-z0-9]+)
 * is written out as explicit predicates: a leftmost search over start
 * positions, the alternatives tried in order at each position, and a greedy
 * (maximal) run of ASCII letters and digits for the captured id.
 */
module Links {
  import opened Wrappers
  import opened Text

  const TrackUrl: string := "https://open.spotify.com/track/"
  const HttpTrackUrl: string := "http://open.spotify.com/track/"
  const TrackScheme: string := "spotify:track:"
  const BareIdLength: nat := 22

  /** A canonical link: the track URL followed by a non-empty alphanumeric id. */
  predicate IsTrackLink(link: string) {
    TrackUrl <= link && |link| > |TrackUrl| && AllAlnum(link[|TrackUrl|..])
  }

  /** Length of the greedy `[A-Za-z0-9]*` run starting at index i. */
  function AlnumRun(s: string, i: nat): (n: nat)
    requires i <= |s|
    ensures i + n <= |s| && AlnumBetween(s, i, i + n)
    ensures i + n == |s| || !IsAlnum(s[i + n])
    decreases |s| - i
  {
    if i < |s| && IsAlnum(s[i]) then 1 + AlnumRun(s, i + 1) else 0
  }

  /** The pattern `prefix([A-Za-z0-9]+)` tried at index i: the captured id, if any. */
  function CaptureAt(s: string, i: nat, prefix: string): (r: Option<string>)
    requires i <= |s|
    ensures r.Some? <==> OccursAt(prefix, s, i) && i + |prefix| < |s| && IsAlnum(s[i + |prefix|])
    ensures r.Some? ==> var start, stop := i + |prefix|, i + |prefix| + |r.value|;
      && stop <= |s| && r.value == s[start..stop] && r.value != [] && AllAlnum(r.value)
      && (stop == |s| || !IsAlnum(s[stop]))
  {
    if OccursAt(prefix, s, i) then
      var n := AlnumRun(s, i + |prefix|);
      if n > 0 then Some(s[i + |prefix|..i + |prefix| + n]) else None
    else None
  }

  /** The whole alternation tried at index i (`https?` prefers the `s`). */
  function MatchAt(s: string, i: nat): (r: Option<string>)
    requires i <= |s|
    ensures r.Some? <==>
      CaptureAt(s, i, TrackScheme).Some? || CaptureAt(s, i, TrackUrl).Some? || CaptureAt(s, i, HttpTrackUrl).Some?
    ensures CaptureAt(s, i, TrackScheme).Some? ==> r == CaptureAt(s, i, TrackScheme)
    ensures CaptureAt(s, i, TrackScheme).None? && CaptureAt(s, i, TrackUrl).Some? ==> r == CaptureAt(s, i, TrackUrl)
    ensures CaptureAt(s, i, TrackScheme).None? && CaptureAt(s, i, TrackUrl).None? ==> r == CaptureAt(s, i, HttpTrackUrl)
    ensures r.Some? ==> r.value != [] && AllAlnum(r.value)
  {
    var scheme := CaptureAt(s, i, TrackScheme);
    if scheme.Some? then scheme
    else
      var secure := CaptureAt(s, i, TrackUrl);
      if secure.Some? then secure else CaptureAt(s, i, HttpTrackUrl)
  }

  /** `re.search`: the leftmost index at or after `from` where the pattern matches. */
  function FirstMatch(s: string, from: nat): (p: Option<nat>)
    requires from <= |s|
    ensures p.Some? ==> from <= p.value <= |s| && MatchAt(s, p.value).Some?
    ensures p.Some? ==> forall j :: from <= j < p.value ==> MatchAt(s, j).None?
    ensures p.None? ==> forall j :: from <= j <= |s| ==> MatchAt(s, j).None?
    decreases |s| - from
  {
    if MatchAt(s, from).Some? then Some(from)
    else if from == |s| then None
    else FirstMatch(s, from + 1)
  }

  /**
   * `spotify_link_from_uri`. None stands for a value that is not a string
   * (a missing cell or a missing JSON field).
   */
  function SpotifyLinkFromUri(uri: Option<string>): (r: Option<string>)
    ensures uri.None? || uri == Some([]) ==> r.None?
    ensures r.Some? ==> IsTrackLink(r.value)
  {
    match uri
    case None => None
    case Some(s) =>
      if s == [] then None
      else
        match FirstMatch(s, 0)
        case Some(p) => Some(TrackUrl + MatchAt(s, p).value)
        case None => if |s| == BareIdLength && AllAlnum(s) then Some(TrackUrl + s) else None
  }

  /** The leftmost match decides the link, whatever follows it. */
  lemma LinkFromFirstMatch(s: string, p: nat)
    requires p <= |s| && MatchAt(s, p).Some?
    requires forall j :: 0 <= j < p ==> MatchAt(s, j).None?
    ensures SpotifyLinkFromUri(Some(s)) == Some(TrackUrl + MatchAt(s, p).value)
  {
    assert FirstMatch(s, 0) == Some(p);
  }

  /** Without any match only a bare 22-character alphanumeric id yields a link. */
  lemma LinkWithoutMatch(s: string)
    requires forall j :: 0 <= j <= |s| ==> MatchAt(s, j).None?
    ensures SpotifyLinkFromUri(Some(s)) ==
      if |s| == BareIdLength && AllAlnum(s) then Some(TrackUrl + s) else None
  {
    assert FirstMatch(s, 0).None?;
  }

  /** An alphanumeric string contains no ':', so it never matches. */
  lemma AlnumNeverMatches(s: string)
    requires AllAlnum(s)
    ensures forall j :: 0 <= j <= |s| ==> MatchAt(s, j).None?
  {
    forall i | 0 <= i < |s| ensures s[i] != ':' {
      assert IsAlnum(s[i]);
    }
    ColonFreeNeverMatches(s);
  }

  /** Every prefix of the pattern contains ':', so a string without one never matches. */
  lemma ColonFreeNeverMatches(s: string)
    requires forall i :: 0 <= i < |s| ==> s[i] != ':'
    ensures forall j :: 0 <= j <= |s| ==> MatchAt(s, j).None?
  {
    forall j | 0 <= j <= |s| ensures MatchAt(s, j).None? {
      NoCaptureOverColon(s, j, TrackScheme, 7);
      NoCaptureOverColon(s, j, TrackUrl, 5);
      NoCaptureOverColon(s, j, HttpTrackUrl, 4);
    }
  }

  /** A prefix with ':' at offset c cannot be captured where s has no ':' at that offset. */
  lemma NoCaptureOverColon(s: string, i: nat, prefix: string, c: nat)
    requires i <= |s| && c < |prefix| && prefix[c] == ':'
    requires i + c < |s| ==> s[i + c] != ':'
    ensures CaptureAt(s, i, prefix).None?
  {
    if i + |prefix| <= |s| {
      assert s[i..i + |prefix|][c] == s[i + c];
    }
  }

  /** A bare 22-character id becomes the track URL followed by itself. */
  lemma BareIdLink(s: string)
    requires |s| == BareIdLength && AllAlnum(s)
    ensures SpotifyLinkFromUri(Some(s)) == Some(TrackUrl + s)
  {
    AlnumNeverMatches(s);
    LinkWithoutMatch(s);
  }

  /** A string of another length, or with a non-alphanumeric character, and no match has no link. */
  lemma NoLinkForOtherStrings(s: string)
    requires forall j :: 0 <= j <= |s| ==> MatchAt(s, j).None?
    requires |s| != BareIdLength || !AllAlnum(s)
    ensures SpotifyLinkFromUri(Some(s)).None?
  {
    LinkWithoutMatch(s);
  }

  /** A greedy run that reaches the end captures the whole alphanumeric tail. */
  lemma CaptureWholeTail(prefix: string, id: string)
    requires id != [] && AllAlnum(id)
    ensures CaptureAt(prefix + id, 0, prefix) == Some(id)
  {
    var s := prefix + id;
    assert s[0..|prefix|] == prefix;
    assert forall k :: |prefix| <= k < |s| ==> s[k] == id[k - |prefix|];
    assert s[|prefix|..] == id;
    var n := AlnumRun(s, |prefix|);
    assert |prefix| + n == |s|;
    assert s[|prefix|..|prefix| + n] == id;
  }

  /** `spotify:track:<id>` links to the track URL with the same id. */
  lemma SchemeUriLink(id: string)
    requires id != [] && AllAlnum(id)
    ensures SpotifyLinkFromUri(Some(TrackScheme + id)) == Some(TrackUrl + id)
  {
    CaptureWholeTail(TrackScheme, id);
    LinkFromFirstMatch(TrackScheme + id, 0);
  }

  /** An `http://` track link is upgraded to the `https://` link of the same id. */
  lemma HttpLinkUpgrades(id: string)
    requires id != [] && AllAlnum(id)
    ensures SpotifyLinkFromUri(Some(HttpTrackUrl + id)) == Some(TrackUrl + id)
  {
    var s := HttpTrackUrl + id;
    assert s[0] == 'h' && s[4] == ':';
    assert !OccursAt(TrackScheme, s, 0);
    assert !OccursAt(TrackUrl, s, 0);
    CaptureWholeTail(HttpTrackUrl, id);
    LinkFromFirstMatch(s, 0);
  }

  /** A canonical link is mapped to itself, so the derivation is idempotent. */
  lemma CanonicalLinkIsFixpoint(id: string)
    requires id != [] && AllAlnum(id)
    ensures SpotifyLinkFromUri(Some(TrackUrl + id)) == Some(TrackUrl + id)
  {
    var s := TrackUrl + id;
    assert !OccursAt(TrackScheme, s, 0) by { assert s[0] == 'h'; }
    CaptureWholeTail(TrackUrl, id);
    LinkFromFirstMatch(s, 0);
  }

  lemma LinkIdempotent(uri: Option<string>)
    ensures SpotifyLinkFromUri(uri).Some? ==>
      SpotifyLinkFromUri(SpotifyLinkFromUri(uri)) == SpotifyLinkFromUri(uri)
  {
    var r := SpotifyLinkFromUri(uri);
    if r.Some? {
      var id := r.value[|TrackUrl|..];
      assert r.value == TrackUrl + id;
      CanonicalLinkIsFixpoint(id);
    }
  }

  /** `SeedCatalog.mk_links_from_uri`: `{"spotify": url}` when a link exists, else `{}`. */
  function MkLinksFromUri(uri: Option<string>): (links: map<string, string>)
    ensures links.Keys <= {"spotify"}
    ensures "spotify" in links <==> SpotifyLinkFromUri(uri).Some?
    ensures "spotify" in links ==> links["spotify"] == SpotifyLinkFromUri(uri).value
  {
    match SpotifyLinkFromUri(uri)
    case Some(url) => map["spotify" := url]
    case None => map[]
  }
}
