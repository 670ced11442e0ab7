/**
 * The track-id extraction at the top of `SpotifyClient.get_track_info`
 * (src/spotify_client.py), which runs before any request is made. Unlike
 * the link derivation it checks no characters: it cuts the uri at
 * separators with Python's `str.split`.
 */
module SpotifyClient {
  import opened Wrappers
  import opened Text
  import Links

  const TrackPath: string := "open.spotify.com/track/"
  const TrackSegment: string := "track/"

  /** The track id `get_track_info` would request, or None when it returns early. */
  function ExtractTrackId(uri: string): (id: Option<string>)
    ensures uri == [] ==> id.None?
    ensures id.Some? ==> id.value != []
    ensures Links.TrackScheme <= uri ==> SchemeIdOf(uri, id)
    ensures !(Links.TrackScheme <= uri) && Contains(uri, TrackPath) ==>
      UrlIdAt(uri, |uri| - |LastPiece(uri, TrackSegment, 0)|, id)
    ensures !(Links.TrackScheme <= uri) && !Contains(uri, TrackPath) ==>
      id == if |uri| == Links.BareIdLength then Some(uri) else None
  {
    if uri == [] then None
    else if Links.TrackScheme <= uri then SchemeId(uri)
    else if Contains(uri, TrackPath) then PathHoldsSegment(uri); UrlId(uri)
    else if |uri| == Links.BareIdLength then Some(uri)
    else None
  }

  /**
   * What a `spotify:track:` uri yields: the ':'-free suffix that directly
   * follows its last ':', or nothing when the uri ends in ':'.
   */
  ghost predicate SchemeIdOf(uri: string, id: Option<string>) {
    && uri != []
    && (id.Some? ==>
          && id.value != [] && ':' !in id.value && |id.value| < |uri|
          && id.value == uri[|uri| - |id.value|..] && uri[|uri| - |id.value| - 1] == ':')
    && (id.None? ==> uri[|uri| - 1] == ':')
  }

  /**
   * What a share URL yields, with q the position just after its last
   * "track/": the text from q up to the first '?' or the end, which holds
   * neither '?' nor "track/", or nothing when that text is empty.
   */
  ghost predicate UrlIdAt(uri: string, q: int, id: Option<string>) {
    && 6 <= q <= |uri| && OccursAt(TrackSegment, uri, q - 6)
    && (id.None? <==> q == |uri| || uri[q] == '?')
    && (id.Some? ==>
          && id.value != [] && '?' !in id.value && (forall j :: !OccursAt(TrackSegment, id.value, j))
          && q + |id.value| <= |uri| && id.value == uri[q..q + |id.value|]
          && (q + |id.value| == |uri| || uri[q + |id.value|] == '?'))
  }

  /** The id as requested: `get_track_info` returns early on an empty one. */
  function NonEmpty(piece: string): Option<string> {
    if piece == [] then None else Some(piece)
  }

  /** `uri.split(":")[-1]` of a `spotify:track:` uri, when not empty. */
  function SchemeId(uri: string): (id: Option<string>)
    requires Links.TrackScheme <= uri
    ensures SchemeIdOf(uri, id)
  {
    SchemePiece(uri);
    NonEmpty(LastPiece(uri, ":", 0))
  }

  /** `uri.split("track/")[-1].split("?")[0]` of a share URL, when not empty. */
  function UrlId(uri: string): (id: Option<string>)
    requires Contains(uri, TrackSegment)
    ensures UrlIdAt(uri, |uri| - |LastPiece(uri, TrackSegment, 0)|, id)
  {
    UrlTail(uri);
    NonEmpty(FirstPiece(LastPiece(uri, TrackSegment, 0), "?"))
  }

  /** The cut of the last "track/"-piece at its first '?' is the URL id after that "track/". */
  lemma UrlTail(uri: string)
    requires Contains(uri, TrackSegment)
    ensures UrlIdAt(uri, |uri| - |LastPiece(uri, TrackSegment, 0)|,
                    NonEmpty(FirstPiece(LastPiece(uri, TrackSegment, 0), "?")))
  {
    SegmentBeforeTail(uri);
    CutOfTail(uri, |uri| - |LastPiece(uri, TrackSegment, 0)|, LastPiece(uri, TrackSegment, 0));
  }

  /** After the scheme, the last ':'-piece is a ':'-free suffix that directly follows a ':'. */
  lemma SchemePiece(uri: string)
    requires Links.TrackScheme <= uri
    ensures var p := LastPiece(uri, ":", 0);
      && ':' !in p && |p| < |uri| && p == uri[|uri| - |p|..] && uri[|uri| - |p| - 1] == ':'
    ensures SchemeIdOf(uri, NonEmpty(LastPiece(uri, ":", 0)))
  {
    assert uri[..14] == Links.TrackScheme;
    assert Links.TrackScheme[7..8] == ":";
    OccursWithin(Links.TrackScheme, uri, 0, 7, 8);
    LastCharPiece(uri, ':', 7);
  }

  /** Once a character occurs, the last piece split at it is a suffix right after one. */
  lemma LastCharPiece(s: string, c: char, i: int)
    requires OccursAt([c], s, i)
    ensures var p := LastPiece(s, [c], 0);
      && c !in p && |p| < |s| && p == s[|s| - |p|..] && s[|s| - |p| - 1] == c
  {
    LastPieceFollows(s, [c], i);
    var p := LastPiece(s, [c], 0);
    var q := |s| - |p| - 1;
    assert OccursAt([c], s, q);
    assert s[q..q + 1][0] == s[q];
    CharFreeWithoutOccurrence(p, c);
  }

  /** Cutting a "track/"-free tail that follows a "track/" at its first '?' gives the URL id there. */
  lemma CutOfTail(uri: string, q: int, tail: string)
    requires TailAfterSegment(uri, q, tail)
    requires forall j :: !OccursAt(TrackSegment, tail, j)
    ensures UrlIdAt(uri, q, NonEmpty(FirstPiece(tail, "?")))
  {
    var p := FirstPiece(tail, "?");
    QueryCut(tail);
    NoOccurrenceInPrefix(tail, TrackSegment, p);
    assert p == tail[..|p|];
  }

  /** `tail` is the "track/"-free text of `uri` from q on, and a "track/" ends at q. */
  ghost predicate TailAfterSegment(uri: string, q: int, tail: string) {
    && 6 <= q <= |uri| && OccursAt(TrackSegment, uri, q - 6)
    && tail == uri[q..]
  }

  /** A URL holds "track/", so its last "track/"-piece is a "track/"-free suffix that directly follows one. */
  lemma SegmentBeforeTail(uri: string)
    requires Contains(uri, TrackSegment)
    ensures var tail := LastPiece(uri, TrackSegment, 0);
      TailAfterSegment(uri, |uri| - |tail|, tail) && forall j :: !OccursAt(TrackSegment, tail, j)
  {
    LastPieceFollows(uri, TrackSegment, IndexOf(uri, TrackSegment, 0).value);
  }

  /** "open.spotify.com/track/" ends in "track/", so a string holding the one holds the other. */
  lemma PathHoldsSegment(s: string)
    requires Contains(s, TrackPath)
    ensures Contains(s, TrackSegment)
  {
    var i := IndexOf(s, TrackPath, 0).value;
    assert TrackPath[17..23] == TrackSegment;
    OccursWithin(TrackPath, s, i, 17, 23);
    ContainsMeansOccurs(s, TrackSegment, i + 17);
  }

  /** Once the separator occurs, the last piece directly follows an occurrence of it. */
  lemma LastPieceFollows(s: string, sep: string, i: int)
    requires |sep| > 0 && OccursAt(sep, s, i)
    ensures var q := |s| - |LastPiece(s, sep, 0)|;
      |sep| <= q && OccursAt(sep, s, q - |sep|)
  {
    assert IndexOf(s, sep, 0).Some?;
  }

  /** Where a pattern occurs, so does each of its slices, at the matching offset. */
  lemma OccursWithin(pat: string, s: string, i: int, k: nat, m: nat)
    requires OccursAt(pat, s, i) && k <= m <= |pat|
    ensures OccursAt(pat[k..m], s, i + k)
  {
    forall t | 0 <= t < m - k ensures s[i + k..i + m][t] == pat[k..m][t] {
      assert s[i + k + t] == s[i..i + |pat|][k + t];
    }
  }

  /** `t.split("?")[0]` is '?'-free, empty exactly when t is or starts with '?', and ends where t does or at a '?'. */
  lemma QueryCut(t: string)
    ensures var p := FirstPiece(t, "?");
      && '?' !in p
      && (p == [] <==> t == [] || t[0] == '?')
      && (p == t || (|p| < |t| && t[|p|] == '?'))
  {
    var p := FirstPiece(t, "?");
    CharFreeWithoutOccurrence(p, '?');
    if p != t {
      assert t[|p|..|p| + 1][0] == t[|p|];
    }
    if p != [] {
      assert p[0] == t[0];
    } else if t != [] {
      assert t[0..1][0] == t[0];
    }
  }

  /** A piece with no one-character separator in it holds no such character. */
  lemma CharFreeWithoutOccurrence(s: string, c: char)
    requires forall j :: !OccursAt([c], s, j)
    ensures c !in s
  {
    forall j | 0 <= j < |s| ensures s[j] != c {
      assert s[j..j + 1][0] == s[j];
      assert !OccursAt([c], s, j);
    }
  }

  /** A prefix of a string free of `pat` is free of it too. */
  lemma NoOccurrenceInPrefix(s: string, pat: string, r: string)
    requires r <= s
    requires forall j :: !OccursAt(pat, s, j)
    ensures forall j :: !OccursAt(pat, r, j)
  {
    forall j | OccursAt(pat, r, j) ensures false {
      assert s[..|r|] == r;
      OccursInSlice(s, pat, 0, |r|, j);
    }
  }

  /** An occurrence at or after q is an occurrence in the suffix from q. */
  lemma OccurrencesInSuffix(s: string, sep: string, q: nat)
    requires q <= |s|
    ensures forall i :: q <= i && OccursAt(sep, s, i) ==> OccursAt(sep, s[q..], i - q)
  {
    forall i | q <= i && OccursAt(sep, s, i) ensures OccursAt(sep, s[q..], i - q) {
      assert s[q..][i - q..i - q + |sep|] == s[i..i + |sep|];
    }
  }

  /** The last piece is the text after an occurrence at p - |sep| when no other occurrence is near or after it. */
  lemma LastPieceAfter(s: string, sep: string, p: nat)
    requires 0 < |sep| <= p <= |s|
    requires OccursAt(sep, s, p - |sep|)
    requires forall j :: p - |sep| - |sep| < j && j != p - |sep| ==> !OccursAt(sep, s, j)
    ensures LastPiece(s, sep, 0) == s[p..]
  {
    var r := LastPiece(s, sep, 0);
    var q := |s| - |r|;
    assert IndexOf(s, sep, 0).Some?;
    assert OccursAt(sep, s, q - |sep|);
    OccurrencesInSuffix(s, sep, q);
    assert !OccursAt(sep, r, p - |sep| - q);
  }

  /** A piece without the separator character is its own first piece. */
  lemma FirstPieceWhole(s: string, c: char)
    requires c !in s
    ensures FirstPiece(s, [c]) == s
  {
    forall j | 0 <= j < |s| ensures !OccursAt([c], s, j) {
      assert s[j..j + 1][0] == s[j];
    }
  }

  /** `spotify:track:<id>` yields the id, for any id without ':'. */
  lemma SchemeUriId(id: string)
    requires id != [] && ':' !in id
    ensures ExtractTrackId(Links.TrackScheme + id) == Some(id)
  {
    var s := Links.TrackScheme + id;
    assert s[..|Links.TrackScheme|] == Links.TrackScheme;
    forall j | 12 < j && j != 13 ensures !OccursAt(":", s, j) {
      if j + 1 <= |s| {
        assert s[j..j + 1][0] == s[j];
        if j > 13 { assert s[j] == id[j - 14]; }
      }
    }
    assert s[13..14] == ":";
    LastPieceAfter(s, ":", 14);
    assert s[14..] == id;
  }

  /** A canonical link yields its alphanumeric id. */
  lemma CanonicalLinkId(id: string)
    requires id != [] && AllAlnum(id)
    ensures ExtractTrackId(Links.TrackUrl + id) == Some(id)
  {
    assert '?' !in id && '/' !in id by {
      forall j | 0 <= j < |id| ensures id[j] != '?' && id[j] != '/' { assert IsAlnum(id[j]); }
    }
    TrackUrlIsUrl(id);
    FirstPieceWhole(id, '?');
  }

  /** A share URL with a query string yields the id before the '?'. */
  lemma UrlQueryId(id: string, query: string)
    requires id != [] && '?' !in id && '/' !in id && '/' !in query
    ensures ExtractTrackId(Links.TrackUrl + id + "?" + query) == Some(id)
  {
    var rest := id + "?" + query;
    assert Links.TrackUrl + id + "?" + query == Links.TrackUrl + rest;
    QueryRest(id, query);
    TrackUrlIsUrl(rest);
    FirstPieceBefore(rest, id, '?');
  }

  /** `id?query` starts with the id, then a '?', and holds no '/' when neither part does. */
  lemma QueryRest(id: string, query: string)
    requires '/' !in id && '/' !in query
    ensures var rest := id + "?" + query;
      id < rest && rest[|id|..|id| + 1] == "?" && '/' !in rest
  {
    var rest := id + "?" + query;
    assert rest[..|id|] == id;
    forall j | 0 <= j < |rest| ensures rest[j] != '/' {
      if j > |id| { assert rest[j] == query[j - |id| - 1]; }
    }
  }

  /** The track URL prefix followed by '/'-free text takes the URL branch, whose tail is that text. */
  lemma TrackUrlIsUrl(rest: string)
    requires '/' !in rest
    ensures var s := Links.TrackUrl + rest;
      && !(Links.TrackScheme <= s) && Contains(s, TrackPath) && Contains(s, TrackSegment)
      && ExtractTrackId(s) == UrlId(s)
      && LastPiece(s, TrackSegment, 0) == rest
  {
    var s := Links.TrackUrl + rest;
    TrackUrlPrefix(s);
    PathHoldsSegment(s);
    LinkTail(rest);
  }

  /** A string that starts with the track URL is no scheme uri and holds the track path. */
  lemma TrackUrlPrefix(s: string)
    requires Links.TrackUrl <= s
    ensures !(Links.TrackScheme <= s) && Contains(s, TrackPath)
  {
    assert s[0] == Links.TrackUrl[0] != Links.TrackScheme[0];
    TrackUrlHoldsPath(s);
  }

  /** The track path sits at offset 8 of the track URL. */
  lemma TrackUrlHoldsPath(s: string)
    requires Links.TrackUrl <= s
    ensures Contains(s, TrackPath)
  {
    assert s[..|Links.TrackUrl|] == Links.TrackUrl;
    assert OccursAt(TrackPath, s, 8) by { assert s[8..8 + |TrackPath|] == TrackPath; }
    ContainsMeansOccurs(s, TrackPath, 8);
  }

  /** The first piece of a string stops at the first separator character. */
  lemma FirstPieceBefore(s: string, r: string, c: char)
    requires r < s && s[|r|..|r| + 1] == [c] && c !in r
    ensures FirstPiece(s, [c]) == r
  {
    forall j | 0 <= j < |r| ensures !OccursAt([c], s, j) {
      assert s[j..j + 1][0] == s[j] == r[j];
    }
    assert OccursAt([c], s, |r|);
  }

  /** In a track URL, the text after the last "track/" is whatever follows the prefix, if it holds no '/'. */
  lemma LinkTail(rest: string)
    requires '/' !in rest
    ensures LastPiece(Links.TrackUrl + rest, TrackSegment, 0) == rest
  {
    var s := Links.TrackUrl + rest;
    var n := |Links.TrackUrl|;
    assert s[..n] == Links.TrackUrl;
    assert OccursAt(TrackSegment, s, 25) by { assert s[25..31] == TrackSegment; }
    forall j | 19 < j && j != 25 ensures !OccursAt(TrackSegment, s, j) {
      if j + 6 <= |s| {
        assert s[j..j + 6][5] == s[j + 5];
        if j + 5 >= n { assert s[j + 5] == rest[j + 5 - n]; }
      }
    }
    LastPieceAfter(s, TrackSegment, 31);
    assert s[31..] == rest;
  }

  /** Every link the catalog derives is accepted by the client, with the same id. */
  lemma DerivedLinkHasId(uri: Option<string>)
    ensures Links.SpotifyLinkFromUri(uri).Some? ==>
      var link := Links.SpotifyLinkFromUri(uri).value;
      ExtractTrackId(link) == Some(link[|Links.TrackUrl|..])
  {
    var r := Links.SpotifyLinkFromUri(uri);
    if r.Some? {
      var id := r.value[|Links.TrackUrl|..];
      assert r.value == Links.TrackUrl + id;
      CanonicalLinkId(id);
    }
  }

  /**
   * The two recognisers differ: any 22 characters without ':' are an id
   * here, but no link when one of them is not alphanumeric.
   */
  lemma BareIdNeedsNoAlnum(s: string)
    requires |s| == Links.BareIdLength && ':' !in s && !AllAlnum(s)
    ensures ExtractTrackId(s) == Some(s) && Links.SpotifyLinkFromUri(Some(s)).None?
  {
    assert Links.TrackScheme[7] == ':';
    assert !(Links.TrackScheme <= s);
    assert !Contains(s, TrackPath) by {
      forall j | 0 <= j ensures !OccursAt(TrackPath, s, j) { }
    }
    Links.ColonFreeNeverMatches(s);
    Links.NoLinkForOtherStrings(s);
  }
}
