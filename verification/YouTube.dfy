/**
 * The video-URL resolver and the metadata normalisation of the YouTube
 * helper: which rule turns a parsed URL into a video id, and how the two
 * oEmbed providers' answers become a `VideoMetadata` record.
 */
module YouTube {
  import opened Wrappers
  import opened JsString
  import opened Types

  /**
   * What `new URL(url)` exposes to the resolver: the host name, the path
   * name, and the decoded query pairs in order of appearance. The parser
   * itself is not modelled; `None` stands for the string it rejects.
   */
  datatype ParsedUrl = ParsedUrl(hostname: string, pathname: string, query: seq<(string, string)>)

  /** The index of the first query pair named `name` at or after `from`. */
  function ParamIndex(query: seq<(string, string)>, name: string, from: nat): (r: Option<nat>)
    ensures r.Some? ==> from <= r.value < |query| && query[r.value].0 == name
    ensures forall j :: from <= j < |query| && (r.None? || j < r.value) ==> query[j].0 != name
    decreases |query| - from
  {
    if from >= |query| then None
    else if query[from].0 == name then Some(from)
    else ParamIndex(query, name, from + 1)
  }

  /** `searchParams.get(name)`: the value of the first pair with that name, `None` (null) without one. */
  function SearchParam(query: seq<(string, string)>, name: string): (v: Option<string>)
    ensures v.None? <==> forall j :: 0 <= j < |query| ==> query[j].0 != name
    ensures v.Some? ==> exists i :: (0 <= i < |query| && query[i] == (name, v.value)
      && forall j :: 0 <= j < i ==> query[j].0 != name)
  {
    match ParamIndex(query, name, 0)
    case None => None
    case Some(i) => Some(query[i].1)
  }

  /** The first rule: a `youtube.com` host with a non-empty `v` parameter. */
  predicate WatchRuleFires(u: ParsedUrl) {
    Includes(u.hostname, "youtube.com") && IsTruthy(SearchParam(u.query, "v"))
  }

  /** The second rule: a `youtu.be` host with a path longer than its first character. */
  predicate ShortLinkRuleFires(u: ParsedUrl) {
    Includes(u.hostname, "youtu.be") && SliceFrom(u.pathname, 1) != ""
  }

  /** The third rule: the path holds `/shorts/` followed by a non-empty piece. */
  predicate ShortsRuleFires(u: ParsedUrl) {
    Includes(u.pathname, "/shorts/") && Split(u.pathname, "/shorts/")[1] != ""
  }

  /**
   * `extractVideoId`: the three rules tried in order, each returning as
   * soon as it yields a non-empty candidate; `None` when the URL does not
   * parse or no rule fires. It never throws.
   */
  function ExtractVideoId(url: Option<ParsedUrl>): (id: Option<string>)
    ensures url.None? ==> id.None?
    ensures id.Some? <==> (url.Some? && (WatchRuleFires(url.value) || ShortLinkRuleFires(url.value)
      || ShortsRuleFires(url.value)))
  {
    match url
    case None => None
    case Some(u) =>
      if WatchRuleFires(u) then SearchParam(u.query, "v")
      else if ShortLinkRuleFires(u) then Some(SliceFrom(u.pathname, 1))
      else if ShortsRuleFires(u) then Some(Split(Split(u.pathname, "/shorts/")[1], "?")[0])
      else None
  }

  /** `isValidYouTubeUrl`. */
  predicate IsValidYouTubeUrl(url: Option<ParsedUrl>) {
    ExtractVideoId(url).Some?
  }

  /** A URL is valid exactly when the resolver finds an id, and a string that does not parse never is. */
  lemma ValidIffIdFound(url: Option<ParsedUrl>)
    ensures IsValidYouTubeUrl(url) <==> ExtractVideoId(url) != None
    ensures url.None? ==> !IsValidYouTubeUrl(url)
  {
  }

  /**
   * On a `youtube.com` host with a non-empty `v` parameter the id is the
   * value of the first `v` pair, whatever the path says.
   */
  lemma WatchRule(u: ParsedUrl)
    requires exists k :: OccursAt(u.hostname, k, "youtube.com")
    requires exists i :: (0 <= i < |u.query| && u.query[i].0 == "v" && u.query[i].1 != ""
      && forall j :: 0 <= j < i ==> u.query[j].0 != "v")
    ensures var id := ExtractVideoId(Some(u));
      && id.Some? && id.value != ""
      && exists i :: (0 <= i < |u.query| && u.query[i] == ("v", id.value)
        && forall j :: 0 <= j < i ==> u.query[j].0 != "v")
  {
    IncludesIff(u.hostname, "youtube.com");
    var i :| 0 <= i < |u.query| && u.query[i].0 == "v" && u.query[i].1 != ""
      && forall j :: 0 <= j < i ==> u.query[j].0 != "v";
    var r := ParamIndex(u.query, "v", 0);
    assert r == Some(i);
  }

  /**
   * Otherwise, on a `youtu.be` host with a path longer than one character,
   * the id is the path without its first character, further slashes kept.
   */
  lemma ShortLinkRule(u: ParsedUrl)
    requires !WatchRuleFires(u)
    requires exists k :: OccursAt(u.hostname, k, "youtu.be")
    requires |u.pathname| >= 2
    ensures var id := ExtractVideoId(Some(u));
      id.Some? && [u.pathname[0]] + id.value == u.pathname
  {
    IncludesIff(u.hostname, "youtu.be");
    assert SliceFrom(u.pathname, 1) == u.pathname[1..];
    assert [u.pathname[0]] + u.pathname[1..] == u.pathname;
  }

  /**
   * Otherwise, on any host, with the first `/shorts/` of the path at `k`
   * and `rest` the text after it: an id is found exactly when `rest` is
   * non-empty and does not itself start with `/shorts/`, and the id is the
   * start of `rest` up to (not including) the first `?`, the next
   * `/shorts/`, or the end of the path.
   */
  lemma ShortsRule(u: ParsedUrl, k: nat)
    requires !WatchRuleFires(u) && !ShortLinkRuleFires(u)
    requires OccursAt(u.pathname, k, "/shorts/")
    requires forall j :: 0 <= j < k ==> !OccursAt(u.pathname, j, "/shorts/")
    ensures k + 8 <= |u.pathname|
    ensures var id := ExtractVideoId(Some(u)); var rest := u.pathname[k + 8..];
      && (id.Some? <==> rest != "" && !OccursAt(rest, 0, "/shorts/"))
      && (id.Some? ==>
        && |id.value| <= |rest| && id.value == rest[..|id.value|]
        && '?' !in id.value
        && (forall j :: 0 <= j < |id.value| ==> !OccursAt(rest, j, "/shorts/"))
        && (|id.value| == |rest| || rest[|id.value|] == '?' || OccursAt(rest, |id.value|, "/shorts/")))
  {
    var p := u.pathname;
    SplitSecondPiece(p, "/shorts/", k);
    IncludesIff(p, "/shorts/");
    var rest := p[k + 8..];
    var piece := Split(p, "/shorts/")[1];
    SplitHead(rest, "/shorts/");
    if piece != "" {
      SplitCharHead(piece, '?');
      var id := Split(piece, "?")[0];
      assert id == rest[..|id|];
      if |id| < |piece| {
        assert rest[|id|] == piece[|id|];
      }
    }
  }

  /** When no rule fires, the resolver gives `None`. */
  lemma NoRule(u: ParsedUrl)
    requires !Includes(u.hostname, "youtube.com") || !IsTruthy(SearchParam(u.query, "v"))
    requires !Includes(u.hostname, "youtu.be") || |u.pathname| <= 1
    requires !Includes(u.pathname, "/shorts/") || Split(u.pathname, "/shorts/")[1] == ""
    ensures ExtractVideoId(Some(u)).None?
  {
  }

  /** The fields of one oEmbed answer that the helper reads; each may be missing. */
  datatype OEmbedData = OEmbedData(
    title: Option<string>,
    authorName: Option<string>,
    authorUrl: Option<string>,
    thumbnailUrl: Option<string>,
    html: Option<string>)

  /** The body of an answer: JSON with those fields, or text `response.json()` rejects. */
  datatype JsonBody = Json(data: OEmbedData) | Malformed

  /** The outcome of one `fetch`: it throws, or it answers with a status and a body. */
  datatype HttpOutcome = TransportError | HttpResponse(status: int, body: JsonBody)

  /** `response.ok`: a status from 200 to 299. */
  predicate IsOk(o: HttpOutcome) {
    o.HttpResponse? && 200 <= o.status <= 299
  }

  /** The two metadata providers, in the order they are tried. */
  datatype MetadataEndpoint = OEmbed | Noembed

  /** Which providers were queried, and the metadata or the error thrown. */
  datatype MetadataFetch = MetadataFetch(queried: seq<MetadataEndpoint>, result: Result<VideoMetadata>)

  const DefaultTitle := "Untitled Video"
  const MetadataError := "Unable to fetch video information. Please check the URL and try again."

  /**
   * The record built from an answer: the title when non-empty and
   * `Untitled Video` otherwise, the author and thumbnail fields as given,
   * and the embed HTML only when `keepHtml` (the primary provider).
   */
  function NormalizeMetadata(data: OEmbedData, keepHtml: bool): (m: VideoMetadata)
    ensures m.title != ""
    ensures IsTruthy(data.title) ==> m.title == data.title.value
    ensures !IsTruthy(data.title) ==> m.title == DefaultTitle
    ensures m.authorName == data.authorName && m.authorUrl == data.authorUrl
    ensures m.thumbnailUrl == data.thumbnailUrl
    ensures m.html == (if keepHtml then data.html else None)
  {
    VideoMetadata(
      if IsTruthy(data.title) then data.title.value else DefaultTitle,
      data.authorName, data.authorUrl, data.thumbnailUrl,
      if keepHtml then data.html else None)
  }

  /**
   * `fetchVideoMetadata` over the outcomes of its two requests: the oEmbed
   * answer when it is ok, otherwise (only after a non-ok answer) the noembed
   * answer when that one is ok; a thrown request, an unreadable body or two
   * non-ok answers all end in the one fixed error.
   */
  function FetchVideoMetadata(primary: HttpOutcome, fallback: HttpOutcome): (f: MetadataFetch)
    ensures f.queried == [OEmbed] || f.queried == [OEmbed, Noembed]
    ensures Noembed in f.queried <==> primary.HttpResponse? && !IsOk(primary)
    ensures f.result.Err? ==> f.result.message == MetadataError
  {
    match primary
    case TransportError => MetadataFetch([OEmbed], Err(MetadataError))
    case HttpResponse(_, body) =>
      if IsOk(primary) then
        match body
        case Json(data) => MetadataFetch([OEmbed], Ok(NormalizeMetadata(data, true)))
        case Malformed => MetadataFetch([OEmbed], Err(MetadataError))
      else
        var result :=
          if IsOk(fallback) && fallback.body.Json? then Ok(NormalizeMetadata(fallback.body.data, false))
          else Err(MetadataError);
        MetadataFetch([OEmbed, Noembed], result)
  }

  /**
   * The outcome of the metadata fetch case by case: an ok, readable oEmbed
   * answer wins (HTML kept); after a non-ok one an ok, readable noembed
   * answer is used (HTML dropped); everything else is the fixed error.
   */
  lemma FetchVideoMetadataOutcome(primary: HttpOutcome, fallback: HttpOutcome)
    ensures var f := FetchVideoMetadata(primary, fallback);
      && (IsOk(primary) && primary.body.Json? ==> f.result == Ok(NormalizeMetadata(primary.body.data, true)))
      && (primary.HttpResponse? && !IsOk(primary) && IsOk(fallback) && fallback.body.Json? ==>
        f.result == Ok(NormalizeMetadata(fallback.body.data, false)))
      && (f.result.Ok? <==> ((IsOk(primary) && primary.body.Json?)
        || (primary.HttpResponse? && !IsOk(primary) && IsOk(fallback) && fallback.body.Json?)))
      && (f.result.Ok? ==> f.result.value.title != "")
  {
  }

  /** The noembed outcome matters only when noembed is queried. */
  lemma FallbackReadOnlyWhenQueried(primary: HttpOutcome, fallback1: HttpOutcome, fallback2: HttpOutcome)
    requires Noembed !in FetchVideoMetadata(primary, fallback1).queried
    ensures FetchVideoMetadata(primary, fallback1) == FetchVideoMetadata(primary, fallback2)
  {
  }
}
