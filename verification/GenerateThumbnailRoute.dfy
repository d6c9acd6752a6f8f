// The `POST /api/generate-thumbnail` handler: fail-fast validation of the
// request body, then metadata, prompt and generation, with every exception
// turned into a 500 reply. The handler is a function of the body and of
// the outcomes of everything it awaits; the calls it makes are returned
// as a trace.

module GenerateThumbnailRoute {
  import opened Wrappers
  import opened JsString
  import opened Types
  import opened Templates
  import opened YouTube
  import opened Poe

  /** A value a `throw` can carry: an `Error` with its message, or anything else. */
  datatype Thrown = ErrorObject(message: string) | NonError

  /** `await request.json()`: the parsed body, or what the parser threw. */
  datatype BodyRead = Parsed(request: GenerateThumbnailRequest) | Unparseable(thrown: Thrown)

  /** What the handler awaits, given as inputs. */
  datatype Environment = Environment(
    parse: string -> Option<ParsedUrl>,  // `new URL(...)`; None when it throws
    primary: HttpOutcome,                // the oEmbed request
    fallback: HttpOutcome,               // the noembed request
    apiKey: Option<string>,              // `process.env.POE_API_KEY`
    reply: ProviderReply)                // the chat completion

  /** An observable step of the handler, in the order it happens. */
  datatype Call =
    | QueryMetadata(endpoint: MetadataEndpoint)
    | Generate(prompt: string, avatarDataUrl: Option<string>)
    | SendCompletion(request: ChatRequest)

  /** The calls made, the HTTP status and the JSON body of the reply. */
  datatype Exchange = Exchange(calls: seq<Call>, status: int, body: GenerateThumbnailResponse)

  const MissingFieldsError := "Missing required fields"
  const InvalidUrlError := "Invalid YouTube URL"
  const InvalidTemplateError := "Invalid template ID"
  const UnexpectedError := "An unexpected error occurred"

  function Failure(message: string): (r: GenerateThumbnailResponse)
    ensures !r.success && r.imageUrl.None? && r.error == Some(message)
  {
    GenerateThumbnailResponse(false, None, Some(message))
  }

  /** The message the catch block reports for a thrown value. */
  function MessageOf(t: Thrown): (m: string)
    ensures t.ErrorObject? ==> m == t.message
    ensures t.NonError? ==> m == UnexpectedError
  {
    match t
    case ErrorObject(message) => message
    case NonError => UnexpectedError
  }

  /** The metadata requests, in the order they were sent. */
  function Queries(queried: seq<MetadataEndpoint>): (calls: seq<Call>)
    ensures |calls| == |queried|
    ensures forall i :: 0 <= i < |queried| ==> calls[i] == QueryMetadata(queried[i])
  {
    seq(|queried|, i requires 0 <= i < |queried| => QueryMetadata(queried[i]))
  }

  /** Either required field absent or empty. */
  predicate MissingFields(req: GenerateThumbnailRequest) {
    !IsTruthy(req.youtubeUrl) || !IsTruthy(req.templateId)
  }

  /**
   * The message of the first check the body fails, in the handler's
   * order: both fields present and non-empty, then a URL the resolver
   * accepts, then a known template id.
   */
  function Rejection(req: GenerateThumbnailRequest, parse: string -> Option<ParsedUrl>): (r: Option<string>)
    ensures MissingFields(req) ==> r == Some(MissingFieldsError)
    ensures !MissingFields(req) && !IsValidYouTubeUrl(parse(req.youtubeUrl.value)) ==> r == Some(InvalidUrlError)
    ensures (!MissingFields(req) && IsValidYouTubeUrl(parse(req.youtubeUrl.value))
      && GetTemplate(req.templateId.value).None?) ==> r == Some(InvalidTemplateError)
    ensures r.None? <==> (!MissingFields(req) && IsValidYouTubeUrl(parse(req.youtubeUrl.value))
      && GetTemplate(req.templateId.value).Some?)
  {
    if MissingFields(req) then Some(MissingFieldsError)
    else if !IsValidYouTubeUrl(parse(req.youtubeUrl.value)) then Some(InvalidUrlError)
    else if GetTemplate(req.templateId.value).None? then Some(InvalidTemplateError)
    else None
  }

  /**
   * Everything after validation: the metadata lookup, then the prompt, then
   * the generator, called without an avatar. A failure of either answers
   * 500 with its message; the generator is never called when the lookup
   * failed.
   */
  function Proceed(template: Template, env: Environment): (x: Exchange)
    ensures var fetch := FetchVideoMetadata(env.primary, env.fallback);
      && |x.calls| >= |fetch.queried| && x.calls[..|fetch.queried|] == Queries(fetch.queried)
      && (fetch.result.Err? ==> x == Exchange(Queries(fetch.queried), 500, Failure(MetadataError)))
    ensures x.status == 200 || x.status == 500
    ensures x.body.success <==> x.status == 200
    ensures x.body.success ==> x.body.imageUrl.Some? && x.body.error.None?
    ensures !x.body.success ==> x.body.imageUrl.None? && x.body.error.Some?
  {
    var fetch := FetchVideoMetadata(env.primary, env.fallback);
    var queries := Queries(fetch.queried);
    match fetch.result
    case Err(message) => Exchange(queries, 500, Failure(message))
    case Ok(metadata) =>
      var prompt := BuildPrompt(template, metadata);
      var g := GenerateThumbnailWithPoe(env.apiKey, prompt, None, env.reply);
      var calls := queries + [Generate(prompt, None)]
        + (if g.request.Some? then [SendCompletion(g.request.value)] else []);
      assert calls[..|queries|] == queries;
      match g.result
      case Err(message) => Exchange(calls, 500, Failure(message))
      case Ok(imageUrl) => Exchange(calls, 200, GenerateThumbnailResponse(true, Some(imageUrl), None))
  }

  /**
   * The handler. A body that cannot be parsed answers 500 with the
   * parser's message; a body that fails a check answers 400 with that
   * check's message before anything is awaited; otherwise the request
   * proceeds with the template the id names.
   */
  function Post(read: BodyRead, env: Environment): (x: Exchange)
    ensures x.status == 200 || x.status == 400 || x.status == 500
    ensures x.body.success <==> x.status == 200
    ensures x.body.success ==> x.body.imageUrl.Some? && x.body.error.None?
    ensures !x.body.success ==> x.body.imageUrl.None? && x.body.error.Some?
    ensures read.Unparseable? ==> x == Exchange([], 500, Failure(MessageOf(read.thrown)))
    ensures x.status == 400 <==> read.Parsed? && Rejection(read.request, env.parse).Some?
    ensures x.status == 400 ==> x.calls == [] && x.body.error == Rejection(read.request, env.parse)
    ensures read.Parsed? && Rejection(read.request, env.parse).None? ==>
      x == Proceed(GetTemplate(read.request.templateId.value).value, env)
  {
    match read
    case Unparseable(thrown) => Exchange([], 500, Failure(MessageOf(thrown)))
    case Parsed(req) =>
      match Rejection(req, env.parse)
      case Some(message) => Exchange([], 400, Failure(message))
      case None => Proceed(GetTemplate(req.templateId.value).value, env)
  }

  /**
   * The steps after validation, case by case: the metadata requests come
   * first; with metadata the generator is called once, with the prompt
   * built from the template and that metadata and without an avatar; the
   * completion is sent only when the key is set; the reply is 200 with
   * the extracted URL exactly when a non-empty completion came back, and
   * otherwise 500 with the generator's message.
   */
  lemma ProceedOutcome(template: Template, env: Environment)
    ensures var x, fetch := Proceed(template, env), FetchVideoMetadata(env.primary, env.fallback);
      var q := Queries(fetch.queried);
      && (fetch.result.Err? ==> forall c :: c in x.calls ==> c.QueryMetadata?)
      && (fetch.result.Ok? ==>
        var prompt := BuildPrompt(template, fetch.result.value);
        && |x.calls| >= |q| + 1 && x.calls[|q|] == Generate(prompt, None)
        && (!IsTruthy(env.apiKey) ==> x == Exchange(q + [Generate(prompt, None)], 500, Failure(MissingKeyError)))
        && (IsTruthy(env.apiKey) ==>
          x.calls == q + [Generate(prompt, None), SendCompletion(CompletionRequest(env.apiKey.value, prompt, None))])
        && (x.status == 200 <==> (IsTruthy(env.apiKey) && env.reply.Completion? && IsTruthy(env.reply.content)))
        && (x.status == 200 ==> x.body.imageUrl == Some(ExtractImageUrl(env.reply.content.value)))
        && (IsTruthy(env.apiKey) && x.status != 200 ==> x.body.error == Some(GenerationError)))
  {
    var fetch := FetchVideoMetadata(env.primary, env.fallback);
    var q := Queries(fetch.queried);
    if fetch.result.Ok? {
      var prompt := BuildPrompt(template, fetch.result.value);
      var g := GenerateThumbnailWithPoe(env.apiKey, prompt, None, env.reply);
      assert (q + [Generate(prompt, None)])[|q|] == Generate(prompt, None);
      if g.request.Some? {
        assert q + [Generate(prompt, None)] + [SendCompletion(g.request.value)]
          == q + [Generate(prompt, None), SendCompletion(g.request.value)];
      } else {
        assert q + [Generate(prompt, None)] + [] == q + [Generate(prompt, None)];
      }
    }
  }

  /** A successful reply carries a URL that is a piece of the completion's text. */
  lemma PostImageUrlFromCompletion(read: BodyRead, env: Environment)
    requires Post(read, env).status == 200
    ensures env.reply.Completion? && IsTruthy(env.reply.content)
    ensures exists lo, hi :: (0 <= lo <= hi <= |env.reply.content.value|
      && Post(read, env).body.imageUrl == Some(env.reply.content.value[lo..hi]))
  {
    var req := read.request;
    var template := GetTemplate(req.templateId.value).value;
    ProceedOutcome(template, env);
    var content := env.reply.content.value;
    ExtractImageUrlIsSubstring(content);
  }

  /**
   * The design options and the avatar of the body are never read: changing
   * them changes neither the calls nor the reply.
   */
  lemma PostIgnoresDesignOptionsAndAvatar(req: GenerateThumbnailRequest, env: Environment,
                                          options: DesignOptions, avatarDataUrl: Option<string>)
    ensures Post(Parsed(req), env)
      == Post(Parsed(req.(designOptions := options, avatarDataUrl := avatarDataUrl)), env)
  {
  }
}
