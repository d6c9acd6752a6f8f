/**
 * The image-generation client: the API-key check, the one-message chat
 * request, and the best-effort cascade that pulls an image URL out of the
 * text the model answers with.
 */
module Poe {
  import opened Wrappers
  import opened JsString

  const BaseUrl := "https://api.poe.com/v1"
  const ModelName := "Grok-Imagine-Image"
  const MissingKeyError := "POE_API_KEY is not configured"
  const GenerationError := "Failed to generate thumbnail. Please try again."

  /** The text put in front of the prompt when an avatar image goes with it. */
  const AvatarInstruction := "This is the avatar/person to include in the thumbnail. "
    + "Use their likeness in the generated image.\n\n"

  /** One part of a multi-part message: an image given by URL, or text. */
  datatype ContentPart = ImageUrlPart(url: string) | TextPart(text: string)

  /** The content of a chat message: plain text, or a list of parts. */
  datatype MessageContent = PlainText(text: string) | Parts(parts: seq<ContentPart>)

  datatype ChatMessage = ChatMessage(role: string, content: MessageContent)

  /** What the client sends: its configuration and the completion parameters. */
  datatype ChatRequest = ChatRequest(
    apiKey: string,
    baseUrl: string,
    model: string,
    messages: seq<ChatMessage>,
    stream: bool)

  /**
   * The one user message: with a non-empty avatar, the avatar image part
   * and then the instruction followed by the prompt; otherwise the prompt
   * as plain text.
   */
  function UserMessage(prompt: string, avatarDataUrl: Option<string>): ChatMessage {
    if IsTruthy(avatarDataUrl) then
      ChatMessage("user", Parts([ImageUrlPart(avatarDataUrl.value), TextPart(AvatarInstruction + prompt)]))
    else
      ChatMessage("user", PlainText(prompt))
  }

  /** The prompt a message carries, read back from its text. */
  function PromptOf(m: ChatMessage): Option<string> {
    match m.content
    case PlainText(text) => Some(text)
    case Parts(parts) =>
      if |parts| == 2 && parts[1].TextPart? && OccursAt(parts[1].text, 0, AvatarInstruction)
      then Some(parts[1].text[|AvatarInstruction|..])
      else None
  }

  /** The reference image a message carries, if its first part is one. */
  function ReferenceImageOf(m: ChatMessage): Option<string> {
    match m.content
    case PlainText(_) => None
    case Parts(parts) => if |parts| >= 1 && parts[0].ImageUrlPart? then Some(parts[0].url) else None
  }

  /**
   * The user message gives back its prompt and its avatar: two parts, image
   * first, exactly when an avatar is given; plain text otherwise.
   */
  lemma UserMessageRoundTrip(prompt: string, avatarDataUrl: Option<string>)
    ensures var m := UserMessage(prompt, avatarDataUrl);
      && m.role == "user"
      && PromptOf(m) == Some(prompt)
      && ReferenceImageOf(m) == (if IsTruthy(avatarDataUrl) then avatarDataUrl else None)
      && (m.content.Parts? <==> IsTruthy(avatarDataUrl))
      && (m.content.Parts? ==> |m.content.parts| == 2 && m.content.parts[1].TextPart?)
  {
    if IsTruthy(avatarDataUrl) {
      var text := AvatarInstruction + prompt;
      assert text[..|AvatarInstruction|] == AvatarInstruction;
      assert text[|AvatarInstruction|..] == prompt;
    }
  }

  /** The messages array, filled by a single `push`. */
  method BuildMessages(prompt: string, avatarDataUrl: Option<string>) returns (messages: seq<ChatMessage>)
    ensures messages == [UserMessage(prompt, avatarDataUrl)]
    ensures |messages| == 1 && PromptOf(messages[0]) == Some(prompt)
  {
    messages := [];
    if IsTruthy(avatarDataUrl) {
      var parts := [ImageUrlPart(avatarDataUrl.value), TextPart(AvatarInstruction + prompt)];
      messages := messages + [ChatMessage("user", Parts(parts))];
    } else {
      messages := messages + [ChatMessage("user", PlainText(prompt))];
    }
    UserMessageRoundTrip(prompt, avatarDataUrl);
  }

  /** The completion request for a prompt: one user message, the fixed model, no streaming. */
  function CompletionRequest(apiKey: string, prompt: string, avatarDataUrl: Option<string>): ChatRequest {
    ChatRequest(apiKey, BaseUrl, ModelName, [UserMessage(prompt, avatarDataUrl)], false)
  }

  /**
   * The outcome of the completion call: it throws, or it answers and
   * `choices[0]?.message?.content` is the given optional text.
   */
  datatype ProviderReply = ProviderThrew | Completion(content: Option<string>)

  /** The request sent, if any, and the URL returned or the error thrown. */
  datatype Generation = Generation(request: Option<ChatRequest>, result: Result<string>)

  /**
   * `generateThumbnailWithPoe` with the key from the environment and the
   * provider's reply as inputs. A missing key throws before any request is
   * built; inside the `try`, a thrown call or empty content becomes the one
   * generic error; otherwise the result is the URL extracted from the content.
   */
  function GenerateThumbnailWithPoe(apiKey: Option<string>, prompt: string, avatarDataUrl: Option<string>,
                                    reply: ProviderReply): (g: Generation)
    ensures g.request.None? <==> !IsTruthy(apiKey)
    ensures !IsTruthy(apiKey) ==> g.result == Err(MissingKeyError)
    ensures g.request.Some? ==> g.request.value == CompletionRequest(apiKey.value, prompt, avatarDataUrl)
    ensures IsTruthy(apiKey) && g.result.Err? ==> g.result.message == GenerationError
    ensures g.result.Ok? <==> IsTruthy(apiKey) && reply.Completion? && IsTruthy(reply.content)
    ensures g.result.Ok? ==> g.result.value == ExtractImageUrl(reply.content.value)
  {
    if !IsTruthy(apiKey) then Generation(None, Err(MissingKeyError))
    else
      var request := CompletionRequest(apiKey.value, prompt, avatarDataUrl);
      match reply
      case ProviderThrew => Generation(Some(request), Err(GenerationError))
      case Completion(content) =>
        if !IsTruthy(content) then Generation(Some(request), Err(GenerationError))
        else Generation(Some(request), Ok(ExtractImageUrl(content.value)))
  }

  /** The substring `s[lo..hi]` a capture group stands for. */
  datatype Span = Span(lo: nat, hi: nat)

  /** A match starting at `start`, with the span of its URL capture. */
  datatype Hit = Hit(start: nat, url: Span)

  /** The characters that end a URL in the last two patterns: `\s`, `)`, `"` and `'`. */
  predicate EndsUrl(c: char) {
    IsJsWhitespace(c) || c == ')' || c == '"' || c == '\''
  }

  /** `p` at `i`, with or without the `/i` flag. */
  predicate MatchesAt(s: string, i: nat, p: string, ignoreCase: bool) {
    if ignoreCase then OccursAtIgnoringCase(s, i, p) else OccursAt(s, i, p)
  }

  /** `https?:\/\/` at `i`: the length of the scheme matched there, if any. */
  function SchemeLength(s: string, i: nat, ignoreCase: bool): (n: Option<nat>)
    ensures n.Some? ==> i + n.value <= |s|
    ensures n == Some(8) <==> MatchesAt(s, i, "https://", ignoreCase)
    ensures n == Some(7) <==> !MatchesAt(s, i, "https://", ignoreCase) && MatchesAt(s, i, "http://", ignoreCase)
    ensures n.Some? ==> n.value == 7 || n.value == 8
  {
    if MatchesAt(s, i, "https://", ignoreCase) then Some(8)
    else if MatchesAt(s, i, "http://", ignoreCase) then Some(7)
    else None
  }

  /** The end of the longest run of non-`EndsUrl` characters starting at `j`. */
  function RunEnd(s: string, j: nat): (e: nat)
    requires j <= |s|
    ensures j <= e <= |s|
    ensures forall k :: j <= k < e ==> !EndsUrl(s[k])
    ensures e == |s| || EndsUrl(s[e])
    decreases |s| - j
  {
    if j == |s| || EndsUrl(s[j]) then j else RunEnd(s, j + 1)
  }

  /** `\(https?:\/\/[^\)]+\)` at `k`: the URL up to the first `)` after the scheme, at least one character long. */
  function ParenthesisedUrl(s: string, k: nat): (r: Option<Span>)
    ensures r.Some? ==>
      && r.value.lo == k && r.value.hi < |s| && s[r.value.hi] == ')'
      && SchemeLength(s, k, false).Some? && k + SchemeLength(s, k, false).value < r.value.hi
      && forall m :: k <= m < r.value.hi ==> s[m] != ')'
  {
    match SchemeLength(s, k, false)
    case None => None
    case Some(n) =>
      match IndexOfFrom(s, ")", k + n)
      case None => None
      case Some(c) =>
        if c > k + n then
          assert forall m :: k + n <= m < c ==> s[m] != ')' by {
            forall m | k + n <= m < c ensures s[m] != ')' {
              assert !OccursAt(s, m, ")");
              assert s[m..m + 1] == [s[m]];
            }
          }
          assert s[c..c + 1] == ")";
          Some(Span(k, c))
        else None
  }

  /** No line terminator in `s[a..b]`: the `.` of a pattern can cross it. */
  predicate NoLineBreak(s: string, a: nat, b: nat) {
    forall m :: a <= m < b && m < |s| ==> !IsLineTerminator(s[m])
  }

  /**
   * `.*?\]\(` followed by a parenthesised URL, from `j`: the lazy label
   * stops at the first `](` after which a URL matches, and never crosses a
   * line terminator.
   */
  function LabelThenUrl(s: string, j: nat): (r: Option<Span>)
    ensures r.Some? ==>
      && j + 2 <= r.value.lo && OccursAt(s, r.value.lo - 2, "](")
      && ParenthesisedUrl(s, r.value.lo) == r
      && (forall m :: j <= m < r.value.lo - 2 ==> !IsLineTerminator(s[m]))
    decreases |s| - j
  {
    if j >= |s| then None
    else
      var url := ParenthesisedUrl(s, j + 2);
      if OccursAt(s, j, "](") && url.Some? then url
      else if IsLineTerminator(s[j]) then None
      else LabelThenUrl(s, j + 1)
  }

  /** `!\[.*?\]\((https?:\/\/[^\)]+)\)` at `i`, with the span of the URL group. */
  function MarkdownImageAt(s: string, i: nat): (r: Option<Span>)
    ensures r.Some? ==> OccursAt(s, i, "![") && LabelThenUrl(s, i + 2) == r
    ensures r.Some? ==> i + 4 <= r.value.lo < r.value.hi < |s|
  {
    if OccursAt(s, i, "![") then LabelThenUrl(s, i + 2) else None
  }

  /** An image extension, ignoring case, at `p`. */
  predicate ImageExtensionAt(s: string, p: nat) {
    || OccursAtIgnoringCase(s, p, ".png") || OccursAtIgnoringCase(s, p, ".jpg")
    || OccursAtIgnoringCase(s, p, ".jpeg") || OccursAtIgnoringCase(s, p, ".webp")
    || OccursAtIgnoringCase(s, p, ".gif")
  }

  /** Some image extension starts in `[p, e)`. */
  function ExtensionBetween(s: string, p: nat, e: nat): (b: bool)
    ensures b <==> exists q :: p <= q < e && ImageExtensionAt(s, q)
    decreases e - p
  {
    if p >= e then false else ImageExtensionAt(s, p) || ExtensionBetween(s, p + 1, e)
  }

  /**
   * `(https?:\/\/[^\s\)\"\']+\.(png|jpg|jpeg|webp|gif)[^\s\)\"\']*)` with
   * the `/i` flag at `i`: the whole run of URL characters after the scheme,
   * when an extension starts inside it after at least one character.
   */
  function ImageExtensionUrlAt(s: string, i: nat): (r: Option<Span>)
    ensures r.Some? ==> SchemeLength(s, i, true).Some?
    ensures r.Some? ==> var n := SchemeLength(s, i, true).value;
      && r.value == Span(i, RunEnd(s, i + n))
      && exists q :: i + n + 1 <= q < r.value.hi && ImageExtensionAt(s, q)
  {
    match SchemeLength(s, i, true)
    case None => None
    case Some(n) =>
      var e := RunEnd(s, i + n);
      if ExtensionBetween(s, i + n + 1, e) then Some(Span(i, e)) else None
  }

  /** `(https?:\/\/[^\s\)\"\']+)` at `i`: the scheme and the non-empty run of URL characters after it. */
  function AnyUrlAt(s: string, i: nat): (r: Option<Span>)
    ensures r.Some? ==> SchemeLength(s, i, false).Some?
    ensures r.Some? ==> var n := SchemeLength(s, i, false).value;
      r.value == Span(i, RunEnd(s, i + n)) && i + n < r.value.hi
  {
    match SchemeLength(s, i, false)
    case None => None
    case Some(n) =>
      var e := RunEnd(s, i + n);
      if e > i + n then Some(Span(i, e)) else None
  }

  /**
   * The parenthesised URL fails after a scheme exactly when the text after
   * the scheme starts with `)` or holds no `)` at all.
   */
  lemma ParenthesisedUrlComplete(s: string, k: nat)
    requires SchemeLength(s, k, false).Some?
    ensures var b := k + SchemeLength(s, k, false).value;
      ParenthesisedUrl(s, k).None? <==> ((b < |s| && s[b] == ')') || forall m :: b <= m < |s| ==> s[m] != ')')
  {
    var b := k + SchemeLength(s, k, false).value;
    match IndexOfFrom(s, ")", b)
    case None =>
      forall m | b <= m < |s| ensures s[m] != ')' {
        assert !OccursAt(s, m, ")");
        assert s[m..m + 1] == [s[m]];
      }
    case Some(c) =>
      assert s[c..c + 1] == ")";
  }

  /** The label is lazy: no earlier `](` is followed by a URL. */
  lemma {:induction false} LabelThenUrlLeftmost(s: string, j: nat)
    ensures var r := LabelThenUrl(s, j);
      r.Some? ==> forall m :: j <= m < r.value.lo - 2 && OccursAt(s, m, "](") ==> ParenthesisedUrl(s, m + 2).None?
    decreases |s| - j
  {
    var r := LabelThenUrl(s, j);
    if j < |s| && !(OccursAt(s, j, "](") && ParenthesisedUrl(s, j + 2).Some?) && !IsLineTerminator(s[j]) {
      assert r == LabelThenUrl(s, j + 1);
      LabelThenUrlLeftmost(s, j + 1);
      if r.Some? {
        forall m | j <= m < r.value.lo - 2 && OccursAt(s, m, "](") ensures ParenthesisedUrl(s, m + 2).None? {
          if m == j {
            assert !ParenthesisedUrl(s, j + 2).Some?;
          }
        }
      }
    }
  }

  /**
   * A `](` at `m` followed by a URL, with no line terminator between `j` and
   * `m`, is found: the lazy label stops there or at an earlier `](`.
   */
  lemma {:induction false} LabelThenUrlComplete(s: string, j: nat, m: nat)
    requires j <= m && OccursAt(s, m, "](") && ParenthesisedUrl(s, m + 2).Some?
    requires NoLineBreak(s, j, m)
    ensures LabelThenUrl(s, j).Some? && LabelThenUrl(s, j).value.lo <= m + 2
    decreases m - j
  {
    if j < m && !(OccursAt(s, j, "](") && ParenthesisedUrl(s, j + 2).Some?) {
      assert !IsLineTerminator(s[j]);
      LabelThenUrlComplete(s, j + 1, m);
    }
  }

  /** `![` at `i`, then a label without line terminators, `](` and a URL: the markdown pattern matches at `i`. */
  lemma MarkdownImageAtComplete(s: string, i: nat, m: nat)
    requires OccursAt(s, i, "![") && i + 2 <= m && OccursAt(s, m, "](") && ParenthesisedUrl(s, m + 2).Some?
    requires NoLineBreak(s, i + 2, m)
    ensures MarkdownImageAt(s, i).Some? && MarkdownImageAt(s, i).value.lo <= m + 2
  {
    LabelThenUrlComplete(s, i + 2, m);
  }

  /** The image-extension pattern matches at `i` exactly when a scheme's run holds an extension after its first character. */
  lemma ImageExtensionUrlAtComplete(s: string, i: nat)
    ensures ImageExtensionUrlAt(s, i).Some? <==>
      (SchemeLength(s, i, true).Some? && var n := SchemeLength(s, i, true).value;
        exists q :: i + n + 1 <= q < RunEnd(s, i + n) && ImageExtensionAt(s, q))
  {
  }

  /** The bare-URL pattern matches at `i` exactly when a scheme is followed by at least one URL character. */
  lemma AnyUrlAtComplete(s: string, i: nat)
    ensures AnyUrlAt(s, i).Some? <==>
      (SchemeLength(s, i, false).Some? && RunEnd(s, i + SchemeLength(s, i, false).value) > i + SchemeLength(s, i, false).value)
  {
  }

  /** `String.prototype.match` without the `g` flag: the leftmost start at or after `from` where `at` matches. */
  function FirstMatch(s: string, from: nat, at: (string, nat) -> Option<Span>): (h: Option<Hit>)
    ensures h.Some? ==> from <= h.value.start < |s| && at(s, h.value.start) == Some(h.value.url)
    ensures forall j :: from <= j < |s| && (h.None? || j < h.value.start) ==> at(s, j).None?
    decreases |s| - from
  {
    if from >= |s| then None
    else match at(s, from)
      case Some(span) => Some(Hit(from, span))
      case None => FirstMatch(s, from + 1, at)
  }

  /** Which step of the cascade decides the result. */
  datatype Extraction =
    | DirectUrl
    | MarkdownImage(hit: Hit)
    | ImageExtensionUrl(hit: Hit)
    | AnyUrl(hit: Hit)
    | RawContent

  predicate StartsWithScheme(content: string) {
    OccursAt(content, 0, "http://") || OccursAt(content, 0, "https://")
  }

  /** The cascade: a bare URL, then the three patterns in order, then the raw content. */
  function Classify(content: string): (x: Extraction)
    ensures !x.DirectUrl? && !x.RawContent? ==> x.hit.url.lo <= x.hit.url.hi <= |content|
  {
    if StartsWithScheme(content) then DirectUrl
    else match FirstMatch(content, 0, MarkdownImageAt)
      case Some(h) => MarkdownImage(h)
      case None =>
        match FirstMatch(content, 0, ImageExtensionUrlAt)
        case Some(h) => ImageExtensionUrl(h)
        case None =>
          match FirstMatch(content, 0, AnyUrlAt)
          case Some(h) => AnyUrl(h)
          case None => RawContent
  }

  /** The URL returned for a non-empty content. */
  function ExtractImageUrl(content: string): (url: string) {
    match Classify(content)
    case DirectUrl => Trim(content)
    case RawContent => content
    case MarkdownImage(h) => content[h.url.lo..h.url.hi]
    case ImageExtensionUrl(h) => content[h.url.lo..h.url.hi]
    case AnyUrl(h) => content[h.url.lo..h.url.hi]
  }

  /**
   * First match wins: each step decides exactly when every earlier step
   * found nothing and it finds a match somewhere.
   */
  lemma CascadeOrder(content: string)
    ensures var x := Classify(content);
      && (x.DirectUrl? <==> StartsWithScheme(content))
      && (x.MarkdownImage? <==> (!StartsWithScheme(content)
        && exists i :: 0 <= i < |content| && MarkdownImageAt(content, i).Some?))
      && (x.ImageExtensionUrl? <==> (!StartsWithScheme(content)
        && (forall i :: 0 <= i < |content| ==> MarkdownImageAt(content, i).None?)
        && exists i :: 0 <= i < |content| && ImageExtensionUrlAt(content, i).Some?))
      && (x.AnyUrl? <==> (!StartsWithScheme(content)
        && (forall i :: 0 <= i < |content| ==> MarkdownImageAt(content, i).None?)
        && (forall i :: 0 <= i < |content| ==> ImageExtensionUrlAt(content, i).None?)
        && exists i :: 0 <= i < |content| && AnyUrlAt(content, i).Some?))
  {
  }

  /** The hit of the deciding pattern is its leftmost match. */
  lemma CascadeHitIsLeftmost(content: string)
    ensures var x := Classify(content);
      && (x.MarkdownImage? ==> (MarkdownImageAt(content, x.hit.start) == Some(x.hit.url)
        && forall j :: 0 <= j < x.hit.start ==> MarkdownImageAt(content, j).None?))
      && (x.ImageExtensionUrl? ==> (ImageExtensionUrlAt(content, x.hit.start) == Some(x.hit.url)
        && forall j :: 0 <= j < x.hit.start ==> ImageExtensionUrlAt(content, j).None?))
      && (x.AnyUrl? ==> (AnyUrlAt(content, x.hit.start) == Some(x.hit.url)
        && forall j :: 0 <= j < x.hit.start ==> AnyUrlAt(content, j).None?))
  {
  }

  /**
   * A span that starts with a scheme and runs past it is a URL string
   * with that scheme at its front and at least one character after it.
   */
  lemma SchemeOfSpan(s: string, lo: nat, hi: nat, ignoreCase: bool)
    requires lo <= hi <= |s| && SchemeLength(s, lo, ignoreCase).Some?
    requires lo + SchemeLength(s, lo, ignoreCase).value < hi
    ensures var url := s[lo..hi];
      || (MatchesAt(url, 0, "https://", ignoreCase) && |url| > 8)
      || (!MatchesAt(url, 0, "https://", ignoreCase) && MatchesAt(url, 0, "http://", ignoreCase) && |url| > 7)
  {
    var url := s[lo..hi];
    if ignoreCase {
      OccursIgnoringCaseInSlice(s, lo, hi, 0, "http://");
      if hi - lo >= 8 {
        OccursIgnoringCaseInSlice(s, lo, hi, 0, "https://");
      }
    } else {
      OccursInSlice(s, lo, hi, 0, "http://");
      if hi - lo >= 8 {
        OccursInSlice(s, lo, hi, 0, "https://");
      }
    }
  }

  /**
   * A match of the Markdown pattern at `start` captures a URL string: it
   * starts with `http://` or `https://`, has at least one character after
   * the scheme, holds no `)` and is followed by one; before it come `![`,
   * a label without line terminators, and `](`.
   */
  lemma MarkdownImageSpan(s: string, start: nat, span: Span)
    requires MarkdownImageAt(s, start) == Some(span)
    ensures span.lo <= span.hi < |s|
    ensures var url := s[span.lo..span.hi];
      && ((OccursAt(url, 0, "https://") && |url| > 8)
        || (!OccursAt(url, 0, "https://") && OccursAt(url, 0, "http://") && |url| > 7))
      && ')' !in url && s[span.hi] == ')'
      && OccursAt(s, start, "![") && start + 4 <= span.lo && OccursAt(s, span.lo - 2, "](")
      && forall m :: start + 2 <= m < span.lo - 2 ==> !IsLineTerminator(s[m])
  {
    var lo, hi := span.lo, span.hi;
    assert ParenthesisedUrl(s, lo) == Some(span);
    SchemeOfSpan(s, lo, hi, false);
    var url := s[lo..hi];
    forall m | 0 <= m < |url| ensures url[m] != ')' {
      assert url[m] == s[lo + m];
    }
  }

  /**
   * The Markdown step returns the parenthesised URL of the leftmost
   * `![label](url)`: a substring of the content that starts with `http://`
   * or `https://`, has at least one character after the scheme, holds no
   * `)` and is followed by one; the label holds no line terminator.
   */
  lemma MarkdownImageResult(content: string)
    requires Classify(content).MarkdownImage?
    ensures var h, url := Classify(content).hit, ExtractImageUrl(content);
      && h.url.lo <= h.url.hi < |content| && url == content[h.url.lo..h.url.hi]
      && ((OccursAt(url, 0, "https://") && |url| > 8)
        || (!OccursAt(url, 0, "https://") && OccursAt(url, 0, "http://") && |url| > 7))
      && ')' !in url && content[h.url.hi] == ')'
      && OccursAt(content, h.start, "![") && h.start + 4 <= h.url.lo && OccursAt(content, h.url.lo - 2, "](")
      && forall m :: h.start + 2 <= m < h.url.lo - 2 ==> !IsLineTerminator(content[m])
  {
    var h := Classify(content).hit;
    assert MarkdownImageAt(content, h.start) == Some(h.url);
    MarkdownImageSpan(content, h.start, h.url);
  }

  /**
   * A character that folds onto a pattern character that cannot end a URL
   * cannot end a URL either: folding only moves upper-case ASCII letters.
   */
  lemma FoldedCharsContinueUrl(s: string, i: nat, p: string)
    requires OccursAtIgnoringCase(s, i, p)
    requires forall k :: 0 <= k < |p| ==> !EndsUrl(LowerAscii(p[k]))
    ensures forall m :: i <= m < i + |p| ==> !EndsUrl(s[m])
  {
    forall m | i <= m < i + |p| ensures !EndsUrl(s[m]) {
      assert LowerAscii(s[i + (m - i)]) == LowerAscii(p[m - i]);
    }
  }

  /** The same without case folding. */
  lemma PlainCharsContinueUrl(s: string, i: nat, p: string)
    requires OccursAt(s, i, p)
    requires forall k :: 0 <= k < |p| ==> !EndsUrl(p[k])
    ensures forall m :: i <= m < i + |p| ==> !EndsUrl(s[m])
  {
    forall m | i <= m < i + |p| ensures !EndsUrl(s[m]) {
      assert s[m] == s[i..i + |p|][m - i];
    }
  }

  /** The scheme a match starts with holds no URL-ending character. */
  lemma SchemeContinuesUrl(s: string, i: nat, ignoreCase: bool)
    requires SchemeLength(s, i, ignoreCase).Some?
    ensures forall m :: i <= m < i + SchemeLength(s, i, ignoreCase).value ==> !EndsUrl(s[m])
  {
    var https := SchemeLength(s, i, ignoreCase) == Some(8);
    if ignoreCase && https {
      FoldedCharsContinueUrl(s, i, "https://");
    } else if ignoreCase {
      FoldedCharsContinueUrl(s, i, "http://");
    } else if https {
      PlainCharsContinueUrl(s, i, "https://");
    } else {
      PlainCharsContinueUrl(s, i, "http://");
    }
  }

  /**
   * A pattern of URL characters that starts inside the run beginning at
   * `j` lies wholly inside it, and so inside any slice of `s` that starts
   * at or before `j` and ends where the run ends.
   */
  lemma FoldedInsideRun(s: string, lo: nat, j: nat, q: nat, p: string)
    requires lo <= j <= |s| && j <= q < RunEnd(s, j) && OccursAtIgnoringCase(s, q, p)
    requires forall k :: 0 <= k < |p| ==> !EndsUrl(LowerAscii(p[k]))
    ensures OccursAtIgnoringCase(s[lo..RunEnd(s, j)], q - lo, p)
  {
    var e := RunEnd(s, j);
    FoldedCharsContinueUrl(s, q, p);
    assert q + |p| <= e;
    OccursIgnoringCaseInSlice(s, lo, e, q - lo, p);
  }

  /** The same for an image extension. */
  lemma ExtensionInsideRun(s: string, lo: nat, j: nat, q: nat)
    requires lo <= j <= |s| && j <= q < RunEnd(s, j) && ImageExtensionAt(s, q)
    ensures ImageExtensionAt(s[lo..RunEnd(s, j)], q - lo)
  {
    if OccursAtIgnoringCase(s, q, ".png") {
      FoldedInsideRun(s, lo, j, q, ".png");
    } else if OccursAtIgnoringCase(s, q, ".jpg") {
      FoldedInsideRun(s, lo, j, q, ".jpg");
    } else if OccursAtIgnoringCase(s, q, ".jpeg") {
      FoldedInsideRun(s, lo, j, q, ".jpeg");
    } else if OccursAtIgnoringCase(s, q, ".webp") {
      FoldedInsideRun(s, lo, j, q, ".webp");
    } else {
      FoldedInsideRun(s, lo, j, q, ".gif");
    }
  }

  /**
   * A match of the image-extension pattern at `lo` captures a URL string:
   * the scheme (any case) with at least one character after it, no
   * URL-ending character, not extendable to the right, and an image
   * extension after the first character past the scheme.
   */
  lemma ImageExtensionSpan(s: string, lo: nat, span: Span)
    requires ImageExtensionUrlAt(s, lo) == Some(span)
    ensures span.lo == lo && span.hi <= |s|
    ensures var url := s[lo..span.hi];
      && ((OccursAtIgnoringCase(url, 0, "https://") && |url| > 8)
        || (!OccursAtIgnoringCase(url, 0, "https://") && OccursAtIgnoringCase(url, 0, "http://") && |url| > 7))
      && (forall m :: 0 <= m < |url| ==> !EndsUrl(url[m]))
      && (span.hi == |s| || EndsUrl(s[span.hi]))
      && exists q :: (if OccursAtIgnoringCase(url, 0, "https://") then 9 else 8) <= q < |url| && ImageExtensionAt(url, q)
  {
    var hi := span.hi;
    var n := SchemeLength(s, lo, true).value;
    SchemeOfSpan(s, lo, hi, true);
    SchemeContinuesUrl(s, lo, true);
    var url := s[lo..hi];
    forall m | 0 <= m < |url| ensures !EndsUrl(url[m]) {
      assert url[m] == s[lo + m];
    }
    var q :| lo + n + 1 <= q < hi && ImageExtensionAt(s, q);
    ExtensionInsideRun(s, lo, lo + n, q);
  }

  /**
   * The image-extension step returns the leftmost `http(s)://` (any case)
   * with the whole run of URL characters after it: a substring of the
   * content with no URL-ending character, not extendable to the right,
   * holding an image extension after the first character past the scheme.
   */
  lemma ImageExtensionUrlResult(content: string)
    requires Classify(content).ImageExtensionUrl?
    ensures var h, url := Classify(content).hit, ExtractImageUrl(content);
      && h.url.lo == h.start && h.url.hi <= |content| && url == content[h.start..h.url.hi]
      && ((OccursAtIgnoringCase(url, 0, "https://") && |url| > 8)
        || (!OccursAtIgnoringCase(url, 0, "https://") && OccursAtIgnoringCase(url, 0, "http://") && |url| > 7))
      && (forall m :: 0 <= m < |url| ==> !EndsUrl(url[m]))
      && (h.url.hi == |content| || EndsUrl(content[h.url.hi]))
      && exists q :: (if OccursAtIgnoringCase(url, 0, "https://") then 9 else 8) <= q < |url| && ImageExtensionAt(url, q)
  {
    var h := Classify(content).hit;
    assert ImageExtensionUrlAt(content, h.start) == Some(h.url);
    ImageExtensionSpan(content, h.start, h.url);
  }

  /**
   * A match of the bare-URL pattern at `lo` captures a URL string: the
   * scheme with at least one character after it, no URL-ending character,
   * not extendable to the right.
   */
  lemma AnyUrlSpan(s: string, lo: nat, span: Span)
    requires AnyUrlAt(s, lo) == Some(span)
    ensures span.lo == lo && span.hi <= |s|
    ensures var url := s[lo..span.hi];
      && ((OccursAt(url, 0, "https://") && |url| > 8)
        || (!OccursAt(url, 0, "https://") && OccursAt(url, 0, "http://") && |url| > 7))
      && (forall m :: 0 <= m < |url| ==> !EndsUrl(url[m]))
      && (span.hi == |s| || EndsUrl(s[span.hi]))
  {
    var hi := span.hi;
    SchemeOfSpan(s, lo, hi, false);
    SchemeContinuesUrl(s, lo, false);
    var url := s[lo..hi];
    forall m | 0 <= m < |url| ensures !EndsUrl(url[m]) {
      assert url[m] == s[lo + m];
    }
  }

  /**
   * The last pattern returns the leftmost `http://` or `https://` with the
   * whole run of URL characters after it: a substring of the content with
   * at least one character past the scheme, no URL-ending character, and
   * not extendable to the right.
   */
  lemma AnyUrlResult(content: string)
    requires Classify(content).AnyUrl?
    ensures var h, url := Classify(content).hit, ExtractImageUrl(content);
      && h.url.lo == h.start && h.url.hi <= |content| && url == content[h.start..h.url.hi]
      && ((OccursAt(url, 0, "https://") && |url| > 8)
        || (!OccursAt(url, 0, "https://") && OccursAt(url, 0, "http://") && |url| > 7))
      && (forall m :: 0 <= m < |url| ==> !EndsUrl(url[m]))
      && (h.url.hi == |content| || EndsUrl(content[h.url.hi]))
  {
    var h := Classify(content).hit;
    assert AnyUrlAt(content, h.start) == Some(h.url);
    AnyUrlSpan(content, h.start, h.url);
  }

  /**
   * Trimming a string that starts with `http://` or `https://` keeps it up
   * to its trailing white space, and keeps the scheme.
   */
  lemma TrimKeepsScheme(s: string)
    requires StartsWithScheme(s)
    ensures var u := Trim(s);
      && |u| <= |s| && u == s[..|u|]
      && StartsWithScheme(u)
      && !IsJsWhitespace(u[|u| - 1])
      && forall k :: |u| <= k < |s| ==> IsJsWhitespace(s[k])
  {
    assert s[0] == 'h' by {
      assert s[0] == s[0..7][0];
    }
    TrimWithoutLeadingSpace(s);
    if OccursAt(s, 0, "https://") {
      TrimEndKeepsPrefix(s, "https://");
    } else {
      TrimEndKeepsPrefix(s, "http://");
    }
  }

  /**
   * A reply that starts with `http://` or `https://` is returned trimmed:
   * the content up to its trailing white space, still starting with the
   * scheme.
   */
  lemma DirectUrlResult(content: string)
    requires Classify(content).DirectUrl?
    ensures var url := ExtractImageUrl(content);
      && |url| <= |content| && url == content[..|url|]
      && StartsWithScheme(url)
      && !IsJsWhitespace(url[|url| - 1])
      && forall k :: |url| <= k < |content| ==> IsJsWhitespace(content[k])
  {
    TrimKeepsScheme(content);
  }

  /**
   * A reply in which no pattern matches is returned unchanged; then every
   * `http://` or `https://` in it is at the end or followed by a
   * URL-ending character.
   */
  lemma RawContentResult(content: string)
    requires Classify(content).RawContent?
    ensures ExtractImageUrl(content) == content
    ensures !StartsWithScheme(content)
    ensures forall i :: 0 <= i < |content| && SchemeLength(content, i, false).Some? ==>
      var e := i + SchemeLength(content, i, false).value; e == |content| || EndsUrl(content[e])
  {
    CascadeOrder(content);
    forall i | 0 <= i < |content| && SchemeLength(content, i, false).Some?
      ensures var e := i + SchemeLength(content, i, false).value; e == |content| || EndsUrl(content[e])
    {
      assert AnyUrlAt(content, i).None?;
    }
  }

  /**
   * Whatever step decides, the URL returned is a piece of the reply: the
   * trimmed reply, a capture of one of the patterns, or the reply itself.
   */
  lemma {:induction false} ExtractImageUrlIsSubstring(content: string)
    ensures exists lo, hi :: 0 <= lo <= hi <= |content| && ExtractImageUrl(content) == content[lo..hi]
  {
    var url := ExtractImageUrl(content);
    match Classify(content)
    case DirectUrl =>
      DirectUrlResult(content);
      assert url == content[0..|url|];
    case MarkdownImage(h) =>
      assert url == content[h.url.lo..h.url.hi];
    case ImageExtensionUrl(h) =>
      assert url == content[h.url.lo..h.url.hi];
    case AnyUrl(h) =>
      assert url == content[h.url.lo..h.url.hi];
    case RawContent =>
      assert url == content[0..|content|];
  }
}
