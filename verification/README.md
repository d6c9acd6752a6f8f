# thumbforge core, modelled in Dafny

thumbforge turns a pasted YouTube link into a generated thumbnail. The
server side of that path is modelled here: it resolves the video id from
the link, reads the video's metadata from oEmbed (falling back to
noembed), picks one of six style templates and builds a text prompt from
it, and asks an image model on Poe for a picture. It then pulls an image
URL out of whatever text the model answers with. The
`POST /api/generate-thumbnail` handler ties these together with
fail-fast validation and maps every failure to a status code and a
message.

Modules, one per source file (plus two of support):

- `Wrappers`: `Option` and `Result`.
- `JsString`: the JavaScript string built-ins the source relies on, written
  out on `seq<char>`. These are `includes`, `indexOf`, `split`, `slice`,
  `trim`, the `\s` class and the ASCII case folding of the `/i` flag.
- `Types` (`src/types/index.ts`): the records, the two position
  enumerations and `defaultDesignOptions`.
- `YouTube` (`src/lib/youtube.ts`): the three-rule id resolver over a
  parsed URL, and the metadata fetch as a decision over two HTTP outcomes.
- `Poe` (`src/lib/poe.ts`): the key check, the one-message request (a
  method that pushes onto the message list), and the five-step extraction
  cascade. Its three regular expressions are written as scanning
  functions, and a generic leftmost search gives `String.prototype.match`.
- `Templates` (`src/lib/templates.ts`): the catalog, the lookup and the
  prompt builder.
- `GenerateThumbnailRoute` (`src/app/api/generate-thumbnail/route.ts`): the
  handler as a function of the parsed body and of the outcomes of
  everything it awaits. It returns the calls it made, the status and the
  JSON body.

Inputs that stand for the outside world:

- The URL parser is a function `string -> Option<ParsedUrl>`; `None` means
  `new URL` threw.
- Each `fetch` is an `HttpOutcome`: it threw, or it answered with a
  status and a body that parsed as JSON or not.
- The API key is an `Option<string>`.
- The chat completion is a `ProviderReply`: it threw, or it answered
  with an optional content string.

## Model

| member | source | states |
|---|---|---|
| JsString.IndexOfFrom | src/lib/youtube.ts:8 | the result is the first index at or after `from` where the pattern occurs; `None` only when it occurs nowhere there |
| JsString.Includes | src/lib/youtube.ts:8 | `includes`: the first `indexOf` search from 0 finds the pattern |
| JsString.IncludesIff | src/lib/youtube.ts:8 | `includes` holds exactly when the pattern occurs at some index |
| JsString.SliceFrom | src/lib/youtube.ts:15 | `slice(n)`: the characters from `n` on, and the empty string when `n` is past the end |
| JsString.Split | src/lib/youtube.ts:21-22 | splitting gives at least one piece, and at least two when the separator occurs |
| JsString.SplitPartsLackSeparator | src/lib/youtube.ts:21-22 | no piece of a split holds the separator |
| JsString.JoinSplit | src/lib/youtube.ts:21-22 | joining the pieces with the separator gives back the string |
| JsString.SplitHead | src/lib/youtube.ts:21-22 | the first piece is the prefix up to the first occurrence of the separator (or the whole string); the remaining pieces are the split of what follows that occurrence |
| JsString.SplitSecondPiece | src/lib/youtube.ts:21 | with the first occurrence at `k`, piece 1 is the first piece of the text after it |
| JsString.SplitJoinChar | src/lib/templates.ts:49-55 | splitting on a character the parts do not hold gives the parts back, with the last part split further |
| JsString.TrimStart | src/lib/poe.ts:57 | drops exactly the leading white space: a suffix that starts with a non-space, with only spaces before it |
| JsString.TrimEnd | src/lib/poe.ts:57 | drops exactly the trailing white space: a prefix that ends with a non-space, with only spaces after it |
| JsString.LeadingSpace | src/lib/poe.ts:57 | the index of the first character that is not white space (the length when there is none), with only white space before it |
| JsString.Trim | src/lib/poe.ts:57 | the result is the slice of the input that starts where the leading white space ends and has only white space after it; it neither starts nor ends with white space |
| Types.AvatarPositionLiterals | src/types/index.ts:22 | the avatar position takes exactly the values `left`, `right` and `center`; name and parse are inverse |
| Types.TextPositionLiterals | src/types/index.ts:23 | the text position takes exactly the values `top`, `bottom` and `center`; name and parse are inverse |
| Types.DefaultDesignOptionsValues | src/types/index.ts:27-36 | the constant `DefaultDesignOptions` holds the defaults: white on black, both titles shown, no avatar, avatar right, text bottom, opacity 50 within 0–100 |
| Templates.CatalogIdsDistinct | src/lib/templates.ts:3-40 | the catalog (the constant `Catalog`, with the six ids, names, descriptions and style texts of the source) has six entries with pairwise distinct ids |
| Templates.FindFrom | src/lib/templates.ts:43 | `find`: the first index at or after `from` with the id, and none before it |
| Templates.GetTemplate | src/lib/templates.ts:42-44 | a found template is a catalog entry with that id; nothing is found exactly when no entry has it |
| Templates.GetTemplateOfCatalogEntry | src/lib/templates.ts:3-44 | looking up the id of any catalog entry gives that entry back |
| Templates.FindFromDistinct | src/lib/templates.ts:43 | with distinct ids, the search for entry `i`'s id stops at `i` |
| Templates.BuildPrompt | src/lib/templates.ts:46-56 | `buildPrompt`: the template literal over the style text, the title, the creator line and the closing paragraph; its layout is stated by the lemmas below |
| Templates.BuildPromptStartsWithStyle | src/lib/templates.ts:49 | the prompt begins with the template's style text verbatim |
| Templates.BuildPromptHasTitleLine | src/lib/templates.ts:49-52 | after the style come a blank line, `Video context:` and the quoted title on its own line |
| Templates.PromptCreatorLine | src/lib/templates.ts:49-55 | for any style, title and closing text, right after the title line come `Creator: `, the name and a blank line exactly when the author name is non-empty, and otherwise the blank line at once |
| Templates.BuildPromptHasCreatorLine | src/lib/templates.ts:53 | for every template and metadata, right after the title line the prompt holds `Creator: <name>` and a blank line exactly when the author name is non-empty, and the blank line otherwise |
| Templates.BuildPromptEndsWithClosing | src/lib/templates.ts:55 | the prompt ends with the fixed closing paragraph |
| Templates.BuildPromptReadsTitleAndAuthor | src/lib/templates.ts:46-47 | two metadata records that agree on title and author name give the same prompt |
| Templates.BuildPromptLines | src/lib/templates.ts:49-55 | line by line: style, blank, `Video context:`, `Title: "<title>"`, a creator line that is `Creator: <name>` exactly when the name is non-empty and empty otherwise, then blank (the closing paragraph follows) |
| Templates.PromptIsJoinOfLines | src/lib/templates.ts:49-55 | the template literal is seven lines joined by line feeds |
| Templates.CreatorLineShape | src/lib/templates.ts:53 | the creator line starts with `Creator: ` exactly when the author name is non-empty, is followed by the name, and is empty otherwise |
| YouTube.ParamIndex | src/lib/youtube.ts:9 | the index of the first query pair with that name, and no such pair before it |
| YouTube.SearchParam | src/lib/youtube.ts:9 | `searchParams.get`: `None` exactly when no pair has the name, otherwise the value of the first such pair |
| YouTube.ExtractVideoId | src/lib/youtube.ts:3-29 | a URL the parser rejected gives `None`; an id is found exactly when one of the three rules fires |
| YouTube.IsValidYouTubeUrl | src/lib/youtube.ts:31-33 | `isValidYouTubeUrl`: an id can be extracted |
| YouTube.ValidIffIdFound | src/lib/youtube.ts:31-33 | a URL is valid exactly when an id is extracted from it; an unparseable one never is |
| YouTube.WatchRule | src/lib/youtube.ts:8-11 | on a `youtube.com` host with a non-empty first `v` parameter, the id is that value, whatever the path |
| YouTube.ShortLinkRule | src/lib/youtube.ts:14-17 | otherwise, on a `youtu.be` host with a path longer than `/`, the id is the path without its first character |
| YouTube.ShortsRule | src/lib/youtube.ts:20-23 | otherwise, on any host, the id is the text after the first `/shorts/` cut at the first `?` or the next `/shorts/`; it exists exactly when that text is non-empty and does not start with `/shorts/` |
| YouTube.NoRule | src/lib/youtube.ts:10-25 | when no rule fires, including an empty `v` or an empty short-link path, the result is `None` |
| YouTube.NormalizeMetadata | src/lib/youtube.ts:43-49 | the title is the provider's when non-empty and `Untitled Video` otherwise, so never empty; author, author URL and thumbnail copied; HTML kept only from the primary provider |
| YouTube.FetchVideoMetadata | src/lib/youtube.ts:35-71 | oEmbed is always queried, noembed exactly when oEmbed answered with a non-ok status; every failure carries the fixed message |
| YouTube.FetchVideoMetadataOutcome | src/lib/youtube.ts:41-69 | an ok, readable oEmbed answer wins with HTML kept; after a non-ok one an ok, readable noembed answer is used without HTML; a transport error or two non-ok answers end in the error |
| YouTube.FallbackReadOnlyWhenQueried | src/lib/youtube.ts:52-56 | when noembed is not queried its outcome cannot change the result |
| Poe.UserMessageRoundTrip | src/lib/poe.ts:22-41 | the one user message gives back its prompt; it has two parts, image first, exactly when an avatar is given, and is plain text otherwise |
| Poe.UserMessage | src/lib/poe.ts:22-41 | the one user message: the avatar image part, then the instruction and the prompt, when the avatar is non-empty; the prompt as plain text otherwise |
| Poe.CompletionRequest | src/lib/poe.ts:13-16 | the client carries the key and the Poe base URL; the completion asks the fixed model for one user message, without streaming |
| Poe.BuildMessages | src/lib/poe.ts:20-41 | the pushed list holds exactly the one user message, which carries the prompt |
| Poe.GenerateThumbnailWithPoe | src/lib/poe.ts:3-84 | no request is built exactly when the key is missing, which fails with the key message; otherwise the request carries the key, base URL, model and message; success exactly when a non-empty content came back, giving the extracted URL; every other failure is the generic message |
| Poe.SchemeLength | src/lib/poe.ts:61 | `https?:\/\/` matches with length 8 exactly when `https://` is there, with length 7 exactly when only `http://` is |
| Poe.RunEnd | src/lib/poe.ts:67-73 | the end of the longest run of characters other than white space, `)`, `"` and `'` |
| Poe.ParenthesisedUrl | src/lib/poe.ts:61 | a match is a scheme followed by at least one character up to the first `)`, which is there |
| Poe.ParenthesisedUrlComplete | src/lib/poe.ts:61 | after a scheme, the URL group fails exactly when the next character is `)` or no `)` follows |
| Poe.LabelThenUrl | src/lib/poe.ts:61 | a found label ends at a `](` followed by a URL and crosses no line terminator |
| Poe.LabelThenUrlLeftmost | src/lib/poe.ts:61 | the label is lazy: no earlier `](` is followed by a URL |
| Poe.LabelThenUrlComplete | src/lib/poe.ts:61 | any `](` followed by a URL and reachable without a line terminator is found, or an earlier one is |
| Poe.MarkdownImageAt | src/lib/poe.ts:61 | a match starts with `![` and captures a URL inside the content |
| Poe.MarkdownImageAtComplete | src/lib/poe.ts:61 | `![`, a label without line terminators, `](` and a URL at a position make the pattern match there |
| Poe.MarkdownImageSpan | src/lib/poe.ts:61 | a match captures a URL with its scheme and at least one more character, no `)`, followed by `)`, after a label without line terminators |
| Poe.ExtensionBetween | src/lib/poe.ts:67 | true exactly when an image extension starts in the range |
| Poe.ImageExtensionUrlAt | src/lib/poe.ts:67 | the capture is the scheme (any case) and the whole run after it, with an extension starting after its first character |
| Poe.ImageExtensionUrlAtComplete | src/lib/poe.ts:67 | the pattern matches exactly when a scheme (any case) is followed by a run of URL characters holding an extension after its first character |
| Poe.ImageExtensionSpan | src/lib/poe.ts:67 | a match captures a URL with its scheme (any case), no URL-ending character, not extendable, with an extension after the first character past the scheme |
| Poe.AnyUrlAt | src/lib/poe.ts:73 | the capture is the scheme and the non-empty run after it |
| Poe.AnyUrlAtComplete | src/lib/poe.ts:73 | the pattern matches exactly when a scheme is followed by at least one URL character |
| Poe.AnyUrlSpan | src/lib/poe.ts:73 | a match captures a URL with its scheme and at least one more character, no URL-ending character, not extendable |
| Poe.FirstMatch | src/lib/poe.ts:61-75 | the leftmost position at which the pattern matches, and no match before it |
| Poe.Classify | src/lib/poe.ts:55-79 | the cascade's decision; a pattern step's capture lies inside the content (which step decides is stated by the two lemmas below) |
| Poe.CascadeOrder | src/lib/poe.ts:55-79 | each step decides exactly when every earlier step found nothing and it finds a match somewhere |
| Poe.CascadeHitIsLeftmost | src/lib/poe.ts:61-76 | the hit of the deciding pattern is its leftmost match, as `match` without the `g` flag returns |
| Poe.DirectUrlResult | src/lib/poe.ts:56-58 | a reply starting with a scheme comes back up to its trailing white space, still starting with the scheme |
| Poe.MarkdownImageResult | src/lib/poe.ts:61-64 | the result is the URL of the leftmost `![label](url)`: a substring with a scheme and at least one more character, no `)`, followed by `)`; the label has no line terminator |
| Poe.ImageExtensionUrlResult | src/lib/poe.ts:67-70 | the result is the leftmost case-insensitive scheme with its whole run of URL characters: a substring, not extendable, containing an image extension after the first character past the scheme |
| Poe.AnyUrlResult | src/lib/poe.ts:73-76 | the result is the leftmost case-sensitive scheme with its non-empty run of URL characters: a substring, not extendable |
| Poe.RawContentResult | src/lib/poe.ts:78-79 | when nothing matches, the content comes back unchanged, and every scheme in it ends the content or is followed by a URL-ending character |
| Poe.ExtractImageUrl | src/lib/poe.ts:55-79 | the URL returned for a content; what it is in each case is stated by the result lemmas above |
| Poe.ExtractImageUrlIsSubstring | src/lib/poe.ts:55-79 | whatever step decides, the result is a substring of the reply |
| GenerateThumbnailRoute.MessageOf | src/app/api/generate-thumbnail/route.ts:55 | an `Error`'s message, or the fixed fallback message for anything else thrown |
| GenerateThumbnailRoute.Queries | src/app/api/generate-thumbnail/route.ts:38 | one metadata call per provider queried, in order |
| GenerateThumbnailRoute.Rejection | src/app/api/generate-thumbnail/route.ts:13-35 | the first failed check decides the message (fields, then URL, then template); no rejection exactly when all three pass |
| GenerateThumbnailRoute.Proceed | src/app/api/generate-thumbnail/route.ts:38-61 | the metadata calls come first; a metadata failure answers 500 with its message and nothing else is called; the status is 200 or 500 and the body matches it |
| GenerateThumbnailRoute.Post | src/app/api/generate-thumbnail/route.ts:7-62 | the status is 200, 400 or 500; success exactly at 200, with a URL and no error; an unparseable body is 500 with its message; 400 exactly when a check fails, with that check's message and no call made |
| GenerateThumbnailRoute.ProceedOutcome | src/app/api/generate-thumbnail/route.ts:38-51 | with metadata, the generator is called once, with the prompt built from the template and that metadata and no avatar; the completion is sent only with a key; 200 exactly when a non-empty completion came back, with the extracted URL; otherwise the generator's message |
| GenerateThumbnailRoute.PostImageUrlFromCompletion | src/app/api/generate-thumbnail/route.ts:44-51 | a 200 reply carries a URL that is a substring of the completion's text |
| GenerateThumbnailRoute.PostIgnoresDesignOptionsAndAvatar | src/app/api/generate-thumbnail/route.ts:10 | the design options and the avatar of the body change neither the calls nor the reply |

## Left out

- Network I/O is not modelled: the two `fetch` calls, `response.json()`, the OpenAI client and `await`. Each outcome is an input. The request URLs and `encodeURIComponent` are left out with them, since only the providers see them.
- The WHATWG URL parser (`new URL`, `hostname`, `pathname`, `searchParams`) is not modelled. It is an input function; its result is taken as given.
- `process.env` is an optional string. `console.error` is logging only and is left out.
- JSON fields of a type other than string are not modelled. This covers a non-string `title`, which `||` would keep, and non-string `youtubeUrl` or `templateId` in the body. Every field is `Option<string>`.
- `overlayOpacity` is a JavaScript `number`; it is modelled as an `int`, since no modelled operation computes with it and its documented range is 0 to 100.
- Strings are sequences of characters, not of UTF-16 code units. Characters outside the Basic Multilingual Plane would index differently.
- The React components, `Date.now()` ids and timestamps, and the gallery are UI code and are left out. `GeneratedThumbnail` is declared but no modelled operation uses it.
- GenerateThumbnailRoute.Post: a successful reply's body is `{success, imageUrl}`; no video metadata is returned.
- JsString.Split: the contract promises at least two pieces when the separator occurs, rather than exactly one more piece than there are occurrences. What the modelled callers need is proved in `SplitHead`, `SplitSecondPiece` and `SplitJoinChar`.
- YouTube.ShortsRule: an id that is the empty string is possible when the text after `/shorts/` starts with `?`. This is because the source tests the piece before cutting it at `?`. A parsed pathname never holds `?`, so this does not arise from a real URL.
- GenerateThumbnailRoute.ProceedOutcome: the message a thrown completion call would carry is not modelled. The source replaces it by the generic message, which is what the model returns.
- The JSON parser's own error messages are not modelled; an unparseable body carries whatever was thrown.
