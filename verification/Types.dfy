/**
 * The records shared by the core: templates, video metadata, the design
 * options with their defaults, the gallery entry, and the request and
 * response bodies of the generation endpoint.
 */
module Types {
  import opened Wrappers

  /** A visual-style preset; `promptStyle` is the fragment that opens the prompt. */
  datatype Template = Template(id: string, name: string, description: string, promptStyle: string)

  /** Metadata of a video: only the title is required. */
  datatype VideoMetadata = VideoMetadata(
    title: string,
    authorName: Option<string>,
    authorUrl: Option<string>,
    thumbnailUrl: Option<string>,
    html: Option<string>)

  /** Where the avatar goes: the string literal union `'left' | 'right' | 'center'`. */
  datatype AvatarPosition = Left | Right | Center

  /** Where the text goes: the string literal union `'top' | 'bottom' | 'center'`. */
  datatype TextPosition = Top | Bottom | Center

  function AvatarPositionName(p: AvatarPosition): string {
    match p
    case Left => "left"
    case Right => "right"
    case Center => "center"
  }

  function ParseAvatarPosition(s: string): Option<AvatarPosition> {
    if s == "left" then Some(AvatarPosition.Left)
    else if s == "right" then Some(AvatarPosition.Right)
    else if s == "center" then Some(AvatarPosition.Center)
    else None
  }

  function TextPositionName(p: TextPosition): string {
    match p
    case Top => "top"
    case Bottom => "bottom"
    case Center => "center"
  }

  function ParseTextPosition(s: string): Option<TextPosition> {
    if s == "top" then Some(TextPosition.Top)
    else if s == "bottom" then Some(TextPosition.Bottom)
    else if s == "center" then Some(TextPosition.Center)
    else None
  }

  /** The avatar position is exactly one of the three literals, in both directions. */
  lemma AvatarPositionLiterals(p: AvatarPosition, s: string)
    ensures ParseAvatarPosition(AvatarPositionName(p)) == Some(p)
    ensures ParseAvatarPosition(s).Some? <==> s in {"left", "right", "center"}
    ensures ParseAvatarPosition(s).Some? ==> AvatarPositionName(ParseAvatarPosition(s).value) == s
  {
  }

  /** The text position is exactly one of the three literals, in both directions. */
  lemma TextPositionLiterals(p: TextPosition, s: string)
    ensures ParseTextPosition(TextPositionName(p)) == Some(p)
    ensures ParseTextPosition(s).Some? <==> s in {"top", "bottom", "center"}
    ensures ParseTextPosition(s).Some? ==> TextPositionName(ParseTextPosition(s).value) == s
  {
  }

  /** The user-adjustable design options; `overlayOpacity` is documented as 0 to 100. */
  datatype DesignOptions = DesignOptions(
    fontColor: string,
    backgroundColor: string,
    showChannelTitle: bool,
    showVideoTitle: bool,
    includeAvatar: bool,
    avatarPosition: AvatarPosition,
    textPosition: TextPosition,
    overlayOpacity: int)

  /** The documented range of the overlay opacity (a comment, not a runtime check). */
  predicate OpacityInRange(d: DesignOptions) {
    0 <= d.overlayOpacity <= 100
  }

  const DefaultDesignOptions: DesignOptions := DesignOptions(
    fontColor := "#FFFFFF",
    backgroundColor := "#000000",
    showChannelTitle := true,
    showVideoTitle := true,
    includeAvatar := false,
    avatarPosition := AvatarPosition.Right,
    textPosition := TextPosition.Bottom,
    overlayOpacity := 50)

  /** The defaults: white text on black, both titles shown, no avatar, half opacity. */
  lemma DefaultDesignOptionsValues()
    ensures OpacityInRange(DefaultDesignOptions) && DefaultDesignOptions.overlayOpacity == 50
    ensures DefaultDesignOptions.showChannelTitle && DefaultDesignOptions.showVideoTitle
    ensures !DefaultDesignOptions.includeAvatar
    ensures DefaultDesignOptions.fontColor == "#FFFFFF" && DefaultDesignOptions.backgroundColor == "#000000"
    ensures AvatarPositionName(DefaultDesignOptions.avatarPosition) == "right"
    ensures TextPositionName(DefaultDesignOptions.textPosition) == "bottom"
  {
  }

  /** One entry of the client-side gallery. */
  datatype GeneratedThumbnail = GeneratedThumbnail(
    id: string,
    imageUrl: string,
    templateId: string,
    templateName: string,
    timestamp: int,
    videoTitle: Option<string>)

  /**
   * The JSON body posted to the generation endpoint. The two strings the
   * endpoint checks are optional here because nothing enforces the declared
   * type on the incoming JSON.
   */
  datatype GenerateThumbnailRequest = GenerateThumbnailRequest(
    youtubeUrl: Option<string>,
    templateId: Option<string>,
    designOptions: DesignOptions,
    avatarDataUrl: Option<string>)

  /** The JSON body of every reply of the endpoint. */
  datatype GenerateThumbnailResponse = GenerateThumbnailResponse(
    success: bool,
    imageUrl: Option<string>,
    error: Option<string>)
}
