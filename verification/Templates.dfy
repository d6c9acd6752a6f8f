/**
 * The fixed catalog of six style templates, lookup by id, and the prompt
 * builder that combines a template with the metadata of a video.
 */
module Templates {
  import opened Wrappers
  import opened JsString
  import opened Types

  const Catalog: seq<Template> := [
    Template(
      "bold-bright",
      "Bold & Bright",
      "High contrast, large text, vibrant colors, face close-ups",
      "Create a vibrant, eye-catching YouTube thumbnail with high "
      + "contrast colors (bright yellows, reds, blues). Use large, "
      + "bold text overlays. Include dramatic facial expressions or "
      + "close-up shots. Make it energetic and attention-grabbing. "
      + "Style: Bold and bright with vivid colors."),
    Template(
      "cinematic",
      "Cinematic",
      "Dark tones, dramatic lighting, movie-poster style",
      "Create a cinematic, movie-poster style YouTube thumbnail "
      + "with dramatic lighting and dark tones. Use moody atmosphere, "
      + "deep shadows, and high production value aesthetics. Make it "
      + "feel like a blockbuster film poster. Style: Cinematic with "
      + "dramatic lighting."),
    Template(
      "minimalist",
      "Minimalist",
      "Clean, simple, lots of whitespace, elegant typography",
      "Create a clean, minimalist YouTube thumbnail with lots of "
      + "whitespace. Use elegant, simple typography. Focus on one key "
      + "element or concept. Use a limited color palette. Make it "
      + "sophisticated and modern. Style: Minimalist with clean "
      + "design."),
    Template(
      "clickbait-pro",
      "Clickbait Pro",
      "Arrows, circles, shocked faces, bright yellow/red",
      "Create an attention-grabbing clickbait-style YouTube "
      + "thumbnail with shocked or surprised facial expressions, "
      + "bright yellow and red colors, arrows pointing to key "
      + "elements, circles highlighting important details, and "
      + "dramatic contrast. Make it irresistible to click. Style: "
      + "Clickbait with shock value."),
    Template(
      "tech-tutorial",
      "Tech/Tutorial",
      "Code snippets, gradients, clean professional look",
      "Create a professional, tech-focused YouTube thumbnail with "
      + "clean gradients, code snippets or tech elements, modern UI "
      + "design elements, and a sleek professional appearance. Use "
      + "blues, purples, and techy color schemes. Style: Tech "
      + "tutorial with professional design."),
    Template(
      "vlog-style",
      "Vlog Style",
      "Warm tones, lifestyle feel, personal touch",
      "Create a warm, personal vlog-style YouTube thumbnail with "
      + "lifestyle aesthetics, warm color tones, natural lighting "
      + "feel, and a friendly, approachable vibe. Make it feel "
      + "authentic and relatable. Style: Vlog with warm, personal "
      + "touch.")
  ]

  /** The catalog has six entries whose ids are pairwise distinct. */
  lemma CatalogIdsDistinct()
    ensures |Catalog| == 6
    ensures forall i, j :: 0 <= i < j < |Catalog| ==> Catalog[i].id != Catalog[j].id
  {
  }

  /** `Array.prototype.find` by id from index `from`: the index of the first entry with this id. */
  function FindFrom(entries: seq<Template>, id: string, from: nat): (r: Option<nat>)
    ensures r.Some? ==> from <= r.value < |entries| && entries[r.value].id == id
    ensures forall j :: from <= j < |entries| && (r.None? || j < r.value) ==> entries[j].id != id
    decreases |entries| - from
  {
    if from >= |entries| then None
    else if entries[from].id == id then Some(from)
    else FindFrom(entries, id, from + 1)
  }

  /** `getTemplate`: the first catalog entry with the given id, `None` when there is none. */
  function GetTemplate(id: string): (t: Option<Template>)
    ensures t.Some? ==> t.value in Catalog && t.value.id == id
    ensures t.None? <==> forall e :: e in Catalog ==> e.id != id
  {
    match FindFrom(Catalog, id, 0)
    case None => None
    case Some(k) => Some(Catalog[k])
  }

  /** Looking up the id of any catalog entry gives back that entry. */
  lemma GetTemplateOfCatalogEntry(t: Template)
    requires t in Catalog
    ensures GetTemplate(t.id) == Some(t)
  {
    CatalogIdsDistinct();
    var i :| 0 <= i < |Catalog| && Catalog[i] == t;
    FindFromDistinct(Catalog, i);
  }

  /** In a table with distinct ids, finding the id of entry `i` gives `i`. */
  lemma FindFromDistinct(entries: seq<Template>, i: nat)
    requires i < |entries|
    requires forall a, b :: 0 <= a < b < |entries| ==> entries[a].id != entries[b].id
    ensures FindFrom(entries, entries[i].id, 0) == Some(i)
  {
    var k := FindFrom(entries, entries[i].id, 0);
    assert k.Some? && k.value <= i;
  }

  /** The paragraph that ends every prompt; it depends on no input. */
  const ClosingParagraph :=
    "Create a professional YouTube thumbnail (1280x720, 16:9 "
    + "aspect ratio) that captures the essence of this video. The "
    + "thumbnail should be clear, readable, and optimized for both "
    + "desktop and mobile viewing. Include relevant text overlays "
    + "that complement the video title."

  function TitleLine(title: string): string {
    "Title: \"" + title + "\""
  }

  /** `Creator: <author>` for a non-empty author name, and an empty line otherwise. */
  function CreatorLine(authorName: Option<string>): string {
    if IsTruthy(authorName) then "Creator: " + authorName.value else ""
  }

  /**
   * `buildPrompt`: the template's style fragment, a video-context block with
   * the title and (when present) the creator, and the fixed closing paragraph.
   */
  function BuildPrompt(template: Template, metadata: VideoMetadata): string {
    template.promptStyle + "\n\nVideo context:\n" + TitleLine(metadata.title) + "\n"
      + CreatorLine(metadata.authorName) + "\n\n" + ClosingParagraph
  }

  /** Where the pieces of the prompt's template literal sit, for any style, title, creator line and closing text. */
  lemma PromptLayout(style: string, title: string, creator: string, closing: string)
    ensures var prompt := style + "\n\nVideo context:\n" + TitleLine(title) + "\n" + creator + "\n\n" + closing;
      && OccursAt(prompt, 0, style)
      && OccursAt(prompt, |style|, "\n\nVideo context:\n")
      && OccursAt(prompt, |style| + 17, TitleLine(title) + "\n")
      && prompt[|style| + 17 + |TitleLine(title)| + 1..] == creator + "\n\n" + closing
      && |prompt| > |closing| && prompt[|prompt| - |closing|..] == closing
  {
    var prompt := style + "\n\nVideo context:\n" + TitleLine(title) + "\n" + creator + "\n\n" + closing;
    var n := |style|;
    assert prompt[..n] == style;
    assert prompt[n..n + 17] == "\n\nVideo context:\n";
    assert prompt[n + 17..n + 17 + |TitleLine(title) + "\n"|] == TitleLine(title) + "\n";
    assert prompt[n + 17 + |TitleLine(title)| + 1..] == creator + "\n\n" + closing;
    assert prompt[|prompt| - |closing|..] == closing;
  }

  /**
   * Right after the title line comes the creator line: `Creator: `, the
   * name and a blank line exactly when the author name is non-empty, and
   * otherwise the blank line at once.
   */
  lemma PromptCreatorLine(style: string, title: string, authorName: Option<string>, closing: string)
    ensures var prompt := style + "\n\nVideo context:\n" + TitleLine(title) + "\n" + CreatorLine(authorName) + "\n\n" + closing;
      var p := |style| + 17 + |TitleLine(title)| + 1;
      && (IsTruthy(authorName) <==> OccursAt(prompt, p, "Creator: "))
      && (IsTruthy(authorName) ==> OccursAt(prompt, p, "Creator: " + authorName.value + "\n\n"))
      && (!IsTruthy(authorName) ==> OccursAt(prompt, p, "\n\n"))
  {
    var creator := CreatorLine(authorName);
    PromptLayout(style, title, creator, closing);
    var prompt := style + "\n\nVideo context:\n" + TitleLine(title) + "\n" + creator + "\n\n" + closing;
    var p := |style| + 17 + |TitleLine(title)| + 1;
    var rest := creator + "\n\n" + closing;
    assert prompt[p..] == rest;
    if IsTruthy(authorName) {
      var line := "Creator: " + authorName.value + "\n\n";
      assert rest[..|line|] == line;
      assert prompt[p..p + |line|] == rest[..|line|];
      assert prompt[p..p + 9] == rest[..9] == "Creator: ";
    } else {
      assert rest[..2] == "\n\n";
      assert prompt[p..p + 2] == rest[..2];
      assert prompt[p] == '\n';
      assert !OccursAt(prompt, p, "Creator: ") by {
        assert p + 9 > |prompt| || prompt[p..p + 9][0] == prompt[p];
      }
    }
  }

  /** The creator line of the prompt, right after the title line, for every template and metadata. */
  lemma BuildPromptHasCreatorLine(template: Template, metadata: VideoMetadata)
    ensures var prompt := BuildPrompt(template, metadata);
      var p := |template.promptStyle| + 17 + |TitleLine(metadata.title)| + 1;
      && (IsTruthy(metadata.authorName) <==> OccursAt(prompt, p, "Creator: "))
      && (IsTruthy(metadata.authorName) ==> OccursAt(prompt, p, "Creator: " + metadata.authorName.value + "\n\n"))
      && (!IsTruthy(metadata.authorName) ==> OccursAt(prompt, p, "\n\n"))
  {
    PromptCreatorLine(template.promptStyle, metadata.title, metadata.authorName, ClosingParagraph);
  }

  /** The prompt begins with the template's style fragment, verbatim. */
  lemma BuildPromptStartsWithStyle(template: Template, metadata: VideoMetadata)
    ensures OccursAt(BuildPrompt(template, metadata), 0, template.promptStyle)
  {
    PromptLayout(template.promptStyle, metadata.title, CreatorLine(metadata.authorName), ClosingParagraph);
  }

  /**
   * After the style come a blank line and the `Video context:` header, and
   * then the quoted title on a line of its own.
   */
  lemma BuildPromptHasTitleLine(template: Template, metadata: VideoMetadata)
    ensures var prompt, n := BuildPrompt(template, metadata), |template.promptStyle|;
      && OccursAt(prompt, n, "\n\nVideo context:\n")
      && OccursAt(prompt, n + 17, TitleLine(metadata.title) + "\n")
  {
    PromptLayout(template.promptStyle, metadata.title, CreatorLine(metadata.authorName), ClosingParagraph);
  }

  /** The prompt ends with the closing paragraph, which depends on no input. */
  lemma BuildPromptEndsWithClosing(template: Template, metadata: VideoMetadata)
    ensures var prompt := BuildPrompt(template, metadata);
      |prompt| > |ClosingParagraph| && prompt[|prompt| - |ClosingParagraph|..] == ClosingParagraph
  {
    PromptLayout(template.promptStyle, metadata.title, CreatorLine(metadata.authorName), ClosingParagraph);
  }

  /** The prompt reads only the title and the author name of the metadata. */
  lemma BuildPromptReadsTitleAndAuthor(template: Template, m1: VideoMetadata, m2: VideoMetadata)
    requires m1.title == m2.title && m1.authorName == m2.authorName
    ensures BuildPrompt(template, m1) == BuildPrompt(template, m2)
  {
  }

  /** Seven lines joined by a separator. */
  lemma JoinSevenLines(lines: seq<string>, sep: string)
    requires |lines| == 7
    ensures Join(lines, sep) == lines[0] + sep + lines[1] + sep + lines[2] + sep + lines[3] + sep
      + lines[4] + sep + lines[5] + sep + lines[6]
  {
    forall k | 0 <= k < 6 ensures Join(lines[k..], sep) == lines[k] + sep + Join(lines[k + 1..], sep) {
      assert lines[k..][1..] == lines[k + 1..];
    }
    assert Join(lines[6..], sep) == lines[6];
  }

  /** The prompt's template literal is seven lines joined by line feeds. */
  lemma PromptIsJoinOfLines(style: string, titleLine: string, creator: string, closing: string)
    ensures style + "\n\nVideo context:\n" + titleLine + "\n" + creator + "\n\n" + closing
      == Join([style, "", "Video context:", titleLine, creator, "", closing], "\n")
  {
    JoinSevenLines([style, "", "Video context:", titleLine, creator, "", closing], "\n");
    assert "\n\nVideo context:\n" == "\n" + "" + "\n" + "Video context:" + "\n";
    assert "\n\n" == "\n" + "" + "\n";
  }

  /**
   * Line by line, when neither the style fragment, the title nor the author
   * name holds a line feed: the style, a blank line, `Video context:`, the
   * quoted title, the creator line (`Creator: ` and the name exactly when the
   * author name is non-empty, and empty otherwise) and a blank line; the
   * closing paragraph follows.
   */
  lemma BuildPromptLines(template: Template, metadata: VideoMetadata)
    requires '\n' !in template.promptStyle && '\n' !in metadata.title
    requires metadata.authorName.Some? ==> '\n' !in metadata.authorName.value
    ensures var lines := Split(BuildPrompt(template, metadata), "\n");
      && |lines| >= 7
      && lines[0] == template.promptStyle
      && lines[1] == "" && lines[2] == "Video context:"
      && lines[3] == "Title: \"" + metadata.title + "\""
      && (IsTruthy(metadata.authorName) <==> OccursAt(lines[4], 0, "Creator: "))
      && (IsTruthy(metadata.authorName) ==> lines[4][9..] == metadata.authorName.value)
      && (!IsTruthy(metadata.authorName) ==> lines[4] == "")
      && lines[5] == ""
  {
    SplitPrompt(template.promptStyle, metadata.title, CreatorLine(metadata.authorName), ClosingParagraph);
    CreatorLineShape(metadata.authorName);
  }

  /** Splitting the template literal on line feeds gives back its first six lines. */
  lemma SplitPrompt(style: string, title: string, creator: string, closing: string)
    requires '\n' !in style && '\n' !in title && '\n' !in creator
    ensures var lines := Split(style + "\n\nVideo context:\n" + TitleLine(title) + "\n" + creator + "\n\n" + closing, "\n");
      && |lines| >= 7 && lines[0] == style && lines[1] == "" && lines[2] == "Video context:"
      && lines[3] == TitleLine(title) && lines[4] == creator && lines[5] == ""
  {
    var parts := [style, "", "Video context:", TitleLine(title), creator, "", closing];
    assert '\n' !in TitleLine(title);
    PromptIsJoinOfLines(style, TitleLine(title), creator, closing);
    SplitJoinChar(parts, '\n');
  }

  /** The creator line starts with `Creator: ` exactly when the author name is non-empty. */
  lemma CreatorLineShape(authorName: Option<string>)
    ensures IsTruthy(authorName) <==> OccursAt(CreatorLine(authorName), 0, "Creator: ")
    ensures IsTruthy(authorName) ==> CreatorLine(authorName)[9..] == authorName.value
    ensures !IsTruthy(authorName) ==> CreatorLine(authorName) == ""
  {
    if IsTruthy(authorName) {
      assert CreatorLine(authorName)[..9] == "Creator: ";
    }
  }
}
