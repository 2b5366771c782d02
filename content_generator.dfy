/**
 * The content generator's text pipeline: resolving the API key, building the
 * prompt sent to the model, and turning the model's untrusted reply into a
 * title, an HTML body and a structured-data array. The class keeps no
 * state, so its straight-line cleaners are functions; its three loops (the
 * phrase list, the paragraphs, the reply's lines) are methods proved equal
 * to the functions that specify them.
 */
module ContentGenerator {
  import opened Text
  import opened Rewrite
  import opened Search
  import opened Words
  import opened Json

  // ---------------------------------------------------------------------------
  // API key resolution

  /** The outcome of the key check at the start of `generate_overview_post`. */
  datatype KeyResult = KeyFound(key: string) | NoApiKey(message: string)

  /** A stored option; a missing one reads as the given default. */
  function OptionOr(options: map<string, string>, name: string, default: string): string {
    if name in options then options[name] else default
  }

  function Provider(options: map<string, string>): string {
    OptionOr(options, "ai_overview_provider", "gemini")
  }

  function KeyOptionName(provider: string): string {
    "ai_overview_" + provider + "_key"
  }

  /**
   * The key passed by the caller (`""` when none was passed) wins unless PHP
   * considers it empty; then the stored key of the provider is used; if that
   * is empty too, the request fails with a message naming the provider.
   */
  function ResolveApiKey(given: string, options: map<string, string>): (r: KeyResult)
    ensures r.KeyFound? ==> !PhpEmpty(r.key)
    ensures !PhpEmpty(given) ==> r == KeyFound(given)
    ensures r.NoApiKey? <==> PhpEmpty(given) && PhpEmpty(OptionOr(options, KeyOptionName(Provider(options)), ""))
    ensures r.NoApiKey? ==> r.message == "API key not configured for " + Provider(options)
  {
    var provider := Provider(options);
    var key := if PhpEmpty(given) then OptionOr(options, KeyOptionName(provider), "") else given;
    if PhpEmpty(key) then NoApiKey("API key not configured for " + provider) else KeyFound(key)
  }

  // ---------------------------------------------------------------------------
  // The prompt

  const BasePrompt: string := "You are an expert content writer specializing in SEO and AI overview optimization. "

  /** The sentence that introduces the topic, per content type. */
  function Intro(contentType: string): string {
    if contentType == "faq" then "Create a comprehensive FAQ article about: "
    else if contentType == "howto" then "Create a detailed How-To guide about: "
    else if contentType == "comparison" then "Create a detailed comparison article about: "
    else if contentType == "listicle" then "Create an engaging listicle article about: "
    else "Create an informative article about: "
  }

  /** The requirements and output format that follow the topic, per content type. */
  function Instructions(contentType: string): string {
    if contentType == "faq" then
      "\n"
      + "\n"
      + "REQUIREMENTS:\n"
      + "- Create an engaging title that includes the main question or topic\n"
      + "- Structure as FAQ with clear H2 headings for each question\n"
      + "- Each question should be a common search query\n"
      + "- Provide detailed, helpful answers (150-300 words each)\n"
      + "- Include 8-12 frequently asked questions\n"
      + "- Use natural, conversational language\n"
      + "- Include relevant facts, statistics, and examples\n"
      + "- End with a conclusion paragraph\n"
      + "\n"
      + "IMPORTANT FORMATTING:\n"
      + "- Use proper HTML: <h2> for questions, <p> for answers\n"
      + "- NO JSON, NO curly braces, NO structured data in the content\n"
      + "- Write naturally like a blog post\n"
      + "\n"
      + "OUTPUT FORMAT:\n"
      + "Respond with ONLY a clean JSON object:\n"
      + "\n"
      + "{\n"
      + "  \"title\": \"Your SEO-optimized title\",\n"
      + "  \"content\": \"<h2>What is [topic]?</h2><p>Detailed answer here...</p><h2>How does [topic] work?</h2><p>Another detailed answer...</p>\"\n"
      + "}"
    else if contentType == "howto" then
      "\n"
      + "\n"
      + "REQUIREMENTS:\n"
      + "- Create a compelling title\n"
      + "- Structure with clear steps using H2 headings\n"
      + "- Include introduction, step-by-step instructions, and conclusion\n"
      + "- Each step should be actionable and detailed\n"
      + "- Include tips, warnings, and best practices\n"
      + "- Use bullet points and numbered lists\n"
      + "- Total length: 1500-2500 words\n"
      + "\n"
      + "IMPORTANT FORMATTING:\n"
      + "- Use proper HTML: <h2> for steps, <p> for instructions, <ul>/<ol> for lists\n"
      + "- NO JSON, NO curly braces, NO structured data in the content\n"
      + "- Write naturally like a blog post\n"
      + "\n"
      + "OUTPUT FORMAT:\n"
      + "Respond with ONLY a clean JSON object:\n"
      + "\n"
      + "{\n"
      + "  \"title\": \"How to [Topic] - Complete Guide\",\n"
      + "  \"content\": \"<p>Introduction paragraph...</p><h2>Step 1: First Step</h2><p>Detailed instructions...</p><h2>Step 2: Next Step</h2><p>More instructions...</p>\"\n"
      + "}"
    else if contentType == "comparison" then
      "\n"
      + "\n"
      + "REQUIREMENTS:\n"
      + "- Create an engaging comparison title\n"
      + "- Compare at least 3-5 options/alternatives\n"
      + "- Structure with clear sections for each option\n"
      + "- Include pros, cons, features, pricing, and recommendations\n"
      + "- Use comparison tables in HTML format\n"
      + "- Provide unbiased analysis\n"
      + "- End with clear recommendations\n"
      + "\n"
      + "IMPORTANT FORMATTING:\n"
      + "- Use proper HTML: <h2> for sections, <p> for descriptions, <table> for comparisons\n"
      + "- NO JSON, NO curly braces, NO structured data in the content\n"
      + "- Write naturally like a blog post\n"
      + "\n"
      + "OUTPUT FORMAT:\n"
      + "Respond with ONLY a clean JSON object:\n"
      + "\n"
      + "{\n"
      + "  \"title\": \"[Option A] vs [Option B] vs [Option C] - Complete Comparison\",\n"
      + "  \"content\": \"<p>Introduction to comparison...</p><h2>What is [Topic]?</h2><p>Explanation...</p><h2>Comparison Table</h2><table>...</table>\"\n"
      + "}"
    else if contentType == "listicle" then
      "\n"
      + "\n"
      + "REQUIREMENTS:\n"
      + "- Create a click-worthy title with a number\n"
      + "- Structure as a numbered or bulleted list with detailed explanations\n"
      + "- Each list item should be substantial (200-400 words)\n"
      + "- Include 10-15 list items\n"
      + "- Use engaging subheadings for each item\n"
      + "- Include examples, tips, and practical advice\n"
      + "\n"
      + "IMPORTANT FORMATTING:\n"
      + "- Use proper HTML: <h2> for list items, <p> for descriptions\n"
      + "- NO JSON, NO curly braces, NO structured data in the content\n"
      + "- Write naturally like a blog post\n"
      + "\n"
      + "OUTPUT FORMAT:\n"
      + "Respond with ONLY a clean JSON object:\n"
      + "\n"
      + "{\n"
      + "  \"title\": \"[Number] Best [Topic] - Complete Guide\",\n"
      + "  \"content\": \"<p>Introduction...</p><h2>1. First Item</h2><p>Detailed explanation...</p><h2>2. Second Item</h2><p>More details...</p>\"\n"
      + "}"
    else
      "\n"
      + "\n"
      + "REQUIREMENTS:\n"
      + "- SEO-optimized title\n"
      + "- Well-structured content with H2/H3 headings\n"
      + "- Comprehensive coverage of the topic\n"
      + "- Include facts, examples, and practical information\n"
      + "\n"
      + "IMPORTANT FORMATTING:\n"
      + "- Use proper HTML: <h2> for sections, <p> for paragraphs\n"
      + "- NO JSON, NO curly braces, NO structured data in the content\n"
      + "- Write naturally like a blog post\n"
      + "\n"
      + "OUTPUT FORMAT:\n"
      + "Respond with ONLY a clean JSON object:\n"
      + "\n"
      + "{\n"
      + "  \"title\": \"Your SEO Title\",\n"
      + "  \"content\": \"<p>Introduction paragraph...</p><h2>First Section</h2><p>Content here...</p><h2>Second Section</h2><p>More content...</p>\"\n"
      + "}"
  }

  /** The reminder every prompt ends with. */
  const PromptSuffix: string :=
    "\n"
    + "\n"
    + "IMPORTANT:\n"
    + "- Write naturally and conversationally\n"
    + "- Focus on providing value and answering user intent\n"
    + "- Use proper HTML formatting\n"
    + "- Ensure content is original and comprehensive\n"
    + "- NO external links or references\n"
    + "- Return ONLY the JSON object, no additional text"

  /** `build_content_prompt`: the shared opening, the type's template around the topic, the shared ending. */
  function BuildContentPrompt(topic: string, contentType: string): (r: string)
    ensures StartsAt(r, 0, BasePrompt + Intro(contentType))
    ensures StartsAt(r, |BasePrompt + Intro(contentType)|, topic)
    ensures EndsWith(r, Instructions(contentType) + PromptSuffix)
  {
    var head := BasePrompt + Intro(contentType);
    var tail := Instructions(contentType) + PromptSuffix;
    var r := head + topic + tail;
    assert r[..|head|] == head;
    assert r[|head|..|head| + |topic|] == topic;
    assert r[|r| - |tail|..] == tail;
    r
  }

  /** The topic read back out of a prompt of the given type. */
  function TopicOf(prompt: string, contentType: string): string
    requires |BasePrompt + Intro(contentType)| + |Instructions(contentType) + PromptSuffix| <= |prompt|
  {
    prompt[|BasePrompt + Intro(contentType)|..|prompt| - |Instructions(contentType) + PromptSuffix|]
  }

  /** The topic stands in the prompt verbatim and can be read back, so different topics give different prompts. */
  lemma TopicOfPrompt(topic: string, contentType: string)
    ensures var p := BuildContentPrompt(topic, contentType);
      |BasePrompt + Intro(contentType)| + |Instructions(contentType) + PromptSuffix| <= |p| &&
      TopicOf(p, contentType) == topic
  {
    var head := BasePrompt + Intro(contentType);
    var tail := Instructions(contentType) + PromptSuffix;
    var p := BuildContentPrompt(topic, contentType);
    assert p == head + topic + tail;
    assert p[|head|..|p| - |tail|] == topic;
  }

  /** Every prompt, whatever the type, closes with the instruction to return only the JSON object. */
  lemma PromptEndsWithReminder(topic: string, contentType: string)
    ensures EndsWith(BuildContentPrompt(topic, contentType), PromptSuffix)
    ensures EndsWith(BuildContentPrompt(topic, contentType), "- Return ONLY the JSON object, no additional text")
  {
    var p := BuildContentPrompt(topic, contentType);
    var tail := Instructions(contentType) + PromptSuffix;
    var last := "- Return ONLY the JSON object, no additional text";
    assert p[|p| - |tail|..] == tail;
    assert p[|p| - |PromptSuffix|..] == tail[|tail| - |PromptSuffix|..];
    assert PromptSuffix[|PromptSuffix| - |last|..] == last;
    assert p[|p| - |last|..] == PromptSuffix[|PromptSuffix| - |last|..];
  }

  // ---------------------------------------------------------------------------
  // The cleaners

  /** `clean_api_response`: drop the Markdown fences, then trim. */
  function CleanApiResponse(response: string): string {
    Trim(Remove(Fence, Remove(FenceAtEnd, Remove(FenceJsonTag, response))))
  }

  lemma CleanApiResponseShape(response: string)
    ensures NoTripleBacktick(CleanApiResponse(response)) && Trimmed(CleanApiResponse(response))
  {
    var r := Remove(Fence, Remove(FenceAtEnd, Remove(FenceJsonTag, response)));
    RemoveFences(Remove(FenceAtEnd, Remove(FenceJsonTag, response)));
    NoTripleBacktickTrim(r);
  }

  /** `clean_title`: drop fenced blocks, URLs and the characters of JSON syntax, collapse whitespace, trim. */
  function CleanTitle(title: string): string {
    Trim(ReplaceAll(SpaceRun, Remove(TitleJunk, Remove(UrlInTitle, Remove(FencedBlock, title))), " "))
  }

  lemma CleanTitleShape(title: string)
    ensures forall c :: c in CleanTitle(title) ==> !IsTitleJunk(c)
    ensures NoDoubleSpace(CleanTitle(title)) && Trimmed(CleanTitle(title))
  {
    var t := Remove(TitleJunk, Remove(UrlInTitle, Remove(FencedBlock, title)));
    var u := ReplaceAll(SpaceRun, t, " ");
    RemoveTitleJunkFrom(Remove(UrlInTitle, Remove(FencedBlock, title)), 0);
    ReplaceFromChars(SpaceRun, t, " ", 0);
    assert t[0..] == t;
    TrimChars(u);
    CollapseSpace(t);
    TrimKeepsNoDoubleSpace(u);
  }

  /** `final_content_cleanup`: drop trailing and leading debris and closers, collapse whitespace, trim. */
  function FinalContentCleanup(content: string): string {
    var c := Remove(TrailingDebris, content);
    var c := Remove(LeadingDebris, c);
    var c := Remove(TrailingCloser('}'), c);
    var c := Remove(TrailingCloser(']'), c);
    var c := Remove(TrailingCloser('"'), c);
    var c := ReplaceAll(SpaceRun, c, " ");
    Trim(ReplaceAll(DoubleBlankLineGap, c, "\n\n"))
  }

  /** The direct route's final cleanup leaves a trimmed text with no two adjacent whitespace characters. */
  lemma FinalContentCleanupShape(content: string)
    ensures Trimmed(FinalContentCleanup(content)) && NoDoubleSpace(FinalContentCleanup(content))
  {
    var c := Remove(TrailingCloser('"'), Remove(TrailingCloser(']'), Remove(TrailingCloser('}'),
      Remove(LeadingDebris, Remove(TrailingDebris, content)))));
    var d := ReplaceAll(SpaceRun, c, " ");
    CollapseSpace(c);
    NoBlankLineGap(d, DoubleBlankLineGap);
    ReplaceFromNoMatch(DoubleBlankLineGap, d, "\n\n", 0);
    assert d[0..] == d;
    TrimKeepsNoDoubleSpace(d);
  }

  /** The phrases `clean_content` removes, in the order it removes them. */
  const UnwantedPhrases: seq<string> := [
    "Before you make changes, please push our current version to Github",
    "Please push our current version to Github",
    "push our current version to Github",
    "GitHub repository",
    "version control",
    "commit changes"
  ]

  /** The `str_ireplace` calls over `phrases`, first phrase first. */
  function RemovePhrases(s: string, phrases: seq<string>): string
    decreases |phrases|
  {
    if |phrases| == 0 then s
    else Remove(Phrase(phrases[|phrases| - 1]), RemovePhrases(s, phrases[..|phrases| - 1]))
  }

  /** The rewrites of `clean_content` before the phrase loop. */
  function StripArtifacts(content: string): string {
    var c := Remove(BraceGroup, Remove(FencedBlock, content));
    var c := Remove(BracketGroup, c);
    var c := Remove(JsonScalarPair, c);
    var c := Remove(DebrisLine, c);
    var c := Remove(TrailingDebris, c);
    var c := Remove(LeadingDebris, c);
    Remove(UrlInText, c)
  }

  /** The rewrites of `clean_content` after the phrase loop. */
  function TidyText(c: string): string {
    var c := ReplaceAll(SpaceRun, c, " ");
    var c := ReplaceAll(SpaceBetweenTags, c, "><");
    var c := Remove(BlankLine, c);
    var c := ReplaceAll(BlankLineGap, c, "\n");
    var c := Remove(LeadingPunct, c);
    var c := Remove(TrailingPunct, c);
    Trim(c)
  }

  /** What `clean_content` returns. */
  function CleanedContent(content: string): string {
    TidyText(RemovePhrases(StripArtifacts(content), UnwantedPhrases))
  }

  /** `clean_content`, with its loop over the phrase list. */
  method CleanContent(content: string) returns (r: string)
    ensures r == CleanedContent(content)
  {
    r := StripArtifacts(content);
    ghost var stripped := r;
    for i := 0 to |UnwantedPhrases|
      invariant r == RemovePhrases(stripped, UnwantedPhrases[..i])
    {
      assert UnwantedPhrases[..i + 1][..i] == UnwantedPhrases[..i];
      r := Remove(Phrase(UnwantedPhrases[i]), r);
    }
    assert UnwantedPhrases[..|UnwantedPhrases|] == UnwantedPhrases;
    r := TidyText(r);
  }

  lemma StripArtifactsNoBraceGroup(content: string)
    ensures NoBraceGroup(StripArtifacts(content))
  {
    var c := Remove(BraceGroup, Remove(FencedBlock, content));
    RemoveBraceGroups(Remove(FencedBlock, content));
    var c1 := Remove(BracketGroup, c);
    ReplaceAllKeepsNoBraceGroup(BracketGroup, c, "");
    var c2 := Remove(JsonScalarPair, c1);
    ReplaceAllKeepsNoBraceGroup(JsonScalarPair, c1, "");
    var c3 := Remove(DebrisLine, c2);
    ReplaceAllKeepsNoBraceGroup(DebrisLine, c2, "");
    var c4 := Remove(TrailingDebris, c3);
    ReplaceAllKeepsNoBraceGroup(TrailingDebris, c3, "");
    var c5 := Remove(LeadingDebris, c4);
    ReplaceAllKeepsNoBraceGroup(LeadingDebris, c4, "");
    ReplaceAllKeepsNoBraceGroup(UrlInText, c5, "");
  }

  lemma {:induction false} RemovePhrasesNoBraceGroup(s: string, phrases: seq<string>)
    requires NoBraceGroup(s)
    ensures NoBraceGroup(RemovePhrases(s, phrases))
    decreases |phrases|
  {
    if |phrases| > 0 {
      RemovePhrasesNoBraceGroup(s, phrases[..|phrases| - 1]);
      ReplaceAllKeepsNoBraceGroup(Phrase(phrases[|phrases| - 1]), RemovePhrases(s, phrases[..|phrases| - 1]), "");
    }
  }

  /** Neither end of `s` is a debris, punctuation or whitespace character. */
  predicate CleanEnds(s: string) {
    |s| == 0 || (!IsPunct(s[0]) && !IsPunct(s[|s| - 1]))
  }

  /** The whitespace rewrites leave single whitespace and keep brace order. */
  lemma TidySpacing(c: string) returns (t: string)
    requires NoBraceGroup(c)
    ensures t == Remove(BlankLine, ReplaceAll(SpaceBetweenTags, ReplaceAll(SpaceRun, c, " "), "><"))
    ensures ReplaceAll(BlankLineGap, t, "\n") == t
    ensures NoBraceGroup(t) && NoDoubleSpace(t)
  {
    var t1 := ReplaceAll(SpaceRun, c, " ");
    CollapseSpace(c);
    ReplaceAllKeepsNoBraceGroup(SpaceRun, c, " ");
    var t2 := ReplaceAll(SpaceBetweenTags, t1, "><");
    JoinTags(t1);
    ReplaceAllKeepsNoBraceGroup(SpaceBetweenTags, t1, "><");
    t := Remove(BlankLine, t2);
    RemoveBlankLines(t2);
    NoBlankLineGap(t, BlankLineGap);
    ReplaceFromNoMatch(BlankLineGap, t, "\n", 0);
    assert t[0..] == t;
  }

  /** Cutting the punctuation runs from both ends leaves clean ends, and trimming then changes nothing. */
  lemma CutPunctuation(t: string)
    requires NoBraceGroup(t) && NoDoubleSpace(t)
    ensures var r := Trim(Remove(TrailingPunct, Remove(LeadingPunct, t)));
      NoBraceGroup(r) && NoDoubleSpace(r) && CleanEnds(r)
  {
    var b := SkipRun(t, 0, Punct);
    RemoveLeadingPunct(t);
    var t5 := t[b..];
    NoBraceGroupSlice(t, b, |t|);
    SliceKeepsNoDoubleSpace(t, b, |t|);
    var n := TrailingRun(t5, Punct);
    RemoveTrailingPunct(t5);
    var t6 := t5[..|t5| - n];
    NoBraceGroupSlice(t5, 0, |t5| - n);
    SliceKeepsNoDoubleSpace(t5, 0, |t5| - n);
    assert t5[0..|t5| - n] == t6;
    if |t5| > 0 {
      assert !IsPunct(t5[0]);
      assert n < |t5|;
      assert t6[0] == t5[0];
    }
    assert CleanEnds(t6);
    TrimOfTrimmed(t6);
  }

  /**
   * `clean_content`'s promises: no `{` is followed anywhere by a `}`, no two
   * whitespace characters stand together, and neither end is debris,
   * punctuation or whitespace.
   */
  lemma CleanedContentShape(content: string)
    ensures NoBraceGroup(CleanedContent(content))
    ensures NoDoubleSpace(CleanedContent(content))
    ensures CleanEnds(CleanedContent(content))
  {
    var s := StripArtifacts(content);
    StripArtifactsNoBraceGroup(content);
    var c := RemovePhrases(s, UnwantedPhrases);
    RemovePhrasesNoBraceGroup(s, UnwantedPhrases);
    var t := TidySpacing(c);
    CutPunctuation(t);
  }

  // ---------------------------------------------------------------------------
  // ensure_html_content

  /** What the plugin shows when nothing usable is left. */
  const Fallback: string := "<p>Content could not be generated properly. Please try again.</p>"

  /** The rewrites of the markup branch: JSON fragments, then the punctuation at both ends. */
  function StripJsonFragments(c: string): string {
    var m := Remove(KeyedObject, c);
    var m := Remove(KeyedArray, m);
    var m := Remove(ClosingBraceComma, m);
    var m := Remove(OpeningBraceKey, m);
    var m := Remove(LeadingPunct, m);
    var m := Remove(TrailingPunct, m);
    Trim(m)
  }

  /** A non-empty paragraph made only of debris, punctuation and whitespace. */
  predicate AllPunct(p: string) {
    |p| > 0 && SkipRun(p, 0, Punct) == |p|
  }

  /** One paragraph of the paragraph loop, trimmed and wrapped, or nothing. */
  function ParagraphHtml(paragraph: string): string {
    var t := Trim(paragraph);
    if PhpEmpty(t) || AllPunct(t) then "" else "<p>" + t + "</p>\n"
  }

  /** The paragraph loop over `ps`, first paragraph first. */
  function Paragraphs(ps: seq<string>): string
    decreases |ps|
  {
    if |ps| == 0 then "" else Paragraphs(ps[..|ps| - 1]) + ParagraphHtml(ps[|ps| - 1])
  }

  lemma ParagraphsSnoc(ps: seq<string>, i: nat)
    requires i < |ps|
    ensures Paragraphs(ps[..i + 1]) == Paragraphs(ps[..i]) + ParagraphHtml(ps[i])
  {
    assert ps[..i + 1][..i] == ps[..i];
  }

  /** What `ensure_html_content` returns. */
  function HtmlContent(content: string): (r: string)
    ensures !PhpEmpty(r)
    ensures PhpEmpty(CleanedContent(content)) ==> r == Fallback
  {
    var c := CleanedContent(content);
    if '<' in c && '>' in c then
      var m := StripJsonFragments(c);
      if PhpEmpty(m) then Fallback
      else if !Found(ParagraphTag, m) && !Found(HeadingTag, m) then "<p>" + m + "</p>"
      else m
    else if PhpEmpty(c) then Fallback
    else
      var html := Paragraphs(Split(BlankLineGap, c));
      if PhpEmpty(html) then "<p>" + c + "</p>" else html
  }

  /** `ensure_html_content`. */
  method EnsureHtml(content: string) returns (r: string)
    ensures r == HtmlContent(content)
  {
    var c := CleanContent(content);
    if '<' in c && '>' in c {
      r := StripJsonFragments(c);
      if PhpEmpty(r) {
        r := Fallback;
      } else if !Found(ParagraphTag, r) && !Found(HeadingTag, r) {
        r := "<p>" + r + "</p>";
      }
    } else if PhpEmpty(c) {
      r := Fallback;
    } else {
      var html := WrapParagraphs(Split(BlankLineGap, c));
      r := if PhpEmpty(html) then "<p>" + c + "</p>" else html;
    }
  }

  /** The loop of `ensure_html_content` over the paragraphs. */
  method WrapParagraphs(paragraphs: seq<string>) returns (html: string)
    ensures html == Paragraphs(paragraphs)
  {
    html := "";
    for i := 0 to |paragraphs|
      invariant html == Paragraphs(paragraphs[..i])
    {
      ParagraphsSnoc(paragraphs, i);
      var paragraph := Trim(paragraphs[i]);
      if !PhpEmpty(paragraph) && !AllPunct(paragraph) {
        html := html + "<p>" + paragraph + "</p>\n";
      }
    }
    assert paragraphs[..|paragraphs|] == paragraphs;
  }

  /** In the markup branch, anything but the fallback holds a `<p…>` or `<h1-6…>` opening tag. */
  lemma MarkupBranchHasTag(content: string)
    requires var c := CleanedContent(content); '<' in c && '>' in c
    ensures HtmlContent(content) == Fallback || Found(ParagraphTag, HtmlContent(content)) || Found(HeadingTag, HtmlContent(content))
  {
    var m := StripJsonFragments(CleanedContent(content));
    if !PhpEmpty(m) && !Found(ParagraphTag, m) && !Found(HeadingTag, m) {
      var w := "<p>" + m + "</p>";
      assert w[..3] == "<p>";
      FoundParagraphTag(w);
    }
  }

  /**
   * Plain text becomes exactly one paragraph: after `clean_content` no two
   * whitespace characters are adjacent, so the blank-line split never
   * fires, and the text's clean ends keep it from being dropped as debris.
   */
  lemma PlainTextIsOneParagraph(content: string)
    requires var c := CleanedContent(content); !('<' in c && '>' in c) && !PhpEmpty(c)
    ensures HtmlContent(content) == "<p>" + CleanedContent(content) + "</p>\n"
  {
    var c := CleanedContent(content);
    CleanedContentShape(content);
    NoBlankLineGap(c, BlankLineGap);
    SplitFromNoMatch(BlankLineGap, c, 0, 0);
    assert c[0..] == c;
    assert Split(BlankLineGap, c) == [c];
    assert Trimmed(c);
    TrimOfTrimmed(c);
    assert !AllPunct(c);
    assert [c][..0] == [];
    assert Paragraphs([c]) == ParagraphHtml(c);
  }

  // ---------------------------------------------------------------------------
  // parse_as_plain_text and generate_basic_structured_data

  /** What the WordPress lookups and the clock supply. */
  datatype Site = Site(
    blogName: string,               // get_bloginfo('name')
    authorOption: Option<string>,   // the stored author-name option, if any
    siteIconUrl: string,            // get_site_icon_url()
    nowIso: string,                 // current_time('c')
    nowStamp: string)               // date('Y-m-d H:i:s')

  /** The schema type a content type is published as. */
  function SchemaTypeFor(contentType: string): (r: string)
    ensures r == "FAQPage" <==> contentType == "faq"
    ensures r == "HowTo" <==> contentType == "howto"
    ensures r == "Article" <==> contentType != "faq" && contentType != "howto"
  {
    if contentType == "faq" then "FAQPage" else if contentType == "howto" then "HowTo" else "Article"
  }

  /** `generate_basic_structured_data`: the article fields, then `@type` appended last. */
  function BasicStructuredData(title: string, content: string, contentType: string, site: Site): (r: JsonValue)
    ensures r.JObject? && Get(r.members, "@type") == Some(JString(SchemaTypeFor(contentType)))
    ensures Get(r.members, "headline") == Some(JString(title))
  {
    var author := if site.authorOption.Some? then site.authorOption.value else site.blogName;
    var base := [
      ("@context", JString("https://schema.org")),
      ("headline", JString(title)),
      ("description", JString(TrimWords(StripTags(content), 30))),
      ("datePublished", JString(site.nowIso)),
      ("dateModified", JString(site.nowIso)),
      ("author", JObject([("@type", JString("Person")), ("name", JString(author))])),
      ("publisher", JObject([
        ("@type", JString("Organization")),
        ("name", JString(site.blogName)),
        ("logo", JObject([("@type", JString("ImageObject")), ("url", JString(site.siteIconUrl))]))]))
    ];
    var v := JString(SchemaTypeFor(contentType));
    GetSetSame(base, "@type", v);
    GetSetOther(base, "@type", v, "headline");
    JObject(Set(base, "@type", v))
  }

  /** The title and content accumulators of the line loop. */
  datatype PlainText = PlainText(title: string, content: string)

  /**
   * One line of the loop: blank lines are skipped; while the title is empty
   * the first line not starting with `<` or `{` becomes the title; once there
   * is a title every line is appended to the content.
   */
  function PlainStep(acc: PlainText, line: string): PlainText {
    var l := Trim(line);
    if PhpEmpty(l) then acc
    else if PhpEmpty(acc.title) && l[0] != '<' && l[0] != '{' then PlainText(CleanTitle(l), acc.content)
    else if !PhpEmpty(acc.title) then PlainText(acc.title, acc.content + l + "\n")
    else acc
  }

  /** The line loop over `lines`, first line first. */
  function PlainLines(lines: seq<string>): PlainText
    decreases |lines|
  {
    if |lines| == 0 then PlainText("", "") else PlainStep(PlainLines(lines[..|lines| - 1]), lines[|lines| - 1])
  }

  /** The title taken from the lines, or the dated fallback when none was found. */
  function PlainTitle(title: string, contentType: string, site: Site): (r: string)
    ensures !PhpEmpty(r)
    ensures !PhpEmpty(title) ==> r == title
    ensures PhpEmpty(title) ==> r == Ucfirst(contentType) + " About " + site.nowStamp
  {
    if PhpEmpty(title) then
      var fallback := Ucfirst(contentType) + " About " + site.nowStamp;
      assert |fallback| >= 7;
      fallback
    else title
  }

  /** What `parse_as_plain_text` returns. */
  function PlainTextResult(response: string, contentType: string, site: Site): (r: JsonValue)
    ensures r.JObject? && |r.members| == 3 && r.members[0].0 == "title"
    ensures r.members[0].1.JString? && !PhpEmpty(r.members[0].1.str)
  {
    var acc := PlainLines(Explode(response, '\n'));
    var title := PlainTitle(acc.title, contentType, site);
    var content := HtmlContent(acc.content);
    JObject([
      ("title", JString(title)),
      ("content", JString(content)),
      ("structured_data", BasicStructuredData(title, content, contentType, site))])
  }

  /** `parse_as_plain_text`, with its loop over the lines. */
  method ParsePlainText(response: string, contentType: string, site: Site) returns (r: JsonValue)
    ensures r == PlainTextResult(response, contentType, site)
  {
    var lines := Explode(response, '\n');
    var title := "";
    var content := "";
    for i := 0 to |lines|
      invariant PlainText(title, content) == PlainLines(lines[..i])
    {
      assert lines[..i + 1][..i] == lines[..i];
      var line := Trim(lines[i]);
      if PhpEmpty(line) {
        continue;
      }
      if PhpEmpty(title) && line[0] != '<' && line[0] != '{' {
        title := CleanTitle(line);
        continue;
      }
      if !PhpEmpty(title) {
        content := content + line + "\n";
      }
    }
    assert lines[..|lines|] == lines;
    if PhpEmpty(title) {
      title := Ucfirst(contentType) + " About " + site.nowStamp;
    }
    content := EnsureHtml(content);
    r := JObject([
      ("title", JString(title)),
      ("content", JString(content)),
      ("structured_data", BasicStructuredData(title, content, contentType, site))]);
  }

  /** A line that becomes the title when none has been taken yet. */
  predicate TitleLine(line: string) {
    var l := Trim(line);
    !PhpEmpty(l) && l[0] != '<' && l[0] != '{' && !PhpEmpty(CleanTitle(l))
  }

  /** The content the loop collects once there is a title: each non-blank line, trimmed, and a newline. */
  function Body(lines: seq<string>): string
    decreases |lines|
  {
    if |lines| == 0 then ""
    else
      var l := Trim(lines[|lines| - 1]);
      Body(lines[..|lines| - 1]) + (if PhpEmpty(l) then "" else l + "\n")
  }

  /** Nothing is collected before there is a title. */
  lemma {:induction false} UntitledHasNoContent(lines: seq<string>)
    ensures PhpEmpty(PlainLines(lines).title) ==> PlainLines(lines).content == ""
    decreases |lines|
  {
    if |lines| > 0 {
      UntitledHasNoContent(lines[..|lines| - 1]);
      TitleStays(PlainLines(lines[..|lines| - 1]), lines[|lines| - 1]);
    }
  }

  /** Once taken, a title is never replaced. */
  lemma TitleStays(acc: PlainText, line: string)
    ensures !PhpEmpty(acc.title) ==> PlainStep(acc, line).title == acc.title
    ensures PhpEmpty(PlainStep(acc, line).title) ==> PlainStep(acc, line).content == acc.content
  {
  }

  /** Lines that cannot become the title leave the title unset and collect nothing. */
  lemma {:induction false} NoTitleLine(lines: seq<string>)
    requires forall i :: 0 <= i < |lines| ==> !TitleLine(lines[i])
    ensures PhpEmpty(PlainLines(lines).title) && PlainLines(lines).content == ""
    decreases |lines|
  {
    if |lines| > 0 {
      NoTitleLine(lines[..|lines| - 1]);
      assert !TitleLine(lines[|lines| - 1]);
    }
  }

  /** The loop over one more line. */
  lemma PlainLinesSnoc(lines: seq<string>, line: string)
    ensures PlainLines(lines + [line]) == PlainStep(PlainLines(lines), line)
  {
    assert (lines + [line])[..|lines|] == lines;
  }

  /** A titled accumulator collects a line as `Body` does. */
  lemma BodySnoc(acc: PlainText, lines: seq<string>, line: string)
    requires !PhpEmpty(acc.title) && acc.content == Body(lines)
    ensures PlainStep(acc, line) == PlainText(acc.title, Body(lines + [line]))
  {
    assert (lines + [line])[..|lines|] == lines;
  }

  /** After the title line, every non-blank line is collected, in order. */
  lemma {:induction false} TitleThenBody(before: seq<string>, line: string, after: seq<string>)
    requires PhpEmpty(PlainLines(before).title) && TitleLine(line)
    ensures PlainLines(before + [line] + after) == PlainText(CleanTitle(Trim(line)), Body(after))
    decreases |after|
  {
    if |after| == 0 {
      assert before + [line] + after == before + [line];
      UntitledHasNoContent(before);
      PlainLinesSnoc(before, line);
    } else {
      var init := after[..|after| - 1];
      var last := after[|after| - 1];
      assert before + [line] + after == (before + [line] + init) + [last];
      assert after == init + [last];
      TitleThenBody(before, line, init);
      PlainLinesSnoc(before + [line] + init, last);
      BodySnoc(PlainLines(before + [line] + init), init, last);
    }
  }

  /**
   * The plain-text reading of a reply: the first line that can be a title is
   * the title, the lines before it (blank, or starting with `<` or `{`) are
   * dropped, and the body is built from the lines after it.
   */
  lemma PlainTextTitleAndBody(response: string, contentType: string, site: Site, k: nat)
    requires var lines := Explode(response, '\n');
      k < |lines| && TitleLine(lines[k]) && forall i :: 0 <= i < k ==> !TitleLine(lines[i])
    ensures var lines := Explode(response, '\n');
      var r := PlainTextResult(response, contentType, site);
      r.members[0].1 == JString(CleanTitle(Trim(lines[k]))) &&
      r.members[1] == ("content", JString(HtmlContent(Body(lines[k + 1..]))))
  {
    var lines := Explode(response, '\n');
    TitleLineAt(lines, k);
    PlainTextResultOf(response, contentType, site);
  }

  /** The loop over lines whose first possible title is at `k`. */
  lemma TitleLineAt(lines: seq<string>, k: nat)
    requires k < |lines| && TitleLine(lines[k]) && forall i :: 0 <= i < k ==> !TitleLine(lines[i])
    ensures PlainLines(lines) == PlainText(CleanTitle(Trim(lines[k])), Body(lines[k + 1..]))
  {
    var before := lines[..k];
    AroundIndex(lines, k);
    forall i | 0 <= i < |before| ensures !TitleLine(before[i]) {
      assert before[i] == lines[i];
    }
    NoTitleLine(before);
    TitleThenBody(before, lines[k], lines[k + 1..]);
  }

  /** A reply whose lines give a title keeps that title and the HTML of the collected content. */
  lemma PlainTextResultOf(response: string, contentType: string, site: Site)
    requires !PhpEmpty(PlainLines(Explode(response, '\n')).title)
    ensures var acc := PlainLines(Explode(response, '\n'));
      var r := PlainTextResult(response, contentType, site);
      r.members[0].1 == JString(acc.title) && r.members[1] == ("content", JString(HtmlContent(acc.content)))
  {
  }

  // ---------------------------------------------------------------------------
  // parse_content_response

  /** A decoded reply the JSON routes accept: an array whose title and content are set to strings. */
  predicate Usable(v: JsonValue) {
    IsSet(v, "title") && IsSet(v, "content") &&
    Get(v.members, "title").value.JString? && Get(v.members, "content").value.JString?
  }

  function Field(v: JsonValue, key: string): string
    requires v.JObject? && Get(v.members, key).Some? && Get(v.members, key).value.JString?
  {
    Get(v.members, key).value.str
  }

  /** Which of the three routes a cleaned reply takes. */
  datatype Route = Direct(v: JsonValue) | Embedded(start: nat, end: nat, v: JsonValue) | PlainTextRoute

  function RouteOf(cleaned: string): (r: Route)
    ensures r.Direct? ==> Usable(r.v)
    ensures r.Embedded? ==> Usable(r.v) && r.start <= r.end <= |cleaned|
  {
    var direct := Decode(cleaned);
    if direct.Some? && Usable(direct.value) then Direct(direct.value)
    else if '{' in cleaned && '}' in cleaned && LeftmostBalanced(cleaned).Some? then
      var (p, e) := LeftmostBalanced(cleaned).value;
      var embedded := Decode(cleaned[p..e]);
      if embedded.Some? && Usable(embedded.value) then Embedded(p, e, embedded.value) else PlainTextRoute
    else PlainTextRoute
  }

  /**
   * The JSON routes' rewrite of the decoded array: content made HTML, title
   * cleaned, structured data emptied; the direct route also runs the final
   * cleanup over the content. Keys keep their places; a new key is appended.
   */
  function Rewritten(v: JsonValue, finalCleanup: bool): JsonValue
    requires Usable(v)
  {
    var content := HtmlContent(Field(v, "content"));
    var ms := Set(v.members, "content", JString(content));
    var ms := Set(ms, "title", JString(CleanTitle(Field(v, "title"))));
    var ms := Set(ms, "structured_data", JArray([]));
    if finalCleanup then JObject(Set(ms, "content", JString(FinalContentCleanup(content)))) else JObject(ms)
  }

  /** What `parse_content_response` returns. */
  function ParsedResponse(response: string, contentType: string, site: Site): JsonValue {
    var cleaned := CleanApiResponse(response);
    match RouteOf(cleaned)
    case Direct(v) => Rewritten(v, true)
    case Embedded(_, _, v) => Rewritten(v, false)
    case PlainTextRoute => PlainTextResult(cleaned, contentType, site)
  }

  /** `parse_content_response`. */
  method ParseContentResponse(response: string, contentType: string, site: Site) returns (r: JsonValue)
    ensures r == ParsedResponse(response, contentType, site)
  {
    var cleaned := CleanApiResponse(response);
    var json := Decode(cleaned);
    if json.Some? && Usable(json.value) {
      r := RewriteDecoded(json.value, true);
      return;
    }
    json := FindEmbedded(cleaned);
    if json.Some? {
      r := RewriteDecoded(json.value, false);
      return;
    }
    r := ParsePlainText(cleaned, contentType, site);
  }

  /** The second attempt of `parse_content_response`: the leftmost brace group, decoded. */
  method FindEmbedded(cleaned: string) returns (r: Option<JsonValue>)
    requires !(Decode(cleaned).Some? && Usable(Decode(cleaned).value))
    ensures r == (if RouteOf(cleaned).Embedded? then Some(RouteOf(cleaned).v) else None)
  {
    r := None;
    if '{' in cleaned && '}' in cleaned {
      var found := LeftmostBalanced(cleaned);
      if found.Some? {
        var (p, e) := found.value;
        var json := Decode(cleaned[p..e]);
        if json.Some? && Usable(json.value) {
          r := json;
        }
      }
    }
  }

  /** The assignments of the JSON routes to the decoded array. */
  method RewriteDecoded(v: JsonValue, finalCleanup: bool) returns (r: JsonValue)
    requires Usable(v)
    ensures r == Rewritten(v, finalCleanup)
  {
    var content := EnsureHtml(Field(v, "content"));
    var ms := Set(v.members, "content", JString(content));
    ms := Set(ms, "title", JString(CleanTitle(Field(v, "title"))));
    ms := Set(ms, "structured_data", JArray([]));
    if finalCleanup {
      ms := Set(ms, "content", JString(FinalContentCleanup(content)));
    }
    r := JObject(ms);
  }

  /** What a JSON route leaves under the three keys. */
  lemma RewrittenFields(v: JsonValue, finalCleanup: bool)
    requires Usable(v)
    ensures var r := Rewritten(v, finalCleanup);
      var content := HtmlContent(Field(v, "content"));
      r.JObject? &&
      Get(r.members, "structured_data") == Some(JArray([])) &&
      Get(r.members, "title") == Some(JString(CleanTitle(Field(v, "title")))) &&
      Get(r.members, "content") == Some(JString(if finalCleanup then FinalContentCleanup(content) else content))
    ensures forall k :: k != "title" && k != "content" && k != "structured_data" ==>
      Get(Rewritten(v, finalCleanup).members, k) == Get(v.members, k)
  {
    var content := HtmlContent(Field(v, "content"));
    var ms1 := Set(v.members, "content", JString(content));
    var ms2 := Set(ms1, "title", JString(CleanTitle(Field(v, "title"))));
    var ms3 := Set(ms2, "structured_data", JArray([]));
    GetSetSame(v.members, "content", JString(content));
    GetSetOther(ms1, "title", JString(CleanTitle(Field(v, "title"))), "content");
    GetSetSame(ms1, "title", JString(CleanTitle(Field(v, "title"))));
    GetSetSame(ms2, "structured_data", JArray([]));
    GetSetOther(ms2, "structured_data", JArray([]), "title");
    GetSetOther(ms2, "structured_data", JArray([]), "content");
    if finalCleanup {
      var fin := JString(FinalContentCleanup(content));
      GetSetSame(ms3, "content", fin);
      GetSetOther(ms3, "content", fin, "title");
      GetSetOther(ms3, "content", fin, "structured_data");
    }
    forall k | k != "title" && k != "content" && k != "structured_data"
      ensures Get(Rewritten(v, finalCleanup).members, k) == Get(v.members, k)
    {
      GetSetOther(v.members, "content", JString(content), k);
      GetSetOther(ms1, "title", JString(CleanTitle(Field(v, "title"))), k);
      GetSetOther(ms2, "structured_data", JArray([]), k);
      GetSetOther(ms3, "content", JString(FinalContentCleanup(content)), k);
    }
  }

  /**
   * Both JSON routes empty `structured_data` and clean the title; only the
   * direct route runs the final cleanup, so only its content is sure to be
   * trimmed and free of whitespace runs.
   */
  lemma JsonRoutes(response: string, contentType: string, site: Site)
    ensures var cleaned := CleanApiResponse(response);
      var route := RouteOf(cleaned);
      var r := ParsedResponse(response, contentType, site);
      !route.PlainTextRoute? ==>
        var content := HtmlContent(Field(route.v, "content"));
        r.JObject? &&
        Get(r.members, "structured_data") == Some(JArray([])) &&
        Get(r.members, "title") == Some(JString(CleanTitle(Field(route.v, "title")))) &&
        (route.Direct? ==>
          Get(r.members, "content") == Some(JString(FinalContentCleanup(content))) &&
          Trimmed(FinalContentCleanup(content)) && NoDoubleSpace(FinalContentCleanup(content))) &&
        (route.Embedded? ==> Get(r.members, "content") == Some(JString(content)))
  {
    var route := RouteOf(CleanApiResponse(response));
    if !route.PlainTextRoute? {
      RewrittenFields(route.v, route.Direct?);
      FinalContentCleanupShape(HtmlContent(Field(route.v, "content")));
    }
  }

  /**
   * The embedded route decodes the leftmost substring whose braces balance,
   * and is taken only when the whole reply does not decode to a usable array.
   */
  lemma EmbeddedRouteIsLeftmostGroup(cleaned: string)
    requires RouteOf(cleaned).Embedded?
    ensures var Embedded(p, e, v) := RouteOf(cleaned);
      Balanced(cleaned[p..e]) && Decode(cleaned[p..e]) == Some(v) &&
      (forall q, f :: 0 <= q < p && q <= f <= |cleaned| ==> !Balanced(cleaned[q..f])) &&
      !(Decode(cleaned).Some? && Usable(Decode(cleaned).value))
  {
    LeftmostBalancedIsLeftmost(cleaned);
  }

  // ---------------------------------------------------------------------------
  // Replies in the shape the prompt asks for

  /** The members of a reply `{"title": t, "content": c}`. */
  function Pair(t: string, c: string): seq<(string, string)> {
    [("title", t), ("content", c)]
  }

  /** What a JSON route makes of such a reply. */
  function PairResult(t: string, c: string, finalCleanup: bool): JsonValue {
    var content := HtmlContent(c);
    JObject([
      ("title", JString(CleanTitle(t))),
      ("content", JString(if finalCleanup then FinalContentCleanup(content) else content)),
      ("structured_data", JArray([]))])
  }

  lemma RewrittenPair(t: string, c: string, finalCleanup: bool)
    ensures Usable(JObject(AsJsonMembers(Pair(t, c))))
    ensures Rewritten(JObject(AsJsonMembers(Pair(t, c))), finalCleanup) == PairResult(t, c, finalCleanup)
  {
    PairMembers(t, c);
    RewrittenTitleContent(t, c, finalCleanup);
  }

  /** The rewrite of the array with just a title and a content. */
  lemma RewrittenTitleContent(t: string, c: string, finalCleanup: bool)
    ensures Usable(JObject([("title", JString(t)), ("content", JString(c))]))
    ensures Rewritten(JObject([("title", JString(t)), ("content", JString(c))]), finalCleanup) == PairResult(t, c, finalCleanup)
  {
    var content := HtmlContent(c);
    SetChain("title", "content", "structured_data", JString(t), JString(c),
      JString(content), JString(CleanTitle(t)), JArray([]), JString(FinalContentCleanup(content)));
  }

  lemma PairMembers(t: string, c: string)
    ensures AsJsonMembers(Pair(t, c)) == [("title", JString(t)), ("content", JString(c))]
  {
    var p := Pair(t, c);
    assert p[1..] == [("content", c)] && p[1..][1..] == [];
    assert AsJsonMembers(p[1..]) == [("content", JString(c))] by {
      assert AsJsonMembers(p[1..][1..]) == [];
    }
  }

  /** The four assignments of a JSON route on a two-member array, with abstract keys and values. */
  lemma SetChain(k1: string, k2: string, k3: string, a: JsonValue, b: JsonValue,
                 x: JsonValue, y: JsonValue, z: JsonValue, w: JsonValue)
    requires k1 != k2 && k3 != k1 && k3 != k2
    ensures Get([(k1, a), (k2, b)], k1) == Some(a) && Get([(k1, a), (k2, b)], k2) == Some(b)
    ensures var ms1 := Set([(k1, a), (k2, b)], k2, x);
      var ms2 := Set(ms1, k1, y);
      var ms3 := Set(ms2, k3, z);
      ms3 == [(k1, y), (k2, x), (k3, z)] && Set(ms3, k2, w) == [(k1, y), (k2, w), (k3, z)]
  {
    var ms := [(k1, a), (k2, b)];
    assert ms[1..] == [(k2, b)] && ms[1..][1..] == [];
    assert Set(ms[1..], k2, x) == [(k2, x)];
    var ms1 := Set(ms, k2, x);
    assert ms1 == [(k1, a), (k2, x)];
    var ms2 := Set(ms1, k1, y);
    assert ms2 == [(k1, y), (k2, x)];
    assert !HasKey(ms2, k3);
    var ms3 := Set(ms2, k3, z);
    assert ms3[1..] == [(k2, x), (k3, z)];
  }

  /** Characters a reply without them keeps out of its encoding. */
  predicate Avoidable(ch: char) {
    ch == '`' || ch == '{' || ch == '}'
  }

  lemma EncodeStringAvoids(x: string, ch: char)
    requires Avoidable(ch) && ch !in x
    ensures ch !in EncodeString(x)
  {
    EscapeCharsAvoid(x, ch);
  }

  lemma PairLayout(t: string, c: string, ch: char)
    requires Avoidable(ch) && ch !in t && ch !in c
    ensures var e := EncodeObject(Pair(t, c));
      |e| >= 2 && e[0] == '{' && e[|e| - 1] == '}' && ch !in e[1..|e| - 1]
  {
    assert ch !in "title" && ch !in "content";
    TwoMembersLayout("title", t, "content", c, ch);
  }

  lemma TwoMembersLayout(k1: string, v1: string, k2: string, v2: string, ch: char)
    requires Avoidable(ch) && ch !in k1 && ch !in v1 && ch !in k2 && ch !in v2
    ensures var e := EncodeObject([(k1, v1), (k2, v2)]);
      |e| >= 2 && e[0] == '{' && e[|e| - 1] == '}' && ch !in e[1..|e| - 1]
  {
    var ms := [(k1, v1), (k2, v2)];
    assert EncodeMembers(ms[1..]) == EncodeMember(ms[1]);
    var m := EncodeMembers(ms);
    EncodeStringAvoids(k1, ch);
    EncodeStringAvoids(v1, ch);
    EncodeStringAvoids(k2, ch);
    EncodeStringAvoids(v2, ch);
    assert ch !in m;
    assert EncodeObject(ms) == "{" + m + "}";
    assert EncodeObject(ms)[1..|EncodeObject(ms)| - 1] == m;
  }

  /** Without a backtick, the fence removals keep a reply, and trimming keeps a trimmed one. */
  lemma CleanApiResponseOfPlain(s: string)
    requires '`' !in s && Trimmed(s)
    ensures CleanApiResponse(s) == s
  {
    forall pat: Pattern | pat == FenceJsonTag || pat == FenceAtEnd || pat == Fence
      ensures NoMatchFrom(pat, s, 0)
    {
      forall q | 0 <= q < |s| ensures MatchAt(pat, s, q).None? {
        assert !StartsAt(s, q, "```") by {
          if q + 3 <= |s| {
            assert s[q..q + 3][0] == s[q];
          }
        }
      }
    }
    ReplaceFromNoMatch(FenceJsonTag, s, "", 0);
    ReplaceFromNoMatch(FenceAtEnd, s, "", 0);
    ReplaceFromNoMatch(Fence, s, "", 0);
    TrimOfTrimmed(s);
  }

  /**
   * A reply that is exactly the requested JSON object takes the direct route:
   * the title comes back cleaned, the content as cleaned HTML, and the
   * structured data empty.
   */
  lemma DirectRouteOfEncodedReply(t: string, c: string, contentType: string, site: Site)
    requires '`' !in t && '`' !in c
    ensures ParsedResponse(EncodeObject(Pair(t, c)), contentType, site) == PairResult(t, c, true)
  {
    var e := EncodeObject(Pair(t, c));
    PairLayout(t, c, '`');
    DecodeEncodeObject(Pair(t, c));
    RewrittenPair(t, c, true);
    EncodedRoute(e, JObject(AsJsonMembers(Pair(t, c))));
    DirectParsed(e, contentType, site);
  }

  /** An encoded object that decodes to a usable value decides the direct route. */
  lemma EncodedRoute(e: string, v: JsonValue)
    requires |e| >= 2 && e[0] == '{' && e[|e| - 1] == '}' && '`' !in e[1..|e| - 1]
    requires Decode(e) == Some(v) && Usable(v)
    ensures CleanApiResponse(e) == e && RouteOf(e) == Direct(v)
  {
    assert '`' !in e by {
      assert e == [e[0]] + e[1..|e| - 1] + [e[|e| - 1]];
    }
    CleanApiResponseOfPlain(e);
  }

  /** A clean reply on the direct route gets the rewrite and the final cleanup. */
  lemma DirectParsed(s: string, contentType: string, site: Site)
    requires CleanApiResponse(s) == s && RouteOf(s).Direct?
    ensures ParsedResponse(s, contentType, site) == Rewritten(RouteOf(s).v, true)
  {
  }

  /**
   * A reply that wraps the requested JSON object in prose (starting with a
   * word, no braces or backticks elsewhere) takes the embedded route: the
   * object is cut out and decoded, but the final cleanup is not run.
   */
  lemma EmbeddedRouteOfWrappedReply(before: string, t: string, c: string, after: string, contentType: string, site: Site)
    requires |before| > 0 && IsAsciiLetter(before[0]) && before[0] != 't' && before[0] != 'f' && before[0] != 'n'
    requires |after| == 0 || !IsSpace(after[|after| - 1])
    requires forall ch :: Avoidable(ch) ==> ch !in before && ch !in t && ch !in c
    requires '`' !in after
    ensures ParsedResponse(before + EncodeObject(Pair(t, c)) + after, contentType, site) == PairResult(t, c, false)
  {
    var e := EncodeObject(Pair(t, c));
    PairLayout(t, c, '`');
    PairLayout(t, c, '{');
    PairLayout(t, c, '}');
    DecodeEncodeObject(Pair(t, c));
    RewrittenPair(t, c, false);
    WrappedRoute(before, e, after, JObject(AsJsonMembers(Pair(t, c))));
    EmbeddedParsed(before + e + after, contentType, site);
  }

  /** A wrapped object that decodes to a usable value decides the embedded route. */
  lemma WrappedRoute(before: string, e: string, after: string, v: JsonValue)
    requires |before| > 0 && IsAsciiLetter(before[0]) && before[0] != 't' && before[0] != 'f' && before[0] != 'n'
    requires |after| == 0 || !IsSpace(after[|after| - 1])
    requires '`' !in before && '{' !in before && '`' !in after
    requires |e| >= 2 && e[0] == '{' && e[|e| - 1] == '}'
    requires '`' !in e[1..|e| - 1] && '{' !in e[1..|e| - 1] && '}' !in e[1..|e| - 1]
    requires Decode(e) == Some(v) && Usable(v)
    ensures var s := before + e + after;
      CleanApiResponse(s) == s && RouteOf(s) == Embedded(|before|, |before| + |e|, v)
  {
    WrappedReply(before, e, after);
    CleanApiResponseOfPlain(before + e + after);
    WrappedRouteOf(before, e, after, v);
  }

  lemma WrappedRouteOf(before: string, e: string, after: string, v: JsonValue)
    requires var s := before + e + after;
      Decode(s) == None && s[|before|..|before| + |e|] == e
      && LeftmostBalanced(s) == Some((|before|, |before| + |e|))
    requires Decode(e) == Some(v) && Usable(v)
    ensures RouteOf(before + e + after) == Embedded(|before|, |before| + |e|, v)
  {
    EmbeddedRouteOf(before + e + after, |before|, |before| + |e|, v);
  }

  /** The facts about a wrapped object that decide the embedded route. */
  lemma WrappedReply(before: string, e: string, after: string)
    requires |before| > 0 && IsAsciiLetter(before[0]) && before[0] != 't' && before[0] != 'f' && before[0] != 'n'
    requires |after| == 0 || !IsSpace(after[|after| - 1])
    requires '`' !in before && '{' !in before && '`' !in after
    requires |e| >= 2 && e[0] == '{' && e[|e| - 1] == '}'
    requires '`' !in e[1..|e| - 1] && '{' !in e[1..|e| - 1] && '}' !in e[1..|e| - 1]
    ensures var s := before + e + after;
      '`' !in s && Trimmed(s) && Decode(s) == None && s[|before|..|before| + |e|] == e
      && LeftmostBalanced(s) == Some((|before|, |before| + |e|))
  {
    var s := before + e + after;
    assert e == [e[0]] + e[1..|e| - 1] + [e[|e| - 1]];
    assert '`' !in s && Trimmed(s);
    DecodeRejectsWord(s);
    WrappedGroup(before, e, after);
    assert s[|before|..|before| + |e|] == e;
  }

  /** A brace group preceded by no opening brace and holding no braces is the leftmost group. */
  lemma WrappedGroup(before: string, e: string, after: string)
    requires |e| >= 2 && e[0] == '{' && e[|e| - 1] == '}'
    requires '{' !in before && '{' !in e[1..|e| - 1] && '}' !in e[1..|e| - 1]
    ensures LeftmostBalanced(before + e + after) == Some((|before|, |before| + |e|))
  {
    var s := before + e + after;
    var p := |before|;
    assert s[p] == '{' && s[p + |e| - 1] == '}';
    forall i | p < i < p + |e| - 1 ensures s[i] != '{' && s[i] != '}' {
      assert s[i] == e[1..|e| - 1][i - p - 1];
    }
    FirstCloseEndsGroup(s, p, p + |e| - 1);
    forall i | 0 <= i < p ensures s[i] != '{' {
      assert s[i] == before[i];
    }
    LeftmostSkipsToBrace(s, 0, p);
  }

  /** A clean reply on the embedded route gets the rewrite without the final cleanup. */
  lemma EmbeddedParsed(s: string, contentType: string, site: Site)
    requires CleanApiResponse(s) == s && RouteOf(s).Embedded?
    ensures ParsedResponse(s, contentType, site) == Rewritten(RouteOf(s).v, false)
  {
  }

  lemma EmbeddedRouteOf(s: string, p: nat, q: nat, v: JsonValue)
    requires Decode(s) == None && LeftmostBalanced(s) == Some((p, q)) && q <= |s|
    requires Decode(s[p..q]) == Some(v) && Usable(v)
    ensures RouteOf(s) == Embedded(p, q, v)
  {
    assert s[p] == '{' && s[q - 1] == '}';
  }
}
