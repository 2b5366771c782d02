# AI Overview Optimizer: content normaliser and schema generator

This project models two classes of a WordPress plugin that writes articles
with a large language model and publishes them with Schema.org JSON-LD.

- **Content generator** (`ContentGenerator`, in `content_generator.dfy`):
  - finds the API key;
  - builds the prompt for each content type (faq, howto, comparison,
    listicle, and a default for any other type);
  - turns the model's reply into a title, an HTML body and a
    structured-data array.

  The reply can take one of three routes:
  - the whole fence-stripped reply decodes as JSON;
  - otherwise, the leftmost substring whose braces balance decodes as JSON;
  - otherwise, a line-by-line plain-text reading is used.

  Every cleaner is a chain of regular-expression rewrites. Each rewrite is
  modelled as an explicit scanner with PCRE's leftmost, non-overlapping,
  greedy semantics (`Rewrite`, `rewrite.dfy`).
- **Schema generator** (`SchemaGenerator`, in `schema_generator.dfy`):
  - builds the FAQPage, HowTo, Article and BreadcrumbList objects from a
    post and the site settings;
  - extracts questions and steps from `<h2>` sections when no stored hints
    exist;
  - validates a schema.

Supporting modules:

- `Text`: PHP's `trim`, `empty`, `explode`, `implode`, `ucfirst` and
  integer printing.
- `Json`: JSON values kept in PHP array order. This includes a `json_decode`
  parser for the whole grammar of RFC 8259, with PHP's nesting limit of 512,
  and an encoder for objects of string members.
- `Search`: searches that only report a match, not rewrite:
  - the `<h2>` section pattern of the extractors;
  - the heading probes of `has_faq_content` and `has_howto_content`;
  - the recursive brace pattern `\{(?:[^{}]|(?R))*\}` of the embedded
    route, written as a depth scan.
- `Words`: `strip_tags`, `wp_strip_all_tags`, `wp_trim_words` and PHP's
  `str_word_count`.

The plugin's classes keep no state of their own, so the model has no class.
Where the source loops, the model has a method with loop invariants, and the
method is proved equal to a function that specifies it:
- the phrase list of `clean_content`;
- the paragraphs of `ensure_html_content`;
- the reply's lines in `parse_as_plain_text`;
- the appends of `generate_schema`;
- the entity loops of the FAQ and HowTo generators;
- the extractors;
- the probe loops;
- the tag join.

The properties are proved about those functions.

WordPress lookups are parameters: the `Post` record holds the post's fields
and meta, and the `Site` record holds the site settings. The clock enters as
a timestamp string.

Whitespace is the PCRE `\s` class `{space, \t, \n, \r, \v, \f}`. It is used
both for `\s` and for `trim`.

PHP's `empty()` on a string is true for `""` and for `"0"` (`PhpEmpty`).

## Model

| member | source | states |
|---|---|---|
| ContentGenerator.ResolveApiKey | includes/class-content-generator.php:19-29 | A key passed in wins unless PHP deems it empty. Otherwise the provider's stored key is used. The call fails exactly when both are empty, and its message names the provider. A key that is returned is never empty. |
| ContentGenerator.BuildContentPrompt | includes/class-content-generator.php:103-243 | The prompt opens with the shared preamble and the type's introduction, carries the topic right after them, and closes with the type's instructions and the shared reminder. This holds for every type, unknown ones included. |
| ContentGenerator.TopicOfPrompt | includes/class-content-generator.php:103-243 | The topic can be read back from the prompt. So the topic stands verbatim in the prompt, and two different topics give two different prompts. |
| ContentGenerator.PromptEndsWithReminder | includes/class-content-generator.php:234-242 | Every prompt ends with "Return ONLY the JSON object, no additional text". |
| ContentGenerator.CleanApiResponseShape | includes/class-content-generator.php:307-317 | A cleaned reply holds no three backticks in a row and starts and ends with no whitespace. |
| ContentGenerator.CleanApiResponseOfPlain | includes/class-content-generator.php:307-317 | A reply with no backtick that is already trimmed is left unchanged. |
| ContentGenerator.CleanTitleShape | includes/class-content-generator.php:504-512 | A cleaned title holds none of `{ } " [ ]`, has no two adjacent whitespace characters, and is trimmed. |
| ContentGenerator.CleanContent | includes/class-content-generator.php:453-499 | The method, with its loop over the unwanted phrases, computes the cleaned content. |
| ContentGenerator.RemovePhrasesNoBraceGroup | includes/class-content-generator.php:482-484 | Removing the phrases never puts a `}` after a `{`. |
| ContentGenerator.TidySpacing | includes/class-content-generator.php:487-490 | After the four whitespace rewrites no two whitespace characters are adjacent and no `{` has a `}` after it. The blank-line-gap rewrite then changes nothing. |
| ContentGenerator.CleanedContentShape | includes/class-content-generator.php:453-499 | Cleaned content has no `{` followed anywhere by `}`, has no two adjacent whitespace characters, and neither starts nor ends with whitespace or one of `" } ] { [ . , ; : -`. |
| ContentGenerator.FinalContentCleanupShape | includes/class-content-generator.php:517-532 | The final cleanup's result is trimmed and has no two adjacent whitespace characters. |
| ContentGenerator.HtmlContent | includes/class-content-generator.php:322-373 | The HTML content is never empty. When cleaning empties the text, it is exactly the fixed fallback paragraph. |
| ContentGenerator.EnsureHtml | includes/class-content-generator.php:322-373 | The method computes the HTML content. |
| ContentGenerator.WrapParagraphs | includes/class-content-generator.php:359-370 | The loop appends one `<p>` element per non-blank paragraph that is not debris, in order. |
| ContentGenerator.MarkupBranchHasTag | includes/class-content-generator.php:327-351 | In the markup branch, any result other than the fallback holds a `<p…>` or `<h1-6…>` opening tag. |
| ContentGenerator.PlainTextIsOneParagraph | includes/class-content-generator.php:353-372 | In the branch without markup, non-empty cleaned text `c` gives exactly `"<p>" + c + "</p>\n"`. The blank-line split never fires, because line 487 has already collapsed every whitespace run. |
| ContentGenerator.SchemaTypeFor | includes/class-content-generator.php:435-445 | The `@type` is FAQPage exactly for faq and HowTo exactly for howto. Every other content type gives Article. |
| ContentGenerator.BasicStructuredData | includes/class-content-generator.php:414-448 | The basic structured data carries the title as headline, and its `@type` follows the content type. |
| ContentGenerator.PlainTitle | includes/class-content-generator.php:398-400 | The title is never empty. A title taken from the lines is kept as it is. Without one, the title is `ucfirst(type) . " About " .` the timestamp. |
| ContentGenerator.PlainTextResult | includes/class-content-generator.php:378-409 | The plain-text reading is an array of three members whose first is a non-empty string title. |
| ContentGenerator.ParsePlainText | includes/class-content-generator.php:378-409 | The method, with its loop over the lines, computes the plain-text reading. |
| ContentGenerator.UntitledHasNoContent | includes/class-content-generator.php:384-396 | Nothing is collected while no title has been taken. |
| ContentGenerator.TitleStays | includes/class-content-generator.php:388-395 | Once a title is taken it is never replaced. |
| ContentGenerator.NoTitleLine | includes/class-content-generator.php:384-396 | Lines that are blank or start with `<` or `{` leave the title unset and collect nothing. |
| ContentGenerator.TitleThenBody | includes/class-content-generator.php:384-396 | After the first line that can be a title, every later non-blank line is collected, in order. |
| ContentGenerator.PlainTextTitleAndBody | includes/class-content-generator.php:378-409 | The first line that can be a title becomes the cleaned title, and the lines before it are dropped. The content is the HTML of the non-blank lines after it. |
| ContentGenerator.TitleLineAt | includes/class-content-generator.php:384-396 | The line loop ends with the cleaned title line and the body of the lines after it. |
| ContentGenerator.PlainTextResultOf | includes/class-content-generator.php:398-408 | A title taken from the lines is the result's title, and the content is the HTML of what was collected. |
| ContentGenerator.RouteOf | includes/class-content-generator.php:271-298 | Both JSON routes only ever carry an array with title and content set. The embedded route's span lies within the reply. |
| ContentGenerator.ParseContentResponse | includes/class-content-generator.php:266-302 | The method, trying direct decoding, then the embedded object, then plain text, computes the parsed response. |
| ContentGenerator.FindEmbedded | includes/class-content-generator.php:286-298 | When the whole reply does not decode to a usable array, the second attempt finds the embedded route's value, or nothing. |
| ContentGenerator.RewriteDecoded | includes/class-content-generator.php:274-280 | The method's assignments to the decoded array compute the rewritten array. |
| ContentGenerator.RewrittenFields | includes/class-content-generator.php:274-295 | After a JSON route, `structured_data` is an empty array and the title is the cleaned title. The content is the HTML content, put through the final cleanup only on the direct route. Every other decoded key keeps its value. |
| ContentGenerator.JsonRoutes | includes/class-content-generator.php:266-302 | Both JSON routes set `structured_data` to an empty array and clean the title. Only the direct route applies the final cleanup, so only its content is sure to be trimmed and free of whitespace runs. |
| ContentGenerator.EmbeddedRouteIsLeftmostGroup | includes/class-content-generator.php:286-296 | The embedded route decodes a substring whose braces balance, and no such substring starts further left. The route is taken only when the whole reply does not decode to a usable array. |
| ContentGenerator.DirectRouteOfEncodedReply | includes/class-content-generator.php:271-283 | A reply that is exactly the JSON object `{"title": t, "content": c}` takes the direct route. It gives the cleaned title, the cleaned HTML content after the final cleanup, and an empty `structured_data`. |
| ContentGenerator.EmbeddedRouteOfWrappedReply | includes/class-content-generator.php:286-296 | A reply that wraps that object in prose takes the embedded route. It gives the same title and HTML content, but without the final cleanup. |
| ContentGenerator.WrappedReply | includes/class-content-generator.php:286-291 | Prose before and after an object does not decode, and the leftmost brace group is exactly the object. |
| ContentGenerator.EmbeddedRouteOf | includes/class-content-generator.php:286-291 | A reply that does not decode, but whose leftmost brace group decodes to a usable array, takes the embedded route with that group. |
| ContentGenerator.DirectParsed | includes/class-content-generator.php:271-283 | A reply on the direct route is rewritten with the final cleanup. |
| ContentGenerator.EmbeddedParsed | includes/class-content-generator.php:289-296 | A reply on the embedded route is rewritten without the final cleanup. |
| SchemaGenerator.ValidateSchema | includes/class-schema-generator.php:409-425 | The result is true exactly for an array whose `@context` is the string "https://schema.org" and whose `@type` is set. |
| SchemaGenerator.EmptyTypeValidates | includes/class-schema-generator.php:419-422 | An empty `@type` passes validation, because only set-ness is checked. |
| SchemaGenerator.SiteLogoUrl | includes/class-schema-generator.php:391-404 | The logo is the site icon when it is non-empty. Otherwise, when a logo id is set, it is the custom logo's URL, or false when that URL is missing. Otherwise it is the theme's default logo path. |
| SchemaGenerator.PostTags | includes/class-schema-generator.php:374-386 | The method, with its loop collecting `$tag->name`, returns the names joined with ", ". No tags give "", and one tag gives its name. |
| SchemaGenerator.TagsSplitBack | includes/class-schema-generator.php:385 | Splitting the keywords on commas gives the tags back, each after the first behind one space. |
| SchemaGenerator.BaseSchema | includes/class-schema-generator.php:26-63 | The base schema passes validation as an Article. It has ten members with a thumbnail URL and nine without. |
| SchemaGenerator.BaseSchemaEntries | includes/class-schema-generator.php:33-61 | The author is a Person named by the stored author name, or by the site name when that is empty. The `image` member is present exactly when the thumbnail has a URL, and then holds the thumbnail's URL, width and height. |
| SchemaGenerator.ReadingMinutes | includes/class-schema-generator.php:201 | The minutes are the least `m` with `200 * m >= words`, that is `ceil(words / 200)`. |
| SchemaGenerator.TimeRequiredExamples | includes/class-schema-generator.php:201-202 | 400 words read as "PT2M", 401 words as "PT3M", and 0 words as "PT0M". |
| SchemaGenerator.TimeRequiredReadsBack | includes/class-schema-generator.php:201-202 | The duration is "PT", decimal digits and "M", and the digits read back as the reading minutes. |
| SchemaGenerator.ArticleSchema | includes/class-schema-generator.php:188-205 | The article schema passes validation as an Article. Its `articleSection` is the first category's name, or "" without one. Its `keywords` is the tag names joined by ", ", which is what `PostTags` returns. Its `wordCount` is the `str_word_count` of the stripped content, and its `timeRequired` is the duration of that count. |
| SchemaGenerator.ArticleFields | includes/class-schema-generator.php:189-202 | The five assignments keep the schema valid and its type Article. The word count and duration read back as written. |
| SchemaGenerator.SetKeepsValid | includes/class-schema-generator.php:193-202 | Assigning any key other than `@context` and `@type` keeps a schema valid and keeps its type. |
| SchemaGenerator.Crumbs | includes/class-schema-generator.php:211-243 | Home, with the home URL, comes first. The first category, with its name and link, follows if there is one. The post, with its title and permalink, comes last. The positions run 1, 2, ... without a gap. |
| SchemaGenerator.BreadcrumbSchema | includes/class-schema-generator.php:245-249 | The breadcrumb schema passes validation as a BreadcrumbList. |
| SchemaGenerator.EntryOf | includes/class-schema-generator.php:263-275 | A section gives an entry exactly when its stripped heading and its stripped, word-trimmed body are both non-empty. The entry holds the heading and the trimmed body. |
| SchemaGenerator.KeptInOrder | includes/class-schema-generator.php:262-277 | The kept entries come from strictly increasing sections, each entry from the section it names. |
| SchemaGenerator.KeptComplete | includes/class-schema-generator.php:262-277 | Every section that passes the filter gives a kept entry. |
| SchemaGenerator.Extracted | includes/class-schema-generator.php:279 | The extractors keep the first `cap` kept entries: all of them when there are at most `cap`. |
| SchemaGenerator.ExtractEntries | includes/class-schema-generator.php:255-310 | The method, with its loop over the sections, computes the extracted entries. |
| SchemaGenerator.StepEntities | includes/class-schema-generator.php:167-174 | There is one step per extracted step. The step at index `i` is a HowToStep object with position `i + 1`, the step's title as name and its content as text. |
| SchemaGenerator.FaqSchema | includes/class-schema-generator.php:104-140 | A stored `mainEntity` is used verbatim. Otherwise `mainEntity` is the list of Questions of the extracted entries. There is no schema exactly when there is no stored hint and no question was extracted. A schema that is produced passes validation as an FAQPage. |
| SchemaGenerator.HowToSchema | includes/class-schema-generator.php:145-183 | A stored `step` is used verbatim. Otherwise the steps are numbered from 1. There is no schema exactly when there is no stored hint and no step was extracted. A schema that is produced passes validation as a HowTo. |
| SchemaGenerator.Questions | includes/class-schema-generator.php:123-133 | There is one Question per entry, in order, each holding the entry's question and its answer. |
| SchemaGenerator.GenerateFaqSchema | includes/class-schema-generator.php:104-140 | The method, with its loop over the questions, computes the FAQ schema. |
| SchemaGenerator.BuildQuestions | includes/class-schema-generator.php:123-133 | The loop builds one Question per entry, in order. |
| SchemaGenerator.GenerateHowToSchema | includes/class-schema-generator.php:145-183 | The method, with its loop numbering the steps, computes the HowTo schema. |
| SchemaGenerator.BuildSteps | includes/class-schema-generator.php:166-174 | The loop computes the numbered steps. |
| SchemaGenerator.HasContent | includes/class-schema-generator.php:315-357 | The probe loop answers true exactly when some probe matches somewhere in the content. |
| SchemaGenerator.QuestionHeadingIsFaq | includes/class-schema-generator.php:318 | An `<H2>` heading that opens with "What " counts as FAQ content, whatever the case. |
| SchemaGenerator.FaqPart | includes/class-schema-generator.php:66-71 | An FAQ schema is appended exactly when faq is requested, the content type or a question heading calls for one, and the generator produces one. |
| SchemaGenerator.HowToPart | includes/class-schema-generator.php:73-78 | A HowTo schema is appended exactly when howto is requested, the content type or a step heading calls for one, and the generator produces one. |
| SchemaGenerator.ArticlePart | includes/class-schema-generator.php:80-83 | One Article is appended exactly when article is requested. |
| SchemaGenerator.BreadcrumbPart | includes/class-schema-generator.php:85-90 | One BreadcrumbList is appended exactly when breadcrumb is requested. |
| SchemaGenerator.GenerateSchema | includes/class-schema-generator.php:16-99 | The method, appending schema by schema, computes the schema output. |
| SchemaGenerator.CollectSchemas | includes/class-schema-generator.php:65-90 | The four appends collect the four parts in their fixed order. |
| SchemaGenerator.SchemasInFixedOrder | includes/class-schema-generator.php:65-90 | Whatever the request order, every collected schema passes validation. They come out strictly ranked FAQPage, HowTo, Article, BreadcrumbList, so each type appears at most once. |
| SchemaGenerator.SchemasPresent | includes/class-schema-generator.php:65-90 | FAQPage is present exactly when requested, called for and non-empty, and HowTo likewise. Article and BreadcrumbList are present exactly when requested. |
| SchemaGenerator.OutputShape | includes/class-schema-generator.php:92-98 | With nothing collected the output is the base Article schema. With one schema collected it is that schema, bare. With more it is the list of the collected schemas. Either way, every schema in it passes validation. |
| SchemaGenerator.OutputValidIffSingle | includes/class-schema-generator.php:92-98 | The output passes `validate_schema` exactly when at most one schema was collected. |
| SchemaGenerator.RequestOrderIrrelevant | includes/class-schema-generator.php:16-19 | Two requests with the same members give the same output, whatever their order and repetitions. A single type stands for a one-element list. |
| Json.GetSetSame | includes/class-content-generator.php:274-280 | Reading a key just assigned gives the assigned value. |
| Json.GetSetOther | includes/class-content-generator.php:274-280 | Assigning a key leaves every other key as it was. |
| Json.ParseStringOfEscaped | includes/class-content-generator.php:271 | The string decoder reads back what the escaper wrote and stops after the closing quote. |
| Json.DecodeEncodeObject | includes/class-content-generator.php:271 | Decoding an encoded object of string members with distinct keys gives those members back, in order. |
| Json.DecodeRejectsWord | includes/class-content-generator.php:271 | A text that starts with a letter other than the first letter of `true`, `false` or `null` does not decode. |
| Search.BalancedAtIff | includes/class-content-generator.php:288 | The recursive pattern matches at `p` exactly the brace groups that open there: the substrings whose braces balance. |
| Search.LeftmostBalancedIsLeftmost | includes/class-content-generator.php:288 | The match is a substring whose braces balance, and no such substring starts further left. When there is no match, no substring's braces balance. |
| Search.FirstCloseEndsGroup | includes/class-content-generator.php:288 | Braces are counted wherever they stand, inside JSON strings too. The first `}` with no `{` since the opening brace closes the group. |
| Search.FindIgnoringCase | includes/class-schema-generator.php:259 | The case-insensitive search returns the first occurrence at or after the start, or reports that there is none. |
| Search.FoundFrom | includes/class-schema-generator.php:330 | A probe is found exactly when it matches at some position of the content. |
| Search.SectionHeadingsHoldNoClosingTag | includes/class-schema-generator.php:259 | Because the lazy heading group stops at the first `</h2>`, no extracted heading holds one. |
| Rewrite.RemoveFences | includes/class-content-generator.php:311 | Removing every fence leaves no three backticks in a row, even where a removal joins backticks. |
| Rewrite.RemoveBraceGroups | includes/class-content-generator.php:458 | Removing the brace groups leaves no `{` with a `}` after it. |
| Rewrite.CollapseSpace | includes/class-content-generator.php:487 | Collapsing whitespace runs of two or more leaves no two adjacent whitespace characters. |
| Rewrite.JoinTags | includes/class-content-generator.php:488 | Joining tags across whitespace keeps whitespace runs at most one character long. |
| Rewrite.BlankLineMatchesOnlyLoneSpace | includes/class-content-generator.php:489 | Once whitespace runs are single, the blank-line pattern matches only a string that is one whitespace character. |
| Rewrite.ReplaceFromChars | includes/class-content-generator.php:455-470 | A rewrite emits only characters of its input or of its replacement. |
| Words.StripTagsLeavesNoTag | includes/class-schema-generator.php:197 | After stripping tags no `<` opens a tag, and every character comes from the input. |
| Words.TrimWordsBound | includes/class-schema-generator.php:268 | When nothing is cut, the trimmed text holds the same words as the stripped input. Otherwise it is the first `n` words joined by spaces, followed by an ellipsis. |
| Words.SplitJoinWords | includes/class-schema-generator.php:268 | Splitting words joined by single spaces gives the words back. |
| Words.StrWordCountOfWords | includes/class-schema-generator.php:197 | Letter words separated by single spaces count as exactly that many words. |
| Text.ExplodeJoin | includes/class-content-generator.php:380 | Splitting pieces joined by a separator that none of them holds gives the pieces back. |
| Text.JoinExplode | includes/class-content-generator.php:380 | Joining the pieces of a split with its separator gives the text back. |
| Text.DigitsValueOfNatToString | includes/class-schema-generator.php:198 | The printed digits of a number read back as that number. |
| Text.TrimSlice | includes/class-content-generator.php:314 | `trim` returns a slice of its input, and everything it cuts off is whitespace. |

## Left out

- HTTP requests to the providers and their dispatch (`make_api_request`, `request_gemini_content`, `request_openai_content`, `generate_content_by_type`) are network I/O. The model starts from the reply text.
- Not modelled: `generate_overview_post` after the key check. It covers post insertion, meta updates, the sanitisers `sanitize_text_field` and `wp_kses_post`, and the error wrapping. These are WordPress storage and foreign code.
- WordPress lookups (`get_option`, `get_post_meta`, `get_permalink`, dates, thumbnails, categories, tags, theme mods, site icon) are fields of the `Post` and `Site` records. The clock is a timestamp string.
- The thumbnail's width and height come from `wp_get_attachment_image_src`. They are kept as given numbers, not computed.
- Words.StripTags: PHP `strip_tags` is simplified. A `<` not followed by whitespace opens a tag that runs to the next `>`. Quotes, comments and PHP tags inside are not treated specially.
- Words.StripAllTags: `wp_strip_all_tags` does not remove the bodies of `script` and `style` elements here.
- Words.TrimWords: only the words mode of `wp_trim_words`. Its mode that counts characters for some locales is left out.
- Text.Trim: PHP's `trim` strips `\0` and not `\f`. The model uses the single `\s` class for both, so it differs on those two characters.
- ContentGenerator.ParseContentResponse: a decoded title or content counts only when it is a JSON string. PHP would also coerce numbers and booleans and pass arrays on. Such replies take the plain-text route in the model.
- ContentGenerator.ParseContentResponse: the truthiness test on the decoded array is subsumed by the two `isset` tests. An array with both keys set is never empty.
- Rewrite.MatchAt: PCRE's backtracking and recursion limits are not modelled. A match is found whatever its length.
- Search.LeftmostBalancedFrom: PCRE's recursion and backtracking limits on the recursive pattern are not modelled. A balanced group is found whatever its length or depth. Where PHP's `preg_match` would hit a limit and return false, the reply would fall through to the plain-text route; the model takes the embedded route.
- SchemaGenerator.ReadingMinutes: `ceil` returns a float in PHP. The model prints the whole number of minutes, which is what the concatenation shows.
- SchemaGenerator.FaqPart: `in_array` compares loosely. The model compares type names as strings, which agrees for the string names the plugin passes.
- `validate_schema` is not called elsewhere in the plugin. It is modelled and related to the output (`OutputValidIffSingle`).
